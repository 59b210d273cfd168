/**
 * The index of the second image shown for a selection. Position 0 of the catalog is a
 * sentinel ("no selection"); the n = size - 1 real entries sit at positions 1..n. For a
 * selected real entry at position p the second image is taken from position
 * 1 + ((p + 1) mod n), which moves two places forward among the real entries, wrapping
 * around past the last one.
 */
module Rotation {

  /** The second image's catalog position for the selected position p. Kotlin's `%`
      truncates toward zero, Dafny's is Euclidean; both operands are positive here, so
      they agree. */
  function SecondaryIndex(p: int, size: int): (s: int)
    requires 2 <= size && 0 < p < size
    ensures 1 <= s <= size - 1
  {
    1 + ((p + 1) % (size - 1))
  }

  /** Reference definition without `%`: advance an offset j in [0, n) by two, cyclically. */
  function AdvanceTwo(j: int, n: int): (r: int)
    requires 0 <= j < n
    ensures 0 <= r < n
  {
    if j + 2 < n then j + 2 else if j + 2 < 2 * n then j + 2 - n else j + 2 - 2 * n
  }

  /** Its inverse: move an offset j in [0, n) two places back, cyclically. */
  function RetreatTwo(j: int, n: int): (r: int)
    requires 0 <= j < n
    ensures 0 <= r < n
  {
    if j >= 2 then j - 2 else if j + n >= 2 then j + n - 2 else j + 2 * n - 2
  }

  /** The selected position whose second image is at position s: the inverse of SecondaryIndex. */
  function PrimaryIndex(s: int, size: int): (p: int)
    requires 2 <= size && 0 < s < size
    ensures 1 <= p <= size - 1
  {
    1 + RetreatTwo(s - 1, size - 1)
  }

  /** Adding a small multiple of n does not change the remainder modulo n. */
  lemma ModShift(x: int, n: int, k: int)
    requires 0 <= x < n && 0 <= k <= 2
    ensures (x + k * n) % n == x
  {
    if k == 1 {
      assert x + k * n == x + n;
    } else if k == 2 {
      assert x + k * n == x + n + n;
    }
  }

  /** The `%` in SecondaryIndex is the cyclic two-step advance among the real entries. */
  lemma SecondaryIndexAdvances(p: int, size: int)
    requires 2 <= size && 0 < p < size
    ensures SecondaryIndex(p, size) == 1 + AdvanceTwo(p - 1, size - 1)
  {
    var n, j := size - 1, p - 1;
    if j + 2 < n {
      ModShift(j + 2, n, 0);
    } else if j + 2 < 2 * n {
      ModShift(j + 2 - n, n, 1);
    } else {
      ModShift(j + 2 - 2 * n, n, 2);
    }
  }

  /** PrimaryIndex undoes SecondaryIndex. */
  lemma PrimaryOfSecondary(p: int, size: int)
    requires 2 <= size && 0 < p < size
    ensures PrimaryIndex(SecondaryIndex(p, size), size) == p
  {
    SecondaryIndexAdvances(p, size);
  }

  /** SecondaryIndex undoes PrimaryIndex. */
  lemma SecondaryOfPrimary(s: int, size: int)
    requires 2 <= size && 0 < s < size
    ensures SecondaryIndex(PrimaryIndex(s, size), size) == s
  {
    SecondaryIndexAdvances(PrimaryIndex(s, size), size);
  }

  /** Distinct selections show distinct second images. */
  lemma SecondaryIndexInjective(p: int, q: int, size: int)
    requires 2 <= size && 0 < p < size && 0 < q < size
    ensures SecondaryIndex(p, size) == SecondaryIndex(q, size) <==> p == q
  {
    PrimaryOfSecondary(p, size);
    PrimaryOfSecondary(q, size);
  }

  /** The second image is the selected one itself exactly when there are at most two real
      entries: with one entry it is the only choice, with two the step of two wraps back. */
  lemma SecondaryIndexFixedPoint(p: int, size: int)
    requires 2 <= size && 0 < p < size
    ensures SecondaryIndex(p, size) == p <==> size <= 3
  {
    SecondaryIndexAdvances(p, size);
  }
}
