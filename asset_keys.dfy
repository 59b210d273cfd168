/**
 * Asset keys: the file name under which a catalog entry's image is stored in the
 * application's assets, built as the entry's name in lower case followed by ".png".
 * Lowercasing is modelled over ASCII only.
 */
module AssetKeys {

  datatype Option<+T> = None | Some(value: T)

  const Suffix: string := ".png"

  predicate IsAsciiUpper(c: char) { 'A' <= c <= 'Z' }

  predicate IsAsciiLower(c: char) { 'a' <= c <= 'z' }

  /** Lower case of one character: upper-case ASCII letters move to their lower-case
      partners, every other character is left as it is. */
  function AsciiLower(c: char): (r: char)
    ensures !IsAsciiUpper(r)
    ensures IsAsciiUpper(c) ==> r as int - 'a' as int == c as int - 'A' as int
    ensures r == c <==> !IsAsciiUpper(c)
    ensures IsAsciiLower(r) <==> IsAsciiUpper(c) || IsAsciiLower(c)
  {
    if IsAsciiUpper(c) then (c as int - 'A' as int + 'a' as int) as char else c
  }

  /** Lower case of a string, character by character. */
  function Lower(s: string): (r: string)
    ensures |r| == |s|
    ensures forall i :: 0 <= i < |s| ==> r[i] == AsciiLower(s[i])
  {
    if s == [] then [] else [AsciiLower(s[0])] + Lower(s[1..])
  }

  /** True when no character of s is an upper-case ASCII letter. */
  predicate NoUpper(s: string) {
    forall i :: 0 <= i < |s| ==> !IsAsciiUpper(s[i])
  }

  /** The asset file name of a catalog entry. */
  function AssetKey(name: string): (key: string)
    ensures |key| == |name| + |Suffix|
    ensures key[|name|..] == Suffix
    ensures forall i :: 0 <= i < |name| ==> key[i] == AsciiLower(name[i])
    ensures NoUpper(key)
  {
    Lower(name) + Suffix
  }

  /** The entry name encoded in an asset file name, if the file name has the ".png" suffix. */
  function Stem(key: string): (r: Option<string>)
    ensures r.Some? <==> |key| >= |Suffix| && key[|key| - |Suffix|..] == Suffix
    ensures r.Some? ==> r.value + Suffix == key
  {
    if |key| >= |Suffix| && key[|key| - |Suffix|..] == Suffix
    then Some(key[..|key| - |Suffix|]) else None
  }

  /** Lowercasing maps the upper-case alphabet onto the lower-case one, letter by letter. */
  lemma AsciiLowerAlphabet()
    ensures forall i :: 0 <= i < 26 ==>
      AsciiLower("ABCDEFGHIJKLMNOPQRSTUVWXYZ"[i]) == "abcdefghijklmnopqrstuvwxyz"[i]
  {
  }

  /** A string without upper-case letters is its own lower case. */
  lemma LowerFixesNoUpper(s: string)
    requires NoUpper(s)
    ensures Lower(s) == s
  {
  }

  /** Lowercasing twice is lowercasing once. */
  lemma LowerIdempotent(s: string)
    ensures Lower(Lower(s)) == Lower(s)
  {
    LowerFixesNoUpper(Lower(s));
  }

  /** An asset key is already in lower case. */
  lemma AssetKeyIsLower(name: string)
    ensures Lower(AssetKey(name)) == AssetKey(name)
  {
    LowerFixesNoUpper(AssetKey(name));
  }

  /** Stripping the suffix from an asset key gives back the lower-cased entry name. */
  lemma StemOfAssetKey(name: string)
    ensures Stem(AssetKey(name)) == Some(Lower(name))
  {
  }

  /** Two entries share an asset file exactly when their names agree up to ASCII case. */
  lemma AssetKeyInjective(a: string, b: string)
    ensures AssetKey(a) == AssetKey(b) <==> Lower(a) == Lower(b)
  {
  }
}
