/**
 * The image-selection screen. A dropdown lists a fixed catalog of names whose position 0 is
 * the sentinel "Select Image". The screen has two labels and two image slots. Choosing the
 * sentinel shows the default labels and clears both images. Choosing a real entry clears
 * both labels, shows that entry's image in the first slot, and shows in the second slot
 * the image of the entry two places further on (wrapping around; see module Rotation).
 * An image slot holds the asset file name it was loaded from, or None when cleared.
 */
module MainActivity {
  import opened AssetKeys
  import opened Rotation

  /** Default text of the first label. */
  const OriginalImage: string := "Original Image"
  /** Default text of the second label. */
  const CompressedImage: string := "Compressed Image"

  /** The catalog the screen is built with; position 0 is the sentinel. */
  const ImageList: seq<string> := ["Select Image", "Girl", "Bus", "Paris"]

  /** What the screen shows: the two label texts and the two image slots. */
  datatype View = View(
    originalText: string,
    compressedText: string,
    originalImage: Option<string>,
    compressedImage: Option<string>)

  /** How a selection event ends: normally, or with the array-index exception the catalog
      lookup raises for a position past its end. */
  datatype Outcome = Handled | IndexOutOfBounds(index: int)

  datatype Transition = Transition(after: View, outcome: Outcome)

  /** The screen in its EMPTY state. */
  const Empty: View := View(OriginalImage, CompressedImage, None, None)

  /** The label defaults and the EMPTY screen hold exactly the literals the screen starts with. */
  lemma ScreenConstants()
    ensures OriginalImage == "Original Image" && CompressedImage == "Compressed Image"
    ensures Empty == View("Original Image", "Compressed Image", None, None)
  {
  }

  /** The shipped catalog: the sentinel followed by three real entries. Only the sentinel
      contains an upper-case 'I', and it is never lowercased, so no looked-up name depends on
      how 'I' is lowercased. */
  lemma ImageListShape()
    ensures |ImageList| == 4 && ImageList[0] == "Select Image"
    ensures ImageList[1..] == ["Girl", "Bus", "Paris"]
    ensures 'I' in ImageList[0]
    ensures forall i :: 1 <= i < |ImageList| ==> 'I' !in ImageList[i]
  {
    assert ImageList[0][7] == 'I';
  }

  /** The effect of selecting `position` on a screen showing `before`. */
  function Select(catalog: seq<string>, before: View, position: int): (t: Transition)
    ensures t.outcome == Handled <==> position <= 0 || position < |catalog|
    ensures t.outcome != Handled ==> t.outcome == IndexOutOfBounds(position)
  {
    if position > 0 then
      var cleared := before.(originalText := "", compressedText := "");
      if position < |catalog| then
        var secondary := SecondaryIndex(position, |catalog|);
        Transition(cleared.(originalImage := Some(AssetKey(catalog[position])),
                            compressedImage := Some(AssetKey(catalog[secondary]))),
                   Handled)
      else
        Transition(cleared, IndexOutOfBounds(position))
    else
      Transition(Empty, Handled)
  }

  /** Selecting the sentinel (or any position not above it) restores the defaults
      and clears both images, whatever was shown before. */
  lemma SelectSentinelResets(catalog: seq<string>, before: View, position: int)
    requires position <= 0
    ensures Select(catalog, before, position).after == Empty
    ensures Select(catalog, before, position).after.originalText == "Original Image"
    ensures Select(catalog, before, position).after.compressedText == "Compressed Image"
    ensures Select(catalog, before, position).after.originalImage.None?
    ensures Select(catalog, before, position).after.compressedImage.None?
  {
  }

  /** Selecting a real entry clears both labels, shows its own asset first, and shows
      second the asset of the real entry two places on (cyclically); that second entry is
      never the sentinel. */
  lemma SelectRealEntry(catalog: seq<string>, before: View, position: int)
    requires 0 < position < |catalog|
    ensures var t := Select(catalog, before, position);
      && t.outcome == Handled
      && t.after.originalText == "" && t.after.compressedText == ""
      && t.after.originalImage == Some(AssetKey(catalog[position]))
      && t.after.compressedImage == Some(AssetKey(catalog[1 + AdvanceTwo(position - 1, |catalog| - 1)]))
  {
    SecondaryIndexAdvances(position, |catalog|);
  }

  /** A position past the end of the catalog clears the labels, then fails on the lookup
      before either image is touched. */
  lemma SelectPastEnd(catalog: seq<string>, before: View, position: int)
    requires position >= |catalog| && position > 0
    ensures var t := Select(catalog, before, position);
      && t.outcome == IndexOutOfBounds(position)
      && t.after == before.(originalText := "", compressedText := "")
  {
  }

  /** A valid selection assigns all four slots: the result does not depend on what the
      screen showed before. */
  lemma SelectForgetsHistory(catalog: seq<string>, v: View, w: View, position: int)
    requires position < |catalog|
    ensures Select(catalog, v, position) == Select(catalog, w, position)
  {
  }

  /** Selecting the same position twice is the same as selecting it once, in every case. */
  lemma SelectIdempotent(catalog: seq<string>, before: View, position: int)
    ensures var once := Select(catalog, before, position);
      Select(catalog, once.after, position) == once
  {
  }

  /** The screen for the shipped catalog, position by position. */
  lemma ImageListTable(before: View)
    ensures Select(ImageList, before, 0).after == View("Original Image", "Compressed Image", None, None)
    ensures Select(ImageList, before, 1).after == View("", "", Some("girl.png"), Some("paris.png"))
    ensures Select(ImageList, before, 2).after == View("", "", Some("bus.png"), Some("girl.png"))
    ensures Select(ImageList, before, 3).after == View("", "", Some("paris.png"), Some("bus.png"))
  {
    var girl, bus, paris := AssetKey(ImageList[1]), AssetKey(ImageList[2]), AssetKey(ImageList[3]);
    assert girl == "girl.png";
    assert bus == "bus.png";
    assert paris == "paris.png";
    assert SecondaryIndex(1, 4) == 3;
    assert SecondaryIndex(2, 4) == 1;
    assert SecondaryIndex(3, 4) == 2;
  }

  /** With the shipped catalog the two slots always show different images. */
  lemma ImageListPairsDiffer(before: View, position: int)
    requires 0 < position < |ImageList|
    ensures Select(ImageList, before, position).after.originalImage
         != Select(ImageList, before, position).after.compressedImage
  {
    var s := SecondaryIndex(position, |ImageList|);
    SecondaryIndexFixedPoint(position, |ImageList|);
    AssetKeyInjective(ImageList[position], ImageList[s]);
  }

  /** With at most two real entries the second slot repeats the first slot's image. */
  lemma SmallCatalogRepeats(catalog: seq<string>, before: View, position: int)
    requires 0 < position < |catalog| <= 3
    ensures Select(catalog, before, position).after.originalImage
         == Select(catalog, before, position).after.compressedImage
  {
    SecondaryIndexFixedPoint(position, |catalog|);
  }

  /** The screen's view state. */
  class Display {
    const catalog: seq<string>
    var originalText: string
    var compressedText: string
    var originalImage: Option<string>
    var compressedImage: Option<string>

    function Current(): View
      reads this
    {
      View(originalText, compressedText, originalImage, compressedImage)
    }

    /** The screen as set up before any selection: default labels; the image slots hold
        whatever the layout gives them. */
    constructor (catalog: seq<string>, layoutOriginal: Option<string>, layoutCompressed: Option<string>)
      ensures this.catalog == catalog
      ensures originalText == "Original Image" && compressedText == "Compressed Image"
      ensures originalImage == layoutOriginal && compressedImage == layoutCompressed
    {
      this.catalog := catalog;
      originalImage := layoutOriginal;
      compressedImage := layoutCompressed;
      originalText := OriginalImage;
      compressedText := CompressedImage;
    }

    /** The dropdown's selection handler. */
    method OnItemSelected(position: int) returns (outcome: Outcome)
      modifies this
      ensures Current() == Select(catalog, old(Current()), position).after
      ensures outcome == Select(catalog, old(Current()), position).outcome
    {
      if position > 0 {
        originalText := "";
        compressedText := "";
        if position >= |catalog| {
          return IndexOutOfBounds(position);
        }
        originalImage := Some(AssetKey(catalog[position]));
        compressedImage := Some(AssetKey(catalog[SecondaryIndex(position, |catalog|)]));
      } else {
        originalText := OriginalImage;
        compressedText := CompressedImage;
        originalImage := None;
        compressedImage := None;
      }
      outcome := Handled;
    }
  }
}
