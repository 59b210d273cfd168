# SuperCompress selection screen, modelled in Dafny

The SuperCompress Android app has a single screen. A dropdown lists a fixed catalog,
`["Select Image", "Girl", "Bus", "Paris"]`, and position 0 is the sentinel "Select Image".
The screen also has two labels and two image views. The app contains no compression code:
the "compressed" image is just another asset from the same catalog.

The selection handler is a small state machine with two states:

- EMPTY: position 0 (or any position that is not positive) is selected. The labels read
  "Original Image" and "Compressed Image" and both image views are cleared.
- PAIRED: a real entry at position `p` is selected. Both labels are set to the empty string.
  The first view shows the asset `lowercase(catalog[p]) + ".png"`. The second view shows
  the asset of `catalog[1 + ((p + 1) % (size - 1))]`, which is the real entry two places
  further on, wrapping around past the last entry and never landing on the sentinel.

The project has three modules:

- `AssetKeys` (asset_keys.dfy): ASCII lowercasing and the asset file name of an entry.
- `Rotation` (rotation.dfy): the second-image index. It is proved to stay in bounds and
  to avoid the sentinel. It is also proved to be a permutation of the real entries, with
  an explicit inverse, and to have a fixed point exactly when there are at most two real
  entries.
- `MainActivity` (main_activity.dfy): the label constants, the catalog, a pure transition
  function `Select`, and the class `Display`. `Display` holds the four view slots and has
  a constructor plus the `OnItemSelected` handler, which updates the slots in place.

An image view is modelled as `Option<string>`: either the asset name it was loaded from,
or `None` once it has been cleared to transparent. A selection past the end of the
catalog is modelled too. The Kotlin code clears both labels first, and then the array
lookup throws before either image is touched. The model returns this as the outcome
`IndexOutOfBounds`.

## Model

| member | source | states |
|---|---|---|
| AssetKeys.AsciiLower | android/app/src/main/java/com/example/supercompress/MainActivity.kt:51 | an upper-case ASCII letter becomes the lower-case letter at the same place in the alphabet; every other character is unchanged; the result is never upper case |
| AssetKeys.AsciiLowerAlphabet | android/app/src/main/java/com/example/supercompress/MainActivity.kt:51 | the letters A to Z map one by one onto a to z |
| AssetKeys.Lower | android/app/src/main/java/com/example/supercompress/MainActivity.kt:51 | lowercasing keeps the length and lowercases every character in place |
| AssetKeys.AssetKey | android/app/src/main/java/com/example/supercompress/MainActivity.kt:51 | an asset name is the entry's characters lowercased, followed by ".png", and contains no upper-case letter |
| AssetKeys.LowerFixesNoUpper | android/app/src/main/java/com/example/supercompress/MainActivity.kt:51 | a string with no upper-case ASCII letter is its own lowercase |
| AssetKeys.LowerIdempotent | android/app/src/main/java/com/example/supercompress/MainActivity.kt:51 | lowercasing twice gives the same result as lowercasing once |
| AssetKeys.AssetKeyIsLower | android/app/src/main/java/com/example/supercompress/MainActivity.kt:51 | an asset name is already in lower case |
| AssetKeys.StemOfAssetKey | android/app/src/main/java/com/example/supercompress/MainActivity.kt:51 | removing ".png" from an asset name gives back the lowercased entry name (round trip) |
| AssetKeys.AssetKeyInjective | android/app/src/main/java/com/example/supercompress/MainActivity.kt:51 | two entries share an asset file if and only if their names agree up to ASCII case |
| Rotation.SecondaryIndex | android/app/src/main/java/com/example/supercompress/MainActivity.kt:55 | for a catalog of size at least 2 and a selected position 1..size-1, the second image's index lies in 1..size-1, so it is in bounds and never the sentinel |
| Rotation.SecondaryIndexAdvances | android/app/src/main/java/com/example/supercompress/MainActivity.kt:55 | the `%` formula equals a two-step cyclic advance among the real entries, defined without `%` |
| Rotation.PrimaryOfSecondary | android/app/src/main/java/com/example/supercompress/MainActivity.kt:55 | applying the explicit inverse after the secondary index gives back the selected position |
| Rotation.SecondaryOfPrimary | android/app/src/main/java/com/example/supercompress/MainActivity.kt:55 | the secondary index reaches every real position, so together with the lemma above it is a permutation of 1..size-1 |
| Rotation.SecondaryIndexInjective | android/app/src/main/java/com/example/supercompress/MainActivity.kt:55 | two selections give the same second index if and only if they are the same selection |
| Rotation.SecondaryIndexFixedPoint | android/app/src/main/java/com/example/supercompress/MainActivity.kt:55 | the second index equals the selected one if and only if the catalog has at most two real entries |
| MainActivity.ScreenConstants | android/app/src/main/java/com/example/supercompress/MainActivity.kt:13-14 | the constants `OriginalImage` and `CompressedImage` are exactly "Original Image" and "Compressed Image", and the constant `Empty` (the cleared screen of :58-62) shows those two labels and no images |
| MainActivity.ImageListShape | android/app/src/main/java/com/example/supercompress/MainActivity.kt:22 | the constant `ImageList` is exactly the sentinel "Select Image" followed by "Girl", "Bus", "Paris"; only the sentinel contains an upper-case I |
| MainActivity.Select | android/app/src/main/java/com/example/supercompress/MainActivity.kt:47-62 | a selection ends normally if and only if the position is not positive or lies inside the catalog; otherwise it raises the out-of-bounds outcome for that position |
| MainActivity.SelectSentinelResets | android/app/src/main/java/com/example/supercompress/MainActivity.kt:58-62 | selecting position 0 (or a negative one) gives exactly the labels "Original Image" / "Compressed Image" and two cleared images, whatever was shown before |
| MainActivity.SelectRealEntry | android/app/src/main/java/com/example/supercompress/MainActivity.kt:47-57 | selecting a real entry ends normally, clears both labels, shows that entry's asset first, and shows second the asset of the real entry two places on, cyclically |
| MainActivity.SelectPastEnd | android/app/src/main/java/com/example/supercompress/MainActivity.kt:47-51 | a position past the end clears both labels, leaves both images unchanged and raises the out-of-bounds outcome |
| MainActivity.SelectForgetsHistory | android/app/src/main/java/com/example/supercompress/MainActivity.kt:47-62 | for any in-range position the resulting screen and outcome do not depend on the earlier screen |
| MainActivity.SelectIdempotent | android/app/src/main/java/com/example/supercompress/MainActivity.kt:47-62 | selecting the same position twice in a row gives the same screen and outcome as selecting it once |
| MainActivity.ImageListTable | android/app/src/main/java/com/example/supercompress/MainActivity.kt:22-55 | for the shipped catalog, position 0 shows the defaults; 1 shows girl.png/paris.png; 2 shows bus.png/girl.png; 3 shows paris.png/bus.png |
| MainActivity.ImageListPairsDiffer | android/app/src/main/java/com/example/supercompress/MainActivity.kt:22-55 | for the shipped catalog the two image views never show the same asset |
| MainActivity.SmallCatalogRepeats | android/app/src/main/java/com/example/supercompress/MainActivity.kt:55 | with one or two real entries the second view always repeats the first view's asset |
| MainActivity.Display.constructor | android/app/src/main/java/com/example/supercompress/MainActivity.kt:33-34 | before any selection the labels hold "Original Image" / "Compressed Image" |
| MainActivity.Display.OnItemSelected | android/app/src/main/java/com/example/supercompress/MainActivity.kt:41-64 | the handler updates the four slots in place to exactly the screen `Select` gives for the old screen, and returns `Select`'s outcome |

## Left out

- `onCreate` plumbing (`setContentView`, `findViewById`, the spinner adapter) has no logic of its own. The catalog and the view slots are modelled as plain values instead.
- `assets.open` and `BitmapFactory.decodeStream` are file I/O and image decoding. An image view is modelled as the asset name passed to `assets.open`. A missing asset would raise an exception that is not modelled.
- The images the views show before any selection come from the layout file, which is not part of this model. They are constructor parameters.
- `onNothingSelected` is left out. It is an unimplemented `TODO` that throws, and nothing in the code calls it.
- Lower: only ASCII `A`-`Z` are lowercased, using fixed, locale-independent rules. Kotlin's `toLowerCase()` follows the device's default locale. It lowercases non-ASCII letters too, and under a Turkish or Azeri locale it maps the ASCII `I` to the dotless `ı` (U+0131). The shipped app is unaffected: the names that are lowercased (`Girl`, `Bus`, `Paris`) contain no `I`, and the sentinel "Select Image" is never lowercased (`MainActivity.ImageListShape`). The general-catalog lemmas match the source only under a locale with the ASCII rules for `I`.
- Rotation.SecondaryIndex: Kotlin's 32-bit `Int` is not modelled. The position is below the array size, so `position + 1` cannot overflow. Kotlin's truncating `%` matches Dafny's Euclidean `%` here because both operands are positive.
- There is no image compression anywhere in the app, so none is modelled.
- The second image is the entry two places on, not the next one. With three real entries that is the previous entry (1→3, 2→1, 3→2).
