# Wishlist toggle

A model of `wishlist.js`, the script that keeps a browser-local wishlist of
clothing items. On page load it reads the product's name, price line and
image reference from the page, sets the "wishlist" button to show whether the
product is already saved, and on every click toggles the product's membership
in the list stored under the `localStorage` key `wishlist`, then updates the
button.

The model has six modules:

- `Wrappers` (`wrappers.dfy`): the `Option` datatype. It stands for a missing
  DOM element, a missing storage key and a `JSON.parse` that throws.
- `Text` (`text.dfy`): the string built-ins the scanner uses.
  - `Trim` is `String.prototype.trim`. Its whitespace set is the ECMAScript
    WhiteSpace and LineTerminator characters.
  - `IndexOf` and `ReplaceFirst` model `String.prototype.replace` with a string
    pattern and a replacement holding no `$` patterns, as the `''` of line 24.
    It replaces only the first occurrence, wherever it is.
- `Wishlist` (`wishlist.dfy`): the pure core.
  - `Item` is the `{name, price, imgSrc}` record.
  - `FindIndex` is `findIndex` and returns -1 for no match. `Contains` is `some`.
  - `RemoveAt` is `splice(i, 1)`.
  - `Toggled` is the list the toggle saves, given the list it loaded.
- `Scanner` (`scanner.dfy`): builds the item from the page (lines 19-27).
- `Store` (`store.dfy`): `localStorage` as a class over a string-to-string map.
  - `Load` is `getWishlist`.
  - `Saved` and `SaveWishlist` model `saveWishlist`.
  - `JSON.parse` and `JSON.stringify` are the two function fields of a `Json`
    value. `Lawful` states the only facts the proofs take from them:
    - `"[]"` parses to the empty list;
    - a stringified list is never the empty string;
    - a stringified list parses back to itself.
- `Controller` (`controller.dfy`): the button as a class with `textContent`
  and a `classList` set, and the two DOM-facing functions as methods.
  - `UpdateWishlistButton` sets the button on page load.
  - `ToggleWishlistItem` runs on a click. It replaces its local copy of the
    loaded list with the list that `splice` or `push` leave, then overwrites
    the stored value.
  - `ClickTwice` shows what a caller can conclude from those contracts. A
    double click on an absent item is a net no-op on the loaded list and on
    the button. The stored text is not restored: the `wishlist` entry then
    holds the loaded list re-stringified, and the key is created if it was
    missing (as it is when the value was empty or failed to parse).

Uniqueness of `imgSrc` is not enforced by storage. It holds only because
every toggle preserves it (`TogglePreservesUnique`). `DuplicateSurvivesToggle`
shows why it matters: with a duplicate, a removing toggle leaves the item in
the list while the button says "Add to Wish List".

## Model

| member | source | states |
|---|---|---|
| `Text.TrimStart` | wishlist.js:22 | the result is a suffix of the input; everything dropped is whitespace; the result does not start with whitespace |
| `Text.TrimEnd` | wishlist.js:22 | the result is a prefix of the input; everything dropped is whitespace; the result does not end with whitespace |
| `Text.Trim` | wishlist.js:22 | the trimmed text has no whitespace at either end, and the input is that text padded with whitespace on both sides |
| `Text.TrimStartPadding` | wishlist.js:22 | leading whitespace in front of a string that does not start with whitespace is removed exactly |
| `Text.TrimEndPadding` | wishlist.js:22 | trailing whitespace after a string that does not end with whitespace is removed exactly |
| `Text.TrimOfPadded` | wishlist.js:22 | trimming any whitespace-padded string without edge whitespace gives back that string, so trim is uniquely determined |
| `Text.TrimIdempotent` | wishlist.js:22 | trimming twice equals trimming once |
| `Text.IndexOf` | wishlist.js:24 | returns the first index where the pattern occurs; returns None exactly when it occurs nowhere |
| `Text.ReplaceFirst` | wishlist.js:24 | with no occurrence the text is unchanged; otherwise only the first occurrence is replaced by the replacement |
| `Text.ReplaceFirstAt` | wishlist.js:24 | when the pattern first occurs right after a prefix, replacing gives prefix + replacement + rest |
| `Text.StripLeadingTag` | wishlist.js:24 | deleting a leading tag and trimming recovers the padded text that followed it |
| `Scanner.ExtractPrice` | wishlist.js:24 | the extracted price has no whitespace at either end, and is the text with its first "Price:" deleted, minus whitespace padding |
| `Scanner.PriceWithoutLabel` | wishlist.js:24 | a price line without "Price:" is only trimmed |
| `Scanner.PriceAroundLabel` | wishlist.js:24 | only the first "Price:" is removed, wherever it stands; the rest of the text is joined and trimmed |
| `Scanner.PriceOfLabelledLine` | wishlist.js:24 | "Price:" followed by padding and an amount gives exactly the amount |
| `Scanner.PriceLabelInside` | wishlist.js:24 | "Sale Price: $8" gives "Sale  $8": the label is removed mid-text, not only as a prefix |
| `Scanner.ScanItem` | wishlist.js:19-27 | an item exists exactly when title, price line and image are all present; its name is the title trimmed (no edge whitespace, title is the name padded); its price is the price line run through `ExtractPrice`; its imgSrc is the attribute verbatim |
| `Wishlist.FindIndex` | wishlist.js:74 | the result is -1 exactly when no entry has the image reference; otherwise it is the index of the first entry that has it |
| `Wishlist.Contains` | wishlist.js:100 | true exactly when some entry has the image reference |
| `Wishlist.RemoveAt` | wishlist.js:78 | one entry is removed; entries before it stay where they were, entries after it move down one place |
| `Wishlist.Toggled` | wishlist.js:74-84 | when some entry matches, the result is the list without its first matching entry; otherwise it is the list with the item appended |
| `Wishlist.ToggleRemovesFirstMatch` | wishlist.js:74-78 | a removing toggle shortens the list by one; entries before the first match are unchanged; entries after it follow in order |
| `Wishlist.ToggleTwiceRestores` | wishlist.js:72-91 | toggling an absent item appends it, and toggling it again gives back exactly the original list |
| `Wishlist.TogglePreservesUnique` | wishlist.js:74-84 | if no two entries shared an imgSrc before a toggle, none do after it |
| `Wishlist.RemoveMatchClearsId` | wishlist.js:76-78 | with unique imgSrc values, removing the first match leaves no entry with that imgSrc |
| `Wishlist.ToggleFlipsMembership` | wishlist.js:74-88 | with unique imgSrc values, the item is in the toggled list exactly when it was not in the original |
| `Wishlist.DuplicateSurvivesToggle` | wishlist.js:74-78 | whenever two entries carry the item's imgSrc, a removing toggle drops only the first, so the item stays in the list |
| `Store.GetItem` | wishlist.js:47 | null (None) exactly when the key is absent; otherwise the stored string |
| `Store.Load` | wishlist.js:45-56 | a non-empty stored value that parses yields the parsed list; one that fails to parse yields the empty list |
| `Store.LoadFallback` | wishlist.js:47-55 | loading yields the empty list when the key is absent, when its value is the empty string, or when the value fails to parse |
| `Store.Saved` | wishlist.js:62-65 | saving writes the stringified list under `wishlist`, adds no other key and leaves every other key unchanged |
| `Store.LoadSaved` | wishlist.js:62-65 | what is saved is exactly what is loaded next: a full overwrite with no merge |
| `Store.SaveWishlist` | wishlist.js:62-65 | the storage becomes the old storage with the `wishlist` entry overwritten by the stringified list |
| `Controller.UpdateWishlistButton` | wishlist.js:98-109 | "Remove from Wish List" with `in-wishlist` added when some stored entry has the imgSrc; otherwise "Add to Wish List" with the class removed; other classes and storage untouched |
| `Controller.ToggleWishlistItem` | wishlist.js:72-91 | stored value becomes the toggled list, no other key changes; the button shows Add/removed class when an entry was removed and Remove/added class when the item was appended; with lawful JSON the next load gives the toggled list; with unique ids, uniqueness is kept and the button agrees with membership |
| `Controller.ToggleReloads` | wishlist.js:72-91 | with lawful JSON, the load after a saved toggle gives the toggled list; if ids were unique they stay unique and the item is present exactly when it was absent before |
| `Controller.ClickTwice` | wishlist.js:33-36 | two clicks on an absent item leave the `wishlist` entry holding the original loaded list stringified, no other key changed, the loaded list restored, and the button as "Add to Wish List" without `in-wishlist` |

## Left out

- DOM event wiring (`DOMContentLoaded`, `querySelector`, `addEventListener`, `preventDefault`, lines 6-18 and 28-38). This is host UI glue. Only the "all three elements present" guard of line 19 is modelled, in `ScanItem`.
- The JSON text format. `JSON.parse` and `JSON.stringify` are built-ins, modelled as opaque function fields. `Lawful` lists the only facts assumed about them.
- Stored JSON that is valid but is not an array of records (for example `"5"`). The source does not handle it: `findIndex` would throw.
- `getAttribute('src')` returning null for an image without a `src` attribute. `imgSrc` is modelled as a string.
- `localStorage` quota and disabled-storage failures. These are unhandled exceptions of a browser API.
- The `console.log` and `console.error` diagnostics (lines 53, 81, 87). They are observability only.
- String indices. Strings are modelled as sequences of code points, not JavaScript's UTF-16 code units, so indices differ after an astral character and a lone surrogate cannot be represented. The result of line 24 does not depend on indices.
- `$` patterns in a replacement string (`$$`, `$&`, and the like). `ReplaceFirst` inserts the replacement literally, which agrees with `replace` only for replacements without `$`, such as the `''` of line 24.
- Concurrency between tabs. The page is single-threaded, and other tabs are outside the script.
