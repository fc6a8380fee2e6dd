# jquery.fn image and comment helpers in Dafny

The repository is a set of jQuery plugins. This project models the parts that do real work:

- **draw_resize.dfy** (`DrawResize`): the canvas size that `_elementToCanvas` of
  jquery.draw.js computes from an element's own size and the caller's `resize` options. The
  `maxWidth`/`maxHeight` clamp writes into the caller's object, so `Resize` is a class and
  `ElementToCanvas` is a method that changes it.
- **draw.dfy** (`Draw`): the rest of jquery.draw.js that the model covers:
  - the encoder arguments of `_canvas2url`;
  - the first lines of `$.draw` (option normalisation, source unwrapping, the target check);
  - the name a converted File is given;
  - the older copies of `$.dataURL.is` and `$.blob.is` that this file installs.
- **dataurl.dfy** (`DataUrl`): the data-URL helpers of jquery.dataURL.js. These are `type`,
  `rawSize`, `size`, `toBlob`, the download name of `save`, `is`, and the encoder arguments of
  `fromCanvas`. The copies of `type`, `size`, `toBlob` and the save name at
  jquery.draw.js:763-820 are the same text and are modelled by the same members.
- **dataurl_dispatch.dfy** (`DataUrlDispatch`) and **blob_dispatch.dfy** (`BlobDispatch`): the
  dispatchers `$.dataURL(source, options)` and `$.blob(source, options)`.
  - Each is an ordered case analysis over the source. Its result is specified by a recursive
    function `Of`.
  - Each is implemented by methods that follow the `switch` and its fall-throughs.
  - Each method is proved to give `Of`'s result. For `$.blob`, "the same result" means the
    same except that a decoded Blob is a new object holding the specified type and bytes.
- **blob.dfy** (`BlobLib`): `$.blob.is`, `$.blob.stamp` (which writes `name` into the Blob),
  the save-name fallback and `$.blob.fromCanvas`.
- **sources.dfy** (`Sources`): the values both dispatchers accept, the merged options, and
  the common tail that wraps the output for `multiple` and `async`.
- **docblocks.dfy** (`DocBlocks`): the line scanner that `parseComments` runs, identically, in
  jquery.yuidoc.js and jquery.jsdoc.js. It is a while loop specified by a function `Blocks`,
  with lemmas on what the blocks are.
- **yuidoc.dfy** (`YuiDoc`):
  - `unindent`, `parseComment` and `parseComments`;
  - `processComment`, both as written and as meant;
  - `processComments` over an array it updates in place.
- **jsdoc.dfy** (`JsDoc`): `unindent`, the text cleaning and `catchErr` wrapping of
  `parse.comment`, and `parse.comments`. `doctrine.parse` is a function parameter.
- **multiline.dfy** (`Multiline`) and **jstext.dfy** (`JsText`): the JavaScript string
  operations the code relies on:
  - `split` and `join`;
  - `replace` of the first occurrence;
  - `toLowerCase` on ASCII;
  - `\s` and `\w` runs;
  - the `^`-anchored global multiline `replace` for the three patterns the parsers build.
- **wrappers.dfy** (`Wrappers`): `Option` and `Result`.

Where the code and the repository's design description disagree, the model follows the code:

- The resize result is not rounded to whole pixels and has no minimum of 1.
- Only an empty video raises; other zero sizes do not.
- A Blob given to `$.blob` without `convert` is handed back as the same object, whatever its type.
- `size` measures the text between the first and the second comma (`split(',')[1]`), not
  the text after the first comma. With no comma it raises a TypeError on reading `length` of
  `undefined`.
- `toBlob` on a URL with no comma passes `atob` the nine characters of `"undefined"`
  (`DataUrl.Payload`), since the string concatenation turns the missing piece into text.
- The length of a decoded Blob is the length of `atob`'s output, which the model leaves
  abstract.
- `maxWidth` and `maxHeight` do not bound the result. The clamp compares `width || intrinsic
  width` with the maximum before the other axis's target scales the element, so a 40x40 image
  with `height` 100 and `maxWidth` 50 is drawn 100x100 (`DrawResize.MaxWidthExceeded`).
- `$.dataURL` and `$.blob` draw an image, a video or a canvas to convert through
  `$.draw.element2canvas`, a data URL to convert through `$.draw.url2canvas` and a Blob to
  convert through `$.draw.blob2canvas` (for `$.blob`, inside `$.blob.convert`). No file
  defines these members: `$.draw` is a plain function, and jquery.draw.js keeps its drawing
  in the private `_elementToCanvas`, `async_url2Canvas` and `async_blob2Canvas`. So each call
  raises a TypeError before any encoding, and it does so in async mode as well, since the
  `$.when` wrapping comes after the case analysis. Each plugin is modelled with its own file's
  members. The `$.blob.convert` and `$.dataURL.is` that jquery.draw.js installs when it is
  loaded as well are not what the dispatchers call here.
- `new Blob(parts, {type})` keeps the type only when every character is printable ASCII and
  then lower-cases it; otherwise the Blob's type is empty (`Sources.BlobType`). So a Blob
  decoded from `data:Image/PNG;base64,...` has type `image/png`.
- `$.blob.stamp` looks the type up in an object literal, so the types `constructor` and
  `__proto__` find the members that literal inherits from `Object.prototype`. An unnamed Blob
  of either type is stamped with that member, which is truthy and not a string. A Blob's type
  is lower case, so no other inherited member can be hit.

## Model

| member | source | states |
|---|---|---|
| `DrawResize.Resize.constructor` | jquery.draw.js:53 | a fresh options object has no option set: no `scale`, and every number option reads as 0 |
| `DrawResize.Clamp` | jquery.draw.js:90-96 | a target is replaced by its maximum when the maximum is set and `target || intrinsic` exceeds it; `scale` and the maxima are kept |
| `DrawResize.ElementToCanvas` | jquery.draw.js:53-113 | the method gives the size `CanvasSize` specifies (or its error), from the caller's options or from none; afterwards the caller's object holds the clamped options, or is unchanged when the call raises or does not scale |
| `DrawResize.NonScalingSides` | jquery.draw.js:57-59 | with `scale: false` each side is its target when set, else the element's `width`, else its CSS size, chosen independently; the options stay unchanged |
| `DrawResize.ClampExact` | jquery.draw.js:90-96 | after the call a target is either unchanged or its maximum; it changes exactly when the maximum is set, exceeded by `target || intrinsic`, and differs from the target |
| `DrawResize.AspectRatioKept` | jquery.draw.js:98-112 | in the scaling branch a finite result keeps the width:height ratio of the starting size |
| `DrawResize.FitInBox` | jquery.draw.js:99-111 | with positive sides and both targets positive, the result fits the box, with equality on the axis of the larger ratio |
| `DrawResize.NoTargetIsIntrinsic` | jquery.draw.js:75-112 | with no target and no clamp triggered, the canvas takes the element's own size and the options stay unchanged |
| `DrawResize.HalfWidthExample` | jquery.draw.js:98-112 | a 1920x1080 image with width 960 gives 960x540 |
| `DrawResize.MaxWidthExample` | jquery.draw.js:90-112 | a 100x100 image with `maxWidth` 50 gives 50x50, and the caller's `width` becomes 50 |
| `DrawResize.MaxWidthExceeded` | jquery.draw.js:90-112 | a 40x40 image with `height` 100 and `maxWidth` 50 gives 100x100, above `maxWidth`, and the caller's `width` stays unset |
| `DrawResize.EmptyVideoRaises` | jquery.draw.js:70-72 | in the scaling branch a video with no frame size raises "HTMLVideoElement is empty!" and changes no option |
| `Draw.CanvasToUrl` | jquery.draw.js:147-154 | a missing options object raises; otherwise the canvas is encoded, with a quality (`quality` or 1) exactly when the type is `image/jpeg` or `image/webp` |
| `Draw.NormaliseOptions` | jquery.draw.js:291 | a plain options object is used as it is; anything else becomes the type of options that scale, are synchronous and set no size |
| `Draw.DataUrlIsLegacy` | jquery.draw.js:840-848 | the older `is` holds only of a string starting with `data:` and only when a test string is given |
| `Draw.DataUrlIsLegacyAgrees` | jquery.draw.js:840-848 | with a second argument the older `is` agrees with `DataUrl.Is` |
| `Draw.DataUrlIsLegacyOneArgument` | jquery.draw.js:841-847 | with one argument the older `is` rejects every data URL that the current `is` accepts |
| `Draw.DataUrlIsLegacyOnTestGif` | jquery.draw.js:840-848 | the test GIF is rejected by the older `is` and accepted by the current one |
| `Draw.BlobIsLegacy` | jquery.draw.js:607-617 | a falsy value is returned as it is, another non-Blob gives false, and a Blob with no test string raises on `str.indexOf` |
| `Draw.BlobIsLegacyAgrees` | jquery.draw.js:607-617 | for a truthy value and a non-empty test string the older `$.blob.is` agrees with `BlobLib.Is` |
| `Draw.FirstOf` | jquery.draw.js:296-298 | elements, Blobs, plain objects and primitives come back as themselves; a jQuery set or an array gives its first item (undefined when empty), and `null` gives undefined |
| `Draw.Prepare` | jquery.draw.js:291-304 | `$.draw` raises "$.draw: Target type not supported: " followed by the target's string form exactly when no element of the target is an img or a canvas; otherwise it goes on with the normalised options |
| `Draw.PrepareNeverDecodes` | jquery.draw.js:292-300 | since the older `is` fails with one argument, the source is never decoded: it goes on unwrapped, and a string goes on as itself |
| `Draw.PrepareAcceptsCanvas` | jquery.draw.js:302-304 | a canvas alone, or an image in a jQuery set, is accepted as target |
| `Draw.Suffix` | jquery.draw.js:539-543 | a type without `/` has the suffix text `undefined` |
| `Draw.SuffixOf` | jquery.draw.js:539-543 | the suffix of a type `a/b` is `b`, with `jpeg` read as `jpg` |
| `Draw.ReplaceSuffixAsWritten` | jquery.draw.js:549 | a name no longer than the suffix is not changed |
| `Draw.ReplaceSuffix` | jquery.draw.js:549 | a name no longer than the suffix is not changed |
| `Draw.RenameAsWritten` | jquery.draw.js:546-550 | equal suffixes keep the name |
| `Draw.Rename` | jquery.draw.js:546-550 | equal suffixes keep the name |
| `Draw.RenameMeaning` | jquery.draw.js:546-550 | with different suffixes `base.old` becomes `base.new`, and a name that does not end in `.old` is kept |
| `Draw.RenameAgreesOnDottedNames` | jquery.draw.js:549 | the rename as written and the literal rename agree on every name that ends in `.` plus the old suffix |
| `Draw.RenameAsWrittenWildcard` | jquery.draw.js:549 | as written, a File named `photojpg` converted from jpeg to png is renamed `phot.png`; the literal rename keeps the name |
| `DataUrl.Type` | jquery.dataURL.js:186-188 | `type` raises on `undefined.split` exactly when the text before the first comma has no `:`; a type holds no `,`, `:` or `;` |
| `DataUrl.TypeWithParams` | jquery.dataURL.js:186-188 | the type of `scheme:mime;params,payload` is `mime` |
| `DataUrl.TypeWithoutParams` | jquery.dataURL.js:186-188 | the type of `scheme:mime,payload` is `mime` |
| `DataUrl.DataUrlHasType` | jquery.dataURL.js:267-269 | `type` never raises on a string starting with `data:` |
| `DataUrl.RawSize` | jquery.dataURL.js:198-201 | the URL's length: zero only for the empty URL, no piece of its comma split longer, and the payload after a comma shorter |
| `DataUrl.Size` | jquery.dataURL.js:212-215 | `size` raises on `undefined.length` exactly when the URL has no comma |
| `DataUrl.RoundQuarter` | jquery.dataURL.js:213 | `Math.round(3n/4)` is `(3n+2) div 4` |
| `DataUrl.SizeOfPayload` | jquery.dataURL.js:212-215 | the size of `head,payload` is `(3 * length + 2) div 4` |
| `DataUrl.SizeBelowRawSize` | jquery.dataURL.js:198-215 | whenever `size` is defined it is below `rawSize` |
| `DataUrl.TestGifFacts` | tests/jquery.dataURL.test.js:131-159 | the test GIF has type `image/gif`, raw size 78 and size 42 |
| `DataUrl.Is` | jquery.dataURL.js:267-279 | `is` holds only of a string starting with `data:` |
| `DataUrl.IsMeaning` | jquery.dataURL.js:267-279 | for a data URL: true with one argument; for a category without `/`, true iff the type is `category/...`; for a full type or an empty string, true iff equal |
| `DataUrl.IsRejectsNonDataUrls` | jquery.dataURL.js:268 | anything but a string starting with `data:` is rejected, whatever the test string |
| `DataUrl.TestGifIs` | tests/jquery.dataURL.test.js:179-189 | null and `"wrong"` are not data URLs; the test GIF is one, is an image, is `image/gif` and is not `image/png` |
| `DataUrl.BlobContent` | jquery.dataURL.js:225-230 | the content is the URL's type as the Blob constructor normalises it, and one byte per character of `atob`'s output, in order, as that character's code; a raising `type` or `atob` raises |
| `DataUrl.ToBlob` | jquery.dataURL.js:225-230 | the loop makes a new unnamed Blob holding exactly `BlobContent`, or raises its error |
| `DataUrl.SaveName` | jquery.dataURL.js:247 | a given name wins; a data URL is saved as its type with the first `/` turned into `.`; any other URL as the text after its last `/` (the whole URL when it has none) |
| `DataUrl.TestGifSaveName` | jquery.dataURL.js:247 | the test GIF is saved as `image.gif` |
| `DataUrl.FromCanvas` | jquery.dataURL.js:168-177 | the canvas is encoded with the arguments `EncoderArgs` gives for `options.type` and `options.quality`: type and `quality || 1` exactly when the type is `image/jpeg` or `image/webp`, otherwise the type alone |
| `Sources.Blob.constructor` | jquery.dataURL.js:229 | a new Blob holds the given type normalised by `BlobType`, and the given bytes and name |
| `Sources.BlobType` | jquery.dataURL.js:229 | the type the Blob constructor keeps: empty when a character is not printable ASCII, else the given type with each character lower-cased |
| `Sources.BlobTypeExamples` | jquery.dataURL.js:229 | `Image/PNG` becomes `image/png`; a type ending in a newline becomes empty |
| `Sources.BlobTypeKeepsNormal` | jquery.dataURL.js:229 | a type already normalised is kept, so normalising is idempotent |
| `Sources.Unwrap` | jquery.dataURL.js:57-61 | a jQuery set is replaced by its first element (undefined when empty); any other value is kept |
| `Sources.FilesOf` | jquery.dataURL.js:99-100 | the files taken from a file input are all Blobs |
| `Sources.Merge` | jquery.dataURL.js:54 | the merged options carry the caller's type, quality, async, multiple, convert, width and height, or the defaults when no options are given |
| `Sources.EncoderArgs` | jquery.dataURL.js:172-176 | a quality (`quality` or 1) is passed exactly for `image/jpeg` and `image/webp`; otherwise only the requested type |
| `Sources.Finish` | jquery.dataURL.js:136-148 | without `async` or `multiple` the output is kept; `multiple` wraps a non-array in an array; `async` always wraps in `$.when`, spreading an array |
| `Sources.Flatten` | jquery.dataURL.js:105-107 | when no child result is an array, `$.map` keeps the results as they are |
| `Sources.Collect` | jquery.dataURL.js:103-111 | the children succeed iff each succeeds, giving their values in order; otherwise the error is that of the first raising child |
| `DataUrlDispatch.DataUrlCall` | jquery.dataURL.js:52-151 | `$.dataURL(source, options)` gives `Of(source, merged options)`, and changes nothing it was given |
| `DataUrlDispatch.Dispatch` | jquery.dataURL.js:57-150 | unwrapping, the cases and the wrapping give `Of` |
| `DataUrlDispatch.CasePart` | jquery.dataURL.js:65-134 | the `switch` with its fall-throughs gives the specified case result |
| `DataUrlDispatch.MapPart` | jquery.dataURL.js:104-107 | the `$.map` loop gives the flattened child results in order, or the first child's error |
| `DataUrlDispatch.ArrayPart` | jquery.dataURL.js:102-113 | the array case maps over every item with `multiple` and takes item 0 without |
| `DataUrlDispatch.UnsupportedSource` | jquery.dataURL.js:130-133 | an unsupported source raises "source not supported" when synchronous and gives a rejected Deferred when asynchronous |
| `DataUrlDispatch.SyncErrors` | jquery.dataURL.js:65-86 | synchronously a Blob raises, and so does a data URL or data-URL image with `convert` |
| `DataUrlDispatch.ArrayCaseOf` | jquery.dataURL.js:98-113 | a file input or an array is worked on through its items |
| `DataUrlDispatch.AsyncErrors` | jquery.dataURL.js:65-148 | with `async` every result is a `$.when`, and the only errors are the TypeErrors of the missing `$.draw.element2canvas`, `$.draw.url2canvas` and `$.draw.blob2canvas` |
| `DataUrlDispatch.AsyncVideoRaises` | jquery.dataURL.js:102-128 | with `async`, an array holding a video raises that TypeError instead of giving a promise |
| `DataUrlDispatch.DataUrlUnchanged` | jquery.dataURL.js:80-97 | without `convert` a data URL, an image with a data-URL src alone or in a jQuery set all give the URL string itself |
| `DataUrlDispatch.ConversionsRaise` | jquery.dataURL.js:66-93 | with `convert`, a Blob raises "Blob handling ..." synchronously and the TypeError of the missing `$.draw.blob2canvas` asynchronously; a data URL or data-URL image raises "dataURL handling ..." synchronously and the TypeError of the missing `$.draw.url2canvas` asynchronously |
| `DataUrlDispatch.BlobIsRead` | jquery.dataURL.js:66-76 | asynchronously, without `convert`, a Blob gives the Deferred of `$.blob.readAsDataURL` on it |
| `DataUrlDispatch.ElementCases` | jquery.dataURL.js:115-128 | a canvas without `convert` is encoded itself; other canvases, plain images and videos raise the TypeError of the missing `$.draw.element2canvas`, in every mode |
| `DataUrlDispatch.ArrayFirstOnly` | jquery.dataURL.js:102-111 | without `multiple` an array gives the result of item 0 (undefined, hence unsupported, when empty) |
| `DataUrlDispatch.MultipleInOrder` | jquery.dataURL.js:102-111 | with `multiple` an array gives its items' results in input order, spliced as `$.map` does |
| `DataUrlDispatch.MultipleDataUrlsInOrder` | jquery.dataURL.js:102-111 | with `multiple` and no `convert` an array of data URLs gives the URLs in order, each wrapped in `$.when` when asynchronous |
| `DataUrlDispatch.FilesInOrder` | jquery.dataURL.js:98-113 | with `multiple` and `async` every file of a file input is read, in order |
| `DataUrlDispatch.AsyncVectors` | tests/jquery.dataURL.test.js:10-51 | the test calls: one URL unchanged; two URLs without `multiple` give the first; with `multiple`, both in order |
| `DataUrlDispatch.ConvertVector` | tests/jquery.dataURL.test.js:53-71 | two URLs with `multiple`, `convert` and type png raise the TypeError of the missing `$.draw.url2canvas` on the first, so the test's promise is never made |
| `BlobDispatch.BlobCall` | jquery.blob.js:55-150 | `$.blob(source, options)` gives `Of(source, merged options)` (a decoded Blob as a new object with that content) and changes nothing it was given |
| `BlobDispatch.Dispatch` | jquery.blob.js:57-149 | unwrapping, the cases and the wrapping give `Of` |
| `BlobDispatch.CasePart` | jquery.blob.js:68-133 | the `switch` with its fall-throughs gives the specified case result |
| `BlobDispatch.MapPart` | jquery.blob.js:103-106 | the `$.map` loop gives the flattened child results in order, or the first child's error |
| `BlobDispatch.ArrayPart` | jquery.blob.js:101-112 | the array case maps over every item with `multiple` and takes item 0 without |
| `BlobDispatch.ArrayCaseOf` | jquery.blob.js:98-112 | a file input or an array is worked on through its items |
| `BlobDispatch.BlobUnchanged` | jquery.blob.js:69-77 | without `convert` a Blob is handed back as the same object |
| `BlobDispatch.SyncErrors` | jquery.blob.js:68-85 | synchronously, with `convert`, a Blob raises "Blob conversion ..." and a data URL or data-URL image raises "dataURL conversion ..." |
| `BlobDispatch.DataUrlDecoded` | jquery.blob.js:83-96 | without `convert` a data URL becomes a Blob of its type, normalised by `BlobType`, holding one byte per character of `atob`'s output, or raises `atob`'s error |
| `BlobDispatch.ElementsRaise` | jquery.blob.js:114-127 | a canvas without `convert` raises the ReferenceError of `fromCanvas`; any other canvas, a plain image or a video raises the TypeError of the missing `$.draw.element2canvas` before `fromCanvas` is reached |
| `BlobDispatch.ConversionsRaise` | jquery.blob.js:68-96 | asynchronously, with `convert`, a Blob raises the TypeError of the missing `$.draw.blob2canvas` (inside `$.blob.convert`) and a data URL or data-URL image that of the missing `$.draw.url2canvas` |
| `BlobDispatch.AsyncErrors` | jquery.blob.js:68-147 | with `async` the only errors are that ReferenceError, the TypeErrors of the three missing `$.draw` members and `atob`'s |
| `BlobLib.Convert` | jquery.blob.js:250-261 | `$.blob.convert` always raises: synchronously its own "Cannot convert blob synchronously." error, asynchronously the TypeError of the missing `$.draw.blob2canvas` |
| `BlobDispatch.MultipleInOrder` | jquery.blob.js:101-112 | with `multiple` an array gives its items' results in input order, spliced as `$.map` does |
| `BlobDispatch.FilesAsThemselves` | jquery.blob.js:98-112 | synchronously, with `multiple` and no `convert`, a file input gives its files themselves, in order |
| `BlobDispatch.AsyncVector` | tests/jquery.blob.test.js:10-22 | asynchronously a data URL gives a `$.when` over one new Blob whose type is the URL's type normalised by `BlobType` and whose bytes are the URL's decoded content |
| `BlobLib.Is` | jquery.blob.js:342-355 | only a Blob passes; any Blob passes with no or an empty test string; a full type passes exactly when it equals the Blob's type |
| `BlobLib.IsMeaning` | jquery.blob.js:342-355 | false for non-Blobs; true for any Blob with no or an empty test string; a category test on `str/`; equality for a full type |
| `BlobLib.IsExamples` | tests/jquery.blob.test.js:65-70 | null, `"wrong"` and a data URL are not Blobs; a Blob is one |
| `BlobLib.DefaultName` | jquery.blob.js:372-376 | the lookup finds `image.` plus the subtype (`jpg` for jpeg) for jpeg, gif and png, the inherited member for `constructor` and `__proto__`, and nothing for any other type |
| `BlobLib.Stamp` | jquery.blob.js:369-382 | the Blob's name becomes its stamped name and is returned; a non-Blob gives undefined |
| `BlobLib.StampMeaning` | jquery.blob.js:369-382 | a named Blob keeps its name; unless read-only, an unnamed jpeg, gif or png gets `image.jpg`, `image.gif` or `image.png` and an unnamed `constructor` or `__proto__` Blob the inherited member; otherwise no name |
| `BlobLib.StampIdempotent` | jquery.blob.js:369-382 | stamping twice is stamping once |
| `BlobLib.SaveName` | jquery.blob.js:325 | the given name, else the Blob's name when truthy (as its string form), else its type with the first `/` turned into `.` |
| `BlobLib.InheritedSaveName` | jquery.blob.js:369-382 | an unnamed `__proto__` Blob is stamped with `Object.prototype` and saved as `[object Object]` |
| `BlobLib.StampedSaveName` | jquery.blob.js:325 | a stamped unnamed Blob with a default name is saved under that name's string form |
| `BlobLib.GifSaveName` | jquery.blob.js:325 | an unnamed gif is saved as `image.gif`, its default name |
| `BlobLib.PngSaveName` | jquery.blob.js:325 | an unnamed png is saved as `image.png`, its default name |
| `BlobLib.JpegSaveName` | jquery.blob.js:325 | an unnamed, unstamped jpeg is saved as `image.jpeg`, while its stamp is `image.jpg` |
| `BlobLib.FromCanvas` | jquery.blob.js:222-238 | raises the ReferenceError of the undeclared `method` unless given an options object with `async`; otherwise encodes with a quality exactly for jpeg and webp |
| `JsText.LowerAsciiAt` | jquery.yuidoc.js:80 | lower-casing works character by character |
| `JsText.SpaceEnd` | jquery.yuidoc.js:11 | the end of the longest `\s` run from a position |
| `JsText.WordEnd` | jquery.yuidoc.js:38 | the end of the longest `\w` run from a position |
| `JsText.SplitPiecesLackSeparator` | jquery.dataURL.js:187 | no piece of a split holds the separator |
| `JsText.JoinSplit` | jquery.dataURL.js:187 | joining the pieces of a split with the separator gives back the string |
| `JsText.SplitAtFirst` | jquery.dataURL.js:187 | the first piece ends at the first separator |
| `JsText.ReplaceFirstAt` | jquery.dataURL.js:247 | replacing a character changes exactly its first occurrence, and a string without it is kept |
| `Multiline.GmLines` | jquery.yuidoc.js:13 | the global multiline removal of a line-local pattern takes the match off the start of each line and changes nothing else |
| `DocBlocks.SplitLines` | jquery.yuidoc.js:91 | splitting on `\r\n` or `\n` gives line-feed-free lines, as many as the line feeds plus one |
| `DocBlocks.ClosesFromMeaning` | jquery.yuidoc.js:103 | a line closes a comment iff it has `*/` followed only by white space |
| `DocBlocks.CloserFrom` | jquery.yuidoc.js:103-107 | the first closing line from a position, or the end of the input |
| `DocBlocks.CollectComment` | jquery.yuidoc.js:103-107 | the inner `while` stops at the first closing line from the opener and collects the lines before it |
| `DocBlocks.Scan` | jquery.yuidoc.js:97-112 | the `for`/`while` loop gives `Blocks`, the opener line dropped from each block |
| `DocBlocks.BodyMeaning` | jquery.yuidoc.js:100-109 | a block's text is the lines after its opener up to, not including, the first closing line, or to the end; an opener that closes itself gives none |
| `DocBlocks.BlocksShape` | jquery.yuidoc.js:97-112 | every block starts at an opener line, with its 1-based number, and holds that opener's text |
| `DocBlocks.BlocksOrdered` | jquery.yuidoc.js:97-112 | blocks come in source order and each starts after the previous one has ended |
| `DocBlocks.BlocksComplete` | jquery.yuidoc.js:97-112 | an opener that lies in no block starts a block |
| `DocBlocks.BlocksMeaning` | jquery.yuidoc.js:97-113 | the blocks are exactly the opener lines outside earlier blocks, in order, each with its 1-based number and its text |
| `YuiDoc.Indent` | jquery.yuidoc.js:11 | the longest run of white space the content starts with |
| `YuiDoc.UnindentLines` | jquery.yuidoc.js:10-16 | `unindent` takes the first line's leading white space off every line that starts with it, and keeps a text without indent |
| `YuiDoc.TagSplit` | jquery.yuidoc.js:38 | the split gives a leading chunk followed by tag and value pairs |
| `YuiDoc.TagSplitShape` | jquery.yuidoc.js:38 | the pieces of the split from a position are a prefix of the rest of the text, then pairs |
| `YuiDoc.TagEntriesIndex` | jquery.yuidoc.js:69-82 | pair k gives the entry named by its tag without `@`, lower-cased, with its value |
| `YuiDoc.DescriptionName` | jquery.yuidoc.js:63 | the description entry is named `description` |
| `YuiDoc.EntriesHead` | jquery.yuidoc.js:40-49 | the results start with the `file` entry and then the `line` entry |
| `YuiDoc.StripLines` | jquery.yuidoc.js:32-34 | each line loses its leading white space and first `*` |
| `YuiDoc.CollectTags` | jquery.yuidoc.js:52-84 | the loop appends the entries of the tokens to the results |
| `YuiDoc.ParseComment` | jquery.yuidoc.js:27-89 | the method gives the specified entries of the comment |
| `YuiDoc.TokensMeaning` | jquery.yuidoc.js:52-84 | a non-empty first chunk gives a description entry, then each tag gives one entry with its value, in order |
| `YuiDoc.TokenTagsLower` | jquery.yuidoc.js:80 | every tag name is lower case |
| `YuiDoc.CommentsOf` | jquery.yuidoc.js:110 | comment k is the parse of block k's text with its line number |
| `YuiDoc.ParseComments` | jquery.yuidoc.js:90-114 | the method gives the parse of every block, in order |
| `YuiDoc.CollatedSnoc` | jquery.yuidoc.js:156-167 | one more entry updates the dictionary by one store |
| `YuiDoc.ProcessComment` | jquery.yuidoc.js:151-169 | the loop, as meant, gives `Collated` |
| `YuiDoc.CollatedMeaning` | jquery.yuidoc.js:151-169 | the keys are exactly the tags present; a tag seen once maps to its value, one seen more often to all its values in order |
| `YuiDoc.ProcessCommentAsWritten` | jquery.yuidoc.js:151-169 | the loop as written gives `FoldAsWritten` |
| `YuiDoc.AsWrittenAgrees` | jquery.yuidoc.js:156-167 | with no inherited tag name, at most two values per tag, and text for a first of two, the loop as written agrees with the meant one |
| `YuiDoc.ConstructorDropped` | jquery.yuidoc.js:158-166 | as written a `constructor` entry is lost; as meant it is kept |
| `YuiDoc.ThirdDropped` | jquery.yuidoc.js:162-165 | as written a third value of a tag is dropped |
| `YuiDoc.ThirdKept` | jquery.yuidoc.js:156-167 | as meant all three values are kept |
| `YuiDoc.ProcessComments` | jquery.yuidoc.js:142-148 | every element of the array is replaced, in place, by the dictionary the loop as written builds (`FoldAsWritten`); a dictionary without a `length` entry gives an empty one |
| `YuiDoc.ProcessedTwice` | jquery.yuidoc.js:142-148 | processing twice leaves every element an empty dictionary |
| `JsDoc.LeadingIndent` | jquery.jsdoc.js:24 | the capture is the content's leading white space plus a `*` that follows it; there is none without leading white space |
| `JsDoc.UnindentAgrees` | jquery.jsdoc.js:23-29 | without a captured star, `unindent` as written and as meant agree |
| `JsDoc.UnindentLines` | jquery.jsdoc.js:23-29 | as meant, the capture is taken off every line starting with it; as written, the expression built from the capture is |
| `JsDoc.StarredExampleAsWritten` | jquery.jsdoc.js:23-29 | as written, `" *a\n  b"` unindents to `"*a\nb"` |
| `JsDoc.StarredExampleMeant` | jquery.jsdoc.js:23-29 | as meant, it unindents to `"a\n  b"` |
| `JsDoc.StarredIndentExample` | jquery.jsdoc.js:46-48 | the text the parser receives for `" * *a\n  b"` is `"*a\nb"` as written and `"a\n  b"` as meant |
| `JsDoc.StarCrossesBlankLine` | jquery.jsdoc.js:47 | `^\s*\*` reaches over a blank line and takes the line feed with it |
| `JsDoc.PreparedAsMeant` | jquery.jsdoc.js:23-48 | when the captured indent holds no star, the text the parser gets as written is the text as meant |
| `JsDoc.ParseComment` | jquery.jsdoc.js:46-56 | the parser's tree of the text cleaned as written (`PrepareAsWritten`); its failure raises without `catchErr` and is returned as `{error}` with it |
| `JsDoc.ParseComments` | jquery.jsdoc.js:67-97 | the method gives the records of the blocks, or the first raised failure |
| `JsDoc.RecordsMeaning` | jquery.jsdoc.js:67-97 | the scan succeeds iff every block parses (as written); then there is one record per block, in order, with its line number and parse |
| `JsDoc.RecordsFirstError` | jquery.jsdoc.js:67-97 | the first block whose parse raises gives the error of the whole scan |
| `JsDoc.CaughtRecords` | jquery.jsdoc.js:67-97 | with `catchErr` the scan never raises and gives one record per block with its line number |

## Left out

- Canvas encoding (`toDataURL`, `toBlob`), image loading and the FileReader and object-URL
  wrappers are foreign browser calls. Their results are opaque constructors, and the model
  takes them not to raise. The drawing the dispatchers ask of `$.draw.element2canvas`,
  `$.draw.url2canvas` and `$.draw.blob2canvas` is not among them: no file defines those
  members, so the model has them raise.
- `Draw.Prepare`: the string form `String(target)` that the error message appends is the
  parameter `show`. It depends on the DOM interface of the element, which the model does not
  carry.
- `$.Deferred` and `$.when` are reduced to a `When` or `Rejected` tag, and the Deferred of
  `$.blob.readAsDataURL` to a `ReadAsUrl` tag. What the promises resolve to is not modelled.
- `atob`, the base64 decoder of section 4 of RFC 4648, is a function parameter that may
  raise.
- `doctrine.parse` is a function parameter. `$.ajax`, `$.get` and the `parseFile`,
  `parseFiles`, `processFiles` and `asyncParse` wrappers around them are network fetches.
- `_readablizeBytes` is floating-point formatting, so the `humanReadable` argument of `rawSize`
  and `size` is not modelled.
- The download itself in `save` (the anchor, the click event, `revokeURL`) is left out. Only
  the name is modelled.
- Any JavaScript number (NaN, a string, a negative width given as a string) is modelled as a
  real number, with 0 for absent, null or 0. IEEE-754 rounding is not modelled.
- jQuery selector tests are constructor tests on the modelled values. A string is taken to
  match no element. HTML strings, which `$()` turns into new elements, string selectors that
  find elements in the document, and invalid selectors, which throw, are not modelled.
- Test strings that the code turns into regular expressions (`"^" + str + "/"`,
  `"." + suffix + "$"`) are read as literal text, apart from the `.` of the rename, which the
  finding below covers. No other regular-expression metacharacter in them is modelled.
- `$.extend({lineNumber}, parsed)` in jquery.jsdoc.js:89-92: a parse result that itself has a
  `lineNumber` property would override it. The model keeps the parse and the line number side
  by side.
- `DataUrl.Is`: a second argument that is explicitly `undefined` (two arguments, one of them
  undefined) is not modelled. The option `None` stands for one argument.
- The assignments to `options.convert` after each case are not modelled. Nothing reads the
  merged object after them except `multiple` and `async`, and each recursive call merges a
  fresh copy.
- `YuiDoc.ProcessComments`: a dictionary that already holds a `length` entry (made by a
  `@length` tag) is processed again with that entry's value as the loop bound, so a positive
  numeric value makes the source throw on `lines[0].tag`. The model gives every dictionary an
  empty one and does not follow that case.
- `YuiDoc.ProcessedTwice`: holds only for dictionaries without a `length` entry, as above.
- `DataUrlDispatch.Dispatch`, `BlobDispatch.Dispatch`: the source's single function is split
  into methods (`CasePart`, `MapPart`, `ArrayPart`). This keeps each proof small. The control
  flow is the same.
- `DocBlocks.Scan`: jquery.jsdoc.js:74-95 runs the same loop as jquery.yuidoc.js:97-112 and is
  modelled by the same method.
- `BlobDispatch.BlobCall` and the other `$.blob` methods promise conformance to `Of`, not
  equality: a Blob decoded from a data URL is a new object. Its type and bytes are specified;
  its identity is not.
- `Draw.Suffix`: its own contract gives only the case without `/`. `Draw.SuffixOf` states the
  general case.
- `Draw.ReplaceSuffixAsWritten`: its own contract gives only short names. What it does with the
  others is stated by `Draw.RenameAgreesOnDottedNames` and `Draw.RenameAsWrittenWildcard`.
- `Draw.ReplaceSuffix`: its own contract gives only short names. `Draw.RenameMeaning` states
  what it does.
- `Draw.RenameAsWritten`: its own contract gives only equal suffixes. The other cases are in
  `Draw.RenameAgreesOnDottedNames` and `Draw.RenameAsWrittenWildcard`.
- `Draw.Rename`: its own contract gives only equal suffixes. `Draw.RenameMeaning` states the
  rest.
- `Draw.DataUrlIsLegacy`: its own contract is one direction. `Draw.DataUrlIsLegacyAgrees` and
  `Draw.DataUrlIsLegacyOneArgument` state the whole of it.
- `DataUrl.Is`: its own contract is one direction. `DataUrl.IsMeaning` gives both.
- Strings are sequences of Unicode scalar values, where JavaScript strings are sequences of
  UTF-16 code units. A character outside the Basic Multilingual Plane counts once here and
  twice there, and a lone surrogate cannot be written at all. The lines below name the
  members where this changes a result.
- `DataUrl.RawSize`: counts a character outside the Basic Multilingual Plane once, where
  `url.length` counts its two code units: `data:,😀` has raw size 8 in the source and 7 here.
- `DataUrl.Size`: measures the payload in characters, not code units, for the same reason:
  the size of `data:,😀` is `Math.round(2 * 3 / 4)` = 2 in the source and 1 here.
- `Draw.ReplaceSuffixAsWritten`: the unescaped `.` of the rename expression has no `u` flag,
  so before a suffix it matches one UTF-16 code unit. A name such as `photo😀jpg` loses only
  the low surrogate in the source and keeps a lone high surrogate; the model replaces the
  whole character, and `Draw.RenameAsWritten` inherits this.
- `BlobLib.Is`: its own contract leaves out the category test. `BlobLib.IsMeaning` gives it.
- `DataUrl.Size`: its own contract gives only the error case. `DataUrl.SizeOfPayload` gives
  the value.
- `Sources.Flatten`: its own contract covers only child results that are not arrays. The
  general case is `DataUrlDispatch.MultipleInOrder` and `BlobDispatch.MultipleInOrder`.

## Findings

| source | as written | input that shows it | evidently intended | confidence | as-written member | corrected member |
|---|---|---|---|---|---|---|
| jquery.draw.js:840-848 | `$.dataURL.is(url)` with one argument compares `undefined === type` and is always false | the test GIF `data:image/gif;base64,R0lG...` with no second argument | true for every data URL, as the module version at jquery.dataURL.js:274-276 and its test at tests/jquery.dataURL.test.js:182 have it | not executed | `Draw.DataUrlIsLegacyOneArgument` | `DataUrl.IsMeaning` |
| jquery.yuidoc.js:158-166 | an entry whose tag is `constructor` finds the inherited `Object.prototype.constructor` (`typeof` "function"), matches no case and is lost | entries `[{tag: "constructor", value: "x"}]` | `{constructor: "x"}` | not executed | `YuiDoc.ConstructorDropped` | `YuiDoc.CollatedMeaning` |
| jquery.yuidoc.js:162-165 | `typeof` of an array is "object", so `case "array"` never matches and a third value of a tag is dropped | three `@param` entries `a`, `b`, `c` | `param: [a, b, c]` | not executed | `YuiDoc.ThirdDropped` | `YuiDoc.ThirdKept` |
| jquery.draw.js:549 | the `.` in `new RegExp("." + oldSuffix + "$")` is not escaped and matches any character | a File named `photojpg` of type image/jpeg converted to image/png | the name kept, since it has no `.jpg` extension | not executed | `Draw.RenameAsWrittenWildcard` | `Draw.RenameMeaning` |
| jquery.jsdoc.js:24-26 | the captured indent `" *"` becomes the expression `^ *`, whose `*` repeats the space: the star stays and every line loses its leading spaces | `unindent(" *a\n  b")`, which is what `parse.comment(" * *a\n  b")` unindents | `"a\n  b"`: the captured text taken off the line starts where it occurs | not executed | `JsDoc.StarredExampleAsWritten` | `JsDoc.UnindentLines` |

The operations that run these code paths follow the code as written:
- `Draw.Prepare` uses the older copy of `is`, and `Draw.PrepareNeverDecodes` states the
  consequence.
- `YuiDoc.ProcessComments` uses the fold as written.
- `JsDoc.ParseComment` and the scan built on it parse the text unindented as written.

Each corrected definition stands beside them. `YuiDoc.AsWrittenAgrees` and
`JsDoc.PreparedAsMeant` state where the two agree. The dispatchers use the module version
`DataUrl.Is` of jquery.dataURL.js.
