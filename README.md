# RenderingHandler, modelled in Dafny

A model of the per-task render step of the PDF viewer's `RenderingHandler`. This is the worker that turns one rendering task into a page part (a rendered tile). Handling a task has these stages:

- **`proceed`** opens the page and rounds the requested size. It skips empty or broken pages and allocates a bitmap. `calculateBounds` computes the render rectangle, and the page is rendered into the bitmap.
- **Match cache.** A thumbnail task with a non-empty search word rescans the page with the text detector and overwrites that page's entry in `pagesBoundBoxes`. The entry is the per-page list of normalised match boxes.
- **Highlighting.** Every cached box for the page is highlighted, in order.
- **`handleMessage`** delivers the part when the handler is running and recycles its bitmap when it is not. It reports a page rendering fault whatever the running flag says.

The model has four modules, one file each:

- **`Wrappers`**: `Option`.
- **`Geometry`**. The coordinate maps, over exact reals:
  - `Math.round` and `RectF.round`, modelled as `floor(x + 1/2)`;
  - the scale-and-translate `Matrix` with `postTranslate`, `postScale` and `mapRect`;
  - the render bounds built by `calculateBounds`;
  - the normalisation of a detected pixel box;
  - the remap of a normalised box into the current bitmap (`highlightBitmap`).
- **`TextSearch`**:
  - the literal, case-insensitive substring test of `Pattern.quote` with `CASE_INSENSITIVE`, with case folding simplified to ASCII letters, and specified by an existential `Occurs`;
  - the element filter, as a specification function;
  - the three nested loops of `searchWordBoundingBox`, as methods proved against that function.
- **`Rendering`**:
  - the task, part, bitmap and outcome datatypes;
  - `Proceeded` and `HandleStep`, which give the result and the new match cache of one step as functions of the state before it;
  - the lemmas that state the step's rules;
  - `class RenderingHandler`, with the fields `running`, `pagesBoundBoxes`, `renderMatrix`, `renderBounds` and `roundedRenderBounds`. `Proceed` and `HandleMessage` are proved equal to `Proceeded` and `HandleStep`. They also state what the scratch fields become. `CalculateBounds` is proved to set the fields to `RenderMatrix`, `RenderBounds` and its rounding. `Start` and `Stop` set the running flag and nothing else.

The collaborators are plain inputs. One `Collaborators` value gives, for the task at hand:

- the fault `openPage` raises, if any;
- `pageHasError`;
- whether bitmap allocation succeeds;
- the fault `renderPageBitmap` raises, if any;
- the text blocks the detector reports.

A bitmap is its size, its format and the list of what was drawn on it (the page content, then the highlight rectangles). It holds no pixels.

Two consequences of the order of operations:

- **Translate, then scale.** The slice `(0.25, 0.25, 0.75, 0.75)` at 100 x 100 maps to `(-50, -50, 150, 150)`: the matrix translates by `-25` and then scales by `2` (`Geometry.CentreSliceRenderBounds`).
- **Fault before skip.** `openPage` runs before the zero-size check. A zero-size task whose page cannot be opened therefore reports a fault instead of being skipped.

## Model

| member | source | states |
|---|---|---|
| Geometry.Round | android-pdf-viewer/src/main/java/com/github/barteksc/pdfviewer/RenderingHandler.java:113-114 | the rounded size is the nearest integer: `r - 1/2 <= x < r + 1/2`, so halves round up |
| Geometry.RoundOfInteger | android-pdf-viewer/src/main/java/com/github/barteksc/pdfviewer/RenderingHandler.java:113-114 | rounding a whole number gives it back |
| Geometry.RoundRect | android-pdf-viewer/src/main/java/com/github/barteksc/pdfviewer/RenderingHandler.java:189 | `RectF.round`: every coordinate lies within a half of its rounded value |
| Geometry.RoundRectOfIntegral | android-pdf-viewer/src/main/java/com/github/barteksc/pdfviewer/RenderingHandler.java:189 | rounding a rectangle with integral coordinates gives the same rectangle |
| Geometry.PostTranslate | android-pdf-viewer/src/main/java/com/github/barteksc/pdfviewer/RenderingHandler.java:184 | the new matrix maps every point to the old image shifted by (dx, dy), so the translation comes after the existing transform |
| Geometry.PostScale | android-pdf-viewer/src/main/java/com/github/barteksc/pdfviewer/RenderingHandler.java:185 | the new matrix maps every point to the old image scaled by (kx, ky), so the scaling comes after the existing transform |
| Geometry.MapRect | android-pdf-viewer/src/main/java/com/github/barteksc/pdfviewer/RenderingHandler.java:188 | the mapped rectangle is sorted, and its sides are the images of the original sides, possibly swapped |
| Geometry.RenderMatrixTranslatesThenScales | android-pdf-viewer/src/main/java/com/github/barteksc/pdfviewer/RenderingHandler.java:183-185 | the render matrix maps x to (x - l*w) / (r - l) and y to (y - t*h) / (b - t): translate first, scale second |
| Geometry.RenderBoundsClosedForm | android-pdf-viewer/src/main/java/com/github/barteksc/pdfviewer/RenderingHandler.java:182-190 | for r > l and b > t, (0, 0, w, h) maps to (-l*w/(r-l), -t*h/(b-t), (1-l)*w/(r-l), (1-t)*h/(b-t)) |
| Geometry.WholePageRenderBounds | android-pdf-viewer/src/main/java/com/github/barteksc/pdfviewer/RenderingHandler.java:182-190 | the whole page (0, 0, 1, 1) gives exactly (0, 0, w, h), both before and after rounding |
| Geometry.CentreSliceRenderBounds | android-pdf-viewer/src/main/java/com/github/barteksc/pdfviewer/RenderingHandler.java:182-190 | the slice (0.25, 0.25, 0.75, 0.75) at 100 x 100 gives (-50, -50, 150, 150) |
| Geometry.Normalize | android-pdf-viewer/src/main/java/com/github/barteksc/pdfviewer/RenderingHandler.java:173 | each normalised coordinate times the image width (horizontal) or height (vertical) is the pixel coordinate |
| Geometry.Remap | android-pdf-viewer/src/main/java/com/github/barteksc/pdfviewer/RenderingHandler.java:152 | each remapped coordinate times the slice extent equals the box's offset from the slice start times the bitmap size |
| Geometry.NormalizeRemapRoundTrip | android-pdf-viewer/src/main/java/com/github/barteksc/pdfviewer/RenderingHandler.java:152 | normalising a pixel box on an image, then remapping it with bounds (0, 0, 1, 1) onto a bitmap of the same size, gives back the pixel box |
| Geometry.RemapOfBoundsFillsBitmap | android-pdf-viewer/src/main/java/com/github/barteksc/pdfviewer/RenderingHandler.java:152 | a match box equal to the bounds maps to (0, 0, W, H) |
| Geometry.RemapAgreesWithRenderBounds | android-pdf-viewer/src/main/java/com/github/barteksc/pdfviewer/RenderingHandler.java:152 | a page position is highlighted where calculateBounds places it: remap(x) = renderBounds.left + x * renderBounds width, and the same vertically |
| TextSearch.AsciiLower | android-pdf-viewer/src/main/java/com/github/barteksc/pdfviewer/RenderingHandler.java:171 | only 'A'..'Z' change, each to its lower-case letter; every other character is unchanged |
| TextSearch.FindFrom | android-pdf-viewer/src/main/java/com/github/barteksc/pdfviewer/RenderingHandler.java:171 | true iff the word matches, ignoring case, at some position at or after `from` |
| TextSearch.ContainsIgnoringCase | android-pdf-viewer/src/main/java/com/github/barteksc/pdfviewer/RenderingHandler.java:171 | `find()` is true iff the word occurs in the text as a literal substring, ignoring ASCII case |
| TextSearch.EmptyWordMatchesAll | android-pdf-viewer/src/main/java/com/github/barteksc/pdfviewer/RenderingHandler.java:171 | the empty word is found in every text |
| TextSearch.CaseIsIgnored | android-pdf-viewer/src/main/java/com/github/barteksc/pdfviewer/RenderingHandler.java:171 | lower-casing both the text and the word does not change the answer |
| TextSearch.DotIsLiteral | android-pdf-viewer/src/main/java/com/github/barteksc/pdfviewer/RenderingHandler.java:171 | a regex metacharacter is matched literally: "a.b" is not found in "axb" but is found in "xA.Bx" |
| TextSearch.ElementBoxesAppend | android-pdf-viewer/src/main/java/com/github/barteksc/pdfviewer/RenderingHandler.java:170-175 | the filter of two element lists in sequence is the filter of the first followed by the filter of the second: the output keeps element order |
| TextSearch.LineBoxesFlat | android-pdf-viewer/src/main/java/com/github/barteksc/pdfviewer/RenderingHandler.java:168-177 | the filter over lines is the filter over their elements concatenated in line order |
| TextSearch.BlockBoxesFlat | android-pdf-viewer/src/main/java/com/github/barteksc/pdfviewer/RenderingHandler.java:164-178 | the filter over blocks is the filter over all their elements taken in block, line, element order |
| TextSearch.ElementBoxesSound | android-pdf-viewer/src/main/java/com/github/barteksc/pdfviewer/RenderingHandler.java:170-175 | every returned box is the normalised box of an element whose text contains the word |
| TextSearch.ElementBoxesComplete | android-pdf-viewer/src/main/java/com/github/barteksc/pdfviewer/RenderingHandler.java:170-175 | the normalised box of every element whose text contains the word is returned |
| TextSearch.DuplicatesKept | android-pdf-viewer/src/main/java/com/github/barteksc/pdfviewer/RenderingHandler.java:174 | two matching elements with the same box give two boxes: duplicates are not removed |
| TextSearch.SearchWordBoundingBox | android-pdf-viewer/src/main/java/com/github/barteksc/pdfviewer/RenderingHandler.java:160-180 | the nested loops return exactly the filter over all blocks |
| TextSearch.AppendBlockMatches | android-pdf-viewer/src/main/java/com/github/barteksc/pdfviewer/RenderingHandler.java:167-177 | the loop over a block's lines appends exactly the filter over those lines |
| TextSearch.AppendLineMatches | android-pdf-viewer/src/main/java/com/github/barteksc/pdfviewer/RenderingHandler.java:169-176 | the loop over a line's elements appends exactly the boxes of its matching elements, in order |
| Rendering.CreateBitmap | android-pdf-viewer/src/main/java/com/github/barteksc/pdfviewer/RenderingHandler.java:120-126 | a bitmap exists iff both sizes are positive and allocation succeeds; it is blank, of the requested size and format |
| Rendering.RenderPageBitmap | android-pdf-viewer/src/main/java/com/github/barteksc/pdfviewer/RenderingHandler.java:129 | the page content is drawn into the bitmap at the rounded render bounds; the size and format are unchanged |
| Rendering.HighlightBitmap | android-pdf-viewer/src/main/java/com/github/barteksc/pdfviewer/RenderingHandler.java:151-158 | exactly one rectangle is added, the remapped box in the highlight colour argb(120, 255, 255, 0); the size and format are unchanged |
| Rendering.HighlightsExactly | android-pdf-viewer/src/main/java/com/github/barteksc/pdfviewer/RenderingHandler.java:142-147 | one highlight per box, and the k-th highlight is the remap of the k-th box |
| Rendering.DeliveredIffRunning | android-pdf-viewer/src/main/java/com/github/barteksc/pdfviewer/RenderingHandler.java:86-98 | a part is delivered iff running and recycled iff not running, never both, and the part is the one proceed produced |
| Rendering.PartIffRenders | android-pdf-viewer/src/main/java/com/github/barteksc/pdfviewer/RenderingHandler.java:109-149 | proceed returns a part iff the page opens, is non-empty and healthy, the bitmap is created and rendering does not fail |
| Rendering.OpenFaultReported | android-pdf-viewer/src/main/java/com/github/barteksc/pdfviewer/RenderingHandler.java:99-111 | an openPage fault is reported and the cache is unchanged, whatever the running flag |
| Rendering.RenderFaultReported | android-pdf-viewer/src/main/java/com/github/barteksc/pdfviewer/RenderingHandler.java:129 | a renderPageBitmap fault is reported and the cache is unchanged, whatever the running flag |
| Rendering.ErrorOnlyFromFaults | android-pdf-viewer/src/main/java/com/github/barteksc/pdfviewer/RenderingHandler.java:83-107 | an error is reported iff openPage faults, or the task reaches rendering and renderPageBitmap faults; the running flag does not change a reported step |
| Rendering.SkipRule | android-pdf-viewer/src/main/java/com/github/barteksc/pdfviewer/RenderingHandler.java:113-126 | a task is skipped iff the page opens and a rounded size is zero, the page has an error, or the bitmap cannot be created; a skipped task leaves the cache unchanged |
| Rendering.CacheUpdateRule | android-pdf-viewer/src/main/java/com/github/barteksc/pdfviewer/RenderingHandler.java:131-137 | only a rendering thumbnail task with a non-empty word replaces its page's entry, with the new scan (possibly empty); every other task leaves the cache unchanged; other pages never change |
| Rendering.PartContents | android-pdf-viewer/src/main/java/com/github/barteksc/pdfviewer/RenderingHandler.java:142-148 | the part carries the task's page, bounds, thumbnail flag and cache order, and a bitmap of the rounded size and requested format that holds the page content and then one highlight per cached box of the page (after this step's update), in order; there are none when the page has no entry |
| Rendering.ThumbnailScanFeedsLaterRender | android-pdf-viewer/src/main/java/com/github/barteksc/pdfviewer/RenderingHandler.java:131-147 | after a scanning thumbnail render of a page, a later non-scanning render of that page highlights exactly the boxes that scan found |
| Rendering.RenderingHandler.constructor | android-pdf-viewer/src/main/java/com/github/barteksc/pdfviewer/RenderingHandler.java:60-74 | a new handler is not running, has an empty match cache and an identity matrix |
| Rendering.RenderingHandler.Start | android-pdf-viewer/src/main/java/com/github/barteksc/pdfviewer/RenderingHandler.java:196-198 | running becomes true and nothing else changes |
| Rendering.RenderingHandler.Stop | android-pdf-viewer/src/main/java/com/github/barteksc/pdfviewer/RenderingHandler.java:192-194 | running becomes false and nothing else changes |
| Rendering.RenderingHandler.CalculateBounds | android-pdf-viewer/src/main/java/com/github/barteksc/pdfviewer/RenderingHandler.java:182-190 | the three scratch fields become the render matrix, the mapped tile rectangle and its rounding |
| Rendering.RenderingHandler.Proceed | android-pdf-viewer/src/main/java/com/github/barteksc/pdfviewer/RenderingHandler.java:109-149 | the result and the new match cache are those of `Proceeded` on the old cache; the scratch bounds are recalculated exactly when the task reaches calculateBounds |
| Rendering.RenderingHandler.DrawHighlights | android-pdf-viewer/src/main/java/com/github/barteksc/pdfviewer/RenderingHandler.java:142-147 | the loop adds one highlight per box to the bitmap, in list order, and changes nothing else |
| Rendering.RenderingHandler.HandleMessage | android-pdf-viewer/src/main/java/com/github/barteksc/pdfviewer/RenderingHandler.java:83-107 | the outcome and the new match cache are those of `HandleStep` on the running flag and the old cache; the scratch bounds are recalculated exactly when the task reaches calculateBounds |

## Left out

- The `Handler`/`Looper`/`Message` queue and `addRenderingTask`: the model handles one task as one sequential step. Posting to `onBitmapRendered` or `onPageError` is an outcome value (`Delivered`, `ErrorReported`), and `recycle()` is `Recycled`.
- The unsynchronised cross-thread `running` flag: concurrency is not modelled. `HandleMessage` reads `running` once, after `proceed`.
- Pixels: `Canvas`, `Paint` and alpha compositing are not modelled. A bitmap records what was drawn on it, in order.
- `TextRecognizer`, `Frame` and the vision types: the detected blocks of lines of (text, pixel box) elements are an input.
- `PdfFile.openPage`, `pageHasError` and `renderPageBitmap`: their answers are inputs, and rendering is recorded as one drawing.
- Floating point: coordinates are exact reals, so float rounding in the matrix arithmetic, `Math.round` saturation and NaN inputs are not modelled.
- `Geometry.MapRect`: models only scale-and-translate matrices, because `calculateBounds` builds no other kind.
- `Rendering.RenderingHandler.Proceed`: requires slice bounds with non-zero width and height. Degenerate bounds would make Java's float division produce infinities or NaN, and that is not modelled.
- `TextSearch.SearchWordBoundingBox`: requires a positive image size. Its only caller passes a bitmap that was created, so the size is always positive.
- `TextSearch.AsciiLower`: the model folds ASCII letters only. Android's ICU-backed regex also folds non-ASCII case under `CASE_INSENSITIVE`, and that is not modelled. So on a device `"école"` would be found in `"ÉCOLE"`, but in the model it is not.
- Logging (`Log.e`, `System.out.println`) and the commented-out `clearBoundBoxes` code: they have no behaviour.
- Following the code, a bitmap is not recycled when `renderPageBitmap` faults. The model records no release of it.
