# Image annotation and region extraction, in Dafny

This project models the core of a small OpenCV annotation tool. An operator
drags rectangles over a loaded image with the mouse. The `m` key switches
between rectangle and circle drawing. When the operator presses Enter, each
recorded rectangle is cut out of the image and written to
`cropped_region_<n>.jpg`.

The model has two parts.

- **Annotation session** (`annotation.dfy`, module `Annotation`). The mouse
  callback `draw_annotation` and the mode toggle. The state is:
  - the `drawing` flag;
  - the anchor `(ix, iy)`, initially `(-1, -1)`;
  - the mode;
  - the append-only list of rectangles;
  - the committed image `img`.

  The pure transition function `Step` (and `Run` over a sequence of events)
  is the specification. Class `Session` holds the same state in mutable
  fields. It has methods `Down`, `Move`, `Up` and `Toggle`, and each one is
  proved to agree with `Step`.

  The committed image is a `Canvas`: the loaded pixels plus the shapes burned
  into it, in order. Burning a shape appends it. How a shape is rasterised is
  not modelled.

  The session invariant `Consistent` says the recorded rectangles are exactly
  the outlines burned into the image, in order. Circle markers are burned but
  never recorded. `Move` has no `modifies` clause and returns the preview
  frame. This is the copy discipline of `img.copy()`: a preview never touches
  the committed image. `Up` does not check `drawing`, so a release with no
  press commits from the stale anchor (`ReleaseWithoutPress`).
- **Region extractor** (`extraction.dfy`, module `Extraction`; file names in
  `naming.dfy`, module `Naming`). This is `crop_and_save`:
  - a blank-image guard that stops the whole batch;
  - independent sorting of the x pair and the y pair (`Normalize`);
  - the acceptance test (`Acceptable`): positive area, inside the image,
    no clamping;
  - the half-open crop `image[y1:y2, x1:x2]` (`Crop`);
  - the file name `cropped_region_{i+1}.jpg` (`FileName`);
  - one outcome per rectangle: `Saved`, `WriteFailed` or `Invalid`.

  An image is a `seq<seq<T>>` of rows, indexed `g[y][x]`, with every row the
  same length. The image writer `cv.imwrite` is an input oracle
  `writeOk(name, block)`, which says whether a write succeeds. The
  specification is the function `Extract`. The method `CropAndSave` runs the
  source's `for` loop and is proved equal to `Extract`.

`scenarios.dfy` (module `Scenarios`) strings the two parts together:
- a drag that is recorded and then extracted;
- a circle marker that is never extracted;
- an out-of-bounds rectangle that leaves a good one's outcome unchanged;
- a drag driven through the `Session` class.

Three details of the code the model keeps:
- An invalid rectangle carries the normalized rectangle that failed (that is
  what the source reports), not a reason naming the failed constraint.
- When the list of rectangles is empty, extraction is not called at all, so
  there is not even the blank-image check (`Finish`, lines 115-116).
- The crop in the source is a view of the image, not a copy. In the model
  every value is immutable, so the difference cannot be observed.

## Model

| member | source | states |
|---|---|---|
| `Annotation.Flip` | submission.py:109-110 | the `m` key always changes the mode |
| `Annotation.Step` | submission.py:22-46 | one event: the loaded image is kept; the list and the burned shapes only grow at the end; button-down starts dragging at the pointer; button-up stops dragging, keeps the anchor and burns exactly the shape of the current mode, and in rectangle mode appends exactly (anchor, pointer); moves and other mouse events change nothing; the `m` key flips the mode and no other event changes it; the list grows by one exactly on a button-up in rectangle mode |
| `Annotation.Initial` | submission.py:16-19 | a loaded session is not dragging, has anchor (-1, -1), is in rectangle mode, has an empty list, and satisfies the session invariant |
| `Annotation.ShapeFor` | submission.py:32-35 | the shape is an outline exactly in rectangle mode, running from the anchor to the pointer; otherwise a radius-5 marker centred on the pointer, not on the anchor |
| `Annotation.Burn` | submission.py:42-45 | drawing into the committed image keeps the loaded image and every shape already drawn, and puts the new shape on top |
| `Annotation.Run` | submission.py:22-46 | callbacks applied in order; no events leave the state as it is, and each event adds at most one rectangle and at most one burned shape |
| `Annotation.Preview` | submission.py:29-36 | a frame is shown exactly while dragging; it is the committed image with one extra shape on top, and the committed shapes are unchanged |
| `Annotation.StepKeepsConsistent` | submission.py:38-45 | every transition keeps the recorded rectangles equal to the outlines burned into the image |
| `Annotation.RunKeepsConsistent` | submission.py:38-45 | the same invariant over any sequence of events |
| `Annotation.RunAppendOnly` | submission.py:43 | over any sequence of events, earlier rectangles and burned shapes are never removed or changed, and the loaded image is never replaced |
| `Annotation.RunMovesOnly` | submission.py:29-36 | any number of mouse-moves (or ignored mouse events), dragging or not, leave the whole state unchanged |
| `Annotation.RunBurnsOnePerRelease` | submission.py:38-45 | the image gains exactly one shape per button-up, in either mode and with or without a preceding button-down |
| `Annotation.RunRecordsRectangleCommits` | submission.py:40-45 | the list grows exactly by the number of button-ups made in rectangle mode, following the mode through each toggle |
| `Annotation.RunModeParity` | submission.py:109-110 | the mode after a run is the starting mode flipped once per `m` press (its parity) |
| `Annotation.ReleaseWithoutPress` | submission.py:38-43 | a button-up with no button-down records and burns the rectangle from the initial anchor (-1, -1) |
| `Annotation.Session.constructor` | submission.py:16-19 | a new session is not dragging, has anchor (-1, -1), is in rectangle mode and has an empty list |
| `Annotation.Session.Down` | submission.py:25-27 | sets dragging and records the anchor; mode, list and image are unchanged |
| `Annotation.Session.Move` | submission.py:29-36 | changes nothing; returns the preview (the committed image plus an outline from the anchor, or a radius-5 marker at the pointer) while dragging, and nothing otherwise |
| `Annotation.Session.Up` | submission.py:38-46 | stops dragging; in rectangle mode appends exactly ((ix, iy), (x, y)) and burns that outline; in circle mode burns a marker at (x, y) and leaves the list unchanged |
| `Annotation.Session.Toggle` | submission.py:109-110 | flips the mode; dragging, anchor, list and image are unchanged |
| `Naming.Decimal` | submission.py:71 | the index is written as decimal digits, with no sign and no leading zero |
| `Naming.DecimalRoundTrip` | submission.py:71 | reading the decimal form back gives the number |
| `Naming.FileName` | submission.py:71 | the name is `cropped_region_`, then the decimal form of i+1, then `.jpg` |
| `Naming.FileNameInjective` | submission.py:71 | different indices get different file names |
| `Naming.FileNameExamples` | submission.py:71 | indices 0 and 11 are written to `cropped_region_1.jpg` and `cropped_region_12.jpg` |
| `Extraction.Sorted2` | submission.py:60-61 | `sorted` of a pair gives it in ascending order, as a permutation of the two values |
| `Extraction.Normalize` | submission.py:60-61 | x1 <= x2 and y1 <= y2, and each pair is a permutation of the recorded pair |
| `Extraction.NormalizeIdempotent` | submission.py:60-61 | normalizing a normalized rectangle changes nothing |
| `Extraction.NormalizeSymmetric` | submission.py:60-61 | swapping the anchor and the release point, or pairing the corners the other way, gives the same rectangle |
| `Extraction.NormalizeUnique` | submission.py:60-61 | the normalized rectangle is the only ordered rectangle built from the same x pair and y pair |
| `Extraction.Blank` | submission.py:51 | an image is blank exactly when it is missing or its size (height times width) is zero |
| `Extraction.Acceptable` | submission.py:64 | a normalized rectangle passes exactly when it is non-empty and both its top-left pixel and its bottom-right pixel (the last one inside the half-open range) exist in the image |
| `Extraction.AcceptableOnCorners` | submission.py:64 | a rectangle is accepted if and only if its x values differ, its y values differ and all four recorded coordinates lie within 0..width and 0..height |
| `Extraction.Crop` | submission.py:66 | the block has y2-y1 rows of x2-x1 pixels each, and pixel [r][c] is image[y1+r][x1+c] |
| `Extraction.Process` | submission.py:59-80 | a rectangle is invalid (carrying its normalized form, no write attempted) exactly when it fails the test; otherwise the block of the right size and content is written to `cropped_region_{i+1}.jpg`, and the outcome is Saved exactly when the write succeeds |
| `Extraction.Outcomes` | submission.py:57 | one outcome per rectangle |
| `Extraction.OutcomeAt` | submission.py:57-80 | the outcome at position i is rectangle i handled at index i, whatever the other entries are |
| `Extraction.Extract` | submission.py:51-57 | a missing or empty image stops the batch with no outcome at all; otherwise there is one outcome per rectangle |
| `Extraction.ExtractAt` | submission.py:57-80 | on a non-blank image, outcome i is rectangle i handled at index i, so outcomes come in list order |
| `Extraction.CropOne` | submission.py:58-80 | the loop body computes exactly the specified outcome for its rectangle |
| `Extraction.ProcessAll` | submission.py:57-80 | the loop yields the outcomes of all rectangles, in list order |
| `Extraction.CropAndSave` | submission.py:49-80 | the whole call equals the specification `Extract` |
| `Extraction.Finish` | submission.py:115-116 | extraction runs exactly when at least one rectangle was recorded |
| `Extraction.ZeroAreaInvalid` | submission.py:64 | a rectangle with equal x values or equal y values is invalid, whatever its other coordinates |
| `Extraction.OutOfBoundsInvalid` | submission.py:64 | a rectangle with any negative coordinate, or reaching past the width or the height, is invalid rather than clamped |
| `Extraction.OutcomeIsolated` | submission.py:57-80 | replacing one entry of the list does not change any other entry's outcome |
| `Extraction.OutcomesPrefix` | submission.py:57 | rectangles added later never change the outcomes of earlier ones |
| `Extraction.WrittenFilesDistinct` | submission.py:71-72 | no two writes in one batch go to the same file |
| `Scenarios.DragRecordsOneRectangle` | submission.py:25-43 | a drag from (10,10) to (50,60) records exactly that corner pair and burns exactly that outline |
| `Scenarios.DragThenExtract` | submission.py:49-74 | extracting that drag from a 100x100 image gives one outcome, written to `cropped_region_1.jpg`, a block 40 wide and 50 high starting at pixel (10,10) |
| `Scenarios.MarkerNotRecorded` | submission.py:38-45 | after a toggle to circle mode, a full drag burns one marker and leaves the list unchanged |
| `Scenarios.BadRectangleIsolated` | submission.py:57-80 | a rectangle reaching to y = 200 on a 100-row image is invalid, and the good rectangle before it keeps the outcome it would have on its own |
| `Scenarios.SessionDrag` | submission.py:22-46 | driving the `Session` class through a drag, a toggle and a marker records exactly the one dragged rectangle and shows the expected preview |

## Left out

- OpenCV rasterisation (`cv.rectangle`, `cv.circle`, lines 33, 35, 42 and 45). A burned shape is recorded as a value: an outline between two corners, or a marker with radius 5. The pixels it changes are not modelled, nor are its colour (green or red) or its two-pixel thickness. So the model does not relate the pixels of the committed image to the pixel grid given to the extractor.
- The prompt text `cv.putText` draws into the image on every pass of the main loop (line 106). It is foreign rendering; the session model does not burn it.
- Window and event plumbing (`cv.imshow`, `cv.namedWindow`, `cv.setMouseCallback`, `cv.waitKey`, `cv.destroyAllWindows`, the polling loop, lines 36, 46 and 101-119). A shown preview is the value `Move` returns. The callback's `flags` and `param` arguments are unused by the source and are not modelled.
- Image loading and writing (`cv.imread` at line 90, `cv.imwrite` at line 72). The write result is the `writeOk` oracle, and the file system is not modelled.
- Logging (lines 6-13, 52, 55, 68, 74, 77, 80 and 83-85). Each logged outcome is an outcome value; message texts, severities and the log file name are not modelled.
- The generic exception handler (lines 81-85). Once the acceptance test holds, cropping and naming cannot fail in the model, so this path has no outcome of its own. The handler also catches a `cv.imwrite` that raises an exception instead of returning false; the model folds that case into `writeOk` returning false, so such a rectangle is WriteFailed, where the source logs it through the handler instead.
- The start-up path (lines 89-99): the hard-coded image path, the extraction of the base name, and the `FileNotFoundError` raised when loading fails.
- Colour channels: a pixel is an abstract value `T`. An image with zero channels, which is also empty to the source's size check, is not representable.
