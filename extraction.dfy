/**
 * The region extractor `crop_and_save`: for each recorded rectangle, sort its
 * corners, check it lies inside the image with a positive area, cut out the
 * half-open block of pixels it covers and write that block to its own file.
 *
 * An image is a grid of rows, `g[y][x]`, every row `Width(g)` pixels long. The
 * pixel type is left open. The image writer is passed in as `writeOk`, which
 * says whether writing a given block under a given name succeeds.
 */
module Extraction {
  import opened Geometry
  import opened Naming

  /** A rectangle whose corners are in order: x1 <= x2 and y1 <= y2 once normalized. */
  datatype Rect = Rect(x1: int, y1: int, x2: int, y2: int)

  /** Python's sorted([a, b]): the pair in ascending order. */
  function Sorted2(a: int, b: int): (r: (int, int))
    ensures r.0 <= r.1 && multiset{r.0, r.1} == multiset{a, b}
  {
    if a <= b then (a, b) else (b, a)
  }

  /** Sorts the x-pair and the y-pair of a recorded rectangle independently. */
  function Normalize(r: RawRect): (n: Rect)
    ensures n.x1 <= n.x2 && n.y1 <= n.y2
    ensures multiset{n.x1, n.x2} == multiset{r.anchor.x, r.release.x}
    ensures multiset{n.y1, n.y2} == multiset{r.anchor.y, r.release.y}
  {
    var (x1, x2) := Sorted2(r.anchor.x, r.release.x);
    var (y1, y2) := Sorted2(r.anchor.y, r.release.y);
    Rect(x1, y1, x2, y2)
  }

  /** A normalized rectangle read back as a corner pair, top-left first. */
  function Corners(n: Rect): RawRect
  {
    RawRect(Point(n.x1, n.y1), Point(n.x2, n.y2))
  }

  /** Normalizing twice is normalizing once. */
  lemma NormalizeIdempotent(r: RawRect)
    ensures Normalize(Corners(Normalize(r))) == Normalize(r)
  {
  }

  /** Which corner was the anchor does not matter: a drag in either direction gives the same rectangle. */
  lemma NormalizeSymmetric(r: RawRect)
    ensures Normalize(RawRect(r.release, r.anchor)) == Normalize(r)
    ensures Normalize(RawRect(Point(r.anchor.x, r.release.y), Point(r.release.x, r.anchor.y))) == Normalize(r)
  {
  }

  /** Normalize is the only ordered rectangle made of the same two x values and the same two y values. */
  lemma NormalizeUnique(r: RawRect, n: Rect)
    requires n.x1 <= n.x2 && n.y1 <= n.y2
    requires multiset{n.x1, n.x2} == multiset{r.anchor.x, r.release.x}
    requires multiset{n.y1, n.y2} == multiset{r.anchor.y, r.release.y}
    ensures n == Normalize(r)
  {
  }

  /** Height of an image: its number of rows (shape[0]). */
  function Height<T>(g: seq<seq<T>>): nat
  {
    |g|
  }

  /** Width of an image: the length of its rows (shape[1]). */
  function Width<T>(g: seq<seq<T>>): nat
  {
    if |g| == 0 then 0 else |g[0]|
  }

  /** Every row has the same length, as in any array the image loader returns. */
  predicate Rectangular<T>(g: seq<seq<T>>)
  {
    forall y :: 0 <= y < |g| ==> |g[y]| == Width(g)
  }

  /** An image that is missing, or has no pixels at all. */
  predicate Blank<T>(image: Option<seq<seq<T>>>)
    ensures Blank(image) <==> image.None? || Height(image.value) * Width(image.value) == 0
  {
    image.None? || Height(image.value) == 0 || Width(image.value) == 0
  }

  /** Whether pixel p exists in an image of the given size. */
  predicate InImage(p: Point, width: int, height: int)
  {
    0 <= p.x < width && 0 <= p.y < height
  }

  /**
   * The acceptance test on a normalized rectangle: positive width and height, and
   * inside the image with the right and bottom edges exclusive. Nothing is clamped.
   */
  predicate Acceptable(n: Rect, width: int, height: int)
    ensures Acceptable(n, width, height) <==>
      n.x1 < n.x2 && n.y1 < n.y2 &&
      InImage(Point(n.x1, n.y1), width, height) && InImage(Point(n.x2 - 1, n.y2 - 1), width, height)
  {
    n.x2 > n.x1 && n.y2 > n.y1 && n.x1 >= 0 && n.y1 >= 0 && n.x2 <= width && n.y2 <= height
  }

  /**
   * The same test stated on the recorded corners: a rectangle is accepted exactly
   * when its two x values differ, its two y values differ, and all four coordinates
   * lie within 0..width and 0..height.
   */
  lemma AcceptableOnCorners(r: RawRect, width: int, height: int)
    ensures Acceptable(Normalize(r), width, height) <==>
      r.anchor.x != r.release.x && r.anchor.y != r.release.y &&
      0 <= r.anchor.x <= width && 0 <= r.release.x <= width &&
      0 <= r.anchor.y <= height && 0 <= r.release.y <= height
  {
  }

  /**
   * The block image[y1:y2, x1:x2]: the rows y1 .. y2-1, and in each of them the
   * pixels x1 .. x2-1, as a new image.
   */
  function Crop<T>(g: seq<seq<T>>, n: Rect): (c: seq<seq<T>>)
    requires Rectangular(g) && Acceptable(n, Width(g), Height(g))
    ensures |c| == n.y2 - n.y1
    ensures Rectangular(c) && Width(c) == n.x2 - n.x1
    ensures forall r, k :: 0 <= r < |c| && 0 <= k < n.x2 - n.x1 ==> c[r][k] == g[n.y1 + r][n.x1 + k]
  {
    seq(n.y2 - n.y1, r requires 0 <= r < n.y2 - n.y1 => g[n.y1 + r][n.x1..n.x2])
  }

  /**
   * What happened to one rectangle. Saved and WriteFailed carry the file name and
   * the block handed to the writer; Invalid carries the normalized rectangle that
   * failed the test, and no write was attempted for it.
   */
  datatype Outcome<T> =
    | Saved(file: string, region: seq<seq<T>>)
    | WriteFailed(file: string, region: seq<seq<T>>)
    | Invalid(rect: Rect)

  /** Whether a write was attempted for this rectangle. */
  predicate Attempted<T>(o: Outcome<T>)
  {
    !o.Invalid?
  }

  /** The result of the whole call: stopped at once on a blank image, or one outcome per rectangle. */
  datatype Batch<T> = BlankImage | Processed(outcomes: seq<Outcome<T>>)

  /** The handling of the rectangle at 0-based index `i` of the list. */
  function Process<T>(g: seq<seq<T>>, i: nat, raw: RawRect, writeOk: (string, seq<seq<T>>) -> bool): (o: Outcome<T>)
    requires Rectangular(g)
    ensures !Attempted(o) <==> !Acceptable(Normalize(raw), Width(g), Height(g))
    ensures o.Invalid? ==> o.rect == Normalize(raw)
    ensures Attempted(o) ==>
      var n := Normalize(raw);
      && o.file == FileName(i)
      && |o.region| == n.y2 - n.y1 && Rectangular(o.region) && Width(o.region) == n.x2 - n.x1
      && (forall r, k :: 0 <= r < n.y2 - n.y1 && 0 <= k < n.x2 - n.x1 ==> o.region[r][k] == g[n.y1 + r][n.x1 + k])
      && (o.Saved? <==> writeOk(o.file, o.region))
  {
    var n := Normalize(raw);
    if Acceptable(n, Width(g), Height(g)) then
      var region := Crop(g, n);
      var file := FileName(i);
      if writeOk(file, region) then Saved(file, region) else WriteFailed(file, region)
    else
      Invalid(n)
  }

  /**
   * The outcomes of a whole list on a non-blank image, in list order: the outcomes
   * of all but the last rectangle, then the last one's.
   */
  function Outcomes<T>(g: seq<seq<T>>, rects: seq<RawRect>, writeOk: (string, seq<seq<T>>) -> bool): (os: seq<Outcome<T>>)
    requires Rectangular(g)
    ensures |os| == |rects|
    decreases |rects|
  {
    if rects == [] then []
    else Outcomes(g, rects[..|rects| - 1], writeOk) + [Process(g, |rects| - 1, rects[|rects| - 1], writeOk)]
  }

  /**
   * Each rectangle is handled on its own: the outcome at position i is that of
   * rectangle i at index i, whatever the other entries of the list are.
   */
  lemma {:induction false} OutcomeAt<T>(g: seq<seq<T>>, rects: seq<RawRect>, writeOk: (string, seq<seq<T>>) -> bool, i: nat)
    requires Rectangular(g) && i < |rects|
    ensures Outcomes(g, rects, writeOk)[i] == Process(g, i, rects[i], writeOk)
    decreases |rects|
  {
    if i < |rects| - 1 {
      var front := rects[..|rects| - 1];
      OutcomeAt(g, front, writeOk, i);
    }
  }

  /** The whole extraction: nothing at all on a blank image, otherwise one outcome per rectangle. */
  function Extract<T>(image: Option<seq<seq<T>>>, rects: seq<RawRect>, writeOk: (string, seq<seq<T>>) -> bool): (b: Batch<T>)
    requires image.Some? ==> Rectangular(image.value)
    ensures b.BlankImage? <==> Blank(image)
    ensures b.Processed? ==> |b.outcomes| == |rects|
  {
    if Blank(image) then BlankImage else Processed(Outcomes(image.value, rects, writeOk))
  }

  /**
   * The body of the loop for one rectangle at index `i`: sort the corners, test,
   * and either crop, name and write, or report the rectangle invalid.
   */
  method CropOne<T>(g: seq<seq<T>>, i: nat, raw: RawRect, writeOk: (string, seq<seq<T>>) -> bool)
    returns (outcome: Outcome<T>)
    requires Rectangular(g) && |g| > 0
    ensures outcome == Process(g, i, raw, writeOk)
  {
    var (x1, x2) := Sorted2(raw.anchor.x, raw.release.x);
    var (y1, y2) := Sorted2(raw.anchor.y, raw.release.y);
    if x2 > x1 && y2 > y1 && x1 >= 0 && y1 >= 0 && x2 <= |g[0]| && y2 <= |g| {
      var cropped := Crop(g, Rect(x1, y1, x2, y2));
      var file := FileName(i);
      if writeOk(file, cropped) {
        outcome := Saved(file, cropped);
      } else {
        outcome := WriteFailed(file, cropped);
      }
    } else {
      outcome := Invalid(Rect(x1, y1, x2, y2));
    }
  }

  /** On a non-blank image, the outcome at position i is that of rectangle i, handled at index i. */
  lemma ExtractAt<T>(image: Option<seq<seq<T>>>, rects: seq<RawRect>, writeOk: (string, seq<seq<T>>) -> bool, i: nat)
    requires image.Some? ==> Rectangular(image.value)
    requires !Blank(image) && i < |rects|
    ensures Extract(image, rects, writeOk).Processed?
    ensures Extract(image, rects, writeOk).outcomes[i] == Process(image.value, i, rects[i], writeOk)
  {
    OutcomeAt(image.value, rects, writeOk, i);
  }

  /**
   * The loop of crop_and_save: a blank image stops the call before any rectangle is
   * looked at; otherwise each rectangle in turn is handled and its outcome recorded.
   */
  method CropAndSave<T>(image: Option<seq<seq<T>>>, rects: seq<RawRect>, writeOk: (string, seq<seq<T>>) -> bool)
    returns (b: Batch<T>)
    requires image.Some? ==> Rectangular(image.value)
    ensures b == Extract(image, rects, writeOk)
  {
    if image.None? || |image.value| == 0 || |image.value[0]| == 0 {
      return BlankImage;
    }
    var outs := ProcessAll(image.value, rects, writeOk);
    b := Processed(outs);
  }

  /** The `for` loop over the list on a non-blank image. */
  method ProcessAll<T>(g: seq<seq<T>>, rects: seq<RawRect>, writeOk: (string, seq<seq<T>>) -> bool)
    returns (outs: seq<Outcome<T>>)
    requires Rectangular(g) && |g| > 0
    ensures outs == Outcomes(g, rects, writeOk)
  {
    outs := [];
    for i := 0 to |rects|
      invariant outs == Outcomes(g, rects[..i], writeOk)
    {
      var outcome := CropOne(g, i, rects[i], writeOk);
      assert rects[..i + 1][..i] == rects[..i];
      outs := outs + [outcome];
    }
    assert rects[..|rects|] == rects;
  }

  /**
   * The call made when the operator presses Enter: extraction runs only if at least
   * one rectangle was recorded; with an empty list nothing happens, not even the
   * blank-image check.
   */
  function Finish<T>(image: Option<seq<seq<T>>>, rects: seq<RawRect>, writeOk: (string, seq<seq<T>>) -> bool): (r: Option<Batch<T>>)
    requires image.Some? ==> Rectangular(image.value)
    ensures r.None? <==> rects == []
    ensures r.Some? ==> r.value == Extract(image, rects, writeOk)
  {
    if rects == [] then None else Some(Extract(image, rects, writeOk))
  }

  /** A zero-area rectangle (a click with no drag, or a drag along one axis) is always invalid. */
  lemma ZeroAreaInvalid<T>(g: seq<seq<T>>, i: nat, raw: RawRect, writeOk: (string, seq<seq<T>>) -> bool)
    requires Rectangular(g)
    requires raw.anchor.x == raw.release.x || raw.anchor.y == raw.release.y
    ensures Process(g, i, raw, writeOk) == Invalid(Normalize(raw))
  {
  }

  /** A rectangle reaching outside the image, on any side, is invalid: it is not clamped to fit. */
  lemma OutOfBoundsInvalid<T>(g: seq<seq<T>>, i: nat, raw: RawRect, writeOk: (string, seq<seq<T>>) -> bool)
    requires Rectangular(g)
    requires raw.anchor.x < 0 || raw.release.x < 0 || raw.anchor.y < 0 || raw.release.y < 0 ||
             raw.anchor.x > Width(g) || raw.release.x > Width(g) ||
             raw.anchor.y > Height(g) || raw.release.y > Height(g)
    ensures Process(g, i, raw, writeOk) == Invalid(Normalize(raw))
  {
  }

  /**
   * Isolation: the outcome of rectangle i depends on that rectangle, its position and
   * the image alone. Replacing any other entry of the list does not change it.
   */
  lemma OutcomeIsolated<T>(g: seq<seq<T>>, rects: seq<RawRect>, j: nat, other: RawRect,
                           writeOk: (string, seq<seq<T>>) -> bool, i: nat)
    requires Rectangular(g)
    requires j < |rects| && i < |rects| && i != j
    ensures Outcomes(g, rects[j := other], writeOk)[i] == Outcomes(g, rects, writeOk)[i]
  {
    OutcomeAt(g, rects[j := other], writeOk, i);
    OutcomeAt(g, rects, writeOk, i);
  }

  /** Rectangles added at the end of the list never change the outcomes of those before them. */
  lemma {:induction false} OutcomesPrefix<T>(g: seq<seq<T>>, rects: seq<RawRect>, more: seq<RawRect>,
                                             writeOk: (string, seq<seq<T>>) -> bool)
    requires Rectangular(g)
    ensures Outcomes(g, rects, writeOk) <= Outcomes(g, rects + more, writeOk)
    decreases |more|
  {
    if more == [] {
      assert rects + more == rects;
    } else {
      var front := more[..|more| - 1];
      assert (rects + more)[..|rects + more| - 1] == rects + front;
      OutcomesPrefix(g, rects, front, writeOk);
    }
  }

  /** No two attempted writes in one batch go to the same file. */
  lemma WrittenFilesDistinct<T>(g: seq<seq<T>>, rects: seq<RawRect>, writeOk: (string, seq<seq<T>>) -> bool,
                                i: nat, j: nat)
    requires Rectangular(g)
    requires i < |rects| && j < |rects| && i != j
    requires Attempted(Outcomes(g, rects, writeOk)[i]) && Attempted(Outcomes(g, rects, writeOk)[j])
    ensures Outcomes(g, rects, writeOk)[i].file != Outcomes(g, rects, writeOk)[j].file
  {
    var os := Outcomes(g, rects, writeOk);
    OutcomeAt(g, rects, writeOk, i);
    OutcomeAt(g, rects, writeOk, j);
    if os[i].file == os[j].file {
      FileNameInjective(i, j);
    }
  }
}
