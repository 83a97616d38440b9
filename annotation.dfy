/**
 * The annotation session: the mouse callback `draw_annotation` and the `m` key
 * that toggles between rectangle and circle drawing.
 *
 * The pure part (State, Step, Run) is the transition function of the session;
 * the class Session is the same state held in mutable fields, with one method per
 * pointer event, each proved to agree with Step.
 */
module Annotation {
  import opened Geometry

  /** What a finished gesture burns in: a rectangle outline, or a circle marker. */
  datatype Mode = RectangleMode | CircleMode

  /** The `m` key: rectangle becomes circle and circle becomes rectangle. */
  function Flip(m: Mode): (r: Mode)
    ensures r != m
  {
    if m == RectangleMode then CircleMode else RectangleMode
  }

  /** Radius, in pixels, of the circle marker. */
  const MarkerRadius: int := 5

  /**
   * A shape drawn over the image. An outline joins two opposite corners and is
   * drawn in green; a marker is a circle of the given radius around one point,
   * drawn in red. Both are two pixels thick; the pixels they cover are left to
   * the rasteriser and not modelled.
   */
  datatype Shape = Outline(corner: Point, opposite: Point) | Marker(center: Point, radius: int)

  /**
   * An image as the session sees it: the pixels it was loaded with, and the shapes
   * burned into it since, oldest first. The rasterisation itself is not modelled:
   * two canvases are equal exactly when they come from the same loaded image with
   * the same shapes burned in, in the same order.
   */
  datatype Canvas<P> = Canvas(base: P, burned: seq<Shape>)

  /** Draws a shape permanently into a canvas: on top of what is there, which stays as it was. */
  function Burn<P>(c: Canvas<P>, sh: Shape): (r: Canvas<P>)
    ensures r.base == c.base
    ensures |r.burned| == |c.burned| + 1 && r.burned[..|c.burned|] == c.burned && r.burned[|c.burned|] == sh
  {
    Canvas(c.base, c.burned + [sh])
  }

  /**
   * The shape a gesture from `anchor` to the pointer position `p` draws: an outline
   * from the anchor in rectangle mode, a marker centred on the pointer (not on the
   * anchor) in circle mode.
   */
  function ShapeFor(mode: Mode, anchor: Point, p: Point): (sh: Shape)
    ensures sh.Outline? <==> mode == RectangleMode
    ensures sh.Outline? ==> sh.corner == anchor && sh.opposite == p
    ensures sh.Marker? ==> sh.center == p && sh.radius == MarkerRadius
  {
    if mode == RectangleMode then Outline(anchor, p) else Marker(p, MarkerRadius)
  }

  /** The corner pairs of the outlines among `shapes`, in the order they were burned. */
  function OutlinesOf(shapes: seq<Shape>): seq<RawRect>
  {
    if shapes == [] then []
    else
      (match shapes[0]
       case Outline(a, b) => [RawRect(a, b)]
       case Marker(_, _) => [])
      + OutlinesOf(shapes[1..])
  }

  lemma {:induction false} OutlinesOfAppend(shapes: seq<Shape>, sh: Shape)
    ensures OutlinesOf(shapes + [sh]) ==
            OutlinesOf(shapes) + (match sh case Outline(a, b) => [RawRect(a, b)] case Marker(_, _) => [])
  {
    if shapes != [] {
      assert (shapes + [sh])[1..] == shapes[1..] + [sh];
      OutlinesOfAppend(shapes[1..], sh);
    }
  }

  /**
   * The whole session state: whether a drag is in progress, the anchor (ix, iy),
   * the mode, the list of recorded rectangles and the committed image.
   */
  datatype State<P> = State(drawing: bool, anchor: Point, mode: Mode, rectangles: seq<RawRect>, img: Canvas<P>)

  /** The state when the image has just been loaded: not dragging, anchor (-1, -1), rectangle mode. */
  function Initial<P>(image: P): (s: State<P>)
    ensures Consistent(s) && s.img.base == image
    ensures !s.drawing && s.anchor == Point(-1, -1) && s.mode == RectangleMode && s.rectangles == []
  {
    State(false, Point(-1, -1), RectangleMode, [], Canvas(image, []))
  }

  /**
   * The session invariant: the recorded rectangles are exactly the outlines burned
   * into the committed image, in the same order. Markers are burned but never recorded.
   */
  predicate Consistent<P>(s: State<P>)
  {
    s.rectangles == OutlinesOf(s.img.burned)
  }

  /**
   * The inputs of the session: the three mouse events the callback reacts to, each at
   * a pointer position; any other mouse event (another button, a wheel turn); and the `m` key.
   */
  datatype Event = ButtonDown(p: Point) | MouseMove(p: Point) | ButtonUp(p: Point) | OtherMouse(p: Point) | ToggleKey

  /**
   * One transition. Button-down starts a drag at the pointer. Mouse-move changes
   * nothing (its preview is drawn on a copy, see Preview). Button-up ends the drag and
   * burns the shape into the image; in rectangle mode it also records the corner pair.
   * Button-up does not look at `drawing`: without a preceding button-down it uses
   * whatever anchor is stored. Other mouse events are ignored. The `m` key flips
   * the mode and nothing else.
   */
  function Step<P>(s: State<P>, e: Event): (t: State<P>)
    ensures t.img.base == s.img.base
    ensures s.rectangles <= t.rectangles && |t.rectangles| <= |s.rectangles| + 1
    ensures s.img.burned <= t.img.burned
    ensures |t.img.burned| == |s.img.burned| + (if e.ButtonUp? then 1 else 0)
    ensures e.ButtonDown? ==> t.drawing && t.anchor == e.p
    ensures e.ButtonUp? ==> !t.drawing && t.anchor == s.anchor
    ensures e.MouseMove? || e.OtherMouse? ==> t == s
    ensures e.ButtonUp? ==> t.img.burned == s.img.burned + [ShapeFor(s.mode, s.anchor, e.p)]
    ensures e.ButtonUp? && s.mode == RectangleMode ==> t.rectangles == s.rectangles + [RawRect(s.anchor, e.p)]
    ensures t.mode == if e.ToggleKey? then Flip(s.mode) else s.mode
    ensures |t.rectangles| == |s.rectangles| + 1 <==> e.ButtonUp? && s.mode == RectangleMode
  {
    match e
    case ButtonDown(p) => s.(drawing := true, anchor := p)
    case MouseMove(_) => s
    case OtherMouse(_) => s
    case ButtonUp(p) =>
      var committed := s.(drawing := false, img := Burn(s.img, ShapeFor(s.mode, s.anchor, p)));
      if s.mode == RectangleMode then committed.(rectangles := s.rectangles + [RawRect(s.anchor, p)])
      else committed
    case ToggleKey => s.(mode := Flip(s.mode))
  }

  /**
   * The frame shown on a mouse-move at `p`: while dragging, a copy of the committed
   * image with the current shape drawn over it; otherwise nothing is shown.
   */
  function Preview<P>(s: State<P>, p: Point): (frame: Option<Canvas<P>>)
    ensures frame.Some? <==> s.drawing
    ensures frame.Some? ==> frame.value.base == s.img.base && |frame.value.burned| == |s.img.burned| + 1
    ensures frame.Some? ==> frame.value.burned[..|s.img.burned|] == s.img.burned
  {
    if s.drawing then Some(Burn(s.img, ShapeFor(s.mode, s.anchor, p))) else None
  }

  /** The state after a sequence of events, applied in order. */
  function Run<P>(s: State<P>, events: seq<Event>): (t: State<P>)
    ensures events == [] ==> t == s
    ensures |t.rectangles| <= |s.rectangles| + |events|
    ensures |t.img.burned| <= |s.img.burned| + |events|
    decreases |events|
  {
    if events == [] then s else Run(Step(s, events[0]), events[1..])
  }

  /** Every transition keeps the recorded rectangles equal to the outlines in the image. */
  lemma StepKeepsConsistent<P>(s: State<P>, e: Event)
    requires Consistent(s)
    ensures Consistent(Step(s, e))
  {
    if e.ButtonUp? {
      OutlinesOfAppend(s.img.burned, ShapeFor(s.mode, s.anchor, e.p));
    }
  }

  lemma {:induction false} RunKeepsConsistent<P>(s: State<P>, events: seq<Event>)
    requires Consistent(s)
    ensures Consistent(Run(s, events))
    decreases |events|
  {
    if events != [] {
      StepKeepsConsistent(s, events[0]);
      RunKeepsConsistent(Step(s, events[0]), events[1..]);
    }
  }

  /** Nothing is ever removed or changed: the list and the burned shapes only grow at the end. */
  lemma {:induction false} RunAppendOnly<P>(s: State<P>, events: seq<Event>)
    ensures s.rectangles <= Run(s, events).rectangles
    ensures s.img.burned <= Run(s, events).img.burned
    ensures Run(s, events).img.base == s.img.base
    decreases |events|
  {
    if events != [] {
      RunAppendOnly(Step(s, events[0]), events[1..]);
    }
  }

  /** Any number of mouse-moves (and ignored mouse events), dragging or not, leave the whole state as it was. */
  lemma {:induction false} RunMovesOnly<P>(s: State<P>, events: seq<Event>)
    requires forall k :: 0 <= k < |events| ==> events[k].MouseMove? || events[k].OtherMouse?
    ensures Run(s, events) == s
    decreases |events|
  {
    if events != [] {
      RunMovesOnly(Step(s, events[0]), events[1..]);
    }
  }

  /** The number of button-up events in a sequence. */
  function Releases(events: seq<Event>): nat
  {
    if events == [] then 0 else (if events[0].ButtonUp? then 1 else 0) + Releases(events[1..])
  }

  /** The number of button-up events that happen in rectangle mode, starting in `mode`. */
  function RectangleCommits(mode: Mode, events: seq<Event>): nat
    decreases |events|
  {
    if events == [] then 0
    else match events[0]
      case ButtonUp(_) => (if mode == RectangleMode then 1 else 0) + RectangleCommits(mode, events[1..])
      case ToggleKey => RectangleCommits(Flip(mode), events[1..])
      case _ => RectangleCommits(mode, events[1..])
  }

  /** The number of `m` key presses in a sequence. */
  function Toggles(events: seq<Event>): nat
  {
    if events == [] then 0 else (if events[0].ToggleKey? then 1 else 0) + Toggles(events[1..])
  }

  /** Every button-up burns exactly one shape, whatever the mode and whether or not a drag was in progress. */
  lemma {:induction false} RunBurnsOnePerRelease<P>(s: State<P>, events: seq<Event>)
    ensures |Run(s, events).img.burned| == |s.img.burned| + Releases(events)
    decreases |events|
  {
    if events != [] {
      RunBurnsOnePerRelease(Step(s, events[0]), events[1..]);
    }
  }

  /** The list grows by one for each button-up in rectangle mode, and by nothing else. */
  lemma {:induction false} RunRecordsRectangleCommits<P>(s: State<P>, events: seq<Event>)
    ensures |Run(s, events).rectangles| == |s.rectangles| + RectangleCommits(s.mode, events)
    decreases |events|
  {
    if events != [] {
      RunRecordsRectangleCommits(Step(s, events[0]), events[1..]);
    }
  }

  /** The mode after a run depends only on how many times `m` was pressed. */
  lemma {:induction false} RunModeParity<P>(s: State<P>, events: seq<Event>)
    ensures Run(s, events).mode == if Toggles(events) % 2 == 0 then s.mode else Flip(s.mode)
    decreases |events|
  {
    if events != [] {
      RunModeParity(Step(s, events[0]), events[1..]);
    }
  }

  /**
   * A button-up with no button-down before it still commits, from the initial
   * anchor (-1, -1): the session records the rectangle ((-1, -1), p).
   */
  lemma ReleaseWithoutPress<P>(image: P, p: Point)
    ensures Step(Initial(image), ButtonUp(p)).rectangles == [RawRect(Point(-1, -1), p)]
    ensures Step(Initial(image), ButtonUp(p)).img == Canvas(image, [Outline(Point(-1, -1), p)])
  {
  }

  /**
   * The session held in mutable fields, as the callback and the main loop share it.
   * `img` is the committed image; `ix` and `iy` are the anchor.
   */
  class Session<P> {
    var drawing: bool
    var ix: int
    var iy: int
    var mode: Mode
    var rectangles: seq<RawRect>
    var img: Canvas<P>

    /** The fields as one State value. */
    function Snapshot(): State<P>
      reads this
    {
      State(drawing, Point(ix, iy), mode, rectangles, img)
    }

    predicate Valid()
      reads this
    {
      Consistent(Snapshot())
    }

    /** A session over a freshly loaded image. */
    constructor (image: P)
      ensures Valid()
      ensures Snapshot() == Initial(image)
    {
      drawing := false;
      mode := RectangleMode;
      ix, iy := -1, -1;
      rectangles := [];
      img := Canvas(image, []);
    }

    /** Left button down at (x, y): start dragging from there. */
    method Down(x: int, y: int)
      requires Valid()
      modifies this
      ensures Valid()
      ensures drawing && ix == x && iy == y
      ensures mode == old(mode) && rectangles == old(rectangles) && img == old(img)
      ensures Snapshot() == Step(old(Snapshot()), ButtonDown(Point(x, y)))
    {
      drawing := true;
      ix, iy := x, y;
    }

    /**
     * Mouse moved to (x, y): while dragging, return the preview frame to show, drawn
     * on a copy of the committed image; otherwise return nothing. The session
     * itself is not modified.
     */
    method Move(x: int, y: int) returns (preview: Option<Canvas<P>>)
      ensures preview.Some? <==> drawing
      ensures preview.Some? ==> preview.value == Burn(img, ShapeFor(mode, Point(ix, iy), Point(x, y)))
      ensures preview == Preview(Snapshot(), Point(x, y))
    {
      if drawing {
        var temp := img;
        if mode == RectangleMode {
          temp := Burn(temp, Outline(Point(ix, iy), Point(x, y)));
        } else {
          temp := Burn(temp, Marker(Point(x, y), MarkerRadius));
        }
        preview := Some(temp);
      } else {
        preview := None;
      }
    }

    /**
     * Left button up at (x, y): stop dragging and burn the shape in. In rectangle
     * mode the outline from the anchor is burned and ((ix, iy), (x, y)) appended to
     * the list; in circle mode a marker at (x, y) is burned and the list is untouched.
     * Whether a drag was in progress is not checked.
     */
    method Up(x: int, y: int)
      requires Valid()
      modifies this
      ensures Valid()
      ensures !drawing && ix == old(ix) && iy == old(iy) && mode == old(mode)
      ensures old(mode) == RectangleMode ==>
        rectangles == old(rectangles) + [RawRect(Point(old(ix), old(iy)), Point(x, y))] &&
        img == Burn(old(img), Outline(Point(old(ix), old(iy)), Point(x, y)))
      ensures old(mode) == CircleMode ==>
        rectangles == old(rectangles) &&
        img == Burn(old(img), Marker(Point(x, y), MarkerRadius))
      ensures Snapshot() == Step(old(Snapshot()), ButtonUp(Point(x, y)))
    {
      StepKeepsConsistent(Snapshot(), ButtonUp(Point(x, y)));
      drawing := false;
      if mode == RectangleMode {
        img := Burn(img, Outline(Point(ix, iy), Point(x, y)));
        rectangles := rectangles + [RawRect(Point(ix, iy), Point(x, y))];
      } else {
        img := Burn(img, Marker(Point(x, y), MarkerRadius));
      }
    }

    /** The `m` key: flip the mode; the drag, the anchor, the list and the image stay as they are. */
    method Toggle()
      requires Valid()
      modifies this
      ensures Valid()
      ensures mode == Flip(old(mode))
      ensures drawing == old(drawing) && ix == old(ix) && iy == old(iy)
      ensures rectangles == old(rectangles) && img == old(img)
      ensures Snapshot() == Step(old(Snapshot()), ToggleKey)
    {
      mode := Flip(mode);
    }
  }
}
