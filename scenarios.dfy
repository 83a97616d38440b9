/**
 * Whole sessions followed by extraction: a drag recorded by the session and then
 * cut out of the image, a marker that is never extracted, and a bad rectangle
 * that does not disturb a good one.
 */
module Scenarios {
  import opened Geometry
  import opened Annotation
  import opened Naming
  import opened Extraction

  /** A drag from (10, 10) to (50, 60) in rectangle mode, with one preview on the way. */
  function DragEvents(): seq<Event>
  {
    [ButtonDown(Point(10, 10)), MouseMove(Point(30, 40)), ButtonUp(Point(50, 60))]
  }

  /** The drag is recorded exactly as its two corner points, and burned as one outline. */
  lemma DragRecordsOneRectangle<P>(image: P)
    ensures Run(Initial(image), DragEvents()).rectangles == [RawRect(Point(10, 10), Point(50, 60))]
    ensures Run(Initial(image), DragEvents()).img == Canvas(image, [Outline(Point(10, 10), Point(50, 60))])
    ensures !Run(Initial(image), DragEvents()).drawing
  {
    var s1 := Step(Initial(image), ButtonDown(Point(10, 10)));
    var s2 := Step(s1, MouseMove(Point(30, 40)));
    var s3 := Step(s2, ButtonUp(Point(50, 60)));
    assert DragEvents()[1..][1..][1..] == [];
    assert Run(Initial(image), DragEvents()) == s3;
  }

  /**
   * Extracting that rectangle from a 100 x 100 image gives one outcome, written to
   * cropped_region_1.jpg, a block 40 pixels wide and 50 high taken from (10, 10).
   */
  lemma DragThenExtract<P, T>(image: P, g: seq<seq<T>>, writeOk: (string, seq<seq<T>>) -> bool)
    requires Rectangular(g) && Height(g) == 100 && Width(g) == 100
    ensures var b := Extract(Some(g), Run(Initial(image), DragEvents()).rectangles, writeOk);
      && b.Processed? && |b.outcomes| == 1
      && Attempted(b.outcomes[0])
      && b.outcomes[0].file == "cropped_region_1.jpg"
      && |b.outcomes[0].region| == 50 && Width(b.outcomes[0].region) == 40
      && b.outcomes[0].region[0][0] == g[10][10]
      && (b.outcomes[0].Saved? <==> writeOk("cropped_region_1.jpg", b.outcomes[0].region))
  {
    DragRecordsOneRectangle(image);
    FileNameExamples();
    var rects := [RawRect(Point(10, 10), Point(50, 60))];
    OutcomeAt(g, rects, writeOk, 0);
  }

  /**
   * After switching to circle mode, a complete drag burns a marker but leaves the
   * list of rectangles as it was.
   */
  lemma MarkerNotRecorded<P>(s: State<P>, p: Point, q: Point, r: Point)
    requires s.mode == RectangleMode
    ensures Run(s, [ToggleKey, ButtonDown(p), MouseMove(q), ButtonUp(r)]).rectangles == s.rectangles
    ensures Run(s, [ToggleKey, ButtonDown(p), MouseMove(q), ButtonUp(r)]).img == Burn(s.img, Marker(r, MarkerRadius))
  {
    var events := [ToggleKey, ButtonDown(p), MouseMove(q), ButtonUp(r)];
    var s1 := Step(s, ToggleKey);
    var s2 := Step(s1, ButtonDown(p));
    var s3 := Step(s2, MouseMove(q));
    var s4 := Step(s3, ButtonUp(r));
    assert Run(s, events) == Run(s1, events[1..]);
    assert Run(s1, events[1..]) == Run(s2, events[2..]);
    assert Run(s2, events[2..]) == Run(s3, events[3..]);
    assert events[4..] == [];
  }

  /**
   * A good rectangle followed by one whose bottom edge (y = 200) lies below a
   * 100-row image: the second is invalid, not clamped, and gets no file, while
   * the first is cropped and written as it would be on its own.
   */
  lemma BadRectangleIsolated<T>(g: seq<seq<T>>, writeOk: (string, seq<seq<T>>) -> bool)
    requires Rectangular(g) && Height(g) == 100 && Width(g) == 100
    ensures var good := RawRect(Point(10, 10), Point(50, 60));
      var bad := RawRect(Point(90, 90), Point(95, 200));
      var os := Outcomes(g, [good, bad], writeOk);
      && os[1] == Invalid(Rect(90, 90, 95, 200))
      && os[0] == Outcomes(g, [good], writeOk)[0]
      && Attempted(os[0])
  {
    var good := RawRect(Point(10, 10), Point(50, 60));
    var bad := RawRect(Point(90, 90), Point(95, 200));
    OutcomeAt(g, [good, bad], writeOk, 0);
    OutcomeAt(g, [good, bad], writeOk, 1);
    OutcomeAt(g, [good], writeOk, 0);
  }

  /**
   * The same drag carried out on a Session object: what the class methods promise
   * is enough to know the list that extraction will receive.
   */
  method SessionDrag<P>(image: P) returns (recorded: seq<RawRect>, preview: Option<Canvas<P>>)
    ensures recorded == [RawRect(Point(10, 10), Point(50, 60))]
    ensures preview == Some(Canvas(image, [Outline(Point(10, 10), Point(30, 40))]))
  {
    var session := new Session(image);
    session.Down(10, 10);
    preview := session.Move(30, 40);
    session.Up(50, 60);
    session.Toggle();
    session.Down(70, 70);
    session.Up(80, 80);
    recorded := session.rectangles;
  }
}
