/** The signature dialog: a canvas drawn on with mouse or touch. The canvas is
    modelled as the log of the 2D-context operations the component issues;
    `Render` gives that log its meaning (the ink on the bitmap and the path
    being built), so that what the handlers do to the picture can be stated.

    As written, the component draws with width 2, commits no dot when a stroke
    starts, keeps no "has content" flag, does not scale event coordinates to
    the bitmap, and saves without checking that anything was drawn. */
module SignatureModal {
  import opened Wrappers

  datatype Point = Point(x: real, y: real)

  /** The canvas's on-screen box, as far as the component uses it. */
  datatype Rect = Rect(left: real, top: real)

  /** A mouse event with its client coordinates, or a touch event with the
      client coordinates of its active touches. */
  datatype InputEvent = Mouse(clientX: real, clientY: real) | Touch(touches: seq<Point>)

  /** `getEventPosition`: the mouse point or the first touch, relative to the
      canvas box; a touch event with no touches gives no position. */
  function EventPosition(e: InputEvent, rect: Rect): (p: Option<Point>)
    ensures p.None? <==> e.Touch? && e.touches == []
    ensures p.Some? && e.Mouse? ==> Point(p.value.x + rect.left, p.value.y + rect.top) == Point(e.clientX, e.clientY)
    ensures p.Some? && e.Touch? ==> Point(p.value.x + rect.left, p.value.y + rect.top) == e.touches[0]
  {
    match e
    case Touch(ts) => if ts == [] then None else Some(Point(ts[0].x - rect.left, ts[0].y - rect.top))
    case Mouse(cx, cy) => Some(Point(cx - rect.left, cy - rect.top))
  }

  /** Only the first touch counts: it is placed exactly as a mouse event would be. */
  lemma FirstTouchOnly(t: Point, rest: seq<Point>, rect: Rect)
    ensures EventPosition(Touch([t] + rest), rect) == EventPosition(Mouse(t.x, t.y), rect)
  {
  }

  /** A straight piece of a path. */
  datatype Segment = Segment(from: Point, to: Point)

  /** The 2D-context operations the component issues. `ClearRect` always
      starts at the origin; `Resize` stands for assigning the canvas's width
      and height. */
  datatype CanvasOp =
    | BeginPath
    | MoveTo(p: Point)
    | LineTo(p: Point)
    | Stroke
    | ClosePath
    | ClearRect(w: int, h: int)
    | Resize(newWidth: int, newHeight: int)

  /** The picture a log produces: the bitmap size, the stroked segments still
      on the bitmap, and the current path with its subpath start and current point. */
  datatype Raster = Raster(
    width: int,
    height: int,
    ink: set<Segment>,
    path: seq<Segment>,
    start: Option<Point>,
    current: Option<Point>)

  /** A canvas element's default bitmap size. */
  const DefaultWidth: int := 300
  const DefaultHeight: int := 150

  /** The height the component gives the canvas. */
  const CanvasHeight: int := 300

  function Fresh(w: int, h: int): Raster {
    Raster(w, h, {}, [], None, None)
  }

  /** One context operation. Stroking inks every segment of the current path
      that has positive length (zero-length segments leave no mark). A clear
      covering the bitmap removes all ink; the component issues no other.
      Resizing the bitmap discards the ink and the path. */
  function Apply(r: Raster, op: CanvasOp): (r': Raster)
    ensures op.Resize? ==> r' == Fresh(op.newWidth, op.newHeight)
    ensures !op.Resize? ==> r'.width == r.width && r'.height == r.height
    ensures op.Stroke? ==> r'.ink == r.ink + set s | s in r.path && s.from != s.to
    ensures !op.Stroke? && !op.ClearRect? && !op.Resize? ==> r'.ink == r.ink
  {
    match op
    case BeginPath => r.(path := [], start := None, current := None)
    case MoveTo(p) => r.(start := Some(p), current := Some(p))
    case LineTo(p) =>
      if r.current.None? then r.(start := Some(p), current := Some(p))
      else r.(path := r.path + [Segment(r.current.value, p)], current := Some(p))
    case Stroke => r.(ink := r.ink + set s | s in r.path && s.from != s.to)
    case ClosePath =>
      if r.current.None? || r.start.None? then r
      else r.(path := r.path + [Segment(r.current.value, r.start.value)], current := r.start)
    case ClearRect(w, h) => if w >= r.width && h >= r.height then r.(ink := {}) else r
    case Resize(w, h) => Fresh(w, h)
  }

  /** The picture produced by a log on a fresh canvas. Ink comes only from
      strokes, and the bitmap keeps its default size until it is resized. */
  function Render(log: seq<CanvasOp>): (r: Raster)
    ensures r.ink != {} ==> Stroke in log
    ensures (forall i :: 0 <= i < |log| ==> !log[i].Resize?) ==>
      r.width == DefaultWidth && r.height == DefaultHeight
    decreases |log|
  {
    if log == [] then Fresh(DefaultWidth, DefaultHeight)
    else Apply(Render(log[..|log| - 1]), log[|log| - 1])
  }

  lemma RenderAppend(log: seq<CanvasOp>, op: CanvasOp)
    ensures Render(log + [op]) == Apply(Render(log), op)
  {
    assert (log + [op])[..|log|] == log;
  }

  /** Clearing the whole bitmap leaves no ink, and clearing again changes nothing. */
  lemma ClearIdempotent(log: seq<CanvasOp>)
    ensures var r := Render(log);
      var once := Render(log + [ClearRect(r.width, r.height)]);
      once.ink == {} && once.width == r.width && once.height == r.height
      && Render(log + [ClearRect(r.width, r.height), ClearRect(r.width, r.height)]) == once
  {
    var r := Render(log);
    var op := ClearRect(r.width, r.height);
    RenderAppend(log, op);
    RenderAppend(log + [op], op);
    assert log + [op, op] == (log + [op]) + [op];
  }

  /** A tap (press and release without moving) leaves no ink: no dot is
      committed when a stroke starts. */
  lemma TapLeavesNoInk(log: seq<CanvasOp>, p: Point)
    ensures Render(log + [BeginPath, MoveTo(p), ClosePath]).ink == Render(log).ink
  {
    RenderAppend(log, BeginPath);
    RenderAppend(log + [BeginPath], MoveTo(p));
    RenderAppend(log + [BeginPath, MoveTo(p)], ClosePath);
    assert log + [BeginPath] + [MoveTo(p)] == log + [BeginPath, MoveTo(p)];
    assert log + [BeginPath, MoveTo(p)] + [ClosePath] == log + [BeginPath, MoveTo(p), ClosePath];
  }

  /** Pressing at `a` and moving to a different point `b` inks exactly the segment from `a` to `b`. */
  lemma DragInksSegment(log: seq<CanvasOp>, a: Point, b: Point)
    requires a != b
    ensures Render(log + [BeginPath, MoveTo(a), LineTo(b), Stroke]).ink == Render(log).ink + {Segment(a, b)}
  {
    var l1 := log + [BeginPath];
    var l2 := l1 + [MoveTo(a)];
    var l3 := l2 + [LineTo(b)];
    var l4 := l3 + [Stroke];
    RenderAppend(log, BeginPath);
    RenderAppend(l1, MoveTo(a));
    RenderAppend(l2, LineTo(b));
    RenderAppend(l3, Stroke);
    assert Render(l2).path == [] && Render(l2).current == Some(a);
    assert Render(l3).path == [Segment(a, b)];
    assert (set s | s in [Segment(a, b)] && s.from != s.to) == {Segment(a, b)};
    assert l4 == log + [BeginPath, MoveTo(a), LineTo(b), Stroke];
  }

  /** While a stroke is under way, a `draw` step (a line to `p`, then a stroke)
      inks the segment from the current point to `p` and removes no ink. */
  lemma LineThenStrokeInks(log: seq<CanvasOp>, p: Point)
    requires Render(log).current.Some? && Render(log).current.value != p
    ensures var after := Render(log + [LineTo(p), Stroke]).ink;
      Render(log).ink <= after && Segment(Render(log).current.value, p) in after
  {
    RenderAppend(log, LineTo(p));
    RenderAppend(log + [LineTo(p)], Stroke);
    assert log + [LineTo(p)] + [Stroke] == log + [LineTo(p), Stroke];
    var path := Render(log + [LineTo(p)]).path;
    assert path[|path| - 1] == Segment(Render(log).current.value, p);
  }

  /** The context's stroke settings. */
  datatype Style = Style(lineWidth: int, lineJoin: string, lineCap: string, strokeStyle: string)

  /** What a context holds after its canvas is resized. */
  const DefaultStyle: Style := Style(1, "miter", "butt", "#000000")

  /** What the component re-applies after every resize. */
  const PenStyle: Style := Style(2, "round", "round", "#000000")

  /** What the save button reports; `Saved` also asks the host to close the dialog. */
  datatype SaveOutcome = NoCanvas | Saved(dataUrl: string) | SaveFailed

  class SignaturePad {
    /** The canvas element is mounted (`canvasRef.current`). */
    const hasCanvas: bool
    /** The `context` state holds the canvas's 2D context. */
    var hasContext: bool
    var isDrawing: bool
    /** The window resize listener is registered. */
    var listening: bool
    var width: int
    var height: int
    var style: Style
    var log: seq<CanvasOp>

    ghost predicate Valid()
      reads this
    {
      && (isDrawing ==> hasContext && hasCanvas)
      && (listening ==> hasContext && hasCanvas)
      && Render(log).width == width && Render(log).height == height
    }

    constructor (mounted: bool)
      ensures Valid()
      ensures hasCanvas == mounted && !hasContext && !isDrawing && !listening
      ensures width == DefaultWidth && height == DefaultHeight && style == DefaultStyle && log == []
    {
      hasCanvas := mounted;
      hasContext := false;
      isDrawing := false;
      listening := false;
      width := DefaultWidth;
      height := DefaultHeight;
      style := DefaultStyle;
      log := [];
    }

    /** `resizeCanvas`: with a container, the bitmap takes its width and the
        fixed height (which wipes it) and the pen settings are re-applied;
        without one, nothing happens. */
    method ResizeCanvas(containerWidth: Option<nat>)
      requires Valid()
      modifies this
      ensures Valid()
      ensures hasContext == old(hasContext) && isDrawing == old(isDrawing) && listening == old(listening)
      ensures containerWidth.None? ==>
        width == old(width) && height == old(height) && style == old(style) && log == old(log)
      ensures containerWidth.Some? ==>
        width == containerWidth.value && height == CanvasHeight && style == PenStyle
        && log == old(log) + [Resize(containerWidth.value, CanvasHeight)]
        && Render(log) == Fresh(containerWidth.value, CanvasHeight)
    {
      if containerWidth.Some? {
        var w := containerWidth.value;
        var resized := log + [Resize(w, CanvasHeight)];
        RenderAppend(log, Resize(w, CanvasHeight));
        assert Render(resized) == Fresh(w, CanvasHeight);
        log := resized;
        width := w;
        height := CanvasHeight;
        style := PenStyle;
      }
    }

    /** The effect that runs when the dialog's `open` changes: the previous
        run's listener is removed; then, if the dialog is open, the canvas is
        mounted and a 2D context is available, the canvas is resized, the
        listener registered and the context stored. `isDrawing` is left as it was. */
    method OnOpenChange(open: bool, contextAvailable: bool, containerWidth: Option<nat>)
      requires Valid()
      modifies this
      ensures Valid()
      ensures isDrawing == old(isDrawing)
      ensures !(open && hasCanvas && contextAvailable) ==>
        !listening && hasContext == old(hasContext) && width == old(width) && height == old(height)
        && style == old(style) && log == old(log)
      ensures open && hasCanvas && contextAvailable ==> listening && hasContext
      ensures open && hasCanvas && contextAvailable && containerWidth.Some? ==>
        width == containerWidth.value && height == CanvasHeight && style == PenStyle
        && log == old(log) + [Resize(containerWidth.value, CanvasHeight)]
        && Render(log).ink == {}
      ensures open && hasCanvas && contextAvailable && containerWidth.None? ==>
        width == old(width) && height == old(height) && style == old(style) && log == old(log)
    {
      listening := false;
      if !hasCanvas || !open {
        return;
      }
      if !contextAvailable {
        return;
      }
      ResizeCanvas(containerWidth);
      listening := true;
      hasContext := true;
    }

    /** A window resize reaches `resizeCanvas` only while the listener is registered. */
    method HandleWindowResize(containerWidth: Option<nat>)
      requires Valid()
      modifies this
      ensures Valid()
      ensures hasContext == old(hasContext) && isDrawing == old(isDrawing) && listening == old(listening)
      ensures !old(listening) || containerWidth.None? ==>
        width == old(width) && height == old(height) && style == old(style) && log == old(log)
      ensures old(listening) && containerWidth.Some? ==>
        width == containerWidth.value && height == CanvasHeight && style == PenStyle
        && log == old(log) + [Resize(containerWidth.value, CanvasHeight)]
    {
      if listening {
        ResizeCanvas(containerWidth);
      }
    }

    /** `startDrawing`: without a context, nothing. Otherwise the stroke
        starts and a new path begins even when the event has no position;
        with a position the path moves there and the default action is
        suppressed. */
    method StartDrawing(e: InputEvent, rect: Rect) returns (prevented: bool)
      requires Valid()
      modifies this
      ensures Valid()
      ensures hasContext == old(hasContext) && listening == old(listening)
      ensures width == old(width) && height == old(height) && style == old(style)
      ensures !old(hasContext) || !hasCanvas ==>
        !prevented && isDrawing == old(isDrawing) && log == old(log)
      ensures old(hasContext) && hasCanvas ==>
        isDrawing && prevented == EventPosition(e, rect).Some?
        && log == old(log) + [BeginPath]
           + (if prevented then [MoveTo(EventPosition(e, rect).value)] else [])
    {
      if !hasContext || !hasCanvas {
        return false;
      }
      var position := EventPosition(e, rect);
      var ops := [BeginPath] + (if position.Some? then [MoveTo(position.value)] else []);
      RenderAppend(log, BeginPath);
      if position.Some? {
        RenderAppend(log + [BeginPath], MoveTo(position.value));
        assert log + ops == log + [BeginPath] + [MoveTo(position.value)];
      }
      assert Render(log + ops).width == width && Render(log + ops).height == height;
      isDrawing := true;
      log := log + ops;
      prevented := position.Some?;
    }

    /** `draw`: only while drawing. The default action is suppressed; with a
        position, a line to it is added to the path and the path is stroked. */
    method Draw(e: InputEvent, rect: Rect) returns (prevented: bool)
      requires Valid()
      modifies this`log
      ensures Valid()
      ensures !isDrawing || !hasContext || !hasCanvas ==> !prevented && log == old(log)
      ensures isDrawing && hasContext && hasCanvas ==>
        prevented
        && log == old(log) + (if EventPosition(e, rect).Some?
                              then [LineTo(EventPosition(e, rect).value), Stroke] else [])
    {
      prevented := false;
      if !isDrawing || !hasContext || !hasCanvas {
        return;
      }
      prevented := true;
      var position := EventPosition(e, rect);
      if position.None? {
        return;
      }
      RenderAppend(log, LineTo(position.value));
      RenderAppend(log + [LineTo(position.value)], Stroke);
      assert log + [LineTo(position.value)] + [Stroke] == log + [LineTo(position.value), Stroke];
      log := log + [LineTo(position.value), Stroke];
    }

    /** `endDrawing`: without a context, nothing; otherwise the stroke ends
        and the path is closed. */
    method EndDrawing() returns (prevented: bool)
      requires Valid()
      modifies this`isDrawing, this`log
      ensures Valid()
      ensures !hasContext ==> !prevented && isDrawing == old(isDrawing) && log == old(log)
      ensures hasContext ==> prevented && !isDrawing && log == old(log) + [ClosePath]
    {
      prevented := false;
      if !hasContext {
        return;
      }
      isDrawing := false;
      RenderAppend(log, ClosePath);
      log := log + [ClosePath];
      prevented := true;
    }

    /** `handleClear`: with a canvas and a context, the whole bitmap is
        cleared and no ink is left; otherwise nothing happens. */
    method HandleClear() returns (cleared: bool)
      requires Valid()
      modifies this`log
      ensures Valid()
      ensures cleared == (hasCanvas && hasContext)
      ensures !cleared ==> log == old(log)
      ensures cleared ==> log == old(log) + [ClearRect(width, height)] && Render(log).ink == {}
    {
      if !hasCanvas || !hasContext {
        return false;
      }
      RenderAppend(log, ClearRect(width, height));
      log := log + [ClearRect(width, height)];
      cleared := true;
    }

    /** `handleSave`: there is no check that anything was drawn. With a canvas,
        a successful encoding is saved (and the dialog asked to close); an
        encoding failure is reported. Nothing in the pad changes either way. */
    method HandleSave(encoding: Option<string>) returns (outcome: SaveOutcome)
      ensures !hasCanvas <==> outcome == NoCanvas
      ensures hasCanvas && encoding.Some? ==> outcome == Saved(encoding.value)
      ensures hasCanvas && encoding.None? ==> outcome == SaveFailed
    {
      if !hasCanvas {
        return NoCanvas;
      }
      match encoding
      case Some(url) => outcome := Saved(url);
      case None => outcome := SaveFailed;
    }
  }

  /** Open the dialog, press at (50, 50), move to (80, 50), release, save;
      then clear and save again. The first save succeeds with the segment on
      the canvas; after the clear no ink is left, and the second save STILL
      succeeds, because saving checks nothing. */
  method EndToEndScenario(url: string, rect: Rect) returns (first: SaveOutcome, second: SaveOutcome, inkedBefore: set<Segment>, inkedAfter: set<Segment>)
    ensures first == Saved(url) && second == Saved(url)
    ensures Segment(Point(50.0, 50.0), Point(80.0, 50.0)) in inkedBefore
    ensures inkedAfter == {}
  {
    var pad := new SignaturePad(true);
    pad.OnOpenChange(true, true, Some(600));
    assert pad.hasCanvas && pad.hasContext;
    var a := Point(50.0, 50.0);
    var b := Point(80.0, 50.0);
    ghost var before := pad.log;
    var down := pad.StartDrawing(Mouse(a.x + rect.left, a.y + rect.top), rect);
    assert EventPosition(Mouse(a.x + rect.left, a.y + rect.top), rect) == Some(a);
    assert pad.isDrawing && pad.log == before + [BeginPath, MoveTo(a)];
    var moved := pad.Draw(Mouse(b.x + rect.left, b.y + rect.top), rect);
    assert EventPosition(Mouse(b.x + rect.left, b.y + rect.top), rect) == Some(b);
    assert pad.log == before + [BeginPath, MoveTo(a), LineTo(b), Stroke];
    DragInksSegment(before, a, b);
    ghost var drawn := pad.log;
    var up := pad.EndDrawing();
    RenderAppend(drawn, ClosePath);
    inkedBefore := Render(pad.log).ink;
    first := pad.HandleSave(Some(url));
    var cleared := pad.HandleClear();
    inkedAfter := Render(pad.log).ink;
    second := pad.HandleSave(Some(url));
  }
}
