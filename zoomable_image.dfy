/**
 * The zoomable challenge image: zoom buttons, the mouse wheel, dragging the
 * zoomed image, and reset. Zoom is counted in half-steps, so 2 is the
 * unzoomed scale 1.0 and every button press moves by one.
 */
module ZoomableImage {
  /** Scale 1.0, the least zoom. */
  const MinZoom := 2
  /** The default `maxZoom` of 4.0, which is the only one the pages use. */
  const MaxZoom := 8

  /** The component's state: zoom, image offset, whether a drag is under way, and where it was grabbed. */
  datatype View = View(zoom: int, x: int, y: int, dragging: bool, grabX: int, grabY: int)

  datatype Event =
    | ZoomIn
    | ZoomOut
    | Wheel(deltaY: int)
    | MouseDown(clientX: int, clientY: int)
    | MouseMove(clientX: int, clientY: int)
    | MouseUp
    | Reset
    | SrcChanged

  const Initial := View(MinZoom, 0, 0, false, 0, 0)

  predicate InRange(v: View) {
    MinZoom <= v.zoom <= MaxZoom
  }

  function Min(a: int, b: int): int { if a <= b then a else b }
  function Max(a: int, b: int): int { if a >= b then a else b }

  function ZoomedIn(v: View): View {
    v.(zoom := Min(v.zoom + 1, MaxZoom))
  }

  /** Zooming out from at most 1.5 also re-centres the image. */
  function ZoomedOut(v: View): View {
    if v.zoom > MinZoom then
      var v' := v.(zoom := Max(v.zoom - 1, MinZoom));
      if v.zoom <= MinZoom + 1 then v'.(x := 0, y := 0) else v'
    else v
  }

  /** How each handler changes the state. A mouse-up anywhere in the window ends a drag just as one
      on the image does, so both are `MouseUp`. */
  function Next(v: View, e: Event): (r: View)
    ensures (e.MouseDown? || e.MouseMove? || e.MouseUp?) ==> r.zoom == v.zoom
    ensures (e.Reset? || e.SrcChanged?) ==> r.zoom == MinZoom && r.x == 0 && r.y == 0
    ensures r.dragging ==> !e.MouseUp? && (v.dragging || e.MouseDown?)
  {
    match e
    case ZoomIn => ZoomedIn(v)
    case ZoomOut => ZoomedOut(v)
    case Wheel(deltaY) => if deltaY < 0 then ZoomedIn(v) else ZoomedOut(v)
    case MouseDown(cx, cy) => if v.zoom > MinZoom then v.(dragging := true, grabX := cx - v.x, grabY := cy - v.y) else v
    case MouseMove(cx, cy) => if v.dragging && v.zoom > MinZoom then v.(x := cx - v.grabX, y := cy - v.grabY) else v
    case MouseUp => v.(dragging := false)
    case Reset => v.(zoom := MinZoom, x := 0, y := 0)
    case SrcChanged => v.(zoom := MinZoom, x := 0, y := 0)
  }

  /** The zoom stays between 1.0 and the maximum, whatever happens. */
  lemma NextInRange(v: View, e: Event)
    requires InRange(v)
    ensures InRange(Next(v, e))
  {
  }

  /** Any sequence of events. */
  function Run(v: View, events: seq<Event>): View
    decreases |events|
  {
    if events == [] then v else Run(Next(v, events[0]), events[1..])
  }

  lemma {:induction false} RunInRange(v: View, events: seq<Event>)
    requires InRange(v)
    ensures InRange(Run(v, events))
    decreases |events|
  {
    if events != [] {
      NextInRange(v, events[0]);
      RunInRange(Next(v, events[0]), events[1..]);
    }
  }

  /** Zooming out undoes zooming in below the maximum; at the maximum zooming in does nothing. */
  lemma ZoomOutUndoesZoomIn(v: View)
    requires InRange(v)
    ensures v.zoom < MaxZoom ==> Next(Next(v, ZoomIn), ZoomOut).zoom == v.zoom
    ensures v.zoom == MaxZoom ==> Next(v, ZoomIn) == v
  {
  }

  /** Zooming out to 1.0 re-centres the image; at 1.0 zooming out does nothing. */
  lemma ZoomOutToOneRecentres(v: View)
    ensures v.zoom == MinZoom + 1 ==> var w := Next(v, ZoomOut); w.zoom == MinZoom && w.x == 0 && w.y == 0
    ensures v.zoom <= MinZoom ==> Next(v, ZoomOut) == v
  {
  }

  /** While dragging, the image follows the mouse: it moves by exactly the mouse's displacement since the grab. */
  lemma DragFollowsMouse(v: View, x0: int, y0: int, x1: int, y1: int)
    requires v.zoom > MinZoom
    ensures var w := Next(Next(v, MouseDown(x0, y0)), MouseMove(x1, y1));
      w.dragging && w.x == v.x + (x1 - x0) && w.y == v.y + (y1 - y0) && w.zoom == v.zoom
  {
  }

  /** At scale 1.0 the image cannot be dragged: pressing and moving the mouse changes nothing. */
  lemma NoDragUnzoomed(v: View, x0: int, y0: int, x1: int, y1: int)
    requires v.zoom == MinZoom && !v.dragging
    ensures Next(Next(v, MouseDown(x0, y0)), MouseMove(x1, y1)) == v
  {
  }

  /** The component. Its handlers are the methods; the buttons' enabled states are the functions. */
  class Image {
    var zoom: int
    var x: int
    var y: int
    var dragging: bool
    var grabX: int
    var grabY: int

    function State(): View reads this {
      View(zoom, x, y, dragging, grabX, grabY)
    }

    ghost predicate Valid() reads this {
      InRange(State())
    }

    constructor ()
      ensures State() == Initial && Valid()
    {
      zoom, x, y, dragging, grabX, grabY := MinZoom, 0, 0, false, 0, 0;
    }

    /** The minus button is disabled at scale 1.0, the plus button at the maximum. */
    function CanZoomOut(): bool reads this { zoom > MinZoom }
    function CanZoomIn(): bool reads this { zoom < MaxZoom }

    method HandleZoomIn()
      requires Valid()
      modifies this
      ensures Valid() && State() == Next(old(State()), ZoomIn)
    {
      zoom := Min(zoom + 1, MaxZoom);
    }

    method HandleZoomOut()
      requires Valid()
      modifies this
      ensures Valid() && State() == Next(old(State()), ZoomOut)
    {
      if zoom > MinZoom {
        var before := zoom;
        zoom := Max(zoom - 1, MinZoom);
        if before <= MinZoom + 1 {
          x, y := 0, 0;
        }
      }
    }

    method HandleWheel(deltaY: int)
      requires Valid()
      modifies this
      ensures Valid() && State() == Next(old(State()), Wheel(deltaY))
    {
      if deltaY < 0 {
        HandleZoomIn();
      } else {
        HandleZoomOut();
      }
    }

    method HandleMouseDown(clientX: int, clientY: int)
      requires Valid()
      modifies this
      ensures Valid() && State() == Next(old(State()), MouseDown(clientX, clientY))
    {
      if zoom > MinZoom {
        dragging := true;
        grabX, grabY := clientX - x, clientY - y;
      }
    }

    method HandleMouseMove(clientX: int, clientY: int)
      requires Valid()
      modifies this
      ensures Valid() && State() == Next(old(State()), MouseMove(clientX, clientY))
    {
      if dragging && zoom > MinZoom {
        x, y := clientX - grabX, clientY - grabY;
      }
    }

    /** Releasing the button, on the image, when leaving it, or anywhere in the window. */
    method HandleMouseUp()
      requires Valid()
      modifies this
      ensures Valid() && State() == Next(old(State()), MouseUp)
    {
      dragging := false;
    }

    method HandleReset()
      requires Valid()
      modifies this
      ensures Valid() && State() == Next(old(State()), Reset)
    {
      zoom := MinZoom;
      x, y := 0, 0;
    }

    /** The effect run when the image source changes. */
    method HandleSrcChanged()
      requires Valid()
      modifies this
      ensures Valid() && State() == Next(old(State()), SrcChanged)
    {
      zoom := MinZoom;
      x, y := 0, 0;
    }
  }
}
