/** The reusable chart component: the same zoom logic as the page, over the `data` it
    is given, except that a lookup that finds nothing clears the drag markers, and a
    click is handed to the parent's `onPointClick` instead of being stored. */
module Linechart {
  import opened Wrappers
  import opened JsNumber
  import opened Uploader
  import opened Axis
  import opened ZoomGraph

  /** The zoom state the component starts with: the y-domain placeholders are the two
      infinities. */
  const InitialZoom: State := State(DataMin, DataMax, None, None, Bound(PosInf), Bound(NegInf))

  /** `zoomOut`: the same state from any prior state, with the `"dataMax+1"` /
      `"dataMin-1"` keywords for the y-domain, which is NOT the initial state. */
  function ZoomOut(): (r: State)
    ensures r.left == DataMin && r.right == DataMax
    ensures r.refAreaLeft.None? && r.refAreaRight.None?
    ensures r.top == DataMaxPlusOne && r.bottom == DataMinMinusOne
  {
    State(DataMin, DataMax, None, None, DataMaxPlusOne, DataMinMinusOne)
  }

  /** `zoom` (on mouse-up). Whichever path it takes, both drag markers are empty
      afterwards. An empty or degenerate selection, or an endpoint that no row of `data`
      has as its exact timestamp, changes nothing else. Otherwise the view becomes the
      ordered endpoints and the heading domain (offset 1) over the rows between the
      first exact matches of the two endpoints. */
  function Zoom(s: State, data: seq<Row>): (r: State)
    ensures r.refAreaLeft.None? && r.refAreaRight.None?
    ensures !ValidSelection(s) ==> r == ClearMarkers(s)
    ensures ValidSelection(s) ==>
              var (lo, hi) := Ordered(s);
              && (FindIndex(data, lo).None? || FindIndex(data, hi).None? ==> r == ClearMarkers(s))
              && (FindIndex(data, lo).Some? && FindIndex(data, hi).Some? ==>
                    r == Committed(s, lo, hi, AxisYDomain(data, FindIndex(data, lo).value,
                                                          FindIndex(data, hi).value, HeadingKey, 1.0)))
  {
    if !ValidSelection(s) then ClearMarkers(s)
    else
      var (lo, hi) := Ordered(s);
      match (FindIndex(data, lo), FindIndex(data, hi))
      case (Some(from), Some(to)) =>
        Committed(s, lo, hi, AxisYDomain(data, from, to, HeadingKey, 1.0))
      case _ => ClearMarkers(s)
  }

  /** `handleChartClick`: the calls made to `onPointClick`, exactly one with the clicked
      row when the click resolves to a row, none otherwise. */
  function HandleChartClick(e: ClickEvent): (calls: seq<Row>)
    ensures |calls| <= 1
    ensures |calls| == 1 <==> ClickedRow(e).Some?
    ensures |calls| == 1 ==> calls[0] == ClickedRow(e).value
  {
    match ClickedRow(e)
    case Some(row) => [row]
    case None => []
  }

  /** The component's reaction to one event over the rows it is given: the new zoom
      state and the calls made to `onPointClick`. */
  function Step(s: State, data: seq<Row>, ev: ChartEvent): (State, seq<Row>) {
    match ev
    case MouseDown(l) => (MouseDownUpdate(s, l), [])
    case MouseMove(l) => (MouseMoveUpdate(s, l), [])
    case MouseUp => (Zoom(s, data), [])
    case Click(e) => (s, HandleChartClick(e))
    case ZoomOutPressed => (ZoomOut(), [])
  }

  /** Dragging right to left gives exactly the same result as dragging left to right. */
  lemma ZoomDirectionIndependent(s: State, data: seq<Row>)
    ensures Zoom(s.(refAreaLeft := s.refAreaRight, refAreaRight := s.refAreaLeft), data)
         == Zoom(s, data)
  {
    var s' := s.(refAreaLeft := s.refAreaRight, refAreaRight := s.refAreaLeft);
    if ValidSelection(s) {
      assert Ordered(s') == Ordered(s);
    }
  }

  /** Zooming out twice is zooming out once, and the state it gives differs from the
      initial one exactly in the y-domain. */
  lemma ZoomOutIdempotent(s: State, data: seq<Row>)
    ensures Step(Step(s, data, ZoomOutPressed).0, data, ZoomOutPressed) == Step(s, data, ZoomOutPressed)
    ensures ZoomOut() != InitialZoom
    ensures ZoomOut() == InitialZoom.(top := DataMaxPlusOne, bottom := DataMinMinusOne)
  {
  }

  /** Every event keeps the zoom state well formed; only a click calls `onPointClick`. */
  lemma StepPreservesWellFormed(s: State, data: seq<Row>, ev: ChartEvent)
    requires WellFormed(s)
    ensures WellFormed(Step(s, data, ev).0)
    ensures Step(s, data, ev).1 != [] ==> ev.Click?
  {
    if ev == MouseUp && ValidSelection(s) {
      var (lo, hi) := Ordered(s);
      assert lo < hi;
    }
  }
}
