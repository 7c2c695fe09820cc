/** The `zoomGraph` state record both chart versions keep, and the parts of its event
    handling that the two versions share word for word: the mouse-down and mouse-move
    updates, the check that a drag selected something, the ordering of its endpoints,
    and reading the clicked row out of a click event. */
module ZoomGraph {
  import opened Wrappers
  import opened JsNumber
  import opened Uploader

  /** An x-axis bound: the `"dataMin"`/`"dataMax"` keywords or a timestamp. */
  datatype XBound = DataMin | DataMax | AtTime(t: int)

  /** A y-axis bound: the `"dataMin-1"`/`"dataMax+1"` keywords or a number. */
  datatype YBound = DataMinMinusOne | DataMaxPlusOne | Bound(n: Number)

  /** `{left, right, refAreaLeft, refAreaRight, top, bottom}`; a drag marker that is
      `""` in the source is `None` here. */
  datatype State = State(left: XBound, right: XBound,
                         refAreaLeft: Option<int>, refAreaRight: Option<int>,
                         top: YBound, bottom: YBound)

  /** What the chart reports: mouse events carry the timestamp under the pointer
      (`activeLabel`), absent when the pointer is over no data point. */
  datatype ChartEvent =
    | MouseDown(activeLabel: Option<int>)
    | MouseMove(activeLabel: Option<int>)
    | MouseUp
    | Click(e: ClickEvent)
    | ZoomOutPressed

  /** The `activePayload` of a click: the entries under the pointer, each possibly
      carrying the row it was drawn from. */
  datatype PayloadEntry = PayloadEntry(payload: Option<Row>)
  datatype ClickEvent = ClickEvent(activePayload: Option<seq<PayloadEntry>>)

  /** `e?.activePayload && e.activePayload[0]?.payload`: the row of the first entry, when
      there is a first entry and it carries a row. */
  function ClickedRow(e: ClickEvent): (r: Option<Row>)
    ensures r.Some? <==> e.activePayload.Some? && |e.activePayload.value| > 0
                         && e.activePayload.value[0].payload.Some?
    ensures r.Some? ==> r.value == e.activePayload.value[0].payload.value
  {
    match e.activePayload
    case None => None
    case Some(entries) => if |entries| == 0 then None else entries[0].payload
  }

  /** `r` shows the same axes as `s`: only the drag markers may differ. */
  predicate SameView(s: State, r: State) {
    r.left == s.left && r.right == s.right && r.top == s.top && r.bottom == s.bottom
  }

  /** JavaScript truthiness of a label or drag marker: `""` (here `None`) and the
      timestamp `0` are both falsy. */
  predicate Truthy(l: Option<int>) {
    l.Some? && l.value != 0
  }

  /** `onMouseDown`: a drag starts at the timestamp under the pointer; with no label
      under the pointer, or the falsy label `0`, nothing happens. */
  function MouseDownUpdate(s: State, activeLabel: Option<int>): (r: State)
    ensures SameView(s, r) && r.refAreaRight == s.refAreaRight
    ensures Truthy(activeLabel) ==> r.refAreaLeft == activeLabel
    ensures !Truthy(activeLabel) ==> r == s
  {
    if Truthy(activeLabel) then s.(refAreaLeft := activeLabel) else s
  }

  /** `onMouseMove`: the drag end follows the pointer, but only once a drag has started
      and only over a (truthy) label. */
  function MouseMoveUpdate(s: State, activeLabel: Option<int>): (r: State)
    ensures SameView(s, r) && r.refAreaLeft == s.refAreaLeft
    ensures Truthy(s.refAreaLeft) && Truthy(activeLabel) ==> r.refAreaRight == activeLabel
    ensures !Truthy(s.refAreaLeft) || !Truthy(activeLabel) ==> r == s
  {
    if Truthy(s.refAreaLeft) && Truthy(activeLabel) then s.(refAreaRight := activeLabel) else s
  }

  /** Both drag markers back to `""`, nothing else touched. */
  function ClearMarkers(s: State): State {
    s.(refAreaLeft := None, refAreaRight := None)
  }

  /** The drag selected a range: both markers are set and they differ
      (`!refAreaLeft || !refAreaRight || refAreaLeft === refAreaRight` is false). */
  predicate ValidSelection(s: State) {
    Truthy(s.refAreaLeft) && Truthy(s.refAreaRight) && s.refAreaLeft.value != s.refAreaRight.value
  }

  /** The selected endpoints swapped into ascending order when the drag went right to
      left: the same unordered pair, smaller first. */
  function Ordered(s: State): (r: (int, int))
    requires ValidSelection(s)
    ensures r.0 < r.1
    ensures {r.0, r.1} == {s.refAreaLeft.value, s.refAreaRight.value}
  {
    var a, b := s.refAreaLeft.value, s.refAreaRight.value;
    if a > b then (b, a) else (a, b)
  }

  /** The view is either the whole data range or a range of two timestamps, left before
      right; and a drag end is only ever recorded after a drag start. */
  predicate WellFormed(s: State) {
    && ((s.left == DataMin && s.right == DataMax)
        || (s.left.AtTime? && s.right.AtTime? && s.left.t < s.right.t))
    && (s.refAreaRight.Some? ==> s.refAreaLeft.Some?)
  }

  /** The state after a zoom that found both endpoints: the x-axis spans the ordered
      endpoints, the y-axis the computed domain, and the drag is over. */
  function Committed(s: State, lo: int, hi: int, domain: (Number, Number)): (r: State)
    ensures r.left == AtTime(lo) && r.right == AtTime(hi)
    ensures r.bottom == Bound(domain.0) && r.top == Bound(domain.1)
    ensures r.refAreaLeft.None? && r.refAreaRight.None?
  {
    s.(left := AtTime(lo), right := AtTime(hi), refAreaLeft := None, refAreaRight := None,
       bottom := Bound(domain.0), top := Bound(domain.1))
  }
}
