/** The top-level page: the list of uploaded datasets, the picked points, and the zoom
    state of the chart it draws from the FIRST uploaded dataset. */
module Page {
  import opened Wrappers
  import opened JsNumber
  import opened Uploader
  import opened Axis
  import opened ZoomGraph

  /** The page's three pieces of state. */
  datatype Home = Home(jsonData: seq<Dataset>, pickedPoints: seq<Row>, zoomGraph: State)

  /** Everything the page reacts to: the chart's events and a parsed upload. */
  datatype Event = Chart(ev: ChartEvent) | DataParsed(d: Dataset)

  /** The zoom state the page starts with, and the one `zoomOut` restores. */
  const InitialZoom: State := State(DataMin, DataMax, None, None, DataMaxPlusOne, DataMinMinusOne)

  const Initial: Home := Home([], [], InitialZoom)

  /** `handleDataParsed`: every upload is appended, in the order the uploads arrive. */
  function HandleDataParsed(h: Home, d: Dataset): (r: Home)
    ensures |r.jsonData| == |h.jsonData| + 1 && r.jsonData[..|h.jsonData|] == h.jsonData
    ensures r.jsonData[|h.jsonData|] == d
    ensures r.pickedPoints == h.pickedPoints && r.zoomGraph == h.zoomGraph
  {
    h.(jsonData := h.jsonData + [d])
  }

  /** The rows the chart shows: those of the first dataset, none before any upload. */
  function ChartData(jsonData: seq<Dataset>): seq<Row> {
    if |jsonData| == 0 then [] else jsonData[0].data
  }

  /** `getAxisYDomain`: the domain over the inclusive range of the FIRST dataset only;
      before any upload (`jsonData[0]?.data... || []`) the range is empty and the result
      is the sentinel pair `[Infinity, -Infinity]`. */
  function GetAxisYDomain(jsonData: seq<Dataset>, from: nat, to: nat, key: string, offset: real)
    : (r: (Number, Number))
    ensures |jsonData| == 0 ==> r == (PosInf, NegInf)
    ensures |jsonData| > 0 ==> r == AxisYDomain(jsonData[0].data, from, to, key, offset)
  {
    var rows := ChartData(jsonData);
    if |jsonData| == 0 then
      NoNumbersGivesSentinels(rows, from, to, key, offset);
      AxisYDomain(rows, from, to, key, offset)
    else
      AxisYDomain(rows, from, to, key, offset)
  }

  /** Some row of `data` has exactly timestamp `t`. */
  predicate Present(data: seq<Row>, t: int) {
    exists j :: 0 <= j < |data| && HasTimestamp(data[j], t)
  }

  /** `zoom` (on mouse-up). An empty or degenerate selection only clears the drag
      markers. Otherwise the endpoints are ordered and each is looked up as the first
      row of the first dataset with exactly that timestamp; when both are found the view
      becomes the ordered endpoints and the heading domain (offset 1) over the rows
      between the two matches, and when either is missing the state is left exactly as
      it was, drag markers included. Before any upload the lookups yield `undefined`,
      which the `!== -1` test lets through, so the zoom commits with the sentinel
      domain. */
  function Zoom(s: State, jsonData: seq<Dataset>): (r: State)
    ensures !ValidSelection(s) ==> r == ClearMarkers(s)
    ensures ValidSelection(s) && |jsonData| == 0 ==>
              r == Committed(s, Ordered(s).0, Ordered(s).1, (PosInf, NegInf))
    ensures ValidSelection(s) && |jsonData| > 0 ==>
              var data := jsonData[0].data;
              var (lo, hi) := Ordered(s);
              && (!Present(data, lo) || !Present(data, hi) ==> r == s)
              && (Present(data, lo) && Present(data, hi) ==>
                    var from, to := FindIndex(data, lo).value, FindIndex(data, hi).value;
                    && HasTimestamp(data[from], lo) && HasTimestamp(data[to], hi)
                    && (forall j :: 0 <= j < from ==> !HasTimestamp(data[j], lo))
                    && (forall j :: 0 <= j < to ==> !HasTimestamp(data[j], hi))
                    && r == Committed(s, lo, hi, AxisYDomain(data, from, to, HeadingKey, 1.0)))
  {
    if !ValidSelection(s) then ClearMarkers(s)
    else
      var (lo, hi) := Ordered(s);
      if |jsonData| == 0 then
        Committed(s, lo, hi, GetAxisYDomain(jsonData, 0, 0, HeadingKey, 1.0))
      else
        var data := jsonData[0].data;
        match (FindIndex(data, lo), FindIndex(data, hi))
        case (Some(from), Some(to)) =>
          Committed(s, lo, hi, GetAxisYDomain(jsonData, from, to, HeadingKey, 1.0))
        case _ => s
  }

  /** `zoomOut`: the initial zoom state, whatever came before. */
  function ZoomOut(): State {
    InitialZoom
  }

  /** `handleChartClick`: the clicked row is appended, with no check for duplicates;
      a click that resolves to no row changes nothing. */
  function HandleChartClick(picked: seq<Row>, e: ClickEvent): (r: seq<Row>)
    ensures ClickedRow(e).Some? ==> r == picked + [ClickedRow(e).value]
    ensures ClickedRow(e).None? ==> r == picked
  {
    match ClickedRow(e)
    case Some(row) => picked + [row]
    case None => picked
  }

  /** The page's reaction to one event. */
  function Step(h: Home, ev: Event): Home {
    match ev
    case DataParsed(d) => HandleDataParsed(h, d)
    case Chart(MouseDown(l)) => h.(zoomGraph := MouseDownUpdate(h.zoomGraph, l))
    case Chart(MouseMove(l)) => h.(zoomGraph := MouseMoveUpdate(h.zoomGraph, l))
    case Chart(MouseUp) => h.(zoomGraph := Zoom(h.zoomGraph, h.jsonData))
    case Chart(Click(e)) => h.(pickedPoints := HandleChartClick(h.pickedPoints, e))
    case Chart(ZoomOutPressed) => h.(zoomGraph := ZoomOut())
  }

  /** The page after a run of events, in order. */
  function Run(h: Home, evs: seq<Event>): Home
    decreases |evs|
  {
    if |evs| == 0 then h else Run(Step(h, evs[0]), evs[1..])
  }

  /** Dragging right to left gives the same view as dragging left to right. The drag
      markers of the result are swapped too, which shows only when a lookup missed and
      the page kept the markers as they were drawn. */
  lemma ZoomDirectionIndependent(s: State, jsonData: seq<Dataset>)
    ensures var r := Zoom(s, jsonData);
            var r' := Zoom(s.(refAreaLeft := s.refAreaRight, refAreaRight := s.refAreaLeft), jsonData);
            SameView(r, r') && r'.refAreaLeft == r.refAreaRight && r'.refAreaRight == r.refAreaLeft
  {
    var s' := s.(refAreaLeft := s.refAreaRight, refAreaRight := s.refAreaLeft);
    if ValidSelection(s) {
      assert Ordered(s') == Ordered(s);
    }
  }

  /** Only the first dataset takes part in a zoom: later uploads do not change it. */
  lemma ZoomReadsFirstDatasetOnly(s: State, first: Dataset, later: seq<Dataset>)
    ensures Zoom(s, [first] + later) == Zoom(s, [first])
  {
    assert ([first] + later)[0] == first;
  }

  /** Zooming out yields the initial zoom state from any state, so doing it twice is the
      same as doing it once; nothing else on the page changes. */
  lemma ZoomOutResets(h: Home)
    ensures Step(h, Chart(ZoomOutPressed)) == h.(zoomGraph := Initial.zoomGraph)
    ensures Step(Step(h, Chart(ZoomOutPressed)), Chart(ZoomOutPressed)) == Step(h, Chart(ZoomOutPressed))
  {
  }

  /** Every event keeps the zoom state well formed: the x-range is either the full data
      range or two timestamps in ascending order, and a drag end never exists without a
      drag start. */
  lemma StepPreservesWellFormed(h: Home, ev: Event)
    requires WellFormed(h.zoomGraph)
    ensures WellFormed(Step(h, ev).zoomGraph)
  {
    if ev == Chart(MouseUp) && ValidSelection(h.zoomGraph) {
      var (lo, hi) := Ordered(h.zoomGraph);
      assert lo < hi;
    }
  }

  /** The page starts well formed and stays so whatever events arrive. */
  lemma {:induction false} RunPreservesWellFormed(h: Home, evs: seq<Event>)
    requires WellFormed(h.zoomGraph)
    ensures WellFormed(Run(h, evs).zoomGraph)
    decreases |evs|
  {
    if |evs| > 0 {
      StepPreservesWellFormed(h, evs[0]);
      RunPreservesWellFormed(Step(h, evs[0]), evs[1..]);
    }
  }

  /** Uploads are only ever appended: the datasets present before a run of events are a
      prefix of those present after it, so the dataset the chart shows never changes
      once there is one. */
  lemma {:induction false} RunKeepsDatasets(h: Home, evs: seq<Event>)
    ensures |h.jsonData| <= |Run(h, evs).jsonData|
    ensures Run(h, evs).jsonData[..|h.jsonData|] == h.jsonData
    ensures |h.jsonData| > 0 ==> ChartData(Run(h, evs).jsonData) == ChartData(h.jsonData)
    decreases |evs|
  {
    if |evs| > 0 {
      var h' := Step(h, evs[0]);
      assert h'.jsonData[..|h.jsonData|] == h.jsonData;
      RunKeepsDatasets(h', evs[1..]);
      var r := Run(h', evs[1..]).jsonData;
      assert r[..|h.jsonData|] == r[..|h'.jsonData|][..|h.jsonData|];
      if |h.jsonData| > 0 {
        assert r[0] == r[..|h.jsonData|][0];
      }
    }
  }

  /** A run of uploads appends their datasets in arrival order. */
  lemma {:induction false} UploadsAppendInOrder(h: Home, ds: seq<Dataset>)
    ensures Run(h, seq(|ds|, i requires 0 <= i < |ds| => DataParsed(ds[i]))).jsonData == h.jsonData + ds
    decreases |ds|
  {
    var evs := seq(|ds|, i requires 0 <= i < |ds| => DataParsed(ds[i]));
    if |ds| > 0 {
      var h' := Step(h, evs[0]);
      assert evs[1..] == seq(|ds[1..]|, i requires 0 <= i < |ds[1..]| => DataParsed(ds[1..][i]));
      UploadsAppendInOrder(h', ds[1..]);
      assert h.jsonData + ds == h'.jsonData + ds[1..];
    }
  }

  /** Clicking the same point twice records it twice. */
  lemma ClickTwiceRecordsTwice(h: Home, e: ClickEvent)
    requires ClickedRow(e).Some?
    ensures Run(h, [Chart(Click(e)), Chart(Click(e))]).pickedPoints
         == h.pickedPoints + [ClickedRow(e).value, ClickedRow(e).value]
  {
    var once := Step(h, Chart(Click(e)));
    assert Run(h, [Chart(Click(e)), Chart(Click(e))]) == Run(once, [Chart(Click(e))]);
    assert Run(once, [Chart(Click(e))]) == Step(once, Chart(Click(e)));
  }
}
