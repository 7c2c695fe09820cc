/** How the page and the chart component compare: their starting and zoomed-out
    states, their zoom with and without an uploaded dataset (the component being given
    the page's first dataset, or no rows), and their click handling. */
module Versions {
  import opened Wrappers
  import opened JsNumber
  import opened Uploader
  import opened Axis
  import opened ZoomGraph
  import Page
  import Linechart

  /** On a degenerate selection and on a successful lookup the two versions agree. */
  lemma AgreeUnlessLookupMisses(s: State, first: Dataset, later: seq<Dataset>)
    requires !ValidSelection(s)
             || (FindIndex(first.data, Ordered(s).0).Some? && FindIndex(first.data, Ordered(s).1).Some?)
    ensures Page.Zoom(s, [first] + later) == Linechart.Zoom(s, first.data)
  {
    assert ([first] + later)[0] == first;
  }

  /** When an endpoint has no exactly matching row, the page keeps the drag markers (the
      selection stays drawn) while the component clears them; the view is unchanged in
      both. */
  lemma DifferOnLookupMiss(s: State, first: Dataset, later: seq<Dataset>)
    requires ValidSelection(s)
    requires FindIndex(first.data, Ordered(s).0).None? || FindIndex(first.data, Ordered(s).1).None?
    ensures Page.Zoom(s, [first] + later) == s
    ensures Linechart.Zoom(s, first.data) == ClearMarkers(s)
    ensures Page.Zoom(s, [first] + later) != Linechart.Zoom(s, first.data)
  {
    assert ([first] + later)[0] == first;
    var (lo, hi) := Ordered(s);
    if FindIndex(first.data, lo).None? {
      assert !Page.Present(first.data, lo);
    } else {
      assert !Page.Present(first.data, hi);
    }
  }

  /** Before any upload the page commits the selection with the sentinel domain
      `[Infinity, -Infinity]`, while the component over no rows only clears the markers.
      The two states agree only when the view already was exactly that commit. */
  lemma DifferWithoutUpload(s: State)
    requires ValidSelection(s)
    ensures Page.Zoom(s, []).left == AtTime(Ordered(s).0) && Page.Zoom(s, []).right == AtTime(Ordered(s).1)
    ensures Page.Zoom(s, []).bottom == Bound(PosInf) && Page.Zoom(s, []).top == Bound(NegInf)
    ensures Linechart.Zoom(s, []) == ClearMarkers(s)
    ensures Page.Zoom(s, []) == Linechart.Zoom(s, [])
            <==> (&& s.left == AtTime(Ordered(s).0) && s.right == AtTime(Ordered(s).1)
                  && s.bottom == Bound(PosInf) && s.top == Bound(NegInf))
  {
    var p := Page.Zoom(s, []);
    if p == Linechart.Zoom(s, []) {
      assert p.left == s.left && p.right == s.right && p.bottom == s.bottom && p.top == s.top;
    }
  }

  /** The starting states differ only in the y-bounds: the page starts with the
      `"dataMax+1"`/`"dataMin-1"` keywords, the component with the two infinities.
      Zooming out brings both to the same state. */
  lemma StartDiffersZoomOutAgrees()
    ensures Page.InitialZoom != Linechart.InitialZoom
    ensures Page.InitialZoom == Linechart.InitialZoom.(top := DataMaxPlusOne, bottom := DataMinMinusOne)
    ensures Page.ZoomOut() == Linechart.ZoomOut()
  {
  }

  /** The page appends to its picked points exactly the rows the component passes to
      `onPointClick`: one row when the click resolves to one, none otherwise. */
  lemma ClickAppendsWhatIsForwarded(picked: seq<Row>, e: ClickEvent)
    ensures Page.HandleChartClick(picked, e) == picked + Linechart.HandleChartClick(e)
  {
    assert picked + [] == picked;
  }
}
