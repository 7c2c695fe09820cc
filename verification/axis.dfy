/** The pieces of the zoom logic that both chart versions share: reading a numeric
    field the way `Number(d[dataKey])` does, `Array.prototype.slice`, the min/max scan
    of `getAxisYDomain`, and the first-exact-match lookup done with `findIndex`. */
module Axis {
  import opened Wrappers
  import opened JsNumber
  import opened Uploader

  /** The field the y-axis follows. */
  const HeadingKey: string := "heading"

  /** `Number(row[key])`: a missing key is `undefined` and becomes NaN, `null` becomes 0,
      and a number stays itself. */
  function FieldNumber(row: Row, key: string): (r: Number)
    ensures r == NaN <==> key !in row || row[key] == Num(NaN)
    ensures key in row && row[key] == Null ==> r == Finite(0.0)
    ensures key in row && row[key].Num? ==> r == row[key].n
  {
    if key !in row then NaN
    else match row[key]
      case Null => Finite(0.0)
      case Num(n) => n
  }

  /** The numbers of one field along a run of rows. */
  function Column(rows: seq<Row>, key: string): (col: seq<Number>)
    ensures |col| == |rows|
    ensures forall k :: 0 <= k < |rows| ==> col[k] == FieldNumber(rows[k], key)
  {
    seq(|rows|, k requires 0 <= k < |rows| => FieldNumber(rows[k], key))
  }

  /** `data.slice(from, end)` for non-negative arguments: the rows at positions
      `from .. end - 1` that exist, nothing when `from` is not below the clamped end. */
  function Slice(data: seq<Row>, from: nat, end: nat): (r: seq<Row>)
    ensures from < end && end <= |data| ==> |r| == end - from
    ensures from < |data| && |data| < end ==> |r| == |data| - from
    ensures forall k :: 0 <= k < |r| ==> from + k < end && from + k < |data| && r[k] == data[from + k]
    ensures from >= end || from >= |data| ==> r == []
  {
    var e := if end <= |data| then end else |data|;
    if from < e then data[from..e] else []
  }

  /** `b` is the least of the non-NaN numbers in `vals` (`+Infinity` when there are none). */
  predicate IsLowest(vals: seq<Number>, b: Number) {
    && b != NaN
    && (forall k :: 0 <= k < |vals| && vals[k] != NaN ==> !Less(vals[k], b))
    && (b == PosInf || b in vals)
  }

  /** `t` is the greatest of the non-NaN numbers in `vals` (`-Infinity` when there are none). */
  predicate IsHighest(vals: seq<Number>, t: Number) {
    && t != NaN
    && (forall k :: 0 <= k < |vals| && vals[k] != NaN ==> !Less(t, vals[k]))
    && (t == NegInf || t in vals)
  }

  /** The `forEach` of `getAxisYDomain`: starting from `[Infinity, -Infinity]`, every
      value greater than `top` replaces it and every value less than `bottom` replaces
      it, so NaN never moves either bound. The result is (least, greatest). */
  function Extent(vals: seq<Number>): (r: (Number, Number))
    ensures IsLowest(vals, r.0)
    ensures IsHighest(vals, r.1)
    decreases |vals|
  {
    if |vals| == 0 then (PosInf, NegInf)
    else
      var init := vals[..|vals| - 1];
      var prev := Extent(init);
      var v := vals[|vals| - 1];
      var bottom := if Less(v, prev.0) then v else prev.0;
      var top := if Less(prev.1, v) then v else prev.1;
      ExtentStep(init, v, prev.0, prev.1, bottom, top);
      assert vals == init + [v];
      (bottom, top)
  }

  /** One step of the scan keeps both bounds exact. */
  lemma ExtentStep(init: seq<Number>, v: Number, b: Number, t: Number, b': Number, t': Number)
    requires IsLowest(init, b) && IsHighest(init, t)
    requires b' == (if Less(v, b) then v else b)
    requires t' == (if Less(t, v) then v else t)
    ensures IsLowest(init + [v], b') && IsHighest(init + [v], t')
  {
    var vals := init + [v];
    forall k | 0 <= k < |vals| && vals[k] != NaN
      ensures !Less(vals[k], b') && !Less(t', vals[k])
    {
      LessIsStrictTotalOrder(vals[k], b, v);
      LessIsStrictTotalOrder(t, vals[k], v);
      LessIsStrictTotalOrder(vals[k], v, b);
      LessIsStrictTotalOrder(v, vals[k], t);
      if k < |init| {
        assert vals[k] == init[k];
      }
    }
    if b' != PosInf {
      if b' == v { assert vals[|init|] == v; } else { assert b in init; }
    }
    if t' != NegInf {
      if t' == v { assert vals[|init|] == v; } else { assert t in init; }
    }
  }

  /** There is one least and one greatest number of a sequence. */
  lemma BoundsUnique(vals: seq<Number>, a: Number, b: Number)
    ensures IsLowest(vals, a) && IsLowest(vals, b) ==> a == b
    ensures IsHighest(vals, a) && IsHighest(vals, b) ==> a == b
  {
    LessIsStrictTotalOrder(a, b, a);
  }

  /** `getAxisYDomain(from, to, key, offset)` over `data`: the least and the greatest
      non-NaN value of the field over the inclusive range `from .. to`, widened by
      `offset` on each side. */
  function AxisYDomain(data: seq<Row>, from: nat, to: nat, key: string, offset: real)
    : (r: (Number, Number))
    ensures forall b :: IsLowest(Column(Slice(data, from, to + 1), key), b) ==> r.0 == Sub(b, offset)
    ensures forall t :: IsHighest(Column(Slice(data, from, to + 1), key), t) ==> r.1 == Add(t, offset)
  {
    var col := Column(Slice(data, from, to + 1), key);
    var e := Extent(col);
    forall b | IsLowest(col, b) ensures b == e.0 { BoundsUnique(col, b, e.0); }
    forall t | IsHighest(col, t) ensures t == e.1 { BoundsUnique(col, t, e.1); }
    (Sub(e.0, offset), Add(e.1, offset))
  }

  /** With no number to look at (an empty range, or only NaN: absent keys and
      unparsable cells), the scan keeps its start values and the domain is
      `[Infinity - offset, -Infinity + offset]`, that is `[Infinity, -Infinity]`. */
  lemma NoNumbersGivesSentinels(data: seq<Row>, from: nat, to: nat, key: string, offset: real)
    requires var col := Column(Slice(data, from, to + 1), key);
             forall k :: 0 <= k < |col| ==> col[k] == NaN
    ensures AxisYDomain(data, from, to, key, offset) == (PosInf, NegInf)
  {
    var col := Column(Slice(data, from, to + 1), key);
    assert PosInf !in col && NegInf !in col;
    assert IsLowest(col, PosInf) && IsHighest(col, NegInf);
  }

  /** When every value in the range is a finite number (a parsed cell, or `null` read as
      0) and the range is not empty, the domain is (least value - offset, greatest value
      + offset), both finite and both attained. */
  lemma FiniteDomain(data: seq<Row>, from: nat, to: nat, key: string, offset: real)
      returns (lo: nat, hi: nat)
    requires var col := Column(Slice(data, from, to + 1), key);
             |col| > 0 && forall k :: 0 <= k < |col| ==> col[k].Finite?
    ensures var col := Column(Slice(data, from, to + 1), key);
            && lo < |col| && hi < |col|
            && (forall k :: 0 <= k < |col| ==> col[lo].v <= col[k].v <= col[hi].v)
            && AxisYDomain(data, from, to, key, offset)
               == (Finite(col[lo].v - offset), Finite(col[hi].v + offset))
  {
    var col := Column(Slice(data, from, to + 1), key);
    lo, hi := ExtremesOfFinite(col);
    var d := AxisYDomain(data, from, to, key, offset);
    assert d.0 == Sub(col[lo], offset) && d.1 == Add(col[hi], offset);
  }

  /** Positions of the least and greatest of a non-empty run of finite numbers, which
      are what the scan finds. */
  lemma ExtremesOfFinite(col: seq<Number>) returns (lo: nat, hi: nat)
    requires |col| > 0 && forall k :: 0 <= k < |col| ==> col[k].Finite?
    ensures lo < |col| && hi < |col|
    ensures forall k :: 0 <= k < |col| ==> col[lo].v <= col[k].v <= col[hi].v
    ensures IsLowest(col, col[lo]) && IsHighest(col, col[hi])
  {
    var e := Extent(col);
    BoundsAttained(col, e.0, e.1);
    lo :| 0 <= lo < |col| && col[lo] == e.0;
    hi :| 0 <= hi < |col| && col[hi] == e.1;
    forall k | 0 <= k < |col| ensures col[lo].v <= col[k].v <= col[hi].v {
      assert !Less(col[k], e.0) && !Less(e.1, col[k]);
    }
  }

  /** Over finite numbers, the least and greatest are elements of the sequence. */
  lemma BoundsAttained(col: seq<Number>, b: Number, t: Number)
    requires |col| > 0 && forall k :: 0 <= k < |col| ==> col[k].Finite?
    requires IsLowest(col, b) && IsHighest(col, t)
    ensures b in col && t in col
  {
    assert !Less(col[0], b) && !Less(t, col[0]);
  }

  /** `d.Timestamp === t`: the row has a `Timestamp` holding exactly the number `t`. */
  predicate HasTimestamp(row: Row, t: int) {
    TimestampHeader in row && row[TimestampHeader] == Num(Finite(t as real))
  }

  /** `data.findIndex((d) => d.Timestamp === t)`, with `None` for the source's `-1`: the
      first row whose timestamp is exactly `t`, and `None` only when no row has it. */
  function FindIndex(data: seq<Row>, t: int): (r: Option<nat>)
    ensures r.Some? ==> r.value < |data| && HasTimestamp(data[r.value], t)
    ensures r.Some? ==> forall j :: 0 <= j < r.value ==> !HasTimestamp(data[j], t)
    ensures r.None? <==> forall j :: 0 <= j < |data| ==> !HasTimestamp(data[j], t)
  {
    if |data| == 0 then None
    else if HasTimestamp(data[0], t) then Some(0)
    else match FindIndex(data[1..], t)
      case None => None
      case Some(i) => Some(i + 1)
  }
}
