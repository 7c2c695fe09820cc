/** The three JavaScript string primitives the CSV reader is built from:
    `String.prototype.trim`, `String.prototype.split` with a one-character
    separator, and (as the partner of `split`) `Array.prototype.join`. */
module Text {

  /** ECMAScript WhiteSpace and LineTerminator code points: exactly what `trim` strips. */
  predicate IsWhitespace(c: char) {
    || c == ' ' || c == '\t' || c == '\n' || c == '\r'
    || c == '\U{B}' || c == '\U{C}' || c == '\U{A0}' || c == '\U{1680}'
    || ('\U{2000}' <= c <= '\U{200A}')
    || c == '\U{2028}' || c == '\U{2029}' || c == '\U{202F}' || c == '\U{205F}'
    || c == '\U{3000}' || c == '\U{FEFF}'
  }

  predicate AllWhitespace(s: string) {
    forall k :: 0 <= k < |s| ==> IsWhitespace(s[k])
  }

  /** Drops leading whitespace: the result is the suffix of `s` that starts at its
      first non-whitespace character. */
  function TrimStart(s: string): (r: string)
    ensures |r| <= |s| && r == s[|s| - |r|..]
    ensures forall k :: 0 <= k < |s| - |r| ==> IsWhitespace(s[k])
    ensures r == [] || !IsWhitespace(r[0])
  {
    if |s| > 0 && IsWhitespace(s[0]) then TrimStart(s[1..]) else s
  }

  /** Drops trailing whitespace: the result is the prefix of `s` that ends at its
      last non-whitespace character. */
  function TrimEnd(s: string): (r: string)
    ensures |r| <= |s| && r == s[..|r|]
    ensures forall k :: |r| <= k < |s| ==> IsWhitespace(s[k])
    ensures r == [] || !IsWhitespace(r[|r| - 1])
  {
    if |s| > 0 && IsWhitespace(s[|s| - 1]) then TrimEnd(s[..|s| - 1]) else s
  }

  /** `r` is the infix of `s` starting at `i`, with only whitespace around it. */
  predicate TrimmedAt(s: string, i: int, r: string) {
    && 0 <= i <= |s| - |r|
    && r == s[i..i + |r|]
    && (forall k :: 0 <= k < i ==> IsWhitespace(s[k]))
    && (forall k :: i + |r| <= k < |s| ==> IsWhitespace(s[k]))
  }

  /** `r` neither starts nor ends with whitespace. */
  predicate Clean(r: string) {
    r == [] || (!IsWhitespace(r[0]) && !IsWhitespace(r[|r| - 1]))
  }

  /** `s.trim()`: the infix of `s` that neither starts nor ends with whitespace,
      everything cut off on either side being whitespace. */
  function Trim(s: string): (r: string)
    ensures exists i :: TrimmedAt(s, i, r)
    ensures Clean(r)
  {
    var t := TrimStart(s);
    var r := TrimEnd(t);
    TrimmedInside(s, t, r);
    r
  }

  /** Trimming the start and then the end leaves an infix of the original string with
      only whitespace around it. */
  lemma TrimmedInside(s: string, t: string, r: string)
    requires |t| <= |s| && t == s[|s| - |t|..]
    requires forall k :: 0 <= k < |s| - |t| ==> IsWhitespace(s[k])
    requires |r| <= |t| && r == t[..|r|]
    requires forall k :: |r| <= k < |t| ==> IsWhitespace(t[k])
    ensures TrimmedAt(s, |s| - |t|, r)
  {
    var i := |s| - |t|;
    assert r == s[i..i + |r|] by {
      forall k | 0 <= k < |r| ensures r[k] == s[i + k] {
        assert r[k] == t[k];
      }
    }
    forall k | i + |r| <= k < |s| ensures IsWhitespace(s[k]) {
      assert s[k] == t[k - i];
    }
  }

  /** There is only one clean infix with whitespace around it, so the contract of
      `Trim` determines its result. */
  lemma TrimUnique(s: string, i: int, r: string, j: int, q: string)
    requires TrimmedAt(s, i, r) && Clean(r)
    requires TrimmedAt(s, j, q) && Clean(q)
    ensures r == q
  {
    if r != [] && q != [] {
      assert s[i] == r[0] && s[j] == q[0];
      assert s[i + |r| - 1] == r[|r| - 1] && s[j + |q| - 1] == q[|q| - 1];
    }
  }

  /** Trimming an all-whitespace string, and only such a string, gives the empty string. */
  lemma TrimEmptyIff(s: string)
    ensures Trim(s) == [] <==> AllWhitespace(s)
  {
    var r := Trim(s);
    var i :| TrimmedAt(s, i, r);
    if AllWhitespace(s) {
      assert TrimmedAt(s, 0, []);
      TrimUnique(s, i, r, 0, []);
    }
  }

  /** Trimming is idempotent. */
  lemma TrimIdempotent(s: string)
    ensures Trim(Trim(s)) == Trim(s)
  {
    var r := Trim(s);
    assert TrimmedAt(r, 0, r);
    var j :| TrimmedAt(r, j, Trim(r));
    TrimUnique(r, 0, r, j, Trim(r));
  }

  /** A whitespace character at the end (a `'\r'` left over by splitting a CRLF file on
      `'\n'`, say) never survives the trim. */
  lemma TrimIgnoresTrailingWhitespace(s: string, c: char)
    requires IsWhitespace(c)
    ensures Trim(s + [c]) == Trim(s)
  {
    var r := Trim(s);
    var i :| TrimmedAt(s, i, r);
    var s' := s + [c];
    TrimmedAtExtend(s, i, r, c);
    var j :| TrimmedAt(s', j, Trim(s'));
    TrimUnique(s', i, r, j, Trim(s'));
  }

  /** Whitespace appended after a trimmed infix stays outside it. */
  lemma TrimmedAtExtend(s: string, i: int, r: string, c: char)
    requires TrimmedAt(s, i, r) && IsWhitespace(c)
    ensures TrimmedAt(s + [c], i, r)
  {
    var s' := s + [c];
    assert r == s'[i..i + |r|] by {
      forall k | 0 <= k < |r| ensures r[k] == s'[i + k] {
        assert s'[i + k] == s[i + k];
      }
    }
    forall k | 0 <= k < i ensures IsWhitespace(s'[k]) {
      assert s'[k] == s[k];
    }
    forall k | i + |r| <= k < |s'| ensures IsWhitespace(s'[k]) {
      if k < |s| {
        assert s'[k] == s[k];
      }
    }
  }

  /** Number of occurrences of `c` in `s`. */
  function Count(s: string, c: char): nat {
    if |s| == 0 then 0 else (if s[0] == c then 1 else 0) + Count(s[1..], c)
  }

  /** `pieces.join(sep)`. */
  function Join(pieces: seq<string>, sep: char): string
    requires |pieces| > 0
  {
    if |pieces| == 1 then pieces[0] else pieces[0] + [sep] + Join(pieces[1..], sep)
  }

  /** `s.split(sep)`: the pieces between occurrences of `sep`, one more piece than there
      are separators (an empty string gives one empty piece), none of them holding the
      separator, and joining them back with `sep` gives `s` again. */
  function Split(s: string, sep: char): (r: seq<string>)
    ensures |r| == Count(s, sep) + 1
    ensures forall i :: 0 <= i < |r| ==> sep !in r[i]
    ensures Join(r, sep) == s
    decreases |s|
  {
    if |s| == 0 then [""]
    else
      var rest := Split(s[1..], sep);
      if s[0] == sep then
        assert [s[0]] + s[1..] == s;
        [""] + rest
      else
        JoinPrepend(s[0], rest, sep);
        assert [s[0]] + s[1..] == s;
        [[s[0]] + rest[0]] + rest[1..]
  }

  /** Prepending a character to the first piece prepends it to the joined string. */
  lemma JoinPrepend(c: char, pieces: seq<string>, sep: char)
    requires |pieces| > 0
    ensures Join([[c] + pieces[0]] + pieces[1..], sep) == [c] + Join(pieces, sep)
  {
    var q := [[c] + pieces[0]] + pieces[1..];
    assert q[1..] == pieces[1..];
  }

  /** Position of the first `c` in `s`, or `|s|` when there is none. */
  function IndexOf(s: string, c: char): nat {
    if |s| == 0 || s[0] == c then 0 else 1 + IndexOf(s[1..], c)
  }

  /** The first separator of `a + [sep] + rest` is the one after `a` when `a` has none. */
  lemma {:induction false} IndexOfJoin(a: string, rest: string, sep: char)
    requires sep !in a
    ensures IndexOf(a + [sep] + rest, sep) == |a|
  {
    if |a| > 0 {
      assert (a + [sep] + rest)[1..] == a[1..] + [sep] + rest;
      IndexOfJoin(a[1..], rest, sep);
    }
  }

  /** Separator-free pieces are determined by their join. */
  lemma {:induction false} JoinInjective(ps: seq<string>, qs: seq<string>, sep: char)
    requires |ps| > 0 && |qs| > 0
    requires forall i :: 0 <= i < |ps| ==> sep !in ps[i]
    requires forall i :: 0 <= i < |qs| ==> sep !in qs[i]
    requires Join(ps, sep) == Join(qs, sep)
    ensures ps == qs
    decreases |ps|
  {
    var j := Join(ps, sep);
    if |ps| > 1 && |qs| > 1 {
      var a, b := ps[0], qs[0];
      IndexOfJoin(a, Join(ps[1..], sep), sep);
      IndexOfJoin(b, Join(qs[1..], sep), sep);
      assert a == j[..|a|] == b;
      assert Join(ps[1..], sep) == j[|a| + 1..] == Join(qs[1..], sep);
      JoinInjective(ps[1..], qs[1..], sep);
      assert ps == [a] + ps[1..];
      assert qs == [b] + qs[1..];
    }
  }

  /** Split undoes Join: splitting separator-free pieces joined by the separator gives
      the pieces back. */
  lemma SplitJoin(ps: seq<string>, sep: char)
    requires |ps| > 0
    requires forall i :: 0 <= i < |ps| ==> sep !in ps[i]
    ensures Split(Join(ps, sep), sep) == ps
  {
    JoinInjective(Split(Join(ps, sep), sep), ps, sep);
  }

  /** A separator-free first piece followed by the separator splits off on its own. */
  lemma SplitCons(a: string, rest: string, sep: char)
    requires sep !in a
    ensures Split(a + [sep] + rest, sep) == [a] + Split(rest, sep)
  {
    var ps := Split(rest, sep);
    assert ([a] + ps)[1..] == ps;
    assert Join([a] + ps, sep) == a + [sep] + rest;
    SplitJoin([a] + ps, sep);
  }

  /** Text without the separator is a single piece. */
  lemma SplitWithoutSeparator(s: string, sep: char)
    requires sep !in s
    ensures Split(s, sep) == [s]
  {
    SplitJoin([s], sep);
  }
}
