/** The map between the packed clock of the processed audio and the original clock, and projecting cues back. */
module Timeline {
  import opened Wrappers
  import opened Intervals

  datatype Span = Span(processedStart: real, processedEnd: real, originalStart: real, originalEnd: real)

  // ----- building the map -----

  /** The length of the nonempty intervals. */
  function Length(intervals: seq<Interval>): (r: real)
    ensures r >= 0.0
  {
    if intervals == [] then 0.0
    else
      var n := |intervals| - 1;
      var x := intervals[n];
      Length(intervals[..n]) + if x.end <= x.start then 0.0 else x.end - x.start
  }

  function SpansOf(intervals: seq<Interval>): seq<Span> {
    if intervals == [] then []
    else
      var n := |intervals| - 1;
      var x := intervals[n];
      var cursor := Length(intervals[..n]);
      SpansOf(intervals[..n])
      + if x.end <= x.start then [] else [Span(cursor, cursor + (x.end - x.start), x.start, x.end)]
  }

  method BuildTimeline(intervals: seq<Interval>) returns (spans: seq<Span>)
    ensures spans == SpansOf(Ordered(intervals))
  {
    var ordered := Ordered(intervals);
    spans := [];
    var cursor := 0.0;
    for k := 0 to |ordered|
      invariant spans == SpansOf(ordered[..k]) && cursor == Length(ordered[..k])
    {
      var x := ordered[k];
      assert ordered[..k + 1][..k] == ordered[..k];
      if x.end <= x.start {
        continue;
      }
      var duration := x.end - x.start;
      spans := spans + [Span(cursor, cursor + duration, x.start, x.end)];
      cursor := cursor + duration;
    }
    assert ordered[..|ordered|] == ordered;
  }

  predicate GoodSpan(s: Span) {
    s.processedStart < s.processedEnd && 0.0 <= s.originalStart
    && s.processedEnd - s.processedStart == s.originalEnd - s.originalStart
  }

  /** The processed clock runs without gaps from zero; on the original clock the spans follow each other. */
  ghost predicate Chained(spans: seq<Span>) {
    && (forall k :: 0 <= k < |spans| ==> GoodSpan(spans[k]))
    && (spans != [] ==> spans[0].processedStart == 0.0)
    && (forall k :: 0 < k < |spans| ==> spans[k].processedStart == spans[k - 1].processedEnd)
    && (forall k :: 0 < k < |spans| ==> spans[k - 1].originalEnd <= spans[k].originalStart)
  }

  function Total(spans: seq<Span>): real {
    if spans == [] then 0.0 else spans[|spans| - 1].processedEnd
  }

  lemma NoneChained()
    ensures Chained([])
  {
  }

  lemma ChainedAppend(spans: seq<Span>, s: Span)
    requires Chained(spans) && GoodSpan(s) && s.processedStart == Total(spans)
    requires spans != [] ==> spans[|spans| - 1].originalEnd <= s.originalStart
    ensures Chained(spans + [s]) && Total(spans + [s]) == s.processedEnd
  {
  }

  lemma {:induction false} TidyChained(intervals: seq<Interval>)
    requires Tidy(intervals) && forall k :: 0 <= k < |intervals| ==> 0.0 <= intervals[k].start
    ensures var spans := SpansOf(intervals);
      && Chained(spans) && |spans| == |intervals| && Total(spans) == Length(intervals)
      && forall k :: 0 <= k < |spans| ==>
        spans[k].originalStart == intervals[k].start && spans[k].originalEnd == intervals[k].end
  {
    hide Chained;
    if intervals == [] {
      NoneChained();
    } else {
      var n := |intervals| - 1;
      TidyChained(intervals[..n]);
      var x, before := intervals[n], SpansOf(intervals[..n]);
      assert x.start < x.end && (n > 0 ==> intervals[n - 1].end <= x.start);
      ChainedAppend(before, Span(Total(before), Total(before) + (x.end - x.start), x.start, x.end));
    }
  }

  lemma {:induction false} SpanOrder(spans: seq<Span>, j: nat, k: nat)
    requires Chained(spans) && j < k < |spans|
    ensures spans[j].processedEnd <= spans[k].processedStart
    ensures spans[j].originalEnd <= spans[k].originalStart
  {
    if j < k - 1 {
      SpanOrder(spans, j, k - 1);
      assert GoodSpan(spans[k - 1]);
    }
  }

  // ----- mapping an instant -----

  predicate Holds(s: Span, t: real) {
    s.processedStart <= t <= s.processedEnd
  }

  function FirstHolding(spans: seq<Span>, t: real): Option<Span> {
    if spans == [] then None
    else if Holds(spans[0], t) then Some(spans[0])
    else FirstHolding(spans[1..], t)
  }

  function LastHolding(spans: seq<Span>, t: real): Option<Span> {
    if spans == [] then None
    else
      var n := |spans| - 1;
      if Holds(spans[n], t) then Some(spans[n]) else LastHolding(spans[..n], t)
  }

  function NotNegative(x: real): real {
    if x >= 0.0 then x else 0.0
  }

  /** Where an instant of the processed clock lies on the original one. */
  function MapTime(t: real, spans: seq<Span>, endBoundary: bool): real {
    if spans == [] then NotNegative(t)
    else
      var found := if endBoundary then FirstHolding(spans, t) else LastHolding(spans, t);
      if found.Some? then NotNegative(found.value.originalStart + (t - found.value.processedStart))
      else if t < spans[0].processedStart then NotNegative(spans[0].originalStart)
      else
        var last := spans[|spans| - 1];
        NotNegative(last.originalEnd + (t - last.processedEnd))
  }

  /** Where the ends of a cue lie on the original clock; the end is never before the start. */
  function MapSegment(start: real, end: real, spans: seq<Span>): (real, real) {
    var mappedStart, mappedEnd := MapTime(start, spans, false), MapTime(end, spans, true);
    (mappedStart, if mappedEnd < mappedStart then mappedStart else mappedEnd)
  }

  lemma {:induction false} FirstHoldingIs(spans: seq<Span>, t: real, k: nat)
    requires k < |spans| && Holds(spans[k], t)
    requires forall j :: 0 <= j < k ==> !Holds(spans[j], t)
    ensures FirstHolding(spans, t) == Some(spans[k])
  {
    if k > 0 {
      FirstHoldingIs(spans[1..], t, k - 1);
    }
  }

  lemma {:induction false} LastHoldingIs(spans: seq<Span>, t: real, k: nat)
    requires k < |spans| && Holds(spans[k], t)
    requires forall j :: k < j < |spans| ==> !Holds(spans[j], t)
    ensures LastHolding(spans, t) == Some(spans[k])
  {
    if k < |spans| - 1 {
      LastHoldingIs(spans[..|spans| - 1], t, k);
    }
  }

  /** A start is mapped by the span that it begins in; a boundary belongs to the later span. */
  lemma MapStart(spans: seq<Span>, t: real, k: nat)
    requires Chained(spans) && k < |spans| && spans[k].processedStart <= t < spans[k].processedEnd
    ensures MapTime(t, spans, false) == spans[k].originalStart + (t - spans[k].processedStart)
  {
    forall j | k < j < |spans| ensures !Holds(spans[j], t) {
      SpanOrder(spans, k, j);
    }
    LastHoldingIs(spans, t, k);
    assert GoodSpan(spans[k]);
  }

  /** An end is mapped by the span that it closes in; a boundary belongs to the earlier span. */
  lemma MapEnd(spans: seq<Span>, t: real, k: nat)
    requires Chained(spans) && k < |spans| && spans[k].processedStart < t <= spans[k].processedEnd
    ensures MapTime(t, spans, true) == spans[k].originalStart + (t - spans[k].processedStart)
  {
    forall j | 0 <= j < k ensures !Holds(spans[j], t) {
      SpanOrder(spans, j, k);
    }
    FirstHoldingIs(spans, t, k);
    assert GoodSpan(spans[k]);
  }

  /** Before the first span everything is mapped to its start; behind the last one time goes on from its end. */
  lemma MapOutside(spans: seq<Span>, t: real, endBoundary: bool)
    requires Chained(spans)
    ensures spans == [] ==> MapTime(t, spans, endBoundary) == if t < 0.0 then 0.0 else t
    ensures spans != [] && t < 0.0 ==> MapTime(t, spans, endBoundary) == spans[0].originalStart
    ensures spans != [] && Total(spans) < t ==>
      MapTime(t, spans, endBoundary) == spans[|spans| - 1].originalEnd + (t - Total(spans))
  {
    if spans != [] && (t < 0.0 || Total(spans) < t) {
      forall j | 0 <= j < |spans| ensures !Holds(spans[j], t) {
        assert GoodSpan(spans[j]) && GoodSpan(spans[0]) && GoodSpan(spans[|spans| - 1]);
        if j > 0 {
          SpanOrder(spans, 0, j);
        }
        if j < |spans| - 1 {
          SpanOrder(spans, j, |spans| - 1);
        }
      }
      NoneHolding(spans, t);
      assert GoodSpan(spans[0]) && GoodSpan(spans[|spans| - 1]);
      if |spans| > 1 {
        SpanOrder(spans, 0, |spans| - 1);
      }
    }
  }

  lemma {:induction false} NoneHolding(spans: seq<Span>, t: real)
    requires forall j :: 0 <= j < |spans| ==> !Holds(spans[j], t)
    ensures FirstHolding(spans, t).None? && LastHolding(spans, t).None?
  {
    if spans != [] {
      NoneHolding(spans[1..], t);
      NoneHolding(spans[..|spans| - 1], t);
    }
  }

  // ----- projecting a cue -----

  const CONTIGUOUS := 0.00000001

  function Distance(a: real, b: real): real {
    if a >= b then a - b else b - a
  }

  /** The part of the cue in one span, on the original clock. */
  function Piece(start: real, end: real, s: Span): Interval {
    Interval(s.originalStart + Later(start, s.processedStart) - s.processedStart,
             s.originalStart + Sooner(end, s.processedEnd) - s.processedStart)
  }

  predicate Reaches(start: real, end: real, s: Span) {
    Sooner(end, s.processedEnd) > Later(start, s.processedStart)
  }

  function Extended(pieces: seq<Interval>, x: Interval): (r: seq<Interval>)
    ensures r != []
  {
    var n := |pieces|;
    if n > 0 && Distance(x.start, pieces[n - 1].end) < CONTIGUOUS
    then pieces[..n - 1] + [Interval(pieces[n - 1].start, x.end)]
    else pieces + [x]
  }

  function Pieces(start: real, end: real, spans: seq<Span>): seq<Interval> {
    if spans == [] then []
    else
      var n := |spans| - 1;
      var before := Pieces(start, end, spans[..n]);
      if Reaches(start, end, spans[n]) then Extended(before, Piece(start, end, spans[n])) else before
  }

  method Project(start: real, end: real, spans: seq<Span>) returns (result: seq<Interval>)
    ensures result == Pieces(start, end, spans)
  {
    result := [];
    for k := 0 to |spans|
      invariant result == Pieces(start, end, spans[..k])
    {
      assert spans[..k + 1][..k] == spans[..k];
      var span := spans[k];
      var left, right := Later(start, span.processedStart), Sooner(end, span.processedEnd);
      if right <= left {
        continue;
      }
      var a, b := span.originalStart + left - span.processedStart, span.originalStart + right - span.processedStart;
      var n := |result|;
      if n > 0 && Distance(a, result[n - 1].end) < CONTIGUOUS {
        result := result[..n - 1] + [Interval(result[n - 1].start, b)];
      } else {
        result := result + [Interval(a, b)];
      }
    }
    assert spans[..|spans|] == spans;
  }

  /** Spans that do not touch are clearly apart, as on a frame grid. */
  ghost predicate Spaced(spans: seq<Span>) {
    forall k :: 0 < k < |spans| ==>
      || spans[k].originalStart == spans[k - 1].originalEnd
      || spans[k].originalStart - spans[k - 1].originalEnd >= CONTIGUOUS
  }

  /** The instant is the image of an instant of the cue. */
  ghost predicate Projected(start: real, end: real, spans: seq<Span>, t: real) {
    exists k :: 0 <= k < |spans| && Image(start, end, spans[k], t)
  }

  predicate Image(start: real, end: real, s: Span, t: real) {
    s.originalStart <= t < s.originalEnd && start <= t - s.originalStart + s.processedStart < end
  }

  function SumOf(pieces: seq<Interval>): real {
    if pieces == [] then 0.0
    else
      var n := |pieces| - 1;
      SumOf(pieces[..n]) + (pieces[n].end - pieces[n].start)
  }

  /** How much of the cue lies before the instant. */
  function Used(start: real, end: real, t: real): real {
    NotNegative(Sooner(end, t) - start)
  }

  lemma {:induction false} NoPiecesBefore(start: real, end: real, spans: seq<Span>)
    requires Chained(spans)
    ensures Pieces(start, end, spans) != [] ==> spans != [] && start < Total(spans)
  {
    if spans != [] {
      var n := |spans| - 1;
      NoPiecesBefore(start, end, spans[..n]);
      assert GoodSpan(spans[n]);
    }
  }

  lemma LastPieceEnd(start: real, end: real, spans: seq<Span>)
    requires spans != [] && Reaches(start, end, spans[|spans| - 1])
    ensures var r := Pieces(start, end, spans); r[|r| - 1].end == Piece(start, end, spans[|spans| - 1]).end
  {
  }

  /** A new piece either continues the last one exactly or lies clearly behind it. */
  lemma NextPiece(start: real, end: real, spans: seq<Span>, r: seq<Interval>, x: Interval)
    requires Chained(spans) && Spaced(spans) && spans != []
    requires Reaches(start, end, spans[|spans| - 1])
    requires r == Pieces(start, end, spans[..|spans| - 1]) && x == Piece(start, end, spans[|spans| - 1])
    requires r != []
    ensures r[|r| - 1].end == x.start || r[|r| - 1].end + CONTIGUOUS <= x.start
  {
    var n := |spans| - 1;
    NoPiecesBefore(start, end, spans[..n]);
    var p := spans[n - 1];
    assert GoodSpan(p) && GoodSpan(spans[n]);
    assert spans[..n][n - 1] == p && start < p.processedEnd == spans[n].processedStart;
    assert Reaches(start, end, p);
    LastPieceEnd(start, end, spans[..n]);
  }

  /** What one more span adds to the used part is its piece. */
  lemma UsedNext(start: real, end: real, spans: seq<Span>)
    requires Chained(spans) && spans != [] && 0.0 <= start
    ensures var n := |spans| - 1; var x := Piece(start, end, spans[n]);
      Used(start, end, Total(spans)) == Used(start, end, Total(spans[..n]))
        + if Reaches(start, end, spans[n]) then x.end - x.start else 0.0
  {
    var n := |spans| - 1;
    assert GoodSpan(spans[n]);
    assert Total(spans[..n]) == spans[n].processedStart;
  }

  lemma {:induction false} PiecesSum(start: real, end: real, spans: seq<Span>)
    requires Chained(spans) && Spaced(spans) && 0.0 <= start
    ensures SumOf(Pieces(start, end, spans)) == Used(start, end, Total(spans))
  {
    if spans == [] {
      assert Used(start, end, 0.0) == 0.0;
    } else {
      hide Used, Piece, Reaches, Extended, Total, GoodSpan;
      var n := |spans| - 1;
      PiecesSum(start, end, spans[..n]);
      var r, x := Pieces(start, end, spans[..n]), Piece(start, end, spans[n]);
      UsedNext(start, end, spans);
      if Reaches(start, end, spans[n]) {
        if r != [] {
          NextPiece(start, end, spans, r, x);
        }
        SumExtended(r, x);
      }
    }
  }

  lemma SumExtended(r: seq<Interval>, x: Interval)
    requires r == [] || r[|r| - 1].end == x.start || r[|r| - 1].end + CONTIGUOUS <= x.start
    ensures SumOf(Extended(r, x)) == SumOf(r) + (x.end - x.start)
  {
    var s := Extended(r, x);
    var n := |r|;
    if n > 0 && Distance(x.start, r[n - 1].end) < CONTIGUOUS {
      assert s[..n - 1] == r[..n - 1];
    } else {
      assert s[..n] == r;
    }
  }

  lemma ExtendedShape(r: seq<Interval>, x: Interval)
    requires Apart(r) && x.start < x.end
    requires r == [] || r[|r| - 1].end == x.start || r[|r| - 1].end + CONTIGUOUS <= x.start
    ensures Apart(Extended(r, x))
    ensures forall t :: Covers(Extended(r, x), t) <==> Covers(r, t) || In(x, t)
  {
    var n := |r|;
    if n > 0 && Distance(x.start, r[n - 1].end) < CONTIGUOUS {
      LongerApart(r, Interval(r[n - 1].start, x.end));
      assert r == r[..n - 1] + [r[n - 1]];
      forall t ensures Covers(Extended(r, x), t) <==> Covers(r, t) || In(x, t) {
        CoversAppend(r[..n - 1], r[n - 1], t);
        CoversAppend(r[..n - 1], Interval(r[n - 1].start, x.end), t);
      }
    } else {
      NewApart(r, x);
      forall t ensures Covers(Extended(r, x), t) <==> Covers(r, t) || In(x, t) {
        CoversAppend(r, x, t);
      }
    }
  }

  lemma PieceImage(start: real, end: real, s: Span)
    requires GoodSpan(s)
    ensures forall t :: Image(start, end, s, t) <==> Reaches(start, end, s) && In(Piece(start, end, s), t)
    ensures Reaches(start, end, s) ==>
      s.originalStart <= Piece(start, end, s).start < Piece(start, end, s).end <= s.originalEnd
  {
  }

  lemma ProjectedAppend(start: real, end: real, spans: seq<Span>, t: real)
    requires spans != []
    ensures Projected(start, end, spans, t)
      <==> Projected(start, end, spans[..|spans| - 1], t) || Image(start, end, spans[|spans| - 1], t)
  {
    var n := |spans| - 1;
    assert forall k :: 0 <= k < n ==> spans[..n][k] == spans[k];
  }

  /** The pieces are separate, and are exactly the image of the cue: nothing of the removed gaps is in them. */
  lemma {:induction false} PiecesExact(start: real, end: real, spans: seq<Span>)
    requires Chained(spans) && Spaced(spans)
    ensures Apart(Pieces(start, end, spans))
    ensures forall t :: Covers(Pieces(start, end, spans), t) <==> Projected(start, end, spans, t)
  {
    hide Covers, In, Reaches, Piece, Image, Apart, Extended;
    if spans == [] {
      NoPiecesExact(start, end);
    } else {
      var n := |spans| - 1;
      var r, x := Pieces(start, end, spans[..n]), Piece(start, end, spans[n]);
      PiecesExact(start, end, spans[..n]);
      assert GoodSpan(spans[n]);
      PieceImage(start, end, spans[n]);
      if Reaches(start, end, spans[n]) {
        if r != [] {
          NextPiece(start, end, spans, r, x);
        }
        ExtendedShape(r, x);
      }
      forall t ensures Covers(Pieces(start, end, spans), t) <==> Projected(start, end, spans, t) {
        ProjectedAppend(start, end, spans, t);
      }
    }
  }

  lemma NoPiecesExact(start: real, end: real)
    ensures Apart([]) && forall t :: Covers([], t) <==> Projected(start, end, [], t)
  {
  }

  lemma {:induction false} FirstPieceStart(start: real, end: real, spans: seq<Span>, k: nat)
    requires Chained(spans) && k < |spans| && spans[k].processedStart <= start < spans[k].processedEnd && start < end
    ensures var r := Pieces(start, end, spans);
      r != [] && r[0].start == spans[k].originalStart + (start - spans[k].processedStart)
  {
    hide Extended, GoodSpan;
    var n := |spans| - 1;
    var before := Pieces(start, end, spans[..n]);
    if k == n {
      NoPiecesBefore(start, end, spans[..n]);
      assert before == [];
    } else {
      FirstPieceStart(start, end, spans[..n], k);
    }
    assert GoodSpan(spans[k]);
    FirstExtended(before, Piece(start, end, spans[n]));
  }

  lemma FirstExtended(r: seq<Interval>, x: Interval)
    ensures Extended(r, x)[0].start == if r == [] then x.start else r[0].start
  {
  }

  lemma {:induction false} FinalPieceEnd(start: real, end: real, spans: seq<Span>, k: nat)
    requires Chained(spans) && k < |spans| && spans[k].processedStart < end <= spans[k].processedEnd && start < end
    ensures var r := Pieces(start, end, spans);
      r != [] && r[|r| - 1].end == spans[k].originalStart + (end - spans[k].processedStart)
  {
    hide Extended, Chained, GoodSpan;
    var n := |spans| - 1;
    if k < n {
      SpanOrder(spans, k, n);
      ChainedPrefix(spans);
      FinalPieceEnd(start, end, spans[..n], k);
    } else {
      LastPieceEnd(start, end, spans);
    }
  }

  lemma ChainedPrefix(spans: seq<Span>)
    requires Chained(spans) && spans != []
    ensures Chained(spans[..|spans| - 1])
  {
  }

  lemma {:induction false} SpanAt(spans: seq<Span>, t: real) returns (k: nat)
    requires Chained(spans) && 0.0 <= t < Total(spans)
    ensures k < |spans| && spans[k].processedStart <= t < spans[k].processedEnd
  {
    var n := |spans| - 1;
    if spans[n].processedStart <= t {
      k := n;
    } else {
      k := SpanAt(spans[..n], t);
    }
  }

  lemma {:induction false} SpanBefore(spans: seq<Span>, t: real) returns (k: nat)
    requires Chained(spans) && 0.0 < t <= Total(spans)
    ensures k < |spans| && spans[k].processedStart < t <= spans[k].processedEnd
  {
    var n := |spans| - 1;
    if spans[n].processedStart < t {
      k := n;
    } else {
      k := SpanBefore(spans[..n], t);
    }
  }

  /**
   Projection conserves time: the pieces of a cue within the processed clock are as long as the cue, lie in order and
   apart inside kept audio, and reach from where its start is mapped to where its end is mapped.
   */
  lemma ProjectionConserves(start: real, end: real, spans: seq<Span>)
    requires Chained(spans) && Spaced(spans) && 0.0 <= start < end <= Total(spans)
    ensures var r := Pieces(start, end, spans);
      && r != [] && Apart(r)
      && SumOf(r) == end - start
      && (r[0].start, r[|r| - 1].end) == MapSegment(start, end, spans)
      && forall t :: Covers(r, t) ==> exists k :: 0 <= k < |spans| && spans[k].originalStart <= t < spans[k].originalEnd
  {
    hide Pieces, SumOf, MapTime, Reaches, Piece;
    var r := Pieces(start, end, spans);
    PiecesSum(start, end, spans);
    PiecesExact(start, end, spans);
    var j := SpanAt(spans, start);
    FirstPieceStart(start, end, spans, j);
    MapStart(spans, start, j);
    var k := SpanBefore(spans, end);
    FinalPieceEnd(start, end, spans, k);
    MapEnd(spans, end, k);
    assert r[0].start < r[|r| - 1].end;
    forall t | Covers(r, t) ensures exists i :: 0 <= i < |spans| && spans[i].originalStart <= t < spans[i].originalEnd {
      assert Projected(start, end, spans, t);
      var i :| 0 <= i < |spans| && Image(start, end, spans[i], t);
    }
  }
}
