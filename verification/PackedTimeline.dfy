/** `restore_segments`: cues of the packed clock back on the original clock, and why the layout accepts their times. */
module PackedTimeline {
  import opened Rounding
  import opened Sorting
  import opened Intervals
  import opened Timeline
  import opened Layout
  import G = TranslationGroups
  import L = LayoutSuccess

  /** Pieces that still last on the millisecond clock. */
  predicate Lasts(x: Interval) {
    Millis(x.end) > Millis(x.start)
  }

  function Restored(s: Segment, pieces: seq<Interval>): seq<Segment> {
    if pieces == [] then []
    else
      var n := |pieces| - 1;
      var x := pieces[n];
      Restored(s, pieces[..n]) + if Lasts(x) then [s.(start := x.start, end := x.end)] else []
  }

  function RestoredAll(segments: seq<Segment>, spans: seq<Span>): seq<Segment> {
    if segments == [] then []
    else
      var n := |segments| - 1;
      RestoredAll(segments[..n], spans) + Restored(segments[n], Pieces(segments[n].start, segments[n].end, spans))
  }

  function Cut(pieces: seq<Interval>): (r: seq<G.Span>)
    ensures |r| == |pieces| && forall k :: 0 <= k < |r| ==> r[k] == G.Span(pieces[k].start, pieces[k].end)
  {
    seq(|pieces|, k requires 0 <= k < |pieces| => G.Span(pieces[k].start, pieces[k].end))
  }

  /** The cues that were cut at removed audio, with all their pieces. */
  function CrossingsOf(segments: seq<Segment>, spans: seq<Span>): seq<G.Crossing> {
    if segments == [] then []
    else
      var n := |segments| - 1;
      var pieces := Pieces(segments[n].start, segments[n].end, spans);
      CrossingsOf(segments[..n], spans) + if |pieces| > 1 then [G.Crossing(segments[n].text, Cut(pieces))] else []
  }

  method RestorePieces(s: Segment, pieces: seq<Interval>) returns (restored: seq<Segment>)
    ensures restored == Restored(s, pieces)
  {
    restored := [];
    for k := 0 to |pieces|
      invariant restored == Restored(s, pieces[..k])
    {
      assert pieces[..k + 1][..k] == pieces[..k];
      if Millis(pieces[k].end) > Millis(pieces[k].start) {
        restored := restored + [s.(start := pieces[k].start, end := pieces[k].end)];
      }
    }
    assert pieces[..|pieces|] == pieces;
  }

  method RestoreSegments(segments: seq<Segment>, spans: seq<Span>)
    returns (restored: seq<Segment>, crossings: seq<G.Crossing>)
    ensures restored == RestoredAll(segments, spans)
    ensures crossings == CrossingsOf(segments, spans)
  {
    hide Pieces, Restored;
    restored, crossings := [], [];
    for k := 0 to |segments|
      invariant restored == RestoredAll(segments[..k], spans)
      invariant crossings == CrossingsOf(segments[..k], spans)
    {
      assert segments[..k + 1][..k] == segments[..k];
      var s := segments[k];
      var pieces := Project(s.start, s.end, spans);
      if |pieces| > 1 {
        crossings := crossings + [G.Crossing(s.text, Cut(pieces))];
      }
      var part := RestorePieces(s, pieces);
      restored := restored + part;
    }
    assert segments[..|segments|] == segments;
  }

  // ----- what the layout needs -----

  /** Nonnegative, forward, and at least a millisecond long on the output clock. */
  predicate Placed(s: Segment) {
    ValidTimes(s) && 0 <= Millis(s.start) < Millis(s.end)
  }

  ghost predicate AllPlaced(segments: seq<Segment>) {
    forall k :: 0 <= k < |segments| ==> Placed(segments[k])
  }

  ghost predicate NoneNegative(pieces: seq<Interval>) {
    forall k :: 0 <= k < |pieces| ==> 0.0 <= pieces[k].start
  }

  lemma {:induction false} PiecesNotNegative(start: real, end: real, spans: seq<Span>)
    requires forall k :: 0 <= k < |spans| ==> GoodSpan(spans[k])
    ensures NoneNegative(Pieces(start, end, spans))
  {
    if spans != [] {
      PiecesNotNegative(start, end, spans[..|spans| - 1]);
      assert GoodSpan(spans[|spans| - 1]);
    }
  }

  lemma LastsPlaced(s: Segment, x: Interval)
    requires 0.0 <= x.start && Lasts(x)
    ensures Placed(s.(start := x.start, end := x.end))
  {
    hide Millis;
    MillisNonNegative(x.start);
    if x.end <= x.start {
      MillisMonotone(x.end, x.start);
      assert false;
    }
  }

  lemma {:induction false} RestoredPlaced(s: Segment, pieces: seq<Interval>)
    requires NoneNegative(pieces)
    ensures AllPlaced(Restored(s, pieces))
  {
    hide Millis, Placed, Lasts;
    if pieces != [] {
      var n := |pieces| - 1;
      RestoredPlaced(s, pieces[..n]);
      if Lasts(pieces[n]) {
        LastsPlaced(s, pieces[n]);
      }
    }
  }

  lemma {:induction false} RestoredAllPlaced(segments: seq<Segment>, spans: seq<Span>)
    requires Chained(spans)
    ensures AllPlaced(RestoredAll(segments, spans))
  {
    hide Placed, Pieces, Restored;
    if segments != [] {
      var n := |segments| - 1;
      RestoredAllPlaced(segments[..n], spans);
      PiecesNotNegative(segments[n].start, segments[n].end, spans);
      RestoredPlaced(segments[n], Pieces(segments[n].start, segments[n].end, spans));
    }
  }

  lemma {:induction false} NormalizedPlaced(segments: seq<Segment>)
    requires AllPlaced(segments)
    ensures AllMillisProper(Normalized(segments))
  {
    hide Millis;
    if segments != [] {
      NormalizedPlaced(segments[..|segments| - 1]);
      assert Placed(segments[|segments| - 1]);
    }
  }

  /** Every caption of b has the times of one of a: as filtering, translating and reordering leave them. */
  ghost predicate TimesFrom(a: seq<Segment>, b: seq<Segment>) {
    forall k :: 0 <= k < |b| ==> HasTimes(a, b[k])
  }

  ghost predicate HasTimes(a: seq<Segment>, s: Segment) {
    exists j :: 0 <= j < |a| && a[j].start == s.start && a[j].end == s.end
  }

  /**
   After restoring, and after any filter, translation or reordering, the layout never rejects a caption for its times:
   running out of room for the text is all that can go wrong.
   */
  lemma RestoredLaysOut(segments: seq<Segment>, spans: seq<Span>, shown: seq<Segment>, width: int, maxLines: int)
    requires Chained(spans) && TimesFrom(RestoredAll(segments, spans), shown)
    requires width >= 1 && maxLines >= 1
    ensures LayOut(shown, width, maxLines).Err? ==> LayOut(shown, width, maxLines).error == NoRoom
  {
    hide Millis, RestoredAll, Normalized, LayOutNormal, Sort;
    RestoredAllPlaced(segments, spans);
    var restored := RestoredAll(segments, spans);
    forall k | 0 <= k < |shown| ensures Placed(shown[k]) {
      assert HasTimes(restored, shown[k]);
      var j :| 0 <= j < |restored| && restored[j].start == shown[k].start && restored[j].end == shown[k].end;
      assert Placed(restored[j]);
    }
    var sorted := Sort(StartsNoLater, shown);
    SortMembers(StartsNoLater, shown);
    forall k | 0 <= k < |sorted| ensures Placed(sorted[k]) {
      assert sorted[k] in sorted;
    }
    NormalizedPlaced(sorted);
    var normalized := Normalized(sorted);
    L.OnlyNoRoom(normalized, width, maxLines);
  }

  // ----- restored captions stay within the media -----

  ghost predicate SpansEndBy(spans: seq<Span>, limit: real) {
    forall k :: 0 <= k < |spans| ==> spans[k].originalEnd <= limit
  }

  lemma {:induction false} PiecesWithin(start: real, end: real, spans: seq<Span>, limit: real)
    requires SpansEndBy(spans, limit) && forall k :: 0 <= k < |spans| ==> GoodSpan(spans[k])
    ensures EndBy(Pieces(start, end, spans), limit)
  {
    if spans != [] {
      var n := |spans| - 1;
      PiecesWithin(start, end, spans[..n], limit);
      assert GoodSpan(spans[n]) && spans[n].originalEnd <= limit;
    }
  }

  ghost predicate AllEndBy(segments: seq<Segment>, limit: real) {
    forall k :: 0 <= k < |segments| ==> segments[k].end <= limit
  }

  lemma {:induction false} RestoredEndBy(s: Segment, pieces: seq<Interval>, limit: real)
    requires EndBy(pieces, limit)
    ensures AllEndBy(Restored(s, pieces), limit)
  {
    if pieces != [] {
      RestoredEndBy(s, pieces[..|pieces| - 1], limit);
    }
  }

  /** No restored caption ends after the last kept audio. */
  lemma {:induction false} RestoredWithin(segments: seq<Segment>, spans: seq<Span>, limit: real)
    requires Chained(spans) && SpansEndBy(spans, limit)
    ensures AllEndBy(RestoredAll(segments, spans), limit)
  {
    hide Pieces, Restored;
    if segments != [] {
      var n := |segments| - 1;
      RestoredWithin(segments[..n], spans, limit);
      PiecesWithin(segments[n].start, segments[n].end, spans, limit);
      RestoredEndBy(segments[n], Pieces(segments[n].start, segments[n].end, spans), limit);
    }
  }

  // ----- what is restored, and what was cut -----

  /** The piece still has a length when its ends go to the nearest milliseconds. */
  predicate Visible(x: Interval) {
    Millis(x.start) + 1 <= Millis(x.end)
  }

  /** That is so for every piece longer than a millisecond, and for none without a length. */
  lemma VisibleMeaning(x: Interval)
    ensures x.end - x.start > 0.001 ==> Visible(x)
    ensures x.end <= x.start ==> !Visible(x)
  {
    MillisNearby(x.start);
    MillisNearby(x.end);
    if x.end <= x.start {
      MillisMonotone(x.end, x.start);
    }
  }

  /** The number of visible pieces among the first n. */
  function VisibleCount(pieces: seq<Interval>, n: nat): nat
    requires n <= |pieces|
  {
    if n == 0 then 0 else VisibleCount(pieces, n - 1) + if Visible(pieces[n - 1]) then 1 else 0
  }

  lemma {:induction false} VisiblePrefix(pieces: seq<Interval>, m: nat, n: nat)
    requires n <= m <= |pieces|
    ensures VisibleCount(pieces[..m], n) == VisibleCount(pieces, n)
  {
    if n > 0 {
      VisiblePrefix(pieces, m, n - 1);
    }
  }

  /** A caption comes back once for every visible piece, in order, with its text and speaker. */
  lemma {:induction false} RestoredExactly(s: Segment, pieces: seq<Interval>, k: nat)
    ensures |Restored(s, pieces)| == VisibleCount(pieces, |pieces|)
    ensures k < |pieces| && Visible(pieces[k]) ==>
      && VisibleCount(pieces, k) < |Restored(s, pieces)|
      && Restored(s, pieces)[VisibleCount(pieces, k)] == Segment(pieces[k].start, pieces[k].end, s.text, s.speaker)
  {
    hide Millis;
    if pieces != [] {
      var n := |pieces| - 1;
      RestoredExactly(s, pieces[..n], k);
      VisiblePrefix(pieces, n, n);
      if k < n {
        VisiblePrefix(pieces, n, k);
      }
    }
  }

  lemma RestoredNone(spans: seq<Span>)
    ensures RestoredAll([], spans) == []
  {
  }

  lemma RestoredNext(segments: seq<Segment>, s: Segment, spans: seq<Span>)
    ensures RestoredAll(segments + [s], spans)
      == RestoredAll(segments, spans) + Restored(s, Pieces(s.start, s.end, spans))
  {
    hide Pieces, Restored;
    assert (segments + [s])[..|segments|] == segments;
  }

  /** What a list of captions restores is what its parts restore, one behind the other. */
  lemma {:induction false} RestoredConcat(a: seq<Segment>, b: seq<Segment>, spans: seq<Span>)
    ensures RestoredAll(a + b, spans) == RestoredAll(a, spans) + RestoredAll(b, spans)
  {
    hide Pieces, Restored, RestoredAll;
    if b == [] {
      assert a + b == a;
      RestoredNone(spans);
    } else {
      var before, s := b[..|b| - 1], b[|b| - 1];
      RestoredConcat(a, before, spans);
      assert a + b == (a + before) + [s] && b == before + [s];
      RestoredNext(a + before, s, spans);
      RestoredNext(before, s, spans);
    }
  }

  /** Removed audio lies inside the caption: between two instants of its image there is one that is not in it. */
  ghost predicate Torn(s: Segment, spans: seq<Span>) {
    exists t, u, v :: TornAt(s, spans, t, u, v)
  }

  ghost predicate TornAt(s: Segment, spans: seq<Span>, t: real, u: real, v: real) {
    && t < u < v
    && Projected(s.start, s.end, spans, t) && Projected(s.start, s.end, spans, v)
    && !Projected(s.start, s.end, spans, u)
  }

  lemma TornPieces(s: Segment, spans: seq<Span>)
    requires Chained(spans) && Spaced(spans)
    ensures Torn(s, spans) <==> |Pieces(s.start, s.end, spans)| > 1
  {
    hide Pieces, Projected;
    var pieces := Pieces(s.start, s.end, spans);
    PiecesExact(s.start, s.end, spans);
    if |pieces| > 1 {
      var t, u, v := pieces[0].start, pieces[0].end, pieces[1].start;
      assert In(pieces[0], t) && In(pieces[1], v);
      assert forall k :: 0 <= k < |pieces| ==> !In(pieces[k], u);
      assert TornAt(s, spans, t, u, v);
    }
    forall t, u, v | TornAt(s, spans, t, u, v) ensures |pieces| > 1 {
      assert Covers(pieces, t) && !Covers(pieces, u) && Covers(pieces, v);
      var j :| 0 <= j < |pieces| && In(pieces[j], t);
      assert !In(pieces[j], u) && !In(pieces[j], v);
    }
  }

  /** A crossing tells the text of a caption and the separate parts of its image. */
  ghost predicate Tells(c: G.Crossing, s: Segment, spans: seq<Span>) {
    && c.text == s.text && |c.intervals| > 1
    && (forall k :: 0 < k < |c.intervals| ==> c.intervals[k - 1].end < c.intervals[k].start)
    && forall t :: (exists k :: InPart(c, k, t)) <==> Projected(s.start, s.end, spans, t)
  }

  predicate InPart(c: G.Crossing, k: int, t: real) {
    0 <= k < |c.intervals| && c.intervals[k].start <= t < c.intervals[k].end
  }

  lemma CutTells(s: Segment, spans: seq<Span>)
    requires Chained(spans) && Spaced(spans) && Torn(s, spans)
    ensures Tells(G.Crossing(s.text, Cut(Pieces(s.start, s.end, spans))), s, spans)
  {
    hide Pieces, Projected;
    var pieces := Pieces(s.start, s.end, spans);
    var c := G.Crossing(s.text, Cut(pieces));
    TornPieces(s, spans);
    PiecesExact(s.start, s.end, spans);
    forall t ensures (exists k :: InPart(c, k, t)) <==> Projected(s.start, s.end, spans, t) {
      assert forall k :: 0 <= k < |pieces| ==> (InPart(c, k, t) <==> In(pieces[k], t));
    }
  }

  /** The number of torn captions among the first n. */
  ghost function TornCount(segments: seq<Segment>, spans: seq<Span>, n: nat): nat
    requires n <= |segments|
  {
    if n == 0 then 0 else TornCount(segments, spans, n - 1) + if Torn(segments[n - 1], spans) then 1 else 0
  }

  lemma {:induction false} TornPrefix(segments: seq<Segment>, spans: seq<Span>, m: nat, n: nat)
    requires n <= m <= |segments|
    ensures TornCount(segments[..m], spans, n) == TornCount(segments, spans, n)
  {
    if n > 0 {
      TornPrefix(segments, spans, m, n - 1);
    }
  }

  /** There is a crossing for every caption that is torn, in order, and for no other. */
  lemma {:induction false} CrossingsExactly(segments: seq<Segment>, spans: seq<Span>, k: nat)
    requires Chained(spans) && Spaced(spans)
    ensures |CrossingsOf(segments, spans)| == TornCount(segments, spans, |segments|)
    ensures k < |segments| && Torn(segments[k], spans) ==>
      && TornCount(segments, spans, k) < |CrossingsOf(segments, spans)|
      && Tells(CrossingsOf(segments, spans)[TornCount(segments, spans, k)], segments[k], spans)
  {
    hide Pieces, Torn, Tells, Chained, Spaced;
    if segments != [] {
      var n := |segments| - 1;
      CrossingsExactly(segments[..n], spans, k);
      TornPieces(segments[n], spans);
      TornPrefix(segments, spans, n, n);
      if k < n {
        TornPrefix(segments, spans, n, k);
      } else if Torn(segments[n], spans) {
        CutTells(segments[n], spans);
      }
    }
  }
}
