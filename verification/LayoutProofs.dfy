/**
 What a successful layout promises: exact timing, whole texts, good blocks, and when laying out again changes nothing.
 */
module LayoutProofs {
  import opened Wrappers
  import opened Text
  import opened Wrap
  import opened Layout
  import opened LayoutText
  import Sweep

  predicate Showing(b: Block, t: int) {
    b.first <= t < b.last
  }

  ghost predicate SomeShowing(out: seq<Block>, t: int) {
    exists k :: 0 <= k < |out| && Showing(out[k], t)
  }

  /** Captions in order of time and without overlap. */
  ghost predicate Track(out: seq<Block>) {
    && (forall k :: 0 <= k < |out| ==> 0 <= out[k].first < out[k].last)
    && (forall j, k :: 0 <= j < k < |out| ==> out[j].last <= out[k].first)
  }

  ghost predicate Within(out: seq<Block>, from: int, to: int) {
    forall k :: 0 <= k < |out| ==> from <= out[k].first && out[k].last <= to
  }

  ghost predicate GoodTexts(out: seq<Block>, width: nat, maxLines: nat) {
    forall k :: 0 <= k < |out| ==> BlockText(out[k].text, width, maxLines)
  }

  function TextsOf(out: seq<Block>): (r: seq<string>)
    ensures |r| == |out|
    ensures forall k :: 0 <= k < |r| ==> r[k] == out[k].text
  {
    seq(|out|, k requires 0 <= k < |out| => out[k].text)
  }

  // ----- one interval -----

  /** The blocks of one caption tile its interval. */
  lemma TimedTiles(c: Block, texts: seq<string>)
    requires 0 <= c.first && |texts| <= c.last - c.first
    ensures Track(Timed(c, texts)) && Within(Timed(c, texts), c.first, c.last)
    ensures texts != [] ==> forall t :: c.first <= t < c.last ==> SomeShowing(Timed(c, texts), t)
  {
    var weights := Weights(texts);
    var out := Timed(c, texts);
    forall k | 0 <= k < |out| ensures c.first <= out[k].first < out[k].last <= c.last {
      BoundaryRoom(c.first, c.last, weights, k);
      BoundaryRoom(c.first, c.last, weights, k + 1);
    }
    forall j, k | 0 <= j < k < |out| ensures out[j].last <= out[k].first {
      if j + 1 < k {
        BoundaryIncreasing(c.first, c.last, weights, j + 1, k);
      }
    }
    if texts != [] {
      forall t | c.first <= t < c.last ensures SomeShowing(out, t) {
        BoundaryRoom(c.first, c.last, weights, |weights|);
        TilesCover(c, texts, |texts| - 1, t);
      }
    }
  }

  lemma {:induction false} TilesCover(c: Block, texts: seq<string>, k: nat, t: int)
    requires k < |texts| && c.first <= t < Timed(c, texts)[k].last
    ensures SomeShowing(Timed(c, texts), t)
  {
    var out := Timed(c, texts);
    if t < out[k].first {
      assert k > 0 && out[k - 1].last == out[k].first;
      TilesCover(c, texts, k - 1, t);
    } else {
      assert Showing(out[k], t);
    }
  }

  // ----- all intervals -----

  ghost predicate Exacts(segments: seq<Segment>) {
    forall i :: 0 <= i < |segments| ==> Exact(segments[i].text) && AllTidy(SplitLines(segments[i].text))
  }

  /** The lines of the captions of some intervals, before wrapping. */
  function CaptionLines(segments: seq<Segment>, intervals: seq<Sweep.Interval>): seq<string>
    requires AllInRange(intervals, |segments|)
  {
    if intervals == [] then []
    else LinesOf(Texts(segments, intervals[0])) + CaptionLines(segments, intervals[1..])
  }

  lemma CaptionText(segments: seq<Segment>, v: Sweep.Interval)
    requires InRange(v, |segments|) && Exacts(segments)
    ensures SplitLines(Caption(segments, v).text) == LinesOf(Texts(segments, v))
    ensures v.active != [] ==> LinesOf(Texts(segments, v)) != []
  {
    LinesOfTexts(Texts(segments, v));
    JoinTexts(Texts(segments, v));
  }

  lemma {:induction false} LinesOfTidy(texts: seq<string>)
    requires forall i :: 0 <= i < |texts| ==> AllTidy(SplitLines(texts[i]))
    ensures AllTidy(LinesOf(texts))
  {
    if texts != [] {
      LinesOfTidy(texts[1..]);
      ConcatEach(SplitLines(texts[0]), LinesOf(texts[1..]), 1);
    }
  }

  /** What one interval contributes: it fills its time. */
  ghost predicate Timing(part: seq<Block>, from: int, to: int) {
    && Track(part)
    && Within(part, from, to)
    && (forall t :: from <= t < to ==> SomeShowing(part, t))
  }

  /** One of the blocks of all texts of the interval, with the interval's speaker. */
  ghost predicate FromInterval(segments: seq<Segment>, v: Sweep.Interval, b: Block, width: nat, maxLines: nat)
    requires width >= 1 && maxLines >= 1 && InRange(v, |segments|)
  {
    b.text in Blocks(Caption(segments, v).text, width, maxLines) && b.speaker == Caption(segments, v).speaker
  }

  lemma DividedContract(segments: seq<Segment>, v: Sweep.Interval, width: nat, maxLines: nat, part: seq<Block>)
    requires width >= 1 && maxLines >= 1
    requires InRange(v, |segments|) && Exacts(segments) && v.first < v.last && v.active != []
    requires Divided(Caption(segments, v), width, maxLines) == Ok(part)
    ensures Timing(part, v.first, v.last)
    ensures GoodTexts(part, width, maxLines)
    ensures LinesOf(TextsOf(part)) == WrapAll(LinesOf(Texts(segments, v)), width)
    ensures forall k :: 0 <= k < |part| ==> FromInterval(segments, v, part[k], width, maxLines)
  {
    var c := Caption(segments, v);
    var texts := Blocks(c.text, width, maxLines);
    CaptionText(segments, v);
    BlocksContract(c.text, width, maxLines);
    assert TextsOf(part) == texts;
    assert texts != [] by {
      LinesOfTidy(Texts(segments, v));
      WrapAllContract(SplitLines(c.text), width);
    }
    TimedTiles(c, texts);
  }

  lemma TrackConcat(a: seq<Block>, b: seq<Block>, from: int, mid: int, later: int, to: int)
    requires Track(a) && Track(b)
    requires Within(a, from, mid) && Within(b, later, to) && from <= mid <= later <= to
    ensures Track(a + b) && Within(a + b, from, to)
  {
    var c := a + b;
    assert forall i :: 0 <= i < |a| ==> c[i] == a[i];
    assert forall i :: |a| <= i < |c| ==> c[i] == b[i - |a|];
  }

  lemma GoodConcat(a: seq<Block>, b: seq<Block>, width: nat, maxLines: nat)
    requires GoodTexts(a, width, maxLines) && GoodTexts(b, width, maxLines)
    ensures GoodTexts(a + b, width, maxLines)
  {
    var c := a + b;
    assert forall i :: 0 <= i < |a| ==> c[i] == a[i];
    assert forall i :: |a| <= i < |c| ==> c[i] == b[i - |a|];
  }

  lemma {:induction false} LinesOfConcat(a: seq<string>, b: seq<string>)
    ensures LinesOf(a + b) == LinesOf(a) + LinesOf(b)
  {
    if a == [] {
      assert a + b == b;
    } else {
      assert (a + b)[1..] == a[1..] + b;
      LinesOfConcat(a[1..], b);
    }
  }

  lemma {:induction false} WrapAllConcat(a: seq<string>, b: seq<string>, width: nat)
    requires width >= 1
    ensures WrapAll(a + b, width) == WrapAll(a, width) + WrapAll(b, width)
  {
    if a == [] {
      assert a + b == b;
    } else {
      assert (a + b)[1..] == a[1..] + b;
      WrapAllConcat(a[1..], b, width);
    }
  }

  ghost predicate GoodIntervals(intervals: seq<Sweep.Interval>, n: nat) {
    && AllInRange(intervals, n)
    && Sweep.Ordered(intervals)
    && (forall k :: 0 <= k < |intervals| ==> intervals[k].first < intervals[k].last && intervals[k].active != [])
  }

  /** Blocks laid out for a list of intervals lie in order within them. */
  ghost predicate TimedBy(out: seq<Block>, intervals: seq<Sweep.Interval>) {
    && Track(out)
    && (intervals == [] ==> out == [])
    && (intervals != [] ==> Within(out, intervals[0].first, intervals[|intervals| - 1].last))
  }

  lemma TimedByCons(part: seq<Block>, rest: seq<Block>, intervals: seq<Sweep.Interval>, n: nat)
    requires intervals != [] && GoodIntervals(intervals, n)
    requires Timing(part, intervals[0].first, intervals[0].last)
    requires TimedBy(rest, intervals[1..])
    ensures TimedBy(part + rest, intervals)
  {
    var later := intervals[1..];
    if later == [] {
      assert part + rest == part;
    } else {
      var last := later[|later| - 1];
      assert later[0].first < last.last;
      TrackConcat(part, rest, intervals[0].first, intervals[0].last, later[0].first, last.last);
    }
  }

  lemma LinesCons(part: seq<Block>, rest: seq<Block>, here: seq<string>, later: seq<string>, width: nat)
    requires width >= 1
    requires LinesOf(TextsOf(part)) == WrapAll(here, width)
    requires LinesOf(TextsOf(rest)) == WrapAll(later, width)
    ensures LinesOf(TextsOf(part + rest)) == WrapAll(here + later, width)
  {
    assert TextsOf(part + rest) == TextsOf(part) + TextsOf(rest);
    LinesOfConcat(TextsOf(part), TextsOf(rest));
    WrapAllConcat(here, later, width);
  }

  lemma DividedAllUnfold(segments: seq<Segment>, intervals: seq<Sweep.Interval>, width: nat, maxLines: nat,
                         out: seq<Block>)
    returns (part: seq<Block>, rest: seq<Block>)
    requires width >= 1 && maxLines >= 1
    requires intervals != [] && AllInRange(intervals, |segments|)
    requires DividedAll(segments, intervals, width, maxLines) == Ok(out)
    ensures Divided(Caption(segments, intervals[0]), width, maxLines) == Ok(part)
    ensures DividedAll(segments, intervals[1..], width, maxLines) == Ok(rest)
    ensures out == part + rest
  {
    part := Divided(Caption(segments, intervals[0]), width, maxLines).value;
    rest := DividedAll(segments, intervals[1..], width, maxLines).value;
  }

  lemma {:induction false} DividedAllContract(
    segments: seq<Segment>, intervals: seq<Sweep.Interval>, width: nat, maxLines: nat, out: seq<Block>)
    requires width >= 1 && maxLines >= 1
    requires Exacts(segments) && GoodIntervals(intervals, |segments|)
    requires DividedAll(segments, intervals, width, maxLines) == Ok(out)
    ensures TimedBy(out, intervals)
    ensures GoodTexts(out, width, maxLines)
    ensures LinesOf(TextsOf(out)) == WrapAll(CaptionLines(segments, intervals), width)
    decreases |intervals|
  {
    if intervals == [] {
      assert LinesOf(TextsOf([])) == [];
    } else {
      var part, rest := DividedAllUnfold(segments, intervals, width, maxLines, out);
      DividedContract(segments, intervals[0], width, maxLines, part);
      DividedAllContract(segments, intervals[1..], width, maxLines, rest);
      TimedByCons(part, rest, intervals, |segments|);
      GoodConcat(part, rest, width, maxLines);
      LinesCons(part, rest, LinesOf(Texts(segments, intervals[0])), CaptionLines(segments, intervals[1..]), width);
    }
  }

  /** The blocks laid out are those of one interval after the other. */
  lemma {:induction false} DividedAllParts(
    segments: seq<Segment>, intervals: seq<Sweep.Interval>, width: nat, maxLines: nat, out: seq<Block>)
    returns (parts: seq<seq<Block>>)
    requires width >= 1 && maxLines >= 1
    requires AllInRange(intervals, |segments|)
    requires DividedAll(segments, intervals, width, maxLines) == Ok(out)
    ensures |parts| == |intervals| && Flatten(parts) == out
    ensures forall k :: 0 <= k < |parts| ==> Divided(Caption(segments, intervals[k]), width, maxLines) == Ok(parts[k])
    decreases |intervals|
  {
    if intervals == [] {
      parts := [];
    } else {
      var part, rest := DividedAllUnfold(segments, intervals, width, maxLines, out);
      var later := DividedAllParts(segments, intervals[1..], width, maxLines, rest);
      parts := [part] + later;
      assert parts[1..] == later;
    }
  }

  lemma {:induction false} FlattenAt<T>(parts: seq<seq<T>>, j: nat, i: nat) returns (k: nat)
    requires j < |parts| && i < |parts[j]|
    ensures k < |Flatten(parts)| && Flatten(parts)[k] == parts[j][i]
    decreases j
  {
    if j == 0 {
      k := i;
    } else {
      var later := FlattenAt(parts[1..], j - 1, i);
      k := |parts[0]| + later;
    }
  }

  lemma {:induction false} FlattenFind<T>(parts: seq<seq<T>>, k: nat) returns (j: nat, i: nat)
    requires k < |Flatten(parts)|
    ensures j < |parts| && i < |parts[j]| && parts[j][i] == Flatten(parts)[k]
    decreases |parts|
  {
    if k < |parts[0]| {
      j, i := 0, k;
    } else {
      j, i := FlattenFind(parts[1..], k - |parts[0]|);
      j := j + 1;
    }
  }

  /** At every millisecond of an interval, a block of that interval's caption is shown. */
  lemma DividedAllShows(
    segments: seq<Segment>, intervals: seq<Sweep.Interval>, width: nat, maxLines: nat, out: seq<Block>, j: nat, t: nat)
    returns (k: nat)
    requires width >= 1 && maxLines >= 1
    requires Exacts(segments) && GoodIntervals(intervals, |segments|)
    requires DividedAll(segments, intervals, width, maxLines) == Ok(out)
    requires j < |intervals| && intervals[j].first <= t < intervals[j].last
    ensures k < |out| && Showing(out[k], t) && FromInterval(segments, intervals[j], out[k], width, maxLines)
  {
    var parts := DividedAllParts(segments, intervals, width, maxLines, out);
    DividedContract(segments, intervals[j], width, maxLines, parts[j]);
    assert SomeShowing(parts[j], t);
    var i :| 0 <= i < |parts[j]| && Showing(parts[j][i], t);
    k := FlattenAt(parts, j, i);
  }

  /** Every block laid out is shown within an interval. */
  lemma DividedAllOnly(
    segments: seq<Segment>, intervals: seq<Sweep.Interval>, width: nat, maxLines: nat, out: seq<Block>, k: nat, t: nat)
    returns (j: nat)
    requires width >= 1 && maxLines >= 1
    requires Exacts(segments) && GoodIntervals(intervals, |segments|)
    requires DividedAll(segments, intervals, width, maxLines) == Ok(out)
    requires k < |out| && Showing(out[k], t)
    ensures j < |intervals| && intervals[j].first <= t < intervals[j].last
  {
    var parts := DividedAllParts(segments, intervals, width, maxLines, out);
    var i;
    j, i := FlattenFind(parts, k);
    DividedContract(segments, intervals[j], width, maxLines, parts[j]);
  }
}
