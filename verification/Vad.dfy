/** Voice activity: the hysteresis loop, its scan form, and the audio `retained_intervals` keeps. */
module Vad {
  import opened Wrappers
  import opened Intervals

  // ----- hysteresis -----

  /** The loop: whether speech is on after the first k values. */
  function Loud(p: seq<real>, k: nat, onset: real, offset: real): bool
    requires k <= |p|
  {
    k > 0 && p[k - 1] >= if Loud(p, k - 1, onset, offset) then offset else onset
  }

  function Max(a: int, b: int): int {
    if a >= b then a else b
  }

  /** The running maximum of the positions of values at or above the onset; -1 before the first. */
  function LastOn(p: seq<real>, k: nat, onset: real): int
    requires k <= |p|
  {
    if k == 0 then -1 else Max(LastOn(p, k - 1, onset), if p[k - 1] >= onset then k - 1 else -1)
  }

  function LastOff(p: seq<real>, k: nat, offset: real): int
    requires k <= |p|
  {
    if k == 0 then -1 else Max(LastOff(p, k - 1, offset), if p[k - 1] < offset then k - 1 else -1)
  }

  /** The scan: the last decisive value was an onset. */
  predicate Scanned(p: seq<real>, k: nat, onset: real, offset: real)
    requires k <= |p|
  {
    LastOn(p, k, onset) > LastOff(p, k, offset)
  }

  lemma {:induction false} ScanIsLoop(p: seq<real>, k: nat, onset: real, offset: real)
    requires k <= |p| && offset <= onset
    ensures Scanned(p, k, onset, offset) == Loud(p, k, onset, offset)
    ensures LastOn(p, k, onset) < k && LastOff(p, k, offset) < k
  {
    if k > 0 {
      ScanIsLoop(p, k - 1, onset, offset);
    }
  }

  ghost predicate AlwaysAgree(onset: real, offset: real) {
    forall p, k :: 0 <= k <= |p| ==> Scanned(p, k, onset, offset) == Loud(p, k, onset, offset)
  }

  /** The scan is the loop for all values exactly when the offset is not above the onset. */
  lemma ScanIsLoopExactly(onset: real, offset: real)
    ensures AlwaysAgree(onset, offset) <==> offset <= onset
  {
    if offset <= onset {
      forall p, k: nat | k <= |p| ensures Scanned(p, k, onset, offset) == Loud(p, k, onset, offset) {
        ScanIsLoop(p, k, onset, offset);
      }
    } else {
      var p := [onset];
      assert !Loud(p, 0, onset, offset) && Loud(p, 1, onset, offset);
      assert LastOn(p, 0, onset) == -1 && LastOff(p, 0, offset) == -1;
      assert !Scanned(p, 1, onset, offset);
    }
  }

  /** One channel of a matrix with a row per frame. */
  function Channel(rows: seq<seq<real>>, width: nat, c: nat): (r: seq<real>)
    requires c < width && forall k :: 0 <= k < |rows| ==> |rows[k]| == width
    ensures |r| == |rows|
  {
    seq(|rows|, k requires 0 <= k < |rows| => rows[k][c])
  }

  /** `quiet_mask`: the frames in which no channel's scan is on. */
  function QuietMask(rows: seq<seq<real>>, width: nat, onset: real, offset: real): (r: seq<bool>)
    requires forall k :: 0 <= k < |rows| ==> |rows[k]| == width
    ensures |r| == |rows|
  {
    seq(|rows|, k requires 0 <= k < |rows| =>
      !exists c: nat :: c < width && Scanned(Channel(rows, width, c), k + 1, onset, offset))
  }

  /** The mask marks exactly the frames in which every channel's loop is off. */
  lemma QuietMaskIsLoop(rows: seq<seq<real>>, width: nat, onset: real, offset: real, k: nat)
    requires forall j :: 0 <= j < |rows| ==> |rows[j]| == width
    requires k < |rows| && offset <= onset
    ensures QuietMask(rows, width, onset, offset)[k] <==>
      forall c: nat :: c < width ==> !Loud(Channel(rows, width, c), k + 1, onset, offset)
  {
    forall c: nat | c < width
      ensures Scanned(Channel(rows, width, c), k + 1, onset, offset)
        == Loud(Channel(rows, width, c), k + 1, onset, offset)
    {
      ScanIsLoop(Channel(rows, width, c), k + 1, onset, offset);
    }
  }

  // ----- quiet runs -----

  const HOP := 0.08
  const ON := 0.3
  const OFF := 0.15
  const LONG := 3.0
  const EDGE := 0.3
  const NEAR := 0.4

  /** Whether frame i is speech. The frames are those of the clip and one sentinel. */
  predicate Speech(q: seq<real>, i: nat)
    requires i < |q|
  {
    Loud(q, i + 1, ON, OFF)
  }

  function TimeOf(i: nat, duration: real): real {
    if i as real * HOP < duration then i as real * HOP else duration
  }

  lemma TimeMonotone(i: nat, j: nat, duration: real)
    requires i <= j
    ensures TimeOf(i, duration) <= TimeOf(j, duration)
  {
    assert i as real * HOP <= j as real * HOP;
  }

  /** A maximal run of frames without speech that ends before frame j. */
  ghost predicate Run(q: seq<real>, i: nat, j: nat) {
    && i < j < |q|
    && (i == 0 || Speech(q, i - 1))
    && Speech(q, j)
    && forall m: nat :: i <= m < j ==> !Speech(q, m)
  }

  /** The start of the run that is open before frame k. */
  function Open(q: seq<real>, k: nat): Option<nat>
    requires k <= |q|
  {
    if k == 0 || Speech(q, k - 1) then None
    else if Open(q, k - 1).Some? then Open(q, k - 1)
    else Some(k - 1)
  }

  lemma {:induction false} OpenMeaning(q: seq<real>, k: nat)
    requires k <= |q|
    ensures forall i: nat :: Open(q, k) == Some(i) <==>
      i < k && (i == 0 || Speech(q, i - 1)) && forall m: nat :: i <= m < k ==> !Speech(q, m)
  {
    if k > 0 {
      OpenMeaning(q, k - 1);
    }
  }

  function Shrunk(i: nat, j: nat, duration: real): seq<Interval> {
    var a, b := TimeOf(i, duration), TimeOf(j, duration);
    if b - a >= LONG then [Interval(a + EDGE, b - EDGE)] else []
  }

  /** What the runs that end before frame k remove. */
  function Removed(q: seq<real>, k: nat, duration: real): seq<Interval>
    requires k <= |q|
  {
    if k == 0 then []
    else
      Removed(q, k - 1, duration)
      + if Speech(q, k - 1) && Open(q, k - 1).Some? then Shrunk(Open(q, k - 1).value, k - 1, duration) else []
  }

  lemma {:induction false} RemovedMeaning(q: seq<real>, k: nat, duration: real, x: Interval)
    requires k <= |q|
    ensures x in Removed(q, k, duration) <==> exists j: nat :: j < k && EndsRun(q, j, duration, x)
  {
    if k > 0 {
      RemovedMeaning(q, k - 1, duration, x);
      OpenMeaning(q, k - 1);
      var start := Open(q, k - 1);
      assert EndsRun(q, k - 1, duration, x) <==>
        Speech(q, k - 1) && start.Some? && Shrunk(start.value, k - 1, duration) == [x]
      by {
        forall i: nat ensures Run(q, i, k - 1) <==> Speech(q, k - 1) && start == Some(i) {
        }
      }
    }
  }

  ghost predicate EndsRun(q: seq<real>, j: nat, duration: real, x: Interval) {
    exists i: nat :: Run(q, i, j) && Shrunk(i, j, duration) == [x]
  }

  ghost predicate WideGaps(s: seq<Interval>) {
    forall k :: 0 <= k < |s| ==> s[k].end - s[k].start >= LONG - 2.0 * EDGE
  }

  lemma TimeRange(i: nat, duration: real)
    requires 0.0 <= duration
    ensures 0.0 <= TimeOf(i, duration) <= duration
  {
  }

  /** A removed interval lies between the start of its run and the speech that ends it. */
  lemma ShrunkShape(i: nat, j: nat, duration: real)
    requires 0.0 <= duration
    ensures forall x :: x in Shrunk(i, j, duration) ==>
      TimeOf(i, duration) <= x.start <= x.end <= TimeOf(j, duration) && x.end - x.start >= LONG - 2.0 * EDGE
  {
  }

  lemma AppendShape(s: seq<Interval>, x: seq<Interval>, low: real, high: real, duration: real)
    requires ByStart(s) && Forward(s) && WideGaps(s) && Within(s, 0.0, duration) && EndBy(s, low)
    requires |x| <= 1 && 0.0 <= low <= high <= duration
    requires forall y :: y in x ==> low <= y.start <= y.end <= high && y.end - y.start >= LONG - 2.0 * EDGE
    ensures ByStart(s + x) && Forward(s + x) && WideGaps(s + x) && Within(s + x, 0.0, duration) && EndBy(s + x, high)
  {
    if |x| == 1 {
      assert x[0] in x;
    }
  }

  /** The time of the last report: the start of the open run, or else the last frame. */
  function Reached(q: seq<real>, k: nat, duration: real): real
    requires k <= |q|
  {
    if Open(q, k).Some? then TimeOf(Open(q, k).value, duration)
    else if k == 0 then 0.0
    else TimeOf(k - 1, duration)
  }

  lemma {:induction false} RemovedShape(q: seq<real>, k: nat, duration: real)
    requires k <= |q| && 0.0 <= duration
    ensures var s := Removed(q, k, duration);
      ByStart(s) && Forward(s) && WideGaps(s) && Within(s, 0.0, duration) && EndBy(s, Reached(q, k, duration))
  {
    hide TimeOf, Shrunk, Speech;
    if k > 0 {
      RemovedShape(q, k - 1, duration);
      OpenMeaning(q, k - 1);
      var start := Open(q, k - 1);
      var before := Removed(q, k - 1, duration);
      TimeRange(k - 1, duration);
      if start.Some? {
        TimeRange(start.value, duration);
        TimeMonotone(start.value, k - 1, duration);
        ShrunkShape(start.value, k - 1, duration);
        ShrunkOne(start.value, k - 1, duration);
      } else if k > 1 {
        TimeRange(k - 2, duration);
        TimeMonotone(k - 2, k - 1, duration);
      }
      if Speech(q, k - 1) && start.Some? {
        AppendShape(before, Shrunk(start.value, k - 1, duration), TimeOf(start.value, duration),
          TimeOf(k - 1, duration), duration);
      } else {
        assert before + [] == before;
        EndByLater(before, Reached(q, k - 1, duration), Reached(q, k, duration));
      }
    }
  }

  lemma ShrunkOne(i: nat, j: nat, duration: real)
    ensures |Shrunk(i, j, duration)| <= 1
  {
  }

  lemma EndByLater(s: seq<Interval>, low: real, high: real)
    ensures EndBy(s, low) && low <= high ==> EndBy(s, high)
  {
  }

  // ----- what is kept -----

  datatype VadError = BadFrames | BadProbability

  function Ceil(x: real): int {
    -((-x).Floor)
  }

  predicate RightFrames(p: seq<real>, duration: real) {
    duration > 0.0 && |p| == Ceil(duration / HOP - 0.000000001)
  }

  ghost predicate Probabilities(p: seq<real>) {
    forall k :: 0 <= k < |p| ==> 0.0 <= p[k] <= 1.0
  }

  /** The values with their sentinel. */
  function Framed(p: seq<real>): seq<real> {
    p + [1.0]
  }

  /** An instant inside a long run, more than the padding away from both of its ends. */
  ghost predicate Dropped(p: seq<real>, duration: real, t: real) {
    Covers(Removed(Framed(p), |p| + 1, duration), t)
  }

  ghost predicate FarApart(s: seq<Interval>) {
    forall k :: 0 < k < |s| ==> s[k - 1].end + NEAR < s[k].start
  }

  /** The instant lies between the k-th interval and the one before, and those are near each other. */
  predicate NearGap(kept: seq<Interval>, k: nat, t: real)
    requires 0 < k < |kept|
  {
    kept[k].start <= kept[k - 1].end + NEAR && kept[k - 1].end <= t < kept[k].start
  }

  ghost predicate InNearGap(kept: seq<Interval>, t: real) {
    exists k :: 0 < k < |kept| && NearGap(kept, k, t)
  }

  /** The intervals with the gaps between near ones filled: they lie far apart and cover nothing else in addition. */
  ghost predicate Filled(kept: seq<Interval>, merged: seq<Interval>) {
    && Tidy(merged) && FarApart(merged)
    && (kept == [] <==> merged == [])
    && (kept != [] ==> merged[|merged| - 1].end == kept[|kept| - 1].end)
    && (forall t :: Covers(merged, t) <==> Covers(kept, t) || InNearGap(kept, t))
  }

  lemma NearGapAppend(before: seq<Interval>, x: Interval, t: real)
    ensures InNearGap(before + [x], t) <==>
      InNearGap(before, t) || (before != [] && NearGap(before + [x], |before|, t))
  {
    var all := before + [x];
    assert forall k :: 0 < k < |before| ==> (NearGap(all, k, t) <==> NearGap(before, k, t));
  }

  lemma TidyParts(before: seq<Interval>, x: Interval)
    requires Tidy(before + [x])
    ensures Tidy(before) && x.start < x.end && (before != [] ==> before[|before| - 1].end <= x.start)
  {
    var all := before + [x];
    assert all[|before|] == x && forall k :: 0 <= k < |before| ==> all[k] == before[k];
  }

  /** An interval near the last one lengthens it. */
  lemma FillNear(before: seq<Interval>, x: Interval, merged: seq<Interval>)
    requires Filled(before, merged) && Tidy(before + [x]) && merged != []
    requires x.start <= merged[|merged| - 1].end + NEAR
    ensures Filled(before + [x], merged[..|merged| - 1] + [Interval(merged[|merged| - 1].start, x.end)])
  {
    hide Covers, InNearGap, Tidy;
    var n := |merged| - 1;
    var last, longer := merged[n], Interval(merged[n].start, x.end);
    TidyParts(before, x);
    assert merged == merged[..n] + [last];
    TidyParts(merged[..n], last);
    TidyAppend(merged[..n], longer);
    forall t ensures Covers(merged[..n] + [longer], t) <==> Covers(before + [x], t) || InNearGap(before + [x], t) {
      CoversAppend(merged[..n], longer, t);
      CoversAppend(merged[..n], last, t);
      CoversAppend(before, x, t);
      NearGapAppend(before, x, t);
    }
  }

  /** An interval far behind the last one stands alone. */
  lemma FillFar(before: seq<Interval>, x: Interval, merged: seq<Interval>)
    requires Filled(before, merged) && Tidy(before + [x])
    requires merged != [] ==> merged[|merged| - 1].end + NEAR < x.start
    ensures Filled(before + [x], merged + [x])
  {
    hide Covers, InNearGap, Tidy;
    TidyParts(before, x);
    TidyAppend(merged, x);
    forall t ensures Covers(merged + [x], t) <==> Covers(before + [x], t) || InNearGap(before + [x], t) {
      CoversAppend(merged, x, t);
      CoversAppend(before, x, t);
      NearGapAppend(before, x, t);
    }
  }

  /** The final pass: intervals at most 0.4 seconds apart become one. */
  method MergeNear(kept: seq<Interval>) returns (merged: seq<Interval>)
    ensures Tidy(kept) ==> Filled(kept, merged)
    ensures FarApart(kept) ==> merged == kept
  {
    hide Filled, Tidy;
    merged := [];
    FillNothing();
    for k := 0 to |kept|
      invariant k > 0 ==> merged != []
      invariant Tidy(kept) ==> Filled(kept[..k], merged)
      invariant FarApart(kept) ==> merged == kept[..k]
    {
      var n := |merged|;
      assert kept[..k + 1] == kept[..k] + [kept[k]];
      if Tidy(kept) {
        TidyPrefix(kept, k + 1);
        if n > 0 && kept[k].start <= merged[n - 1].end + NEAR {
          FillNear(kept[..k], kept[k], merged);
        } else {
          FillFar(kept[..k], kept[k], merged);
        }
      }
      if n > 0 && kept[k].start <= merged[n - 1].end + NEAR {
        merged := merged[..n - 1] + [Interval(merged[n - 1].start, kept[k].end)];
      } else {
        merged := merged + [kept[k]];
      }
    }
    assert kept[..|kept|] == kept;
  }

  lemma FillNothing()
    ensures Filled([], [])
  {
  }

  lemma TidyPrefix(s: seq<Interval>, k: nat)
    requires Tidy(s) && k <= |s|
    ensures Tidy(s[..k])
  {
  }

  lemma BridgesAreWide(kept: seq<Interval>, cuts: seq<Interval>)
    requires Bridged(kept, cuts) && WideGaps(cuts)
    ensures FarApart(kept)
  {
    forall k | 0 < k < |kept| ensures kept[k - 1].end + NEAR < kept[k].start {
      assert Bridge(cuts, kept[k - 1].end, kept[k].start);
    }
  }

  /** `retained_intervals`: everything but the dropped instants. */
  method RetainedIntervals(p: seq<real>, duration: real) returns (r: Result<seq<Interval>, VadError>)
    ensures r.Ok? <==> RightFrames(p, duration) && Probabilities(p)
    ensures r.Err? ==> r.error == if RightFrames(p, duration) then BadProbability else BadFrames
    ensures r.Ok? ==> Tidy(r.value) && Within(r.value, 0.0, duration) && FarApart(r.value)
    ensures r.Ok? ==> OutsideExactly(r.value, Removed(Framed(p), |p| + 1, duration), 0.0, duration)
  {
    if !RightFrames(p, duration) {
      return Err(BadFrames);
    }
    var q := Framed(p);
    var removed := [];
    var quietStart: Option<real> := None;
    var speech := false;
    for k := 0 to |q|
      invariant forall j :: 0 <= j < k && j < |p| ==> 0.0 <= p[j] <= 1.0
      invariant speech == Loud(q, k, ON, OFF)
      invariant removed == Removed(q, k, duration)
      invariant quietStart == if Open(q, k).Some? then Some(TimeOf(Open(q, k).value, duration)) else None
    {
      var value := q[k];
      if !(0.0 <= value <= 1.0) {
        return Err(BadProbability);
      }
      speech := value >= if speech then OFF else ON;
      var now := TimeOf(k, duration);
      if !speech && quietStart.None? {
        quietStart := Some(now);
      } else if speech && quietStart.Some? {
        if now - quietStart.value >= LONG {
          removed := removed + [Interval(quietStart.value + EDGE, now - EDGE)];
        }
        quietStart := None;
      }
    }
    RemovedShape(q, |q|, duration);
    var kept := Complement(removed, duration);
    BridgesAreWide(kept, removed);
    var merged := MergeNear(kept);
    return Ok(merged);
  }

  // ----- what that means for speech -----

  /** An instant deep inside a long run without speech. */
  ghost predicate DeepQuiet(p: seq<real>, i: nat, j: nat, duration: real, t: real) {
    && Run(Framed(p), i, j)
    && TimeOf(j, duration) - TimeOf(i, duration) >= LONG
    && TimeOf(i, duration) + EDGE <= t < TimeOf(j, duration) - EDGE
  }

  lemma DroppedDeep(p: seq<real>, duration: real, t: real)
    requires Dropped(p, duration, t)
    ensures exists i: nat, j: nat :: DeepQuiet(p, i, j, duration, t)
  {
    hide Run, Removed, TimeOf, Speech;
    var q := Framed(p);
    var removed := Removed(q, |p| + 1, duration);
    var k :| 0 <= k < |removed| && In(removed[k], t);
    RemovedMeaning(q, |p| + 1, duration, removed[k]);
    var j: nat :| j < |p| + 1 && EndsRun(q, j, duration, removed[k]);
    var i: nat :| Run(q, i, j) && Shrunk(i, j, duration) == [removed[k]];
    assert [removed[k]][0] == Shrunk(i, j, duration)[0];
    assert DeepQuiet(p, i, j, duration, t);
  }

  lemma DeepDropped(p: seq<real>, i: nat, j: nat, duration: real, t: real)
    requires DeepQuiet(p, i, j, duration, t)
    ensures Dropped(p, duration, t)
  {
    hide Removed, TimeOf, Speech;
    var q := Framed(p);
    var x := Interval(TimeOf(i, duration) + EDGE, TimeOf(j, duration) - EDGE);
    assert Run(q, i, j) && Shrunk(i, j, duration) == [x];
    assert EndsRun(q, j, duration, x);
    RemovedMeaning(q, |p| + 1, duration, x);
    var removed := Removed(q, |p| + 1, duration);
    var k :| 0 <= k < |removed| && removed[k] == x;
    assert In(removed[k], t);
  }

  /**
   Only instants inside a run of at least three seconds without speech are dropped, and all of those that keep clear
   of its ends.
   */
  lemma DroppedMeaning(p: seq<real>, duration: real, t: real)
    ensures Dropped(p, duration, t) <==> exists i: nat, j: nat :: DeepQuiet(p, i, j, duration, t)
  {
    hide Dropped, DeepQuiet;
    if Dropped(p, duration, t) {
      DroppedDeep(p, duration, t);
    }
    forall i: nat, j: nat | DeepQuiet(p, i, j, duration, t) ensures Dropped(p, duration, t) {
      DeepDropped(p, i, j, duration, t);
    }
  }

  /** No speech frame is dropped, and nothing within 0.3 seconds of one. */
  lemma SpeechSurvives(p: seq<real>, duration: real, kept: seq<Interval>, i: nat, t: real)
    requires OutsideExactly(kept, Removed(Framed(p), |p| + 1, duration), 0.0, duration)
    requires i < |p| && Speech(Framed(p), i) && 0.0 <= t < duration
    requires TimeOf(i, duration) - EDGE <= t < TimeOf(i + 1, duration) + EDGE
    ensures Covers(kept, t)
  {
    assert Covers(kept, t) <==> Outside(Removed(Framed(p), |p| + 1, duration), 0.0, duration, t);
    DroppedMeaning(p, duration, t);
    forall a: nat, b: nat ensures !DeepQuiet(p, a, b, duration, t) {
      if Run(Framed(p), a, b) {
        if i < a {
          TimeMonotone(i + 1, a, duration);
        } else if i >= b {
          TimeMonotone(b, i, duration);
        }
      }
    }
  }
}
