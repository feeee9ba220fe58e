/** From the silence log to the audio intervals that are kept: `kept_intervals`, subtraction, and their composition. */
module Preprocess {
  import opened Wrappers
  import opened Intervals

  // ----- the silence log -----

  datatype Line = Other | SilenceStart(at: real) | SilenceEnd(at: real)

  function Clamp(at: real, duration: real): real {
    var low := if at > 0.0 then at else 0.0;
    if low < duration then low else duration
  }

  /** A value of the log, kept within the clip; past the last line it is the end of the clip. */
  function TimeAt(lines: seq<Line>, k: nat, duration: real): real {
    if k < |lines| && !lines[k].Other? then Clamp(lines[k].at, duration) else duration
  }

  /** The silence from line i to line j, without its padding, if it is long enough. */
  function Shortened(lines: seq<Line>, i: nat, j: nat, duration: real, minimum: real, padding: real): seq<Interval> {
    var start, end := TimeAt(lines, i, duration), TimeAt(lines, j, duration);
    if end - start >= minimum then [Interval(start + padding, end - padding)] else []
  }

  /** Lines i and j bound a silence: a start and the next end, with no other report between. */
  ghost predicate Silence(lines: seq<Line>, i: nat, j: nat) {
    && i < j <= |lines| && lines[i].SilenceStart?
    && (j == |lines| || lines[j].SilenceEnd?)
    && forall k :: i < k < j ==> lines[k].Other?
  }

  /** The last report before line n, if it is the start of a silence. */
  function Pending(lines: seq<Line>, n: nat): Option<nat>
    requires n <= |lines|
  {
    if n == 0 then None
    else match lines[n - 1]
      case Other => Pending(lines, n - 1)
      case SilenceStart(_) => Some(n - 1)
      case SilenceEnd(_) => None
  }

  lemma {:induction false} PendingMeaning(lines: seq<Line>, n: nat)
    requires n <= |lines|
    ensures forall i: nat ::
      Pending(lines, n) == Some(i) <==> i < n && lines[i].SilenceStart? && forall k :: i < k < n ==> lines[k].Other?
  {
    if n > 0 {
      PendingMeaning(lines, n - 1);
    }
  }

  function Removed(lines: seq<Line>, n: nat, duration: real, minimum: real, padding: real): seq<Interval>
    requires n <= |lines|
  {
    if n == 0 then []
    else
      var before := Removed(lines, n - 1, duration, minimum, padding);
      var start := Pending(lines, n - 1);
      if lines[n - 1].SilenceEnd? && start.Some?
      then before + Shortened(lines, start.value, n - 1, duration, minimum, padding)
      else before
  }

  function AllRemoved(lines: seq<Line>, duration: real, minimum: real, padding: real): seq<Interval> {
    var start := Pending(lines, |lines|);
    Removed(lines, |lines|, duration, minimum, padding)
    + if start.Some? then Shortened(lines, start.value, |lines|, duration, minimum, padding) else []
  }

  ghost predicate FromSilence(lines: seq<Line>, x: Interval, j: nat, duration: real, minimum: real, padding: real) {
    exists i: nat :: Silence(lines, i, j) && Shortened(lines, i, j, duration, minimum, padding) == [x]
  }

  lemma {:induction false} RemovedMeaning(lines: seq<Line>, n: nat, x: Interval, duration: real, minimum: real,
                                          padding: real)
    requires n <= |lines|
    ensures x in Removed(lines, n, duration, minimum, padding)
      <==> exists j: nat :: j < n && FromSilence(lines, x, j, duration, minimum, padding)
  {
    if n > 0 {
      RemovedMeaning(lines, n - 1, x, duration, minimum, padding);
      PendingMeaning(lines, n - 1);
      var start := Pending(lines, n - 1);
      assert FromSilence(lines, x, n - 1, duration, minimum, padding) <==>
        lines[n - 1].SilenceEnd? && start.Some?
          && Shortened(lines, start.value, n - 1, duration, minimum, padding) == [x]
      by {
        forall i: nat ensures Silence(lines, i, n - 1) <==> lines[n - 1].SilenceEnd? && start == Some(i) {
        }
      }
    }
  }

  /** The removed audio is what long silences leave without their padding: nothing more and nothing less. */
  lemma AllRemovedMeaning(lines: seq<Line>, x: Interval, duration: real, minimum: real, padding: real)
    ensures x in AllRemoved(lines, duration, minimum, padding)
      <==> exists j: nat :: j <= |lines| && FromSilence(lines, x, j, duration, minimum, padding)
  {
    var n := |lines|;
    RemovedMeaning(lines, n, x, duration, minimum, padding);
    PendingMeaning(lines, n);
    var start := Pending(lines, n);
    assert FromSilence(lines, x, n, duration, minimum, padding) <==>
      start.Some? && Shortened(lines, start.value, n, duration, minimum, padding) == [x]
    by {
      forall i: nat ensures Silence(lines, i, n) <==> start == Some(i) {
      }
    }
  }

  lemma {:induction false} RemovedShape(lines: seq<Line>, n: nat, duration: real, minimum: real, padding: real)
    requires n <= |lines| && 0.0 <= duration && 0.0 <= padding && 2.0 * padding <= minimum
    ensures Forward(Removed(lines, n, duration, minimum, padding))
    ensures Within(Removed(lines, n, duration, minimum, padding), 0.0, duration)
  {
    if n > 0 {
      RemovedShape(lines, n - 1, duration, minimum, padding);
    }
  }

  lemma AllRemovedShape(lines: seq<Line>, duration: real, minimum: real, padding: real)
    requires 0.0 <= duration && 0.0 <= padding && 2.0 * padding <= minimum
    ensures Forward(AllRemoved(lines, duration, minimum, padding))
    ensures Within(AllRemoved(lines, duration, minimum, padding), 0.0, duration)
  {
    RemovedShape(lines, |lines|, duration, minimum, padding);
  }

  lemma OrderedShape(s: seq<Interval>, low: real, high: real)
    ensures Forward(s) ==> Forward(Ordered(s))
    ensures Within(s, low, high) ==> Within(Ordered(s), low, high)
    ensures AllProper(s) ==> AllProper(Ordered(s))
  {
    var r := Ordered(s);
    forall k | 0 <= k < |r| ensures r[k] in s {
      assert r[k] in r;
    }
  }

  /** `kept_intervals`: everything but the removed silence, as intervals in order. */
  method KeptIntervals(lines: seq<Line>, duration: real, minimum: real, padding: real) returns (result: seq<Interval>)
    requires 0.0 <= duration && 0.0 <= padding && 2.0 * padding <= minimum
    ensures OutsideExactly(result, AllRemoved(lines, duration, minimum, padding), 0.0, duration)
    ensures Tidy(result) && Within(result, 0.0, duration)
  {
    hide In, Covers, Ordered;
    var removed := [];
    var start: Option<real> := None;
    for k := 0 to |lines|
      invariant removed == Removed(lines, k, duration, minimum, padding)
      invariant Pending(lines, k).Some? ==> Pending(lines, k).value < k && lines[Pending(lines, k).value].SilenceStart?
      invariant start
        == if Pending(lines, k).Some? then Some(TimeAt(lines, Pending(lines, k).value, duration)) else None
    {
      if lines[k].Other? {
        continue;
      }
      var value := Clamp(lines[k].at, duration);
      if lines[k].SilenceStart? {
        start := Some(value);
      } else if start.Some? {
        if value - start.value >= minimum {
          removed := removed + [Interval(start.value + padding, value - padding)];
        }
        start := None;
      }
    }
    if start.Some? && duration - start.value >= minimum {
      removed := removed + [Interval(start.value + padding, duration - padding)];
    }
    assert removed == AllRemoved(lines, duration, minimum, padding);
    AllRemovedShape(lines, duration, minimum, padding);
    OrderedShape(removed, 0.0, duration);
    OrderedCover(removed);
    result := Complement(Ordered(removed), duration);
    SameOutside(result, Ordered(removed), removed, duration);
  }

  lemma OrderedCover(s: seq<Interval>)
    ensures ByStart(Ordered(s)) && SameCover(Ordered(s), s)
  {
  }

  lemma SameOutside(r: seq<Interval>, a: seq<Interval>, b: seq<Interval>, duration: real)
    requires SameCover(a, b) && OutsideExactly(r, a, 0.0, duration)
    ensures OutsideExactly(r, b, 0.0, duration)
  {
  }

  // ----- subtraction -----

  /** An instant of `kept` that no removal covers. */
  ghost predicate Spared(kept: seq<Interval>, removals: seq<Interval>, t: real) {
    Covers(kept, t) && !Covers(removals, t)
  }

  ghost predicate SparedExactly(r: seq<Interval>, kept: seq<Interval>, removals: seq<Interval>) {
    forall t :: Covers(r, t) <==> Spared(kept, removals, t)
  }

  lemma SpareMore(r: seq<Interval>, part: seq<Interval>, kept: seq<Interval>, x: Interval, cuts: seq<Interval>)
    requires SparedExactly(r, kept, cuts) && OutsideExactly(part, cuts, x.start, x.end)
    ensures SparedExactly(r + part, kept + [x], cuts)
  {
    forall t ensures Covers(r + part, t) <==> Spared(kept + [x], cuts, t) {
      CoversConcat(r, part, t);
      CoversAppend(kept, x, t);
      assert Covers(part, t) <==> Outside(cuts, x.start, x.end, t);
    }
  }

  lemma SpareNothing(cuts: seq<Interval>)
    ensures SparedExactly([], [], cuts) && Tidy([]) && EndBy([], 0.0)
  {
  }

  lemma PartTidy(r: seq<Interval>, part: seq<Interval>, kept: seq<Interval>, k: nat)
    requires k < |kept| && Tidy(part) && Within(part, kept[k].start, kept[k].end)
    requires Tidy(kept) ==> Tidy(r) && (k > 0 ==> EndBy(r, kept[k - 1].end)) && (k == 0 ==> r == [])
    ensures Tidy(kept) ==> Tidy(r + part) && EndBy(r + part, kept[k].end)
  {
    if Tidy(kept) {
      TidyConcat(r, part, kept[k].start);
    }
  }

  /** `subtract_intervals`: exact set difference, for cuts that overlap in any way. */
  method Subtract(kept: seq<Interval>, removals: seq<Interval>, duration: real)
    returns (r: Result<seq<Interval>, BoundsError>)
    ensures r.Err? <==> !AllValid(removals, duration)
    ensures r.Ok? ==> SparedExactly(r.value, kept, removals)
    ensures r.Ok? && Tidy(kept) ==> Tidy(r.value)
    ensures r.Ok? && Within(kept, 0.0, duration) ==> Within(r.value, 0.0, duration)
  {
    hide In, Covers, Tidy, Outside, Ordered;
    for k := 0 to |removals|
      invariant AllValid(removals[..k], duration)
    {
      if !ValidBounds(removals[k], duration) {
        return Err(InvalidBounds);
      }
    }
    assert removals[..|removals|] == removals;
    var cuts := Ordered(removals);
    OrderedShape(removals, 0.0, duration);
    OrderedCover(removals);
    var result := [];
    SpareNothing(cuts);
    for k := 0 to |kept|
      invariant SparedExactly(result, kept[..k], cuts)
      invariant Tidy(kept) ==> Tidy(result) && (k > 0 ==> EndBy(result, kept[k - 1].end)) && (k == 0 ==> result == [])
      invariant Within(kept, 0.0, duration) ==> Within(result, 0.0, duration)
    {
      var part := SubtractOne(kept[k].start, kept[k].end, cuts);
      assert kept[..k + 1] == kept[..k] + [kept[k]];
      SpareMore(result, part, kept[..k], kept[k], cuts);
      PartTidy(result, part, kept, k);
      result := result + part;
    }
    assert kept[..|kept|] == kept;
    SpareSame(result, kept, cuts, removals);
    return Ok(result);
  }

  lemma SpareSame(r: seq<Interval>, kept: seq<Interval>, a: seq<Interval>, b: seq<Interval>)
    requires SparedExactly(r, kept, a) && SameCover(a, b)
    ensures SparedExactly(r, kept, b)
  {
  }

  // ----- intersection with detected speech -----

  function CutOne(x: Interval, speech: seq<Interval>): (r: seq<Interval>)
    ensures Within(r, x.start, x.end)
    ensures forall t :: Covers(r, t) <==> In(x, t) && Covers(speech, t)
  {
    if speech == [] then []
    else
      var n := |speech| - 1;
      var y := speech[n];
      var before := CutOne(x, speech[..n]);
      var both := Interval(Later(x.start, y.start), Sooner(x.end, y.end));
      var r := if both.end > both.start then before + [both] else before;
      assert forall t :: Covers(r, t) <==> In(x, t) && Covers(speech, t) by {
        assert speech == speech[..n] + [y];
        forall t ensures Covers(r, t) <==> In(x, t) && Covers(speech, t) {
          CoversAppend(before, both, t);
          CoversAppend(speech[..n], y, t);
        }
      }
      r
  }

  /** The nonempty intersections of each interval with each stretch of speech, in that order. */
  function Intersect(intervals: seq<Interval>, speech: seq<Interval>): (r: seq<Interval>)
    ensures forall t :: Covers(r, t) <==> Covers(intervals, t) && Covers(speech, t)
  {
    if intervals == [] then []
    else
      var n := |intervals| - 1;
      var before, last := Intersect(intervals[..n], speech), CutOne(intervals[n], speech);
      assert forall t :: Covers(before + last, t) <==> Covers(intervals, t) && Covers(speech, t) by {
        assert intervals == intervals[..n] + [intervals[n]];
        forall t ensures Covers(before + last, t) <==> Covers(intervals, t) && Covers(speech, t) {
          CoversConcat(before, last, t);
          CoversAppend(intervals[..n], intervals[n], t);
        }
      }
      before + last
  }

  lemma {:induction false} CutOneTidy(x: Interval, speech: seq<Interval>)
    requires Tidy(speech)
    ensures Tidy(CutOne(x, speech))
    ensures speech != [] ==> EndBy(CutOne(x, speech), speech[|speech| - 1].end)
  {
    if speech != [] {
      var n := |speech| - 1;
      CutOneTidy(x, speech[..n]);
      var before := CutOne(x, speech[..n]);
      if n > 0 {
        assert speech[..n][n - 1].end <= speech[n].start;
      }
      var both := Interval(Later(x.start, speech[n].start), Sooner(x.end, speech[n].end));
      if both.end > both.start {
        TidyAppend(before, both);
      }
    }
  }

  lemma {:induction false} IntersectTidy(intervals: seq<Interval>, speech: seq<Interval>, low: real, high: real)
    requires Tidy(intervals) && Tidy(speech)
    ensures Tidy(Intersect(intervals, speech))
    ensures Within(intervals, low, high) ==> Within(Intersect(intervals, speech), low, high)
    ensures intervals != [] ==> EndBy(Intersect(intervals, speech), intervals[|intervals| - 1].end)
  {
    if intervals != [] {
      var n := |intervals| - 1;
      IntersectTidy(intervals[..n], speech, low, high);
      CutOneTidy(intervals[n], speech);
      if n > 0 {
        assert intervals[..n][n - 1].end <= intervals[n].start;
      }
      TidyConcat(Intersect(intervals[..n], speech), CutOne(intervals[n], speech), intervals[n].start);
    }
  }

  // ----- the composition -----

  datatype Filter = Off | Conservative | Strong | Silence3

  const PADDING := 0.2

  function Minimum(filter: Filter): real {
    match filter
    case Silence3 => 3.0
    case Strong => 5.0
    case _ => 10.0
  }

  /** What one run of preprocessing is given; `speech` is present when voice activity detection is on. */
  datatype Job = Job(lines: seq<Line>, duration: real, filter: Filter, vocalizations: seq<Interval>,
                     protected: seq<Interval>, speech: Option<seq<Interval>>)

  ghost predicate ValidJob(job: Job) {
    0.0 <= job.duration && (job.speech.Some? ==> Tidy(job.speech.value) && Within(job.speech.value, 0.0, job.duration))
  }

  ghost predicate Shielded(job: Job, t: real) {
    Covers(WidenedAll(job.protected, job.duration), t)
  }

  ghost predicate Quiet(job: Job, t: real) {
    Covers(AllRemoved(job.lines, job.duration, Minimum(job.filter), PADDING), t)
  }

  ghost predicate Vocal(job: Job, t: real) {
    Covers(Unprotected(job.vocalizations, WidenedAll(job.protected, job.duration)), t)
  }

  /** What the filter keeps: no silence except protected, and no vocalization that touches nothing protected. */
  ghost predicate Filtered(job: Job, t: real) {
    0.0 <= t < job.duration && (job.filter.Off? || ((!Quiet(job, t) || Shielded(job, t)) && !Vocal(job, t)))
  }

  ghost predicate Retained(job: Job, t: real) {
    Filtered(job, t) && (job.speech.Some? ==> Covers(job.speech.value, t))
  }

  ghost predicate BadBounds(job: Job) {
    !job.filter.Off? && !(AllValid(job.protected, job.duration) && AllValid(job.vocalizations, job.duration))
  }

  lemma {:induction false} UnprotectedApart(removals: seq<Interval>, protected: seq<Interval>, t: real)
    ensures Covers(Unprotected(removals, protected), t) ==> !Covers(protected, t)
  {
    if removals != [] {
      var n := |removals| - 1;
      UnprotectedApart(removals[..n], protected, t);
      var before := Unprotected(removals[..n], protected);
      CoversAppend(before, removals[n], t);
      if !Meets(removals[n], protected) && In(removals[n], t) {
        assert !Covers(protected, t);
      }
      assert before + [] == before;
    }
  }

  lemma {:induction false} UnprotectedValid(removals: seq<Interval>, protected: seq<Interval>, duration: real)
    requires AllValid(removals, duration)
    ensures AllValid(Unprotected(removals, protected), duration)
  {
    if removals != [] {
      UnprotectedValid(removals[..|removals| - 1], protected, duration);
    }
  }

  lemma UnprotectedNone(protected: seq<Interval>)
    ensures forall t :: !Covers(Unprotected([], protected), t)
  {
  }

  /** With a filter on: silence out, protected audio back in, vocalizations out. */
  method FilterIntervals(job: Job) returns (r: Result<seq<Interval>, BoundsError>)
    requires ValidJob(job) && !job.filter.Off?
    ensures r.Err? <==> BadBounds(job)
    ensures r.Ok? ==> Tidy(r.value) && Within(r.value, 0.0, job.duration)
    ensures r.Ok? ==> forall t :: Covers(r.value, t) <==> Filtered(job, t)
  {
    hide In, Covers, Tidy, Unprotected, AllRemoved, Widened, Meets, Apart;
    var intervals := KeptIntervals(job.lines, job.duration, Minimum(job.filter), PADDING);
    ghost var silent := intervals;
    TidyProper(intervals);
    if job.protected != [] {
      var merged := Protect(intervals, job.protected, job.duration);
      if merged.Err? {
        return merged;
      }
      intervals := merged.value;
      ApartTidy(intervals);
    }
    ghost var shielded := intervals;
    ghost var cuts := Unprotected(job.vocalizations, WidenedAll(job.protected, job.duration));
    if job.vocalizations != [] {
      var left := Exclude(job.vocalizations, job.protected, job.duration);
      if left.Err? {
        return left;
      }
      UnprotectedValid(job.vocalizations, WidenedAll(job.protected, job.duration), job.duration);
      var rest := Subtract(intervals, left.value, job.duration);
      intervals := rest.value;
    }
    forall t ensures Covers(intervals, t) <==> Filtered(job, t) {
      UnprotectedApart(job.vocalizations, WidenedAll(job.protected, job.duration), t);
      UnprotectedNone(WidenedAll(job.protected, job.duration));
      CoversConcat(silent, WidenedAll(job.protected, job.duration), t);
      WidenedInside(job, t);
      NoneShielded(job, t);
      assert Covers(silent, t) <==>
        Outside(AllRemoved(job.lines, job.duration, Minimum(job.filter), PADDING), 0.0, job.duration, t);
      assert Covers(shielded, t) <==> Covers(silent, t) || Shielded(job, t);
      assert job.vocalizations != [] ==> (Covers(intervals, t) <==> Spared(shielded, cuts, t));
    }
    return Ok(intervals);
  }

  lemma TidyProper(s: seq<Interval>)
    requires Tidy(s)
    ensures AllProper(s)
  {
  }

  lemma ApartTidy(s: seq<Interval>)
    requires Apart(s)
    ensures Tidy(s)
  {
  }

  lemma WidenedInside(job: Job, t: real)
    requires AllValid(job.protected, job.duration)
    ensures Shielded(job, t) ==> 0.0 <= t < job.duration
  {
  }

  lemma NoneShielded(job: Job, t: real)
    ensures job.protected == [] ==> !Shielded(job, t)
  {
  }

  lemma WholeClip(duration: real)
    ensures forall t :: Covers([Interval(0.0, duration)], t) <==> 0.0 <= t < duration
    ensures duration > 0.0 ==> Tidy([Interval(0.0, duration)])
  {
    forall t ensures Covers([Interval(0.0, duration)], t) <==> 0.0 <= t < duration {
      CoversAppend([], Interval(0.0, duration), t);
      assert [] + [Interval(0.0, duration)] == [Interval(0.0, duration)];
    }
  }

  /** The interval composition of `preprocess_audio`, described instant by instant. */
  method PreprocessIntervals(job: Job) returns (r: Result<seq<Interval>, BoundsError>)
    requires ValidJob(job)
    ensures r.Err? <==> BadBounds(job)
    ensures r.Ok? ==> Within(r.value, 0.0, job.duration) && (job.duration > 0.0 ==> Tidy(r.value))
    ensures r.Ok? ==> forall t :: Covers(r.value, t) <==> Retained(job, t)
  {
    hide In, Covers, Tidy, Quiet, Shielded, Vocal;
    var intervals := [Interval(0.0, job.duration)];
    if job.filter.Off? {
      WholeClip(job.duration);
    } else {
      var filtered := FilterIntervals(job);
      if filtered.Err? {
        return filtered;
      }
      intervals := filtered.value;
    }
    if job.speech.Some? {
      if job.duration > 0.0 {
        IntersectTidy(intervals, job.speech.value, 0.0, job.duration);
      } else {
        IntersectWithin(intervals, job.speech.value, 0.0, job.duration);
      }
      intervals := Intersect(intervals, job.speech.value);
    }
    return Ok(intervals);
  }

  lemma {:induction false} IntersectWithin(intervals: seq<Interval>, speech: seq<Interval>, low: real, high: real)
    requires Within(intervals, low, high)
    ensures Within(Intersect(intervals, speech), low, high)
  {
    if intervals != [] {
      IntersectWithin(intervals[..|intervals| - 1], speech, low, high);
    }
  }

  /** Protected audio survives: with detection off, no protected instant and none within 0.3 seconds of one is lost. */
  lemma ProtectedSurvives(job: Job, result: seq<Interval>, t: real)
    requires ValidJob(job) && job.speech.None? && AllValid(job.protected, job.duration)
    requires forall u :: Covers(result, u) <==> Retained(job, u)
    requires exists k :: 0 <= k < |job.protected| && NearBy(job.protected[k], t) && 0.0 <= t < job.duration
    ensures Covers(result, t)
  {
    var k :| 0 <= k < |job.protected| && NearBy(job.protected[k], t);
    assert In(WidenedAll(job.protected, job.duration)[k], t);
    UnprotectedApart(job.vocalizations, WidenedAll(job.protected, job.duration), t);
  }

  predicate NearBy(x: Interval, t: real) {
    x.start - MARGIN <= t < x.end + MARGIN
  }
}
