/** Which instants of the audio preprocessing removes, in the numbers of log, protected ranges and frames. */
module AudioMeanings {
  import opened Wrappers
  import opened Intervals
  import opened Preprocess
  import V = Vad

  // ----- silence -----

  /** A time of the log, or none for a silence that has no end, as a time of the clip. */
  function InClip(at: Option<real>, duration: real): real {
    if at.None? || at.value >= duration then duration else if at.value <= 0.0 then 0.0 else at.value
  }

  /** The log reports silence from a to b: a start and the next end with no other report between, or no end at all. */
  ghost predicate Silent(lines: seq<Line>, duration: real, i: nat, j: nat, a: real, b: real) {
    && i < j <= |lines| && lines[i].SilenceStart? && (forall k :: i < k < j ==> lines[k].Other?)
    && a == InClip(Some(lines[i].at), duration)
    && (j < |lines| ==> lines[j].SilenceEnd? && b == InClip(Some(lines[j].at), duration))
    && (j == |lines| ==> b == duration)
  }

  ghost predicate InSilence(lines: seq<Line>, duration: real, t: real) {
    exists i: nat, j: nat, a: real, b: real :: Silent(lines, duration, i, j, a, b) && a <= t < b
  }

  /** Deep inside a silence that is long enough. */
  ghost predicate DeepInSilence(lines: seq<Line>, duration: real, minimum: real, padding: real, t: real) {
    exists i: nat, j: nat, a: real, b: real ::
      Silent(lines, duration, i, j, a, b) && b - a >= minimum && a + padding <= t < b - padding
  }

  lemma SilentTimes(lines: seq<Line>, duration: real, i: nat, j: nat)
    requires 0.0 <= duration && Silence(lines, i, j)
    ensures Silent(lines, duration, i, j, TimeAt(lines, i, duration), TimeAt(lines, j, duration))
  {
  }

  lemma SilentIs(lines: seq<Line>, duration: real, i: nat, j: nat, a: real, b: real)
    requires 0.0 <= duration && Silent(lines, duration, i, j, a, b)
    ensures Silence(lines, i, j) && a == TimeAt(lines, i, duration) && b == TimeAt(lines, j, duration)
  {
  }

  /** An instant is removed if and only if it lies, up to the padding, inside a silence of at least the minimum. */
  lemma RemovedExactly(lines: seq<Line>, duration: real, minimum: real, padding: real, t: real)
    requires 0.0 <= duration
    ensures Covers(AllRemoved(lines, duration, minimum, padding), t)
      <==> DeepInSilence(lines, duration, minimum, padding, t)
  {
    hide AllRemoved, TimeAt, Silent, Silence;
    var removed := AllRemoved(lines, duration, minimum, padding);
    if Covers(removed, t) {
      var k :| 0 <= k < |removed| && In(removed[k], t);
      AllRemovedMeaning(lines, removed[k], duration, minimum, padding);
      var j: nat :| j <= |lines| && FromSilence(lines, removed[k], j, duration, minimum, padding);
      var i: nat :| Silence(lines, i, j) && Shortened(lines, i, j, duration, minimum, padding) == [removed[k]];
      SilentTimes(lines, duration, i, j);
      assert [removed[k]][0] == Shortened(lines, i, j, duration, minimum, padding)[0];
    }
    if DeepInSilence(lines, duration, minimum, padding, t) {
      var i: nat, j: nat, a: real, b: real :|
        Silent(lines, duration, i, j, a, b) && b - a >= minimum && a + padding <= t < b - padding;
      SilentIs(lines, duration, i, j, a, b);
      SilenceEnds(lines, i, j);
      var x := Interval(a + padding, b - padding);
      assert Shortened(lines, i, j, duration, minimum, padding) == [x];
      assert FromSilence(lines, x, j, duration, minimum, padding);
      AllRemovedMeaning(lines, x, duration, minimum, padding);
      var k :| 0 <= k < |removed| && removed[k] == x;
      assert In(removed[k], t);
    }
  }

  lemma SilenceEnds(lines: seq<Line>, i: nat, j: nat)
    requires Silence(lines, i, j)
    ensures j <= |lines|
  {
  }

  /** What each filter takes for a long silence, in seconds. */
  predicate LongSilence(filter: Filter, minimum: real) {
    match filter
    case Silence3 => minimum == 3.0
    case Strong => minimum == 5.0
    case Conservative => minimum == 10.0
    case Off => false
  }

  /** The silence that a filter removes: 0.2 seconds inside a silence of at least 3, 5 or 10 seconds. */
  lemma QuietExactly(job: Job, minimum: real, t: real)
    requires ValidJob(job) && LongSilence(job.filter, minimum)
    ensures Quiet(job, t) <==> DeepInSilence(job.lines, job.duration, minimum, 0.2, t)
  {
    RemovedExactly(job.lines, job.duration, minimum, 0.2, t);
  }

  /** Sound keeps its margin: no instant within 0.2 seconds of one outside all silences is removed as silence. */
  lemma MarginSurvives(job: Job, t: real, u: real)
    requires ValidJob(job) && !job.filter.Off?
    requires 0.0 <= t < job.duration && -0.2 <= t - u <= 0.2 && !InSilence(job.lines, job.duration, u)
    ensures !Quiet(job, t)
    ensures Filtered(job, t) <==> !Vocal(job, t)
  {
    var minimum := Minimum(job.filter);
    QuietExactly(job, minimum, t);
    forall i: nat, j: nat, a: real, b: real | Silent(job.lines, job.duration, i, j, a, b)
      ensures !(a + 0.2 <= t < b - 0.2)
    {
      assert a + 0.2 <= t < b - 0.2 ==> a <= u < b;
    }
  }

  // ----- protected audio and vocalizations -----

  /** Within 0.3 seconds of a protected range, inside the clip. */
  ghost predicate NearProtected(job: Job, t: real) {
    0.0 <= t < job.duration
    && exists k :: 0 <= k < |job.protected| && job.protected[k].start - 0.3 <= t < job.protected[k].end + 0.3
  }

  lemma ShieldedExactly(job: Job, t: real)
    requires AllValid(job.protected, job.duration)
    ensures Shielded(job, t) <==> NearProtected(job, t)
  {
    var wide := WidenedAll(job.protected, job.duration);
    forall k | 0 <= k < |wide|
      ensures In(wide[k], t) <==>
        0.0 <= t < job.duration && job.protected[k].start - 0.3 <= t < job.protected[k].end + 0.3
    {
      assert ValidBounds(job.protected[k], job.duration);
    }
    if NearProtected(job, t) {
      var k :| 0 <= k < |job.protected| && job.protected[k].start - 0.3 <= t < job.protected[k].end + 0.3;
      assert In(wide[k], t);
    }
  }

  /** In a vocalization of which no instant lies within 0.3 seconds of a protected range. */
  ghost predicate InFreeVocalization(job: Job, t: real) {
    exists k :: 0 <= k < |job.vocalizations| && In(job.vocalizations[k], t) && Free(job, job.vocalizations[k])
  }

  ghost predicate Free(job: Job, x: Interval) {
    forall u :: In(x, u) ==> !NearProtected(job, u)
  }

  /** The instant lies in the k-th removal, which has no protected instant. */
  ghost predicate FreeAt(removals: seq<Interval>, protected: seq<Interval>, t: real, k: int) {
    0 <= k < |removals| && In(removals[k], t) && !Meets(removals[k], protected)
  }

  lemma UnprotectedLast(removals: seq<Interval>, protected: seq<Interval>)
    requires removals != []
    ensures var n := |removals| - 1;
      Unprotected(removals, protected)
        == Unprotected(removals[..n], protected) + if Meets(removals[n], protected) then [] else [removals[n]]
  {
    hide Meets;
  }

  lemma {:induction false} UnprotectedExactly(removals: seq<Interval>, protected: seq<Interval>, t: real)
    ensures Covers(Unprotected(removals, protected), t) <==> exists k :: FreeAt(removals, protected, t, k)
  {
    hide In, Meets, Covers, Unprotected;
    if removals == [] {
      NoneCovers(protected, t);
    } else {
      var n := |removals| - 1;
      var before := Unprotected(removals[..n], protected);
      UnprotectedExactly(removals[..n], protected, t);
      UnprotectedLast(removals, protected);
      CoversAppend(before, removals[n], t);
      assert before + [] == before;
      assert forall k :: k < n ==> (FreeAt(removals, protected, t, k) <==> FreeAt(removals[..n], protected, t, k));
      assert FreeAt(removals, protected, t, n) <==> In(removals[n], t) && !Meets(removals[n], protected);
    }
  }

  lemma NoneCovers(protected: seq<Interval>, t: real)
    ensures !Covers(Unprotected([], protected), t)
  {
  }

  lemma FreeExactly(job: Job, x: Interval)
    requires AllValid(job.protected, job.duration)
    ensures Free(job, x) <==> !Meets(x, WidenedAll(job.protected, job.duration))
  {
    hide In, NearProtected;
    forall u ensures Covers(WidenedAll(job.protected, job.duration), u) <==> NearProtected(job, u) {
      ShieldedExactly(job, u);
    }
  }

  lemma VocalExactly(job: Job, t: real)
    requires AllValid(job.protected, job.duration)
    ensures Vocal(job, t) <==> InFreeVocalization(job, t)
  {
    hide In, Unprotected, Free, Meets;
    var wide := WidenedAll(job.protected, job.duration);
    UnprotectedExactly(job.vocalizations, wide, t);
    forall k | 0 <= k < |job.vocalizations|
      ensures FreeAt(job.vocalizations, wide, t, k)
        <==> In(job.vocalizations[k], t) && Free(job, job.vocalizations[k])
    {
      FreeExactly(job, job.vocalizations[k]);
    }
    if InFreeVocalization(job, t) {
      var k :| 0 <= k < |job.vocalizations| && In(job.vocalizations[k], t) && Free(job, job.vocalizations[k]);
      assert FreeAt(job.vocalizations, wide, t, k);
    }
  }

  /**
   The instants that preprocessing retains, in plain numbers: with a filter, those not 0.2 seconds deep in a long
   silence, or within 0.3 seconds of a protected range, and in no vocalization that is clear of all of those; and in
   any case only detected speech, if detection is on.
   */
  lemma RetainedExactly(job: Job, minimum: real, t: real)
    requires ValidJob(job) && (job.filter.Off? || (LongSilence(job.filter, minimum) && !BadBounds(job)))
    ensures Retained(job, t) <==>
      && 0.0 <= t < job.duration
      && (job.filter.Off? ||
            ((!DeepInSilence(job.lines, job.duration, minimum, 0.2, t) || NearProtected(job, t))
             && !InFreeVocalization(job, t)))
      && (job.speech.Some? ==> Covers(job.speech.value, t))
  {
    hide Quiet, Shielded, Vocal, DeepInSilence, NearProtected, InFreeVocalization;
    if !job.filter.Off? {
      QuietExactly(job, minimum, t);
      ShieldedExactly(job, t);
      VocalExactly(job, t);
    }
  }

  /** The interval is empty, or not within the clip. */
  predicate OutOfBounds(x: Interval, duration: real) {
    x.start < 0.0 || x.end <= x.start || duration < x.end
  }

  /** The bounds that preprocessing refuses, with a filter on: those of any such range, protected or a vocalization. */
  lemma BoundsExactly(job: Job)
    ensures BadBounds(job) <==>
      && !job.filter.Off?
      && (|| (exists k :: 0 <= k < |job.protected| && OutOfBounds(job.protected[k], job.duration))
          || (exists k :: 0 <= k < |job.vocalizations| && OutOfBounds(job.vocalizations[k], job.duration)))
  {
    hide ValidBounds, OutOfBounds;
    RangesExactly(job.protected, job.duration);
    RangesExactly(job.vocalizations, job.duration);
  }

  lemma RangesExactly(s: seq<Interval>, duration: real)
    ensures AllValid(s, duration) <==> forall k :: 0 <= k < |s| ==> !OutOfBounds(s[k], duration)
  {
    assert forall k :: 0 <= k < |s| ==> (ValidBounds(s[k], duration) <==> !OutOfBounds(s[k], duration));
  }

  // ----- voice activity -----

  /** The time of a frame: 80 milliseconds each, and never past the end. */
  function FrameTime(i: nat, duration: real): real {
    if i as real * 0.08 < duration then i as real * 0.08 else duration
  }

  /** In frame i speech is on since the value of frame j, at least 0.3, and no value below 0.15 has ended it. */
  ghost predicate OnSince(p: seq<real>, j: int, i: nat)
    requires i < |p|
  {
    0 <= j <= i && p[j] >= 0.3 && forall m :: j < m <= i ==> p[m] >= 0.15
  }

  /** Speech is on in frame i; at the end it counts as on. */
  ghost predicate SpeechAt(p: seq<real>, i: nat) {
    i == |p| || (i < |p| && exists j :: OnSince(p, j, i))
  }

  /** No speech from frame i up to frame j, where it begins again. */
  ghost predicate QuietRun(p: seq<real>, i: nat, j: nat) {
    && i < j <= |p|
    && (i == 0 || SpeechAt(p, i - 1)) && SpeechAt(p, j)
    && forall m: nat :: i <= m < j ==> !SpeechAt(p, m)
  }

  lemma {:induction false} LoudMeaning(q: seq<real>, i: nat)
    requires i < |q|
    ensures V.Loud(q, i + 1, 0.3, 0.15) <==> exists j :: OnSince(q, j, i)
  {
    assert OnSince(q, i, i) <==> q[i] >= 0.3;
    if i > 0 {
      LoudMeaning(q, i - 1);
      var before: nat := i - 1;
      assert forall j | j < i :: OnSince(q, j, i) <==> OnSince(q, j, before) && q[i] >= 0.15;
      if exists j :: OnSince(q, j, before) && q[i] >= 0.15 {
        var j :| OnSince(q, j, before);
        assert OnSince(q, j, i);
      }
    }
  }

  lemma SpeechExactly(p: seq<real>, i: nat)
    requires i <= |p|
    ensures V.Speech(V.Framed(p), i) <==> SpeechAt(p, i)
  {
    var q := V.Framed(p);
    LoudMeaning(q, i);
    assert forall m :: 0 <= m < |p| ==> q[m] == p[m];
    if i < |p| {
      assert forall j :: OnSince(q, j, i) <==> OnSince(p, j, i);
    } else {
      assert OnSince(q, i, i);
    }
  }

  lemma RunExactly(p: seq<real>, i: nat, j: nat)
    ensures V.Run(V.Framed(p), i, j) <==> QuietRun(p, i, j)
  {
    hide V.Speech, SpeechAt;
    forall m: nat | m <= |p| ensures V.Speech(V.Framed(p), m) <==> SpeechAt(p, m) {
      SpeechExactly(p, m);
    }
  }

  /** At least 0.3 seconds inside three or more seconds without speech. */
  ghost predicate DeepInQuiet(p: seq<real>, i: nat, j: nat, duration: real, t: real) {
    && QuietRun(p, i, j)
    && FrameTime(j, duration) - FrameTime(i, duration) >= 3.0
    && FrameTime(i, duration) + 0.3 <= t < FrameTime(j, duration) - 0.3
  }

  /** Voice activity drops exactly what lies 0.3 seconds inside at least three seconds without speech. */
  lemma VadDropsExactly(p: seq<real>, duration: real, t: real)
    ensures V.Dropped(p, duration, t) <==> exists i: nat, j: nat :: DeepInQuiet(p, i, j, duration, t)
  {
    hide V.Dropped, V.Run, QuietRun;
    V.DroppedMeaning(p, duration, t);
    forall i: nat, j: nat ensures V.DeepQuiet(p, i, j, duration, t) <==> DeepInQuiet(p, i, j, duration, t) {
      RunExactly(p, i, j);
    }
  }

  /** What is accepted: probabilities, one for each 80 milliseconds that begin before the end. */
  lemma FramesExactly(p: seq<real>, duration: real)
    ensures V.RightFrames(p, duration) && V.Probabilities(p) <==>
      && duration > 0.0 && |p| as real - 1.0 < duration / 0.08 - 0.000000001 <= |p| as real
      && forall k :: 0 <= k < |p| ==> 0.0 <= p[k] <= 1.0
  {
  }
}
