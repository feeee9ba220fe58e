/** `copy_audio_intervals` on frames, the timeline it returns, and the windows that transcription cuts from it. */
module AudioCopy {
  import opened Wrappers
  import opened Rounding
  import opened Intervals
  import opened Timeline

  // ----- seconds and frames -----

  function Times(x: real, r: real): real {
    x * r
  }

  /** The frame nearest to a time. */
  function Tick(seconds: real, rate: nat): int {
    HalfEven(Times(seconds, rate as real))
  }

  /** The time of a frame, or the length of some frames. */
  function Sec(frames: int, rate: nat): real
    requires rate > 0
  {
    frames as real / rate as real
  }

  lemma TimesMonotone(x: real, y: real, r: real)
    requires x <= y && 0.0 <= r
    ensures x * r <= y * r && Times(x, r) <= Times(y, r)
  {
    assert (y - x) * r >= 0.0;
  }

  lemma TickMonotone(x: real, y: real, rate: nat)
    requires x <= y
    ensures Tick(x, rate) <= Tick(y, rate)
  {
    hide Times;
    TimesMonotone(x, y, rate as real);
    HalfEvenMonotone(Times(x, rate as real), Times(y, rate as real));
  }

  lemma SecTimes(n: int, rate: nat)
    requires rate > 0
    ensures Sec(n, rate) * rate as real == n as real
  {
    DivideTimes(n as real, rate as real);
  }

  lemma DivideTimes(x: real, r: real)
    requires r > 0.0
    ensures (x / r) * r == x
  {
  }

  lemma Cancel(x: real, y: real, r: real)
    requires r > 0.0
    ensures x * r < y * r ==> x < y
    ensures x * r == y * r ==> x == y
  {
    if x >= y {
      TimesMonotone(y, x, r);
    }
    if x > y {
      assert (x - y) * r > 0.0;
    } else if x < y {
      assert (y - x) * r > 0.0;
    }
  }

  lemma TickOfSec(n: int, rate: nat)
    requires rate > 0
    ensures Tick(Sec(n, rate), rate) == n
  {
    SecTimes(n, rate);
    HalfEvenOfInt(n);
  }

  lemma SecZero(rate: nat)
    requires rate > 0
    ensures Sec(0, rate) == 0.0
  {
  }

  lemma SecAdd(a: int, b: int, rate: nat)
    requires rate > 0
    ensures Sec(a + b, rate) == Sec(a, rate) + Sec(b, rate)
  {
    var r := rate as real;
    SecTimes(a, rate);
    SecTimes(b, rate);
    SecTimes(a + b, rate);
    assert (Sec(a, rate) + Sec(b, rate)) * r == Sec(a, rate) * r + Sec(b, rate) * r;
    Cancel(Sec(a + b, rate), Sec(a, rate) + Sec(b, rate), r);
  }

  lemma SecMonotone(a: int, b: int, rate: nat)
    requires rate > 0
    ensures a <= b <==> Sec(a, rate) <= Sec(b, rate)
    ensures a < b <==> Sec(a, rate) < Sec(b, rate)
  {
    hide Sec;
    var r := rate as real;
    SecTimes(a, rate);
    SecTimes(b, rate);
    Cancel(Sec(a, rate), Sec(b, rate), r);
    Cancel(Sec(b, rate), Sec(a, rate), r);
  }

  // ----- intervals on the frame grid -----

  datatype Frames = Frames(first: nat, last: nat)

  function Grid(x: Interval, rate: nat, total: nat): Option<Frames> {
    var first, last := Tick(x.start, rate), Tick(x.end, rate);
    var low := if first > 0 then first else 0;
    var high := if last < total then last else total;
    if high <= low then None else Some(Frames(low, high))
  }

  /** The frame whose time is the nearest, the even one of two that are equally near. */
  predicate Nearest(frame: int, seconds: real, rate: nat) {
    var off := frame as real - seconds * rate as real;
    -0.5 <= off <= 0.5 && (off == 0.5 || off == -0.5 ==> frame % 2 == 0)
  }

  predicate Copies(x: Interval, rate: nat, total: nat, f: nat) {
    Grid(x, rate, total).Some? && Grid(x, rate, total).value.first <= f < Grid(x, rate, total).value.last
  }

  /** An interval is copied from its nearest first frame up to its nearest last one, as far as there is audio. */
  lemma GridNearest(x: Interval, rate: nat, total: nat) returns (first: int, last: int)
    ensures Nearest(first, x.start, rate) && Nearest(last, x.end, rate)
    ensures forall f: nat :: Copies(x, rate, total, f) <==> first <= f < last && f < total
  {
    first, last := Tick(x.start, rate), Tick(x.end, rate);
    assert Times(x.start, rate as real) == x.start * rate as real;
    assert Times(x.end, rate as real) == x.end * rate as real;
  }

  function GridAll(intervals: seq<Interval>, rate: nat, total: nat): (r: seq<Frames>)
    ensures Inside(r, total)
  {
    if intervals == [] then []
    else
      var n := |intervals| - 1;
      var x := Grid(intervals[n], rate, total);
      GridAll(intervals[..n], rate, total) + if x.Some? then [x.value] else []
  }

  ghost predicate InGrid(frames: seq<Frames>, f: nat) {
    exists k :: 0 <= k < |frames| && frames[k].first <= f < frames[k].last
  }

  /** The frames that are copied are those of every interval, and no others. */
  lemma {:induction false} GridAllExactly(intervals: seq<Interval>, rate: nat, total: nat, f: nat)
    ensures InGrid(GridAll(intervals, rate, total), f)
      <==> exists i :: 0 <= i < |intervals| && Copies(intervals[i], rate, total, f)
  {
    hide Grid;
    if intervals != [] {
      var n := |intervals| - 1;
      GridAllExactly(intervals[..n], rate, total, f);
      assert forall i :: 0 <= i < n ==> intervals[..n][i] == intervals[i];
      var before, all := GridAll(intervals[..n], rate, total), GridAll(intervals, rate, total);
      assert forall k :: 0 <= k < |before| ==> all[k] == before[k];
      if Copies(intervals[n], rate, total, f) {
        assert all[|before|] == Grid(intervals[n], rate, total).value;
      }
    }
  }

  ghost predicate Inside(frames: seq<Frames>, total: nat) {
    forall k :: 0 <= k < |frames| ==> frames[k].first < frames[k].last <= total
  }

  function Copied<T>(audio: seq<T>, frames: seq<Frames>): seq<T>
    requires Inside(frames, |audio|)
  {
    if frames == [] then []
    else
      var n := |frames| - 1;
      Copied(audio, frames[..n]) + audio[frames[n].first..frames[n].last]
  }

  function OnClock(f: Frames, rate: nat): Interval
    requires rate > 0
  {
    Interval(Sec(f.first, rate), Sec(f.last, rate))
  }

  function AllOnClock(frames: seq<Frames>, rate: nat): (r: seq<Interval>)
    requires rate > 0
    ensures |r| == |frames| && forall k :: 0 <= k < |r| ==> r[k] == OnClock(frames[k], rate)
  {
    seq(|frames|, k requires 0 <= k < |frames| => OnClock(frames[k], rate))
  }

  lemma CopiedAppend<T>(audio: seq<T>, frames: seq<Frames>, f: Frames, rate: nat)
    requires Inside(frames, |audio|) && f.first < f.last <= |audio| && rate > 0
    ensures Inside(frames + [f], |audio|)
    ensures Copied(audio, frames + [f]) == Copied(audio, frames) + audio[f.first..f.last]
    ensures AllOnClock(frames + [f], rate) == AllOnClock(frames, rate) + [OnClock(f, rate)]
  {
    assert (frames + [f])[..|frames|] == frames;
  }

  lemma GridNext(intervals: seq<Interval>, k: nat, rate: nat, total: nat)
    requires k < |intervals|
    ensures var before, x := GridAll(intervals[..k], rate, total), Grid(intervals[k], rate, total);
      GridAll(intervals[..k + 1], rate, total) == if x.Some? then before + [x.value] else before
  {
    assert intervals[..k + 1][..k] == intervals[..k];
  }

  /** Copies each interval in pieces of at most a second, and returns the timeline of what was copied. */
  method CopyIntervals<T>(audio: array<T>, rate: nat, intervals: seq<Interval>)
    returns (output: seq<T>, spans: seq<Span>)
    requires rate > 0
    ensures output == Copied(audio[..], GridAll(intervals, rate, audio.Length))
    ensures spans == SpansOf(Ordered(AllOnClock(GridAll(intervals, rate, audio.Length), rate)))
  {
    hide Tick, Sec, Ordered, SpansOf, GridAll, Copied;
    output := [];
    var actual: seq<Interval> := [];
    NoGrid(audio[..], rate, audio.Length);
    for k := 0 to |intervals|
      invariant output == Copied(audio[..], GridAll(intervals[..k], rate, audio.Length))
      invariant actual == AllOnClock(GridAll(intervals[..k], rate, audio.Length), rate)
    {
      GridNext(intervals, k, rate, audio.Length);
      var first, last := Tick(intervals[k].start, rate), Tick(intervals[k].end, rate);
      first := if first > 0 then first else 0;
      last := if last < audio.Length then last else audio.Length;
      if last <= first {
        continue;
      }
      CopiedAppend(audio[..], GridAll(intervals[..k], rate, audio.Length), Frames(first, last), rate);
      var block := ReadFrames(audio, rate, first, last);
      output := output + block;
      actual := actual + [Interval(Sec(first, rate), Sec(last, rate))];
    }
    assert intervals[..|intervals|] == intervals;
    spans := BuildTimeline(actual);
  }

  lemma NoGrid<T>(audio: seq<T>, rate: nat, total: nat)
    ensures GridAll([], rate, total) == [] && Copied(audio, []) == []
  {
  }

  method ReadFrames<T>(audio: array<T>, rate: nat, first: nat, last: nat) returns (block: seq<T>)
    requires rate > 0 && first <= last <= audio.Length
    ensures block == audio[first..last]
  {
    block := [];
    var position, remaining := first, last - first;
    while remaining != 0
      invariant 0 <= remaining && first <= position && position + remaining == last
      invariant block == audio[first..position]
    {
      var frames := if remaining < rate then remaining else rate;
      block := block + audio[position..position + frames];
      position := position + frames;
      remaining := remaining - frames;
    }
  }

  // ----- the copy refines the map -----

  ghost predicate InOrder(frames: seq<Frames>) {
    forall j, k :: 0 <= j < k < |frames| ==> frames[j].last <= frames[k].first
  }

  ghost predicate Before(frames: seq<Frames>, bound: nat) {
    forall k :: 0 <= k < |frames| ==> frames[k].last <= bound
  }

  lemma {:induction false} GridBefore(intervals: seq<Interval>, rate: nat, total: nat, y: Interval)
    requires Grid(y, rate, total).Some? && EndBy(intervals, y.start)
    ensures Before(GridAll(intervals, rate, total), Grid(y, rate, total).value.first)
  {
    hide Tick;
    if intervals != [] {
      var n := |intervals| - 1;
      GridBefore(intervals[..n], rate, total, y);
      TickMonotone(intervals[n].end, y.start, rate);
    }
  }

  /** Rounding to frames keeps sorted, disjoint intervals sorted and disjoint. */
  lemma {:induction false} GridInOrder(intervals: seq<Interval>, rate: nat, total: nat)
    requires Tidy(intervals)
    ensures InOrder(GridAll(intervals, rate, total))
  {
    hide Grid;
    if intervals != [] {
      var n := |intervals| - 1;
      GridInOrder(intervals[..n], rate, total);
      if Grid(intervals[n], rate, total).Some? {
        GridBefore(intervals[..n], rate, total, intervals[n]);
      }
    }
  }

  ghost predicate Solid(frames: seq<Frames>, total: nat) {
    InOrder(frames) && Inside(frames, total)
  }

  lemma SolidTidy(frames: seq<Frames>, total: nat, rate: nat)
    requires Solid(frames, total) && rate > 0
    ensures Tidy(AllOnClock(frames, rate))
    ensures forall k :: 0 <= k < |frames| ==> 0.0 <= AllOnClock(frames, rate)[k].start
  {
    hide Sec;
    SecZero(rate);
    forall k | 0 <= k < |frames|
      ensures Sec(frames[k].first, rate) < Sec(frames[k].last, rate) && 0.0 <= Sec(frames[k].first, rate)
    {
      SecMonotone(frames[k].first, frames[k].last, rate);
      SecMonotone(0, frames[k].first, rate);
    }
    forall j, k | 0 <= j < k < |frames| ensures Sec(frames[j].last, rate) <= Sec(frames[k].first, rate) {
      SecMonotone(frames[j].last, frames[k].first, rate);
    }
  }

  /** The number of frames in the ranges. */
  function Count(frames: seq<Frames>): int {
    if frames == [] then 0
    else
      var n := |frames| - 1;
      Count(frames[..n]) + (frames[n].last - frames[n].first)
  }

  lemma {:induction false} CopiedLength<T>(audio: seq<T>, frames: seq<Frames>)
    requires Inside(frames, |audio|)
    ensures |Copied(audio, frames)| == Count(frames)
  {
    if frames != [] {
      CopiedLength(audio, frames[..|frames| - 1]);
    }
  }

  function GridSpan(offset: int, f: Frames, rate: nat): Span
    requires rate > 0
  {
    Span(Sec(offset, rate), Sec(offset + (f.last - f.first), rate), Sec(f.first, rate), Sec(f.last, rate))
  }

  lemma {:induction false} LengthOnGrid(frames: seq<Frames>, total: nat, rate: nat)
    requires Solid(frames, total) && rate > 0
    ensures Length(AllOnClock(frames, rate)) == Sec(Count(frames), rate)
  {
    hide Sec;
    if frames == [] {
      SecZero(rate);
    } else {
      var n := |frames| - 1;
      var f := frames[n];
      LengthOnGrid(frames[..n], total, rate);
      assert AllOnClock(frames, rate)[..n] == AllOnClock(frames[..n], rate);
      SecMonotone(f.first, f.last, rate);
      SecAdd(f.first, f.last - f.first, rate);
      SecAdd(Count(frames[..n]), f.last - f.first, rate);
    }
  }

  lemma SpansOnGrid(frames: seq<Frames>, total: nat, rate: nat)
    requires Solid(frames, total) && rate > 0 && frames != []
    ensures var n := |frames| - 1;
      SpansOf(AllOnClock(frames, rate))
        == SpansOf(AllOnClock(frames[..n], rate)) + [GridSpan(Count(frames[..n]), frames[n], rate)]
  {
    hide Sec;
    var n := |frames| - 1;
    var f := frames[n];
    assert AllOnClock(frames, rate)[..n] == AllOnClock(frames[..n], rate);
    LengthOnGrid(frames[..n], total, rate);
    SecMonotone(f.first, f.last, rate);
    SecAdd(f.first, f.last - f.first, rate);
    SecAdd(Count(frames[..n]), f.last - f.first, rate);
  }

  /** The timeline of a copy: in order on both clocks, without gaps on the processed one, as long as the output. */
  lemma CopyTimeline<T>(audio: seq<T>, frames: seq<Frames>, rate: nat)
    requires Solid(frames, |audio|) && rate > 0
    ensures Ordered(AllOnClock(frames, rate)) == AllOnClock(frames, rate)
    ensures var spans := SpansOf(AllOnClock(frames, rate));
      Chained(spans) && |spans| == |frames| && Total(spans) == Sec(|Copied(audio, frames)|, rate)
  {
    hide Sec;
    SolidTidy(frames, |audio|, rate);
    OrderedIdentity(AllOnClock(frames, rate));
    TidyChained(AllOnClock(frames, rate));
    LengthOnGrid(frames, |audio|, rate);
    CopiedLength(audio, frames);
  }

  lemma FrameStep(gap: int, rate: nat)
    requires 0 <= gap && 0 < rate <= 100000000
    ensures Sec(gap, rate) == 0.0 || Sec(gap, rate) >= CONTIGUOUS
  {
    if gap > 0 {
      var r := rate as real;
      var step := Sec(gap, rate);
      assert step * r == gap as real >= 1.0;
      TimesMonotone(r, 100000000.0, CONTIGUOUS);
      Cancel(CONTIGUOUS, step, r);
    }
  }

  /** Spans of a copy touch or are at least a frame apart. */
  lemma CopySpaced(frames: seq<Frames>, total: nat, rate: nat)
    requires Solid(frames, total) && 0 < rate <= 100000000
    ensures Spaced(SpansOf(AllOnClock(frames, rate)))
  {
    hide Sec, Chained;
    var clock := AllOnClock(frames, rate);
    SolidTidy(frames, total, rate);
    TidyChained(clock);
    forall k | 0 < k < |clock|
      ensures clock[k].start == clock[k - 1].end || clock[k].start - clock[k - 1].end >= CONTIGUOUS
    {
      SecAdd(frames[k - 1].last, frames[k].first - frames[k - 1].last, rate);
      FrameStep(frames[k].first - frames[k - 1].last, rate);
    }
  }

  ghost predicate Mapped<T>(audio: seq<T>, output: seq<T>, spans: seq<Span>, rate: nat, p: nat, f: int)
    requires rate > 0
  {
    p < |output| && 0 <= f < |audio| && output[p] == audio[f] && MapTime(Sec(p, rate), spans, false) == Sec(f, rate)
  }

  /** The instant of output frame p lies in the span, and the span maps it to source frame f. */
  predicate Carries(s: Span, rate: nat, p: int, f: int)
    requires rate > 0
  {
    && s.processedStart <= Sec(p, rate) < s.processedEnd
    && s.originalStart + (Sec(p, rate) - s.processedStart) == Sec(f, rate)
  }

  lemma GridCarries(offset: int, f: Frames, rate: nat, p: int)
    requires rate > 0 && offset <= p < offset + (f.last - f.first)
    ensures Carries(GridSpan(offset, f, rate), rate, p, f.first + (p - offset))
  {
    hide Sec;
    SecMonotone(offset, p, rate);
    SecMonotone(p, offset + (f.last - f.first), rate);
    SecAdd(offset, p - offset, rate);
    SecAdd(f.first, p - offset, rate);
  }

  /** Output frame p is the source frame that the map sends it to. */
  ghost predicate FromMap<T>(audio: seq<T>, output: seq<T>, spans: seq<Span>, rate: nat, p: nat)
    requires rate > 0
  {
    exists f :: Mapped(audio, output, spans, rate, p, f)
  }

  lemma SolidParts(frames: seq<Frames>, total: nat)
    requires Solid(frames, total) && frames != []
    ensures var n := |frames| - 1; Solid(frames[..n], total) && frames[n].first < frames[n].last <= total
  {
  }

  lemma SolidInside(frames: seq<Frames>, total: nat)
    requires Solid(frames, total)
    ensures Inside(frames, total)
  {
  }

  /** A frame of the copy comes from the earlier ranges or from the last one. */
  lemma CopiedAt<T>(audio: seq<T>, frames: seq<Frames>, p: nat)
    requires Inside(frames, |audio|) && frames != [] && p < Count(frames)
    ensures var n := |frames| - 1; var before := Count(frames[..n]);
      && |Copied(audio, frames)| == Count(frames) && |Copied(audio, frames[..n])| == before
      && (p < before ==> Copied(audio, frames)[p] == Copied(audio, frames[..n])[p])
      && (p >= before ==> frames[n].first + (p - before) < |audio|
                          && Copied(audio, frames)[p] == audio[frames[n].first + (p - before)])
  {
    hide Copied;
    var n := |frames| - 1;
    assert Inside(frames[..n], |audio|) && frames[n].first <= frames[n].last <= |audio|;
    assert frames == frames[..n] + [frames[n]];
    CopiedLength(audio, frames);
    CopiedLength(audio, frames[..n]);
    CopiedAppend(audio, frames[..n], frames[n], 1);
  }

  lemma {:induction false} SourceSpan<T>(audio: seq<T>, frames: seq<Frames>, rate: nat, p: nat) returns (k: nat, f: nat)
    requires Solid(frames, |audio|) && rate > 0 && p < Count(frames)
    ensures f < |audio| && p < |Copied(audio, frames)| && Copied(audio, frames)[p] == audio[f]
    ensures k < |SpansOf(AllOnClock(frames, rate))| && Carries(SpansOf(AllOnClock(frames, rate))[k], rate, p, f)
  {
    hide Sec, Carries, SpansOf, AllOnClock, GridSpan, Copied, Solid;
    assert frames != [];
    var n := |frames| - 1;
    var before := Count(frames[..n]);
    SolidParts(frames, |audio|);
    assert Inside(frames, |audio|) by { SolidInside(frames, |audio|); }
    SpansOnGrid(frames, |audio|, rate);
    CopiedAt(audio, frames, p);
    if p < before {
      k, f := SourceSpan(audio, frames[..n], rate, p);
    } else {
      k, f := |SpansOf(AllOnClock(frames[..n], rate))|, frames[n].first + (p - before);
      GridCarries(before, frames[n], rate, p);
    }
  }

  /** Every output frame is the source frame that the timeline maps it to. */
  lemma CopyRefinesMap<T>(audio: seq<T>, frames: seq<Frames>, rate: nat, p: nat)
    requires Solid(frames, |audio|) && rate > 0 && p < |Copied(audio, frames)|
    ensures FromMap(audio, Copied(audio, frames), SpansOf(AllOnClock(frames, rate)), rate, p)
  {
    hide Sec, MapTime;
    CopiedLength(audio, frames);
    CopyTimeline(audio, frames, rate);
    var k, f := SourceSpan(audio, frames, rate, p);
    MapStart(SpansOf(AllOnClock(frames, rate)), Sec(p, rate), k);
    assert Mapped(audio, Copied(audio, frames), SpansOf(AllOnClock(frames, rate)), rate, p, f);
  }

  /**
   Audio copied by sorted, disjoint intervals: the ranges stay sorted and disjoint on the frame grid, the map is not
   reordered, it is as long as the output, and it sends every output frame to the source frame it was copied from.
   */
  lemma TidyCopy<T>(audio: seq<T>, intervals: seq<Interval>, rate: nat)
    requires Tidy(intervals) && rate > 0
    ensures var frames := GridAll(intervals, rate, |audio|);
      var spans := SpansOf(Ordered(AllOnClock(frames, rate)));
      && Solid(frames, |audio|) && Chained(spans)
      && Total(spans) == Sec(|Copied(audio, frames)|, rate)
      && forall p: nat :: p < |Copied(audio, frames)| ==> FromMap(audio, Copied(audio, frames), spans, rate, p)
  {
    hide Sec, Copied, GridAll, SpansOf, Ordered, FromMap;
    var frames := GridAll(intervals, rate, |audio|);
    GridInOrder(intervals, rate, |audio|);
    CopyTimeline(audio, frames, rate);
    forall p: nat | p < |Copied(audio, frames)|
      ensures FromMap(audio, Copied(audio, frames), SpansOf(AllOnClock(frames, rate)), rate, p)
    {
      CopyRefinesMap(audio, frames, rate, p);
    }
  }
}
