/** `transcription_windows`: checking a timeline against the audio, and cutting it into windows. */
module Windows {
  import opened Wrappers
  import opened Timeline
  import opened AudioCopy

  datatype Window = Window(first: int, left: int, right: int, span: Span)

  datatype Region = Region(start: int, end: int, span: Span)

  datatype WindowError = BadTimeline | ExceedsAudio | NotCovered

  predicate Continues(s: Span, previous: real) {
    Distance(s.processedStart, previous) < CONTIGUOUS && s.processedStart <= s.processedEnd
  }

  function RegionOf(s: Span, rate: nat): Region {
    Region(Tick(s.processedStart, rate), Tick(s.processedEnd, rate), s)
  }

  function Regions(spans: seq<Span>, rate: nat): (r: seq<Region>)
    ensures |r| == |spans| && forall k :: 0 <= k < |r| ==> r[k] == RegionOf(spans[k], rate)
  {
    seq(|spans|, k requires 0 <= k < |spans| => RegionOf(spans[k], rate))
  }

  /** The checks of every span, in order. */
  ghost predicate SpansFit(total: int, rate: nat, spans: seq<Span>) {
    forall k :: 0 <= k < |spans| ==>
      Continues(spans[k], Total(spans[..k])) && Tick(spans[k].processedEnd, rate) <= total
  }

  /** What is wrong with the k-th span, when nothing is with those before it. */
  ghost predicate SpanFault(total: int, rate: nat, spans: seq<Span>, k: int, error: WindowError) {
    && 0 <= k < |spans| && SpansFit(total, rate, spans[..k])
    && if !Continues(spans[k], Total(spans[..k])) then error == BadTimeline
       else Tick(spans[k].processedEnd, rate) > total && error == ExceedsAudio
  }

  ghost predicate Fits(total: int, rate: nat, spans: seq<Span>) {
    SpansFit(total, rate, spans) && Tick(Total(spans), rate) == total
  }

  function WindowAt(first: int, region: Region, rate: nat, context: nat, window: nat): Window {
    var low, high := first - rate * context, first + rate * (window + context);
    Window(first,
           if region.start > low then region.start else low,
           if region.end < high then region.end else high,
           region.span)
  }

  /** The windows of one region from `first` on. */
  function Cut(first: int, region: Region, rate: nat, context: nat, window: nat): seq<Window>
    requires rate * window > 0
    decreases region.end - first
  {
    if first >= region.end then []
    else [WindowAt(first, region, rate, context, window)] + Cut(first + rate * window, region, rate, context, window)
  }

  function CutAll(regions: seq<Region>, rate: nat, context: nat, window: nat): seq<Window>
    requires rate * window > 0
  {
    if regions == [] then []
    else
      var n := |regions| - 1;
      CutAll(regions[..n], rate, context, window) + Cut(regions[n].start, regions[n], rate, context, window)
  }

  method TranscriptionWindows(total: int, rate: nat, spans: seq<Span>, context: nat, window: nat)
    returns (r: Result<seq<Window>, WindowError>)
    requires rate * window > 0
    ensures r.Ok? <==> Fits(total, rate, spans)
    ensures r.Err? ==>
      if SpansFit(total, rate, spans) then r.error == NotCovered
      else exists k :: SpanFault(total, rate, spans, k, r.error)
    ensures r.Ok? ==> r.value == CutAll(Regions(spans, rate), rate, context, window)
  {
    hide Tick;
    var regions := [];
    var previous := 0.0;
    for k := 0 to |spans|
      invariant regions == Regions(spans[..k], rate) && previous == Total(spans[..k])
      invariant forall j :: 0 <= j < k ==>
        Continues(spans[j], Total(spans[..j])) && Tick(spans[j].processedEnd, rate) <= total
    {
      var span := spans[k];
      if !Continues(span, previous) {
        assert SpanFault(total, rate, spans, k, BadTimeline);
        return Err(BadTimeline);
      }
      var left, right := Tick(span.processedStart, rate), Tick(span.processedEnd, rate);
      if right > total {
        assert SpanFault(total, rate, spans, k, ExceedsAudio);
        return Err(ExceedsAudio);
      }
      regions := regions + [Region(left, right, span)];
      previous := span.processedEnd;
    }
    assert spans[..|spans|] == spans;
    if Tick(previous, rate) != total {
      return Err(NotCovered);
    }
    var windows := CutRegions(regions, rate, context, window);
    return Ok(windows);
  }

  method CutRegions(regions: seq<Region>, rate: nat, context: nat, window: nat) returns (windows: seq<Window>)
    requires rate * window > 0
    ensures windows == CutAll(regions, rate, context, window)
  {
    windows := [];
    for k := 0 to |regions|
      invariant windows == CutAll(regions[..k], rate, context, window)
    {
      assert regions[..k + 1][..k] == regions[..k];
      var region := regions[k];
      ghost var before := windows;
      var first := region.start;
      while first < region.end
        invariant windows + Cut(first, region, rate, context, window)
          == before + Cut(region.start, region, rate, context, window)
        decreases region.end - first
      {
        AppendCut(windows, first, region, rate, context, window);
        windows := windows + [WindowAt(first, region, rate, context, window)];
        first := first + rate * window;
      }
      assert windows + [] == windows;
    }
    assert regions[..|regions|] == regions;
  }

  lemma AppendCut(windows: seq<Window>, first: int, region: Region, rate: nat, context: nat, window: nat)
    requires rate * window > 0 && first < region.end
    ensures windows + Cut(first, region, rate, context, window)
      == windows + [WindowAt(first, region, rate, context, window)]
        + Cut(first + rate * window, region, rate, context, window)
  {
  }

  // ----- a copied timeline always fits -----

  lemma {:induction false} ChainedEnds(spans: seq<Span>, k: nat)
    requires Chained(spans) && k < |spans|
    ensures Total(spans[..k]) == spans[k].processedStart
    ensures spans[k].processedEnd <= Total(spans)
  {
    if k < |spans| - 1 {
      SpanOrder(spans, k, |spans| - 1);
      assert GoodSpan(spans[|spans| - 1]);
    }
  }

  lemma ChainedFits(spans: seq<Span>, total: nat, rate: nat)
    requires Chained(spans) && rate > 0 && Total(spans) == Sec(total, rate)
    ensures Fits(total, rate, spans)
  {
    hide Tick, Sec;
    TickOfSec(total, rate);
    forall k | 0 <= k < |spans|
      ensures Continues(spans[k], Total(spans[..k])) && Tick(spans[k].processedEnd, rate) <= total
    {
      ChainedEnds(spans, k);
      assert GoodSpan(spans[k]);
      TickMonotone(spans[k].processedEnd, Total(spans), rate);
    }
  }

  /** The timeline of a copy is never rejected for the audio that was copied. */
  lemma CopyFits<T>(audio: seq<T>, frames: seq<Frames>, rate: nat)
    requires Solid(frames, |audio|) && rate > 0
    ensures Fits(|Copied(audio, frames)|, rate, SpansOf(AllOnClock(frames, rate)))
  {
    hide Tick, Sec, Copied, Chained, Fits, SpansOf, AllOnClock;
    CopyTimeline(audio, frames, rate);
    ChainedFits(SpansOf(AllOnClock(frames, rate)), |Copied(audio, frames)|, rate);
  }

  // ----- windows tile the audio -----

  /**
   The windows' own parts follow each other from `low` to `high`; each lies in its window and is at most `step` long.
   Without context a window is exactly its own part.
   */
  ghost predicate Tiles(windows: seq<Window>, low: int, high: int, step: int, context: nat)
    decreases |windows|
  {
    if windows == [] then low == high
    else
      var next := if |windows| > 1 then windows[1].first else high;
      Covering(windows[0], low, next, step, context) && Tiles(windows[1..], next, high, step, context)
  }

  predicate Covering(w: Window, low: int, next: int, step: int, context: nat) {
    && w.first == low && w.left <= low < next <= w.right && next - low <= step
    && (context == 0 ==> w.left == low && w.right == next)
  }

  lemma {:induction false} CutTiles(first: int, region: Region, rate: nat, context: nat, window: nat)
    requires rate * window > 0 && region.start <= first
    ensures first <= region.end ==>
      Tiles(Cut(first, region, rate, context, window), first, region.end, rate * window, context)
    decreases region.end - first
  {
    if first < region.end {
      var next := first + rate * window;
      var w, rest := WindowAt(first, region, rate, context, window), Cut(next, region, rate, context, window);
      CutTiles(next, region, rate, context, window);
      assert ([w] + rest)[1..] == rest;
      Spread(rate, context, window);
    }
  }

  lemma Spread(rate: nat, context: nat, window: nat)
    ensures rate * (window + context) == rate * window + rate * context
    ensures rate * context >= 0
    ensures context == 0 ==> rate * context == 0
  {
  }

  lemma {:induction false} TilesConcat(a: seq<Window>, b: seq<Window>, low: int, middle: int, high: int,
                                       step: int, context: nat)
    requires Tiles(a, low, middle, step, context) && Tiles(b, middle, high, step, context)
    ensures Tiles(a + b, low, high, step, context)
    decreases |a|
  {
    if a == [] {
      assert a + b == b;
    } else {
      assert (a + b)[1..] == a[1..] + b;
      TilesConcat(a[1..], b, if |a| > 1 then a[1].first else middle, middle, high, step, context);
      assert b != [] ==> b[0].first == middle;
    }
  }

  lemma {:induction false} CutAllTiles(spans: seq<Span>, rate: nat, context: nat, window: nat)
    requires Chained(spans) && rate * window > 0
    ensures Tiles(CutAll(Regions(spans, rate), rate, context, window),
                  Tick(0.0, rate), Tick(Total(spans), rate), rate * window, context)
  {
    hide Tick;
    if spans != [] {
      var n := |spans| - 1;
      CutAllTiles(spans[..n], rate, context, window);
      var regions := Regions(spans, rate);
      assert regions[..n] == Regions(spans[..n], rate);
      var region := regions[n];
      assert GoodSpan(spans[n]) && (n > 0 ==> spans[n].processedStart == spans[n - 1].processedEnd);
      TickMonotone(spans[n].processedStart, spans[n].processedEnd, rate);
      CutTiles(region.start, region, rate, context, window);
      TilesConcat(CutAll(regions[..n], rate, context, window), Cut(region.start, region, rate, context, window),
                  Tick(0.0, rate), region.start, region.end, rate * window, context);
    }
  }

  lemma ChainedTiles(spans: seq<Span>, total: nat, rate: nat, context: nat, window: nat)
    requires Chained(spans) && rate > 0 && window > 0 && Total(spans) == Sec(total, rate)
    ensures rate * window > 0
    ensures Tiles(CutAll(Regions(spans, rate), rate, context, window), 0, total, rate * window, context)
  {
    hide Tick, Sec;
    CutAllTiles(spans, rate, context, window);
    SecZero(rate);
    TickOfSec(0, rate);
    TickOfSec(total, rate);
  }

  /** Transcription of a copy: its timeline is accepted, and the windows tile the copied audio exactly. */
  lemma CopyWindows<T>(audio: seq<T>, frames: seq<Frames>, rate: nat, context: nat, window: nat)
    requires Solid(frames, |audio|) && rate > 0 && window > 0
    ensures rate * window > 0
    ensures var spans, total := SpansOf(AllOnClock(frames, rate)), |Copied(audio, frames)|;
      Fits(total, rate, spans)
        && Tiles(CutAll(Regions(spans, rate), rate, context, window), 0, total, rate * window, context)
  {
    hide Tick, Sec, Copied, Chained, Fits, SpansOf, AllOnClock, Tiles, CutAll;
    CopyFits(audio, frames, rate);
    CopyTimeline(audio, frames, rate);
    ChainedTiles(SpansOf(AllOnClock(frames, rate)), |Copied(audio, frames)|, rate, context, window);
  }

  /** The timeline of audio from which nothing was removed. */
  function Identity(duration: real): seq<Span> {
    var safe := NotNegative(duration);
    [Span(0.0, safe, 0.0, safe)]
  }

  /** The windows that are actually sent are cut from the whole packed clock: exactly its frames, in order. */
  lemma PackedWindows(total: nat, rate: nat, context: nat, window: nat)
    requires rate > 0 && window > 0 && total > 0
    ensures rate * window > 0
    ensures Fits(total, rate, Identity(Sec(total, rate)))
    ensures var spans := Identity(Sec(total, rate));
      Tiles(CutAll(Regions(spans, rate), rate, context, window), 0, total, rate * window, context)
  {
    hide Tick, Sec;
    var spans := Identity(Sec(total, rate));
    SecZero(rate);
    SecMonotone(0, total, rate);
    ChainedFits(spans, total, rate);
    ChainedTiles(spans, total, rate, context, window);
  }

  lemma {:induction false} CutAt(first: int, region: Region, rate: nat, context: nat, window: nat, k: nat)
    requires rate * window > 0
    ensures k < |Cut(first, region, rate, context, window)| <==> first + k * (rate * window) < region.end
    ensures k < |Cut(first, region, rate, context, window)| ==>
      Cut(first, region, rate, context, window)[k]
        == WindowAt(first + k * (rate * window), region, rate, context, window)
    decreases k
  {
    var step := rate * window;
    assert k * step >= 0;
    if k > 0 && first < region.end {
      CutAt(first + step, region, rate, context, window, k - 1);
      assert first + step + (k - 1) * step == first + k * step;
    }
  }

  /** The windows that are sent are the minutes of the packed clock, the last one up to its end. */
  lemma PackedMinutes(total: nat, rate: nat, k: nat)
    requires rate > 0
    ensures var windows := CutAll(Regions(Identity(Sec(total, rate)), rate), rate, 0, 60);
      && (k < |windows| <==> 60 * rate * k < total)
      && (k < |windows| ==>
            && windows[k].first == windows[k].left == 60 * rate * k
            && windows[k].right == (if 60 * rate * (k + 1) < total then 60 * rate * (k + 1) else total))
  {
    hide Tick, Sec, Cut;
    var spans := Identity(Sec(total, rate));
    SecZero(rate);
    SecMonotone(0, total, rate);
    TickOfSec(0, rate);
    TickOfSec(total, rate);
    var region := RegionOf(spans[0], rate);
    assert Regions(spans, rate) == [region] && [region][..0] == [];
    assert CutAll([region], rate, 0, 60) == [] + Cut(0, region, rate, 0, 60);
    CutAt(0, region, rate, 0, 60, k);
    assert k * (rate * 60) == 60 * rate * k;
    assert 60 * rate * (k + 1) == 60 * rate * k + rate * 60;
  }

  /** The processed clock up to where a span should begin. */
  function Reached(spans: seq<Span>, k: nat): real
    requires k <= |spans|
  {
    if k == 0 then 0.0 else spans[k - 1].processedEnd
  }

  /** A timeline is accepted if its spans follow each other from zero, within the audio, and end with its last frame. */
  lemma FitsExactly(total: int, rate: nat, spans: seq<Span>)
    ensures Fits(total, rate, spans) <==>
      && Nearest(total, Reached(spans, |spans|), rate)
      && forall k :: 0 <= k < |spans| ==>
           && -0.00000001 < spans[k].processedStart - Reached(spans, k) < 0.00000001
           && spans[k].processedStart <= spans[k].processedEnd && Tick(spans[k].processedEnd, rate) <= total
  {
    hide Tick;
    NearestIsTick(total, Reached(spans, |spans|), rate);
    assert spans[..|spans|] == spans;
    assert forall k :: 0 <= k <= |spans| ==> Total(spans[..k]) == Reached(spans, k);
  }

  lemma NearestIsTick(frame: int, seconds: real, rate: nat)
    ensures Nearest(frame, seconds, rate) <==> frame == Tick(seconds, rate)
  {
    var x := seconds * rate as real;
    assert Times(seconds, rate as real) == x;
  }
}
