/** From the validated replies of the windows to captions on the processed clock. */
module Transcripts {
  import opened Wrappers
  import opened Sorting
  import opened Intervals
  import opened Timeline
  import opened AudioCopy
  import opened Layout
  import opened Windows
  import S = Sentences

  /** How long the clip of a window is. */
  function ClipLength(w: Window, rate: nat): real
    requires rate > 0
  {
    Sec(w.right - w.left, rate)
  }

  /** Where the clip of a window starts on the processed clock. */
  function Offset(w: Window, rate: nat): real
    requires rate > 0
  {
    w.span.processedStart + Sec(w.left - Tick(w.span.processedStart, rate), rate)
  }

  function CueOf(w: Window, rate: nat, s: S.Sentence): Segment
    requires rate > 0
  {
    var offset := Offset(w, rate);
    Segment(offset + s.start, Sooner(offset + s.end, w.span.processedEnd), s.text, None)
  }

  function CuesOf(w: Window, rate: nat, sentences: seq<S.Sentence>): (r: seq<Segment>)
    requires rate > 0
    ensures |r| == |sentences| && forall k :: 0 <= k < |r| ==> r[k] == CueOf(w, rate, sentences[k])
  {
    seq(|sentences|, k requires 0 <= k < |sentences| => CueOf(w, rate, sentences[k]))
  }

  ghost predicate Known(windows: seq<Window>, results: map<nat, seq<S.Sentence>>, order: seq<nat>) {
    forall i :: i in order ==> i < |windows| && i in results
  }

  function Transcript(windows: seq<Window>, rate: nat, results: map<nat, seq<S.Sentence>>,
                      order: seq<nat>): seq<Segment>
    requires rate > 0 && Known(windows, results, order)
  {
    if order == [] then []
    else
      var n := |order| - 1;
      assert order[n] in order && forall i :: i in order[..n] ==> i in order;
      Transcript(windows, rate, results, order[..n]) + CuesOf(windows[order[n]], rate, results[order[n]])
  }

  lemma KnownPrefix(windows: seq<Window>, results: map<nat, seq<S.Sentence>>, order: seq<nat>, k: nat)
    requires Known(windows, results, order) && k <= |order|
    ensures Known(windows, results, order[..k])
  {
    forall i | i in order[..k] ensures i < |windows| && i in results {
      assert i in order;
    }
  }

  lemma LastWindow(windows: seq<Window>, rate: nat, results: map<nat, seq<S.Sentence>>, order: seq<nat>)
    requires rate > 0 && Known(windows, results, order) && order != []
    ensures var n := |order| - 1;
      && Known(windows, results, order[..n]) && order[n] < |windows| && order[n] in results
      && Transcript(windows, rate, results, order)
        == Transcript(windows, rate, results, order[..n]) + CuesOf(windows[order[n]], rate, results[order[n]])
  {
    hide CuesOf;
    KnownPrefix(windows, results, order, |order| - 1);
    assert order[|order| - 1] in order;
  }

  lemma TranscriptNext(windows: seq<Window>, rate: nat, results: map<nat, seq<S.Sentence>>, order: seq<nat>, k: nat)
    requires rate > 0 && Known(windows, results, order) && k < |order|
    ensures Known(windows, results, order[..k]) && Known(windows, results, order[..k + 1])
    ensures order[k] < |windows| && order[k] in results
    ensures Transcript(windows, rate, results, order[..k + 1])
      == Transcript(windows, rate, results, order[..k]) + CuesOf(windows[order[k]], rate, results[order[k]])
  {
    hide CuesOf, Transcript;
    KnownPrefix(windows, results, order, k);
    KnownPrefix(windows, results, order, k + 1);
    assert order[k] in order;
    LastWindow(windows, rate, results, order[..k + 1]);
    assert order[..k + 1][..k] == order[..k];
  }

  lemma CuesNext(w: Window, rate: nat, sentences: seq<S.Sentence>, k: nat)
    requires rate > 0 && k < |sentences|
    ensures CuesOf(w, rate, sentences[..k + 1]) == CuesOf(w, rate, sentences[..k]) + [CueOf(w, rate, sentences[k])]
  {
    hide CueOf;
    var next, sofar := CuesOf(w, rate, sentences[..k + 1]), CuesOf(w, rate, sentences[..k]);
    assert forall j :: 0 <= j < k ==> sentences[..k + 1][j] == sentences[..k][j];
    assert next[..k] == sofar && next[k] == CueOf(w, rate, sentences[k]);
  }

  /** The inner loop: the captions of one window. */
  method WindowCues(w: Window, rate: nat, items: seq<S.Sentence>) returns (output: seq<Segment>)
    requires rate > 0
    ensures output == CuesOf(w, rate, items)
  {
    hide Sec, Tick;
    output := [];
    var offset := w.span.processedStart + Sec(w.left - Tick(w.span.processedStart, rate), rate);
    for k := 0 to |items|
      invariant output == CuesOf(w, rate, items[..k])
    {
      CuesNext(w, rate, items, k);
      var cue := items[k];
      output := output + [Segment(offset + cue.start, Sooner(offset + cue.end, w.span.processedEnd), cue.text, None)];
    }
    assert items[..|items|] == items;
  }

  lemma NoTranscript(windows: seq<Window>, rate: nat, results: map<nat, seq<S.Sentence>>)
    requires rate > 0
    ensures Transcript(windows, rate, results, []) == []
  {
  }

  method Segments(windows: seq<Window>, rate: nat, results: map<nat, seq<S.Sentence>>) returns (output: seq<Segment>)
    requires rate > 0 && forall i :: i in results ==> i < |windows|
    ensures Known(windows, results, Ascending(results.Keys))
    ensures output == Transcript(windows, rate, results, Ascending(results.Keys))
  {
    hide CuesOf, Transcript;
    var order := Ascending(results.Keys);
    output := [];
    NoTranscript(windows, rate, results);
    for k := 0 to |order|
      invariant Known(windows, results, order[..k])
      invariant output == Transcript(windows, rate, results, order[..k])
    {
      TranscriptNext(windows, rate, results, order, k);
      var part := WindowCues(windows[order[k]], rate, results[order[k]]);
      output := output + part;
    }
    assert order[..|order|] == order;
  }

  // ----- every caption lies within its window, and so within the processed clock -----

  /** The clip is a nonempty part of the audio, cut from the one region that covers it. */
  predicate ClipWithin(w: Window, total: nat, rate: nat)
    requires rate > 0
  {
    0 <= w.left < w.right <= total && w.span == Span(0.0, Sec(total, rate), 0.0, Sec(total, rate))
  }

  /** The windows that a transcription sends. */
  function Sent(total: nat, rate: nat): seq<Window>
    requires rate > 0
  {
    CutAll(Regions(Identity(Sec(total, rate)), rate), rate, 0, 60)
  }

  lemma {:induction false} CutWithin(first: int, region: Region, total: nat, rate: nat, window: nat)
    requires rate > 0 && window > 0 && 0 <= region.start <= first && region.end <= total
    requires region.span == Span(0.0, Sec(total, rate), 0.0, Sec(total, rate))
    ensures rate * window > 0
    ensures forall w :: w in Cut(first, region, rate, 0, window) ==> ClipWithin(w, total, rate)
    decreases region.end - first
  {
    Product(rate, window);
    if first < region.end {
      CutWithin(first + rate * window, region, total, rate, window);
      Spread(rate, 0, window);
    }
  }

  lemma Product(a: nat, b: nat)
    requires a > 0 && b > 0
    ensures a * b > 0
  {
  }

  lemma SentWithin(total: nat, rate: nat)
    requires rate > 0
    ensures forall w :: w in Sent(total, rate) ==> ClipWithin(w, total, rate)
  {
    hide Tick, Sec, Cut;
    var spans := Identity(Sec(total, rate));
    SecZero(rate);
    SecMonotone(0, total, rate);
    TickOfSec(total, rate);
    TickOfSec(0, rate);
    assert spans == [Span(0.0, Sec(total, rate), 0.0, Sec(total, rate))];
    var region := RegionOf(spans[0], rate);
    assert Regions(spans, rate) == [region] && [region][..0] == [];
    CutWithin(0, region, total, rate, 60);
    assert CutAll([region], rate, 0, 60) == [] + Cut(0, region, rate, 0, 60);
  }

  predicate WithinClock(c: Segment, total: nat, rate: nat)
    requires rate > 0
  {
    0.0 <= c.start < c.end <= Sec(total, rate)
  }

  /**
   A caption with the times of a sentence of its clip, shifted to the processed clock; the limit at the end changes
   nothing.
   */
  lemma CueWithin(w: Window, total: nat, rate: nat, s: S.Sentence)
    requires rate > 0 && ClipWithin(w, total, rate) && S.Tidy(s, ClipLength(w, rate))
    ensures var c := CueOf(w, rate, s);
      && c == Segment(Sec(w.left, rate) + s.start, Sec(w.left, rate) + s.end, s.text, None)
      && Sec(w.left, rate) <= c.start < c.end <= Sec(w.right, rate)
      && WithinClock(c, total, rate)
  {
    hide Sec, Tick;
    SecZero(rate);
    TickOfSec(0, rate);
    SecMonotone(0, w.left, rate);
    SecMonotone(w.right, total, rate);
    SecAdd(w.left, w.right - w.left, rate);
  }

  ghost predicate AllOn(cues: seq<Segment>, total: nat, rate: nat)
    requires rate > 0
  {
    forall k :: 0 <= k < |cues| ==> WithinClock(cues[k], total, rate)
  }

  /** Every window's sentences are those that the validator lets through. */
  ghost predicate Validated(windows: seq<Window>, rate: nat, results: map<nat, seq<S.Sentence>>)
    requires rate > 0
  {
    && (forall i :: i in results ==> i < |windows|)
    && (forall i :: i in results ==> forall s :: s in results[i] ==> S.Tidy(s, ClipLength(windows[i], rate)))
  }

  /** Every caption of a transcript lies within the processed clock, whatever windows have been answered. */
  lemma {:induction false} TranscriptWithin(total: nat, rate: nat, results: map<nat, seq<S.Sentence>>, order: seq<nat>)
    requires rate > 0 && Validated(Sent(total, rate), rate, results) && forall i :: i in order ==> i in results
    ensures Known(Sent(total, rate), results, order)
    ensures AllOn(Transcript(Sent(total, rate), rate, results, order), total, rate)
  {
    hide Sent, CueOf, Sec, S.Tidy, WithinClock;
    var windows := Sent(total, rate);
    if order != [] {
      var n := |order| - 1;
      var i := order[n];
      assert i in order && forall j :: j in order[..n] ==> j in order;
      TranscriptWithin(total, rate, results, order[..n]);
      SentWithin(total, rate);
      assert windows[i] in windows;
      forall k | 0 <= k < |results[i]| ensures WithinClock(CueOf(windows[i], rate, results[i][k]), total, rate) {
        assert results[i][k] in results[i];
        CueWithin(windows[i], total, rate, results[i][k]);
      }
    }
  }

  /** The number of sentences that the first n windows of the order have. */
  function Earlier(results: map<nat, seq<S.Sentence>>, order: seq<nat>, n: nat): nat
    requires n <= |order| && forall i :: i in order ==> i in results
  {
    if n == 0 then 0 else Earlier(results, order, n - 1) + |results[order[n - 1]]|
  }

  lemma {:induction false} EarlierPrefix(results: map<nat, seq<S.Sentence>>, order: seq<nat>, m: nat, n: nat)
    requires n <= m <= |order| && forall i :: i in order ==> i in results
    ensures forall i :: i in order[..m] ==> i in results
    ensures Earlier(results, order[..m], n) == Earlier(results, order, n)
  {
    if n > 0 {
      EarlierPrefix(results, order, m, n - 1);
    }
  }

  /** A caption for every sentence of every answered window and for nothing else, one window after the other. */
  lemma {:induction false} TranscriptPlaces(windows: seq<Window>, rate: nat, results: map<nat, seq<S.Sentence>>,
                                            order: seq<nat>, n: nat, k: nat)
    requires rate > 0 && Known(windows, results, order)
    ensures forall i :: i in order ==> i in results
    ensures |Transcript(windows, rate, results, order)| == Earlier(results, order, |order|)
    ensures n < |order| && k < |results[order[n]]| ==>
      && order[n] < |windows| && order[n] in results
      && Earlier(results, order, n) + k < Earlier(results, order, |order|)
      && Transcript(windows, rate, results, order)[Earlier(results, order, n) + k]
        == CueOf(windows[order[n]], rate, results[order[n]][k])
  {
    hide CueOf;
    if order != [] {
      var m := |order| - 1;
      LastWindow(windows, rate, results, order);
      TranscriptPlaces(windows, rate, results, order[..m], n, k);
      EarlierPrefix(results, order, m, m);
      if n < m {
        EarlierPrefix(results, order, m, n);
        assert order[..m][n] == order[n];
      }
    }
  }

  /** Every caption is a sentence of a window with its own text, its times shifted to where the window's clip begins. */
  lemma TranscriptExactly(total: nat, rate: nat, results: map<nat, seq<S.Sentence>>, order: seq<nat>, n: nat, k: nat)
    requires rate > 0 && Validated(Sent(total, rate), rate, results) && forall i :: i in order ==> i in results
    requires n < |order| && k < |results[order[n]]|
    ensures Known(Sent(total, rate), results, order)
    ensures var all := Transcript(Sent(total, rate), rate, results, order);
      var at, offset := Earlier(results, order, n) + k, Sec(Sent(total, rate)[order[n]].left, rate);
      var s := results[order[n]][k];
      at < |all| == Earlier(results, order, |order|)
        && all[at] == Segment(offset + s.start, offset + s.end, s.text, None)
  {
    hide Sent, CueOf, Sec, S.Tidy, Transcript;
    var windows := Sent(total, rate);
    TranscriptPlaces(windows, rate, results, order, n, k);
    SentWithin(total, rate);
    assert order[n] in order && windows[order[n]] in windows;
    assert results[order[n]][k] in results[order[n]];
    CueWithin(windows[order[n]], total, rate, results[order[n]][k]);
  }
}
