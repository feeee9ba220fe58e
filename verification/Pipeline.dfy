/** From the copied audio to the finished captions: transcription, restoring, layout and the checks of the result. */
module Pipeline {
  import opened Wrappers
  import opened Sorting
  import opened Text
  import opened Intervals
  import opened Timeline
  import opened AudioCopy
  import opened Layout
  import opened LayoutSuccess
  import opened Outputs
  import opened Consumers
  import opened Windows
  import opened Transcripts
  import opened PackedTimeline
  import Q = SegmentQueue
  import QueueLoop
  import QueueProofs
  import QueueRuns
  import S = Sentences
  import TranslationQueue

  // ----- the sentences of a transcription run -----

  function ClipLengths(windows: seq<Window>, rate: nat): (r: seq<real>)
    requires rate > 0
    ensures |r| == |windows| && forall i :: 0 <= i < |r| ==> r[i] == ClipLength(windows[i], rate)
  {
    seq(|windows|, i requires 0 <= i < |windows| => ClipLength(windows[i], rate))
  }

  /** A stored sentence, read back. */
  function Parsed(item: S.Item): S.Sentence {
    if item.Item? && item.start.Number? && item.end.Number? && item.text.Some?
    then S.Sentence(item.start.value, item.end.value, item.text.value)
    else S.Sentence(0.0, 0.0, "")
  }

  function SentencesOf(reply: S.Reply): (r: seq<S.Sentence>)
    ensures reply.Items? ==> |r| == |reply.items| && forall k :: 0 <= k < |r| ==> r[k] == Parsed(reply.items[k])
  {
    if reply.NotList? then [] else seq(|reply.items|, k requires 0 <= k < |reply.items| => Parsed(reply.items[k]))
  }

  function AllSentences(results: map<nat, S.Reply>): map<nat, seq<S.Sentence>> {
    map i | i in results :: SentencesOf(results[i])
  }

  /** What the validator returns unchanged is a list of sentences within the clip. */
  lemma AcceptedSentences(reply: S.Reply, duration: real)
    requires S.Acceptable(reply, duration) && S.AsReply(S.Accepted(reply, duration)) == reply
    ensures forall s :: s in SentencesOf(reply) ==> S.Tidy(s, duration)
  {
    hide S.Accepted, S.Tidy, S.Acceptable;
    var out := S.Accepted(reply, duration);
    S.AcceptedTidy(reply, duration);
    forall k | 0 <= k < |out| ensures SentencesOf(S.AsReply(out))[k] == out[k] {
      assert S.AsReply(out).items[k] == S.Stored(out[k]);
    }
    assert SentencesOf(reply) == out;
  }

  /** Every result with which a transcription ends, complete or not, holds sentences within their own windows. */
  lemma TranscriptionValidated(windows: seq<Window>, rate: nat, blockedText: string, file: Q.File<S.Reply>,
                               script: seq<Q.Round<S.Reply>>)
    requires rate > 0
    ensures var cfg := S.TranscriptionQueue(ClipLengths(windows, rate), blockedText);
      QueueProofs.Inv(cfg, Q.Load(cfg, file))
      && var end := QueueLoop.RunFrom(cfg, Q.Load(cfg, file), script);
      (end.Complete? || end.Partial? ==> Validated(windows, rate, AllSentences(end.results)))
  {
    hide QueueLoop.RunFrom, QueueProofs.Inv, Q.Load, S.Tidy, S.Acceptable, S.Accepted, QueueRuns.Stable;
    var lengths := ClipLengths(windows, rate);
    var cfg := S.TranscriptionQueue(lengths, blockedText);
    QueueProofs.LoadInv(cfg, file);
    S.TranscriptionStable(lengths, blockedText);
    LoadedAccepted(cfg, file);
    TranslationQueue.RunAccepted(cfg, Q.Load(cfg, file), script);
    var end := QueueLoop.RunFrom(cfg, Q.Load(cfg, file), script);
    if end.Complete? || end.Partial? {
      forall i | i in end.results
        ensures i < |windows| && forall s :: s in SentencesOf(end.results[i]) ==>
          S.Tidy(s, ClipLength(windows[i], rate))
      {
        assert cfg.validate(i, end.results[i]) == Some(end.results[i]);
        AcceptedSentences(end.results[i], lengths[i]);
      }
    }
  }

  lemma LoadedAccepted(cfg: Q.Config<S.Reply>, file: Q.File<S.Reply>)
    requires QueueRuns.Stable(cfg)
    ensures QueueRuns.Accepted(cfg, Q.Load(cfg, file).results)
  {
    QueueRuns.LoadAccepted(cfg, file);
  }

  // ----- projection of transcribed captions -----

  /** What projecting a caption of the processed clock gives: all of it, in kept audio, where its ends are mapped. */
  ghost predicate ProjectsWhole(c: Segment, spans: seq<Span>) {
    var r := Pieces(c.start, c.end, spans);
    && r != [] && Apart(r)
    && SumOf(r) == c.end - c.start
    && (r[0].start, r[|r| - 1].end) == MapSegment(c.start, c.end, spans)
    && forall t :: Covers(r, t) ==> exists k :: 0 <= k < |spans| && spans[k].originalStart <= t < spans[k].originalEnd
  }

  /** On the timeline of a copy every transcribed caption is projected whole, whatever windows have been answered. */
  lemma TranscriptProjects<T>(audio: seq<T>, frames: seq<Frames>, rate: nat, results: map<nat, seq<S.Sentence>>)
    requires Solid(frames, |audio|) && 0 < rate <= 100000000
    requires Validated(Sent(|Copied(audio, frames)|, rate), rate, results)
    ensures var windows := Sent(|Copied(audio, frames)|, rate);
      Known(windows, results, Ascending(results.Keys))
      && forall c :: c in Transcript(windows, rate, results, Ascending(results.Keys)) ==>
        ProjectsWhole(c, SpansOf(AllOnClock(frames, rate)))
  {
    hide Copied, Sent, SpansOf, AllOnClock, Chained, Spaced, Validated, Transcript, Sec, ProjectsWhole;
    var total, spans, order := |Copied(audio, frames)|, SpansOf(AllOnClock(frames, rate)), Ascending(results.Keys);
    CopyTimeline(audio, frames, rate);
    CopySpaced(frames, |audio|, rate);
    TranscriptWithin(total, rate, results, order);
    forall c | c in Transcript(Sent(total, rate), rate, results, order) ensures ProjectsWhole(c, spans) {
      var cues := Transcript(Sent(total, rate), rate, results, order);
      var k :| 0 <= k < |cues| && cues[k] == c;
      assert WithinClock(cues[k], total, rate);
      ClockProjects(c, spans);
    }
  }

  lemma ClockProjects(c: Segment, spans: seq<Span>)
    requires Chained(spans) && Spaced(spans) && 0.0 <= c.start < c.end <= Total(spans)
    ensures ProjectsWhole(c, spans)
  {
    ProjectionConserves(c.start, c.end, spans);
  }

  /** From any snapshot and along any turns: what a transcription of a copy ends with is projected whole. */
  lemma TranscriptionProjects<T>(audio: seq<T>, frames: seq<Frames>, rate: nat, blockedText: string,
                                 file: Q.File<S.Reply>, script: seq<Q.Round<S.Reply>>)
    requires Solid(frames, |audio|) && 0 < rate <= 100000000
    ensures var windows := Sent(|Copied(audio, frames)|, rate);
      var cfg := S.TranscriptionQueue(ClipLengths(windows, rate), blockedText);
      QueueProofs.Inv(cfg, Q.Load(cfg, file))
      && var end := QueueLoop.RunFrom(cfg, Q.Load(cfg, file), script);
      (end.Complete? || end.Partial? ==>
        var results := AllSentences(end.results);
        Known(windows, results, Ascending(results.Keys))
        && forall c :: c in Transcript(windows, rate, results, Ascending(results.Keys)) ==>
          ProjectsWhole(c, SpansOf(AllOnClock(frames, rate))))
  {
    hide Copied, Sent, SpansOf, AllOnClock, Validated, ProjectsWhole, QueueLoop.RunFrom, QueueProofs.Inv, Q.Load;
    var windows := Sent(|Copied(audio, frames)|, rate);
    var cfg := S.TranscriptionQueue(ClipLengths(windows, rate), blockedText);
    TranscriptionValidated(windows, rate, blockedText, file, script);
    var end := QueueLoop.RunFrom(cfg, Q.Load(cfg, file), script);
    if end.Complete? || end.Partial? {
      TranscriptProjects(audio, frames, rate, AllSentences(end.results));
    }
  }

  // ----- restored captions are accepted by all consumers -----

  lemma ShownEnds(restored: seq<Segment>, shown: seq<Segment>, limit: real)
    requires TimesFrom(restored, shown) && AllEndBy(restored, limit)
    ensures AllEndBy(shown, limit)
  {
    forall k | 0 <= k < |shown| ensures shown[k].end <= limit {
      assert HasTimes(restored, shown[k]);
    }
  }

  /** The worker's checks, both writers, and the editor's checks as long as there are no more than 10000 captions. */
  ghost predicate AcceptedByAll(out: seq<Segment>, duration: real) {
    && CuesValid(out, duration)
    && AllSrtAccept(out) && SamiOf(out).Ok?
    && (|out| <= 10000 ==> TrackValid(out, duration, false, false))
  }

  /**
   Captions restored onto the original clock, filtered, translated and reordered in any way, are either too crowded for
   their texts or laid out, and then every consumer accepts the result for the length of the media.
   */
  lemma RestoredAccepted(segments: seq<Segment>, spans: seq<Span>, shown: seq<Segment>, width: nat, duration: real)
    requires Chained(spans) && SpansEndBy(spans, duration) && duration > 0.0
    requires TimesFrom(RestoredAll(segments, spans), shown)
    requires exists i :: 0 <= i < |shown| && !Blank(shown[i].text)
    requires 1 <= width <= 499
    ensures match LayOut(shown, width, 2)
      case Err(e) => e == NoRoom
      case Ok(out) => AcceptedByAll(out, duration)
  {
    hide LayOut, RestoredAll, Chained, CuesValid, TrackValid, AllSrtAccept, SamiOf, LaidCount;
    RestoredLaysOut(segments, spans, shown, width, 2);
    RestoredWithin(segments, spans, duration);
    ShownEnds(RestoredAll(segments, spans), shown, duration);
    if LayOut(shown, width, 2).Ok? {
      LayoutAccepted(shown, width, LayOut(shown, width, 2).value, duration);
      LayoutSucceeds(shown, width, 2);
    }
  }

  lemma CopyEndsBy(frames: seq<Frames>, total: nat, rate: nat)
    requires Solid(frames, total) && rate > 0
    ensures SpansEndBy(SpansOf(AllOnClock(frames, rate)), Sec(total, rate))
  {
    hide Sec, Chained;
    SolidTidy(frames, total, rate);
    TidyChained(AllOnClock(frames, rate));
    forall k | 0 <= k < |frames| ensures Sec(frames[k].last, rate) <= Sec(total, rate) {
      SecMonotone(frames[k].last, total, rate);
    }
  }

  /**
   Whatever ranges of the audio were copied, whatever captions the transcription gave for the copy and whatever was made
   of their texts: restored, they are laid out unless their texts are too crowded, and are then accepted by every
   consumer for the length of the original audio.
   */
  lemma CaptionsAccepted<T>(audio: seq<T>, frames: seq<Frames>, rate: nat, cues: seq<Segment>,
                            shown: seq<Segment>, width: nat)
    requires Solid(frames, |audio|) && rate > 0 && audio != []
    requires TimesFrom(RestoredAll(cues, SpansOf(AllOnClock(frames, rate))), shown)
    requires exists i :: 0 <= i < |shown| && !Blank(shown[i].text)
    requires 1 <= width <= 499
    ensures match LayOut(shown, width, 2)
      case Err(e) => e == NoRoom
      case Ok(out) => AcceptedByAll(out, Sec(|audio|, rate))
  {
    hide LayOut, RestoredAll, Chained, Sec, SpansOf, AllOnClock, TimesFrom, AcceptedByAll;
    CopyTimeline(audio, frames, rate);
    CopyEndsBy(frames, |audio|, rate);
    SecZero(rate);
    SecMonotone(0, |audio|, rate);
    RestoredAccepted(cues, SpansOf(AllOnClock(frames, rate)), shown, width, Sec(|audio|, rate));
  }
}
