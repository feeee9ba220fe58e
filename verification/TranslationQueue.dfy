/** Translation batches through the segment queue: from answers and refusals to a complete, timing-neutral result. */
module TranslationQueue {
  import opened Wrappers
  import opened Text
  import opened Layout
  import opened SegmentQueue
  import opened QueueProofs
  import opened QueueLoop
  import opened QueueTermination
  import QueueRuns
  import Sentences
  import G = TranslationGroups
  import T = Translation

  /** A batch's result as JSON: a list of strings, or something else. */
  datatype Reply = NotTexts | Texts(texts: seq<string>)

  predicate NonblankAll(texts: seq<string>) {
    forall k :: 0 <= k < |texts| ==> Strip(texts[k]) != ""
  }

  /** A result is taken as it is when it has one nonblank text per group of its batch. */
  function Check(sizes: seq<nat>): (nat, Reply) -> Option<Reply> {
    (i: nat, reply: Reply) =>
      if i < |sizes| && reply.Texts? && |reply.texts| == sizes[i] && NonblankAll(reply.texts) then Some(reply) else None
  }

  /** The result of a batch is taken exactly if it has one text for each of its groups, none of them blank. */
  lemma CheckExactly(sizes: seq<nat>, i: nat, reply: Reply)
    ensures Check(sizes)(i, reply).Some? <==>
      && i < |sizes| && reply.Texts? && |reply.texts| == sizes[i]
      && forall k :: 0 <= k < |reply.texts| ==> !Blank(reply.texts[k])
    ensures Check(sizes)(i, reply).Some? ==> Check(sizes)(i, reply).value == reply
  {
    if reply.Texts? {
      forall k | 0 <= k < |reply.texts| ensures Strip(reply.texts[k]) == "" <==> Blank(reply.texts[k]) {
        StripShape(reply.texts[k]);
      }
    }
  }

  function Repeated(n: nat, text: string): (r: seq<string>)
    ensures |r| == n && forall k :: 0 <= k < n ==> r[k] == text
  {
    seq(n, k => text)
  }

  /** A refused batch gets the placeholder text for each of its groups. */
  function Placeholder(sizes: seq<nat>, text: string): nat -> Reply {
    (i: nat) => Texts(Repeated(if i < |sizes| then sizes[i] else 0, text))
  }

  function Sizes(groups: seq<G.Group>): (r: seq<nat>)
    ensures |r| == |G.Batches(groups)| && forall b :: 0 <= b < |r| ==> r[b] == |G.Batches(groups)[b]|
  {
    var batches := G.Batches(groups);
    seq(|batches|, b requires 0 <= b < |batches| => |batches[b]|)
  }

  function Queue(groups: seq<G.Group>, blockedText: string): Config<Reply> {
    Config(|Sizes(groups)|, 3, 3, Check(Sizes(groups)), Some(Placeholder(Sizes(groups), blockedText)))
  }

  // ----- results of any run pass the validator -----

  lemma SettleAllAccepted<R(!new)>(cfg: Config<R>, s: State<R>, done: map<nat, Done<R>>, order: seq<nat>)
    requires QueueRuns.Stable(cfg) && Inv(cfg, s) && QueueRuns.Accepted(cfg, s.results) && AllRunning(s, order)
    requires forall k :: 0 <= k < |order| ==> order[k] in done
    ensures var t := SettleAll(cfg, s, done, order); t.raised || QueueRuns.Accepted(cfg, t.results)
    decreases |order|
  {
    if order != [] {
      var i := order[0];
      var t := Settle(cfg, s, i, done[i].outcome, done[i].at);
      SettleInv(cfg, s, i, done[i].outcome, done[i].at);
      QueueRuns.SettleAccepted(cfg, s, i, done[i].outcome, done[i].at);
      SettleFrame(cfg, s, order, done[i]);
      if !t.raised {
        SettleAllAccepted(cfg, t, done, order[1..]);
      }
    }
  }

  ghost predicate AcceptedEnd<R>(cfg: Config<R>, end: End<R>) {
    match end
    case Complete(results) => QueueRuns.Accepted(cfg, results)
    case Partial(results, _, _) => QueueRuns.Accepted(cfg, results)
    case _ => true
  }

  lemma TurnAccepted<R(!new)>(cfg: Config<R>, s: State<R>, r: Round<R>)
    requires QueueRuns.Stable(cfg) && Inv(cfg, s) && QueueRuns.Accepted(cfg, s.results)
    ensures AfterTurn(cfg, s, r).raised || QueueRuns.Accepted(cfg, AfterTurn(cfg, s, r).results)
  {
    AdmitInv(cfg, s, r.now);
    AdmitAllInv(cfg, s, r.now);
    var t := Admit(cfg, s, r.now);
    if t.running != {} {
      FinishingRun(cfg, t, r);
      SettleAllAccepted(cfg, t, r.done, Finishing(cfg, t, r));
    }
  }

  /** Every result a run ends with passes the validator unchanged. */
  lemma {:induction false} RunAccepted<R(!new)>(cfg: Config<R>, s: State<R>, script: seq<Round<R>>)
    requires QueueRuns.Stable(cfg) && Inv(cfg, s) && QueueRuns.Accepted(cfg, s.results)
    ensures AcceptedEnd(cfg, RunFrom(cfg, s, script))
    decreases |script|
  {
    hide QueueRuns.Stable, QueueRuns.Accepted, Inv, AfterTurn, Drained;
    if WorkLeft(s) && script != [] {
      TurnInv(cfg, s, script[0]);
      TurnAccepted(cfg, s, script[0]);
      var t := AfterTurn(cfg, s, script[0]);
      if !t.raised && !Drained(cfg, s, script[0]) {
        RunAccepted(cfg, t, script[1..]);
      }
    }
  }

  function TextMap(results: map<nat, Reply>): map<nat, seq<string>> {
    map i | i in results :: if results[i].Texts? then results[i].texts else []
  }

  lemma QueueFacts(groups: seq<G.Group>, blockedText: string)
    requires Strip(blockedText) != ""
    ensures QueueRuns.Stable(Queue(groups, blockedText))
    ensures Sentences.BlockedAccepted(Queue(groups, blockedText))
  {
    hide Strip;
    var cfg := Queue(groups, blockedText);
    var sizes := Sizes(groups);
    forall i: nat | i < cfg.count ensures cfg.validate(i, cfg.blocked.value(i)).Some? {
      assert cfg.blocked.value(i) == Texts(Repeated(sizes[i], blockedText));
      assert NonblankAll(Repeated(sizes[i], blockedText));
    }
  }

  /**
   From any snapshot and along any turns: besides its idle turns a translation takes at most six turns for each batch,
   and one. It ends with the failed batches named, or complete, and then the merged captions are the
   input's captions in order, with nothing but texts changed.
   */
  lemma TranslationEnds(segments: seq<Segment>, groups: seq<G.Group>, blockedText: string,
                        file: File<Reply>, script: seq<Round<Reply>>)
    requires Flatten(groups) == segments && Strip(blockedText) != ""
    ensures Inv(Queue(groups, blockedText), Load(Queue(groups, blockedText), file))
    ensures var cfg := Queue(groups, blockedText);
      var end := RunFrom(cfg, Load(cfg, file), script);
      && !end.Escaped? && ProperEnd(cfg, end)
      && (CleanFile(file) ==> BlocksListed(end))
      && (|script| > 6 * cfg.count + IdleTurns(cfg, Load(cfg, file), script) ==> end.Complete? || end.Partial?)
      && (end.Complete? ==> Merges(segments, groups, end.results))
  {
    hide Strip;
    var cfg := Queue(groups, blockedText);
    QueueFacts(groups, blockedText);
    LoadInv(cfg, file);
    QueueRuns.LoadAccepted(cfg, file);
    var s := Load(cfg, file);
    Sentences.NoEscape(cfg, s, script);
    RunEnds(cfg, s, script);
    RunAccepted(cfg, s, script);
    LoadedTerminates(cfg, file, script);
    var end := RunFrom(cfg, s, script);
    if end.Complete? {
      CompleteMerges(segments, groups, blockedText, end.results);
    }
  }

  lemma CompleteMerges(segments: seq<Segment>, groups: seq<G.Group>, blockedText: string, results: map<nat, Reply>)
    requires Flatten(groups) == segments
    requires ProperEnd(Queue(groups, blockedText), Complete(results))
    requires QueueRuns.Accepted(Queue(groups, blockedText), results)
    ensures Merges(segments, groups, results)
  {
    hide Strip;
    var cfg := Queue(groups, blockedText);
    assert T.AllAnswered(G.Batches(groups), TextMap(results)) by {
      forall b: nat | b < cfg.count ensures |TextMap(results)[b]| == |G.Batches(groups)[b]| {
        assert cfg.validate(b, results[b]) == Some(results[b]);
      }
    }
    T.CompleteKeepsTiming(segments, groups, TextMap(results));
  }

  ghost predicate Merges(segments: seq<Segment>, groups: seq<G.Group>, results: map<nat, Reply>) {
    && T.AllAnswered(G.Batches(groups), TextMap(results))
    && var merged := T.Merged(G.Batches(groups), TextMap(results), T.Order(TextMap(results)));
      && |merged| == |segments|
      && forall k :: 0 <= k < |segments| ==> merged[k].(text := segments[k].text) == segments[k]
  }

  /** In every state of every run at most three batches are being sent, and none has been sent more than three times. */
  lemma TranslationLimits(groups: seq<G.Group>, blockedText: string, disk: File<Reply>,
                          steps: seq<QueueRuns.Step<Reply>>)
    requires QueueRuns.EnabledRun(Queue(groups, blockedText), QueueRuns.Initial(disk), steps)
    ensures var w := QueueRuns.Run(Queue(groups, blockedText), QueueRuns.Initial(disk), steps);
      w.process.Some? ==> |w.process.value.running| <= 3 && forall i: nat :: QueueRuns.StartsOf(w.seen, i) <= 3
  {
    QueueRuns.ReachableSafe(Queue(groups, blockedText), disk, steps);
  }

  /** A refused batch of up to forty groups is stored with the placeholder's text for each of them. */
  lemma RefusedBatch(groups: seq<G.Group>, blockedText: string, b: nat)
    requires 40 * b < |groups| && Strip(blockedText) != ""
    ensures var cfg := Queue(groups, blockedText);
      && b < cfg.count && cfg.blocked.Some?
      && var stored := cfg.validate(b, cfg.blocked.value(b));
      && stored.Some? && stored.value.Texts?
      && |stored.value.texts| == (if |groups| - 40 * b < 40 then |groups| - 40 * b else 40)
      && forall k :: 0 <= k < |stored.value.texts| ==> stored.value.texts[k] == blockedText
  {
    G.BatchCount(groups);
    G.BatchAt(groups, b);
    assert NonblankAll(Repeated(Sizes(groups)[b], blockedText));
  }
}
