/** `validate_sentences`: what a transcription reply must be, and what the segment queue stores for it. */
module Sentences {
  import opened Wrappers
  import opened Sorting
  import opened Text
  import opened SegmentQueue
  import opened QueueProofs
  import opened QueueLoop
  import opened QueueTermination
  import opened QueueRuns

  /** A JSON value in a numeric place; booleans, strings and infinite numbers are not usable. */
  datatype Number = Unusable | Number(value: real)

  datatype Item = NotObject | Item(start: Number, end: Number, text: Option<string>)

  /** A decoded reply. */
  datatype Reply = NotList | Items(items: seq<Item>)

  datatype Sentence = Sentence(start: real, end: real, text: string)

  datatype ReplyError = BadList | BadDuration | BadObject | BadTimestamps | BadText

  const MOST_ITEMS := 1000
  const MOST_CHARACTERS := 4000

  predicate StartsFirst(a: Sentence, b: Sentence) {
    a.start <= b.start
  }

  predicate LegalTimes(item: Item, duration: real) {
    && item.Item? && item.start.Number? && item.end.Number?
    && 0.0 <= item.start.value < item.end.value <= duration + 0.1
    && item.start.value < duration
  }

  predicate LegalText(item: Item) {
    item.Item? && item.text.Some? && Strip(item.text.value) != "" && |item.text.value| <= MOST_CHARACTERS
  }

  predicate LegalItem(item: Item, duration: real) {
    LegalTimes(item, duration) && LegalText(item)
  }

  function Fault(item: Item, duration: real): ReplyError {
    if item.NotObject? then BadObject else if !LegalTimes(item, duration) then BadTimestamps else BadText
  }

  function Clean(item: Item, duration: real): Sentence
    requires LegalItem(item, duration)
  {
    var end := if item.end.value < duration then item.end.value else duration;
    Sentence(item.start.value, end, Strip(item.text.value))
  }

  ghost predicate AllLegal(items: seq<Item>, duration: real) {
    forall k :: 0 <= k < |items| ==> LegalItem(items[k], duration)
  }

  ghost function CleanAll(items: seq<Item>, duration: real): (r: seq<Sentence>)
    requires AllLegal(items, duration)
    ensures |r| == |items|
    ensures forall k :: 0 <= k < |items| ==> r[k] == Clean(items[k], duration)
  {
    seq(|items|, k requires 0 <= k < |items| => Clean(items[k], duration))
  }

  /** The first fault in the list decides the error. */
  ghost predicate FirstFault(items: seq<Item>, duration: real, error: ReplyError) {
    exists k :: 0 <= k < |items| && AllLegal(items[..k], duration) && !LegalItem(items[k], duration)
      && error == Fault(items[k], duration)
  }

  ghost predicate Outcome(reply: Reply, duration: real, r: Result<seq<Sentence>, ReplyError>) {
    if reply.NotList? || |reply.items| > MOST_ITEMS then r == Err(BadList)
    else if duration <= 0.0 then r == Err(BadDuration)
    else if AllLegal(reply.items, duration) then r == Ok(Sort(StartsFirst, CleanAll(reply.items, duration)))
    else r.Err? && FirstFault(reply.items, duration, r.error)
  }

  method ValidateSentences(reply: Reply, duration: real) returns (r: Result<seq<Sentence>, ReplyError>)
    ensures Outcome(reply, duration, r)
    ensures r.Ok? <==> Acceptable(reply, duration)
    ensures r.Ok? ==> r.value == Accepted(reply, duration)
  {
    if reply.NotList? || |reply.items| > MOST_ITEMS {
      return Err(BadList);
    }
    if duration <= 0.0 {
      return Err(BadDuration);
    }
    var items := reply.items;
    var result := [];
    for k := 0 to |items|
      invariant AllLegal(items[..k], duration)
      invariant result == CleanAll(items[..k], duration)
    {
      if !LegalItem(items[k], duration) {
        return Err(Fault(items[k], duration));
      }
      result := result + [Clean(items[k], duration)];
    }
    assert items[..|items|] == items;
    return Ok(Sort(StartsFirst, result));
  }

  // ----- what is accepted, and as what -----

  ghost predicate Acceptable(reply: Reply, duration: real) {
    reply.Items? && |reply.items| <= MOST_ITEMS && duration > 0.0 && AllLegal(reply.items, duration)
  }

  ghost function Accepted(reply: Reply, duration: real): seq<Sentence>
    requires Acceptable(reply, duration)
  {
    Sort(StartsFirst, CleanAll(reply.items, duration))
  }

  /** The rules in numbers: times within a tenth of a second of the clip, and text neither blank nor too long. */
  lemma AcceptableExactly(reply: Reply, duration: real)
    ensures Acceptable(reply, duration) <==>
      && reply.Items? && |reply.items| <= 1000 && duration > 0.0
      && forall k :: 0 <= k < |reply.items| ==>
           && reply.items[k].Item? && reply.items[k].start.Number? && reply.items[k].end.Number?
           && 0.0 <= reply.items[k].start.value < reply.items[k].end.value
           && reply.items[k].start.value < duration && reply.items[k].end.value - duration <= 0.1
           && reply.items[k].text.Some? && !Blank(reply.items[k].text.value) && |reply.items[k].text.value| <= 4000
  {
    if reply.Items? {
      forall k | 0 <= k < |reply.items| && reply.items[k].Item? && reply.items[k].text.Some?
        ensures Strip(reply.items[k].text.value) == "" <==> Blank(reply.items[k].text.value)
      {
        StripShape(reply.items[k].text.value);
      }
    }
  }

  /** A sentence of the result is an item of the reply, with its end cut off at the end of the clip, and stripped. */
  predicate CleanedFrom(s: Sentence, item: Item, duration: real) {
    && item.Item? && item.start == Number(s.start) && item.end.Number? && item.text.Some?
    && s.end == (if item.end.value >= duration then duration else item.end.value) && s.text == Strip(item.text.value)
  }

  /** Every item of an accepted reply becomes one sentence. */
  lemma CleanedExactly(reply: Reply, duration: real, k: nat)
    requires Acceptable(reply, duration) && k < |reply.items|
    ensures |CleanAll(reply.items, duration)| == |reply.items|
    ensures CleanedFrom(CleanAll(reply.items, duration)[k], reply.items[k], duration)
  {
    assert LegalItem(reply.items[k], duration);
  }

  /** The validated list, as the snapshot stores it. */
  function Stored(s: Sentence): Item {
    Item(Number(s.start), Number(s.end), Some(s.text))
  }

  function AsReply(sentences: seq<Sentence>): Reply {
    Items(seq(|sentences|, k requires 0 <= k < |sentences| => Stored(sentences[k])))
  }

  predicate Tidy(s: Sentence, duration: real) {
    0.0 <= s.start < s.end <= duration && s.text != "" && Strip(s.text) == s.text && |s.text| <= MOST_CHARACTERS
  }

  lemma CleanTidy(item: Item, duration: real)
    requires LegalItem(item, duration)
    ensures Tidy(Clean(item, duration), duration)
  {
    StripIdempotent(item.text.value);
    StripShape(item.text.value);
  }

  /** Accepted lists are in order of their starts, within the clip, and hold nothing but the reply's own sentences. */
  lemma AcceptedTidy(reply: Reply, duration: real)
    requires Acceptable(reply, duration)
    ensures Sorted(StartsFirst, Accepted(reply, duration))
    ensures forall j, k :: 0 <= j < k < |Accepted(reply, duration)| ==>
      Accepted(reply, duration)[j].start <= Accepted(reply, duration)[k].start
    ensures multiset(Accepted(reply, duration)) == multiset(CleanAll(reply.items, duration))
    ensures forall k :: 0 <= k < |Accepted(reply, duration)| ==> Tidy(Accepted(reply, duration)[k], duration)
  {
    var cleaned := CleanAll(reply.items, duration);
    SortSorted(StartsFirst, cleaned);
    var out := Accepted(reply, duration);
    forall k | 0 <= k < |out| ensures Tidy(out[k], duration) {
      SortMembers(StartsFirst, cleaned);
      assert out[k] in out;
      var j :| 0 <= j < |cleaned| && cleaned[j] == out[k];
      CleanTidy(reply.items[j], duration);
    }
  }

  lemma TidyUnchanged(out: seq<Sentence>, duration: real)
    requires duration > 0.0 && |out| <= MOST_ITEMS && Sorted(StartsFirst, out)
    requires forall k :: 0 <= k < |out| ==> Tidy(out[k], duration)
    ensures Acceptable(AsReply(out), duration) && Accepted(AsReply(out), duration) == out
  {
    var items := AsReply(out).items;
    forall k | 0 <= k < |items| ensures LegalItem(items[k], duration) && Clean(items[k], duration) == out[k] {
      assert Tidy(out[k], duration);
    }
    assert CleanAll(items, duration) == out;
    SortIdentity(StartsFirst, out);
  }

  /** A list the validator has returned is accepted again, unchanged. */
  lemma AcceptedUnchanged(reply: Reply, duration: real)
    requires Acceptable(reply, duration)
    ensures Acceptable(AsReply(Accepted(reply, duration)), duration)
    ensures Accepted(AsReply(Accepted(reply, duration)), duration) == Accepted(reply, duration)
  {
    AcceptedTidy(reply, duration);
    TidyUnchanged(Accepted(reply, duration), duration);
  }

  // ----- the transcription queue -----

  ghost function Check(durations: seq<real>): (nat, Reply) -> Option<Reply> {
    (i: nat, reply: Reply) =>
      if i < |durations| && Acceptable(reply, durations[i]) then Some(AsReply(Accepted(reply, durations[i]))) else None
  }

  /** A window whose content was refused shows one placeholder for its whole length. */
  function Placeholder(durations: seq<real>, text: string): nat -> Reply {
    (i: nat) => Items([Item(Number(0.0), Number(if i < |durations| then durations[i] else 0.0), Some(text))])
  }

  ghost function TranscriptionQueue(durations: seq<real>, blockedText: string): Config<Reply> {
    Config(|durations|, 3, 3, Check(durations), Some(Placeholder(durations, blockedText)))
  }

  ghost predicate AllPositive(durations: seq<real>) {
    forall i :: 0 <= i < |durations| ==> durations[i] > 0.0
  }

  lemma TranscriptionStable(durations: seq<real>, blockedText: string)
    ensures Stable(TranscriptionQueue(durations, blockedText))
  {
    var cfg := TranscriptionQueue(durations, blockedText);
    forall i: nat, r: Reply | cfg.validate(i, r).Some?
      ensures cfg.validate(i, cfg.validate(i, r).value) == cfg.validate(i, r)
    {
      AcceptedUnchanged(r, durations[i]);
    }
  }

  /**
   Resuming a transcription: over any run with any crashes and restarts, a window whose sentences were published is
   never sent again, and published sentences are never dropped or changed.
   */
  lemma TranscriptionPublishedForever(durations: seq<real>, blockedText: string, disk: File<Reply>,
                                      steps: seq<Step<Reply>>)
    requires EnabledRun(TranscriptionQueue(durations, blockedText), Initial(disk), steps)
    ensures TraceSafe(Run(TranscriptionQueue(durations, blockedText), Initial(disk), steps).trace)
  {
    TranscriptionStable(durations, blockedText);
    PublishedForever(TranscriptionQueue(durations, blockedText), disk, steps);
  }

  ghost predicate BlockedAccepted<R>(cfg: Config<R>) {
    cfg.blocked.Some? ==> forall i: nat :: i < cfg.count ==> cfg.validate(i, cfg.blocked.value(i)).Some?
  }

  lemma {:induction false} NoneRaised<R>(cfg: Config<R>, s: State<R>, done: map<nat, Done<R>>, order: seq<nat>)
    requires BlockedAccepted(cfg) && !s.raised && AllRunning(s, order)
    requires forall k :: 0 <= k < |order| ==> order[k] in done && order[k] < cfg.count
    ensures !SettleAll(cfg, s, done, order).raised
    decreases |order|
  {
    if order != [] {
      var i := order[0];
      SettleFrame(cfg, s, order, done[i]);
      NoneRaised(cfg, Settle(cfg, s, i, done[i].outcome, done[i].at), done, order[1..]);
    }
  }

  lemma TurnNotRaised<R>(cfg: Config<R>, s: State<R>, r: SegmentQueue.Round<R>)
    requires BlockedAccepted(cfg) && Inv(cfg, s)
    ensures !AfterTurn(cfg, s, r).raised
  {
    hide BlockedAccepted, Inv;
    AdmitInv(cfg, s, r.now);
    NotRaised(cfg, s, r.now);
    var t := Admit(cfg, s, r.now);
    if t.running != {} {
      FinishingRun(cfg, t, r);
      var order := Finishing(cfg, t, r);
      forall k | 0 <= k < |order| ensures order[k] < cfg.count {
        assert order[k] in order;
      }
      NoneRaised(cfg, t, r.done, order);
    }
  }

  /** When every placeholder passes the validator, no run of the queue ends with a stray exception. */
  lemma {:induction false} NoEscape<R>(cfg: Config<R>, s: State<R>, script: seq<SegmentQueue.Round<R>>)
    requires BlockedAccepted(cfg) && Inv(cfg, s)
    ensures !RunFrom(cfg, s, script).Escaped?
    decreases |script|
  {
    hide BlockedAccepted, Inv, AfterTurn, Drained;
    if SegmentQueue.WorkLeft(s) && script != [] {
      TurnInv(cfg, s, script[0]);
      TurnNotRaised(cfg, s, script[0]);
      if !Drained(cfg, s, script[0]) {
        NoEscape(cfg, AfterTurn(cfg, s, script[0]), script[1..]);
      }
    }
  }

  /**
   From any snapshot and along any turns: besides its idle turns a transcription takes at most six turns for each
   window, and one. It ends with sentences for every window, or with the failed windows, all that succeeded, and the
   refused windows, each of them once.
   */
  lemma TranscriptionEnds(durations: seq<real>, blockedText: string, file: File<Reply>,
                          script: seq<SegmentQueue.Round<Reply>>)
    requires AllPositive(durations) && Strip(blockedText) != "" && |blockedText| <= MOST_CHARACTERS
    ensures Inv(TranscriptionQueue(durations, blockedText), Load(TranscriptionQueue(durations, blockedText), file))
    ensures var cfg := TranscriptionQueue(durations, blockedText);
      var end := RunFrom(cfg, Load(cfg, file), script);
      && !end.Escaped? && ProperEnd(cfg, end)
      && (CleanFile(file) ==> BlocksListed(end))
      && (|script| > 6 * |durations| + IdleTurns(cfg, Load(cfg, file), script) ==> end.Complete? || end.Partial?)
  {
    var cfg := TranscriptionQueue(durations, blockedText);
    LoadInv(cfg, file);
    forall i: nat | i < cfg.count ensures cfg.validate(i, cfg.blocked.value(i)).Some? {
      assert LegalItem(cfg.blocked.value(i).items[0], durations[i]);
    }
    NoEscape(cfg, Load(cfg, file), script);
    RunEnds(cfg, Load(cfg, file), script);
    LoadedTerminates(cfg, file, script);
  }

  /** In every state of every run at most three windows are being sent, and none has been sent more than three times. */
  lemma TranscriptionLimits(durations: seq<real>, blockedText: string, disk: File<Reply>, steps: seq<Step<Reply>>)
    requires EnabledRun(TranscriptionQueue(durations, blockedText), Initial(disk), steps)
    ensures var w := Run(TranscriptionQueue(durations, blockedText), Initial(disk), steps);
      w.process.Some? ==> |w.process.value.running| <= 3 && forall i: nat :: StartsOf(w.seen, i) <= 3
  {
    ReachableSafe(TranscriptionQueue(durations, blockedText), disk, steps);
  }

  /** A refused window is stored as one sentence, from the beginning to the end of its clip. */
  lemma RefusedWindow(durations: seq<real>, blockedText: string, i: nat)
    requires i < |durations| && durations[i] > 0.0 && Strip(blockedText) != "" && |blockedText| <= 4000
    ensures var cfg := TranscriptionQueue(durations, blockedText);
      && cfg.count == |durations| && cfg.blocked.Some?
      && cfg.validate(i, cfg.blocked.value(i))
           == Some(Items([Item(Number(0.0), Number(durations[i]), Some(Strip(blockedText)))]))
  {
    var cfg := TranscriptionQueue(durations, blockedText);
    var reply := cfg.blocked.value(i);
    assert LegalItem(reply.items[0], durations[i]);
    var cleaned := CleanAll(reply.items, durations[i]);
    SortIdentity(StartsFirst, cleaned);
    var sentence := Sentence(0.0, durations[i], Strip(blockedText));
    assert cleaned == [sentence];
    assert AsReply([sentence]).items == [Stored(sentence)];
  }
}
