/**
 `run_segment_queue`: a bounded number of concurrent operations with retries, backoff, a shared cooldown,
 stop-and-drain and a durable snapshot. An operation is a nondeterministic outcome; a rejected result is a retry.
 */
module SegmentQueue {
  import opened Wrappers
  import Sorting

  datatype Config<!R> = Config(
    count: nat,
    concurrency: int,
    attempts: int,
    validate: (nat, R) -> Option<R>,
    blocked: Option<nat -> R>)

  datatype Outcome<R> =
    | Returned(result: R)
    | ContentBlocked(reason: string)
    | StorageFull
    | Retryable(delay: real, shared: bool)
    | Fatal

  /** `segment` counts from one, as the snapshot shows it. */
  datatype ContentBlock = ContentBlock(segment: int, reason: string)

  datatype State<R> = State(
    results: map<nat, R>,
    pending: seq<nat>,
    running: set<nat>,
    retries: map<nat, real>,
    counts: map<nat, nat>,
    failed: seq<nat>,
    blocks: seq<ContentBlock>,
    halted: bool,
    cooldown: real,
    raised: bool)

  /** The snapshot file; `Unreadable` stands for every file that is given up as a whole. */
  datatype File<R> = Missing | Unreadable | Saved(count: int, results: map<int, R>, blocks: seq<ContentBlock>)

  // ----- loading -----

  function Indices(count: nat, taken: set<nat>): (r: seq<nat>)
    ensures forall i: nat :: i in r <==> i < count && i !in taken
    ensures forall j, k :: 0 <= j < k < |r| ==> r[j] < r[k]
  {
    if count == 0 then []
    else
      var before := Indices(count - 1, taken);
      assert forall j :: 0 <= j < |before| ==> before[j] in before;
      if count - 1 in taken then before else before + [count - 1]
  }

  /** The saved results that are in range and still pass the validator. */
  function Revived<R>(cfg: Config<R>, saved: map<int, R>): map<nat, R> {
    map i: nat | i < cfg.count && i in saved && cfg.validate(i, saved[i]).Some? :: cfg.validate(i, saved[i]).value
  }

  function KnownBlocks<R>(blocks: seq<ContentBlock>, results: map<nat, R>): seq<ContentBlock> {
    if blocks == [] then []
    else
      var n := |blocks| - 1;
      var b := blocks[n];
      KnownBlocks(blocks[..n], results)
      + if b.segment >= 1 && (b.segment - 1) as nat in results then [b] else []
  }

  function Load<R>(cfg: Config<R>, file: File<R>): State<R> {
    var usable := file.Saved? && file.count == cfg.count;
    var results := if usable then Revived(cfg, file.results) else map[];
    State(results, Indices(cfg.count, results.Keys), {}, map[], map[], [],
          if usable then KnownBlocks(file.blocks, results) else [], false, 0.0, false)
  }

  // ----- admission -----

  function Attempts<R>(s: State<R>, i: nat): nat {
    if i in s.counts then s.counts[i] else 0
  }

  function Started<R>(s: State<R>, i: nat): State<R> {
    s.(counts := s.counts[i := Attempts(s, i) + 1], running := s.running + {i})
  }

  predicate IsReady<R>(s: State<R>, now: real, i: nat) {
    i in s.retries && s.retries[i] <= now
  }

  predicate HasReady<R>(s: State<R>, now: real) {
    exists i :: i in s.retries && IsReady(s, now, i)
  }

  lemma {:induction false} FirstReady<R>(s: State<R>, now: real, y: nat)
    requires IsReady(s, now, y)
    ensures exists m :: IsReady(s, now, m) && forall i :: IsReady(s, now, i) ==> m <= i
    decreases y
  {
    if x: nat :| IsReady(s, now, x) && x < y {
      FirstReady(s, now, x);
    }
  }

  /** The smallest index whose retry is due. */
  function NextReady<R>(s: State<R>, now: real): (m: nat)
    requires HasReady(s, now)
    ensures IsReady(s, now, m) && forall i :: IsReady(s, now, i) ==> m <= i
  {
    ghost var y :| IsReady(s, now, y);
    FirstReady(s, now, y);
    var m :| m in s.retries && IsReady(s, now, m) && forall i :: i in s.retries && IsReady(s, now, i) ==> m <= i;
    m
  }

  /** The next admission: the smallest due retry before the first untouched index. */
  function AdmitOne<R>(s: State<R>, now: real): Option<State<R>> {
    if HasReady(s, now) then
      var i := NextReady(s, now);
      Some(Started(s.(retries := s.retries - {i}), i))
    else if s.pending != [] then
      Some(Started(s.(pending := s.pending[1..]), s.pending[0]))
    else None
  }

  function Waiting<R>(s: State<R>): nat {
    |s.pending| + |s.retries|
  }

  lemma AdmitOneShrinks<R>(s: State<R>, now: real)
    ensures AdmitOne(s, now).Some? ==> Waiting(AdmitOne(s, now).value) < Waiting(s)
  {
    if HasReady(s, now) {
      var i := NextReady(s, now);
      assert (s.retries - {i}).Keys == s.retries.Keys - {i};
      assert |s.retries.Keys| == |s.retries| && |(s.retries - {i}).Keys| == |s.retries - {i}|;
    }
  }

  /** Admission while slots are free. */
  function AdmitAll<R>(cfg: Config<R>, s: State<R>, now: real): State<R>
    decreases Waiting(s)
  {
    AdmitOneShrinks(s, now);
    if |s.running| < cfg.concurrency && AdmitOne(s, now).Some? then AdmitAll(cfg, AdmitOne(s, now).value, now) else s
  }

  function Admit<R>(cfg: Config<R>, s: State<R>, now: real): State<R> {
    if !s.halted && now >= s.cooldown then AdmitAll(cfg, s, now) else s
  }

  // ----- settling -----

  function Pow2(k: nat): nat {
    if k == 0 then 1 else 2 * Pow2(k - 1)
  }

  function Backoff(attempt: nat, delay: real): real
    requires attempt >= 1
  {
    var exponential := Pow2(attempt - 1) as real;
    if delay > exponential then delay else exponential
  }

  function Fail<R>(s: State<R>, i: nat): State<R> {
    s.(failed := s.failed + [i], halted := true)
  }

  function RetryOrFail<R>(cfg: Config<R>, s: State<R>, i: nat, delay: real, shared: bool, now: real): State<R>
    requires Attempts(s, i) >= 1
  {
    if Attempts(s, i) >= cfg.attempts then Fail(s, i)
    else
      var due := now + Backoff(Attempts(s, i), delay);
      s.(retries := s.retries[i := due], cooldown := if shared && due > s.cooldown then due else s.cooldown)
  }

  /** One finished operation. A placeholder that the validator rejects escapes the loop as an exception. */
  function Settle<R>(cfg: Config<R>, s: State<R>, i: nat, outcome: Outcome<R>, now: real): State<R>
    requires Attempts(s, i) >= 1
  {
    var t := s.(running := s.running - {i});
    match outcome
    case Returned(result) =>
      (match cfg.validate(i, result)
       case Some(v) => t.(results := t.results[i := v])
       case None => RetryOrFail(cfg, t, i, 0.0, false, now))
    case ContentBlocked(reason) =>
      var u := t.(blocks := t.blocks + [ContentBlock(i + 1, reason)]);
      (match cfg.blocked
       case None => Fail(u, i)
       case Some(placeholder) =>
         (match cfg.validate(i, placeholder(i))
          case Some(v) => u.(results := u.results[i := v])
          case None => u.(raised := true)))
    case StorageFull => Fail(t, i)
    case Retryable(delay, shared) => RetryOrFail(cfg, t, i, delay, shared, now)
    case Fatal => Fail(t, i)
  }

  function Publish<R>(cfg: Config<R>, s: State<R>): File<R> {
    Saved(cfg.count, map i: int | i in s.results :: s.results[i as nat], s.blocks)
  }

  // ----- the loop -----

  /** A finished operation and the time at which the loop looks at it. */
  datatype Done<R> = Done(outcome: Outcome<R>, at: real)

  /** One turn of the loop: the clock at its start, and the operations that finish before its end. */
  datatype Round<R> = Round(now: real, done: map<nat, Done<R>>)

  /** The members of a set below n, in ascending order. */
  function Select(n: nat, chosen: set<nat>): (r: seq<nat>)
    ensures forall i :: i in r <==> i < n && i in chosen
    ensures forall j, k :: 0 <= j < k < |r| ==> r[j] < r[k]
  {
    if n == 0 then []
    else
      var before := Select(n - 1, chosen);
      assert forall j :: 0 <= j < |before| ==> before[j] in before;
      if n - 1 in chosen then before + [n - 1] else before
  }

  ghost predicate AllRunning<R>(s: State<R>, order: seq<nat>) {
    && (forall k :: 0 <= k < |order| ==> order[k] in s.running && Attempts(s, order[k]) >= 1)
    && (forall j, k :: 0 <= j < k < |order| ==> order[j] != order[k])
  }

  /** Finished operations are looked at in order of their index, until an exception escapes. */
  function SettleAll<R>(cfg: Config<R>, s: State<R>, done: map<nat, Done<R>>, order: seq<nat>): State<R>
    requires AllRunning(s, order)
    requires forall k :: 0 <= k < |order| ==> order[k] in done
    decreases |order|
  {
    if order == [] || s.raised then s
    else
      var i := order[0];
      var t := Settle(cfg, s, i, done[i].outcome, done[i].at);
      SettleFrame(cfg, s, order, done[i]);
      SettleAll(cfg, t, done, order[1..])
  }

  lemma SettleFrame<R>(cfg: Config<R>, s: State<R>, order: seq<nat>, d: Done<R>)
    requires order != [] && AllRunning(s, order)
    ensures AllRunning(Settle(cfg, s, order[0], d.outcome, d.at), order[1..])
  {
    var t := Settle(cfg, s, order[0], d.outcome, d.at);
    assert t.running == s.running - {order[0]} && t.counts == s.counts;
    assert forall k :: 0 <= k < |order[1..]| ==> order[1..][k] == order[k + 1];
  }

  /** `Partial` is the error that is raised, with the failures and the blocked segments in order. */
  datatype End<R> =
    | Complete(results: map<nat, R>)
    | Partial(results: map<nat, R>, failed: seq<nat>, blocks: seq<ContentBlock>)
    | Escaped
    | Interrupted

  predicate WorkLeft<R>(s: State<R>) {
    s.pending != [] || s.retries != map[] || s.running != {}
  }

  function EndOf<R>(s: State<R>): End<R> {
    if s.failed != [] then Partial(s.results, SortedIndices(s.failed), SortedBlocks(s.blocks)) else Complete(s.results)
  }

  predicate SegmentNotAfter(a: ContentBlock, b: ContentBlock) {
    a.segment <= b.segment
  }

  function SortedBlocks(blocks: seq<ContentBlock>): seq<ContentBlock> {
    Sorting.Sort(SegmentNotAfter, blocks)
  }

  predicate NotAfter(a: nat, b: nat) {
    a <= b
  }

  function SortedIndices(failed: seq<nat>): seq<nat> {
    Sorting.Sort(NotAfter, failed)
  }

  function Finishing<R>(cfg: Config<R>, s: State<R>, r: Round<R>): seq<nat> {
    Select(cfg.count, s.running * r.done.Keys)
  }
}
