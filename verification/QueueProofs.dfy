/** What every reachable state of the segment queue keeps, why the queue terminates, and what it returns. */
module QueueProofs {
  import opened Wrappers
  import opened SegmentQueue

  // ----- the invariant -----

  predicate ExactlyOne(a: bool, b: bool, c: bool, d: bool, e: bool) {
    || (a && !b && !c && !d && !e)
    || (!a && b && !c && !d && !e)
    || (!a && !b && c && !d && !e)
    || (!a && !b && !c && d && !e)
    || (!a && !b && !c && !d && e)
  }

  /** Index i is in exactly one place if it is a segment, else in none. */
  ghost predicate Placed<R>(s: State<R>, i: nat, count: nat) {
    if i < count then ExactlyOne(i in s.pending, i in s.retries, i in s.running, i in s.results, i in s.failed)
    else i !in s.pending && i !in s.retries && i !in s.running && i !in s.results && i !in s.failed
  }

  ghost predicate Distinct<T>(q: seq<T>) {
    forall j, k :: 0 <= j < k < |q| ==> q[j] != q[k]
  }

  ghost predicate Partition<R>(s: State<R>, count: nat) {
    && (forall i: nat :: Placed(s, i, count))
    && Distinct(s.pending)
    && Distinct(s.failed)
  }

  /** The number of attempts an index can use in one run. */
  function Most<R>(cfg: Config<R>): nat {
    if cfg.attempts >= 1 then cfg.attempts else 1
  }

  ghost predicate Budget<R>(cfg: Config<R>, s: State<R>) {
    && (forall i :: i in s.pending ==> Attempts(s, i) == 0)
    && (forall i :: i in s.retries ==> 1 <= Attempts(s, i) < Most(cfg))
    && (forall i :: i in s.running ==> 1 <= Attempts(s, i))
    && (forall i: nat :: Attempts(s, i) <= Most(cfg))
  }

  ghost predicate BlockPlaced<R>(s: State<R>, b: ContentBlock) {
    b.segment >= 1 && ((b.segment - 1) as nat in s.results || (b.segment - 1) as nat in s.failed)
  }

  ghost predicate BlocksPlaced<R>(s: State<R>) {
    forall k :: 0 <= k < |s.blocks| ==> BlockPlaced(s, s.blocks[k])
  }

  ghost predicate DistinctBlocks(blocks: seq<ContentBlock>) {
    forall j, k :: 0 <= j < k < |blocks| ==> blocks[j].segment != blocks[k].segment
  }

  ghost predicate Inv<R>(cfg: Config<R>, s: State<R>) {
    && Partition(s, cfg.count)
    && Budget(cfg, s)
    && (|s.running| <= cfg.concurrency || s.running == {})
    && (s.halted <==> s.failed != [])
    && BlocksPlaced(s)
    && !s.raised
  }

  lemma {:induction false} KnownBlocksPlaced<R>(blocks: seq<ContentBlock>, results: map<nat, R>)
    ensures forall b :: b in KnownBlocks(blocks, results) ==>
      b.segment >= 1 && (b.segment - 1) as nat in results && b in blocks
  {
    if blocks != [] {
      KnownBlocksPlaced(blocks[..|blocks| - 1], results);
      assert forall b :: b in blocks[..|blocks| - 1] ==> b in blocks;
    }
  }

  lemma DistinctAppend(blocks: seq<ContentBlock>, b: ContentBlock)
    ensures DistinctBlocks(blocks + [b]) <==>
      DistinctBlocks(blocks) && forall c :: c in blocks ==> c.segment != b.segment
  {
    var all := blocks + [b];
    assert all[|blocks|] == b && forall k :: 0 <= k < |blocks| ==> all[k] == blocks[k];
    assert forall k :: 0 <= k < |blocks| ==> blocks[k] in blocks;
  }

  lemma {:induction false} KnownBlocksDistinct<R>(blocks: seq<ContentBlock>, results: map<nat, R>)
    requires DistinctBlocks(blocks)
    ensures DistinctBlocks(KnownBlocks(blocks, results))
  {
    hide DistinctBlocks;
    if blocks == [] {
      NoBlocksDistinct();
    } else {
      var n := |blocks| - 1;
      var before, b := KnownBlocks(blocks[..n], results), blocks[n];
      assert blocks == blocks[..n] + [b];
      DistinctAppend(blocks[..n], b);
      KnownBlocksDistinct(blocks[..n], results);
      KnownBlocksPlaced(blocks[..n], results);
      DistinctAppend(before, b);
      assert before + [] == before;
    }
  }

  lemma NoBlocksDistinct()
    ensures DistinctBlocks([])
  {
  }

  /** The snapshot reports no segment twice. */
  ghost predicate CleanFile<R>(file: File<R>) {
    file.Saved? ==> DistinctBlocks(file.blocks)
  }

  /** Whatever the snapshot file holds, a loaded queue satisfies the invariant. */
  lemma LoadInv<R>(cfg: Config<R>, file: File<R>)
    ensures Inv(cfg, Load(cfg, file))
    ensures CleanFile(file) ==> DistinctBlocks(Load(cfg, file).blocks)
  {
    var s := Load(cfg, file);
    if file.Saved? {
      KnownBlocksPlaced(file.blocks, s.results);
      if CleanFile(file) {
        KnownBlocksDistinct(file.blocks, s.results);
      }
      assert forall k :: 0 <= k < |s.blocks| ==> s.blocks[k] in s.blocks;
    }
    assert forall i: nat :: Attempts(s, i) == 0;
  }

  // ----- admission -----

  /** Which index an admission starts. */
  function Next<R>(s: State<R>, now: real): nat
    requires AdmitOne(s, now).Some?
  {
    if HasReady(s, now) then NextReady(s, now) else s.pending[0]
  }

  lemma AdmitOnePlaces<R>(cfg: Config<R>, s: State<R>, now: real)
    requires Inv(cfg, s) && AdmitOne(s, now).Some?
    ensures Partition(AdmitOne(s, now).value, cfg.count)
    ensures Next(s, now) !in s.running && (Next(s, now) in s.pending || IsReady(s, now, Next(s, now)))
  {
    hide Budget, BlocksPlaced, Attempts;
    var t := AdmitOne(s, now).value;
    var i := Next(s, now);
    assert Placed(s, i, cfg.count);
    if !HasReady(s, now) {
      assert s.pending == [i] + t.pending;
    }
    forall j: nat ensures Placed(t, j, cfg.count) {
      assert Placed(s, j, cfg.count);
      if !HasReady(s, now) {
        assert j in s.pending <==> j == i || j in t.pending;
        assert i !in t.pending;
      }
    }
  }

  lemma StartedAttempts<R>(u: State<R>, i: nat)
    ensures forall j: nat :: Attempts(Started(u, i), j) == Attempts(u, j) + if j == i then 1 else 0
  {
  }

  /** Starting one index that has attempts left keeps the budget of all. */
  lemma StartedBudget<R>(cfg: Config<R>, s: State<R>, u: State<R>, i: nat)
    requires Budget(cfg, s) && Attempts(s, i) < Most(cfg)
    requires u.counts == s.counts && u.running == s.running
    requires forall j :: j in u.pending ==> j in s.pending && j != i
    requires forall j :: j in u.retries ==> j in s.retries && j != i
    ensures Budget(cfg, Started(u, i))
  {
    hide Started;
    StartedAttempts(u, i);
    assert forall j: nat :: Attempts(u, j) == Attempts(s, j);
    StartedPlaces(u, i);
  }

  lemma StartedPlaces<R>(u: State<R>, i: nat)
    ensures Started(u, i).pending == u.pending && Started(u, i).retries == u.retries
    ensures Started(u, i).running == u.running + {i}
  {
  }

  /** What waits after the next admission waited before it, and is not the index that was started. */
  lemma AdmitOneRemains<R>(cfg: Config<R>, s: State<R>, now: real) returns (u: State<R>)
    requires Inv(cfg, s) && AdmitOne(s, now).Some?
    ensures AdmitOne(s, now) == Some(Started(u, Next(s, now)))
    ensures u.counts == s.counts && u.running == s.running
    ensures forall j :: j in u.pending ==> j in s.pending && j != Next(s, now)
    ensures forall j :: j in u.retries ==> j in s.retries && j != Next(s, now)
  {
    hide Budget, Started, BlocksPlaced;
    var i := Next(s, now);
    assert Placed(s, i, cfg.count);
    if HasReady(s, now) {
      u := s.(retries := s.retries - {i});
    } else {
      u := s.(pending := s.pending[1..]);
      forall j | j in u.pending ensures j in s.pending && j != i {
        var k :| 0 <= k < |u.pending| && u.pending[k] == j;
        assert s.pending[k + 1] == j && s.pending[0] != s.pending[k + 1];
      }
    }
  }

  lemma AdmitOneBudget<R>(cfg: Config<R>, s: State<R>, now: real)
    requires Inv(cfg, s) && AdmitOne(s, now).Some?
    ensures Budget(cfg, AdmitOne(s, now).value)
  {
    hide Partition, Started, AdmitOne;
    var u := AdmitOneRemains(cfg, s, now);
    NextAttempts(cfg, s, now);
    StartedBudget(cfg, s, u, Next(s, now));
  }

  lemma NextAttempts<R>(cfg: Config<R>, s: State<R>, now: real)
    requires Budget(cfg, s) && AdmitOne(s, now).Some?
    ensures Attempts(s, Next(s, now)) < Most(cfg)
  {
    hide Started;
  }

  lemma AdmitOneInv<R>(cfg: Config<R>, s: State<R>, now: real)
    requires Inv(cfg, s) && AdmitOne(s, now).Some? && |s.running| < cfg.concurrency
    ensures Inv(cfg, AdmitOne(s, now).value)
  {
    hide Partition, Budget, BlockPlaced;
    AdmitOnePlaces(cfg, s, now);
    AdmitOneBudget(cfg, s, now);
    AdmitOneRest(cfg, s, now);
  }

  lemma AdmitOneRest<R>(cfg: Config<R>, s: State<R>, now: real)
    requires AdmitOne(s, now).Some?
    ensures var t := AdmitOne(s, now).value;
      && |t.running| <= |s.running| + 1
      && t.results == s.results && t.failed == s.failed && t.blocks == s.blocks
      && t.halted == s.halted && t.cooldown == s.cooldown && t.raised == s.raised
    ensures BlocksPlaced(s) ==> BlocksPlaced(AdmitOne(s, now).value)
  {
    var t := AdmitOne(s, now).value;
    assert BlocksPlaced(s) ==> forall k :: 0 <= k < |t.blocks| ==> BlockPlaced(s, s.blocks[k]);
  }

  lemma {:induction false} AdmitAllInv<R>(cfg: Config<R>, s: State<R>, now: real)
    requires Inv(cfg, s)
    ensures Inv(cfg, AdmitAll(cfg, s, now))
    ensures var t := AdmitAll(cfg, s, now);
      && t.results == s.results && t.failed == s.failed && t.blocks == s.blocks
      && t.halted == s.halted && t.cooldown == s.cooldown && t.raised == s.raised
    decreases Waiting(s)
  {
    hide AdmitOne, Inv;
    AdmitOneShrinks(s, now);
    if |s.running| < cfg.concurrency && AdmitOne(s, now).Some? {
      AdmitOneInv(cfg, s, now);
      AdmitOneRest(cfg, s, now);
      AdmitAllInv(cfg, AdmitOne(s, now).value, now);
    }
  }

  // ----- settling -----

  lemma ResultInv<R>(cfg: Config<R>, s: State<R>, i: nat, v: R)
    requires Inv(cfg, s) && i in s.running
    ensures Inv(cfg, s.(running := s.running - {i}, results := s.results[i := v]))
  {
    var t := s.(running := s.running - {i}, results := s.results[i := v]);
    assert Placed(s, i, cfg.count);
    forall j: nat ensures Placed(t, j, cfg.count) && Attempts(t, j) == Attempts(s, j) {
      assert Placed(s, j, cfg.count);
    }
    forall k | 0 <= k < |t.blocks| ensures BlockPlaced(t, t.blocks[k]) {
      assert BlockPlaced(s, s.blocks[k]);
    }
  }

  lemma FailInv<R>(cfg: Config<R>, s: State<R>, i: nat)
    requires Inv(cfg, s) && i in s.running
    ensures Inv(cfg, Fail(s.(running := s.running - {i}), i))
  {
    var t := Fail(s.(running := s.running - {i}), i);
    assert Placed(s, i, cfg.count);
    assert forall k :: 0 <= k < |s.failed| ==> s.failed[k] in s.failed;
    forall j: nat ensures Placed(t, j, cfg.count) && Attempts(t, j) == Attempts(s, j) {
      assert Placed(s, j, cfg.count);
    }
    forall k | 0 <= k < |t.blocks| ensures BlockPlaced(t, t.blocks[k]) {
      assert BlockPlaced(s, s.blocks[k]);
    }
  }

  lemma RetryInv<R>(cfg: Config<R>, s: State<R>, i: nat, due: real, cooldown: real)
    requires Inv(cfg, s) && i in s.running && Attempts(s, i) < cfg.attempts
    ensures Inv(cfg, s.(running := s.running - {i}, retries := s.retries[i := due], cooldown := cooldown))
  {
    var t := s.(running := s.running - {i}, retries := s.retries[i := due], cooldown := cooldown);
    assert Placed(s, i, cfg.count);
    forall j: nat ensures Placed(t, j, cfg.count) && Attempts(t, j) == Attempts(s, j) {
      assert Placed(s, j, cfg.count);
    }
    forall k | 0 <= k < |t.blocks| ensures BlockPlaced(t, t.blocks[k]) {
      assert BlockPlaced(s, s.blocks[k]);
    }
  }

  lemma RetryOrFailInv<R>(cfg: Config<R>, s: State<R>, i: nat, delay: real, shared: bool, now: real)
    requires Inv(cfg, s) && i in s.running
    ensures Attempts(s.(running := s.running - {i}), i) >= 1
    ensures Inv(cfg, RetryOrFail(cfg, s.(running := s.running - {i}), i, delay, shared, now))
  {
    hide Partition, BlocksPlaced, Fail;
    var t := s.(running := s.running - {i});
    assert Attempts(t, i) == Attempts(s, i);
    if Attempts(s, i) >= cfg.attempts {
      FailInv(cfg, s, i);
    } else {
      var due := now + Backoff(Attempts(s, i), delay);
      RetryInv(cfg, s, i, due, if shared && due > s.cooldown then due else s.cooldown);
    }
  }

  lemma AddBlockInv<R>(cfg: Config<R>, s: State<R>, b: ContentBlock)
    requires Inv(cfg, s) && BlockPlaced(s, b)
    ensures Inv(cfg, s.(blocks := s.blocks + [b]))
  {
    var t := s.(blocks := s.blocks + [b]);
    forall j: nat ensures Placed(t, j, cfg.count) && Attempts(t, j) == Attempts(s, j) {
      assert Placed(s, j, cfg.count);
    }
    forall k | 0 <= k < |t.blocks| ensures BlockPlaced(t, t.blocks[k]) {
      assert k < |s.blocks| ==> BlockPlaced(s, s.blocks[k]);
    }
  }

  /** Settling an operation keeps the invariant unless a rejected placeholder ends the run. */
  lemma SettleInv<R>(cfg: Config<R>, s: State<R>, i: nat, outcome: Outcome<R>, now: real)
    requires Inv(cfg, s) && i in s.running
    ensures Attempts(s, i) >= 1
    ensures Settle(cfg, s, i, outcome, now).raised || Inv(cfg, Settle(cfg, s, i, outcome, now))
  {
    match outcome
    case Returned(result) =>
      if cfg.validate(i, result).Some? {
        ResultInv(cfg, s, i, cfg.validate(i, result).value);
      } else {
        RetryOrFailInv(cfg, s, i, 0.0, false, now);
      }
    case ContentBlocked(reason) =>
      SettleBlockedInv(cfg, s, i, reason, now);
    case StorageFull =>
      FailInv(cfg, s, i);
    case Retryable(delay, shared) =>
      RetryOrFailInv(cfg, s, i, delay, shared, now);
    case Fatal =>
      FailInv(cfg, s, i);
  }

  lemma SettleBlockedInv<R>(cfg: Config<R>, s: State<R>, i: nat, reason: string, now: real)
    requires Inv(cfg, s) && i in s.running
    ensures Attempts(s, i) >= 1
    ensures var t := Settle(cfg, s, i, ContentBlocked(reason), now); t.raised || Inv(cfg, t)
  {
    var b := ContentBlock(i + 1, reason);
    if cfg.blocked.None? {
      FailInv(cfg, s, i);
      AddBlockInv(cfg, Fail(s.(running := s.running - {i}), i), b);
    } else if cfg.validate(i, cfg.blocked.value(i)).Some? {
      var v := cfg.validate(i, cfg.blocked.value(i)).value;
      ResultInv(cfg, s, i, v);
      AddBlockInv(cfg, s.(running := s.running - {i}, results := s.results[i := v]), b);
    }
  }

  /** Content blocks stay distinct: a segment is reported once. */
  lemma SettleDistinct<R>(cfg: Config<R>, s: State<R>, i: nat, outcome: Outcome<R>, now: real)
    requires Inv(cfg, s) && i in s.running && Attempts(s, i) >= 1
    requires DistinctBlocks(s.blocks)
    ensures DistinctBlocks(Settle(cfg, s, i, outcome, now).blocks)
    ensures s.blocks <= Settle(cfg, s, i, outcome, now).blocks
  {
    forall k | 0 <= k < |s.blocks| ensures s.blocks[k].segment != i + 1 {
      assert BlockPlaced(s, s.blocks[k]);
      assert Placed(s, i, cfg.count);
    }
  }

  // ----- draining -----

  /** Results are only added, and after halting nothing is admitted any more; successes are still stored. */
  lemma SettleKeeps<R>(cfg: Config<R>, s: State<R>, i: nat, outcome: Outcome<R>, now: real)
    requires Inv(cfg, s) && i in s.running && Attempts(s, i) >= 1
    ensures var t := Settle(cfg, s, i, outcome, now);
      && (forall k :: k in s.results ==> k in t.results && t.results[k] == s.results[k])
      && (s.halted ==> t.halted)
      && t.running == s.running - {i}
      && t.counts == s.counts
      && (outcome.Returned? && cfg.validate(i, outcome.result).Some? ==>
            i in t.results && t.results[i] == cfg.validate(i, outcome.result).value)
      && (t.failed != s.failed ==> t.failed == s.failed + [i])
  {
    assert Placed(s, i, cfg.count);
  }

  lemma HaltedAdmitsNothing<R>(cfg: Config<R>, s: State<R>, now: real)
    requires s.failed != [] && Inv(cfg, s)
    ensures Admit(cfg, s, now) == s
  {
  }

  /** An admitted index was untouched or due, and the shared cooldown had passed. */
  lemma {:induction false} AdmitAllTimes<R>(cfg: Config<R>, s: State<R>, now: real, i: nat)
    requires Inv(cfg, s)
    requires i in AdmitAll(cfg, s, now).running && i !in s.running
    ensures i in s.pending || (i in s.retries && s.retries[i] <= now)
    ensures i !in s.results
    decreases Waiting(s)
  {
    AdmitOneShrinks(s, now);
    if |s.running| < cfg.concurrency && AdmitOne(s, now).Some? {
      var t := AdmitOne(s, now).value;
      AdmitOneInv(cfg, s, now);
      AdmitOnePlaces(cfg, s, now);
      assert Placed(s, i, cfg.count);
      if i != Next(s, now) {
        AdmitAllTimes(cfg, t, now, i);
        assert i in t.pending ==> i in s.pending;
      }
    }
  }

  /** Running operations keep running, and an index that is not admitted keeps its place and its attempts. */
  lemma {:induction false} AdmitAllKeeps<R>(cfg: Config<R>, s: State<R>, now: real, i: nat)
    requires Inv(cfg, s)
    ensures var t := AdmitAll(cfg, s, now);
      && (i in s.running ==> i in t.running && Attempts(t, i) == Attempts(s, i))
      && (i in t.running && i !in s.running ==> Attempts(t, i) == Attempts(s, i) + 1)
      && (i !in t.running ==> Attempts(t, i) == Attempts(s, i) && (i in t.retries <==> i in s.retries))
      && (i in t.retries ==> i in s.retries && t.retries[i] == s.retries[i])
    decreases Waiting(s)
  {
    AdmitOneShrinks(s, now);
    if |s.running| < cfg.concurrency && AdmitOne(s, now).Some? {
      AdmitOneInv(cfg, s, now);
      AdmitOnePlaces(cfg, s, now);
      assert Placed(s, Next(s, now), cfg.count);
      AdmitAllKeeps(cfg, AdmitOne(s, now).value, now, i);
    }
  }

  // ----- termination -----

  /** What index i can still cost: two steps for every attempt left, and one for an attempt under way. */
  function Potential<R>(cfg: Config<R>, s: State<R>, i: nat): nat {
    var left := if Attempts(s, i) <= Most(cfg) then Most(cfg) - Attempts(s, i) else 0;
    if i in s.pending || i in s.retries then 2 * left
    else if i in s.running then 2 * left + 1
    else 0
  }

  function Total<R>(cfg: Config<R>, s: State<R>, n: nat): nat {
    if n == 0 then 0 else Total(cfg, s, n - 1) + Potential(cfg, s, n - 1)
  }

  lemma {:induction false} TotalDrops<R>(cfg: Config<R>, s: State<R>, t: State<R>, n: nat, i: nat)
    requires forall j: nat :: j != i ==> Potential(cfg, t, j) == Potential(cfg, s, j)
    requires Potential(cfg, t, i) < Potential(cfg, s, i)
    ensures i < n ==> Total(cfg, t, n) < Total(cfg, s, n)
    ensures n <= i ==> Total(cfg, t, n) == Total(cfg, s, n)
  {
    if n > 0 {
      TotalDrops(cfg, s, t, n - 1, i);
    }
  }

  lemma PotentialBound<R>(cfg: Config<R>, s: State<R>, i: nat)
    requires s.running == {}
    ensures Potential(cfg, s, i) <= 2 * Most(cfg)
  {
  }

  lemma OneMore(m: nat, n: nat)
    requires n > 0
    ensures m * n == m * (n - 1) + m
  {
  }

  lemma {:induction false} TotalBound<R>(cfg: Config<R>, s: State<R>, n: nat)
    requires s.running == {}
    ensures Total(cfg, s, n) <= 2 * Most(cfg) * n
  {
    hide Potential, Most;
    if n > 0 {
      TotalBound(cfg, s, n - 1);
      PotentialBound(cfg, s, n - 1);
      OneMore(2 * Most(cfg), n);
    }
  }

  /** Only the index that was started changes its cost. */
  lemma AdmitOneOthers<R>(cfg: Config<R>, s: State<R>, now: real, j: nat)
    requires Inv(cfg, s) && AdmitOne(s, now).Some? && j != Next(s, now)
    ensures Potential(cfg, AdmitOne(s, now).value, j) == Potential(cfg, s, j)
  {
    hide Budget, BlocksPlaced, Most;
    if !HasReady(s, now) {
      assert s.pending == [s.pending[0]] + s.pending[1..];
    }
  }

  lemma AdmitOneCost<R>(cfg: Config<R>, s: State<R>, now: real)
    requires Inv(cfg, s) && AdmitOne(s, now).Some?
    ensures Potential(cfg, AdmitOne(s, now).value, Next(s, now)) < Potential(cfg, s, Next(s, now))
  {
    hide BlocksPlaced, Most, AdmitOne;
    var i := Next(s, now);
    var u := AdmitOneRemains(cfg, s, now);
    StartedAttempts(u, i);
    AdmitOnePlaces(cfg, s, now);
    NextAttempts(cfg, s, now);
    assert Placed(s, i, cfg.count);
  }

  /** Every admission lowers the measure. */
  lemma AdmitOneDrops<R>(cfg: Config<R>, s: State<R>, now: real)
    requires Inv(cfg, s) && AdmitOne(s, now).Some?
    ensures Total(cfg, AdmitOne(s, now).value, cfg.count) < Total(cfg, s, cfg.count)
  {
    hide Potential, Budget, BlocksPlaced;
    var t := AdmitOne(s, now).value;
    var i := Next(s, now);
    AdmitOnePlaces(cfg, s, now);
    assert Placed(s, i, cfg.count);
    AdmitOneCost(cfg, s, now);
    forall j: nat | j != i ensures Potential(cfg, t, j) == Potential(cfg, s, j) {
      AdmitOneOthers(cfg, s, now, j);
    }
    TotalDrops(cfg, s, t, cfg.count, i);
  }

  lemma {:induction false} AdmitAllDrops<R>(cfg: Config<R>, s: State<R>, now: real)
    requires Inv(cfg, s)
    ensures Total(cfg, AdmitAll(cfg, s, now), cfg.count) + |AdmitAll(cfg, s, now).running|
      <= Total(cfg, s, cfg.count) + |s.running|
    ensures Total(cfg, AdmitAll(cfg, s, now), cfg.count) <= Total(cfg, s, cfg.count)
    decreases Waiting(s)
  {
    AdmitOneShrinks(s, now);
    if |s.running| < cfg.concurrency && AdmitOne(s, now).Some? {
      AdmitOneInv(cfg, s, now);
      AdmitOneRest(cfg, s, now);
      AdmitOneDrops(cfg, s, now);
      AdmitAllDrops(cfg, AdmitOne(s, now).value, now);
    }
  }

  lemma SettleOthers<R>(cfg: Config<R>, s: State<R>, i: nat, outcome: Outcome<R>, now: real, j: nat)
    requires Attempts(s, i) >= 1 && j != i
    ensures Potential(cfg, Settle(cfg, s, i, outcome, now), j) == Potential(cfg, s, j)
  {
    hide Settle, Most, Backoff;
    SettleMembers(cfg, s, i, outcome, now);
  }

  /** A settled operation is not running any more; nothing but a retry of its own is added. */
  lemma SettleMembers<R>(cfg: Config<R>, s: State<R>, i: nat, outcome: Outcome<R>, now: real)
    requires Attempts(s, i) >= 1
    ensures var t := Settle(cfg, s, i, outcome, now);
      && t.pending == s.pending && t.counts == s.counts && t.running == s.running - {i}
      && (forall j :: j != i ==> (j in t.retries <==> j in s.retries))
  {
    hide RetryOrFail, Backoff;
    var t := s.(running := s.running - {i});
    match outcome
    case Returned(result) => RetryMembers(cfg, t, i, 0.0, false, now);
    case Retryable(delay, shared) => RetryMembers(cfg, t, i, delay, shared, now);
    case _ =>
  }

  lemma RetryMembers<R>(cfg: Config<R>, s: State<R>, i: nat, delay: real, shared: bool, now: real)
    requires Attempts(s, i) >= 1
    ensures var t := RetryOrFail(cfg, s, i, delay, shared, now);
      && t.pending == s.pending && t.counts == s.counts && t.running == s.running
      && (forall j :: j != i ==> (j in t.retries <==> j in s.retries))
  {
    hide Backoff;
  }

  lemma SettleCost<R>(cfg: Config<R>, s: State<R>, i: nat, outcome: Outcome<R>, now: real)
    requires Attempts(s, i) >= 1 && i in s.running && i !in s.pending && i !in s.retries
    ensures Potential(cfg, Settle(cfg, s, i, outcome, now), i) < Potential(cfg, s, i)
  {
    hide Most, Backoff;
  }

  /** Every settled operation lowers the measure. */
  lemma SettleDrops<R>(cfg: Config<R>, s: State<R>, i: nat, outcome: Outcome<R>, now: real)
    requires Inv(cfg, s) && i in s.running && Attempts(s, i) >= 1
    ensures Total(cfg, Settle(cfg, s, i, outcome, now), cfg.count) < Total(cfg, s, cfg.count)
  {
    hide Settle, Potential, Budget, BlocksPlaced;
    assert Placed(s, i, cfg.count);
    var t := Settle(cfg, s, i, outcome, now);
    SettleCost(cfg, s, i, outcome, now);
    forall j: nat | j != i ensures Potential(cfg, t, j) == Potential(cfg, s, j) {
      SettleOthers(cfg, s, i, outcome, now, j);
    }
    TotalDrops(cfg, s, t, cfg.count, i);
  }

  /**
   Unless it has halted, a queue with work left and a slot admits something once cooldown and a backoff have passed.
   */
  lemma AdmitProgress<R>(cfg: Config<R>, s: State<R>, now: real)
    requires Inv(cfg, s) && s.failed == [] && cfg.concurrency >= 1 && s.running == {}
    requires now >= s.cooldown
    requires s.pending != [] || exists i :: i in s.retries && IsReady(s, now, i)
    ensures Admit(cfg, s, now).running != {}
  {
    var t := AdmitOne(s, now).value;
    AdmitOneInv(cfg, s, now);
    AdmitAllKeeps(cfg, t, now, Next(s, now));
  }

  // ----- the end -----

  /** The loop condition of the program, and its exit after draining. */
  predicate Finished<R>(s: State<R>) {
    s.running == {} && ((s.pending == [] && s.retries == map[]) || s.halted)
  }

  /** A finished queue has a result for every segment, or failures and every success. */
  lemma FinishedOutcome<R>(cfg: Config<R>, s: State<R>)
    requires Inv(cfg, s) && Finished(s)
    ensures s.failed == [] ==> forall i: nat :: i in s.results <==> i < cfg.count
    ensures s.failed != [] ==> exists i: nat :: i < cfg.count && i in s.failed && i !in s.results
    ensures forall i: nat :: i in s.results ==> i < cfg.count && i !in s.failed
    ensures forall k :: 0 <= k < |s.blocks| ==> BlockPlaced(s, s.blocks[k])
  {
    forall i: nat
      ensures s.failed == [] ==> (i in s.results <==> i < cfg.count)
      ensures i in s.results ==> i < cfg.count && i !in s.failed
    {
      assert Placed(s, i, cfg.count);
    }
    if s.failed != [] {
      assert s.failed[0] in s.failed;
      assert Placed(s, s.failed[0], cfg.count);
    }
  }
}
