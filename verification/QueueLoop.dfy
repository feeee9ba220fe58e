/** The loop of `run_segment_queue` on its own variables, and what a whole run ends with. */
module QueueLoop {
  import opened SegmentQueue
  import opened QueueProofs
  import Sorting

  class Queue<R(!new)> {
    const cfg: Config<R>
    var results: map<nat, R>
    var pending: seq<nat>
    var running: set<nat>
    var retries: map<nat, real>
    var counts: map<nat, nat>
    var failed: seq<nat>
    var blocks: seq<ContentBlock>
    var halted: bool
    var cooldown: real
    var raised: bool
    var disk: File<R>

    function View(): State<R>
      reads this
    {
      State(results, pending, running, retries, counts, failed, blocks, halted, cooldown, raised)
    }

    /** Loading: the saved results are revalidated one by one. */
    constructor (cfg: Config<R>, file: File<R>)
      ensures this.cfg == cfg && View() == Load(cfg, file) && disk == file
    {
      this.cfg := cfg;
      disk := file;
      results, pending, running, retries, counts := map[], [], {}, map[], map[];
      failed, blocks, halted, cooldown, raised := [], [], false, 0.0, false;
      new;
      hide KnownBlocks, Indices;
      LoadEmpty(cfg);
      if file.Saved? && file.count == cfg.count {
        for i := 0 to cfg.count
          invariant disk == file && View() == Load(cfg, Missing).(results := results, pending := [])
          invariant forall k: nat :: k in results <==> k < i && k in Revived(cfg, file.results)
          invariant forall k: nat :: k in results ==> results[k] == Revived(cfg, file.results)[k]
        {
          if i in file.results {
            var v := cfg.validate(i, file.results[i]);
            if v.Some? {
              results := results[i := v.value];
            }
          }
        }
        assert results == Revived(cfg, file.results);
        blocks := KnownBlocks(file.blocks, results);
      }
      pending := Indices(cfg.count, results.Keys);
    }

    /** Takes the next index, if there is one, and starts its operation. */
    method AdmitNext(now: real) returns (found: bool)
      modifies this
      ensures found == AdmitOne(old(View()), now).Some? && disk == old(disk)
      ensures View() == if found then AdmitOne(old(View()), now).value else old(View())
    {
      var index: nat;
      if HasReady(View(), now) {
        index := NextReady(View(), now);
        retries := retries - {index};
      } else if pending != [] {
        index := pending[0];
        pending := pending[1..];
      } else {
        return false;
      }
      counts := counts[index := (if index in counts then counts[index] else 0) + 1];
      running := running + {index};
      return true;
    }

    /** Admission of one turn; says whether anything was admitted. */
    method AdmitTurn(now: real) returns (admitted: bool)
      modifies this
      ensures View() == Admit(cfg, old(View()), now) && disk == old(disk)
      ensures admitted == Admits(cfg, old(View()), now)
    {
      admitted := false;
      if !halted && now >= cooldown {
        ghost var target := AdmitAll(cfg, View(), now);
        var more := true;
        while more && |running| < cfg.concurrency
          invariant AdmitAll(cfg, View(), now) == target
          invariant !more ==> View() == target
          invariant disk == old(disk)
          invariant admitted ==> Admits(cfg, old(View()), now)
          invariant !admitted ==> View() == old(View()) && (!more ==> !Admits(cfg, old(View()), now))
          decreases more, Waiting(View())
        {
          AdmitOneShrinks(View(), now);
          more := AdmitNext(now);
          admitted := admitted || more;
        }
      }
    }

    method RetryLater(i: nat, delay: real, shared: bool, now: real)
      requires Attempts(View(), i) >= 1
      modifies this
      ensures View() == RetryOrFail(cfg, old(View()), i, delay, shared, now) && disk == old(disk)
    {
      if counts[i] >= cfg.attempts {
        failed := failed + [i];
        halted := true;
      } else {
        var due := now + Backoff(counts[i], delay);
        retries := retries[i := due];
        if shared && due > cooldown {
          cooldown := due;
        }
      }
    }

    /** One finished operation. */
    method SettleTask(i: nat, outcome: Outcome<R>, now: real)
      requires Attempts(View(), i) >= 1
      modifies this
      ensures View() == Settle(cfg, old(View()), i, outcome, now) && disk == old(disk)
    {
      running := running - {i};
      match outcome {
        case Returned(result) =>
          var v := cfg.validate(i, result);
          if v.Some? {
            results := results[i := v.value];
          } else {
            RetryLater(i, 0.0, false, now);
          }
        case ContentBlocked(reason) =>
          blocks := blocks + [ContentBlock(i + 1, reason)];
          if cfg.blocked.None? {
            failed := failed + [i];
            halted := true;
          } else {
            var v := cfg.validate(i, cfg.blocked.value(i));
            if v.Some? {
              results := results[i := v.value];
            } else {
              raised := true;
            }
          }
        case StorageFull =>
          failed := failed + [i];
          halted := true;
        case Retryable(delay, shared) =>
          RetryLater(i, delay, shared, now);
        case Fatal =>
          failed := failed + [i];
          halted := true;
      }
    }

    /** All operations finished in one turn, in order of their index; says whether there were any. */
    method SettleTurn(r: Round<R>) returns (settled: bool)
      requires Inv(cfg, View())
      modifies this
      ensures View() == Settled(cfg, old(View()), r) && disk == old(disk)
      ensures settled == (Finishing(cfg, old(View()), r) != [])
    {
      var order := Finishing(cfg, View(), r);
      settled := order != [];
      FinishingRun(cfg, View(), r);
      ghost var target := SettleAll(cfg, View(), r.done, order);
      var k := 0;
      while k < |order| && !raised
        invariant k <= |order| && disk == old(disk)
        invariant AllRunning(View(), order[k..])
        invariant SettleAll(cfg, View(), r.done, order[k..]) == target
      {
        var i := order[k];
        assert order[k..][0] == i && order[k..][1..] == order[k + 1..];
        SettleFrame(cfg, View(), order[k..], r.done[i]);
        SettleTask(i, r.done[i].outcome, r.done[i].at);
        k := k + 1;
      }
    }

    /** The snapshot is written. */
    method WriteSnapshot()
      modifies this`disk
      ensures disk == Publish(cfg, View())
    {
      disk := Publish(cfg, View());
    }

    /**
     One turn: admission, and the finished operations, each followed by a snapshot. `over` says that the loop ends
     here.
     */
    method Turn(r: Round<R>) returns (over: bool)
      requires Inv(cfg, View())
      modifies this
      ensures View() == AfterTurn(cfg, old(View()), r) && disk == DiskAfter(cfg, old(View()), old(disk), r)
      ensures over == (View().raised || Drained(cfg, old(View()), r))
    {
      hide Admit, Settled, Inv, Admits, Publish, Finishing;
      AdmitInv(cfg, View(), r.now);
      NotRaised(cfg, View(), r.now);
      var admitted := AdmitTurn(r.now);
      if admitted {
        WriteSnapshot();
      }
      if running == {} {
        return halted;
      }
      var settled := SettleTurn(r);
      if raised {
        return true;
      }
      if settled {
        WriteSnapshot();
      }
      return false;
    }

    /** The whole loop over the turns the environment grants it. */
    method Run(script: seq<Round<R>>) returns (end: End<R>)
      requires Inv(cfg, View())
      modifies this
      ensures end == RunFrom(cfg, old(View()), script)
      ensures View() == LastFrom(cfg, old(View()), script)
      ensures disk == DiskFrom(cfg, old(View()), Publish(cfg, old(View())), script)
    {
      hide AfterTurn, DiskAfter, Drained, Inv, Publish;
      WriteSnapshot();
      ghost var begun := disk;
      var k := 0;
      assert script[0..] == script;
      while WorkLeft(View())
        invariant k <= |script|
        invariant Inv(cfg, View())
        invariant RunFrom(cfg, View(), script[k..]) == RunFrom(cfg, old(View()), script)
        invariant LastFrom(cfg, View(), script[k..]) == LastFrom(cfg, old(View()), script)
        invariant DiskFrom(cfg, View(), disk, script[k..]) == DiskFrom(cfg, old(View()), begun, script)
        decreases |script| - k
      {
        if k == |script| {
          return Interrupted;
        }
        assert script[k..][0] == script[k] && script[k..][1..] == script[k + 1..];
        TurnInv(cfg, View(), script[k]);
        var over := Turn(script[k]);
        k := k + 1;
        if raised {
          return Escaped;
        }
        if over {
          break;
        }
      }
      end := if failed != [] then Partial(results, SortedIndices(failed), SortedBlocks(blocks)) else Complete(results);
    }
  }

  lemma LoadEmpty<R>(cfg: Config<R>)
    ensures Load(cfg, Missing).(pending := []) == State(map[], [], {}, map[], map[], [], [], false, 0.0, false)
  {
  }

  /** Admission has something to start. */
  predicate Admits<R>(cfg: Config<R>, s: State<R>, now: real) {
    !s.halted && now >= s.cooldown && |s.running| < cfg.concurrency && AdmitOne(s, now).Some?
  }

  lemma NotRaised<R>(cfg: Config<R>, s: State<R>, now: real)
    requires Inv(cfg, s)
    ensures !Admit(cfg, s, now).raised
  {
    AdmitInv(cfg, s, now);
  }

  lemma FinishingRun<R>(cfg: Config<R>, s: State<R>, r: Round<R>)
    requires Inv(cfg, s)
    ensures AllRunning(s, Finishing(cfg, s, r))
    ensures forall k :: 0 <= k < |Finishing(cfg, s, r)| ==> Finishing(cfg, s, r)[k] in r.done
  {
    var order := Finishing(cfg, s, r);
    forall k | 0 <= k < |order| ensures order[k] in s.running && order[k] in r.done {
      assert order[k] in order;
    }
  }

  lemma AdmitInv<R>(cfg: Config<R>, s: State<R>, now: real)
    requires Inv(cfg, s)
    ensures Inv(cfg, Admit(cfg, s, now))
  {
    AdmitAllInv(cfg, s, now);
  }

  lemma {:induction false} SettleSeqInv<R>(cfg: Config<R>, s: State<R>, done: map<nat, Done<R>>, order: seq<nat>)
    requires Inv(cfg, s) && AllRunning(s, order)
    requires forall k :: 0 <= k < |order| ==> order[k] in done
    ensures var t := SettleAll(cfg, s, done, order); t.raised || Inv(cfg, t)
    decreases |order|
  {
    if order != [] {
      var i := order[0];
      var t := Settle(cfg, s, i, done[i].outcome, done[i].at);
      SettleInv(cfg, s, i, done[i].outcome, done[i].at);
      SettleFrame(cfg, s, order, done[i]);
      if !t.raised {
        SettleSeqInv(cfg, t, done, order[1..]);
      }
    }
  }

  /** All operations finished in one turn, looked at in order. */
  ghost function Settled<R>(cfg: Config<R>, s: State<R>, r: Round<R>): State<R>
    requires Inv(cfg, s)
  {
    FinishingRun(cfg, s, r);
    SettleAll(cfg, s, r.done, Finishing(cfg, s, r))
  }

  lemma SettledInv<R>(cfg: Config<R>, s: State<R>, r: Round<R>)
    requires Inv(cfg, s)
    ensures Settled(cfg, s, r).raised || Inv(cfg, Settled(cfg, s, r))
  {
    FinishingRun(cfg, s, r);
    SettleSeqInv(cfg, s, r.done, Finishing(cfg, s, r));
  }

  /** The state after one turn. */
  ghost function AfterTurn<R>(cfg: Config<R>, s: State<R>, r: Round<R>): State<R>
    requires Inv(cfg, s)
  {
    AdmitInv(cfg, s, r.now);
    var t := Admit(cfg, s, r.now);
    if t.running == {} then t else Settled(cfg, t, r)
  }

  /** The turn drains the queue: nothing runs any more and nothing may be started. */
  ghost predicate Drained<R>(cfg: Config<R>, s: State<R>, r: Round<R>) {
    var t := Admit(cfg, s, r.now);
    t.running == {} && t.halted
  }

  /** The snapshot after one turn. */
  ghost function DiskAfter<R>(cfg: Config<R>, s: State<R>, disk: File<R>, r: Round<R>): File<R>
    requires Inv(cfg, s)
  {
    AdmitInv(cfg, s, r.now);
    var t := Admit(cfg, s, r.now);
    var first := if Admits(cfg, s, r.now) then Publish(cfg, t) else disk;
    if t.running == {} || Finishing(cfg, t, r) == [] || Settled(cfg, t, r).raised then first
    else Publish(cfg, Settled(cfg, t, r))
  }

  lemma TurnInv<R>(cfg: Config<R>, s: State<R>, r: Round<R>)
    requires Inv(cfg, s)
    ensures AfterTurn(cfg, s, r).raised || Inv(cfg, AfterTurn(cfg, s, r))
    ensures Drained(cfg, s, r) ==> !AfterTurn(cfg, s, r).raised && Finished(AfterTurn(cfg, s, r))
  {
    hide Settled, Inv;
    AdmitInv(cfg, s, r.now);
    NotRaised(cfg, s, r.now);
    SettledInv(cfg, Admit(cfg, s, r.now), r);
  }

  /** What the loop ends with when the environment grants it the turns of the script. */
  ghost function RunFrom<R>(cfg: Config<R>, s: State<R>, script: seq<Round<R>>): End<R>
    requires Inv(cfg, s)
    decreases |script|
  {
    if !WorkLeft(s) then EndOf(s)
    else if script == [] then Interrupted
    else
      TurnInv(cfg, s, script[0]);
      var t := AfterTurn(cfg, s, script[0]);
      if t.raised then Escaped
      else if Drained(cfg, s, script[0]) then EndOf(t)
      else RunFrom(cfg, t, script[1..])
  }

  /** The state in which it ends. */
  ghost function LastFrom<R>(cfg: Config<R>, s: State<R>, script: seq<Round<R>>): State<R>
    requires Inv(cfg, s)
    decreases |script|
  {
    if !WorkLeft(s) || script == [] then s
    else
      TurnInv(cfg, s, script[0]);
      var t := AfterTurn(cfg, s, script[0]);
      if t.raised || Drained(cfg, s, script[0]) then t else LastFrom(cfg, t, script[1..])
  }

  /** The snapshot it leaves. */
  ghost function DiskFrom<R>(cfg: Config<R>, s: State<R>, disk: File<R>, script: seq<Round<R>>): File<R>
    requires Inv(cfg, s)
    decreases |script|
  {
    if !WorkLeft(s) || script == [] then disk
    else
      TurnInv(cfg, s, script[0]);
      var t, d := AfterTurn(cfg, s, script[0]), DiskAfter(cfg, s, disk, script[0]);
      if t.raised || Drained(cfg, s, script[0]) then d else DiskFrom(cfg, t, d, script[1..])
  }

  // ----- how a run ends -----

  /** The block names a segment that has a result or has failed. */
  predicate Names<R>(b: ContentBlock, results: map<nat, R>, failed: seq<nat>) {
    b.segment >= 1 && ((b.segment - 1) as nat in results || (b.segment - 1) as nat in failed)
  }

  ghost predicate ProperEnd<R>(cfg: Config<R>, end: End<R>) {
    match end
    case Complete(results) => forall i: nat :: i in results <==> i < cfg.count
    case Partial(results, failed, blocks) =>
      && failed != []
      && Sorting.Sorted(NotAfter, failed)
      && (forall i :: i in failed ==> i < cfg.count && i !in results)
      && (forall k :: 0 <= k < |blocks| ==> Names(blocks[k], results, failed))
    case _ => true
  }

  /** The blocked segments are listed once each, in ascending order. */
  ghost predicate BlocksListed<R>(end: End<R>) {
    end.Partial? ==> forall j, k :: 0 <= j < k < |end.blocks| ==> end.blocks[j].segment < end.blocks[k].segment
  }

  /**
   A complete run has exactly one result per segment. A partial one has a nonempty sorted list of failures and no result
   for them, and every block it reports names a segment with a result or a failure, at most once each unless the
   snapshot it started from had repetitions.
   */
  lemma {:induction false} RunEnds<R>(cfg: Config<R>, s: State<R>, script: seq<Round<R>>)
    requires Inv(cfg, s)
    ensures ProperEnd(cfg, RunFrom(cfg, s, script))
    ensures DistinctBlocks(s.blocks) ==> BlocksListed(RunFrom(cfg, s, script))
    decreases |script|
  {
    hide AfterTurn, Drained, Inv, ProperEnd, BlocksListed;
    if !WorkLeft(s) {
      NothingLeft(cfg, s);
      EndContract(cfg, s);
    } else if script == [] {
      InterruptedProper(cfg);
    } else {
      var t := AfterTurn(cfg, s, script[0]);
      TurnInv(cfg, s, script[0]);
      TurnDistinct(cfg, s, script[0]);
      InterruptedProper(cfg);
      if !t.raised {
        if Drained(cfg, s, script[0]) {
          EndContract(cfg, t);
        } else {
          RunEnds(cfg, t, script[1..]);
        }
      }
    }
  }

  lemma InterruptedProper<R>(cfg: Config<R>)
    ensures ProperEnd<R>(cfg, Interrupted) && BlocksListed<R>(Interrupted)
    ensures ProperEnd<R>(cfg, Escaped) && BlocksListed<R>(Escaped)
  {
  }

  lemma NothingLeft<R>(cfg: Config<R>, s: State<R>)
    requires Inv(cfg, s) && !WorkLeft(s)
    ensures Finished(s)
  {
  }

  lemma {:induction false} SettleSeqDistinct<R>(cfg: Config<R>, s: State<R>, done: map<nat, Done<R>>, order: seq<nat>)
    requires Inv(cfg, s) && AllRunning(s, order) && DistinctBlocks(s.blocks)
    requires forall k :: 0 <= k < |order| ==> order[k] in done
    ensures DistinctBlocks(SettleAll(cfg, s, done, order).blocks)
    decreases |order|
  {
    hide Inv, DistinctBlocks, Settle;
    if order != [] {
      var i := order[0];
      var t := Settle(cfg, s, i, done[i].outcome, done[i].at);
      SettleInv(cfg, s, i, done[i].outcome, done[i].at);
      SettleDistinct(cfg, s, i, done[i].outcome, done[i].at);
      SettleFrame(cfg, s, order, done[i]);
      if !t.raised {
        SettleSeqDistinct(cfg, t, done, order[1..]);
      }
    }
  }

  lemma TurnDistinct<R>(cfg: Config<R>, s: State<R>, r: Round<R>)
    requires Inv(cfg, s)
    ensures DistinctBlocks(s.blocks) ==> DistinctBlocks(AfterTurn(cfg, s, r).blocks)
  {
    hide Inv, DistinctBlocks;
    AdmitKeepsBlocks(cfg, s, r.now);
    AdmitInv(cfg, s, r.now);
    var t := Admit(cfg, s, r.now);
    if DistinctBlocks(s.blocks) && t.running != {} {
      FinishingRun(cfg, t, r);
      SettleSeqDistinct(cfg, t, r.done, Finishing(cfg, t, r));
    }
  }

  lemma AdmitKeepsBlocks<R>(cfg: Config<R>, s: State<R>, now: real)
    requires Inv(cfg, s)
    ensures Admit(cfg, s, now).blocks == s.blocks
  {
    AdmitAllInv(cfg, s, now);
  }

  lemma BlocksSorted(blocks: seq<ContentBlock>)
    ensures forall b :: b in SortedBlocks(blocks) <==> b in blocks
    ensures DistinctBlocks(blocks) ==>
      forall j, k :: 0 <= j < k < |blocks| ==> SortedBlocks(blocks)[j].segment < SortedBlocks(blocks)[k].segment
  {
    var sorted := SortedBlocks(blocks);
    Sorting.SortMembers(SegmentNotAfter, blocks);
    Sorting.SortSorted(SegmentNotAfter, blocks);
    if DistinctBlocks(blocks) {
      forall j, k | 0 <= j < k < |sorted| ensures sorted[j].segment < sorted[k].segment {
        assert SegmentNotAfter(sorted[j], sorted[k]);
        if sorted[j].segment == sorted[k].segment {
          SameSegment(blocks, sorted, j, k);
          assert false;
        }
      }
    }
  }

  /** Two places of the sorted list cannot hold one segment when the list names each segment once. */
  lemma SameSegment(blocks: seq<ContentBlock>, sorted: seq<ContentBlock>, j: nat, k: nat)
    requires multiset(sorted) == multiset(blocks) && j < k < |sorted|
    requires DistinctBlocks(blocks)
    ensures sorted[j].segment != sorted[k].segment
  {
    assert sorted[j] in multiset(blocks) && sorted[k] in multiset(blocks);
    var x :| 0 <= x < |blocks| && blocks[x] == sorted[j];
    var y :| 0 <= y < |blocks| && blocks[y] == sorted[k];
    if x == y {
      assert sorted == sorted[..k] + [sorted[k]] + sorted[k + 1..];
      assert sorted[j] in sorted[..k];
      assert multiset(sorted) == multiset(sorted[..k]) + multiset{sorted[k]} + multiset(sorted[k + 1..]);
      assert multiset(blocks)[blocks[x]] >= 2;
      OnceOnly(blocks, x);
    }
  }

  lemma OnceOnly(blocks: seq<ContentBlock>, x: nat)
    requires x < |blocks| && DistinctBlocks(blocks)
    ensures multiset(blocks)[blocks[x]] == 1
  {
    assert blocks == blocks[..x] + [blocks[x]] + blocks[x + 1..];
    assert multiset(blocks) == multiset(blocks[..x]) + multiset{blocks[x]} + multiset(blocks[x + 1..]);
    assert blocks[x] !in blocks[..x] && blocks[x] !in blocks[x + 1..];
  }

  lemma EndContract<R>(cfg: Config<R>, s: State<R>)
    requires Inv(cfg, s) && Finished(s)
    ensures ProperEnd(cfg, EndOf(s))
    ensures DistinctBlocks(s.blocks) ==> BlocksListed(EndOf(s))
  {
    FinishedOutcome(cfg, s);
    Sorting.SortMembers(NotAfter, s.failed);
    Sorting.SortSorted(NotAfter, s.failed);
    BlocksSorted(s.blocks);
    forall i | i in s.failed ensures i < cfg.count && i !in s.results {
      assert Placed(s, i, cfg.count);
    }
    var sorted := SortedBlocks(s.blocks);
    forall k | 0 <= k < |sorted| ensures Names(sorted[k], s.results, SortedIndices(s.failed)) {
      assert sorted[k] in sorted;
      var j :| 0 <= j < |s.blocks| && s.blocks[j] == sorted[k];
      assert BlockPlaced(s, s.blocks[j]);
    }
  }
}
