/** Why an index of the queue has a result, waits for a retry or has failed: from the answers of its operations. */
module QueueOutcomes {
  import opened Wrappers
  import opened SegmentQueue
  import opened QueueProofs
  import opened QueueLoop
  import opened QueueTermination
  import M = QueueRuns
  import Sentences

  // ----- what one answer means -----

  /** The operation may be tried again: it asked for that, or its result was rejected. */
  predicate Again<R>(cfg: Config<R>, i: nat, o: Outcome<R>) {
    o.Retryable? || (o.Returned? && cfg.validate(i, o.result).None?)
  }

  /** Nothing will help. */
  predicate Hopeless<R>(cfg: Config<R>, o: Outcome<R>) {
    o.StorageFull? || o.Fatal? || (o.ContentBlocked? && cfg.blocked.None?)
  }

  /** The answer gives this result: its own, or the placeholder for refused content. */
  predicate Gives<R(==)>(cfg: Config<R>, i: nat, o: Outcome<R>, v: R) {
    || (o.Returned? && cfg.validate(i, o.result) == Some(v))
    || (o.ContentBlocked? && cfg.blocked.Some? && cfg.validate(i, cfg.blocked.value(i)) == Some(v))
  }

  ghost predicate AllAgain<R>(cfg: Config<R>, i: nat, answers: seq<Outcome<R>>) {
    forall k :: 0 <= k < |answers| ==> Again(cfg, i, answers[k])
  }

  /** A hopeless answer after none but retries, or as many retries as there are attempts. */
  ghost predicate GaveUp<R>(cfg: Config<R>, i: nat, answers: seq<Outcome<R>>) {
    answers != [] && var n := |answers| - 1;
    && AllAgain(cfg, i, answers[..n])
    && (Hopeless(cfg, answers[n]) || (Again(cfg, i, answers[n]) && |answers| >= cfg.attempts))
  }

  /** A result after none but retries. */
  ghost predicate Succeeded<R>(cfg: Config<R>, i: nat, answers: seq<Outcome<R>>, v: R) {
    answers != [] && var n := |answers| - 1;
    AllAgain(cfg, i, answers[..n]) && Gives(cfg, i, answers[n], v)
  }

  /** Where index i is, given all answers that its operations have had since the process started. */
  ghost predicate Explained<R>(cfg: Config<R>, s: State<R>, answers: seq<Outcome<R>>, i: nat) {
    && Attempts(s, i) == |answers| + (if i in s.running then 1 else 0)
    && (i in s.retries ==> answers != [] && AllAgain(cfg, i, answers) && |answers| < cfg.attempts)
    && (i in s.running ==> AllAgain(cfg, i, answers) && (answers == [] || |answers| < cfg.attempts))
    && (i in s.failed ==> GaveUp(cfg, i, answers))
    && (i in s.results && answers != [] ==> Succeeded(cfg, i, answers, s.results[i]))
    && (forall k :: 0 <= k < |answers| && answers[k].ContentBlocked? ==>
          ContentBlock(i + 1, answers[k].reason) in s.blocks)
  }

  // ----- what one settled operation changes -----

  /** The delay that an answer asks for, and whether for everybody. */
  function Asked<R>(o: Outcome<R>): (real, bool) {
    if o.Retryable? then (o.delay, o.shared) else (0.0, false)
  }

  /**
   An operation that may be tried again, after k of its attempts. With attempts left it waits until 2^(k-1) seconds, or
   the delay asked for if that is longer, are over; a shared delay makes everybody wait. Otherwise it has failed and
   the queue drains. Nothing else changes.
   */
  lemma AgainSettled<R>(cfg: Config<R>, s: State<R>, i: nat, o: Outcome<R>, now: real)
    requires Attempts(s, i) >= 1 && Again(cfg, i, o)
    ensures var t := Settle(cfg, s, i, o, now); var (delay, shared) := Asked(o);
      var exponential := Pow2(Attempts(s, i) - 1) as real;
      var due := now + if delay > exponential then delay else exponential;
      if Attempts(s, i) < cfg.attempts then
        t == s.(running := s.running - {i}, retries := s.retries[i := due],
                cooldown := if shared && due > s.cooldown then due else s.cooldown)
      else
        t == s.(running := s.running - {i}, failed := s.failed + [i], halted := true)
  {
  }

  /** The waiting times of the first attempts, in seconds. */
  lemma FirstBackoffs()
    ensures Pow2(0) == 1 && Pow2(1) == 2 && Pow2(2) == 4
    ensures forall k: nat :: Pow2(k + 1) == 2 * Pow2(k)
  {
  }

  /** Every other answer: an accepted result, a refusal with and without a placeholder, and the end of all hope. */
  lemma OtherSettled<R>(cfg: Config<R>, s: State<R>, i: nat, o: Outcome<R>, now: real)
    requires Attempts(s, i) >= 1 && !Again(cfg, i, o)
    ensures var t := Settle(cfg, s, i, o, now);
      var u := s.(running := s.running - {i},
                  blocks := if o.ContentBlocked? then s.blocks + [ContentBlock(i + 1, o.reason)] else s.blocks);
      || (Hopeless(cfg, o) && t == u.(failed := s.failed + [i], halted := true))
      || (exists v :: Gives(cfg, i, o, v) && t == u.(results := s.results[i := v]))
      || (o.ContentBlocked? && cfg.validate(i, cfg.blocked.value(i)).None? && t == u.(raised := true))
  {
    match o
    case Returned(result) =>
      assert Gives(cfg, i, o, cfg.validate(i, result).value);
    case ContentBlocked(reason) =>
      if cfg.blocked.Some? && cfg.validate(i, cfg.blocked.value(i)).Some? {
        assert Gives(cfg, i, o, cfg.validate(i, cfg.blocked.value(i)).value);
      }
    case _ =>
  }

  // ----- every step keeps the explanation -----

  lemma LoadExplained<R>(cfg: Config<R>, file: File<R>, i: nat)
    ensures Explained(cfg, Load(cfg, file), [], i)
  {
  }

  lemma AdmitExplained<R>(cfg: Config<R>, s: State<R>, answers: seq<Outcome<R>>, i: nat, now: real)
    requires Inv(cfg, s) && Explained(cfg, s, answers, i)
    ensures Explained(cfg, Admit(cfg, s, now), answers, i)
  {
    hide Admit, GaveUp, Succeeded, Again;
    var t := Admit(cfg, s, now);
    M.AdmitChange(cfg, s, now, i);
    AdmitFrame(cfg, s, now);
    PlacedAgain(cfg, s, t, i, now);
  }

  lemma AdmitFrame<R>(cfg: Config<R>, s: State<R>, now: real)
    requires Inv(cfg, s)
    ensures var t := Admit(cfg, s, now);
      && t.results == s.results && t.failed == s.failed && t.blocks == s.blocks && s.running <= t.running
  {
    hide Inv;
    AdmitAllInv(cfg, s, now);
    StillRunning(cfg, s, now);
  }

  /** What an admission starts was untouched or waiting for its retry. */
  lemma PlacedAgain<R>(cfg: Config<R>, s: State<R>, t: State<R>, i: nat, now: real)
    requires Inv(cfg, s) && t == Admit(cfg, s, now)
    ensures i in t.running && i !in s.running ==> Attempts(s, i) == 0 || i in s.retries
  {
    hide Admit;
    AdmitInv(cfg, s, now);
    M.AdmitChange(cfg, s, now, i);
    assert Placed(s, i, cfg.count) && Placed(t, i, cfg.count);
    AdmitAllInv(cfg, s, now);
    AdmitResults(cfg, s, now);
  }

  lemma AdmitResults<R>(cfg: Config<R>, s: State<R>, now: real)
    requires Inv(cfg, s)
    ensures Admit(cfg, s, now).results == s.results && Admit(cfg, s, now).failed == s.failed
  {
    hide Inv;
    AdmitAllInv(cfg, s, now);
  }

  lemma AllAgainAppend<R>(cfg: Config<R>, i: nat, answers: seq<Outcome<R>>, o: Outcome<R>)
    requires AllAgain(cfg, i, answers)
    ensures Again(cfg, i, o) ==> AllAgain(cfg, i, answers + [o])
    ensures AllAgain(cfg, i, (answers + [o])[..|answers|]) && (answers + [o])[|answers|] == o
  {
    assert (answers + [o])[..|answers|] == answers;
  }

  /** The answer of an operation explains where its index goes. */
  lemma SettleExplains<R>(cfg: Config<R>, s: State<R>, answers: seq<Outcome<R>>, i: nat, o: Outcome<R>, now: real)
    requires Inv(cfg, s) && i in s.running && Attempts(s, i) >= 1 && Explained(cfg, s, answers, i)
    requires !Settle(cfg, s, i, o, now).raised
    ensures Explained(cfg, Settle(cfg, s, i, o, now), answers + [o], i)
  {
    hide Settle, Again, Hopeless, Gives, AllAgain, Budget, BlocksPlaced;
    var t := Settle(cfg, s, i, o, now);
    assert Placed(s, i, cfg.count);
    AllAgainAppend(cfg, i, answers, o);
    SettleMembers(cfg, s, i, o, now);
    if Again(cfg, i, o) {
      AgainSettled(cfg, s, i, o, now);
      AgainNotBlocked(cfg, i, o);
    } else {
      OtherSettled(cfg, s, i, o, now);
    }
  }

  lemma AgainNotBlocked<R>(cfg: Config<R>, i: nat, o: Outcome<R>)
    requires Again(cfg, i, o)
    ensures !o.ContentBlocked?
  {
  }

  lemma OthersExplained<R>(cfg: Config<R>, s: State<R>, answers: seq<Outcome<R>>, i: nat,
                           j: nat, o: Outcome<R>, now: real)
    requires Attempts(s, j) >= 1 && i != j && Explained(cfg, s, answers, i)
    ensures Explained(cfg, Settle(cfg, s, j, o, now), answers, i)
  {
    hide Settle, Again, Hopeless, Gives, AllAgain, GaveUp, Succeeded;
    SettleMembers(cfg, s, j, o, now);
    if Again(cfg, j, o) {
      AgainSettled(cfg, s, j, o, now);
    } else {
      OtherSettled(cfg, s, j, o, now);
    }
  }

  // ----- over all interleavings -----

  /** The answers of i since the running process was started, after some more steps. */
  function AnswersAfter<R>(answers: seq<Outcome<R>>, steps: seq<M.Step<R>>, i: nat): seq<Outcome<R>>
    decreases |steps|
  {
    if steps == [] then answers
    else
      var more := match steps[0]
        case Boot => []
        case SettleStep(j, o, _) => if j == i then answers + [o] else answers
        case _ => answers;
      AnswersAfter(more, steps[1..], i)
  }

  ghost predicate WorldExplained<R>(cfg: Config<R>, w: M.World<R>, answers: seq<Outcome<R>>, i: nat) {
    w.process.Some? ==> Explained(cfg, w.process.value, answers, i)
  }

  lemma {:induction false} RunExplained<R>(cfg: Config<R>, w: M.World<R>, steps: seq<M.Step<R>>,
                                           answers: seq<Outcome<R>>, i: nat)
    requires M.ProcessKeeps(cfg, w) && M.EnabledRun(cfg, w, steps) && WorldExplained(cfg, w, answers, i)
    ensures M.ProcessKeeps(cfg, M.Run(cfg, w, steps))
    ensures WorldExplained(cfg, M.Run(cfg, w, steps), AnswersAfter(answers, steps, i), i)
    decreases |steps|
  {
    hide M.ProcessKeeps, M.Next, M.Enabled, WorldExplained;
    if steps != [] {
      M.StepKeepsProcess(cfg, w, steps[0]);
      StepExplained(cfg, w, steps[0], answers, i);
      RunExplained(cfg, M.Next(cfg, w, steps[0]), steps[1..], AnswersAfter(answers, [steps[0]], i), i);
      assert [steps[0]][1..] == [];
    }
  }

  lemma StepExplained<R>(cfg: Config<R>, w: M.World<R>, step: M.Step<R>, answers: seq<Outcome<R>>, i: nat)
    requires M.ProcessKeeps(cfg, w) && M.Enabled(cfg, w, step) && WorldExplained(cfg, w, answers, i)
    ensures WorldExplained(cfg, M.Next(cfg, w, step), AnswersAfter(answers, [step], i), i)
  {
    hide Explained, Inv, Settle, Admit, Load;
    assert [step][1..] == [];
    match step
    case Boot => LoadExplained(cfg, w.disk, i);
    case AdmitStep(now) => AdmitExplained(cfg, w.process.value, answers, i, now);
    case SettleStep(j, o, now) =>
      if !Settle(cfg, w.process.value, j, o, now).raised {
        if j == i {
          SettleExplains(cfg, w.process.value, answers, i, o, now);
        } else {
          OthersExplained(cfg, w.process.value, answers, i, j, o, now);
        }
      }
    case PublishStep =>
    case Crash =>
  }

  /**
   In every state that a process can reach: an index has failed if and only if the answers of its own operations since
   the process started were retries up to a hopeless one, or retries as many as there are attempts; and it waits for a
   retry, or runs again, if and only if they were all retries and fewer than that.
   */
  lemma FailedForAReason<R>(cfg: Config<R>, disk: File<R>, steps: seq<M.Step<R>>, i: nat)
    requires M.EnabledRun(cfg, M.Initial(disk), steps) && i < cfg.count
    ensures var w := M.Run(cfg, M.Initial(disk), steps); var answers := AnswersAfter([], steps, i);
      w.process.Some? ==>
        var s := w.process.value;
        && (i in s.failed <==> GaveUp(cfg, i, answers))
        && (answers != [] ==>
              (i in s.retries || i in s.running <==> AllAgain(cfg, i, answers) && |answers| < cfg.attempts))
        && (answers != [] ==> (i in s.results <==> exists v :: Succeeded(cfg, i, answers, v)))
        && (i in s.results && answers != [] ==> Succeeded(cfg, i, answers, s.results[i]))
  {
    RunExplained(cfg, M.Initial(disk), steps, [], i);
    var w, answers := M.Run(cfg, M.Initial(disk), steps), AnswersAfter([], steps, i);
    if w.process.Some? {
      ExplainedExactly(cfg, w.process.value, answers, i);
    }
  }

  /** No answers explain two different places. */
  lemma ExplainedExactly<R>(cfg: Config<R>, s: State<R>, answers: seq<Outcome<R>>, i: nat)
    requires Inv(cfg, s) && Explained(cfg, s, answers, i) && i < cfg.count
    ensures i in s.failed <==> GaveUp(cfg, i, answers)
    ensures answers != [] ==>
      (i in s.retries || i in s.running <==> AllAgain(cfg, i, answers) && |answers| < cfg.attempts)
    ensures answers != [] ==> (i in s.results <==> exists v :: Succeeded(cfg, i, answers, v))
  {
    assert Placed(s, i, cfg.count);
    if answers != [] {
      var n := |answers| - 1;
      LastAnswer(cfg, i, answers);
      if i in s.results {
        assert Succeeded(cfg, i, answers, s.results[i]);
      }
    }
  }

  lemma LastAnswer<R>(cfg: Config<R>, i: nat, answers: seq<Outcome<R>>)
    requires answers != []
    ensures AllAgain(cfg, i, answers) && |answers| < cfg.attempts ==>
      !GaveUp(cfg, i, answers) && forall v :: !Succeeded(cfg, i, answers, v)
    ensures GaveUp(cfg, i, answers) ==> forall v :: !Succeeded(cfg, i, answers, v)
  {
  }

  // ----- along the loop -----

  /** The answers of i in the turns that the loop takes from a state. */
  ghost function Answered<R>(cfg: Config<R>, s: State<R>, script: seq<Round<R>>, i: nat): seq<Outcome<R>>
    requires Inv(cfg, s)
    decreases |script|
  {
    if !WorkLeft(s) || script == [] then []
    else
      TurnInv(cfg, s, script[0]);
      var t := AfterTurn(cfg, s, script[0]);
      Heard(cfg, s, script[0], i)
      + if t.raised || Drained(cfg, s, script[0]) then [] else Answered(cfg, t, script[1..], i)
  }

  /** The answer of i in one turn: that of its operation, if it runs after the admission and is done. */
  ghost function Heard<R>(cfg: Config<R>, s: State<R>, r: Round<R>, i: nat): seq<Outcome<R>> {
    if i in Admit(cfg, s, r.now).running && i in r.done then [r.done[i].outcome] else []
  }

  /** All operations that run and are done are looked at in the turn, in order of their index. */
  lemma FinishingAll<R>(cfg: Config<R>, s: State<R>, r: Round<R>)
    requires Inv(cfg, s)
    ensures forall i: nat :: i in Finishing(cfg, s, r) <==> i in s.running && i in r.done
    ensures forall j, k :: 0 <= j < k < |Finishing(cfg, s, r)| ==> Finishing(cfg, s, r)[j] < Finishing(cfg, s, r)[k]
  {
    forall i | i in s.running ensures i < cfg.count {
      assert Placed(s, i, cfg.count);
    }
  }

  lemma {:induction false} SettleAllExplained<R>(cfg: Config<R>, s: State<R>, done: map<nat, Done<R>>, order: seq<nat>,
                                                 answers: seq<Outcome<R>>, i: nat)
    requires Inv(cfg, s) && AllRunning(s, order) && Explained(cfg, s, answers, i)
    requires forall k :: 0 <= k < |order| ==> order[k] in done
    ensures var t := SettleAll(cfg, s, done, order);
      t.raised || Explained(cfg, t, answers + (if i in order then [done[i].outcome] else []), i)
    decreases |order|
  {
    hide Inv, Settle, Explained;
    if order == [] {
      assert answers + [] == answers;
    } else {
      QueueTermination.Sound(cfg, s);
      var j, d := order[0], done[order[0]];
      var t := Settle(cfg, s, j, d.outcome, d.at);
      SettleFrame(cfg, s, order, d);
      SettleInv(cfg, s, j, d.outcome, d.at);
      if !t.raised {
        assert i in order <==> i == j || i in order[1..];
        if i == j {
          SettleExplains(cfg, s, answers, i, d.outcome, d.at);
          assert i !in order[1..];
          SettleAllExplained(cfg, t, done, order[1..], answers + [d.outcome], i);
          assert answers + [d.outcome] + [] == answers + [d.outcome];
        } else {
          OthersExplained(cfg, s, answers, i, j, d.outcome, d.at);
          SettleAllExplained(cfg, t, done, order[1..], answers, i);
        }
      } else {
        StaysRaised(cfg, t, done, order[1..]);
      }
    }
  }

  lemma StaysRaised<R>(cfg: Config<R>, s: State<R>, done: map<nat, Done<R>>, order: seq<nat>)
    requires AllRunning(s, order) && s.raised
    requires forall k :: 0 <= k < |order| ==> order[k] in done
    ensures SettleAll(cfg, s, done, order) == s
  {
  }

  lemma TurnExplained<R>(cfg: Config<R>, s: State<R>, r: Round<R>, answers: seq<Outcome<R>>, i: nat)
    requires Inv(cfg, s) && Explained(cfg, s, answers, i)
    ensures var t := AfterTurn(cfg, s, r); t.raised || Explained(cfg, t, answers + Heard(cfg, s, r, i), i)
  {
    hide Inv, Explained, Admit, Finishing;
    var t := Admit(cfg, s, r.now);
    AdmitInv(cfg, s, r.now);
    AdmitExplained(cfg, s, answers, i, r.now);
    if t.running == {} {
      assert answers + [] == answers;
    } else {
      FinishingRun(cfg, t, r);
      FinishingAll(cfg, t, r);
      SettleAllExplained(cfg, t, r.done, Finishing(cfg, t, r), answers, i);
    }
  }

  lemma {:induction false} LoopExplained<R>(cfg: Config<R>, s: State<R>, script: seq<Round<R>>,
                                            answers: seq<Outcome<R>>, i: nat)
    requires Inv(cfg, s) && Explained(cfg, s, answers, i)
    ensures var t := LastFrom(cfg, s, script);
      t.raised || (Inv(cfg, t) && Explained(cfg, t, answers + Answered(cfg, s, script, i), i))
    decreases |script|
  {
    hide Inv, Explained, AfterTurn, Drained, Heard;
    if !WorkLeft(s) || script == [] {
      assert answers + [] == answers;
    } else {
      var r := script[0];
      TurnInv(cfg, s, r);
      TurnExplained(cfg, s, r, answers, i);
      var t, here := AfterTurn(cfg, s, r), Heard(cfg, s, r, i);
      if !t.raised && !Drained(cfg, s, r) {
        LoopExplained(cfg, t, script[1..], answers + here, i);
        var rest := Answered(cfg, t, script[1..], i);
        assert answers + here + rest == answers + (here + rest);
      } else {
        assert here + [] == here;
      }
    }
  }

  /** What the loop returns or raises is what its last state holds: all results, all failures and all blocks. */
  ghost predicate EndsWith<R>(end: End<R>, last: State<R>) {
    match end
    case Complete(results) => results == last.results && last.failed == []
    case Partial(results, failed, blocks) =>
      results == last.results && multiset(failed) == multiset(last.failed) && multiset(blocks) == multiset(last.blocks)
    case Escaped => last.raised
    case Interrupted => WorkLeft(last)
  }

  lemma {:induction false} EndOfLast<R>(cfg: Config<R>, s: State<R>, script: seq<Round<R>>)
    requires Inv(cfg, s)
    ensures EndsWith(RunFrom(cfg, s, script), LastFrom(cfg, s, script))
    ensures RunFrom(cfg, s, script).Escaped? <==> LastFrom(cfg, s, script).raised
    decreases |script|
  {
    hide Inv, AfterTurn, Drained;
    QueueTermination.Sound(cfg, s);
    if WorkLeft(s) && script != [] {
      TurnInv(cfg, s, script[0]);
      var t := AfterTurn(cfg, s, script[0]);
      if !t.raised && !Drained(cfg, s, script[0]) {
        EndOfLast(cfg, t, script[1..]);
      }
    }
  }

  /**
   What a run of the loop fails for: of every segment that is reported as failed, and of no other, the operations have
   given a hopeless answer or used up all attempts with retries. All that succeeded is part of what is raised.
   */
  lemma PartialForAReason<R>(cfg: Config<R>, file: File<R>, script: seq<Round<R>>)
    ensures Inv(cfg, Load(cfg, file))
    ensures var s := Load(cfg, file); var end := RunFrom(cfg, s, script);
      end.Partial? ==> forall i: nat :: i < cfg.count ==>
        && (i in end.failed <==> GaveUp(cfg, i, Answered(cfg, s, script, i)))
        && (forall v :: Succeeded(cfg, i, Answered(cfg, s, script, i), v) ==> i in end.results)
  {
    hide Inv, RunFrom, LastFrom, Load, Answered, GaveUp, Succeeded;
    LoadInv(cfg, file);
    var s := Load(cfg, file);
    var end, last := RunFrom(cfg, s, script), LastFrom(cfg, s, script);
    EndOfLast(cfg, s, script);
    if end.Partial? {
      forall i: nat | i < cfg.count
        ensures i in end.failed <==> GaveUp(cfg, i, Answered(cfg, s, script, i))
        ensures forall v :: Succeeded(cfg, i, Answered(cfg, s, script, i), v) ==> i in end.results
      {
        LastExplained(cfg, file, script, i);
        assert i in end.failed <==> i in multiset(end.failed);
        assert i in last.failed <==> i in multiset(last.failed);
      }
    }
  }

  lemma LastExplained<R>(cfg: Config<R>, file: File<R>, script: seq<Round<R>>, i: nat)
    requires Inv(cfg, Load(cfg, file)) && !LastFrom(cfg, Load(cfg, file), script).raised && i < cfg.count
    ensures var last := LastFrom(cfg, Load(cfg, file), script);
      var answers := Answered(cfg, Load(cfg, file), script, i);
      && (i in last.failed <==> GaveUp(cfg, i, answers))
      && (forall v :: Succeeded(cfg, i, answers, v) ==> i in last.results)
  {
    hide Inv, RunFrom, LastFrom, Load, Answered, GaveUp, Succeeded, Explained;
    LoadExplained(cfg, file, i);
    LoopExplained(cfg, Load(cfg, file), script, [], i);
    var answers := Answered(cfg, Load(cfg, file), script, i);
    assert [] + answers == answers;
    ExplainedExactly(cfg, LastFrom(cfg, Load(cfg, file), script), answers, i);
    SucceededSome(cfg, i, answers);
  }

  lemma SucceededSome<R>(cfg: Config<R>, i: nat, answers: seq<Outcome<R>>)
    ensures (exists v :: Succeeded(cfg, i, answers, v)) ==> answers != []
  {
  }

  /**
   A run of the loop completes as long as no segment gives up: if every operation that asks to be tried again, or whose
   result is rejected, has an accepted answer by its last attempt, there is a result for every segment in the end.
   */
  lemma CompletesIfAnswered<R>(cfg: Config<R>, file: File<R>, script: seq<Round<R>>)
    requires cfg.concurrency >= 1 && Sentences.BlockedAccepted(cfg)
    requires Inv(cfg, Load(cfg, file))
    requires forall i: nat :: i < cfg.count ==> !GaveUp(cfg, i, Answered(cfg, Load(cfg, file), script, i))
    requires |script| > 2 * Most(cfg) * cfg.count + IdleTurns(cfg, Load(cfg, file), script)
    ensures var end := RunFrom(cfg, Load(cfg, file), script);
      end.Complete? && forall i: nat :: i in end.results <==> i < cfg.count
  {
    hide Inv, RunFrom, Load, Answered, GaveUp, Most, IdleTurns;
    var s := Load(cfg, file);
    LoadedTerminates(cfg, file, script);
    Sentences.NoEscape(cfg, s, script);
    RunEnds(cfg, s, script);
    PartialForAReason(cfg, file, script);
    var end := RunFrom(cfg, s, script);
    PartialNames(cfg, end);
  }

  lemma PartialNames<R>(cfg: Config<R>, end: End<R>)
    requires ProperEnd(cfg, end)
    ensures end.Partial? ==> exists i: nat :: i < cfg.count && i in end.failed
  {
    if end.Partial? {
      assert end.failed[0] in end.failed;
    }
  }

  // ----- the snapshot is always that of the state -----

  lemma SamePublish<R>(cfg: Config<R>, s: State<R>, t: State<R>)
    requires s.results == t.results && s.blocks == t.blocks
    ensures Publish(cfg, s) == Publish(cfg, t)
  {
  }

  lemma TurnPublishes<R>(cfg: Config<R>, s: State<R>, r: Round<R>)
    requires Inv(cfg, s)
    ensures AfterTurn(cfg, s, r).raised || DiskAfter(cfg, s, Publish(cfg, s), r) == Publish(cfg, AfterTurn(cfg, s, r))
  {
    hide Inv, Admit, Settled, Publish, Finishing, Admits;
    AdmitInv(cfg, s, r.now);
    AdmitFrame(cfg, s, r.now);
    var t := Admit(cfg, s, r.now);
    SamePublish(cfg, s, t);
    if Finishing(cfg, t, r) == [] {
      NothingSettled(cfg, t, r);
    }
  }

  lemma NothingSettled<R>(cfg: Config<R>, s: State<R>, r: Round<R>)
    requires Inv(cfg, s) && Finishing(cfg, s, r) == []
    ensures Settled(cfg, s, r) == s
  {
  }

  /** Whenever the loop stops, or is cut short between two turns, the snapshot is that of its state. */
  lemma {:induction false} SnapshotCurrent<R>(cfg: Config<R>, s: State<R>, script: seq<Round<R>>)
    requires Inv(cfg, s)
    ensures var last := LastFrom(cfg, s, script);
      last.raised || DiskFrom(cfg, s, Publish(cfg, s), script) == Publish(cfg, last)
    decreases |script|
  {
    hide Inv, AfterTurn, Drained, DiskAfter, Publish;
    if WorkLeft(s) && script != [] {
      TurnInv(cfg, s, script[0]);
      TurnPublishes(cfg, s, script[0]);
      var t := AfterTurn(cfg, s, script[0]);
      if !t.raised && !Drained(cfg, s, script[0]) {
        SnapshotCurrent(cfg, t, script[1..]);
      }
    }
  }

  predicate ForResult<R>(b: ContentBlock, results: map<nat, R>) {
    b.segment >= 1 && (b.segment - 1) as nat in results
  }

  lemma KnownNext<R>(blocks: seq<ContentBlock>, b: ContentBlock, results: map<nat, R>)
    ensures KnownBlocks(blocks + [b], results) ==
      KnownBlocks(blocks, results) + if ForResult(b, results) then [b] else []
  {
    assert (blocks + [b])[..|blocks|] == blocks;
  }

  /** The blocks of a snapshot that are found again are those of segments with a result, in the same order. */
  lemma {:induction false} KnownBlocksExactly<R>(blocks: seq<ContentBlock>, results: map<nat, R>)
    ensures forall b :: b in KnownBlocks(blocks, results) <==> b in blocks && ForResult(b, results)
    ensures (forall b :: b in blocks ==> ForResult(b, results)) ==> KnownBlocks(blocks, results) == blocks
  {
    if blocks != [] {
      hide ForResult, KnownBlocks;
      var n := |blocks| - 1;
      assert blocks == blocks[..n] + [blocks[n]];
      KnownBlocksExactly(blocks[..n], results);
      KnownNext(blocks[..n], blocks[n], results);
      assert forall b :: b in blocks <==> b in blocks[..n] || b == blocks[n];
    }
  }

  /** A file for another number of segments, or one that cannot be read, is not used at all. */
  predicate Usable<R>(cfg: Config<R>, file: File<R>) {
    file.Saved? && file.count == cfg.count
  }

  /**
   What a process starts with: the saved results in range that still pass the validator, as it returns them, and the
   blocks of segments that have one; everything else is untouched, and nothing waits or has failed.
   */
  lemma LoadMeaning<R>(cfg: Config<R>, file: File<R>)
    ensures var s := Load(cfg, file);
      && (forall i: nat :: i in s.results <==>
            Usable(cfg, file) && i < cfg.count && i in file.results && cfg.validate(i, file.results[i]).Some?)
      && (forall i :: i in s.results ==> cfg.validate(i, file.results[i]) == Some(s.results[i]))
      && (forall b :: b in s.blocks <==>
            Usable(cfg, file) && b in file.blocks && ForResult(b, s.results))
      && (forall i: nat :: i in s.pending <==> i < cfg.count && i !in s.results)
      && (forall j, k :: 0 <= j < k < |s.pending| ==> s.pending[j] < s.pending[k])
      && s.running == {} && s.retries == map[] && s.failed == [] && !s.halted && s.cooldown == 0.0
  {
    if Usable(cfg, file) {
      KnownBlocksExactly(file.blocks, Load(cfg, file).results);
    }
  }

  /** What is published is found again: a restart has the same results, and the blocks of the segments that have one. */
  lemma PublishRoundTrip<R(!new)>(cfg: Config<R>, s: State<R>)
    requires Inv(cfg, s) && M.Accepted(cfg, s.results)
    ensures var t := Load(cfg, Publish(cfg, s));
      && t.results == s.results
      && forall b :: b in t.blocks <==> b in s.blocks && ForResult(b, s.results)
  {
    hide Partition, Budget;
    LoadMeaning(cfg, Publish(cfg, s));
    assert forall k :: 0 <= k < |s.blocks| ==> BlockPlaced(s, s.blocks[k]);
  }

  // ----- what is admitted -----

  /** One admission: the smallest index whose retry is due; only if there is none, the first untouched one. */
  lemma AdmitOneMeaning<R>(s: State<R>, now: real)
    ensures AdmitOne(s, now).None? <==> s.pending == [] && forall i :: i in s.retries ==> s.retries[i] > now
    ensures AdmitOne(s, now).Some? ==> exists i: nat ::
      && (if exists j :: j in s.retries && s.retries[j] <= now
          then i in s.retries && s.retries[i] <= now && forall j :: j in s.retries && s.retries[j] <= now ==> i <= j
          else s.pending != [] && s.pending[0] == i)
      && AdmitOne(s, now).value.running == s.running + {i}
      && Attempts(AdmitOne(s, now).value, i) == Attempts(s, i) + 1
  {
    if HasReady(s, now) {
      var i := NextReady(s, now);
      assert IsReady(s, now, i);
      assert forall j :: j in s.retries && s.retries[j] <= now ==> IsReady(s, now, j);
      assert AdmitOne(s, now).value.running == s.running + {i};
    } else {
      assert forall i :: i in s.retries ==> !IsReady(s, now, i);
      if s.pending != [] {
        assert AdmitOne(s, now).value.running == s.running + {s.pending[0]};
      }
    }
  }

  /** Admission goes on until the slots are full or nothing untouched and nothing due is left. */
  lemma {:induction false} AdmitAllFull<R>(cfg: Config<R>, s: State<R>, now: real)
    ensures var t := AdmitAll(cfg, s, now);
      |t.running| >= cfg.concurrency || (t.pending == [] && forall i :: i in t.retries ==> t.retries[i] > now)
    decreases Waiting(s)
  {
    hide AdmitOne;
    AdmitOneShrinks(s, now);
    AdmitOneMeaning(s, now);
    if |s.running| < cfg.concurrency && AdmitOne(s, now).Some? {
      AdmitAllFull(cfg, AdmitOne(s, now).value, now);
    }
  }
}
