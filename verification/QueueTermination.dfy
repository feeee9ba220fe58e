/** The segment queue ends: a run that is granted enough turns in which something happens is never left unfinished. */
module QueueTermination {
  import opened SegmentQueue
  import opened QueueProofs
  import opened QueueLoop

  /**
   Something happens in the turn: a running operation finishes, or, if nothing runs, the queue drains, or the delays
   that keep it from starting something are over.
   */
  ghost predicate Productive<R>(cfg: Config<R>, s: State<R>, r: Round<R>) {
    var t := Admit(cfg, s, r.now);
    if t.running != {} then exists i :: i in t.running && i in r.done
    else t.halted || (r.now >= s.cooldown && (s.pending != [] || HasReady(s, r.now)))
  }

  /** How many of the turns that the loop takes are productive; idle turns may come between them. */
  ghost function ProductiveTurns<R>(cfg: Config<R>, s: State<R>, script: seq<Round<R>>): nat
    requires Inv(cfg, s)
    decreases |script|
  {
    if !WorkLeft(s) || script == [] then 0
    else
      TurnInv(cfg, s, script[0]);
      var t := AfterTurn(cfg, s, script[0]);
      (if Productive(cfg, s, script[0]) then 1 else 0)
      + if t.raised || Drained(cfg, s, script[0]) then 0 else ProductiveTurns(cfg, t, script[1..])
  }

  lemma {:induction false} SettleAllDrops<R>(cfg: Config<R>, s: State<R>, done: map<nat, Done<R>>, order: seq<nat>)
    requires Inv(cfg, s) && AllRunning(s, order)
    requires forall k :: 0 <= k < |order| ==> order[k] in done
    ensures var after := Total(cfg, SettleAll(cfg, s, done, order), cfg.count);
      after <= Total(cfg, s, cfg.count) && (order != [] ==> after < Total(cfg, s, cfg.count))
    decreases |order|
  {
    hide Inv, Total, Settle;
    if order != [] {
      Sound(cfg, s);
      var i := order[0];
      var t := Settle(cfg, s, i, done[i].outcome, done[i].at);
      SettleInv(cfg, s, i, done[i].outcome, done[i].at);
      SettleDrops(cfg, s, i, done[i].outcome, done[i].at);
      SettleFrame(cfg, s, order, done[i]);
      if !t.raised {
        SettleAllDrops(cfg, t, done, order[1..]);
      }
    }
  }

  lemma Sound<R>(cfg: Config<R>, s: State<R>)
    requires Inv(cfg, s)
    ensures !s.raised
  {
  }

  lemma SomeFinish<R>(cfg: Config<R>, s: State<R>, r: Round<R>, i: nat)
    requires Inv(cfg, s) && i in s.running && i in r.done
    ensures Finishing(cfg, s, r) != []
  {
    assert Placed(s, i, cfg.count);
    assert i in Finishing(cfg, s, r);
  }

  /** No turn raises the measure, and a productive one that does not end the loop lowers it. */
  lemma TurnDrops<R>(cfg: Config<R>, s: State<R>, r: Round<R>)
    requires Inv(cfg, s) && cfg.concurrency >= 1 && WorkLeft(s)
    ensures Total(cfg, AfterTurn(cfg, s, r), cfg.count) <= Total(cfg, s, cfg.count)
    ensures Productive(cfg, s, r) && !Drained(cfg, s, r) ==>
      Total(cfg, AfterTurn(cfg, s, r), cfg.count) < Total(cfg, s, cfg.count)
  {
    hide Inv, Total, Finishing;
    AdmitInv(cfg, s, r.now);
    var t := Admit(cfg, s, r.now);
    AdmitAllDrops(cfg, s, r.now);
    if t.running != {} {
      FinishingRun(cfg, t, r);
      SettleAllDrops(cfg, t, r.done, Finishing(cfg, t, r));
      if Productive(cfg, s, r) {
        var i :| i in t.running && i in r.done;
        SomeFinish(cfg, t, r, i);
      }
    } else if Productive(cfg, s, r) && !Drained(cfg, s, r) {
      IdleDrained(cfg, s, r);
    }
  }

  /** With a free slot and its delays over, an unhalted queue starts something. */
  lemma IdleDrained<R>(cfg: Config<R>, s: State<R>, r: Round<R>)
    requires Inv(cfg, s) && cfg.concurrency >= 1
    requires Admit(cfg, s, r.now).running == {} && Productive(cfg, s, r)
    ensures Drained(cfg, s, r)
  {
    hide Partition, Budget, BlocksPlaced;
    var t := Admit(cfg, s, r.now);
    AdmitAllInv(cfg, s, r.now);
    StillRunning(cfg, s, r.now);
    if !t.halted {
      AdmitProgress(cfg, s, r.now);
    }
  }

  lemma StillRunning<R>(cfg: Config<R>, s: State<R>, now: real)
    requires Inv(cfg, s)
    ensures s.running <= Admit(cfg, s, now).running
  {
    forall i | i in s.running ensures i in Admit(cfg, s, now).running {
      AdmitAllKeeps(cfg, s, now, i);
    }
  }

  /** An unfinished run has had no more productive turns than its measure allows. */
  lemma {:induction false} Unfinished<R>(cfg: Config<R>, s: State<R>, script: seq<Round<R>>)
    requires Inv(cfg, s) && cfg.concurrency >= 1 && RunFrom(cfg, s, script).Interrupted?
    ensures ProductiveTurns(cfg, s, script) <= Total(cfg, s, cfg.count)
    decreases |script|
  {
    hide Inv, Total, Productive, AfterTurn, Drained;
    if WorkLeft(s) && script != [] {
      TurnInv(cfg, s, script[0]);
      TurnDrops(cfg, s, script[0]);
      var t := AfterTurn(cfg, s, script[0]);
      if !t.raised && !Drained(cfg, s, script[0]) {
        Unfinished(cfg, t, script[1..]);
      }
    }
  }

  /** How many of the turns that the loop takes are not productive. */
  ghost function IdleTurns<R>(cfg: Config<R>, s: State<R>, script: seq<Round<R>>): nat
    requires Inv(cfg, s)
    decreases |script|
  {
    if !WorkLeft(s) || script == [] then 0
    else
      TurnInv(cfg, s, script[0]);
      var t := AfterTurn(cfg, s, script[0]);
      (if Productive(cfg, s, script[0]) then 0 else 1)
      + if t.raised || Drained(cfg, s, script[0]) then 0 else IdleTurns(cfg, t, script[1..])
  }

  /** A run that is cut short has taken every turn of its script, and each was productive or idle. */
  lemma {:induction false} TurnsCount<R>(cfg: Config<R>, s: State<R>, script: seq<Round<R>>)
    requires Inv(cfg, s) && RunFrom(cfg, s, script).Interrupted?
    ensures |script| == ProductiveTurns(cfg, s, script) + IdleTurns(cfg, s, script)
    decreases |script|
  {
    hide Inv, Productive, AfterTurn, Drained;
    if script != [] {
      TurnInv(cfg, s, script[0]);
      TurnsCount(cfg, AfterTurn(cfg, s, script[0]), script[1..]);
    }
  }

  /**
   The loop ends: however many turns of it are idle, it is not cut short by a script that has more further turns than
   the measure of the remaining attempts.
   */
  lemma ScriptEnds<R>(cfg: Config<R>, s: State<R>, script: seq<Round<R>>)
    requires Inv(cfg, s) && cfg.concurrency >= 1
    requires |script| > Total(cfg, s, cfg.count) + IdleTurns(cfg, s, script)
    ensures !RunFrom(cfg, s, script).Interrupted?
  {
    if RunFrom(cfg, s, script).Interrupted? {
      TurnsCount(cfg, s, script);
      Unfinished(cfg, s, script);
    }
  }

  /**
   A process that has just loaded any snapshot ends within two turns for each attempt of each segment, and one,
   besides its idle turns.
   */
  lemma LoadedTerminates<R>(cfg: Config<R>, file: File<R>, script: seq<Round<R>>)
    requires cfg.concurrency >= 1
    ensures Inv(cfg, Load(cfg, file))
    ensures |script| > 2 * Most(cfg) * cfg.count + IdleTurns(cfg, Load(cfg, file), script) ==>
      !RunFrom(cfg, Load(cfg, file), script).Interrupted?
  {
    LoadInv(cfg, file);
    TotalBound(cfg, Load(cfg, file), cfg.count);
    if |script| > 2 * Most(cfg) * cfg.count + IdleTurns(cfg, Load(cfg, file), script) {
      ScriptEnds(cfg, Load(cfg, file), script);
    }
  }

  // ----- scripts without idle turns -----

  /** Every turn the loop takes is productive. */
  ghost predicate AllProductive<R>(cfg: Config<R>, s: State<R>, script: seq<Round<R>>)
    requires Inv(cfg, s)
  {
    IdleTurns(cfg, s, script) == 0
  }

  /** When every turn is productive, a script longer than the measure is never used up. */
  lemma ProductiveEnds<R>(cfg: Config<R>, s: State<R>, script: seq<Round<R>>)
    requires Inv(cfg, s) && cfg.concurrency >= 1 && AllProductive(cfg, s, script)
    requires |script| > Total(cfg, s, cfg.count)
    ensures !RunFrom(cfg, s, script).Interrupted?
  {
    ScriptEnds(cfg, s, script);
  }

  /**
   Operations that settle and delays that pass are enough: a turn in which every running operation has finished, at a
   time past the cooldown and past some due time if nothing is untouched, is productive.
   */
  lemma SettlingIsProductive<R>(cfg: Config<R>, s: State<R>, r: Round<R>)
    requires Inv(cfg, s) && cfg.concurrency >= 1 && WorkLeft(s)
    requires forall i :: i in Admit(cfg, s, r.now).running ==> i in r.done
    requires s.running != {} || s.halted || (r.now >= s.cooldown && (s.pending != [] || HasReady(s, r.now)))
    ensures Productive(cfg, s, r)
  {
    hide Partition, Budget, BlocksPlaced;
    AdmitAllInv(cfg, s, r.now);
    StillRunning(cfg, s, r.now);
    var t := Admit(cfg, s, r.now);
    if t.running != {} {
      var i :| i in t.running;
    }
  }

  /** A time at which no delay is left. */
  lemma {:induction false} PastAll(retries: map<nat, real>, cooldown: real) returns (now: real)
    ensures now >= cooldown && forall i :: i in retries ==> retries[i] <= now
    decreases |retries|
  {
    now := cooldown;
    if i :| i in retries {
      var rest := retries - {i};
      assert rest.Keys == retries.Keys - {i};
      assert |rest| < |retries| by { assert |rest.Keys| < |retries.Keys|; }
      now := PastAll(rest, if retries[i] > cooldown then retries[i] else cooldown);
      assert forall j :: j in retries && j != i ==> rest[j] == retries[j];
    }
  }

  /** The turns from number `from` on end operations with the outcomes given, turn by turn. */
  ghost predicate Answers<R>(script: seq<Round<R>>, outcome: (nat, nat) -> Outcome<R>, from: nat) {
    forall k: nat, i: nat :: k < |script| && i in script[k].done ==> script[k].done[i].outcome == outcome(from + k, i)
  }

  lemma AnswersCons<R>(r: Round<R>, rest: seq<Round<R>>, outcome: (nat, nat) -> Outcome<R>, from: nat)
    requires forall i :: i in r.done ==> r.done[i].outcome == outcome(from, i)
    requires Answers(rest, outcome, from + 1)
    ensures Answers([r] + rest, outcome, from)
  {
    var all := [r] + rest;
    forall k: nat, i: nat | k < |all| && i in all[k].done ensures all[k].done[i].outcome == outcome(from + k, i) {
      if k > 0 {
        assert all[k] == rest[k - 1];
        assert rest[k - 1].done[i].outcome == outcome(from + 1 + (k - 1), i);
      }
    }
  }

  /** A turn late enough, in which everything that runs comes to its end. */
  lemma SettlingTurn<R>(cfg: Config<R>, s: State<R>, outcome: (nat, nat) -> Outcome<R>, k: nat) returns (r: Round<R>)
    requires Inv(cfg, s) && cfg.concurrency >= 1 && WorkLeft(s)
    ensures Productive(cfg, s, r)
    ensures forall i :: i in r.done ==> r.done[i].outcome == outcome(k, i)
  {
    hide Inv, Productive, Admit;
    var now := PastAll(s.retries, s.cooldown);
    var t := Admit(cfg, s, now);
    r := Round(now, map i | i in t.running :: Done(outcome(k, i), now));
    if s.pending == [] && s.retries != map[] {
      assert exists i :: i in s.retries;
      var i :| i in s.retries;
      assert IsReady(s, now, i);
    }
    SettlingIsProductive(cfg, s, r);
  }

  function Nothing<R>(n: nat): (r: seq<Round<R>>)
    ensures |r| == n && forall k :: 0 <= k < n ==> r[k].done == map[]
  {
    seq(n, k => Round(0.0, map[]))
  }

  lemma {:induction false} SettlingTurns<R>(cfg: Config<R>, s: State<R>, outcome: (nat, nat) -> Outcome<R>,
                                            from: nat, n: nat)
    returns (script: seq<Round<R>>)
    requires Inv(cfg, s) && cfg.concurrency >= 1
    ensures |script| == n && AllProductive(cfg, s, script) && Answers(script, outcome, from)
    decreases n
  {
    hide Inv, Productive, AfterTurn, Drained, Answers;
    NothingAnswers<R>(outcome, from, n);
    if n == 0 || !WorkLeft(s) {
      script := Nothing(n);
    } else {
      var r := SettlingTurn(cfg, s, outcome, from);
      TurnInv(cfg, s, r);
      var t := AfterTurn(cfg, s, r);
      var rest: seq<Round<R>> := Nothing(n - 1);
      NothingAnswers<R>(outcome, from + 1, n - 1);
      if !t.raised && !Drained(cfg, s, r) {
        rest := SettlingTurns(cfg, t, outcome, from + 1, n - 1);
      }
      script := [r] + rest;
      AnswersCons(r, rest, outcome, from);
      assert script[1..] == rest;
    }
  }

  lemma NothingAnswers<R>(outcome: (nat, nat) -> Outcome<R>, from: nat, n: nat)
    ensures Answers(Nothing<R>(n), outcome, from)
  {
  }

  /**
   Such turns can always be had: from every state, whatever operations answer, there are turns of any number in which
   time passes and what runs comes to its end; with more of them than the measure the loop ends.
   */
  lemma LoopCanEnd<R>(cfg: Config<R>, s: State<R>, outcome: (nat, nat) -> Outcome<R>, n: nat)
    returns (script: seq<Round<R>>)
    requires Inv(cfg, s) && cfg.concurrency >= 1
    ensures |script| == n && AllProductive(cfg, s, script) && Answers(script, outcome, 0)
    ensures n > Total(cfg, s, cfg.count) ==> !RunFrom(cfg, s, script).Interrupted?
  {
    script := SettlingTurns(cfg, s, outcome, 0, n);
    if n > Total(cfg, s, cfg.count) {
      ProductiveEnds(cfg, s, script);
    }
  }
}
