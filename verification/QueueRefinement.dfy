/** Every run of the queue's loop is a run of steps, so what holds of all interleavings holds of the loop. */
module QueueRefinement {
  import opened Wrappers
  import opened SegmentQueue
  import opened QueueProofs
  import opened QueueLoop
  import M = QueueRuns

  // ----- sequences of steps -----

  /** The times of the steps do not go back. */
  predicate InTime<R>(clock: real, steps: seq<M.Step<R>>)
    decreases |steps|
  {
    if steps == [] then true
    else if steps[0].AdmitStep? || steps[0].SettleStep? then clock <= steps[0].now && InTime(steps[0].now, steps[1..])
    else InTime(clock, steps[1..])
  }

  function EndClock<R>(clock: real, steps: seq<M.Step<R>>): real
    decreases |steps|
  {
    if steps == [] then clock
    else EndClock(if steps[0].AdmitStep? || steps[0].SettleStep? then steps[0].now else clock, steps[1..])
  }

  lemma {:induction false} InTimeConcat<R>(clock: real, a: seq<M.Step<R>>, b: seq<M.Step<R>>)
    ensures InTime(clock, a + b) <==> InTime(clock, a) && InTime(EndClock(clock, a), b)
    ensures EndClock(clock, a + b) == EndClock(EndClock(clock, a), b)
    decreases |a|
  {
    if a == [] {
      assert a + b == b;
    } else {
      assert (a + b)[1..] == a[1..] + b;
      InTimeConcat(if a[0].AdmitStep? || a[0].SettleStep? then a[0].now else clock, a[1..], b);
    }
  }

  /** The steps lead from one world to another. */
  ghost predicate Leads<R>(cfg: Config<R>, w: M.World<R>, steps: seq<M.Step<R>>, v: M.World<R>) {
    M.EnabledRun(cfg, w, steps) && M.Run(cfg, w, steps) == v
  }

  lemma LeadsNone<R>(cfg: Config<R>, w: M.World<R>)
    ensures Leads(cfg, w, [], w)
  {
  }

  lemma LeadsOne<R>(cfg: Config<R>, w: M.World<R>, step: M.Step<R>)
    requires M.Enabled(cfg, w, step)
    ensures Leads(cfg, w, [step], M.Next(cfg, w, step))
  {
    assert [step][1..] == [];
  }

  lemma {:induction false} LeadsConcat<R>(cfg: Config<R>, u: M.World<R>, a: seq<M.Step<R>>, v: M.World<R>,
                                          b: seq<M.Step<R>>, w: M.World<R>)
    requires Leads(cfg, u, a, v) && Leads(cfg, v, b, w)
    ensures Leads(cfg, u, a + b, w)
    decreases |a|
  {
    hide M.Next, M.Enabled;
    if a == [] {
      assert a + b == b;
    } else {
      assert (a + b)[1..] == a[1..] + b;
      LeadsConcat(cfg, M.Next(cfg, u, a[0]), a[1..], v, b, w);
    }
  }

  // ----- the steps of a turn -----

  ghost function SettleSteps<R>(cfg: Config<R>, s: State<R>, done: map<nat, Done<R>>, order: seq<nat>): seq<M.Step<R>>
    requires AllRunning(s, order)
    requires forall k :: 0 <= k < |order| ==> order[k] in done
    decreases |order|
  {
    if order == [] || s.raised then []
    else
      var i := order[0];
      SettleFrame(cfg, s, order, done[i]);
      [M.SettleStep(i, done[i].outcome, done[i].at)]
      + SettleSteps(cfg, Settle(cfg, s, i, done[i].outcome, done[i].at), done, order[1..])
  }

  /** What a world is to be when its process has come to a state: an escaping exception ends the process. */
  ghost predicate Holds<R>(v: M.World<R>, s: State<R>, disk: File<R>, clock: real) {
    && v.disk == disk
    && v.process == (if s.raised then None else Some(s))
    && (!s.raised ==> v.clock == clock)
  }

  lemma {:induction false} SettleStepsLead<R>(cfg: Config<R>, w: M.World<R>, s: State<R>,
                                              done: map<nat, Done<R>>, order: seq<nat>)
    returns (v: M.World<R>)
    requires Inv(cfg, s) && AllRunning(s, order) && Holds(w, s, w.disk, w.clock)
    requires forall k :: 0 <= k < |order| ==> order[k] in done
    requires InTime(w.clock, SettleSteps(cfg, s, done, order))
    ensures Leads(cfg, w, SettleSteps(cfg, s, done, order), v)
    ensures Holds(v, SettleAll(cfg, s, done, order), w.disk, EndClock(w.clock, SettleSteps(cfg, s, done, order)))
    decreases |order|
  {
    hide Inv, Settle, Leads;
    NotRaisedYet(cfg, s);
    if order == [] {
      LeadsNone(cfg, w);
      v := w;
    } else {
      var i := order[0];
      var d := done[i];
      var t := Settle(cfg, s, i, d.outcome, d.at);
      SettleInv(cfg, s, i, d.outcome, d.at);
      SettleFrame(cfg, s, order, d);
      var step := M.SettleStep(i, d.outcome, d.at);
      var steps := SettleSteps(cfg, s, done, order);
      var rest := SettleSteps(cfg, t, done, order[1..]);
      assert steps == [step] + rest && steps[1..] == rest;
      LeadsOne(cfg, w, step);
      var u := M.Next(cfg, w, step);
      if t.raised {
        LeadsNone(cfg, u);
        v := u;
      } else {
        v := SettleStepsLead(cfg, u, t, done, order[1..]);
      }
      LeadsConcat(cfg, w, [step], u, rest, v);
    }
  }

  lemma NotRaisedYet<R>(cfg: Config<R>, s: State<R>)
    requires Inv(cfg, s)
    ensures !s.raised
  {
  }

  ghost function AdmitSteps<R>(cfg: Config<R>, s: State<R>, now: real): seq<M.Step<R>> {
    [M.AdmitStep(now)] + if Admits(cfg, s, now) then [M.PublishStep] else []
  }

  ghost function FinishSteps<R>(cfg: Config<R>, t: State<R>, r: Round<R>): seq<M.Step<R>>
    requires Inv(cfg, t)
  {
    FinishingRun(cfg, t, r);
    var order := Finishing(cfg, t, r);
    if t.running == {} then []
    else SettleSteps(cfg, t, r.done, order) + if order == [] || Settled(cfg, t, r).raised then [] else [M.PublishStep]
  }

  ghost function TurnSteps<R>(cfg: Config<R>, s: State<R>, r: Round<R>): seq<M.Step<R>>
    requires Inv(cfg, s)
  {
    AdmitInv(cfg, s, r.now);
    AdmitSteps(cfg, s, r.now) + FinishSteps(cfg, Admit(cfg, s, r.now), r)
  }

  lemma AdmitStepsLead<R>(cfg: Config<R>, w: M.World<R>, s: State<R>, now: real) returns (v: M.World<R>)
    requires Inv(cfg, s) && Holds(w, s, w.disk, w.clock) && InTime(w.clock, AdmitSteps(cfg, s, now))
    ensures Leads(cfg, w, AdmitSteps(cfg, s, now), v)
    ensures var t := Admit(cfg, s, now);
      Holds(v, t, if Admits(cfg, s, now) then Publish(cfg, t) else w.disk, EndClock(w.clock, AdmitSteps(cfg, s, now)))
  {
    hide Inv, Admit, Admits, Publish, Leads;
    NotRaisedYet(cfg, s);
    NotRaised(cfg, s, now);
    var step := M.AdmitStep(now);
    var steps := AdmitSteps(cfg, s, now);
    assert steps[0] == step;
    LeadsOne(cfg, w, step);
    var u := M.Next(cfg, w, step);
    if Admits(cfg, s, now) {
      LeadsOne(cfg, u, M.PublishStep);
      v := M.Next(cfg, u, M.PublishStep);
      LeadsConcat(cfg, w, [step], u, [M.PublishStep], v);
      assert steps[1..] == [M.PublishStep] && steps[1..][1..] == [];
    } else {
      assert [step] + [] == [step] && steps[1..] == [];
      v := u;
    }
  }

  lemma FinishStepsLead<R>(cfg: Config<R>, w: M.World<R>, t: State<R>, r: Round<R>) returns (v: M.World<R>)
    requires Inv(cfg, t) && t.running != {} && Holds(w, t, w.disk, w.clock)
    requires InTime(w.clock, FinishSteps(cfg, t, r))
    ensures Leads(cfg, w, FinishSteps(cfg, t, r), v)
    ensures var u := Settled(cfg, t, r);
      Holds(v, u, if Finishing(cfg, t, r) == [] || u.raised then w.disk else Publish(cfg, u),
        EndClock(w.clock, FinishSteps(cfg, t, r)))
  {
    hide Inv, Leads, SettleAll, Finishing, Publish, SettleSteps;
    FinishingRun(cfg, t, r);
    var order := Finishing(cfg, t, r);
    var settles := SettleSteps(cfg, t, r.done, order);
    var last := if order == [] || Settled(cfg, t, r).raised then [] else [M.PublishStep];
    InTimeConcat(w.clock, settles, last);
    var u := SettleStepsLead(cfg, w, t, r.done, order);
    if last == [] {
      LeadsNone(cfg, u);
      v := u;
    } else {
      LeadsOne(cfg, u, M.PublishStep);
      v := M.Next(cfg, u, M.PublishStep);
      assert last[1..] == [];
    }
    LeadsConcat(cfg, w, settles, u, last, v);
  }

  /** A turn of the loop is a sequence of steps that leads to the same state and the same snapshot. */
  lemma TurnLeads<R>(cfg: Config<R>, w: M.World<R>, s: State<R>, r: Round<R>) returns (v: M.World<R>)
    requires Inv(cfg, s) && Holds(w, s, w.disk, w.clock) && InTime(w.clock, TurnSteps(cfg, s, r))
    ensures Leads(cfg, w, TurnSteps(cfg, s, r), v)
    ensures Holds(v, AfterTurn(cfg, s, r), DiskAfter(cfg, s, w.disk, r), EndClock(w.clock, TurnSteps(cfg, s, r)))
  {
    hide Inv, Leads, Admit, Admits, Publish, Settled, Finishing, AdmitSteps, FinishSteps;
    AdmitInv(cfg, s, r.now);
    var t := Admit(cfg, s, r.now);
    var a, b := AdmitSteps(cfg, s, r.now), FinishSteps(cfg, t, r);
    InTimeConcat(w.clock, a, b);
    var u := AdmitStepsLead(cfg, w, s, r.now);
    NotRaised(cfg, s, r.now);
    if t.running == {} {
      NothingFinishes(cfg, t, r);
      LeadsNone(cfg, u);
      v := u;
    } else {
      v := FinishStepsLead(cfg, u, t, r);
    }
    LeadsConcat(cfg, w, a, u, b, v);
  }

  lemma NothingFinishes<R>(cfg: Config<R>, t: State<R>, r: Round<R>)
    requires Inv(cfg, t) && t.running == {}
    ensures FinishSteps(cfg, t, r) == []
  {
  }

  // ----- the steps of a run -----

  ghost function LoopSteps<R>(cfg: Config<R>, s: State<R>, script: seq<Round<R>>): seq<M.Step<R>>
    requires Inv(cfg, s)
    decreases |script|
  {
    if !WorkLeft(s) || script == [] then []
    else
      TurnInv(cfg, s, script[0]);
      var t := AfterTurn(cfg, s, script[0]);
      TurnSteps(cfg, s, script[0])
      + if t.raised || Drained(cfg, s, script[0]) then [] else LoopSteps(cfg, t, script[1..])
  }

  /** The whole loop is a run of steps that leads to its last state and its last snapshot. */
  lemma {:induction false} LoopLeads<R>(cfg: Config<R>, w: M.World<R>, s: State<R>, script: seq<Round<R>>)
    returns (v: M.World<R>)
    requires Inv(cfg, s) && Holds(w, s, w.disk, w.clock) && InTime(w.clock, LoopSteps(cfg, s, script))
    ensures Leads(cfg, w, LoopSteps(cfg, s, script), v)
    ensures Holds(v, LastFrom(cfg, s, script), DiskFrom(cfg, s, w.disk, script),
      EndClock(w.clock, LoopSteps(cfg, s, script)))
    decreases |script|
  {
    hide Inv, Leads, AfterTurn, DiskAfter, Drained, TurnSteps;
    if !WorkLeft(s) || script == [] {
      LeadsNone(cfg, w);
      v := w;
    } else {
      var r := script[0];
      TurnInv(cfg, s, r);
      var t := AfterTurn(cfg, s, r);
      var rest := if t.raised || Drained(cfg, s, r) then [] else LoopSteps(cfg, t, script[1..]);
      InTimeConcat(w.clock, TurnSteps(cfg, s, r), rest);
      var u := TurnLeads(cfg, w, s, r);
      if t.raised || Drained(cfg, s, r) {
        LeadsNone(cfg, u);
        v := u;
      } else {
        v := LoopLeads(cfg, u, t, script[1..]);
      }
      LeadsConcat(cfg, w, TurnSteps(cfg, s, r), u, rest, v);
    }
  }

  /**
   A process of the program, from its start: loading, the first snapshot and the loop, at times that do not go back, are
   a run of steps from the world with that snapshot. It leaves the snapshot that the loop leaves.
   */
  lemma ProcessIsRun<R>(cfg: Config<R>, file: File<R>, script: seq<Round<R>>) returns (v: M.World<R>)
    requires Inv(cfg, Load(cfg, file)) && InTime(0.0, LoopSteps(cfg, Load(cfg, file), script))
    ensures Leads(cfg, M.Initial(file), [M.Boot, M.PublishStep] + LoopSteps(cfg, Load(cfg, file), script), v)
    ensures var s := Load(cfg, file);
      && v.disk == DiskFrom(cfg, s, Publish(cfg, s), script)
      && v.process == (if LastFrom(cfg, s, script).raised then None else Some(LastFrom(cfg, s, script)))
  {
    hide Inv, Leads, Load, Publish, LoopSteps, LastFrom, DiskFrom;
    var s := Load(cfg, file);
    NotRaisedYet(cfg, s);
    var w := M.Initial(file);
    LeadsOne(cfg, w, M.Boot);
    var a := M.Next(cfg, w, M.Boot);
    LeadsOne(cfg, a, M.PublishStep);
    var b := M.Next(cfg, a, M.PublishStep);
    LeadsConcat(cfg, w, [M.Boot], a, [M.PublishStep], b);
    var boot: seq<M.Step<R>> := [M.Boot];
    assert boot + [M.PublishStep] == [M.Boot, M.PublishStep];
    v := LoopLeads(cfg, b, s, script);
    LeadsConcat(cfg, w, [M.Boot, M.PublishStep], b, LoopSteps(cfg, s, script), v);
  }
}
