/**
 All handlers of one job running against each other: locks taken and released, records read and written in separate
 steps, processes dying anywhere. What a user's cancellation and a worker's ownership are worth over whole runs.
 */
module JobLifecycle {
  import opened Wrappers
  import opened JobHandlers

  /** The operation runs with the execution lock, taken before the state lock. */
  predicate TakesExecution(op: Op) {
    op.Delete? || op.Retry? || op.Requeue? || op.Edit? || op.Collect? || op.Claim?
  }

  /** A step of a worker that already has the execution lock. */
  predicate OfWorker(op: Op) {
    op.Transition? || op.Fail? || op.Beat?
  }

  predicate Exclusive(op: Op) {
    TakesExecution(op) || OfWorker(op)
  }

  predicate Final(op: Op) {
    op.Fail? || (op.Transition? && !Processing(op.target))
  }

  datatype Pc =
    | Idle
    | Waiting(op: Op)
    | Inside(op: Op)
    | Loaded(op: Op, copy: Record)
    | Leaving(op: Op, wrote: bool)
    | Working
    | Failing(cancelled: bool, stopping: bool)
    | Finished

  datatype State = State(disk: Option<Record>, exec: Option<nat>, lock: Option<nat>, pcs: map<nat, Pc>)

  datatype Step =
    | Begin(p: nat, op: Op)
    | Work(p: nat, op: Op)
    | Enter(p: nat)
    | Load(p: nat)
    | Act(p: nat)
    | Leave(p: nat)
    | Raise(p: nat, cancelled: bool, stopping: bool)
    | GiveUp(p: nat)
    | Crash(p: nat)

  function Get(s: State, p: nat): Pc {
    if p in s.pcs then s.pcs[p] else Idle
  }

  function At(s: State, p: nat, pc: Pc): State {
    s.(pcs := s.pcs[p := pc])
  }

  /** Gives up both locks, as far as the process has them. */
  function Freed(s: State, p: nat): State {
    At(s.(exec := if s.exec == Some(p) then None else s.exec,
          lock := if s.lock == Some(p) then None else s.lock), p, Idle)
  }

  function Acted(s: State, p: nat, op: Op, copy: Record): State {
    if op.Transition? && Stopped(copy) then At(s.(lock := None), p, Failing(true, false))
    else
      var w := Effect(op, copy);
      var t := s.(disk := After(w, s.disk));
      if op.Retry? && w.Put? then At(t, p, Inside(Requeue)) else At(t, p, Leaving(op, w.Put?))
  }

  function Left(s: State, p: nat, op: Op, wrote: bool): State {
    if op.Claim? && wrote then At(s.(lock := None), p, Working)
    else if op.Beat? || (op.Transition? && !Final(op)) then At(s.(lock := None), p, Working)
    else if Final(op) then At(s.(lock := None), p, Finished)
    else Freed(s, p)
  }

  function Next(s: State, step: Step): State {
    var pc := Get(s, step.p);
    match step
    case Begin(p, op) =>
      if !pc.Idle? || OfWorker(op) || op.Requeue? then s
      else if TakesExecution(op) then (if s.exec.None? then At(s.(exec := Some(p)), p, Waiting(op)) else s)
      else if s.lock.None? then At(s.(lock := Some(p)), p, Inside(op)) else s
    case Work(p, op) =>
      if pc.Working? && WorkerStep(op) && s.lock.None? then At(s.(lock := Some(p)), p, Inside(op)) else s
    case Enter(p) =>
      if pc.Waiting? then (if s.lock.None? then At(s.(lock := Some(p)), p, Inside(pc.op)) else Freed(s, p))
      else if pc.Failing? && s.lock.None? then At(s.(lock := Some(p)), p, Inside(Fail(pc.cancelled, pc.stopping)))
      else s
    case Load(p) =>
      if !pc.Inside? then s
      else if s.disk.None? then Freed(s, p)
      else At(s, p, Loaded(pc.op, s.disk.value))
    case Act(p) => if pc.Loaded? then Acted(s, p, pc.op, pc.copy) else s
    case Leave(p) =>
      if pc.Leaving? then Left(s, p, pc.op, pc.wrote) else if pc.Finished? then Freed(s, p) else s
    case Raise(p, cancelled, stopping) => if pc.Working? then At(s, p, Failing(cancelled, stopping)) else s
    case GiveUp(p) => if pc.Failing? then Freed(s, p) else s
    case Crash(p) => Freed(s, p)
  }

  function Run(s: State, steps: seq<Step>): State
    decreases |steps|
  {
    if steps == [] then s else Run(Next(s, steps[0]), steps[1..])
  }

  /** A cancellation request stands only where it can still take effect. */
  predicate RequestPlaced(disk: Option<Record>) {
    disk.Some? && disk.value.cancelRequested ==>
      Processing(disk.value.status) || disk.value.status.Failed? || disk.value.status.Cancelled?
  }

  /** Nobody is running, and the record is any that such a job can have. */
  predicate Quiescent(s: State) {
    s.exec.None? && s.lock.None? && s.pcs == map[] && RequestPlaced(s.disk)
  }

  // ----- what every step keeps -----

  predicate HoldsLock(pc: Pc) {
    pc.Inside? || pc.Loaded? || pc.Leaving?
  }

  predicate HoldsExecution(pc: Pc) {
    pc.Waiting? || pc.Working? || pc.Failing? || pc.Finished? || (HoldsLock(pc) && Exclusive(pc.op))
  }

  /** A worker in the middle of the job. */
  predicate Live(pc: Pc) {
    pc.Working? || pc.Failing? || ((pc.Inside? || pc.Loaded?) && OfWorker(pc.op))
    || (pc.Leaving? && ((pc.op.Claim? && pc.wrote) || (OfWorker(pc.op) && !Final(pc.op))))
  }

  predicate ProperOp(pc: Pc) {
    && (pc.Waiting? ==> TakesExecution(pc.op) && !pc.op.Requeue?)
    && (HoldsLock(pc) && pc.op.Transition? ==> WorkerStep(pc.op))
  }

  /** A retry between its two saves: the request is cleared, the job is not queued yet. */
  predicate Requeueing(pc: Pc) {
    (pc.Inside? || pc.Loaded?) && pc.op.Requeue?
  }

  predicate Cleared(disk: Option<Record>) {
    disk.Some? && !disk.value.cancelRequested && (disk.value.status.Failed? || disk.value.status.Cancelled?)
  }

  ghost predicate Sound(s: State, p: nat) {
    var pc := Get(s, p);
    && (HoldsLock(pc) <==> s.lock == Some(p))
    && (HoldsExecution(pc) <==> s.exec == Some(p))
    && (Live(pc) ==> s.disk.Some? && Processing(s.disk.value.status))
    && (pc.Loaded? ==> s.disk == Some(pc.copy))
    && (Requeueing(pc) ==> Cleared(s.disk))
    && ProperOp(pc)
  }

  ghost predicate Inv(s: State) {
    RequestPlaced(s.disk) && forall p: nat :: Sound(s, p)
  }

  lemma OthersStay(s: State, step: Step)
    ensures forall q: nat :: q != step.p ==> Get(Next(s, step), q) == Get(s, q)
  {
  }

  /**
   What is written under the state lock while somebody else has the execution lock never takes the job away from
   them.
   */
  lemma SharedEffect(op: Op, r: Record)
    requires !Exclusive(op) && Processing(r.status)
    ensures Effect(op, r).Keep? || (Effect(op, r).Put? && Effect(op, r).record.status == r.status)
  {
  }

  lemma EffectPlaced(op: Op, r: Record)
    requires RequestPlaced(Some(r))
    requires op.Requeue? ==> !r.cancelRequested
    requires op.Transition? ==> !Stopped(r)
    requires OfWorker(op) ==> Processing(r.status)
    ensures RequestPlaced(After(Effect(op, r), Some(r)))
  {
  }

  lemma OwnSound(s: State, step: Step)
    requires Inv(s)
    ensures Sound(Next(s, step), step.p)
  {
    assert Sound(s, step.p);
  }

  lemma OtherSound(s: State, step: Step, q: nat)
    requires Inv(s) && q != step.p
    ensures Sound(Next(s, step), q)
  {
    assert Sound(s, step.p) && Sound(s, q);
    var pc := Get(s, step.p);
    if step.Act? && pc.Loaded? && !Exclusive(pc.op) && Processing(pc.copy.status) {
      SharedEffect(pc.op, pc.copy);
    }
  }

  lemma StepInv(s: State, step: Step)
    requires Inv(s)
    ensures Inv(Next(s, step))
  {
    hide Sound, Effect;
    forall q: nat ensures Sound(Next(s, step), q) {
      if q == step.p {
        OwnSound(s, step);
      } else {
        OtherSound(s, step, q);
      }
    }
    StepPlaced(s, step);
  }

  lemma StepPlaced(s: State, step: Step)
    requires Inv(s)
    ensures RequestPlaced(Next(s, step).disk)
  {
    hide Effect;
    assert Sound(s, step.p);
    var pc := Get(s, step.p);
    if step.Act? && pc.Loaded? && !(pc.op.Transition? && Stopped(pc.copy)) {
      EffectPlaced(pc.op, pc.copy);
    }
  }

  lemma StartInv(s: State)
    requires Quiescent(s)
    ensures Inv(s)
  {
  }

  lemma {:induction false} RunInv(s: State, steps: seq<Step>)
    requires Inv(s)
    ensures Inv(Run(s, steps))
    decreases |steps|
  {
    if steps != [] {
      StepInv(s, steps[0]);
      RunInv(Next(s, steps[0]), steps[1..]);
    }
  }

  // ----- results over whole runs -----

  /** The write that clears a cancellation request: the first save of a retry. */
  predicate Clears(s: State, step: Step) {
    step.Act? && Get(s, step.p).Loaded? && Get(s, step.p).op.Retry?
      && Effect(Get(s, step.p).op, Get(s, step.p).copy).Put?
  }

  predicate NeverCleared(s: State, steps: seq<Step>)
    decreases |steps|
  {
    steps == [] || (!Clears(s, steps[0]) && NeverCleared(Next(s, steps[0]), steps[1..]))
  }

  /** The request stands, or the whole job is gone. */
  predicate Requested(s: State) {
    s.disk.Some? ==> s.disk.value.cancelRequested
  }

  lemma StepRequested(s: State, step: Step)
    requires Inv(s) && Requested(s) && !Clears(s, step)
    ensures Requested(Next(s, step))
  {
    assert Sound(s, step.p);
  }

  /**
   A cancellation is never lost. Once the request is on record, and until a retry clears it, the job is being processed,
   failed, cancelled or deleted at every later moment of every run: never completed, up for review or queued again.
   */
  lemma {:induction false} CancellationKept(s: State, steps: seq<Step>)
    requires Inv(s) && Requested(s) && NeverCleared(s, steps)
    ensures Requested(Run(s, steps)) && RequestPlaced(Run(s, steps).disk)
    decreases |steps|
  {
    if steps != [] {
      StepInv(s, steps[0]);
      StepRequested(s, steps[0]);
      CancellationKept(Next(s, steps[0]), steps[1..]);
    }
  }

  /** The same from the very start of a run: everything after the request, in any reachable state. */
  lemma CancellationKeptFrom(s: State, before: seq<Step>, steps: seq<Step>)
    requires Quiescent(s) && Requested(Run(s, before)) && NeverCleared(Run(s, before), steps)
    ensures var t := Run(Run(s, before), steps); t.disk.Some? ==>
      !t.disk.value.status.Completed? && !t.disk.value.status.AwaitingReview?
  {
    StartInv(s);
    RunInv(s, before);
    CancellationKept(Run(s, before), steps);
  }

  /** While a job is being processed, only the process with the execution lock changes its status or removes it. */
  lemma StatusOwned(s: State, steps: seq<Step>, step: Step)
    requires Quiescent(s)
    requires var t := Run(s, steps); t.disk.Some? && Processing(t.disk.value.status)
    ensures var t := Run(s, steps); var u := Next(t, step);
      u.disk.None? || u.disk.value.status != t.disk.value.status ==> t.exec == Some(step.p)
  {
    StartInv(s);
    RunInv(s, steps);
    var t := Run(s, steps);
    assert Sound(t, step.p);
    var pc := Get(t, step.p);
    if step.Act? && pc.Loaded? && !Exclusive(pc.op) {
      SharedEffect(pc.op, pc.copy);
    }
  }

  /** Every step of every run changes the status along an edge of the legal graph, or removes a finished job. */
  lemma LegalStep(s: State, step: Step)
    requires Inv(s)
    ensures Legal(StatusOf(s.disk), StatusOf(Next(s, step).disk))
  {
    hide Effect, Legal;
    assert Sound(s, step.p);
    var pc := Get(s, step.p);
    if step.Act? && pc.Loaded? {
      EffectLegal(pc.op, pc.copy);
    }
    NothingChanged(StatusOf(s.disk));
  }

  lemma NothingChanged(status: Option<Status>)
    ensures Legal(status, status)
  {
  }

  /** The statuses at every moment of a run. */
  function History(s: State, steps: seq<Step>): seq<Option<Status>>
    decreases |steps|
  {
    [StatusOf(s.disk)] + if steps == [] then [] else History(Next(s, steps[0]), steps[1..])
  }

  /** Whatever handlers, workers and crashes do to each other, the status only ever moves along the legal graph. */
  lemma {:induction false} LegalHistory(s: State, steps: seq<Step>)
    requires Inv(s)
    ensures |History(s, steps)| == |steps| + 1 && History(s, steps)[|steps|] == StatusOf(Run(s, steps).disk)
    ensures forall k :: 0 <= k < |steps| ==> Legal(History(s, steps)[k], History(s, steps)[k + 1])
    decreases |steps|
  {
    hide Next, Legal, Inv;
    if steps != [] {
      LegalStep(s, steps[0]);
      StepInv(s, steps[0]);
      var later := History(Next(s, steps[0]), steps[1..]);
      LegalHistory(Next(s, steps[0]), steps[1..]);
      assert later[0] == StatusOf(Next(s, steps[0]).disk);
      assert forall k :: 0 < k < |steps| ==> Legal(later[k - 1], later[k]);
    }
  }

  /** The status of a run's state becomes this one in this step. */
  predicate Becomes(s: State, step: Step, status: Status) {
    StatusOf(Next(s, step).disk) == Some(status) && StatusOf(s.disk) != Some(status)
  }

  /**
   A job is completed only by its worker: by the write of a transition to completion, out of a processing state, with
   the execution lock held and no cancellation requested.
   */
  lemma CompletedByWorker(s: State, steps: seq<Step>, step: Step)
    requires Quiescent(s) && Becomes(Run(s, steps), step, Completed)
    ensures var t := Run(s, steps); var pc := Get(t, step.p);
      && step.Act? && pc.Loaded? && pc.op == Transition(Completed)
      && t.exec == Some(step.p) && t.lock == Some(step.p)
      && t.disk.Some? && Processing(t.disk.value.status) && !t.disk.value.cancelRequested
  {
    StartInv(s);
    RunInv(s, steps);
    assert Sound(Run(s, steps), step.p);
  }

  /**
   A job is queued only by a user: started when ready, sent to rendering after a review, or requeued by a retry after it
   failed or was cancelled.
   */
  lemma QueuedByUser(s: State, steps: seq<Step>, step: Step)
    requires Quiescent(s) && Becomes(Run(s, steps), step, Queued)
    ensures var t := Run(s, steps); var pc := Get(t, step.p);
      && step.Act? && pc.Loaded? && t.lock == Some(step.p) && t.disk.Some? && !t.disk.value.cancelRequested
      && (pc.op.Start? || pc.op.Edit? || pc.op.Requeue?)
      && (pc.op.Start? ==> t.disk.value.status.Ready?)
      && (pc.op.Edit? ==> t.disk.value.status.AwaitingReview?)
      && (pc.op.Requeue? ==> t.disk.value.status.Failed? || t.disk.value.status.Cancelled?)
  {
    StartInv(s);
    RunInv(s, steps);
    assert Sound(Run(s, steps), step.p);
  }

  /** A completed job stays completed until it is removed. */
  lemma {:induction false} CompletedStays(s: State, steps: seq<Step>)
    requires Inv(s) && StatusOf(s.disk) == Some(Completed)
    ensures var status := StatusOf(Run(s, steps).disk); status == Some(Completed) || status.None?
    decreases |steps|
  {
    hide Next, Inv;
    if steps != [] {
      LegalStep(s, steps[0]);
      StepInv(s, steps[0]);
      if Next(s, steps[0]).disk.Some? {
        CompletedStays(Next(s, steps[0]), steps[1..]);
      } else {
        GoneStays(Next(s, steps[0]), steps[1..]);
      }
    }
  }

  lemma {:induction false} GoneStays(s: State, steps: seq<Step>)
    requires Inv(s) && s.disk.None?
    ensures Run(s, steps).disk.None?
    decreases |steps|
  {
    hide Next, Inv;
    if steps != [] {
      LegalStep(s, steps[0]);
      StepInv(s, steps[0]);
      GoneStays(Next(s, steps[0]), steps[1..]);
    }
  }

  /** A job is declared interrupted only when no worker is alive at it. */
  lemma InterruptedOnlyDead(s: State, steps: seq<Step>, p: nat, q: nat)
    requires Quiescent(s) && p != q
    requires var pc := Get(Run(s, steps), p); pc.Loaded? && pc.op.Collect? && Processing(pc.copy.status)
    ensures !Live(Get(Run(s, steps), q))
  {
    StartInv(s);
    RunInv(s, steps);
    assert Sound(Run(s, steps), p) && Sound(Run(s, steps), q);
  }

  /** No update is lost: whoever is about to write has read exactly what is on disk. */
  lemma NoLostUpdate(s: State, steps: seq<Step>, p: nat)
    requires Quiescent(s) && Get(Run(s, steps), p).Loaded?
    ensures Run(s, steps).disk == Some(Get(Run(s, steps), p).copy)
  {
    StartInv(s);
    RunInv(s, steps);
    assert Sound(Run(s, steps), p);
  }

  /** A worker's job is always there and always in a processing state while the worker is alive at it. */
  lemma WorkerFindsJob(s: State, steps: seq<Step>, p: nat)
    requires Quiescent(s) && Live(Get(Run(s, steps), p))
    ensures Run(s, steps).disk.Some? && Processing(Run(s, steps).disk.value.status)
  {
    StartInv(s);
    RunInv(s, steps);
    assert Sound(Run(s, steps), p);
  }

  /** The steps of a worker that tries to go on after a cancellation was requested. */
  function StopSteps(p: nat, target: Status): seq<Step> {
    [Work(p, Transition(target)), Load(p), Act(p), Enter(p), Load(p), Act(p), Leave(p), Leave(p)]
  }

  lemma StopAtTransition(s: State, p: nat, target: Status)
    requires Get(s, p).Working? && s.lock.None? && WorkerStep(Transition(target))
    requires s.disk.Some? && s.disk.value.cancelRequested
    ensures Next(Next(Next(s, Work(p, Transition(target))), Load(p)), Act(p)) == Stopping(s, p, target)
    ensures Get(Stopping(s, p, target), p) == Failing(true, false)
  {
  }

  /** The state in which the worker has noticed the request and released the state lock. */
  function Stopping(s: State, p: nat, target: Status): State
    requires s.disk.Some?
  {
    var op := Transition(target);
    s.(lock := None, pcs := s.pcs[p := Inside(op)][p := Loaded(op, s.disk.value)][p := Failing(true, false)])
  }

  lemma StopAtHandler(s: State, p: nat)
    requires Get(s, p) == Failing(true, false) && s.lock.None? && s.exec == Some(p) && s.disk.Some?
    ensures var t := Next(Next(Next(Next(Next(s, Enter(p)), Load(p)), Act(p)), Leave(p)), Leave(p));
      t.disk.Some? && t.disk.value.status.Cancelled? && t.exec.None? && t.lock.None?
  {
    var a := Next(Next(s, Enter(p)), Load(p));
    assert Get(a, p) == Loaded(Fail(true, false), s.disk.value);
    var b := Next(Next(a, Act(p)), Leave(p));
    assert Get(b, p).Finished?;
  }

  /** A requested cancellation takes effect at the worker's next transition, whatever it was about to do. */
  lemma CancellationTakesEffect(s: State, p: nat, target: Status)
    requires Inv(s) && Get(s, p).Working? && s.lock.None?
    requires s.disk.Some? && s.disk.value.cancelRequested && WorkerStep(Transition(target))
    ensures var t := Run(s, StopSteps(p, target));
      t.disk.Some? && t.disk.value.status.Cancelled? && t.exec.None? && t.lock.None?
  {
    hide Next, Run;
    assert Sound(s, p);
    StopAtTransition(s, p, target);
    StopAtHandler(Stopping(s, p, target), p);
    RunSteps(s, StopSteps(p, target));
  }

  lemma RunOne(s: State, a: Step, rest: seq<Step>)
    ensures Run(s, [a] + rest) == Run(Next(s, a), rest)
  {
    hide Next;
    assert ([a] + rest)[1..] == rest;
  }

  lemma RunSteps(s: State, t: seq<Step>)
    requires |t| == 8
    ensures Run(s, t)
      == Next(Next(Next(Next(Next(Next(Next(Next(s, t[0]), t[1]), t[2]), t[3]), t[4]), t[5]), t[6]), t[7])
  {
    hide Next, Run;
    assert t == [t[0]] + ([t[1]] + ([t[2]] + ([t[3]] + ([t[4]] + ([t[5]] + ([t[6]] + ([t[7]] + [])))))));
    RunOne(s, t[0], t[1..]);
    var a := Next(s, t[0]);
    RunOne(a, t[1], t[2..]);
    var b := Next(a, t[1]);
    RunOne(b, t[2], t[3..]);
    var c := Next(b, t[2]);
    RunOne(c, t[3], t[4..]);
    var d := Next(c, t[3]);
    RunOne(d, t[4], t[5..]);
    var e := Next(d, t[4]);
    RunOne(e, t[5], t[6..]);
    var f := Next(e, t[5]);
    RunOne(f, t[6], t[7..]);
    var g := Next(f, t[6]);
    RunOne(g, t[7], []);
    assert t == [t[0]] + t[1..] && t[1..] == [t[1]] + t[2..] && t[2..] == [t[2]] + t[3..] && t[3..] == [t[3]] + t[4..];
    assert t[4..] == [t[4]] + t[5..] && t[5..] == [t[5]] + t[6..] && t[6..] == [t[6]] + t[7..] && t[7..] == [t[7]] + [];
    RunNone(Next(g, t[7]));
  }

  lemma RunNone(s: State)
    ensures Run(s, []) == s
  {
  }
}
