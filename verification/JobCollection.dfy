/** Who changes what about a job, over all runs: what collection may take, and the one cause of every change. */
module JobCollection {
  import opened Wrappers
  import opened JobHandlers
  import opened JobLifecycle

  /** The job is over. */
  predicate Over(status: Status) {
    status == Completed || status == Failed || status == Cancelled
  }

  /** Not over, and waiting for nobody: a worker has the job, or had it. */
  predicate InHands(status: Status) {
    !Over(status) && status != Uploading && status != Ready && status != Queued && status != AwaitingReview
  }

  /** In this step a process writes what its handler makes of the record that it has read. */
  predicate Writes(s: State, step: Step) {
    step.Act? && Get(s, step.p).Loaded?
  }

  /** A worker's handler has its job in hands and a worker's target; a retry is queued when its request is cleared. */
  predicate Proper(op: Op, r: Record) {
    && (op.Transition? ==> InHands(op.target) || op.target == AwaitingReview || op.target == Completed)
    && (op.Transition? || op.Fail? || op.Beat? ==> InHands(r.status))
    && (op.Requeue? ==> !r.cancelRequested && (r.status == Failed || r.status == Cancelled))
  }

  /** In every state a process about to write has the state lock, has read the disk, and runs a proper handler. */
  lemma Writer(s: State, steps: seq<Step>, step: Step)
    requires Quiescent(s) && Writes(Run(s, steps), step)
    ensures var t := Run(s, steps); var pc := Get(t, step.p);
      && t.disk == Some(pc.copy) && t.lock == Some(step.p)
      && (t.exec == Some(step.p) <==> !pc.op.Start? && !pc.op.Cancel? && !pc.op.CompleteUpload?)
      && Proper(pc.op, pc.copy)
  {
    StartInv(s);
    RunInv(s, steps);
    assert Sound(Run(s, steps), step.p);
  }

  /** Only a write changes the record, to what the handler makes of it. */
  lemma Written(s: State, step: Step)
    ensures !Writes(s, step) ==> Next(s, step).disk == s.disk
    ensures Writes(s, step) && s.disk.Some? ==>
      Next(s, step).disk == After(Effect(Get(s, step.p).op, Get(s, step.p).copy), s.disk)
  {
  }

  // ----- collection -----

  /** A job that is over, or that waits for a user's upload or review. */
  predicate Expires(status: Status) {
    Over(status) || status == Uploading || status == AwaitingReview
  }

  /**
   A collection in any run, by what it finds. With nothing due, or no wish to expire anything, a job that is over or
   waits for a user is left alone, and a ready or queued one always; what is due is saved once more, removed or
   cancelled; and a job in a worker's hands, of whom none is alive, has failed by interruption.
   */
  lemma CollectionExactly(s: State, steps: seq<Step>, step: Step)
    requires Quiescent(s) && Writes(Run(s, steps), step) && Get(Run(s, steps), step.p).op.Collect?
    ensures var t := Run(s, steps); var op, left := Get(t, step.p).op, Next(t, step).disk;
      && t.disk.Some? && t.exec == Some(step.p)
      && var r := t.disk.value;
      && (r.status == Ready || r.status == Queued ==> left == Some(r))
      && (Expires(r.status) && (!op.expire || op.age == Fresh) ==> left == Some(r))
      && (Expires(r.status) && op.expire && op.age != Fresh && !Over(r.status) ==>
            left == Some(r.(status := Cancelled)))
      && (Over(r.status) && op.expire && op.age == Expired ==> left == Some(r.(touches := r.touches + 1)))
      && (Over(r.status) && op.expire && op.age == Ancient ==> left == None)
      && (InHands(r.status) ==>
            && left == Some(r.(status := Failed, interrupted := true))
            && forall q :: q != step.p ==> !Live(Get(t, q)))
  {
    Writer(s, steps, step);
    var t := Run(s, steps);
    if InHands(t.disk.value.status) {
      forall q: nat | q != step.p ensures !Live(Get(t, q)) {
        InterruptedOnlyDead(s, steps, step.p, q);
      }
    }
  }

  /** The writes that remove a job: a user's, and that of a collection to which it is both over and ancient. */
  predicate RemovedBy(s: State, step: Step) {
    && Writes(s, step)
    && var pc := Get(s, step.p);
    && Over(pc.copy.status)
    && (pc.op == Delete || pc.op == Collect(true, Ancient))
  }

  /** A job disappears in a step if and only if it is over and a user deletes it, or a collection finds it ancient. */
  lemma RemovedExactly(s: State, steps: seq<Step>, step: Step)
    requires Quiescent(s) && Run(s, steps).disk.Some?
    ensures var t := Run(s, steps); Next(t, step).disk.None? <==> RemovedBy(t, step)
  {
    if Writes(Run(s, steps), step) {
      Writer(s, steps, step);
    }
  }

  /** No step of the run removes the job. */
  predicate NeverRemoved(s: State, steps: seq<Step>)
    decreases |steps|
  {
    steps == [] || (!RemovedBy(s, steps[0]) && NeverRemoved(Next(s, steps[0]), steps[1..]))
  }

  lemma {:induction false} RunAfter(s: State, steps: seq<Step>, step: Step)
    ensures Run(s, steps + [step]) == Next(Run(s, steps), step)
    decreases |steps|
  {
    hide Next;
    if steps == [] {
      RunOne(s, step, []);
      RunNone(Next(s, step));
      assert [] + [step] == [step] + [];
    } else {
      RunAfter(Next(s, steps[0]), steps[1..], step);
      assert (steps + [step])[1..] == steps[1..] + [step];
    }
  }

  /**
   A job that is completed stays completed through every run in which no user deletes it and no collection finds it
   ancient, whatever else happens to it and however often collections come by.
   */
  lemma {:induction false} CompletedKept(s: State, before: seq<Step>, steps: seq<Step>)
    requires Quiescent(s) && StatusOf(Run(s, before).disk) == Some(Completed) && NeverRemoved(Run(s, before), steps)
    ensures StatusOf(Run(Run(s, before), steps).disk) == Some(Completed)
    decreases |steps|
  {
    hide Next, RemovedBy;
    if steps != [] {
      RemovedExactly(s, before, steps[0]);
      StartInv(s);
      RunInv(s, before);
      CompletedStays(Run(s, before), [steps[0]]);
      RunOne(Run(s, before), steps[0], []);
      RunNone(Next(Run(s, before), steps[0]));
      assert [steps[0]] + [] == [steps[0]];
      RunAfter(s, before, steps[0]);
      CompletedKept(s, before + [steps[0]], steps[1..]);
    }
  }

  // ----- the cause of every change -----

  /** Why a record gets this status: by its worker, by a user, by a collection, or at the end of an upload. */
  predicate Reason(op: Op, r: Record, to: Status) {
    || (op == Transition(to) && !r.cancelRequested)
    || (to == Analyzing && r.status == Queued && op == Claim)
    || (to == Failed && op.Fail? && !op.cancelled && !r.cancelRequested)
    || (to == Cancelled && op.Fail? && (op.cancelled || r.cancelRequested))
    || (to == Cancelled && op.Cancel? && !Over(r.status) && !InHands(r.status))
    || (to == Queued && r.status == Ready && r.uploaded == r.expected && op == Start(Some(r.expected), true))
    || (to == Queued && r.status == AwaitingReview && op == Edit(true, true, true))
    || (to == Queued && op == Requeue)
    || (to == Ready && r.status == Uploading && op == CompleteUpload(r.expected))
    || (to == Failed && op.Collect? && InHands(r.status))
    || (to == Cancelled && op.Collect? && op.expire && op.age != Fresh
        && (r.status == Uploading || r.status == AwaitingReview))
  }

  /** In every run a status comes about in a step exactly if the handler that writes has that status's reason. */
  lemma StatusExactly(s: State, steps: seq<Step>, step: Step, to: Status)
    requires Quiescent(s) && Run(s, steps).disk.Some? && Run(s, steps).disk.value.status != to
    ensures var t := Run(s, steps);
      StatusOf(Next(t, step).disk) == Some(to) <==> Writes(t, step) && Reason(Get(t, step.p).op, t.disk.value, to)
  {
    hide Next, Run, Reason, Effect;
    var t := Run(s, steps);
    Written(t, step);
    if Writes(t, step) {
      Writer(s, steps, step);
      EffectReason(Get(t, step.p).op, t.disk.value, to);
    }
  }

  lemma EffectReason(op: Op, r: Record, to: Status)
    requires r.status != to
    requires Proper(op, r)
    ensures StatusOf(After(Effect(op, r), Some(r))) == Some(to) <==> Reason(op, r, to)
  {
    hide Effect, Collected, Reason;
    EffectOfCollect(op, r);
    if op.Collect? {
      CollectReason(op.expire, op.age, r, to);
    } else if op.Claim? || op.Transition? || op.Fail? || op.Beat? {
      WorkerReason(op, r, to);
    } else {
      UserReason(op, r, to);
    }
  }

  lemma EffectOfCollect(op: Op, r: Record)
    ensures op.Collect? ==> Effect(op, r) == Collected(r, op.expire, op.age)
  {
  }

  lemma WorkerReason(op: Op, r: Record, to: Status)
    requires r.status != to && Proper(op, r) && (op.Claim? || op.Transition? || op.Fail? || op.Beat?)
    ensures StatusOf(After(Effect(op, r), Some(r))) == Some(to) <==> Reason(op, r, to)
  {
  }

  lemma UserReason(op: Op, r: Record, to: Status)
    requires r.status != to && Proper(op, r)
    requires !op.Collect? && !op.Claim? && !op.Transition? && !op.Fail? && !op.Beat?
    ensures StatusOf(After(Effect(op, r), Some(r))) == Some(to) <==> Reason(op, r, to)
  {
  }

  lemma CollectReason(expire: bool, age: Age, r: Record, to: Status)
    requires r.status != to
    ensures StatusOf(After(Collected(r, expire, age), Some(r))) == Some(to) <==> Reason(Collect(expire, age), r, to)
  {
  }

  /** What else a write can change: the upload, the retries, the review and the saves, each for its own reasons. */
  predicate Accounted(op: Op, before: Record, after: Record) {
    && after.expected == before.expected
    && (after.uploaded != before.uploaded ==> op.CompleteUpload? && after.uploaded == after.expected)
    && (before.status != Ready && after.status == Ready ==> after.uploaded == after.expected)
    && (before.retries < after.retries <==> op.Retry? && after != before)
    && before.retries <= after.retries <= before.retries + 1
    && (before.reviewReady != after.reviewReady ==> after.reviewReady && after.status == Queued && op.Edit?)
    && (op.Edit? && before.status == AwaitingReview && after.status == Queued ==> after.reviewReady)
    && (after.touches != before.touches ==>
          && after == before.(touches := before.touches + 1)
          && (op.Beat? || (Over(before.status) && (op == Edit(true, true, false) || op == Collect(true, Expired)))))
    && (op.Beat? || (before.status == Completed && op == Edit(true, true, false)) ==> after.touches != before.touches)
  }

  /** A cancellation is requested by a user and cleared by a retry; an interruption is found by worker or collection. */
  predicate StopsAccounted(op: Op, before: Record, after: Record) {
    && (!before.cancelRequested && after.cancelRequested ==> op.Cancel? && InHands(before.status))
    && (op.Cancel? && InHands(before.status) ==> after == before.(cancelRequested := true))
    && (before.cancelRequested && !after.cancelRequested ==> op.Retry?)
    && (!before.interrupted && after.interrupted ==>
          (op.Fail? && op.stopping) || (op.Collect? && InHands(before.status)))
    && (before.interrupted && !after.interrupted ==> op.Retry? || (op.Fail? && !op.stopping))
    && (op.Fail? ==> after.interrupted == op.stopping)
  }

  /** What a retry is granted for: the job failed or was cancelled, its upload is all there, and there is room. */
  predicate Retriable(op: Op, r: Record) {
    && op == Retry(Some(r.expected), true)
    && (r.status == Failed || r.status == Cancelled)
    && r.uploaded == r.expected
  }

  /** The first save of a retry clears what stopped the job. */
  function Revived(r: Record): Record {
    r.(cancelRequested := false, interrupted := false, retries := r.retries + 1)
  }

  lemma EffectAccounted(op: Op, r: Record, w: Write)
    requires Proper(op, r) && w == Effect(op, r)
    ensures w.Put? ==> Accounted(op, r, w.record)
    ensures w.Keep? ==> Accounted(op, r, r)
  {
  }

  lemma EffectStops(op: Op, r: Record, w: Write)
    requires Proper(op, r) && w == Effect(op, r)
    ensures w.Put? ==> StopsAccounted(op, r, w.record)
    ensures w.Keep? ==> StopsAccounted(op, r, r)
  {
  }

  lemma EffectRetry(op: Op, r: Record)
    ensures op.Retry? ==> Effect(op, r) == if Retriable(op, r) then Put(Revived(r)) else Keep
  {
  }

  /** In every run each field changes only for its own reasons, and a retry clears what stopped the job. */
  lemma FieldsAccounted(s: State, steps: seq<Step>, step: Step)
    requires Quiescent(s) && Run(s, steps).disk.Some? && Next(Run(s, steps), step).disk.Some?
    ensures var t := Run(s, steps); var before, after := t.disk.value, Next(t, step).disk.value;
      if !Writes(t, step) then after == before
      else
        var op := Get(t, step.p).op;
        && Accounted(op, before, after) && StopsAccounted(op, before, after)
        && (op.Retry? ==> after == if Retriable(op, before) then Revived(before) else before)
  {
    hide Next, Run, Accounted, StopsAccounted, Retriable, Revived, Effect;
    var t := Run(s, steps);
    Written(t, step);
    if Writes(t, step) {
      Writer(s, steps, step);
      var op := Get(t, step.p).op;
      EffectAccounted(op, t.disk.value, Effect(op, t.disk.value));
      EffectStops(op, t.disk.value, Effect(op, t.disk.value));
      EffectRetry(op, t.disk.value);
    }
  }

  // ----- handlers and workers that nobody disturbs -----

  predicate Free(s: State) {
    s.exec == None && s.lock == None
  }

  /** The steps of a handler that finds both locks free; those it does not need change nothing. */
  function Alone(p: nat, op: Op): seq<Step> {
    [Begin(p, op), Enter(p), Load(p), Act(p), Load(p), Act(p), Leave(p)]
  }

  lemma RunSeven(s: State, t: seq<Step>)
    requires |t| == 7
    ensures Run(s, t) == Next(Next(Next(Next(Next(Next(Next(s, t[0]), t[1]), t[2]), t[3]), t[4]), t[5]), t[6])
  {
    hide Next;
    RunAfter(s, [], t[0]);
    RunNone(s);
    assert t[..1] == [] + [t[0]];
    forall k | 1 <= k < 7 ensures t[..k + 1] == t[..k] + [t[k]] {
    }
    RunAfter(s, t[..1], t[1]);
    RunAfter(s, t[..2], t[2]);
    RunAfter(s, t[..3], t[3]);
    RunAfter(s, t[..4], t[4]);
    RunAfter(s, t[..5], t[5]);
    RunAfter(s, t[..6], t[6]);
    assert t[..7] == t;
  }

  /** The handler holds the locks that it needs and has read the record. */
  predicate AtWrite(t: State, p: nat, op: Op)
    requires t.disk != None
  {
    && t.lock == Some(p) && t.exec == (if TakesExecution(op) then Some(p) else None)
    && Get(t, p) == Loaded(op, t.disk.value)
  }

  /** The first half: the handler holds its locks and has read the record, or has found none and left. */
  lemma AloneLoads(s: State, p: nat, op: Op)
    requires Free(s) && Get(s, p) == Idle && !OfWorker(op) && !op.Requeue?
    ensures var t := Next(Next(Next(s, Begin(p, op)), Enter(p)), Load(p));
      && t.disk == s.disk
      && (s.disk == None ==> Free(t) && Get(t, p) == Idle)
      && (s.disk != None ==> AtWrite(t, p, op))
  {
  }

  /** The second half: the record is written, by a retry twice, and both locks are given back. */
  lemma AloneActs(t: State, p: nat, op: Op)
    requires !OfWorker(op) && !op.Requeue? && !op.Claim?
    requires t.disk == None ==> Free(t) && Get(t, p) == Idle
    requires t.disk != None ==> AtWrite(t, p, op)
    ensures var u := Next(Next(Next(Next(t, Act(p)), Load(p)), Act(p)), Leave(p));
      u.disk == Handled(op, t.disk) && Free(u) && Get(u, p) == Idle
  {
    hide Collected;
  }

  /** A handler that nobody disturbs does what the same handler does when it is called, and gives back its locks. */
  lemma HandlerAlone(s: State, p: nat, op: Op)
    requires Free(s) && Get(s, p) == Idle && !OfWorker(op) && !op.Requeue? && !op.Claim?
    ensures var t := Run(s, Alone(p, op)); t.disk == Handled(op, s.disk) && Free(t) && Get(t, p) == Idle
  {
    hide Next, Run, Handled;
    RunSeven(s, Alone(p, op));
    AloneLoads(s, p, op);
    AloneActs(Next(Next(Next(s, Begin(p, op)), Enter(p)), Load(p)), p, op);
  }

  /** A worker that nobody disturbs gets a queued job and keeps the execution lock; of any other job it lets go. */
  lemma ClaimAlone(s: State, p: nat)
    requires Free(s) && Get(s, p) == Idle
    ensures var t := Run(s, Alone(p, Claim));
      if s.disk != None && s.disk.value.status == Queued
      then
        && t.disk == Some(s.disk.value.(status := Analyzing))
        && t.exec == Some(p) && t.lock == None && Get(t, p) == Working
      else t.disk == s.disk && Free(t) && Get(t, p) == Idle
  {
    hide Run;
    RunSeven(s, Alone(p, Claim));
    AloneLoads(s, p, Claim);
  }

  /** Its transitions change the status and nothing else; after one to processing it works on, else it is done. */
  lemma TransitionAlone(s: State, p: nat, target: Status)
    requires Get(s, p) == Working && s.lock == None && s.disk != None && !s.disk.value.cancelRequested
    requires InHands(s.disk.value.status)
    requires InHands(target) || target == AwaitingReview || target == Completed
    ensures var t := Next(Next(Next(Next(s, Work(p, Transition(target))), Load(p)), Act(p)), Leave(p));
      && t.disk == Some(s.disk.value.(status := target)) && t.lock == None && t.exec == s.exec
      && Get(t, p) == if InHands(target) then Working else Finished
  {
  }

  /** Whoever does not get on lets go: the record stays, and the process holds no lock any more. */
  lemma LetsGo(s: State, steps: seq<Step>, p: nat)
    requires Quiescent(s)
    ensures var t := Run(s, steps); var pc := Get(t, p);
      && (pc.Failing? ==> LetGo(t, Next(t, GiveUp(p)), p))
      && (pc.Finished? ==> LetGo(t, Next(t, Leave(p)), p))
      && (pc.Waiting? && t.lock != None ==> LetGo(t, Next(t, Enter(p)), p))
      && (pc.Inside? && t.disk == None ==> LetGo(t, Next(t, Load(p)), p))
      && LetGo(t, Next(t, Crash(p)), p)
  {
    StartInv(s);
    RunInv(s, steps);
    assert Sound(Run(s, steps), p);
  }

  /** Nothing changes but the locks of p and where it is. */
  predicate LetGo(t: State, u: State, p: nat) {
    && u.disk == t.disk && Get(u, p) == Idle
    && u.exec == (if t.exec == Some(p) then None else t.exec)
    && u.lock == (if t.lock == Some(p) then None else t.lock)
  }
}
