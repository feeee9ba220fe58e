/** Why an upload's state changes, which upload comes next, and what the list holds, in every run of `UploadQueue`. */
module PumpMeanings {
  import opened Wrappers
  import opened UploadPump

  // ----- transfers are stopped -----

  /** A transfer that is not being aborted is that of a listed item, and nothing tells the queue to stop. */
  ghost predicate Allowed(s: State) {
    s.active.Some? && !s.active.value.aborted ==> s.active.value.key in s.items && !s.suspended && !s.disposed
  }

  lemma AdvanceAllowed(s: State)
    requires s.active.None?
    ensures Allowed(Advance(s))
  {
  }

  lemma PumpAllowed(s: State)
    requires s.active.None? || s.running
    requires s.active.None? || Allowed(s)
    ensures Allowed(Pump(s))
  {
    if s.active.None? {
      AdvanceAllowed(s.(running := true));
    }
  }

  lemma StepAllowed(s: State, step: Step)
    requires Inv(s) && Allowed(s)
    ensures Allowed(Next(s, step))
  {
    hide Pump, Advance, Duplicate, Settled;
    if s.active.Some? {
      assert ItemSound(s, s.active.value.key);
    }
    match step
    case Add(size, jobId) =>
      if !Duplicate(s, jobId) {
        PumpAllowed(s.(objects := s.objects[s.nextKey := Item(jobId, true, size, 0, Waiting, false)],
                       items := s.items + [s.nextKey], nextKey := s.nextKey + 1));
      }
    case Resume(key) =>
      if key in s.objects {
        PumpAllowed(With(s, key, Waiting));
      }
    case Suspend(value) =>
      if !value {
        PumpAllowed(s.(suspended := value));
      }
    case Activate => PumpAllowed(s.(disposed := false));
    case Settle(ok) =>
      if s.active.Some? {
        SettledIdle(s, ok);
        AdvanceAllowed(Settled(s, ok));
      }
    case _ =>
  }

  lemma SettledIdle(s: State, ok: bool)
    requires s.active.Some? && s.active.value.key in s.objects
    ensures Settled(s, ok).active.None?
  {
  }

  /** Suspending or disposing the queue and removing an item abort the transfer, in every run. */
  lemma {:induction false} StopsTransfers(s: State, steps: seq<Step>)
    requires Inv(s) && Allowed(s)
    ensures Allowed(Run(s, steps))
    decreases |steps|
  {
    hide Next, Inv, Allowed;
    if steps != [] {
      StepInv(s, steps[0]);
      StepAllowed(s, steps[0]);
      StopsTransfers(Next(s, steps[0]), steps[1..]);
    }
  }

  lemma Reachable(steps: seq<Step>)
    ensures Inv(Run(Empty(), steps))
  {
    RunInv(Empty(), steps);
  }

  // ----- the cause of every change -----

  /** The queue has just begun with this item, and nothing before it in the list is waiting. */
  ghost predicate FirstInLine(t: State, key: nat) {
    && t.active == Some(Active(key, false))
    && exists i :: 0 <= i < |t.items| && t.items[i] == key
         && forall j :: 0 <= j < i ==> !StateOf(t, t.items[j]).Waiting?
  }

  lemma {:induction false} FirstWaitingIs(s: State, items: seq<nat>) returns (i: nat)
    requires FirstWaiting(s, items).Some?
    ensures i < |items| && FirstWaiting(s, items) == Some(items[i])
    ensures forall j :: 0 <= j < i ==> !StateOf(s, items[j]).Waiting?
  {
    if StateOf(s, items[0]).Waiting? {
      i := 0;
    } else {
      i := FirstWaitingIs(s, items[1..]);
      i := i + 1;
    }
  }

  /** The item is as before but for its state, and that changes only when it is the first waiting item. */
  ghost predicate StartsFirst(s: State, t: State, key: nat)
    requires key in s.objects
  {
    && key in t.objects && t.items == s.items
    && t.objects[key] == s.objects[key].(state := StateOf(t, key), started := t.objects[key].started)
    && (StateOf(t, key) != StateOf(s, key) ==>
          StateOf(s, key).Waiting? && StateOf(t, key).Uploading? && FirstInLine(t, key))
  }

  lemma NextIsFirst(s: State)
    requires Core(s) && FirstWaiting(s, s.items).Some? && !s.suspended && !s.disposed
    ensures FirstInLine(Advance(s), FirstWaiting(s, s.items).value)
  {
    var t := Advance(s);
    var i := FirstWaitingIs(s, s.items);
    assert t.items[i] == FirstWaiting(s, s.items).value;
    forall j | 0 <= j < i ensures !StateOf(t, t.items[j]).Waiting? {
      assert s.items[j] in s.items && ItemSound(s, s.items[j]);
    }
  }

  /** Starting the next transfer changes nothing but the state of the first waiting item. */
  lemma AdvanceStarts(s: State, key: nat)
    requires Core(s) && key in s.objects
    ensures StartsFirst(s, Advance(s), key)
  {
    hide FirstInLine, FirstWaiting, Core;
    if FirstWaiting(s, s.items).Some? && !s.suspended && !s.disposed {
      NextIsFirst(s);
    }
  }

  lemma PumpStarts(s: State, key: nat)
    requires Core(s) && key in s.objects
    ensures StartsFirst(s, Pump(s), key)
  {
    hide FirstInLine, Advance;
    if !s.running && !s.suspended && !s.disposed {
      var u := s.(running := true);
      assert forall k: nat :: ItemSound(s, k) ==> ItemSound(u, k);
      AdvanceStarts(u, key);
    }
  }

  /** The user may go on with this item. */
  predicate Resumable(s: State, key: nat) {
    key in s.items && key in s.objects && s.objects[key].hasFile
      && (s.objects[key].state == Paused || s.objects[key].state == Error)
  }

  /** Why an item that exists gets a new state in a step. */
  ghost predicate Because(s: State, step: Step, t: State, key: nat, to: ItemState) {
    match to
    case Done => step == Settle(true) && s.active == Some(Active(key, false))
    case Error => step == Settle(false) && s.active == Some(Active(key, false))
    case Paused => (step == Pause(key) || step == Remove(key)) && key in s.items && StateOf(s, key) != Done
    case Waiting =>
      || (step == Resume(key) && Resumable(s, key))
      || (step.Settle? && s.active == Some(Active(key, true)) && StateOf(s, key) == Uploading)
    case Uploading =>
      && FirstInLine(t, key)
      && (|| StateOf(s, key) == Waiting
          || (step == Resume(key) && Resumable(s, key))
          || (step.Settle? && s.active == Some(Active(key, true))))
  }

  /** The item is still there, and its state is as before or has changed for its reason. */
  ghost predicate Explained(s: State, step: Step, t: State, key: nat) {
    key in t.objects && (StateOf(t, key) != StateOf(s, key) ==> Because(s, step, t, key, StateOf(t, key)))
  }

  lemma ResumeBecause(s: State, target: nat, key: nat)
    requires Inv(s) && key in s.objects
    ensures var t := Next(s, Resume(target));
      Explained(s, Resume(target), t, key)
  {
    hide Pump, FirstInLine, Core;
    if Resumable(s, target) {
      ResumedCore(s, target);
      PumpStarts(With(s, target, Waiting), key);
    }
  }

  lemma SettleBecause(s: State, ok: bool, key: nat)
    requires Inv(s) && key in s.objects
    ensures var t := Next(s, Settle(ok));
      Explained(s, Settle(ok), t, key)
  {
    hide Advance, FirstInLine;
    if s.active.Some? {
      assert ItemSound(s, s.active.value.key) && ItemSound(s, key);
      var u := Settled(s, ok);
      SettledCore(s, ok);
      AdvanceStarts(u, key);
    }
  }

  lemma SettledCore(s: State, ok: bool)
    requires Inv(s) && s.active.Some? && s.active.value.key in s.objects
    ensures Core(Settled(s, ok))
  {
    var t := Settled(s, ok);
    forall k: nat ensures ItemSound(t, k) {
      assert ItemSound(s, k);
    }
    WithoutOnly(s.active.value.key);
  }

  lemma AddBecause(s: State, size: nat, jobId: Option<nat>, key: nat)
    requires Inv(s) && key in s.objects
    ensures var t := Next(s, Add(size, jobId));
      Explained(s, Add(size, jobId), t, key)
  {
    hide Pump, Duplicate, FirstInLine, Core;
    if !Duplicate(s, jobId) {
      AddedCore(s, size, jobId);
      assert ItemSound(s, key);
      PumpStarts(Added(s, size, jobId), key);
    }
  }

  function Added(s: State, size: nat, jobId: Option<nat>): State {
    s.(objects := s.objects[s.nextKey := Item(jobId, true, size, 0, Waiting, false)],
       items := s.items + [s.nextKey], nextKey := s.nextKey + 1)
  }

  lemma AddedCore(s: State, size: nat, jobId: Option<nat>)
    requires Inv(s)
    ensures Core(Added(s, size, jobId)) && s.nextKey !in s.objects
  {
    assert ItemSound(s, s.nextKey);
    DistinctAppend(s.items, s.nextKey);
    forall k: nat ensures ItemSound(Added(s, size, jobId), k) {
      assert ItemSound(s, k);
    }
  }

  lemma NewItem(s: State, size: nat, jobId: Option<nat>)
    requires Inv(s) && !Duplicate(s, jobId)
    ensures var t := Next(s, Add(size, jobId));
      && s.nextKey !in s.objects && s.nextKey in t.objects
      && var item := t.objects[s.nextKey];
      && item == Item(jobId, true, size, 0, item.state, item.started)
      && (item.state == Waiting || (item.state == Uploading && FirstInLine(t, s.nextKey)))
  {
    hide Pump, Duplicate, FirstInLine, Core;
    AddedCore(s, size, jobId);
    PumpStarts(Added(s, size, jobId), s.nextKey);
  }

  /** In every run an item's state changes only for its reason, and the next transfer is that of the first in line. */
  lemma StateChanges(steps: seq<Step>, step: Step, key: nat)
    requires key in Run(Empty(), steps).objects
    ensures var s := Run(Empty(), steps); Explained(s, step, Next(s, step), key)
  {
    hide Run, Next, Explained, Inv;
    var s := Run(Empty(), steps);
    Reachable(steps);
    match step
    case Add(size, jobId) => AddBecause(s, size, jobId, key);
    case Resume(target) => ResumeBecause(s, target, key);
    case Suspend(_) => FlagsBecause(s, step, key);
    case Activate => FlagsBecause(s, step, key);
    case Settle(ok) => SettleBecause(s, ok, key);
    case _ => OtherBecause(s, step, key);
  }

  lemma FlagsBecause(s: State, step: Step, key: nat)
    requires Inv(s) && key in s.objects && (step.Suspend? || step.Activate?)
    ensures Explained(s, step, Next(s, step), key)
  {
    hide Pump, FirstInLine, Core;
    var suspended := if step.Suspend? then step.value else s.suspended;
    var disposed := if step.Activate? then false else s.disposed;
    FlagsCore(s, suspended, disposed);
    PumpStarts(s.(suspended := suspended, disposed := disposed), key);
  }

  lemma OtherBecause(s: State, step: Step, key: nat)
    requires Inv(s) && key in s.objects
    requires step.Pause? || step.Remove? || step.Dispose? || step.Forget? || step.Report?
    ensures Explained(s, step, Next(s, step), key)
  {
    hide Without, Forgotten, FirstInLine;
    assert ItemSound(s, key);
  }

  /** And what must happen to an item does happen: pausing, going on, and the end of its transfer. */
  lemma StateMust(steps: seq<Step>, key: nat, ok: bool)
    requires key in Run(Empty(), steps).objects
    ensures var s := Run(Empty(), steps);
      && (key in s.items && StateOf(s, key) != Done ==>
            StateOf(Next(s, Pause(key)), key) == StateOf(Next(s, Remove(key)), key) == Paused)
      && (Resumable(s, key) ==> Pending(StateOf(Next(s, Resume(key)), key)))
      && (s.active == Some(Active(key, false)) ==> StateOf(Next(s, Settle(ok)), key) == if ok then Done else Error)
      && (s.active == Some(Active(key, true)) ==>
            (Pending(StateOf(Next(s, Settle(ok)), key)) <==> Pending(StateOf(s, key))))
  {
    hide Run, Next, Pending, Inv;
    var s := Run(Empty(), steps);
    Reachable(steps);
    PausedMust(s, key);
    if Resumable(s, key) {
      ResumedMust(s, key);
    }
    SettledMust(s, key, ok);
  }

  lemma PausedMust(s: State, key: nat)
    ensures key in s.items && key in s.objects && StateOf(s, key) != Done ==>
      StateOf(Next(s, Pause(key)), key) == StateOf(Next(s, Remove(key)), key) == Paused
  {
  }

  lemma ResumedMust(s: State, key: nat)
    requires Inv(s) && Resumable(s, key)
    ensures Pending(StateOf(Next(s, Resume(key)), key))
  {
    hide Pump, FirstInLine, Core;
    ResumedCore(s, key);
    PumpStarts(With(s, key, Waiting), key);
  }

  lemma SettledMust(s: State, key: nat, ok: bool)
    requires Inv(s) && key in s.objects
    ensures s.active == Some(Active(key, false)) ==> StateOf(Next(s, Settle(ok)), key) == if ok then Done else Error
    ensures s.active == Some(Active(key, true)) ==>
      (Pending(StateOf(Next(s, Settle(ok)), key)) <==> Pending(StateOf(s, key)))
  {
    hide Advance, FirstInLine, Core;
    if s.active.Some? && s.active.value.key == key {
      SettledCore(s, ok);
      AdvanceStarts(Settled(s, ok), key);
      assert ItemSound(s, key);
    }
  }

  /** What a transfer reports goes to its own item, as does its success; nothing else changes an item's data. */
  ghost predicate DataKept(s: State, step: Step, t: State, key: nat)
    requires key in s.objects && key in t.objects
  {
    var x, y := s.objects[key], t.objects[key];
    var reported := step.Report? && s.active.Some? && s.active.value.key == key;
    var finished := step == Settle(true) && s.active == Some(Active(key, false));
    && y.size == x.size
    && y.jobId == (if reported then step.jobId else x.jobId)
    && y.progress == (if reported then step.progress else if finished then x.size else x.progress)
    && y.hasFile == (x.hasFile && !finished)
  }

  lemma PumpData(s: State, step: Step, u: State, key: nat)
    requires Core(u) && key in s.objects && key in u.objects && DataKept(s, step, u, key)
    ensures key in Pump(u).objects && DataKept(s, step, Pump(u), key)
    ensures key in Advance(u).objects && DataKept(s, step, Advance(u), key)
  {
    hide Pump, Advance, FirstInLine;
    PumpStarts(u, key);
    AdvanceStarts(u, key);
  }

  lemma DataExactly(steps: seq<Step>, step: Step, key: nat)
    requires key in Run(Empty(), steps).objects
    ensures var s := Run(Empty(), steps); var t := Next(s, step); key in t.objects && DataKept(s, step, t, key)
  {
    hide Run, Next, DataKept, Inv;
    var s := Run(Empty(), steps);
    Reachable(steps);
    match step
    case Add(size, jobId) => AddData(s, size, jobId, key);
    case Resume(target) => ResumeData(s, target, key);
    case Suspend(_) => FlagsData(s, step, key);
    case Activate => FlagsData(s, step, key);
    case Settle(ok) => SettleData(s, ok, key);
    case _ => OtherData(s, step, key);
  }

  lemma AddData(s: State, size: nat, jobId: Option<nat>, key: nat)
    requires Inv(s) && key in s.objects
    ensures key in Next(s, Add(size, jobId)).objects
    ensures DataKept(s, Add(size, jobId), Next(s, Add(size, jobId)), key)
  {
    hide Pump, Advance, Duplicate, Core;
    AddedCore(s, size, jobId);
    PumpData(s, Add(size, jobId), Added(s, size, jobId), key);
  }

  lemma ResumeData(s: State, target: nat, key: nat)
    requires Inv(s) && key in s.objects
    ensures key in Next(s, Resume(target)).objects
    ensures DataKept(s, Resume(target), Next(s, Resume(target)), key)
  {
    hide Pump, Advance, Core;
    if Resumable(s, target) {
      ResumedCore(s, target);
      PumpData(s, Resume(target), With(s, target, Waiting), key);
    }
  }

  lemma FlagsData(s: State, step: Step, key: nat)
    requires Inv(s) && key in s.objects && (step.Suspend? || step.Activate?)
    ensures key in Next(s, step).objects && DataKept(s, step, Next(s, step), key)
  {
    hide Pump, Advance, Core;
    var suspended := if step.Suspend? then step.value else s.suspended;
    var disposed := if step.Activate? then false else s.disposed;
    FlagsCore(s, suspended, disposed);
    PumpData(s, step, s.(suspended := suspended, disposed := disposed), key);
  }

  lemma SettleData(s: State, ok: bool, key: nat)
    requires Inv(s) && key in s.objects
    ensures key in Next(s, Settle(ok)).objects && DataKept(s, Settle(ok), Next(s, Settle(ok)), key)
  {
    hide Pump, Advance, Core, Settled, DataKept;
    if s.active.Some? {
      assert ItemSound(s, s.active.value.key);
      SettledCore(s, ok);
      SettledData(s, ok, key);
      PumpData(s, Settle(ok), Settled(s, ok), key);
    } else {
      NothingToSettle(s, ok);
      DataAsBefore(s, ok, key);
    }
  }

  lemma DataAsBefore(s: State, ok: bool, key: nat)
    requires key in s.objects && s.active.None?
    ensures DataKept(s, Settle(ok), s, key)
  {
  }

  lemma OtherData(s: State, step: Step, key: nat)
    requires Inv(s) && key in s.objects
    requires step.Pause? || step.Remove? || step.Dispose? || step.Forget? || step.Report?
    ensures key in Next(s, step).objects && DataKept(s, step, Next(s, step), key)
  {
    hide Without, Forgotten;
    assert ItemSound(s, key);
  }

  lemma SettledData(s: State, ok: bool, key: nat)
    requires Inv(s) && key in s.objects && s.active.Some? && s.active.value.key in s.objects
    ensures key in Settled(s, ok).objects && DataKept(s, Settle(ok), Settled(s, ok), key)
  {
  }

  lemma ResumedCore(s: State, target: nat)
    requires Inv(s) && Resumable(s, target)
    ensures Core(With(s, target, Waiting))
  {
    assert ItemSound(s, target);
    forall k: nat ensures ItemSound(With(s, target, Waiting), k) {
      assert ItemSound(s, k);
    }
  }

  lemma FlagsCore(s: State, suspended: bool, disposed: bool)
    requires Inv(s)
    ensures Core(s.(suspended := suspended, disposed := disposed))
  {
    forall k: nat ensures ItemSound(s.(suspended := suspended, disposed := disposed), k) {
      assert ItemSound(s, k);
    }
  }

  // ----- the list -----

  /** How many of the first n items stay. */
  function Staying(items: seq<nat>, gone: set<nat>, n: nat): nat
    requires n <= |items|
  {
    if n == 0 then 0 else Staying(items, gone, n - 1) + if items[n - 1] in gone then 0 else 1
  }

  lemma {:induction false} StayingRest(items: seq<nat>, gone: set<nat>, n: nat)
    requires 0 < n <= |items|
    ensures Staying(items, gone, n) == (if items[0] in gone then 0 else 1) + Staying(items[1..], gone, n - 1)
  {
    if n > 1 {
      StayingRest(items, gone, n - 1);
    }
  }

  lemma WithoutFirst(items: seq<nat>, gone: set<nat>)
    ensures Without([], gone) == []
    ensures items != [] ==>
      Without(items, gone) == (if items[0] in gone then [] else [items[0]]) + Without(items[1..], gone)
  {
  }

  lemma StayingNone(items: seq<nat>, gone: set<nat>)
    ensures Staying(items, gone, 0) == 0
  {
  }

  /** Taking items off the list keeps all others, in their order. */
  lemma {:induction false} WithoutExactly(items: seq<nat>, gone: set<nat>, k: nat)
    ensures |Without(items, gone)| == Staying(items, gone, |items|)
    ensures k < |items| && items[k] !in gone ==>
      && Staying(items, gone, k) < |Without(items, gone)|
      && Without(items, gone)[Staying(items, gone, k)] == items[k]
  {
    hide Without, Staying;
    WithoutFirst(items, gone);
    StayingNone(items, gone);
    if items != [] {
      WithoutExactly(items[1..], gone, if k > 0 then k - 1 else 0);
      StayingRest(items, gone, |items|);
      if 0 < k < |items| {
        StayingRest(items, gone, k);
      }
    }
  }

  /** The user has asked for this job already, and it is not finished. */
  ghost predicate Asked(s: State, jobId: Option<nat>) {
    jobId != None && exists i :: 0 <= i < |s.items| && InWork(s, s.items[i], jobId)
  }

  predicate InWork(s: State, key: nat, jobId: Option<nat>) {
    key in s.objects && s.objects[key].jobId == jobId && s.objects[key].state != Done
  }

  /** The items that a step takes off the list. */
  ghost predicate TakenOff(s: State, step: Step, key: nat) {
    || step == Remove(key)
    || (step.Forget? && key in s.objects && s.objects[key].state == Done && s.objects[key].jobId.Some?
        && s.objects[key].jobId.value in step.ids)
  }

  /** The list loses exactly what is taken off it, and gains what is added to it and has not been asked for. */
  lemma ListExactly(steps: seq<Step>, step: Step) returns (gone: set<nat>)
    ensures var s := Run(Empty(), steps);
      && (forall k :: k in s.items ==> (k in gone <==> TakenOff(s, step, k)))
      && Next(s, step).items == Without(s.items, gone)
           + (if step.Add? && !Asked(s, step.jobId) then [s.nextKey] else [])
  {
    hide Run, Next, Asked, Duplicate, Inv;
    var s := Run(Empty(), steps);
    Reachable(steps);
    ItemsKnown(s);
    gone := if step.Remove? then {step.key} else if step.Forget? then Forgotten(s, step.ids) else {};
    NothingGone(s.items);
    ItemsAfter(s, step);
    if step.Add? {
      AskedTwice(s, step.jobId);
    }
  }

  lemma ItemsKnown(s: State)
    requires Inv(s)
    ensures forall k :: k in s.items ==> k in s.objects
  {
    assert forall k :: k in s.items ==> ItemSound(s, k);
  }

  lemma ItemsAfter(s: State, step: Step)
    ensures Next(s, step).items ==
      if step.Remove? then Without(s.items, {step.key})
      else if step.Forget? then Without(s.items, Forgotten(s, step.ids))
      else if step.Add? && !Duplicate(s, step.jobId) then s.items + [s.nextKey]
      else s.items
  {
    hide Duplicate, Without, Forgotten, FirstWaiting;
  }

  /** An item that is added is the user's, waits or goes ahead at once, and leaves all others to their own changes. */
  lemma AddExactly(steps: seq<Step>, size: nat, jobId: Option<nat>)
    requires !Asked(Run(Empty(), steps), jobId)
    ensures var s := Run(Empty(), steps); var t := Next(s, Add(size, jobId));
      && s.nextKey !in s.objects && s.nextKey in t.objects
      && var item := t.objects[s.nextKey];
      && item == Item(jobId, true, size, 0, item.state, item.started)
      && (item.state == Waiting || (item.state == Uploading && FirstInLine(t, s.nextKey)))
  {
    hide Run, Next, Asked, Duplicate, Inv, FirstInLine;
    var s := Run(Empty(), steps);
    Reachable(steps);
    ItemsKnown(s);
    AskedTwice(s, jobId);
    NewItem(s, size, jobId);
  }

  lemma {:induction false} NothingGone(items: seq<nat>)
    ensures Without(items, {}) == items
  {
    if items != [] {
      NothingGone(items[1..]);
    }
  }

  lemma AskedTwice(s: State, jobId: Option<nat>)
    requires forall k :: k in s.items ==> k in s.objects
    ensures Duplicate(s, jobId) <==> Asked(s, jobId)
  {
    if Duplicate(s, jobId) {
      var k :| k in s.items && Listed(s, k) && s.objects[k].jobId == jobId && !s.objects[k].state.Done?;
      var i :| 0 <= i < |s.items| && s.items[i] == k;
      assert InWork(s, s.items[i], jobId);
    }
    if Asked(s, jobId) {
      var i :| 0 <= i < |s.items| && InWork(s, s.items[i], jobId);
      assert Listed(s, s.items[i]);
    }
  }
}
