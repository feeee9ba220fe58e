/**
 `UploadQueue`: uploads one at a time. The code between two awaits is one atomic step; a started transfer settles in a
 later step of its own. Items are objects with a key: a removed item can still be the one that is being transferred.
 */
module UploadPump {
  import opened Wrappers

  datatype ItemState = Waiting | Uploading | Paused | Error | Done

  datatype Item = Item(jobId: Option<nat>, hasFile: bool, size: nat, progress: nat, state: ItemState, started: bool)

  datatype Active = Active(key: nat, aborted: bool)

  /** `flight` lists the transfers that have been started and have not settled. */
  datatype State = State(
    objects: map<nat, Item>,
    items: seq<nat>,
    running: bool,
    suspended: bool,
    disposed: bool,
    active: Option<Active>,
    flight: seq<nat>,
    nextKey: nat)

  datatype Step =
    | Add(size: nat, jobId: Option<nat>)
    | Pause(key: nat)
    | Resume(key: nat)
    | Remove(key: nat)
    | Suspend(value: bool)
    | Dispose
    | Activate
    | Forget(ids: set<nat>)
    | Report(jobId: Option<nat>, progress: nat)
    | Settle(ok: bool)

  // ----- the atomic steps -----

  function StateOf(s: State, key: nat): ItemState {
    if key in s.objects then s.objects[key].state else Done
  }

  function With(s: State, key: nat, state: ItemState): State
    requires key in s.objects
  {
    s.(objects := s.objects[key := s.objects[key].(state := state)])
  }

  /** The first waiting item. */
  function FirstWaiting(s: State, items: seq<nat>): (r: Option<nat>)
    ensures r.Some? ==> r.value in items && r.value in s.objects && StateOf(s, r.value).Waiting?
    ensures r.None? ==> forall k :: k in items ==> !StateOf(s, k).Waiting?
  {
    if items == [] then None
    else if StateOf(s, items[0]).Waiting? then Some(items[0])
    else FirstWaiting(s, items[1..])
  }

  /** The pump from the head of its loop to the next transfer, or to its end. */
  function Advance(s: State): State {
    var next := FirstWaiting(s, s.items);
    if s.suspended || s.disposed || next.None? then s.(running := false)
    else
      var key := next.value;
      s.(active := Some(Active(key, false)), flight := s.flight + [key],
         objects := s.objects[key := s.objects[key].(state := Uploading, started := true)])
  }

  function Pump(s: State): State {
    if s.running || s.suspended || s.disposed then s else Advance(s.(running := true))
  }

  function Aborted(s: State): State {
    if s.active.Some? then s.(active := Some(s.active.value.(aborted := true))) else s
  }

  predicate Listed(s: State, key: nat) {
    key in s.items && key in s.objects
  }

  function PausedOne(s: State, key: nat): State {
    if !Listed(s, key) || StateOf(s, key).Done? then s
    else
      var t := With(s, key, Paused);
      if t.active.Some? && t.active.value.key == key then Aborted(t) else t
  }

  function Without(items: seq<nat>, gone: set<nat>): (r: seq<nat>)
    ensures forall k :: k in r <==> k in items && k !in gone
    ensures Distinct(items) ==> Distinct(r)
  {
    if items == [] then []
    else
      var rest := Without(items[1..], gone);
      assert forall k :: k in items <==> k == items[0] || k in items[1..];
      if items[0] in gone then rest else [items[0]] + rest
  }

  ghost predicate Distinct(items: seq<nat>) {
    forall j, k :: 0 <= j < k < |items| ==> items[j] != items[k]
  }

  predicate Duplicate(s: State, jobId: Option<nat>) {
    jobId.Some? && exists k :: k in s.items && Listed(s, k) && s.objects[k].jobId == jobId && !s.objects[k].state.Done?
  }

  function Forgotten(s: State, ids: set<nat>): set<nat> {
    set k | k in s.items && Listed(s, k) && s.objects[k].state.Done? && s.objects[k].jobId.Some?
      && s.objects[k].jobId.value in ids
  }

  /** The end of a transfer, up to the head of the pump's loop. */
  function Settled(s: State, ok: bool): State
    requires s.active.Some? && s.active.value.key in s.objects
  {
    var a := s.active.value;
    var item := s.objects[a.key];
    var after :=
      if a.aborted then (if item.state.Uploading? then item.(state := Waiting) else item)
      else if ok then item.(state := Done, hasFile := false, progress := item.size)
      else item.(state := Error);
    s.(objects := s.objects[a.key := after], active := None, flight := Without(s.flight, {a.key}))
  }

  function Next(s: State, step: Step): State {
    match step
    case Add(size, jobId) =>
      if Duplicate(s, jobId) then s
      else
        Pump(s.(objects := s.objects[s.nextKey := Item(jobId, true, size, 0, Waiting, false)],
                items := s.items + [s.nextKey], nextKey := s.nextKey + 1))
    case Pause(key) => PausedOne(s, key)
    case Resume(key) =>
      if Listed(s, key) && s.objects[key].hasFile && (StateOf(s, key).Paused? || StateOf(s, key).Error?)
      then Pump(With(s, key, Waiting))
      else s
    case Remove(key) => var t := PausedOne(s, key); t.(items := Without(t.items, {key}))
    case Suspend(value) =>
      var t := s.(suspended := value);
      if value then Aborted(t) else Pump(t)
    case Dispose => Aborted(s.(disposed := true))
    case Activate => Pump(s.(disposed := false))
    case Forget(ids) => s.(items := Without(s.items, Forgotten(s, ids)))
    case Report(jobId, progress) =>
      if s.active.Some? && s.active.value.key in s.objects
      then
        var key := s.active.value.key;
        s.(objects := s.objects[key := s.objects[key].(jobId := jobId, progress := progress)])
      else s
    case Settle(ok) =>
      if s.active.Some? && s.active.value.key in s.objects then Advance(Settled(s, ok)) else s
  }

  function Run(s: State, steps: seq<Step>): State
    decreases |steps|
  {
    if steps == [] then s else Run(Next(s, steps[0]), steps[1..])
  }

  function Empty(): State {
    State(map[], [], false, false, false, None, [], 0)
  }

  // ----- the class -----

  class UploadQueue {
    var objects: map<nat, Item>
    var items: seq<nat>
    var running: bool
    var suspended: bool
    var disposed: bool
    var active: Option<Active>
    var flight: seq<nat>
    var nextKey: nat

    function View(): State
      reads this
    {
      State(objects, items, running, suspended, disposed, active, flight, nextKey)
    }

    constructor ()
      ensures View() == Empty()
    {
      objects, items, running, suspended, disposed := map[], [], false, false, false;
      active, flight, nextKey := None, [], 0;
    }

    method FindWaiting() returns (r: Option<nat>)
      ensures r == FirstWaiting(View(), items)
    {
      assert items[0..] == items;
      for k := 0 to |items|
        invariant FirstWaiting(View(), items) == FirstWaiting(View(), items[k..])
      {
        if StateOf(View(), items[k]).Waiting? {
          return Some(items[k]);
        }
        assert items[k..][1..] == items[k + 1..];
      }
      return None;
    }

    /** The loop of the pump up to its await: it starts the next transfer, or ends the pump. */
    method Continue()
      requires forall k :: k in items ==> k in objects
      modifies this
      ensures View() == Advance(old(View()))
    {
      var next := FindWaiting();
      if suspended || disposed || next.None? {
        running := false;
      } else {
        var key := next.value;
        active := Some(Active(key, false));
        flight := flight + [key];
        objects := objects[key := objects[key].(state := Uploading, started := true)];
      }
    }

    method StartPump()
      requires forall k :: k in items ==> k in objects
      modifies this
      ensures View() == Pump(old(View()))
    {
      if running || suspended || disposed {
        return;
      }
      running := true;
      Continue();
    }

    method AddFile(size: nat, jobId: Option<nat>)
      requires forall k :: k in items ==> k in objects
      modifies this
      ensures View() == Next(old(View()), Add(size, jobId))
    {
      if Duplicate(View(), jobId) {
        return;
      }
      objects := objects[nextKey := Item(jobId, true, size, 0, Waiting, false)];
      items := items + [nextKey];
      nextKey := nextKey + 1;
      StartPump();
    }

    method PauseItem(key: nat)
      modifies this
      ensures View() == Next(old(View()), Pause(key))
    {
      if !Listed(View(), key) || objects[key].state.Done? {
        return;
      }
      objects := objects[key := objects[key].(state := Paused)];
      if active.Some? && active.value.key == key {
        active := Some(active.value.(aborted := true));
      }
    }

    method ResumeItem(key: nat)
      requires forall k :: k in items ==> k in objects
      modifies this
      ensures View() == Next(old(View()), Resume(key))
    {
      if !Listed(View(), key) || !objects[key].hasFile || !(objects[key].state.Paused? || objects[key].state.Error?) {
        return;
      }
      objects := objects[key := objects[key].(state := Waiting)];
      StartPump();
    }

    method RemoveItem(key: nat)
      modifies this
      ensures View() == Next(old(View()), Remove(key))
    {
      PauseItem(key);
      items := Without(items, {key});
    }

    method SetSuspended(value: bool)
      requires forall k :: k in items ==> k in objects
      modifies this
      ensures View() == Next(old(View()), Suspend(value))
    {
      suspended := value;
      if value {
        if active.Some? {
          active := Some(active.value.(aborted := true));
        }
      } else {
        StartPump();
      }
    }

    method DisposeAll()
      modifies this
      ensures View() == Next(old(View()), Dispose)
    {
      disposed := true;
      if active.Some? {
        active := Some(active.value.(aborted := true));
      }
    }

    method ActivateAgain()
      requires forall k :: k in items ==> k in objects
      modifies this
      ensures View() == Next(old(View()), Activate)
    {
      disposed := false;
      StartPump();
    }

    method ForgetCompleted(ids: set<nat>)
      modifies this
      ensures View() == Next(old(View()), Forget(ids))
    {
      items := Without(items, Forgotten(View(), ids));
    }

    /** The continuation of the await: the transfer has settled, and the loop goes on. */
    method TransferSettled(ok: bool)
      requires active.Some? && active.value.key in objects
      requires forall k :: k in items ==> k in objects
      modifies this
      ensures View() == Next(old(View()), Settle(ok))
    {
      var key, aborted := active.value.key, active.value.aborted;
      var item := objects[key];
      if !aborted {
        if ok {
          item := item.(state := Done, hasFile := false, progress := item.size);
        } else {
          item := item.(state := Error);
        }
      } else if item.state.Uploading? {
        item := item.(state := Waiting);
      }
      objects := objects[key := item];
      active := None;
      flight := Without(flight, {key});
      Continue();
    }
  }

  // ----- what every step keeps -----

  /** One item: it is uploading only as the active one, and an active item that is not aborted is uploading. */
  ghost predicate ItemSound(s: State, key: nat) {
    && (key in s.objects ==> key < s.nextKey)
    && (StateOf(s, key).Uploading? ==> s.active.Some? && s.active.value.key == key)
    && (s.active.Some? && s.active.value.key == key ==>
        key in s.objects && !StateOf(s, key).Error? && !StateOf(s, key).Done?
        && (!s.active.value.aborted ==> StateOf(s, key).Uploading?))
    && (key in s.items ==> key in s.objects)
  }

  /** A waiting item is picked up: the pump is running whenever it may. */
  ghost predicate NoLostWakeUp(s: State) {
    forall k :: k in s.items && StateOf(s, k).Waiting? && !s.suspended && !s.disposed ==> s.running
  }

  ghost predicate Inv(s: State) {
    && (forall k: nat :: ItemSound(s, k))
    && NoLostWakeUp(s)
    && (s.running <==> s.active.Some?)
    && s.flight == (if s.active.Some? then [s.active.value.key] else [])
    && Distinct(s.items)
  }

  /** Everything but the wake-up: what holds inside the pump, between transfers. */
  ghost predicate Core(s: State) {
    && (forall k: nat :: ItemSound(s, k))
    && s.flight == (if s.active.Some? then [s.active.value.key] else [])
    && Distinct(s.items)
  }

  lemma AdvanceInv(s: State)
    requires Core(s) && s.active.None? && s.running
    ensures Inv(Advance(s))
  {
    var t := Advance(s);
    forall k: nat ensures ItemSound(t, k) {
      assert ItemSound(s, k);
    }
  }

  lemma PumpInv(s: State)
    requires Core(s) && (s.running <==> s.active.Some?)
    ensures Inv(Pump(s))
  {
    if !s.running && !s.suspended && !s.disposed {
      var t := s.(running := true);
      forall k: nat ensures ItemSound(t, k) {
        assert ItemSound(s, k);
      }
      AdvanceInv(t);
    }
  }

  lemma DistinctAppend(items: seq<nat>, key: nat)
    requires Distinct(items) && key !in items
    ensures Distinct(items + [key])
  {
    assert forall k :: 0 <= k < |items| ==> items[k] in items;
  }

  lemma AddInv(s: State, size: nat, jobId: Option<nat>)
    requires Inv(s)
    ensures Inv(Next(s, Add(size, jobId)))
  {
    hide Distinct, Pump;
    if !Duplicate(s, jobId) {
      var t := s.(objects := s.objects[s.nextKey := Item(jobId, true, size, 0, Waiting, false)],
                  items := s.items + [s.nextKey], nextKey := s.nextKey + 1);
      assert ItemSound(s, s.nextKey);
      DistinctAppend(s.items, s.nextKey);
      forall k: nat ensures ItemSound(t, k) {
        assert ItemSound(s, k);
      }
      PumpInv(t);
    }
  }

  lemma PauseInv(s: State, key: nat)
    requires Inv(s)
    ensures Inv(PausedOne(s, key))
  {
    var t := PausedOne(s, key);
    forall k: nat ensures ItemSound(t, k) {
      assert ItemSound(s, k);
    }
  }

  lemma ResumeInv(s: State, key: nat)
    requires Inv(s)
    ensures Inv(Next(s, Resume(key)))
  {
    if Listed(s, key) && s.objects[key].hasFile && (StateOf(s, key).Paused? || StateOf(s, key).Error?) {
      var t := With(s, key, Waiting);
      assert ItemSound(s, key);
      forall k: nat ensures ItemSound(t, k) {
        assert ItemSound(s, k);
      }
      PumpInv(t);
    }
  }

  lemma ShrinkInv(s: State, gone: set<nat>)
    requires Inv(s)
    ensures Inv(s.(items := Without(s.items, gone)))
  {
    var t := s.(items := Without(s.items, gone));
    forall k: nat ensures ItemSound(t, k) {
      assert ItemSound(s, k);
    }
  }

  lemma FlagsInv(s: State, suspended: bool, disposed: bool)
    requires Inv(s)
    ensures Inv(Pump(s.(suspended := suspended, disposed := disposed)))
    ensures (suspended || disposed) ==> Inv(Aborted(s.(suspended := suspended, disposed := disposed)))
  {
    var t := s.(suspended := suspended, disposed := disposed);
    var u := Aborted(t);
    forall k: nat ensures ItemSound(t, k) && ItemSound(u, k) {
      assert ItemSound(s, k);
    }
    PumpInv(t);
  }

  lemma ReportInv(s: State, jobId: Option<nat>, progress: nat)
    requires Inv(s)
    ensures Inv(Next(s, Report(jobId, progress)))
  {
    var t := Next(s, Report(jobId, progress));
    forall k: nat ensures ItemSound(t, k) {
      assert ItemSound(s, k);
    }
  }

  lemma WithoutOnly(key: nat)
    ensures Without([key], {key}) == []
  {
    assert [key][1..] == [];
  }

  lemma SettleInv(s: State, ok: bool)
    requires Inv(s) && s.active.Some?
    ensures s.active.value.key in s.objects
    ensures Inv(Advance(Settled(s, ok)))
  {
    var key := s.active.value.key;
    assert ItemSound(s, key);
    var t := Settled(s, ok);
    forall k: nat ensures ItemSound(t, k) {
      assert ItemSound(s, k);
    }
    WithoutOnly(key);
    AdvanceInv(t);
  }

  lemma StepInv(s: State, step: Step)
    requires Inv(s)
    ensures Inv(Next(s, step))
  {
    hide Inv, Pump, Advance;
    match step
    case Add(size, jobId) => AddInv(s, size, jobId);
    case Pause(key) => PauseInv(s, key);
    case Resume(key) => ResumeInv(s, key);
    case Remove(key) =>
      PauseInv(s, key);
      ShrinkInv(PausedOne(s, key), {key});
    case Suspend(value) => FlagsInv(s, value, s.disposed);
    case Dispose => FlagsInv(s, s.suspended, true);
    case Activate => FlagsInv(s, s.suspended, false);
    case Forget(ids) => ShrinkInv(s, Forgotten(s, ids));
    case Report(jobId, progress) => ReportInv(s, jobId, progress);
    case Settle(ok) =>
      if s.active.Some? {
        SettleInv(s, ok);
      }
  }

  lemma {:induction false} RunInv(s: State, steps: seq<Step>)
    requires Inv(s)
    ensures Inv(Run(s, steps))
    decreases |steps|
  {
    if steps != [] {
      StepInv(s, steps[0]);
      RunInv(Next(s, steps[0]), steps[1..]);
    }
  }

  /**
   After every step of every run: a waiting item means that the pump is running or is told not to, at most one transfer
   is in flight, and an item is uploading only if it is the one being transferred.
   */
  lemma PumpSafe(steps: seq<Step>)
    ensures var s := Run(Empty(), steps);
      && NoLostWakeUp(s)
      && |s.flight| <= 1
      && forall k: nat :: StateOf(s, k).Uploading? && k in s.objects ==> s.flight == [k]
  {
    RunInv(Empty(), steps);
    var s := Run(Empty(), steps);
    forall k: nat | StateOf(s, k).Uploading? ensures s.flight == [k] {
      assert ItemSound(s, k);
    }
  }

  predicate IsDone(s: State, key: nat) {
    key in s.objects && s.objects[key].state.Done?
  }

  ghost predicate SameDone(s: State, t: State, key: nat) {
    (IsDone(t, key) <==> IsDone(s, key)) && (IsDone(s, key) ==> t.objects[key] == s.objects[key])
  }

  /** Starting transfers finishes no item and touches no finished one. */
  lemma PumpSameDone(s: State, key: nat)
    ensures SameDone(s, Advance(s), key) && SameDone(s, Pump(s), key)
  {
  }

  lemma AddSameDone(s: State, size: nat, jobId: Option<nat>, key: nat)
    requires Inv(s)
    ensures SameDone(s, Next(s, Add(size, jobId)), key)
  {
    hide Pump, Duplicate;
    assert ItemSound(s, key);
    PumpSameDone(s.(objects := s.objects[s.nextKey := Item(jobId, true, size, 0, Waiting, false)],
                    items := s.items + [s.nextKey], nextKey := s.nextKey + 1), key);
  }

  lemma FailureSameDone(s: State, key: nat)
    requires Inv(s)
    ensures SameDone(s, Next(s, Settle(false)), key)
  {
    hide Advance, Without;
    assert ItemSound(s, key);
    if s.active.Some? && s.active.value.key in s.objects {
      PumpSameDone(Settled(s, false), key);
    }
  }

  lemma StepSameDone(s: State, step: Step, key: nat)
    requires Inv(s) && step != Settle(true)
    ensures SameDone(s, Next(s, step), key)
  {
    hide Pump, Advance, Without, Forgotten, FirstWaiting, Duplicate, Settled;
    match step
    case Add(size, jobId) => AddSameDone(s, size, jobId, key);
    case Resume(k) =>
      if k in s.objects {
        PumpSameDone(With(s, k, Waiting), key);
      }
    case Suspend(value) => PumpSameDone(s.(suspended := value), key);
    case Activate => PumpSameDone(s.(disposed := false), key);
    case Settle(_) => FailureSameDone(s, key);
    case Report(_, _) =>
      assert ItemSound(s, key);
    case _ =>
  }

  lemma SuccessDone(s: State, key: nat)
    requires Inv(s)
    ensures IsDone(s, key) ==>
      IsDone(Next(s, Settle(true)), key) && Next(s, Settle(true)).objects[key] == s.objects[key]
    ensures !IsDone(s, key) && IsDone(Next(s, Settle(true)), key) ==> s.active == Some(Active(key, false))
  {
    hide Advance;
    assert ItemSound(s, key);
    if s.active.Some? && s.active.value.key in s.objects {
      PumpSameDone(Settled(s, true), key);
    }
  }

  /**
   An item becomes done in no other way than by its own transfer succeeding without having been aborted, and a finished
   item stays exactly as it is.
   */
  lemma DoneOnlyBySuccess(steps: seq<Step>, step: Step, key: nat)
    ensures var s := Run(Empty(), steps); var t := Next(s, step);
      && (!IsDone(s, key) && IsDone(t, key) ==> step == Settle(true) && s.active == Some(Active(key, false)))
      && (IsDone(s, key) ==> IsDone(t, key) && t.objects[key] == s.objects[key])
  {
    hide Next;
    RunInv(Empty(), steps);
    if step == Settle(true) {
      SuccessDone(Run(Empty(), steps), key);
    } else {
      StepSameDone(Run(Empty(), steps), step, key);
    }
  }

  // ----- everything waiting is transferred in the end -----

  function WaitingCount(s: State, items: seq<nat>): nat {
    if items == [] then 0 else (if StateOf(s, items[0]).Waiting? then 1 else 0) + WaitingCount(s, items[1..])
  }

  lemma {:induction false} CountNone(s: State, items: seq<nat>)
    requires forall k :: k in items ==> !StateOf(s, k).Waiting?
    ensures WaitingCount(s, items) == 0
  {
    if items != [] {
      CountNone(s, items[1..]);
    }
  }

  lemma {:induction false} CountFewer(s: State, t: State, items: seq<nat>, key: nat)
    requires Distinct(items)
    requires forall k :: k in items && k != key ==> StateOf(t, k) == StateOf(s, k)
    requires !StateOf(t, key).Waiting?
    ensures WaitingCount(t, items) == WaitingCount(s, items) - if key in items && StateOf(s, key).Waiting? then 1 else 0
  {
    if items != [] {
      assert forall k :: k in items <==> k == items[0] || k in items[1..];
      assert items[0] !in items[1..];
      CountFewer(s, t, items[1..], key);
    }
  }

  /** Transfers that settle one after the other, without being aborted. */
  function Settlements(results: seq<bool>): (r: seq<Step>)
    ensures |r| == |results| && forall k :: 0 <= k < |r| ==> r[k] == Settle(results[k])
  {
    seq(|results|, k requires 0 <= k < |results| => Settle(results[k]))
  }

  predicate Pending(state: ItemState) {
    state.Waiting? || state.Uploading?
  }

  /**
   What a run of settlements makes of an item's state: only pending items are touched, and they fail only if one
   does.
   */
  predicate Outcome(before: ItemState, after: ItemState, someFail: bool, someSucceed: bool) {
    if Pending(before) then (after.Done? && someSucceed) || (after.Error? && someFail) else after == before
  }

  /** One settlement: the transferred item is finished or has failed, and the next one, if any, is on its way. */
  lemma OneSettled(s: State, ok: bool)
    requires Inv(s) && !s.suspended && !s.disposed && s.active.Some? && !s.active.value.aborted
    ensures var t := Next(s, Settle(ok)); var key := s.active.value.key;
      && !t.suspended && !t.disposed && t.items == s.items
      && (t.active.Some? ==> !t.active.value.aborted && WaitingCount(t, t.items) < WaitingCount(s, s.items))
      && StateOf(s, key).Uploading? && StateOf(t, key) == (if ok then Done else Error)
      && forall k :: k != key ==>
        if Pending(StateOf(s, k)) then Pending(StateOf(t, k)) else StateOf(t, k) == StateOf(s, k)
  {
    var key := s.active.value.key;
    assert ItemSound(s, key);
    var u := Settled(s, ok);
    CountFewer(s, u, s.items, key);
    var t := Advance(u);
    if t.active.Some? {
      CountFewer(u, t, s.items, t.active.value.key);
    }
  }

  /** With no transfer under way nothing is pending. */
  lemma NonePending(s: State)
    requires Inv(s) && !s.suspended && !s.disposed && s.active.None?
    ensures !s.running && forall k :: k in s.items ==> !Pending(StateOf(s, k))
  {
    assert forall k :: k in s.items ==> ItemSound(s, k);
  }

  /**
   With the queue left alone, one settled transfer for each waiting item and one more end the pump, whether the
   transfers succeed or fail: nothing is pending then, and every item that was is done or has failed.
   */
  lemma {:induction false} Drains(s: State, results: seq<bool>)
    requires Inv(s) && !s.suspended && !s.disposed
    requires s.active.Some? ==> !s.active.value.aborted && |results| > WaitingCount(s, s.items)
    ensures var t := Run(s, Settlements(results));
      && !t.running && t.items == s.items
      && forall k :: k in s.items ==>
        !Pending(StateOf(t, k)) && Outcome(StateOf(s, k), StateOf(t, k), false in results, true in results)
    decreases |results|
  {
    hide Next, Inv;
    if s.active.None? {
      NonePending(s);
    }
    if results == [] {
      assert Run(s, Settlements(results)) == s;
    } else {
      var rest := results[1..];
      assert Settlements(results)[1..] == Settlements(rest);
      assert forall b :: b in results <==> b == results[0] || b in rest;
      StepInv(s, Settle(results[0]));
      if s.active.Some? {
        OneSettled(s, results[0]);
      } else {
        NothingToSettle(s, results[0]);
      }
      Drains(Next(s, Settle(results[0])), rest);
    }
  }

  lemma NothingToSettle(s: State, ok: bool)
    requires s.active.None?
    ensures Next(s, Settle(ok)) == s
  {
  }
}
