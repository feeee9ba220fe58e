/**
 Whole runs of the segment queue: any interleaving of admission, settling, publishing, crashes and restarts.
 QueueRefinement shows that every run of the loop is such an interleaving; a crash may cut it short anywhere.
 */
module QueueRuns {
  import opened Wrappers
  import opened SegmentQueue
  import opened QueueProofs

  /** What an observer of one process sees, the latest event last. */
  datatype Event = Start(index: nat, attempt: nat, at: real) | Delay(index: nat, due: real, shared: bool)

  /** What an observer of all processes sees. */
  datatype Trace<R> = Invoked(index: nat) | Published(results: map<nat, R>)

  /**
   `process` is the running queue if there is one, `clock` its monotonic clock, `seen` its events since it started.
   */
  datatype World<R> = World(
    disk: File<R>,
    process: Option<State<R>>,
    clock: real,
    seen: seq<Event>,
    trace: seq<Trace<R>>)

  datatype Step<R> =
    | Boot
    | AdmitStep(now: real)
    | SettleStep(index: nat, outcome: Outcome<R>, now: real)
    | PublishStep
    | Crash

  predicate Enabled<R>(cfg: Config<R>, w: World<R>, step: Step<R>) {
    match step
    case Boot => w.process.None?
    case AdmitStep(now) => w.process.Some? && now >= w.clock
    case SettleStep(i, _, now) =>
      w.process.Some? && now >= w.clock && i in w.process.value.running && Attempts(w.process.value, i) >= 1
    case PublishStep => w.process.Some?
    case Crash => true
  }

  /** The operations started by an admission, in order of their index. */
  function StartedBy<R>(s: State<R>, t: State<R>, count: nat): seq<nat> {
    Select(count, t.running - s.running)
  }

  function StartEvents<R>(t: State<R>, started: seq<nat>, now: real): (r: seq<Event>)
    ensures |r| == |started|
    ensures forall k :: 0 <= k < |r| ==> r[k] == Start(started[k], Attempts(t, started[k]), now)
  {
    seq(|started|, k requires 0 <= k < |started| => Start(started[k], Attempts(t, started[k]), now))
  }

  function Invocations<R>(started: seq<nat>): (r: seq<Trace<R>>)
    ensures |r| == |started|
    ensures forall k :: 0 <= k < |r| ==> r[k] == Invoked(started[k])
  {
    seq(|started|, k requires 0 <= k < |started| => Invoked(started[k]))
  }

  /** The retry scheduled by settling an operation, if there is one. */
  function DelayEvents<R>(s: State<R>, t: State<R>, i: nat, outcome: Outcome<R>): seq<Event> {
    if i in t.retries && i !in s.retries then [Delay(i, t.retries[i], outcome.Retryable? && outcome.shared)] else []
  }

  function Next<R>(cfg: Config<R>, w: World<R>, step: Step<R>): World<R>
    requires Enabled(cfg, w, step)
  {
    match step
    case Boot => w.(process := Some(Load(cfg, w.disk)), clock := 0.0, seen := [])
    case AdmitStep(now) =>
      var s := w.process.value;
      var t := Admit(cfg, s, now);
      var started := StartedBy(s, t, cfg.count);
      w.(process := Some(t), clock := now, seen := w.seen + StartEvents(t, started, now),
         trace := w.trace + Invocations(started))
    case SettleStep(i, outcome, now) =>
      var s := w.process.value;
      var t := Settle(cfg, s, i, outcome, now);
      // An escaping exception ends the process, as a crash does.
      if t.raised then w.(process := None, seen := [])
      else w.(process := Some(t), clock := now, seen := w.seen + DelayEvents(s, t, i, outcome))
    case PublishStep =>
      w.(disk := Publish(cfg, w.process.value), trace := w.trace + [Published(w.process.value.results)])
    case Crash => w.(process := None, seen := [])
  }

  predicate EnabledRun<R>(cfg: Config<R>, w: World<R>, steps: seq<Step<R>>)
    decreases |steps|
  {
    steps == [] || (Enabled(cfg, w, steps[0]) && EnabledRun(cfg, Next(cfg, w, steps[0]), steps[1..]))
  }

  function Run<R>(cfg: Config<R>, w: World<R>, steps: seq<Step<R>>): World<R>
    requires EnabledRun(cfg, w, steps)
    decreases |steps|
  {
    if steps == [] then w else Run(cfg, Next(cfg, w, steps[0]), steps[1..])
  }

  /** A validator that accepts what it has returned, and returns it unchanged. */
  ghost predicate Stable<R(!new)>(cfg: Config<R>) {
    forall i: nat, r: R :: cfg.validate(i, r).Some? ==>
      cfg.validate(i, cfg.validate(i, r).value) == cfg.validate(i, r)
  }

  ghost predicate Accepted<R>(cfg: Config<R>, results: map<nat, R>) {
    forall i :: i in results ==> i < cfg.count && cfg.validate(i, results[i]) == Some(results[i])
  }

  ghost predicate Extends<R>(more: map<nat, R>, less: map<nat, R>) {
    forall i :: i in less ==> i in more && more[i] == less[i]
  }

  /** The results a restart would find. */
  function OnDisk<R>(cfg: Config<R>, disk: File<R>): map<nat, R> {
    Load(cfg, disk).results
  }

  // ----- what one process keeps -----

  /** A scheduled retry is still waiting for its time, or its time has come. */
  ghost predicate DelayKept<R>(w: World<R>, s: State<R>, e: Event) {
    e.Delay? ==>
      && (e.due <= w.clock || (e.index in s.retries && s.retries[e.index] == e.due))
      && (e.shared ==> e.due <= s.cooldown)
  }

  /** Starts respect every earlier delay: their own, and the shared ones. */
  ghost predicate DelaysRespected(seen: seq<Event>) {
    forall p, q :: 0 <= p < q < |seen| && Concerns(seen[p], seen[q]) ==> seen[p].due <= seen[q].at
  }

  predicate Concerns(d: Event, e: Event) {
    d.Delay? && e.Start? && (d.index == e.index || d.shared)
  }

  function StartsOf(seen: seq<Event>, i: nat): nat {
    if seen == [] then 0
    else StartsOf(seen[..|seen| - 1], i) + if seen[|seen| - 1].Start? && seen[|seen| - 1].index == i then 1 else 0
  }

  ghost predicate ProcessKeeps<R>(cfg: Config<R>, w: World<R>) {
    w.process.Some? ==>
      var s := w.process.value;
      && Inv(cfg, s)
      && (forall p :: 0 <= p < |w.seen| ==> DelayKept(w, s, w.seen[p]))
      && DelaysRespected(w.seen)
      && (forall i: nat :: StartsOf(w.seen, i) == Attempts(s, i))
  }

  lemma {:induction false} StartsAppend(a: seq<Event>, b: seq<Event>, i: nat)
    ensures StartsOf(a + b, i) == StartsOf(a, i) + StartsOf(b, i)
  {
    if b == [] {
      assert a + b == a;
    } else {
      assert (a + b)[..|a + b| - 1] == a + b[..|b| - 1];
      StartsAppend(a, b[..|b| - 1], i);
    }
  }

  lemma {:induction false} StartsOnce<R>(t: State<R>, started: seq<nat>, now: real, i: nat)
    requires forall j, k :: 0 <= j < k < |started| ==> started[j] < started[k]
    ensures StartsOf(StartEvents(t, started, now), i) == if i in started then 1 else 0
  {
    if started != [] {
      var n := |started| - 1;
      StartsOnce(t, started[..n], now, i);
      assert StartEvents(t, started, now)[..n] == StartEvents(t, started[..n], now);
      assert i in started <==> i in started[..n] || i == started[n];
      assert i in started[..n] ==> i != started[n];
    }
  }

  lemma DelaysAppend(seen: seq<Event>, more: seq<Event>)
    requires DelaysRespected(seen)
    requires forall q :: 0 <= q < |more| ==> more[q].Start?
    requires forall p, q :: 0 <= p < |seen| && 0 <= q < |more| && Concerns(seen[p], more[q]) ==>
      seen[p].due <= more[q].at
    ensures DelaysRespected(seen + more)
  {
    var all := seen + more;
    assert forall q :: |seen| <= q < |all| ==> all[q] == more[q - |seen|];
    assert forall q :: 0 <= q < |seen| ==> all[q] == seen[q];
  }

  lemma MoreDelays(seen: seq<Event>, more: seq<Event>)
    requires DelaysRespected(seen) && forall e :: e in more ==> e.Delay?
    ensures DelaysRespected(seen + more)
  {
    var all := seen + more;
    assert forall q :: |seen| <= q < |all| ==> all[q] == more[q - |seen|] && all[q] in more;
    assert forall q :: 0 <= q < |seen| ==> all[q] == seen[q];
  }

  lemma AdmitKeepsProcess<R>(cfg: Config<R>, w: World<R>, now: real)
    requires ProcessKeeps(cfg, w) && Enabled(cfg, w, AdmitStep(now))
    ensures ProcessKeeps(cfg, Next(cfg, w, AdmitStep(now)))
  {
    hide StartsOf, DelaysRespected;
    var s := w.process.value;
    var t := Admit(cfg, s, now);
    var w' := Next(cfg, w, AdmitStep(now));
    var started := StartedBy(s, t, cfg.count);
    var more := StartEvents(t, started, now);
    AdmitAllInv(cfg, s, now);
    forall i: nat
      ensures StartsOf(w'.seen, i) == Attempts(t, i)
      ensures i in t.running && i !in s.running ==> s.cooldown <= now && (i in s.retries ==> s.retries[i] <= now)
      ensures i in s.retries && i !in t.retries ==> s.retries[i] <= now
    {
      AdmitChange(cfg, s, now, i);
      StartsAppend(w.seen, more, i);
      StartsOnce(t, started, now, i);
    }
    forall p | 0 <= p < |w'.seen| ensures DelayKept(w', t, w'.seen[p]) {
      if p < |w.seen| {
        assert DelayKept(w, s, w.seen[p]);
        if w.seen[p].Delay? { AdmitChange(cfg, s, now, w.seen[p].index); }
      }
    }
    forall p, q | 0 <= p < |w.seen| && 0 <= q < |more| && Concerns(w.seen[p], more[q])
      ensures w.seen[p].due <= more[q].at
    {
      assert DelayKept(w, s, w.seen[p]);
      assert started[q] in started;
      AdmitChange(cfg, s, now, started[q]);
    }
    DelaysAppend(w.seen, more);
  }

  /** What an admission does to one index. */
  lemma AdmitChange<R>(cfg: Config<R>, s: State<R>, now: real, i: nat)
    requires Inv(cfg, s)
    ensures var t := Admit(cfg, s, now);
      && t.cooldown == s.cooldown && t.results == s.results
      && (i in t.running && i !in s.running ==>
            && i < cfg.count && i !in s.results
            && s.cooldown <= now
            && (i in s.retries ==> s.retries[i] <= now)
            && Attempts(t, i) == Attempts(s, i) + 1)
      && (!(i in t.running && i !in s.running) ==> Attempts(t, i) == Attempts(s, i))
      && (i in t.retries ==> i in s.retries && t.retries[i] == s.retries[i])
      && (i in s.retries && i !in t.retries ==> s.retries[i] <= now)
  {
    AdmitAllInv(cfg, s, now);
    assert Placed(s, i, cfg.count);
    if !s.halted && now >= s.cooldown {
      AdmitAllKeeps(cfg, s, now, i);
      var t := AdmitAll(cfg, s, now);
      assert Placed(t, i, cfg.count);
      if i in t.running && i !in s.running {
        AdmitAllTimes(cfg, s, now, i);
      }
    }
  }

  lemma DelaysKept<R>(cfg: Config<R>, w: World<R>, i: nat, outcome: Outcome<R>, now: real, w': World<R>, e: Event)
    requires ProcessKeeps(cfg, w) && Enabled(cfg, w, SettleStep(i, outcome, now)) && w'.clock == now
    requires var s := w.process.value;
      e in w.seen || e in DelayEvents(s, Settle(cfg, s, i, outcome, now), i, outcome)
    ensures DelayKept(w', Settle(cfg, w.process.value, i, outcome, now), e)
  {
    hide Settle, Inv, DelayEvents, DelaysRespected;
    var s := w.process.value;
    SettleDelays(cfg, s, i, outcome, now);
    if e in w.seen {
      var p :| 0 <= p < |w.seen| && w.seen[p] == e;
      assert DelayKept(w, s, w.seen[p]);
    }
  }

  lemma NoStarts<R>(s: State<R>, t: State<R>, i: nat, outcome: Outcome<R>, j: nat)
    ensures StartsOf(DelayEvents(s, t, i, outcome), j) == 0
    ensures forall e :: e in DelayEvents(s, t, i, outcome) ==> e.Delay?
  {
    var more := DelayEvents(s, t, i, outcome);
    if more != [] {
      assert more[..0] == [];
    }
  }

  lemma SettleKeepsProcess<R>(cfg: Config<R>, w: World<R>, i: nat, outcome: Outcome<R>, now: real)
    requires ProcessKeeps(cfg, w) && Enabled(cfg, w, SettleStep(i, outcome, now))
    ensures ProcessKeeps(cfg, Next(cfg, w, SettleStep(i, outcome, now)))
  {
    hide Settle, Inv, DelayEvents, DelayKept, StartsOf;
    var s := w.process.value;
    var t := Settle(cfg, s, i, outcome, now);
    if !t.raised {
      var w' := Next(cfg, w, SettleStep(i, outcome, now));
      var more := DelayEvents(s, t, i, outcome);
      SettleInv(cfg, s, i, outcome, now);
      SettleKeeps(cfg, s, i, outcome, now);
      forall j: nat ensures StartsOf(w'.seen, j) == Attempts(t, j) {
        StartsAppend(w.seen, more, j);
        NoStarts(s, t, i, outcome, j);
      }
      forall p | 0 <= p < |w'.seen| ensures DelayKept(w', t, w'.seen[p]) {
        DelaysKept(cfg, w, i, outcome, now, w', w'.seen[p]);
      }
      NoStarts(s, t, i, outcome, 0);
      MoreDelays(w.seen, more);
    }
  }

  /** A delay lasts at least as long as the exponential backoff of the attempt and as the operation asked for. */
  ghost predicate DelayOf<R>(s: State<R>, t: State<R>, e: Event, i: nat, outcome: Outcome<R>, now: real)
    requires Attempts(s, i) >= 1
  {
    && e.Delay? && e.index == i && i in t.retries && e.due == t.retries[i]
    && (e.shared ==> e.due <= t.cooldown)
    && e.due >= now + Pow2(Attempts(s, i) - 1) as real
    && (outcome.Retryable? ==> e.due >= now + outcome.delay)
  }

  /** What settling does to the delays. */
  lemma SettleDelays<R>(cfg: Config<R>, s: State<R>, i: nat, outcome: Outcome<R>, now: real)
    requires Inv(cfg, s) && i in s.running && Attempts(s, i) >= 1
    ensures var t := Settle(cfg, s, i, outcome, now);
      && s.cooldown <= t.cooldown
      && (forall j :: j in s.retries ==> j in t.retries && t.retries[j] == s.retries[j])
      && (forall e :: e in DelayEvents(s, t, i, outcome) ==> DelayOf(s, t, e, i, outcome, now))
      && i !in s.retries
  {
    assert Placed(s, i, cfg.count);
  }

  lemma StepKeepsProcess<R>(cfg: Config<R>, w: World<R>, step: Step<R>)
    requires ProcessKeeps(cfg, w) && Enabled(cfg, w, step)
    ensures ProcessKeeps(cfg, Next(cfg, w, step))
  {
    match step
    case Boot =>
      LoadInv(cfg, w.disk);
    case AdmitStep(now) =>
      AdmitKeepsProcess(cfg, w, now);
    case SettleStep(i, outcome, now) =>
      SettleKeepsProcess(cfg, w, i, outcome, now);
    case PublishStep =>
    case Crash =>
  }

  // ----- what all processes together keep -----

  ghost predicate DurableKeeps<R(!new)>(cfg: Config<R>, w: World<R>) {
    && (forall p :: 0 <= p < |w.trace| && w.trace[p].Published? ==> Extends(OnDisk(cfg, w.disk), w.trace[p].results))
    && (w.process.Some? ==>
          Accepted(cfg, w.process.value.results) && Extends(w.process.value.results, OnDisk(cfg, w.disk)))
    && TraceSafe(w.trace)
  }

  /** Published results are never lost or changed, and what has a published result is never invoked again. */
  ghost predicate TraceSafe<R>(trace: seq<Trace<R>>) {
    forall p, q :: 0 <= p < q < |trace| && trace[p].Published? ==> After(trace[p].results, trace[q])
  }

  ghost predicate After<R>(published: map<nat, R>, e: Trace<R>) {
    match e
    case Invoked(i) => i !in published
    case Published(later) => Extends(later, published)
  }

  lemma TraceAppend<R>(trace: seq<Trace<R>>, more: seq<Trace<R>>)
    requires TraceSafe(trace)
    requires forall p, q :: 0 <= p < |trace| && 0 <= q < |more| && trace[p].Published? ==>
      After(trace[p].results, more[q])
    requires forall q :: 0 <= q < |more| ==> more[q].Invoked? || |more| == 1
    ensures TraceSafe(trace + more)
  {
    var all := trace + more;
    assert forall q :: |trace| <= q < |all| ==> all[q] == more[q - |trace|];
    assert forall q :: 0 <= q < |trace| ==> all[q] == trace[q];
  }

  lemma PublishedFound<R>(cfg: Config<R>, s: State<R>)
    requires Accepted(cfg, s.results)
    ensures OnDisk(cfg, Publish(cfg, s)) == s.results
  {
  }

  lemma LoadAccepted<R(!new)>(cfg: Config<R>, disk: File<R>)
    requires Stable(cfg)
    ensures Accepted(cfg, OnDisk(cfg, disk))
  {
  }

  lemma SettleAccepted<R(!new)>(cfg: Config<R>, s: State<R>, i: nat, outcome: Outcome<R>, now: real)
    requires Stable(cfg) && Inv(cfg, s) && i in s.running && Attempts(s, i) >= 1
    requires Accepted(cfg, s.results)
    ensures Accepted(cfg, Settle(cfg, s, i, outcome, now).results)
  {
    assert Placed(s, i, cfg.count);
  }

  lemma StepKeepsDurable<R(!new)>(cfg: Config<R>, w: World<R>, step: Step<R>)
    requires Stable(cfg)
    requires ProcessKeeps(cfg, w) && DurableKeeps(cfg, w) && Enabled(cfg, w, step)
    ensures DurableKeeps(cfg, Next(cfg, w, step))
  {
    match step
    case Boot =>
      LoadAccepted(cfg, w.disk);
    case AdmitStep(now) =>
      var s := w.process.value;
      AdmitAllInv(cfg, s, now);
      var started := StartedBy(s, Admit(cfg, s, now), cfg.count);
      forall q | 0 <= q < |started| ensures started[q] !in s.results {
        assert started[q] in started;
        AdmitChange(cfg, s, now, started[q]);
      }
      TraceAppend(w.trace, Invocations<R>(started));
    case SettleStep(i, outcome, now) =>
      SettleAccepted(cfg, w.process.value, i, outcome, now);
      SettleKeeps(cfg, w.process.value, i, outcome, now);
    case PublishStep =>
      PublishedFound(cfg, w.process.value);
      TraceAppend(w.trace, [Published(w.process.value.results)]);
    case Crash =>
  }

  function Initial<R>(disk: File<R>): World<R> {
    World(disk, None, 0.0, [], [])
  }

  lemma {:induction false} RunKeepsProcess<R>(cfg: Config<R>, w: World<R>, steps: seq<Step<R>>)
    requires EnabledRun(cfg, w, steps) && ProcessKeeps(cfg, w)
    ensures ProcessKeeps(cfg, Run(cfg, w, steps))
    decreases |steps|
  {
    hide ProcessKeeps, Next, Enabled;
    if steps != [] {
      StepKeepsProcess(cfg, w, steps[0]);
      RunKeepsProcess(cfg, Next(cfg, w, steps[0]), steps[1..]);
    }
  }

  lemma {:induction false} RunKeepsDurable<R(!new)>(cfg: Config<R>, w: World<R>, steps: seq<Step<R>>)
    requires Stable(cfg) && EnabledRun(cfg, w, steps)
    requires ProcessKeeps(cfg, w) && DurableKeeps(cfg, w)
    ensures DurableKeeps(cfg, Run(cfg, w, steps))
    decreases |steps|
  {
    hide ProcessKeeps, DurableKeeps, Next, Enabled, Stable;
    if steps != [] {
      StepKeepsProcess(cfg, w, steps[0]);
      StepKeepsDurable(cfg, w, steps[0]);
      RunKeepsDurable(cfg, Next(cfg, w, steps[0]), steps[1..]);
    }
  }

  /** Neither the process nor the snapshot reports a segment as blocked twice. */
  ghost predicate BlocksKeep<R>(w: World<R>) {
    CleanFile(w.disk) && (w.process.Some? ==> DistinctBlocks(w.process.value.blocks))
  }

  lemma StepKeepsBlocks<R>(cfg: Config<R>, w: World<R>, step: Step<R>)
    requires ProcessKeeps(cfg, w) && BlocksKeep(w) && Enabled(cfg, w, step)
    ensures BlocksKeep(Next(cfg, w, step))
  {
    hide DistinctBlocks, Inv;
    match step
    case Boot =>
      LoadInv(cfg, w.disk);
    case AdmitStep(now) =>
      AdmitAllInv(cfg, w.process.value, now);
    case SettleStep(i, outcome, now) =>
      SettleDistinct(cfg, w.process.value, i, outcome, now);
    case PublishStep =>
    case Crash =>
  }

  lemma {:induction false} RunKeepsBlocks<R>(cfg: Config<R>, w: World<R>, steps: seq<Step<R>>)
    requires EnabledRun(cfg, w, steps) && ProcessKeeps(cfg, w) && BlocksKeep(w)
    ensures BlocksKeep(Run(cfg, w, steps))
    decreases |steps|
  {
    hide ProcessKeeps, BlocksKeep, Next, Enabled;
    if steps != [] {
      StepKeepsProcess(cfg, w, steps[0]);
      StepKeepsBlocks(cfg, w, steps[0]);
      RunKeepsBlocks(cfg, Next(cfg, w, steps[0]), steps[1..]);
    }
  }

  /**
   Over any run with any crashes and restarts, from any snapshot file: an index with a published result is never
   invoked again and published results only grow.
   */
  lemma PublishedForever<R(!new)>(cfg: Config<R>, disk: File<R>, steps: seq<Step<R>>)
    requires Stable(cfg) && EnabledRun(cfg, Initial(disk), steps)
    ensures TraceSafe(Run(cfg, Initial(disk), steps).trace)
  {
    RunKeepsDurable(cfg, Initial(disk), steps);
  }

  /**
   In every state a process can reach: the indices are partitioned, at most `concurrency` operations run, no index
   is attempted more often than allowed, halting means failure, and no operation starts before its delays are over.
   */
  lemma ReachableSafe<R>(cfg: Config<R>, disk: File<R>, steps: seq<Step<R>>)
    requires EnabledRun(cfg, Initial(disk), steps)
    ensures var w := Run(cfg, Initial(disk), steps);
      w.process.Some? ==>
        && Inv(cfg, w.process.value)
        && DelaysRespected(w.seen)
        && forall i: nat :: StartsOf(w.seen, i) <= Most(cfg)
  {
    RunKeepsProcess(cfg, Initial(disk), steps);
  }

  /**
   Over any run with crashes and restarts, from a first snapshot without repetitions: process and snapshot report every
   blocked segment at most once.
   */
  lemma BlockedOnce<R>(cfg: Config<R>, disk: File<R>, steps: seq<Step<R>>)
    requires EnabledRun(cfg, Initial(disk), steps) && CleanFile(disk)
    ensures var w := Run(cfg, Initial(disk), steps);
      CleanFile(w.disk) && (w.process.Some? ==> DistinctBlocks(w.process.value.blocks))
  {
    RunKeepsBlocks(cfg, Initial(disk), steps);
  }

  // ----- bounded work -----

  /** Operations started and settled by a run. */
  function Work<R>(cfg: Config<R>, w: World<R>, steps: seq<Step<R>>): int
    requires EnabledRun(cfg, w, steps)
    decreases |steps|
  {
    if steps == [] then 0
    else
      var here := match steps[0]
        case AdmitStep(now) => |Admit(cfg, w.process.value, now).running| - |w.process.value.running|
        case SettleStep(_, _, _) => 1
        case _ => 0;
      here + Work(cfg, Next(cfg, w, steps[0]), steps[1..])
  }

  predicate NoBoot<R>(steps: seq<Step<R>>) {
    forall k :: 0 <= k < |steps| ==> !steps[k].Boot?
  }

  function Left<R>(cfg: Config<R>, w: World<R>): nat {
    if w.process.Some? then Total(cfg, w.process.value, cfg.count) else 0
  }

  lemma StepWork<R(!new)>(cfg: Config<R>, w: World<R>, step: Step<R>)
    requires ProcessKeeps(cfg, w) && Enabled(cfg, w, step) && !step.Boot?
    ensures Left(cfg, Next(cfg, w, step)) + Work(cfg, w, [step]) <= Left(cfg, w)
  {
    assert [step][1..] == [];
    match step
    case AdmitStep(now) =>
      AdmitAllDrops(cfg, w.process.value, now);
    case SettleStep(i, outcome, now) =>
      SettleDrops(cfg, w.process.value, i, outcome, now);
    case PublishStep =>
    case Crash =>
  }

  lemma {:induction false} WorkLeft<R(!new)>(cfg: Config<R>, w: World<R>, steps: seq<Step<R>>)
    requires ProcessKeeps(cfg, w) && EnabledRun(cfg, w, steps) && NoBoot(steps)
    ensures Work(cfg, w, steps) <= Left(cfg, w)
    decreases |steps|
  {
    if steps != [] {
      StepWork(cfg, w, steps[0]);
      StepKeepsProcess(cfg, w, steps[0]);
      assert [steps[0]][1..] == [];
      WorkLeft(cfg, Next(cfg, w, steps[0]), steps[1..]);
    }
  }

  /** One process starts and settles at most twice as many operations as it has attempts for all its segments. */
  lemma BoundedWork<R(!new)>(cfg: Config<R>, disk: File<R>, steps: seq<Step<R>>)
    requires NoBoot(steps) && EnabledRun(cfg, Next(cfg, Initial(disk), Boot), steps)
    ensures Work(cfg, Next(cfg, Initial(disk), Boot), steps) <= 2 * Most(cfg) * cfg.count
  {
    var w := Next(cfg, Initial(disk), Boot);
    StepKeepsProcess(cfg, Initial(disk), Boot);
    WorkLeft(cfg, w, steps);
    TotalBound(cfg, w.process.value, cfg.count);
  }
}
