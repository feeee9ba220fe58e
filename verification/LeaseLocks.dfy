/**
 The execution lock of one job and the lease files of its readers, at the level of directory entries, files and
 advisory locks. Every step of every process is separate, and a process can die between any two of its steps.
 */
module LeaseLocks {
  import opened Wrappers

  /** Where a process is in `download_lock` (R) or in `job_lock(..., "execution")` (W). */
  datatype Pc =
    | Idle
    | RHasExec(lease: nat)
    | ROpened(lease: nat, file: nat)
    | RLocked(lease: nat, file: nat)
    | RBody(lease: nat, file: nat)
    | RReleased(lease: nat)
    | RRefused(lease: nat)
    | WHasExec
    | WScan(todo: set<nat>)
    | WOpened(current: nat, file: nat, todo: set<nat>)
    | WLocked(current: nat, file: nat, todo: set<nat>)
    | WUnlocked(current: nat, todo: set<nat>)
    | WRefused
    | WBody

  /** `entries` are the lease paths of the directory; `locks` says which process has locked which file. */
  datatype State = State(
    exec: Option<nat>,
    entries: map<nat, nat>,
    locks: map<nat, nat>,
    pcs: map<nat, Pc>,
    nextFile: nat,
    nextLease: nat)

  datatype Step =
    | BeginRead(p: nat)
    | BeginWrite(p: nat)
    | Advance(p: nat, choice: nat)
    | Crash(p: nat)

  function Get(s: State, p: nat): Pc {
    if p in s.pcs then s.pcs[p] else Idle
  }

  function At(s: State, p: nat, pc: Pc): State {
    s.(pcs := s.pcs[p := pc])
  }

  predicate HoldsExec(pc: Pc) {
    match pc
    case Idle => false
    case RBody(_, _) => false
    case RReleased(_) => false
    case _ => true
  }

  predicate IsReader(pc: Pc) {
    pc.RHasExec? || pc.ROpened? || pc.RLocked? || pc.RBody? || pc.RReleased? || pc.RRefused?
  }

  /** The process holds the lock of its own lease. */
  predicate Leases(pc: Pc) {
    pc.RLocked? || pc.RBody?
  }

  /** Opening the lock file creates it when there is none. */
  function Opened(s: State, lease: nat): State {
    if lease in s.entries then s else s.(entries := s.entries[lease := s.nextFile], nextFile := s.nextFile + 1)
  }

  function Unlinked(s: State, lease: nat): State {
    s.(entries := s.entries - {lease})
  }

  function Unlocked(s: State, file: nat): State {
    s.(locks := s.locks - {file})
  }

  /** One step of a process that is inside one of the two locks. */
  function Advanced(s: State, p: nat, choice: nat): State {
    match Get(s, p)
    case Idle => s
    case RHasExec(lease) =>
      var t := Opened(s, lease);
      At(t, p, ROpened(lease, t.entries[lease]))
    case ROpened(lease, file) =>
      if file in s.locks then At(s, p, RRefused(lease))
      else At(s.(locks := s.locks[file := p]), p, RLocked(lease, file))
    case RLocked(lease, file) => At(s.(exec := None), p, RBody(lease, file))
    case RBody(lease, file) => At(Unlocked(s, file), p, RReleased(lease))
    case RReleased(lease) => At(Unlinked(s, lease), p, Idle)
    case RRefused(lease) => At(s.(exec := None), p, RReleased(lease))
    case WHasExec => At(s, p, WScan(s.entries.Keys))
    case WScan(todo) =>
      if todo == {} then At(s, p, WBody)
      else if choice !in todo then s
      else
        var t := Opened(s, choice);
        At(t, p, WOpened(choice, t.entries[choice], todo - {choice}))
    case WOpened(current, file, todo) =>
      if file in s.locks then At(s, p, WRefused)
      else At(s.(locks := s.locks[file := p]), p, WLocked(current, file, todo))
    case WLocked(current, file, todo) => At(Unlocked(s, file), p, WUnlocked(current, todo))
    case WUnlocked(current, todo) => At(Unlinked(s, current), p, WScan(todo))
    case WRefused => At(s.(exec := None), p, Idle)
    case WBody => At(s.(exec := None), p, Idle)
  }

  /** The system releases what a dead process had locked; directory entries stay. */
  function Died(s: State, p: nat): State {
    At(s.(exec := if s.exec == Some(p) then None else s.exec,
          locks := map f | f in s.locks && s.locks[f] != p :: s.locks[f]), p, Idle)
  }

  function Next(s: State, step: Step): State {
    match step
    case BeginRead(p) =>
      if Get(s, p).Idle? && s.exec.None?
      then At(s.(exec := Some(p), nextLease := s.nextLease + 1), p, RHasExec(s.nextLease))
      else s
    case BeginWrite(p) =>
      if Get(s, p).Idle? && s.exec.None? then At(s.(exec := Some(p)), p, WHasExec) else s
    case Advance(p, choice) => Advanced(s, p, choice)
    case Crash(p) => Died(s, p)
  }

  function Run(s: State, steps: seq<Step>): State
    decreases |steps|
  {
    if steps == [] then s else Run(Next(s, steps[0]), steps[1..])
  }

  /** Nothing is running; the directory may hold any abandoned leases. */
  predicate Start(s: State) {
    && s.exec.None? && s.locks == map[] && s.pcs == map[]
    && (forall l :: l in s.entries ==> l < s.nextLease && s.entries[l] < s.nextFile)
  }

  // ----- what every step keeps -----

  /** One process: it has the execution lock exactly when it should, and its lease is where it should be. */
  ghost predicate Sound(s: State, p: nat) {
    var pc := Get(s, p);
    && (HoldsExec(pc) <==> s.exec == Some(p))
    && (IsReader(pc) ==> pc.lease < s.nextLease)
    && (pc.ROpened? ==> pc.lease in s.entries && s.entries[pc.lease] == pc.file && pc.file !in s.locks)
    && (Leases(pc) ==>
        pc.lease in s.entries && s.entries[pc.lease] == pc.file && pc.file in s.locks && s.locks[pc.file] == p)
    && !pc.RRefused?
    && (pc.RHasExec? ==> pc.lease !in s.entries)
    && (pc.WOpened? ==> pc.file < s.nextFile)
    && (pc.WLocked? ==> pc.file in s.locks && s.locks[pc.file] == p)
    && (pc.WOpened? || pc.WLocked? || pc.WUnlocked? ==> pc.current !in pc.todo)
    && (pc.WScan? || pc.WOpened? || pc.WLocked? || pc.WUnlocked? ==> Known(pc.todo, s.nextLease))
  }

  predicate Known(leases: set<nat>, bound: nat) {
    forall l :: l in leases ==> l < bound
  }

  /** A writer that is looking through the leases still has every live reader's lease ahead of it. */
  predicate Ahead(w: Pc, r: Pc) {
    r.RBody? ==>
      match w
      case WScan(todo) => r.lease in todo
      case WOpened(current, file, todo) => r.lease in todo || (r.lease == current && r.file == file)
      case WLocked(current, _, todo) => r.lease in todo && r.lease != current
      case WUnlocked(current, todo) => r.lease in todo && r.lease != current
      case WBody => false
      case _ => true
  }

  predicate OwnLeases(a: Pc, b: Pc) {
    IsReader(a) && IsReader(b) ==> a.lease != b.lease
  }

  ghost predicate Pair(s: State, p: nat, q: nat) {
    p != q ==> Ahead(Get(s, p), Get(s, q)) && OwnLeases(Get(s, p), Get(s, q))
  }

  /** A file is locked only by a process that is using it. */
  ghost predicate Owned(s: State, f: nat) {
    f in s.locks ==>
      && f < s.nextFile
      && var pc := Get(s, s.locks[f]); (Leases(pc) || pc.WLocked?) && pc.file == f
  }

  ghost predicate Listed(s: State, l: nat) {
    l in s.entries ==> l < s.nextLease && s.entries[l] < s.nextFile
  }

  ghost predicate Inv(s: State) {
    && (forall p: nat :: Sound(s, p))
    && (forall p: nat, q: nat :: Pair(s, p, q))
    && (forall f: nat :: Owned(s, f))
    && (forall l: nat :: Listed(s, l))
  }

  lemma StartInv(s: State)
    requires Start(s)
    ensures Inv(s)
  {
  }

  lemma BeginSound(s: State, p: nat, step: Step, q: nat)
    requires Inv(s) && (step == BeginRead(p) || step == BeginWrite(p))
    ensures Sound(Next(s, step), q)
  {
    assert Sound(s, q) && Sound(s, p) && Listed(s, s.nextLease);
  }

  lemma BeginPair(s: State, p: nat, step: Step, q: nat, r: nat)
    requires Inv(s) && (step == BeginRead(p) || step == BeginWrite(p))
    ensures Pair(Next(s, step), q, r)
  {
    assert Pair(s, q, r) && Sound(s, q) && Sound(s, r) && Sound(s, p);
  }

  lemma BeginKeeps(s: State, p: nat, step: Step)
    requires Inv(s) && (step == BeginRead(p) || step == BeginWrite(p))
    ensures Inv(Next(s, step))
  {
    var t := Next(s, step);
    forall q: nat ensures Sound(t, q) {
      BeginSound(s, p, step, q);
    }
    forall q: nat, r: nat ensures Pair(t, q, r) {
      BeginPair(s, p, step, q, r);
    }
    forall f: nat ensures Owned(t, f) {
      assert Owned(s, f) && Sound(s, p);
    }
    forall l: nat ensures Listed(t, l) {
      assert Listed(s, l);
    }
  }

  lemma CrashKeeps(s: State, p: nat)
    requires Inv(s)
    ensures Inv(Next(s, Crash(p)))
  {
    var t := Next(s, Crash(p));
    forall q: nat ensures Sound(t, q) {
      assert Sound(s, q) && Sound(s, p);
    }
    forall q: nat, r: nat ensures Pair(t, q, r) {
      assert Pair(s, q, r);
    }
    forall f: nat ensures Owned(t, f) {
      assert Owned(s, f);
    }
    forall l: nat ensures Listed(t, l) {
      assert Listed(s, l);
    }
  }

  /** The process that moves. */
  lemma AdvanceOwn(s: State, p: nat, choice: nat)
    requires Inv(s)
    ensures Sound(Advanced(s, p, choice), p)
  {
    assert Sound(s, p) && Owned(s, s.nextFile);
    var pc := Get(s, p);
    if pc.WScan? && choice in pc.todo {
      assert Listed(s, choice);
    } else if pc.WHasExec? {
      forall l: nat | l in s.entries ensures l < s.nextLease {
        assert Listed(s, l);
      }
    }
  }

  /** A process that does not move. */
  lemma AdvanceOther(s: State, p: nat, choice: nat, q: nat)
    requires Inv(s) && p != q
    ensures Sound(Advanced(s, p, choice), q)
  {
    assert Sound(s, p) && Sound(s, q) && Pair(s, p, q) && Pair(s, q, p);
  }

  lemma OthersStay(s: State, p: nat, choice: nat)
    ensures forall q: nat :: q != p ==> Get(Advanced(s, p, choice), q) == Get(s, q)
  {
  }

  lemma LeaseStays(s: State, p: nat, choice: nat)
    ensures var after := Get(Advanced(s, p, choice), p);
      IsReader(after) ==> IsReader(Get(s, p)) && after.lease == Get(s, p).lease
  {
  }

  lemma AdvancePair(s: State, p: nat, choice: nat, q: nat, r: nat)
    requires Inv(s) && q != r
    ensures Pair(Advanced(s, p, choice), q, r)
  {
    hide Advanced, Sound, Ahead;
    assert Pair(s, q, r);
    OthersStay(s, p, choice);
    LeaseStays(s, p, choice);
    if q == p {
      AheadMoves(s, p, choice, r);
    } else if r == p {
      AheadOfMoved(s, q, p, choice);
    }
  }

  lemma AheadMoves(s: State, p: nat, choice: nat, r: nat)
    requires Inv(s) && p != r
    ensures Ahead(Get(Advanced(s, p, choice), p), Get(s, r))
  {
    assert Sound(s, p) && Sound(s, r) && Pair(s, p, r);
    assert Known({}, s.nextLease);
  }

  lemma AheadOfMoved(s: State, q: nat, p: nat, choice: nat)
    requires Inv(s) && p != q
    ensures Ahead(Get(s, q), Get(Advanced(s, p, choice), p))
  {
    assert Sound(s, p) && Sound(s, q) && Pair(s, q, p);
  }

  lemma AdvanceOwned(s: State, p: nat, choice: nat, f: nat)
    requires Inv(s)
    ensures Owned(Advanced(s, p, choice), f)
  {
    var pc := Get(s, p);
    assert Owned(s, f) && Sound(s, p);
    if pc.ROpened? {
      assert Listed(s, pc.lease);
    }
  }

  lemma AdvanceListed(s: State, p: nat, choice: nat, l: nat)
    requires Inv(s)
    ensures Listed(Advanced(s, p, choice), l)
  {
    assert Listed(s, l) && Sound(s, p);
    var pc := Get(s, p);
    if pc.WScan? && choice in pc.todo {
      assert Listed(s, choice);
    }
  }

  lemma AdvanceKeeps(s: State, p: nat, choice: nat)
    requires Inv(s)
    ensures Inv(Next(s, Advance(p, choice)))
  {
    hide Advanced, Sound, Pair, Owned, Listed;
    var t := Advanced(s, p, choice);
    forall q: nat ensures Sound(t, q) {
      if q == p {
        AdvanceOwn(s, p, choice);
      } else {
        AdvanceOther(s, p, choice, q);
      }
    }
    forall q: nat, r: nat ensures Pair(t, q, r) {
      if q == r {
        PairSelf(t, q);
      } else {
        AdvancePair(s, p, choice, q, r);
      }
    }
    forall f: nat ensures Owned(t, f) {
      AdvanceOwned(s, p, choice, f);
    }
    forall l: nat ensures Listed(t, l) {
      AdvanceListed(s, p, choice, l);
    }
  }

  lemma PairSelf(s: State, p: nat)
    ensures Pair(s, p, p)
  {
  }

  lemma {:induction false} RunInv(s: State, steps: seq<Step>)
    requires Inv(s)
    ensures Inv(Run(s, steps))
    decreases |steps|
  {
    if steps != [] {
      match steps[0] {
        case BeginRead(p) => BeginKeeps(s, p, steps[0]);
        case BeginWrite(p) => BeginKeeps(s, p, steps[0]);
        case Advance(p, choice) => AdvanceKeeps(s, p, choice);
        case Crash(p) => CrashKeeps(s, p);
      }
      RunInv(Next(s, steps[0]), steps[1..]);
    }
  }

  /**
   From any directory of abandoned leases, along any run with any crashes: no process is inside the execution lock while
   a reader is inside its download, at most one process holds the execution lock, and no reader is
   refused its own lease.
   */
  lemma Exclusion(s: State, steps: seq<Step>, p: nat, q: nat)
    requires Start(s) && p != q
    ensures var t := Run(s, steps);
      && !(Get(t, p).WBody? && Get(t, q).RBody?)
      && !(HoldsExec(Get(t, p)) && HoldsExec(Get(t, q)))
      && !Get(t, p).RRefused?
  {
    StartInv(s);
    RunInv(s, steps);
    var t := Run(s, steps);
    assert Pair(t, p, q) && Sound(t, p) && Sound(t, q);
  }

  // ----- abandoned leases never block -----

  /** No reader is alive with its lease locked. */
  ghost predicate NoReaderAlive(s: State) {
    forall q: nat :: !Leases(Get(s, q))
  }

  /** A process looking through the leases is refused only by the lease of a reader that is alive and downloading. */
  lemma RefusedByLiveReader(s: State, p: nat, choice: nat) returns (q: nat)
    requires Inv(s) && Get(s, p).WOpened? && Get(Advanced(s, p, choice), p).WRefused?
    ensures Get(s, q).RBody? && Get(s, q).file == Get(s, p).file
  {
    var file := Get(s, p).file;
    q := s.locks[file];
    assert Owned(s, file) && Sound(s, p) && Sound(s, q);
  }

  /** Nothing but the process p itself holds anything. */
  ghost predicate Alone(s: State, p: nat) {
    && s.exec == Some(p) && s.locks == map[]
    && forall q: nat :: !Leases(Get(s, q))
  }

  /** The steps with which p looks through these leases, in the order given. */
  function ScanSteps(p: nat, order: seq<nat>): seq<Step> {
    if order == [] then [Advance(p, 0)]
    else [Advance(p, order[0]), Advance(p, 0), Advance(p, 0), Advance(p, 0)] + ScanSteps(p, order[1..])
  }

  ghost predicate Lists(order: seq<nat>, todo: set<nat>) {
    && (forall l :: l in order <==> l in todo)
    && forall j, k :: 0 <= j < k < |order| ==> order[j] != order[k]
  }

  lemma RunOne(s: State, a: Step, rest: seq<Step>)
    ensures Run(s, [a] + rest) == Run(Next(s, a), rest)
  {
    hide Next;
    assert ([a] + rest)[1..] == rest;
  }

  lemma RunFour(s: State, a: Step, b: Step, c: Step, d: Step, rest: seq<Step>)
    ensures Run(s, [a, b, c, d] + rest) == Run(Next(Next(Next(Next(s, a), b), c), d), rest)
  {
    hide Next, Run;
    RunOne(s, a, [b] + ([c] + ([d] + rest)));
    RunOne(Next(s, a), b, [c] + ([d] + rest));
    RunOne(Next(Next(s, a), b), c, [d] + rest);
    RunOne(Next(Next(Next(s, a), b), c), d, rest);
    assert [a, b, c, d] + rest == [a] + ([b] + ([c] + ([d] + rest)));
  }

  /** One lease: opened, locked, unlocked, removed. */
  lemma ScanOne(s: State, p: nat, l: nat)
    requires Alone(s, p) && Get(s, p).WScan? && l in Get(s, p).todo
    ensures var t := Next(Next(Next(Next(s, Advance(p, l)), Advance(p, 0)), Advance(p, 0)), Advance(p, 0));
      && Alone(t, p) && Get(t, p) == WScan(Get(s, p).todo - {l})
      && t.entries.Keys == s.entries.Keys - {l}
  {
    var a := Next(s, Advance(p, l));
    assert a.locks == map[];
    var b := Next(a, Advance(p, 0));
    assert Get(b, p).WLocked?;
    var c := Next(b, Advance(p, 0));
    assert c.locks == map[];
    var d := Next(c, Advance(p, 0));
    assert a.entries.Keys == s.entries.Keys + {l};
    assert d.entries == a.entries - {l};
    assert d.entries.Keys == a.entries.Keys - {l};
    forall q: nat ensures !Leases(Get(d, q)) {
      assert !Leases(Get(s, q));
    }
  }

  lemma {:induction false} ScanAll(s: State, p: nat, order: seq<nat>)
    requires Alone(s, p) && Get(s, p).WScan? && Lists(order, Get(s, p).todo)
    ensures Get(Run(s, ScanSteps(p, order)), p).WBody?
    ensures Run(s, ScanSteps(p, order)).entries.Keys == s.entries.Keys - Get(s, p).todo
    decreases |order|
  {
    if order == [] {
      assert Get(s, p).todo == {} by {
        assert forall l :: l in Get(s, p).todo ==> l in order;
      }
      assert ScanSteps(p, order)[1..] == [];
    } else {
      var l := order[0];
      assert l in order;
      ScanOne(s, p, l);
      var t := Next(Next(Next(Next(s, Advance(p, l)), Advance(p, 0)), Advance(p, 0)), Advance(p, 0));
      forall m ensures m in order[1..] <==> m in Get(t, p).todo {
        assert m in order <==> m == l || m in order[1..];
        if m in order[1..] {
          var j :| 0 <= j < |order[1..]| && order[1..][j] == m;
          assert order[j + 1] == m && order[0] != order[j + 1];
        }
      }
      ScanAll(t, p, order[1..]);
      RunFour(s, Advance(p, l), Advance(p, 0), Advance(p, 0), Advance(p, 0), ScanSteps(p, order[1..]));
    }
  }

  /** The leases in an order in which the directory may list them. */
  lemma {:induction false} SomeOrder(todo: set<nat>) returns (order: seq<nat>)
    ensures Lists(order, todo)
    decreases todo
  {
    if todo == {} {
      order := [];
    } else {
      var l :| l in todo;
      var rest := SomeOrder(todo - {l});
      order := [l] + rest;
      forall m ensures m in order <==> m in todo {
        assert m in order <==> m == l || m in rest;
      }
      assert forall k :: 0 <= k < |rest| ==> rest[k] in rest;
    }
  }

  lemma AliveLocks(s: State)
    requires Inv(s) && s.exec.None? && NoReaderAlive(s)
    ensures s.locks == map[]
  {
    forall f: nat ensures f !in s.locks {
      assert Owned(s, f) && (f in s.locks ==> Sound(s, s.locks[f]));
    }
  }

  /**
   Leases that dead processes left behind never keep anyone out: whenever the execution lock is free and no reader is
   alive, an idle process that is left to itself gets into the execution lock and clears all of them away.
   */
  lemma AbandonedNeverBlock(s: State, steps: seq<Step>, p: nat) returns (more: seq<Step>)
    requires Start(s)
    requires Run(s, steps).exec.None? && NoReaderAlive(Run(s, steps)) && Get(Run(s, steps), p).Idle?
    ensures forall k :: 0 <= k < |more| ==> more[k] == BeginWrite(p) || (more[k].Advance? && more[k].p == p)
    ensures var t := Run(Run(s, steps), more); Get(t, p).WBody? && t.entries == map[]
  {
    var u := Run(s, steps);
    StartInv(s);
    RunInv(s, steps);
    AliveLocks(u);
    var v := Next(Next(u, BeginWrite(p)), Advance(p, 0));
    assert Get(v, p) == WScan(u.entries.Keys);
    assert Alone(v, p) by {
      forall q: nat ensures !Leases(Get(v, q)) {
        assert !Leases(Get(u, q));
      }
    }
    var order := SomeOrder(u.entries.Keys);
    more := [BeginWrite(p), Advance(p, 0)] + ScanSteps(p, order);
    assert more[1..] == [Advance(p, 0)] + ScanSteps(p, order) && more[1..][1..] == ScanSteps(p, order);
    ScanAll(v, p, order);
    OnlyOwnSteps(p, order);
    assert Run(v, ScanSteps(p, order)).entries.Keys == {};
  }

  lemma {:induction false} OnlyOwnSteps(p: nat, order: seq<nat>)
    ensures forall k :: 0 <= k < |ScanSteps(p, order)| ==>
      ScanSteps(p, order)[k].Advance? && ScanSteps(p, order)[k].p == p
  {
    if order != [] {
      OnlyOwnSteps(p, order[1..]);
    }
  }

  /** Readers do not exclude each other: any number can be inside a download at once. */
  lemma {:induction false} ReadersOverlap(s: State, n: nat) returns (steps: seq<Step>)
    requires Start(s)
    ensures Run(s, steps).exec.None?
    ensures forall p: nat :: p < n ==> Get(Run(s, steps), p).RBody?
    ensures forall p: nat :: p >= n ==> Get(Run(s, steps), p).Idle?
    decreases n
  {
    if n == 0 {
      steps := [];
    } else {
      var before := ReadersOverlap(s, n - 1);
      var t := Run(s, before);
      StartInv(s);
      RunInv(s, before);
      var p := n - 1;
      var enter := [BeginRead(p), Advance(p, 0), Advance(p, 0), Advance(p, 0)];
      steps := before + enter;
      RunConcat(s, before, enter);
      RunFour(t, enter[0], enter[1], enter[2], enter[3], []);
      assert enter + [] == enter;
      EnterReader(t, p);
    }
  }

  lemma EnterReader(t: State, p: nat)
    requires Inv(t) && t.exec.None? && Get(t, p).Idle?
    ensures var u := Next(Next(Next(Next(t, BeginRead(p)), Advance(p, 0)), Advance(p, 0)), Advance(p, 0));
      u.exec.None? && Get(u, p).RBody? && forall q: nat :: q != p ==> Get(u, q) == Get(t, q)
  {
    assert Listed(t, t.nextLease) && Owned(t, t.nextFile);
    var a := Next(t, BeginRead(p));
    var b := Next(a, Advance(p, 0));
    assert Get(b, p) == ROpened(t.nextLease, t.nextFile) && b.locks == t.locks;
    var c := Next(b, Advance(p, 0));
    assert Get(c, p).RLocked?;
  }

  lemma {:induction false} RunConcat(s: State, a: seq<Step>, b: seq<Step>)
    ensures Run(s, a + b) == Run(Run(s, a), b)
    decreases |a|
  {
    if a == [] {
      assert a + b == b;
    } else {
      assert (a + b)[1..] == a[1..] + b;
      RunConcat(Next(s, a[0]), a[1..], b);
    }
  }
}
