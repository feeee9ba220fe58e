/** The sweep line of `segment_subtitles`: overlapping cues on the millisecond clock become disjoint intervals. */
module Sweep {
  import opened Sorting

  datatype Cue = Cue(first: nat, last: nat)

  /** An interval of constant caption: the indices of the cues shown, in order of start. */
  datatype Interval = Interval(first: nat, last: nat, active: seq<nat>)

  predicate Shown(c: Cue, t: nat) {
    c.first <= t < c.last
  }

  ghost predicate Proper(cues: seq<Cue>) {
    forall i :: 0 <= i < |cues| ==> cues[i].first < cues[i].last
  }

  /** The cues shown at millisecond t, in index order. */
  function Active(cues: seq<Cue>, t: nat): (r: seq<nat>)
    ensures IsAscending(r)
    ensures forall i: nat :: i in r <==> i < |cues| && Shown(cues[i], t)
  {
    if cues == [] then []
    else
      var n := |cues| - 1;
      var r := Active(cues[..n], t);
      assert forall i :: 0 <= i < |r| ==> r[i] in r;
      if Shown(cues[n], t) then r + [n] else r
  }

  predicate IsPoint(cues: seq<Cue>, p: nat) {
    exists i :: 0 <= i < |cues| && (cues[i].first == p || cues[i].last == p)
  }

  /** The caption is the same all over the interval, and no cue starts or ends strictly inside it. */
  ghost predicate Sharp(cues: seq<Cue>, v: Interval) {
    && v.first < v.last
    && v.active != []
    && (forall t: nat :: v.first <= t < v.last ==> Active(cues, t) == v.active)
    && (forall p: nat :: v.first < p < v.last ==> !IsPoint(cues, p))
    && IsPoint(cues, v.last)
  }

  ghost predicate Ordered(r: seq<Interval>) {
    forall j, k :: 0 <= j < k < |r| ==> r[j].last <= r[k].first
  }

  /** The declarative meaning of a sweep from time `from` on. */
  ghost predicate IsSweep(cues: seq<Cue>, from: nat, r: seq<Interval>) {
    && (forall k :: 0 <= k < |r| ==> from <= r[k].first && Sharp(cues, r[k]))
    && Ordered(r)
    && (forall t: nat :: from <= t && Active(cues, t) != [] ==> Covered(r, t))
  }

  ghost predicate Covered(r: seq<Interval>, t: nat) {
    exists k :: 0 <= k < |r| && r[k].first <= t < r[k].last
  }

  /** A sweep is determined by its meaning. */
  lemma {:induction false} SweepUnique(cues: seq<Cue>, from: nat, a: seq<Interval>, b: seq<Interval>)
    requires IsSweep(cues, from, a) && IsSweep(cues, from, b)
    ensures a == b
    decreases |a|
  {
    SweepNonEmpty(cues, from, a, b);
    SweepNonEmpty(cues, from, b, a);
    if a != [] {
      FirstNotLater(cues, from, a, b);
      FirstNotLater(cues, from, b, a);
      assert Active(cues, a[0].first) == a[0].active == b[0].active;
      assert a[0] == b[0];
      SweepTail(cues, from, a);
      SweepTail(cues, from, b);
      SweepUnique(cues, a[0].last, a[1..], b[1..]);
    }
  }

  lemma SweepNonEmpty(cues: seq<Cue>, from: nat, a: seq<Interval>, b: seq<Interval>)
    requires IsSweep(cues, from, a) && IsSweep(cues, from, b)
    ensures a != [] ==> b != []
  {
    if a != [] {
      assert Active(cues, a[0].first) == a[0].active;
      assert Covered(b, a[0].first);
    }
  }

  lemma FirstNotLater(cues: seq<Cue>, from: nat, a: seq<Interval>, b: seq<Interval>)
    requires IsSweep(cues, from, a) && IsSweep(cues, from, b) && a != [] && b != []
    ensures a[0].first <= b[0].first
    ensures a[0].first == b[0].first ==> a[0].last <= b[0].last
  {
    assert Active(cues, b[0].first) == b[0].active;
    assert Covered(a, b[0].first);
    assert IsPoint(cues, b[0].last);
  }

  lemma SweepTail(cues: seq<Cue>, from: nat, r: seq<Interval>)
    requires IsSweep(cues, from, r) && r != []
    ensures IsSweep(cues, r[0].last, r[1..])
  {
    var tail := r[1..];
    assert forall k :: 0 <= k < |tail| ==> tail[k] == r[k + 1];
    forall t | r[0].last <= t && Active(cues, t) != [] ensures Covered(tail, t) {
      assert Covered(r, t);
      var k :| 0 <= k < |r| && r[k].first <= t < r[k].last;
      assert tail[k - 1] == r[k];
    }
  }

  lemma {:induction false} ActiveStable(cues: seq<Cue>, p: nat, t: nat)
    requires forall i :: 0 <= i < |cues| ==> (Shown(cues[i], p) <==> Shown(cues[i], t))
    ensures Active(cues, p) == Active(cues, t)
  {
    AscendingUnique(Active(cues, p), Active(cues, t));
  }

  /** The points at which cues start or end. */
  function Points(cues: seq<Cue>): (s: set<nat>)
    ensures forall p :: p in s <==> IsPoint(cues, p)
  {
    if cues == [] then {}
    else
      var n := |cues| - 1;
      assert forall p :: IsPoint(cues, p) <==> IsPoint(cues[..n], p) || cues[n].first == p || cues[n].last == p by {
        forall p ensures IsPoint(cues, p) <==> IsPoint(cues[..n], p) || cues[n].first == p || cues[n].last == p {
          assert forall i :: 0 <= i < n ==> cues[..n][i] == cues[i];
        }
      }
      Points(cues[..n]) + {cues[n].first, cues[n].last}
  }

  /** The points in ascending order. */
  ghost predicate PointList(cues: seq<Cue>, points: seq<nat>) {
    && IsAscending(points)
    && (forall p: nat :: p in points <==> IsPoint(cues, p))
  }

  /** The sweep after its first k points. */
  function SweepUpTo(cues: seq<Cue>, points: seq<nat>, k: nat): seq<Interval>
    requires k <= |points|
  {
    if k <= 1 then []
    else
      var active := Active(cues, points[k - 2]);
      SweepUpTo(cues, points, k - 1)
      + if active == [] then [] else [Interval(points[k - 2], points[k - 1], active)]
  }

  function SweepOf(cues: seq<Cue>): seq<Interval> {
    var points := Ascending(Points(cues));
    SweepUpTo(cues, points, |points|)
  }

  /** What the sweep has achieved after k points. */
  ghost predicate Progress(cues: seq<Cue>, points: seq<nat>, k: nat, r: seq<Interval>)
    requires k <= |points|
  {
    && (forall i :: 0 <= i < |r| ==> k >= 1 && r[i].last <= points[k - 1] && Sharp(cues, r[i]))
    && Ordered(r)
    && (forall t: nat :: Active(cues, t) != [] && k >= 1 && t < points[k - 1] ==> Covered(r, t))
  }

  /** Nothing changes between two neighbouring points. */
  lemma BetweenPoints(cues: seq<Cue>, points: seq<nat>, k: nat, t: nat)
    requires PointList(cues, points) && k + 1 < |points|
    requires points[k] <= t < points[k + 1]
    ensures Active(cues, t) == Active(cues, points[k])
    ensures t != points[k] ==> !IsPoint(cues, t)
  {
    forall i | 0 <= i < |cues| ensures Shown(cues[i], points[k]) <==> Shown(cues[i], t) {
      NotBetween(cues, points, k, cues[i].first);
      NotBetween(cues, points, k, cues[i].last);
    }
    ActiveStable(cues, points[k], t);
    if t != points[k] && IsPoint(cues, t) {
      NotBetween(cues, points, k, t);
    }
  }

  lemma NotBetween(cues: seq<Cue>, points: seq<nat>, k: nat, p: nat)
    requires PointList(cues, points) && k + 1 < |points|
    requires IsPoint(cues, p)
    ensures p <= points[k] || points[k + 1] <= p
  {
    assert p in points;
    var m :| 0 <= m < |points| && points[m] == p;
  }

  lemma NoneShown(cues: seq<Cue>, t: nat)
    requires forall i :: 0 <= i < |cues| ==> !Shown(cues[i], t)
    ensures Active(cues, t) == []
  {
    assert Active(cues, t) != [] ==> Active(cues, t)[0] in Active(cues, t);
  }

  lemma BeforePoints(cues: seq<Cue>, points: seq<nat>, t: nat)
    requires PointList(cues, points) && points != []
    requires t < points[0]
    ensures Active(cues, t) == []
  {
    forall i | 0 <= i < |cues| ensures !Shown(cues[i], t) {
      assert IsPoint(cues, cues[i].first);
    }
    NoneShown(cues, t);
  }

  lemma AfterPoints(cues: seq<Cue>, points: seq<nat>, t: nat)
    requires PointList(cues, points)
    requires points != [] ==> points[|points| - 1] <= t
    ensures Active(cues, t) == []
  {
    forall i | 0 <= i < |cues| ensures !Shown(cues[i], t) {
      assert IsPoint(cues, cues[i].last);
    }
    NoneShown(cues, t);
  }

  lemma CoveredAppend(r: seq<Interval>, s: seq<Interval>, t: nat)
    ensures Covered(r + s, t) <==> Covered(r, t) || Covered(s, t)
  {
    var all := r + s;
    assert forall i :: 0 <= i < |r| ==> all[i] == r[i];
    assert forall i :: 0 <= i < |s| ==> all[|r| + i] == s[i];
    assert forall i :: |r| <= i < |all| ==> all[i] == s[i - |r|];
  }

  lemma {:induction false} SweepProgress(cues: seq<Cue>, points: seq<nat>, k: nat)
    requires PointList(cues, points) && k <= |points|
    ensures Progress(cues, points, k, SweepUpTo(cues, points, k))
  {
    if k == 1 {
      forall t | t < points[0] ensures Active(cues, t) == [] {
        BeforePoints(cues, points, t);
      }
    } else if k > 1 {
      SweepProgress(cues, points, k - 1);
      ProgressStep(cues, points, k, SweepUpTo(cues, points, k - 1));
    }
  }

  lemma NewInterval(cues: seq<Cue>, points: seq<nat>, k: nat)
    requires PointList(cues, points) && k + 1 < |points|
    requires Active(cues, points[k]) != []
    ensures Sharp(cues, Interval(points[k], points[k + 1], Active(cues, points[k])))
  {
    assert points[k + 1] in points;
    forall t: nat | points[k] <= t < points[k + 1]
      ensures Active(cues, t) == Active(cues, points[k]) && (t != points[k] ==> !IsPoint(cues, t))
    {
      BetweenPoints(cues, points, k, t);
    }
  }

  lemma ProgressStep(cues: seq<Cue>, points: seq<nat>, k: nat, r: seq<Interval>)
    requires PointList(cues, points) && 1 < k <= |points|
    requires Progress(cues, points, k - 1, r)
    ensures var active := Active(cues, points[k - 2]);
      Progress(cues, points, k, r + if active == [] then [] else [Interval(points[k - 2], points[k - 1], active)])
  {
    var active := Active(cues, points[k - 2]);
    var more := if active == [] then [] else [Interval(points[k - 2], points[k - 1], active)];
    assert points[k - 2] < points[k - 1];
    if active != [] {
      NewInterval(cues, points, k - 2);
    }
    forall t: nat | Active(cues, t) != [] && t < points[k - 1] ensures Covered(r + more, t) {
      CoveredAppend(r, more, t);
      if points[k - 2] <= t {
        BetweenPoints(cues, points, k - 2, t);
        assert more[0].first <= t < more[0].last;
      }
    }
    assert forall i :: 0 <= i < |r| ==> (r + more)[i] == r[i];
  }

  /** The sweep is exact: it meets its declarative meaning. */
  lemma SweepExact(cues: seq<Cue>)
    ensures IsSweep(cues, 0, SweepOf(cues))
  {
    var points := Ascending(Points(cues));
    SweepProgress(cues, points, |points|);
    forall t: nat | Active(cues, t) != [] ensures Covered(SweepOf(cues), t) {
      if points == [] || points[|points| - 1] <= t {
        AfterPoints(cues, points, t);
      }
    }
  }

  function OwnSweep(cues: seq<Cue>): (r: seq<Interval>)
    ensures |r| == |cues|
    ensures forall k :: 0 <= k < |r| ==> r[k] == Interval(cues[k].first, cues[k].last, [k])
  {
    seq(|cues|, k requires 0 <= k < |cues| => Interval(cues[k].first, cues[k].last, [k]))
  }

  /** Cues that do not overlap are their own sweep. */
  lemma DisjointSweep(cues: seq<Cue>)
    requires Proper(cues)
    requires forall i, j :: 0 <= i < j < |cues| ==> cues[i].last <= cues[j].first
    ensures SweepOf(cues) == OwnSweep(cues)
  {
    var r := OwnSweep(cues);
    forall k | 0 <= k < |r| ensures Sharp(cues, r[k]) {
      forall t: nat | r[k].first <= t < r[k].last ensures Active(cues, t) == [k] {
        assert Shown(cues[k], t);
        AscendingUnique(Active(cues, t), [k]);
      }
      assert cues[k].last == r[k].last;
    }
    forall t: nat | Active(cues, t) != [] ensures Covered(r, t) {
      var i := Active(cues, t)[0];
      assert i in Active(cues, t);
      assert r[i].first <= t < r[i].last;
    }
    SweepExact(cues);
    SweepUnique(cues, 0, SweepOf(cues), r);
  }

  // ----- the loops of the program -----

  datatype Change = Change(index: nat, starts: bool)

  type Events = map<nat, seq<Change>>

  function Record(events: Events, point: nat, change: Change): (r: Events)
    ensures r.Keys == events.Keys + {point}
    ensures forall p :: p in events && p != point ==> r[p] == events[p]
    ensures r[point] == (if point in events then events[point] else []) + [change]
  {
    events[point := (if point in events then events[point] else []) + [change]]
  }

  function At(events: Events, p: nat): seq<Change> {
    if p in events then events[p] else []
  }

  /** `events` names exactly the starts and ends of the first n cues. */
  ghost predicate EventsOf(cues: seq<Cue>, n: nat, events: Events)
    requires n <= |cues|
  {
    && (forall p: nat, c: Change :: c in At(events, p) <==>
          c.index < n && p == (if c.starts then cues[c.index].first else cues[c.index].last))
    && (forall p: nat :: p in events ==> events[p] != [])
  }

  method CollectEvents(cues: seq<Cue>) returns (events: Events)
    ensures EventsOf(cues, |cues|, events)
  {
    events := map[];
    for index := 0 to |cues|
      invariant EventsOf(cues, index, events)
    {
      ghost var before := events;
      events := Record(events, cues[index].first, Change(index, true));
      ghost var between := events;
      events := Record(events, cues[index].last, Change(index, false));
      forall p: nat, c: Change
        ensures c in At(events, p) <==>
          c.index < index + 1 && p == (if c.starts then cues[c.index].first else cues[c.index].last)
      {
        assert c in At(between, p) <==> c in At(before, p) || (p == cues[index].first && c == Change(index, true));
        assert c in At(events, p) <==> c in At(between, p) || (p == cues[index].last && c == Change(index, false));
      }
    }
  }

  /** The points of the events are the points of the cues. */
  lemma EventPoints(cues: seq<Cue>, events: Events, p: nat)
    requires EventsOf(cues, |cues|, events)
    ensures p in events <==> IsPoint(cues, p)
  {
    if p in events {
      var c := events[p][0];
      assert c in At(events, p);
      assert IsPoint(cues, p) by { assert c.index < |cues|; }
    }
    if IsPoint(cues, p) {
      var i: nat :| i < |cues| && (cues[i].first == p || cues[i].last == p);
      assert Change(i, cues[i].first == p) in At(events, p);
    }
  }

  ghost predicate ShownAt(cues: seq<Cue>, active: set<nat>, t: nat) {
    forall i: nat :: i in active <==> i < |cues| && Shown(cues[i], t)
  }

  /** Shown up to, but not yet at, the point. */
  ghost predicate ShownBefore(cues: seq<Cue>, active: set<nat>, point: nat) {
    forall i: nat :: i in active <==> i < |cues| && cues[i].first < point <= cues[i].last
  }

  /** The events of one point turn the cues shown before it into the cues shown at it. */
  method ApplyEvents(cues: seq<Cue>, events: Events, point: nat, before: set<nat>) returns (active: set<nat>)
    requires Proper(cues)
    requires EventsOf(cues, |cues|, events) && point in events
    requires ShownBefore(cues, before, point)
    ensures ShownAt(cues, active, point)
  {
    var changes := events[point];
    assert changes == At(events, point);
    active := before;
    for e := 0 to |changes|
      invariant forall i: nat :: i in active <==>
        (i in before && Change(i, false) !in changes[..e]) || Change(i, true) in changes[..e]
    {
      assert changes[..e + 1] == changes[..e] + [changes[e]];
      assert changes[e] in At(events, point);
      assert forall c :: c in changes[..e] ==> c in At(events, point);
      var index := changes[e].index;
      if changes[e].starts {
        active := active + {index};
      } else {
        active := active - {index};
      }
    }
    assert changes[..|changes|] == changes;
    forall i: nat ensures i in active <==> i < |cues| && Shown(cues[i], point) {
      assert Change(i, true) in changes <==> i < |cues| && cues[i].first == point;
      assert Change(i, false) in changes <==> i < |cues| && cues[i].last == point;
    }
  }

  /** Until the next point arrives, a cue is shown iff it started before that point and ends no earlier. */
  lemma UntilNextPoint(cues: seq<Cue>, points: seq<nat>, k: nat, active: set<nat>)
    requires PointList(cues, points) && k < |points|
    requires k == 0 ==> active == {}
    requires k > 0 ==> ShownAt(cues, active, points[k - 1])
    ensures ShownBefore(cues, active, points[k])
  {
    forall i: nat ensures i in active <==> i < |cues| && cues[i].first < points[k] <= cues[i].last {
      if i < |cues| {
        assert IsPoint(cues, cues[i].first) && IsPoint(cues, cues[i].last);
        assert cues[i].first in points && cues[i].last in points;
        var a :| 0 <= a < |points| && points[a] == cues[i].first;
        var b :| 0 <= b < |points| && points[b] == cues[i].last;
        assert cues[i].first < points[k] <==> a < k;
        assert points[k] <= cues[i].last <==> k <= b;
      }
    }
  }

  lemma ActiveList(cues: seq<Cue>, active: set<nat>, t: nat)
    requires ShownAt(cues, active, t)
    ensures Ascending(active) == Active(cues, t)
    ensures active == {} <==> Active(cues, t) == []
  {
    AscendingUnique(Ascending(active), Active(cues, t));
    assert active == {} <==> Ascending(active) == [];
  }

  method RunPoints(cues: seq<Cue>, events: Events, points: seq<nat>) returns (intervals: seq<Interval>)
    requires Proper(cues)
    requires EventsOf(cues, |cues|, events)
    requires PointList(cues, points) && forall p :: p in points ==> p in events
    ensures intervals == SweepUpTo(cues, points, |points|)
  {
    var active: set<nat> := {};
    intervals := [];
    for k := 0 to |points|
      invariant intervals == SweepUpTo(cues, points, k)
      invariant k == 0 ==> active == {}
      invariant k > 0 ==> ShownAt(cues, active, points[k - 1])
    {
      var point := points[k];
      assert point in points;
      if k > 0 {
        ActiveList(cues, active, points[k - 1]);
        if active != {} {
          intervals := intervals + [Interval(points[k - 1], point, Ascending(active))];
        }
      }
      UntilNextPoint(cues, points, k, active);
      active := ApplyEvents(cues, events, point, active);
    }
  }

  method Run(cues: seq<Cue>) returns (intervals: seq<Interval>)
    requires Proper(cues)
    ensures intervals == SweepOf(cues)
  {
    var events := CollectEvents(cues);
    var points := Ascending(events.Keys);
    forall p: nat ensures p in events.Keys <==> p in Points(cues) {
      EventPoints(cues, events, p);
    }
    AscendingUnique(points, Ascending(Points(cues)));
    intervals := RunPoints(cues, events, points);
  }
}
