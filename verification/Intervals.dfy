/** Half-open intervals of seconds: the silence complement, protection, exclusion and subtraction of audio intervals. */
module Intervals {
  import opened Wrappers
  import opened Sorting

  datatype Interval = Interval(start: real, end: real)

  predicate In(x: Interval, t: real) {
    x.start <= t < x.end
  }

  function Later(a: real, b: real): real {
    if a >= b then a else b
  }

  function Sooner(a: real, b: real): real {
    if a <= b then a else b
  }

  /** The instant belongs to one of the intervals. */
  ghost predicate Covers(s: seq<Interval>, t: real) {
    exists k :: 0 <= k < |s| && In(s[k], t)
  }

  /** Nonempty, in order, without overlap. */
  ghost predicate Tidy(s: seq<Interval>) {
    && (forall k :: 0 <= k < |s| ==> s[k].start < s[k].end)
    && (forall j, k :: 0 <= j < k < |s| ==> s[j].end <= s[k].start)
  }

  ghost predicate Within(s: seq<Interval>, low: real, high: real) {
    forall k :: 0 <= k < |s| ==> low <= s[k].start && s[k].end <= high
  }

  lemma CoversAppend(s: seq<Interval>, x: Interval, t: real)
    ensures Covers(s + [x], t) <==> Covers(s, t) || In(x, t)
  {
    var r := s + [x];
    assert forall k :: 0 <= k < |s| ==> r[k] == s[k];
    assert r[|s|] == x;
  }

  lemma CoversConcat(a: seq<Interval>, b: seq<Interval>, t: real)
    ensures Covers(a + b, t) <==> Covers(a, t) || Covers(b, t)
  {
    var r := a + b;
    assert forall k :: 0 <= k < |a| ==> r[k] == a[k];
    assert forall k :: 0 <= k < |b| ==> r[|a| + k] == b[k];
    assert forall k :: |a| <= k < |r| ==> r[k] == b[k - |a|];
  }

  lemma CoversMore(a: seq<Interval>, b: seq<Interval>, t: real)
    requires forall x :: x in a ==> x in b
    ensures Covers(a, t) ==> Covers(b, t)
  {
    if Covers(a, t) {
      var k :| 0 <= k < |a| && In(a[k], t);
      assert a[k] in b;
    }
  }

  lemma TidyAppend(s: seq<Interval>, x: Interval)
    requires Tidy(s) && x.start < x.end && (s == [] || s[|s| - 1].end <= x.start)
    ensures Tidy(s + [x])
  {
    forall k | 0 <= k < |s| ensures s[k].end <= x.start {
      assert k < |s| - 1 ==> s[k].end <= s[|s| - 1].start;
    }
  }

  lemma TidyConcat(a: seq<Interval>, b: seq<Interval>, bound: real)
    requires Tidy(a) && Tidy(b)
    requires forall k :: 0 <= k < |a| ==> a[k].end <= bound
    requires forall k :: 0 <= k < |b| ==> bound <= b[k].start
    ensures Tidy(a + b)
  {
  }

  /** Python's order on pairs. */
  predicate PairLe(a: Interval, b: Interval) {
    a.start < b.start || (a.start == b.start && a.end <= b.end)
  }

  ghost predicate ByStart(s: seq<Interval>) {
    forall j, k :: 0 <= j < k < |s| ==> s[j].start <= s[k].start
  }

  function Ordered(s: seq<Interval>): (r: seq<Interval>)
    ensures |r| == |s| && multiset(r) == multiset(s)
    ensures ByStart(r)
    ensures forall x :: x in r <==> x in s
    ensures forall t :: Covers(r, t) <==> Covers(s, t)
  {
    SortSorted(PairLe, s);
    SortMembers(PairLe, s);
    var r := Sort(PairLe, s);
    assert forall t :: Covers(r, t) <==> Covers(s, t) by {
      forall t ensures Covers(r, t) <==> Covers(s, t) {
        CoversMore(r, s, t);
        CoversMore(s, r, t);
      }
    }
    r
  }

  lemma OrderedIdentity(s: seq<Interval>)
    requires Tidy(s)
    ensures Ordered(s) == s
  {
    forall j, k | 0 <= j < k < |s| ensures PairLe(s[j], s[k]) {
      assert s[j].start < s[j].end <= s[k].start;
    }
    SortIdentity(PairLe, s);
  }

  // ----- the complement of cuts -----

  ghost predicate Forward(s: seq<Interval>) {
    forall k :: 0 <= k < |s| ==> s[k].start <= s[k].end
  }

  /** What lies before the cursor and outside the cuts. */
  ghost predicate Outside(cuts: seq<Interval>, low: real, high: real, t: real) {
    low <= t < high && !Covers(cuts, t)
  }

  ghost predicate OutsideExactly(r: seq<Interval>, cuts: seq<Interval>, low: real, high: real) {
    forall t :: Covers(r, t) <==> Outside(cuts, low, high, t)
  }

  ghost predicate EndBy(s: seq<Interval>, bound: real) {
    forall k :: 0 <= k < |s| ==> s[k].end <= bound
  }

  lemma NothingCovered(low: real)
    ensures OutsideExactly([], [], low, low)
  {
  }

  ghost predicate ClearFrom(s: seq<Interval>, low: real, high: real) {
    forall t :: low <= t < high ==> !Covers(s, t)
  }

  lemma EndByClear(s: seq<Interval>, bound: real, high: real)
    requires EndBy(s, bound)
    ensures ClearFrom(s, bound, high)
  {
  }

  /** Passing one cut, with the piece before it if there is room. */
  lemma PassCut(r: seq<Interval>, cuts: seq<Interval>, low: real, cursor: real, x: Interval, next: real)
    requires OutsideExactly(r, cuts, low, cursor) && low <= cursor <= next
    requires ClearFrom(cuts, cursor, next) && EndBy(r, x.start)
    requires forall t :: cursor <= t < next ==> (In(x, t) <==> t >= x.start)
    ensures x.start <= cursor ==> OutsideExactly(r, cuts + [x], low, next)
    ensures x.start > cursor ==>
      OutsideExactly(r + [Interval(cursor, if x.start < next then x.start else next)], cuts + [x], low, next)
  {
    var piece := Interval(cursor, if x.start < next then x.start else next);
    forall t
      ensures x.start <= cursor ==> (Covers(r, t) <==> Outside(cuts + [x], low, next, t))
      ensures x.start > cursor ==> (Covers(r + [piece], t) <==> Outside(cuts + [x], low, next, t))
    {
      CoversAppend(cuts, x, t);
      CoversAppend(r, piece, t);
      assert Covers(r, t) <==> Outside(cuts, low, cursor, t);
    }
  }

  lemma LastPiece(r: seq<Interval>, cuts: seq<Interval>, low: real, cursor: real, high: real)
    requires OutsideExactly(r, cuts, low, cursor) && low <= cursor && ClearFrom(cuts, cursor, high)
    ensures cursor < high ==> OutsideExactly(r + [Interval(cursor, high)], cuts, low, high)
    ensures cursor == high ==> OutsideExactly(r, cuts, low, high)
  {
    forall t ensures cursor < high ==> (Covers(r + [Interval(cursor, high)], t) <==> Outside(cuts, low, high, t)) {
      CoversAppend(r, Interval(cursor, high), t);
      assert Covers(r, t) <==> Outside(cuts, low, cursor, t);
    }
  }

  /** Some cut reaches from one instant to the other. */
  ghost predicate Bridge(cuts: seq<Interval>, from: real, to: real) {
    exists j :: 0 <= j < |cuts| && cuts[j].start == from && cuts[j].end <= to
  }

  /** Between neighbouring pieces lies a whole cut. */
  ghost predicate Bridged(s: seq<Interval>, cuts: seq<Interval>) {
    forall k :: 0 < k < |s| ==> Bridge(cuts, s[k - 1].end, s[k].start)
  }

  /** The pieces of [0, duration) between the cuts: exactly the instants that no cut covers. */
  method Complement(cuts: seq<Interval>, duration: real) returns (result: seq<Interval>)
    requires ByStart(cuts) && Forward(cuts) && Within(cuts, 0.0, duration) && 0.0 <= duration
    ensures OutsideExactly(result, cuts, 0.0, duration)
    ensures Tidy(result) && Within(result, 0.0, duration) && Bridged(result, cuts)
  {
    hide In, Covers, Outside, Tidy;
    var cursor := 0.0;
    result := [];
    NothingCovered(0.0);
    NoPieces();
    for k := 0 to |cuts|
      invariant 0.0 <= cursor <= duration && EndBy(cuts[..k], cursor)
      invariant OutsideExactly(result, cuts[..k], 0.0, cursor)
      invariant Tidy(result) && Within(result, 0.0, cursor)
      invariant result == [] || (k > 0 && result[|result| - 1].end <= cuts[k - 1].start)
      invariant Bridged(result, cuts)
      invariant result == [] || Bridge(cuts, result[|result| - 1].end, cursor)
    {
      var x := cuts[k];
      var next := if x.end > cursor then x.end else cursor;
      assert cuts[..k + 1] == cuts[..k] + [x];
      TidyEnds(result, x.start);
      UpTo(x, cursor, next);
      EndByClear(cuts[..k], cursor, next);
      PassCut(result, cuts[..k], 0.0, cursor, x, next);
      if x.start > cursor {
        TidyAppend(result, Interval(cursor, x.start));
        result := result + [Interval(cursor, x.start)];
      }
      cursor := next;
    }
    assert cuts[..|cuts|] == cuts;
    EndByClear(cuts, cursor, duration);
    LastPiece(result, cuts, 0.0, cursor, duration);
    if cursor < duration {
      TidyAppend(result, Interval(cursor, duration));
      result := result + [Interval(cursor, duration)];
    }
  }

  lemma TidyEnds(s: seq<Interval>, bound: real)
    requires Tidy(s) && (s == [] || s[|s| - 1].end <= bound)
    ensures EndBy(s, bound)
  {
    forall k | 0 <= k < |s| ensures s[k].end <= bound {
      assert k < |s| - 1 ==> s[k].end <= s[|s| - 1].start;
    }
  }

  lemma UpTo(x: Interval, cursor: real, next: real)
    requires x.start <= x.end && next == (if x.end > cursor then x.end else cursor)
    ensures forall t :: cursor <= t < next ==> (In(x, t) <==> t >= x.start)
  {
  }

  // ----- protection, exclusion, subtraction -----

  datatype BoundsError = InvalidBounds

  predicate ValidBounds(x: Interval, duration: real) {
    0.0 <= x.start < x.end <= duration
  }

  ghost predicate AllValid(s: seq<Interval>, duration: real) {
    forall k :: 0 <= k < |s| ==> ValidBounds(s[k], duration)
  }

  const MARGIN := 0.3

  /** A protected interval with its margin, clipped to the clip. */
  function Widened(x: Interval, duration: real): Interval {
    Interval(if x.start - MARGIN > 0.0 then x.start - MARGIN else 0.0,
             if x.end + MARGIN < duration then x.end + MARGIN else duration)
  }

  function WidenedAll(s: seq<Interval>, duration: real): (r: seq<Interval>)
    ensures |r| == |s| && forall k :: 0 <= k < |r| ==> r[k] == Widened(s[k], duration)
  {
    seq(|s|, k requires 0 <= k < |s| => Widened(s[k], duration))
  }

  /** Intervals with gaps between them. */
  ghost predicate Apart(s: seq<Interval>) {
    && (forall k :: 0 <= k < |s| ==> s[k].start < s[k].end)
    && (forall j, k :: 0 <= j < k < |s| ==> s[j].end < s[k].start)
  }

  ghost predicate SameCover(a: seq<Interval>, b: seq<Interval>) {
    forall t :: Covers(a, t) <==> Covers(b, t)
  }

  ghost predicate AllProper(s: seq<Interval>) {
    forall k :: 0 <= k < |s| ==> s[k].start < s[k].end
  }

  /** Merging intervals that touch or overlap. */
  method MergeOrdered(ordered: seq<Interval>, duration: real) returns (merged: seq<Interval>)
    requires ByStart(ordered)
    ensures SameCover(merged, ordered)
    ensures AllProper(ordered) ==> Apart(merged)
    ensures Within(ordered, 0.0, duration) ==> Within(merged, 0.0, duration)
  {
    hide In, Covers, Apart, Within, SameCover;
    merged := [];
    NoCover(duration);
    for k := 0 to |ordered|
      invariant SameCover(merged, ordered[..k])
      invariant if k == 0 then merged == [] else merged != [] && merged[|merged| - 1].start <= ordered[k - 1].start
      invariant AllProper(ordered) ==> Apart(merged)
      invariant Within(ordered, 0.0, duration) ==> Within(merged, 0.0, duration)
    {
      var x := ordered[k];
      assert ordered[..k + 1] == ordered[..k] + [x];
      var n := |merged|;
      if n > 0 && x.start <= merged[n - 1].end {
        var last := merged[n - 1];
        var longer := Interval(last.start, if x.end > last.end then x.end else last.end);
        assert ordered[k - 1].start <= x.start;
        assert merged == merged[..n - 1] + [last];
        MergeLast(merged[..n - 1], last, x, longer, ordered[..k]);
        LongerApart(merged, longer);
        LongerWithin(merged, longer, ordered, k, duration);
        merged := merged[..n - 1] + [longer];
      } else {
        MergeNew(merged, ordered[..k], x);
        NewApart(merged, x);
        NewWithin(merged, ordered, k, duration);
        merged := merged + [x];
      }
    }
    assert ordered[..|ordered|] == ordered;
  }

  lemma NoCover(duration: real)
    ensures SameCover([], []) && Apart([]) && Within([], 0.0, duration)
  {
  }

  lemma LongerApart(r: seq<Interval>, longer: Interval)
    requires r != [] && longer.start == r[|r| - 1].start && longer.end >= r[|r| - 1].end
    ensures Apart(r) ==> Apart(r[..|r| - 1] + [longer])
  {
  }

  lemma NewApart(r: seq<Interval>, x: Interval)
    requires r == [] || r[|r| - 1].end < x.start
    ensures Apart(r) && x.start < x.end ==> Apart(r + [x])
  {
    if Apart(r) && x.start < x.end {
      forall k | 0 <= k < |r| ensures r[k].end < x.start {
        assert k < |r| - 1 ==> r[k].end < r[|r| - 1].start;
      }
    }
  }

  lemma LongerWithin(r: seq<Interval>, longer: Interval, s: seq<Interval>, k: nat, duration: real)
    requires r != [] && k < |s| && longer.start == r[|r| - 1].start
    requires longer.end == r[|r| - 1].end || longer.end == s[k].end
    requires Within(s, 0.0, duration) ==> Within(r, 0.0, duration)
    ensures Within(s, 0.0, duration) ==> Within(r[..|r| - 1] + [longer], 0.0, duration)
  {
  }

  lemma NewWithin(r: seq<Interval>, s: seq<Interval>, k: nat, duration: real)
    requires k < |s|
    requires Within(s, 0.0, duration) ==> Within(r, 0.0, duration)
    ensures Within(s, 0.0, duration) ==> Within(r + [s[k]], 0.0, duration)
  {
  }

  lemma MergeNew(r: seq<Interval>, s: seq<Interval>, x: Interval)
    requires SameCover(r, s)
    ensures SameCover(r + [x], s + [x])
  {
    forall t ensures Covers(r + [x], t) <==> Covers(s + [x], t) {
      CoversAppend(r, x, t);
      CoversAppend(s, x, t);
    }
  }

  lemma MergeLast(r: seq<Interval>, last: Interval, x: Interval, longer: Interval, s: seq<Interval>)
    requires SameCover(r + [last], s) && last.start <= x.start <= last.end
    requires longer == Interval(last.start, if x.end > last.end then x.end else last.end)
    ensures SameCover(r + [longer], s + [x])
  {
    forall t ensures Covers(r + [longer], t) <==> Covers(s + [x], t) {
      CoversAppend(r, last, t);
      CoversAppend(r, longer, t);
      CoversAppend(s, x, t);
    }
  }

  /** The union of the kept intervals and the widened protected ones, as separate intervals. */
  method Protect(kept: seq<Interval>, protected: seq<Interval>, duration: real)
    returns (r: Result<seq<Interval>, BoundsError>)
    ensures r.Err? <==> !AllValid(protected, duration)
    ensures r.Ok? ==> SameCover(r.value, kept + WidenedAll(protected, duration))
    ensures r.Ok? && AllProper(kept) ==> Apart(r.value)
    ensures r.Ok? && Within(kept, 0.0, duration) ==> Within(r.value, 0.0, duration)
  {
    hide In, Covers;
    var combined := kept;
    for k := 0 to |protected|
      invariant AllValid(protected[..k], duration)
      invariant combined == kept + WidenedAll(protected[..k], duration)
    {
      if !ValidBounds(protected[k], duration) {
        return Err(InvalidBounds);
      }
      combined := combined + [Widened(protected[k], duration)];
      assert WidenedAll(protected[..k + 1], duration)
        == WidenedAll(protected[..k], duration) + [Widened(protected[k], duration)];
    }
    assert protected[..|protected|] == protected;
    var ordered := Ordered(combined);
    WidenedShape(protected, duration);
    MembersShape(kept, WidenedAll(protected, duration), ordered, duration);
    var merged := MergeOrdered(ordered, duration);
    return Ok(merged);
  }

  lemma WidenedShape(protected: seq<Interval>, duration: real)
    requires AllValid(protected, duration)
    ensures AllProper(WidenedAll(protected, duration)) && Within(WidenedAll(protected, duration), 0.0, duration)
  {
  }

  lemma MembersShape(a: seq<Interval>, b: seq<Interval>, r: seq<Interval>, duration: real)
    requires AllProper(b) && Within(b, 0.0, duration)
    requires forall x :: x in r <==> x in a + b
    ensures AllProper(a) ==> AllProper(r)
    ensures Within(a, 0.0, duration) ==> Within(r, 0.0, duration)
  {
    forall k | 0 <= k < |r| ensures r[k] in a || r[k] in b {
      assert r[k] in r;
    }
  }

  /** Some instant of x is covered. */
  ghost predicate Meets(x: Interval, s: seq<Interval>) {
    exists t :: In(x, t) && Covers(s, t)
  }

  predicate Overlaps(x: Interval, y: Interval) {
    x.start < y.end && x.end > y.start
  }

  lemma OverlapMeets(x: Interval, s: seq<Interval>)
    requires x.start < x.end && AllProper(s)
    ensures Meets(x, s) <==> exists k :: 0 <= k < |s| && Overlaps(x, s[k])
  {
    if k :| 0 <= k < |s| && Overlaps(x, s[k]) {
      var t := if x.start > s[k].start then x.start else s[k].start;
      assert In(x, t) && In(s[k], t);
    }
  }

  /** The removals that no protected instant touches, in order. */
  ghost function Unprotected(removals: seq<Interval>, protected: seq<Interval>): seq<Interval> {
    if removals == [] then []
    else
      var n := |removals| - 1;
      Unprotected(removals[..n], protected) + if Meets(removals[n], protected) then [] else [removals[n]]
  }

  lemma MeetsSame(x: Interval, a: seq<Interval>, b: seq<Interval>)
    requires SameCover(a, b)
    ensures Meets(x, a) <==> Meets(x, b)
  {
  }

  /** One protected instant anywhere inside a removal cancels the whole removal. */
  method Exclude(removals: seq<Interval>, protected: seq<Interval>, duration: real)
    returns (r: Result<seq<Interval>, BoundsError>)
    ensures r.Err? <==> !(AllValid(protected, duration) && AllValid(removals, duration))
    ensures r.Ok? ==> r.value == Unprotected(removals, WidenedAll(protected, duration))
  {
    hide In, Covers, Meets;
    var ranges := Protect([], protected, duration);
    if ranges.Err? {
      return Err(InvalidBounds);
    }
    assert [] + WidenedAll(protected, duration) == WidenedAll(protected, duration);
    var result := [];
    for k := 0 to |removals|
      invariant AllValid(removals[..k], duration)
      invariant result == Unprotected(removals[..k], WidenedAll(protected, duration))
    {
      var item := removals[k];
      if !ValidBounds(item, duration) {
        return Err(InvalidBounds);
      }
      assert removals[..k + 1][..k] == removals[..k];
      OverlapMeets(item, ranges.value);
      MeetsSame(item, ranges.value, WidenedAll(protected, duration));
      if !exists j :: 0 <= j < |ranges.value| && Overlaps(item, ranges.value[j]) {
        result := result + [item];
      }
    }
    assert removals[..|removals|] == removals;
    return Ok(result);
  }

  /** One kept interval without the cuts; the cuts may overlap each other in any way. */
  method SubtractOne(left: real, right: real, cuts: seq<Interval>) returns (part: seq<Interval>)
    requires ByStart(cuts) && AllProper(cuts)
    ensures OutsideExactly(part, cuts, left, right)
    ensures Tidy(part) && Within(part, left, right)
  {
    hide In, Covers, Outside, Tidy;
    part := [];
    if left >= right {
      EmptyRange(cuts, left, right);
      return [];
    }
    var cursor := left;
    NothingCovered(left);
    EndByClear([], cursor, right);
    NoPieces();
    var k := 0;
    while k < |cuts|
      invariant k <= |cuts| && left <= cursor <= right
      invariant OutsideExactly(part, cuts[..k], left, cursor) && ClearFrom(cuts[..k], cursor, right)
      invariant Tidy(part) && Within(part, left, cursor)
      invariant part == [] || (k > 0 && part[|part| - 1].end <= cuts[k - 1].start)
      decreases |cuts| - k
    {
      var x := cuts[k];
      assert cuts[..k + 1] == cuts[..k] + [x];
      TidyEnds(part, x.start);
      if x.end <= cursor {
        PastClear(cuts[..k], x, cursor, right);
        EmptyUpTo(x, cursor);
        NarrowClear(cuts[..k], cursor, right, cursor);
        PassCut(part, cuts[..k], left, cursor, x, cursor);
        k := k + 1;
        continue;
      }
      if x.start >= right {
        break;
      }
      var further := if x.end > cursor then x.end else cursor;
      var next := if right < further then right else further;
      ReachUpTo(x, cursor, next);
      NarrowClear(cuts[..k], cursor, right, next);
      PassCut(part, cuts[..k], left, cursor, x, next);
      NextClear(cuts[..k], x, cursor, right, next);
      if x.start > cursor {
        var piece := Interval(cursor, if x.start < right then x.start else right);
        PieceFits(part, piece, cursor);
        part := part + [piece];
      }
      cursor := next;
      k := k + 1;
    }
    RestClear(cuts, k, cursor, right);
    WholeOutside(part, cuts, k, left, cursor, right);
    LastPiece(part, cuts, left, cursor, right);
    if cursor < right {
      PieceFits(part, Interval(cursor, right), cursor);
      part := part + [Interval(cursor, right)];
    }
  }

  lemma NoPieces()
    ensures Tidy([])
  {
  }

  lemma EmptyRange(cuts: seq<Interval>, left: real, right: real)
    requires left >= right
    ensures OutsideExactly([], cuts, left, right) && Tidy([])
  {
  }

  lemma PastClear(s: seq<Interval>, x: Interval, cursor: real, high: real)
    requires ClearFrom(s, cursor, high) && x.end <= cursor
    ensures ClearFrom(s + [x], cursor, high)
  {
    forall t | cursor <= t < high ensures !Covers(s + [x], t) {
      CoversAppend(s, x, t);
    }
  }

  lemma NarrowClear(s: seq<Interval>, low: real, high: real, lower: real)
    requires ClearFrom(s, low, high) && lower <= high
    ensures ClearFrom(s, low, lower)
  {
  }

  lemma NextClear(s: seq<Interval>, x: Interval, cursor: real, high: real, next: real)
    requires ClearFrom(s, cursor, high) && cursor <= next <= high && (next == high || x.end <= next)
    ensures ClearFrom(s + [x], next, high)
  {
    forall t | next <= t < high ensures !Covers(s + [x], t) {
      CoversAppend(s, x, t);
    }
  }

  lemma EmptyUpTo(x: Interval, cursor: real)
    ensures forall t :: cursor <= t < cursor ==> (In(x, t) <==> t >= x.start)
  {
  }

  lemma ReachUpTo(x: Interval, cursor: real, next: real)
    requires next <= x.end
    ensures forall t :: cursor <= t < next ==> (In(x, t) <==> t >= x.start)
  {
  }

  lemma PieceFits(part: seq<Interval>, piece: Interval, cursor: real)
    requires Tidy(part) && EndBy(part, cursor) && cursor == piece.start < piece.end
    ensures Tidy(part + [piece])
  {
    TidyAppend(part, piece);
  }

  /** The cuts that the loop never looked at start too late to matter. */
  lemma RestClear(cuts: seq<Interval>, k: nat, cursor: real, right: real)
    requires k <= |cuts| && ByStart(cuts) && ClearFrom(cuts[..k], cursor, right)
    requires k == |cuts| || cuts[k].start >= right
    ensures ClearFrom(cuts, cursor, right)
    ensures forall t :: t < right ==> (Covers(cuts, t) <==> Covers(cuts[..k], t))
  {
    assert cuts == cuts[..k] + cuts[k..];
    forall t | t < right ensures Covers(cuts, t) <==> Covers(cuts[..k], t) {
      CoversConcat(cuts[..k], cuts[k..], t);
      forall j | 0 <= j < |cuts[k..]| ensures !In(cuts[k..][j], t) {
        assert cuts[k].start <= cuts[k + j].start;
      }
    }
  }

  lemma WholeOutside(part: seq<Interval>, cuts: seq<Interval>, k: nat, left: real, cursor: real, right: real)
    requires k <= |cuts| && cursor <= right && OutsideExactly(part, cuts[..k], left, cursor)
    requires forall t :: t < right ==> (Covers(cuts, t) <==> Covers(cuts[..k], t))
    ensures OutsideExactly(part, cuts, left, cursor)
  {
  }
}
