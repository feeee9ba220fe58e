/** Python's `sorted`: a stable sort under a comparison that is a total preorder. */
module Sorting {
  ghost predicate TotalPreorder<T(!new)>(le: (T, T) -> bool) {
    && (forall a, b :: le(a, b) || le(b, a))
    && (forall a, b, c :: le(a, b) && le(b, c) ==> le(a, c))
  }

  ghost predicate Sorted<T>(le: (T, T) -> bool, s: seq<T>) {
    forall i, j :: 0 <= i < j < |s| ==> le(s[i], s[j])
  }

  /** Places x behind every element that is not greater than it. */
  function Insert<T>(le: (T, T) -> bool, s: seq<T>, x: T): (r: seq<T>)
    ensures |r| == |s| + 1
    ensures multiset(r) == multiset(s) + multiset{x}
  {
    if s == [] then [x]
    else
      var n := |s| - 1;
      assert s == s[..n] + [s[n]];
      if le(s[n], x) then s + [x] else Insert(le, s[..n], x) + [s[n]]
  }

  function Sort<T>(le: (T, T) -> bool, s: seq<T>): (r: seq<T>)
    ensures |r| == |s|
    ensures multiset(r) == multiset(s)
  {
    if s == [] then []
    else
      var n := |s| - 1;
      assert s == s[..n] + [s[n]];
      Insert(le, Sort(le, s[..n]), s[n])
  }

  lemma SortedAppend<T>(before: (T, T) -> bool, s: seq<T>, x: T)
    requires Sorted(before, s) && forall k :: 0 <= k < |s| ==> before(s[k], x)
    ensures Sorted(before, s + [x])
  {
  }

  lemma InsertMember<T>(le: (T, T) -> bool, s: seq<T>, x: T, k: nat)
    requires k <= |s|
    ensures Insert(le, s, x)[k] == x || exists j :: 0 <= j < |s| && s[j] == Insert(le, s, x)[k]
  {
    assert Insert(le, s, x)[k] in multiset(s) + multiset{x};
  }

  lemma {:induction false} InsertSorted<T(!new)>(le: (T, T) -> bool, s: seq<T>, x: T)
    requires TotalPreorder(le)
    requires Sorted(le, s)
    ensures Sorted(le, Insert(le, s, x))
  {
    if s == [] {
      assert Insert(le, s, x) == [x];
    } else {
      var n := |s| - 1;
      if le(s[n], x) {
        forall k | 0 <= k < |s| ensures le(s[k], x) {
          assert k < n ==> le(s[k], s[n]);
        }
        SortedAppend(le, s, x);
      } else {
        InsertSorted(le, s[..n], x);
        var r := Insert(le, s[..n], x);
        forall k | 0 <= k < |r| ensures le(r[k], s[n]) {
          InsertMember(le, s[..n], x, k);
        }
        SortedAppend(le, r, s[n]);
      }
    }
  }

  lemma {:induction false} SortSorted<T(!new)>(le: (T, T) -> bool, s: seq<T>)
    requires TotalPreorder(le)
    ensures Sorted(le, Sort(le, s))
  {
    if s != [] {
      var n := |s| - 1;
      SortSorted(le, s[..n]);
      InsertSorted(le, Sort(le, s[..n]), s[n]);
    }
  }

  lemma {:induction false} SortIdentity<T>(le: (T, T) -> bool, s: seq<T>)
    requires Sorted(le, s)
    ensures Sort(le, s) == s
  {
    if s != [] {
      var n := |s| - 1;
      assert s == s[..n] + [s[n]];
      SortIdentity(le, s[..n]);
      if n > 0 {
        assert le(s[n - 1], s[n]);
      }
    }
  }

  // ----- stability -----

  /**
   `before` refines the order: among elements that are not greater than each other, the one listed first comes first.
   */
  ghost predicate Breaks<T>(le: (T, T) -> bool, before: (T, T) -> bool, earlier: T, later: T) {
    if le(earlier, later) then before(earlier, later) else before(later, earlier)
  }

  lemma {:induction false} InsertStable<T(!new)>(le: (T, T) -> bool, before: (T, T) -> bool, s: seq<T>, x: T)
    requires TotalPreorder(le) && Sorted(le, s) && Sorted(before, s)
    requires forall k :: 0 <= k < |s| ==> Breaks(le, before, s[k], x)
    ensures Sorted(before, Insert(le, s, x))
  {
    if s == [] {
      assert Insert(le, s, x) == [x];
    } else {
      var n := |s| - 1;
      assert Breaks(le, before, s[n], x);
      if le(s[n], x) {
        forall k | 0 <= k < |s| ensures before(s[k], x) {
          assert Breaks(le, before, s[k], x);
          assert k < n ==> le(s[k], s[n]);
        }
        SortedAppend(before, s, x);
      } else {
        InsertStable(le, before, s[..n], x);
        var r := Insert(le, s[..n], x);
        forall k | 0 <= k < |r| ensures before(r[k], s[n]) {
          InsertMember(le, s[..n], x, k);
        }
        SortedAppend(before, r, s[n]);
      }
    }
  }

  /** The sort is stable: it chains every order that agrees with `le` and otherwise with the order of the input. */
  lemma {:induction false} SortStable<T(!new)>(le: (T, T) -> bool, before: (T, T) -> bool, s: seq<T>)
    requires TotalPreorder(le)
    requires forall i, j :: 0 <= i < j < |s| ==> Breaks(le, before, s[i], s[j])
    ensures Sorted(before, Sort(le, s))
  {
    if s != [] {
      var n := |s| - 1;
      SortStable(le, before, s[..n]);
      SortSorted(le, s[..n]);
      var t := Sort(le, s[..n]);
      forall k | 0 <= k < |t| ensures Breaks(le, before, t[k], s[n]) {
        assert t[k] in multiset(t);
        assert t[k] in s[..n];
        var j :| 0 <= j < n && s[..n][j] == t[k];
        assert Breaks(le, before, s[j], s[n]);
      }
      InsertStable(le, before, t, s[n]);
    }
  }

  lemma FirstOfTwo<T(!new)>(before: (T, T) -> bool, s: seq<T>, t: seq<T>)
    requires forall a, b :: before(a, b) ==> !before(b, a)
    requires Sorted(before, s) && Sorted(before, t) && multiset(s) == multiset(t) && s != [] && t != []
    ensures s[0] == t[0]
  {
    assert s[0] in multiset(t) && t[0] in multiset(s);
    var j :| 0 <= j < |t| && t[j] == s[0];
    var k :| 0 <= k < |s| && s[k] == t[0];
    assert j > 0 ==> before(t[0], t[j]);
    assert k > 0 ==> before(s[0], s[k]);
  }

  lemma RestOfMultiset<T>(s: seq<T>)
    requires s != []
    ensures multiset(s[1..]) == multiset(s) - multiset{s[0]}
  {
    assert s == [s[0]] + s[1..];
    assert multiset(s) == multiset{s[0]} + multiset(s[1..]);
  }

  lemma SortedTail<T>(before: (T, T) -> bool, s: seq<T>)
    requires Sorted(before, s) && s != []
    ensures Sorted(before, s[1..])
  {
  }

  /** An asymmetric order chains the elements of a multiset in one way at most. */
  lemma {:induction false} SortedUnique<T(!new)>(before: (T, T) -> bool, s: seq<T>, t: seq<T>)
    requires forall a, b :: before(a, b) ==> !before(b, a)
    requires Sorted(before, s) && Sorted(before, t) && multiset(s) == multiset(t)
    ensures s == t
  {
    hide Sorted;
    assert |multiset(s)| == |s| && |multiset(t)| == |t|;
    if s != [] {
      FirstOfTwo(before, s, t);
      RestOfMultiset(s);
      RestOfMultiset(t);
      SortedTail(before, s);
      SortedTail(before, t);
      assert s == [s[0]] + s[1..] && t == [t[0]] + t[1..];
      SortedUnique(before, s[1..], t[1..]);
    }
  }

  // ----- sorting images -----

  function Image<T, U>(f: T -> U, s: seq<T>): (r: seq<U>)
    ensures |r| == |s|
    ensures forall k :: 0 <= k < |r| ==> r[k] == f(s[k])
  {
    seq(|s|, k requires 0 <= k < |s| => f(s[k]))
  }

  lemma {:induction false} InsertImage<T(!new), U>(leT: (T, T) -> bool, leU: (U, U) -> bool, f: T -> U, s: seq<T>, x: T)
    requires forall a, b :: leT(a, b) == leU(f(a), f(b))
    ensures Image(f, Insert(leT, s, x)) == Insert(leU, Image(f, s), f(x))
  {
    if s != [] {
      var n := |s| - 1;
      assert Image(f, s)[..n] == Image(f, s[..n]);
      InsertImage(leT, leU, f, s[..n], x);
    }
  }

  lemma {:induction false} SortImage<T(!new), U>(leT: (T, T) -> bool, leU: (U, U) -> bool, f: T -> U, s: seq<T>)
    requires forall a, b :: leT(a, b) == leU(f(a), f(b))
    ensures Image(f, Sort(leT, s)) == Sort(leU, Image(f, s))
  {
    if s != [] {
      var n := |s| - 1;
      assert Image(f, s)[..n] == Image(f, s[..n]);
      SortImage(leT, leU, f, s[..n]);
      InsertImage(leT, leU, f, Sort(leT, s[..n]), s[n]);
    }
  }

  lemma SortMembers<T>(le: (T, T) -> bool, s: seq<T>)
    ensures forall x :: x in Sort(le, s) <==> x in s
  {
    forall x ensures x in Sort(le, s) <==> x in s {
      assert x in multiset(Sort(le, s)) <==> x in multiset(s);
    }
  }

  lemma {:induction false} LeastExists(s: set<nat>, y: nat)
    requires y in s
    ensures exists m :: m in s && forall x :: x in s ==> m <= x
    decreases y
  {
    if x :| x in s && x < y {
      LeastExists(s, x);
    }
  }

  /** The numbers below n, in order. */
  function Upto(n: nat): (r: seq<nat>)
    ensures |r| == n && forall k :: 0 <= k < n ==> r[k] == k
  {
    seq(n, k requires 0 <= k < n => k)
  }

  /** The elements of a finite set of naturals in ascending order. */
  ghost predicate IsAscending(r: seq<nat>) {
    forall i, j :: 0 <= i < j < |r| ==> r[i] < r[j]
  }

  function Least(s: set<nat>): (m: nat)
    requires s != {}
    ensures m in s && forall x :: x in s ==> m <= x
  {
    assert exists y :: y in s;
    ghost var y :| y in s;
    LeastExists(s, y);
    var m :| m in s && forall x :: x in s ==> m <= x;
    m
  }

  function Ascending(s: set<nat>): (r: seq<nat>)
    ensures forall x :: x in r <==> x in s
    ensures IsAscending(r)
    decreases s
  {
    if s == {} then []
    else
      var m := Least(s);
      var rest := Ascending(s - {m});
      assert forall i :: 0 <= i < |rest| ==> rest[i] in s - {m};
      [m] + rest
  }

  /** An ascending list without repetitions is determined by its elements. */
  lemma {:induction false} AscendingUnique(a: seq<nat>, b: seq<nat>)
    requires IsAscending(a) && IsAscending(b)
    requires forall x :: x in a <==> x in b
    ensures a == b
  {
    assert forall i :: 0 <= i < |a| ==> a[i] in a;
    assert forall i :: 0 <= i < |b| ==> b[i] in b;
    if a != [] && b != [] {
      forall x ensures x in a[1..] <==> x in b[1..] {
        assert x in a[1..] <==> x in a && x != a[0];
        assert x in b[1..] <==> x in b && x != b[0];
      }
      AscendingUnique(a[1..], b[1..]);
    }
  }
}
