/**
 `translate` on a list with placeholders for refused content and other captions: the placeholders are taken out, the
 rest is translated, and a stable sort by start puts them back.
 */
module Placeholders {
  import opened Wrappers
  import opened Sorting
  import opened Layout

  /** Positions 0..n-1 of the list, of the placeholders or of the others, in order. */
  function Positions(segments: seq<Segment>, mark: string, held: bool, n: nat): (r: seq<nat>)
    requires n <= |segments|
    ensures forall k: nat :: k in r <==> k < n && (segments[k].text == mark) == held
    ensures forall j, k :: 0 <= j < k < |r| ==> r[j] < r[k]
  {
    if n == 0 then []
    else
      var before := Positions(segments, mark, held, n - 1);
      assert forall j :: 0 <= j < |before| ==> before[j] in before;
      if (segments[n - 1].text == mark) == held then before + [n - 1] else before
  }

  function Kept(segments: seq<Segment>, mark: string): seq<nat> {
    Positions(segments, mark, false, |segments|)
  }

  function Held(segments: seq<Segment>, mark: string): seq<nat> {
    Positions(segments, mark, true, |segments|)
  }

  /** The captions at some positions. */
  function At(segments: seq<Segment>, positions: seq<nat>): (r: seq<Segment>) {
    Image((i: nat) => Pick(segments, i), positions)
  }

  const NOTHING := Segment(0.0, 0.0, "", None)

  function Pick(segments: seq<Segment>, i: nat): Segment {
    if i < |segments| then segments[i] else NOTHING
  }

  lemma AtAppend(segments: seq<Segment>, positions: seq<nat>, k: nat)
    requires k < |segments|
    ensures At(segments, positions + [k]) == At(segments, positions) + [segments[k]]
  {
  }

  /** The placeholders of the list, or the other captions, in order. */
  method Select(segments: seq<Segment>, mark: string, held: bool) returns (r: seq<Segment>)
    ensures r == At(segments, Positions(segments, mark, held, |segments|))
  {
    hide Pick;
    r := [];
    for k := 0 to |segments|
      invariant r == At(segments, Positions(segments, mark, held, k))
    {
      AtAppend(segments, Positions(segments, mark, held, k), k);
      if (segments[k].text == mark) == held {
        r := r + [segments[k]];
      }
    }
  }

  function ByStart(segments: seq<Segment>): (nat, nat) -> bool {
    (a: nat, b: nat) => StartsNoLater(Pick(segments, a), Pick(segments, b))
  }

  /** Where each caption ends up: kept captions and placeholders, concatenated and sorted by start. */
  function Final(segments: seq<Segment>, mark: string): (r: seq<nat>)
    ensures multiset(r) == multiset(Kept(segments, mark)) + multiset(Held(segments, mark))
  {
    Sort(ByStart(segments), Kept(segments, mark) + Held(segments, mark))
  }

  // ----- where a stable sort puts two ascending runs -----

  /** The order of the concatenation: kept captions first, each part in the input's order. */
  predicate Earlier(segments: seq<Segment>, mark: string, a: nat, b: nat) {
    var heldA, heldB := Pick(segments, a).text == mark, Pick(segments, b).text == mark;
    if heldA == heldB then a < b else heldB
  }

  /** Strictly before in the recombined list. */
  predicate Precedes(segments: seq<Segment>, mark: string, a: nat, b: nat) {
    var startA, startB := Pick(segments, a).start, Pick(segments, b).start;
    startA < startB || (startA == startB && Earlier(segments, mark, a, b))
  }

  function Before(segments: seq<Segment>, mark: string): (nat, nat) -> bool {
    (a: nat, b: nat) => Precedes(segments, mark, a, b)
  }

  lemma NoPositions(segments: seq<Segment>, mark: string)
    ensures Positions(segments, mark, false, 0) == [] && Positions(segments, mark, true, 0) == []
  {
  }

  lemma PositionsGrow(segments: seq<Segment>, mark: string, held: bool, n: nat)
    requires 0 < n <= |segments|
    ensures multiset(Positions(segments, mark, held, n)) == multiset(Positions(segments, mark, held, n - 1))
      + (if (segments[n - 1].text == mark) == held then multiset{n - 1} else multiset{})
  {
  }

  lemma {:induction false} PositionsPart(segments: seq<Segment>, mark: string, n: nat)
    requires n <= |segments|
    ensures multiset(Positions(segments, mark, false, n)) + multiset(Positions(segments, mark, true, n))
      == multiset(Upto(n))
  {
    hide Positions;
    if n == 0 {
      NoPositions(segments, mark);
    } else {
      PositionsPart(segments, mark, n - 1);
      assert Upto(n) == Upto(n - 1) + [n - 1];
      PositionsGrow(segments, mark, false, n);
      PositionsGrow(segments, mark, true, n);
    }
  }

  lemma RunsEarlier(segments: seq<Segment>, mark: string)
    ensures var all := Kept(segments, mark) + Held(segments, mark);
      forall j, k :: 0 <= j < k < |all| ==> Earlier(segments, mark, all[j], all[k])
  {
    hide Positions;
    var kept, held := Kept(segments, mark), Held(segments, mark);
    var all := kept + held;
    forall k | 0 <= k < |all|
      ensures all[k] < |segments| && (segments[all[k]].text == mark <==> k >= |kept|)
    {
      if k < |kept| {
        assert all[k] in kept;
      } else {
        assert all[k] == held[k - |kept|] && all[k] in held;
      }
    }
    forall j, k | 0 <= j < k < |all| ensures Earlier(segments, mark, all[j], all[k]) {
      if k < |kept| {
        assert kept[j] < kept[k];
      } else if j >= |kept| {
        assert held[j - |kept|] < held[k - |kept|];
      }
    }
  }

  /** Starts never decrease, and a caption after a placeholder with the same start is a placeholder too. */
  predicate PlaceholdersLast(segments: seq<Segment>, mark: string) {
    forall i, j :: 0 <= i < j < |segments| ==> InPlace(segments[i], segments[j], mark)
  }

  predicate InPlace(a: Segment, b: Segment, mark: string) {
    a.start <= b.start && (a.text == mark && b.text != mark ==> a.start < b.start)
  }

  lemma InOrderMeaning(segments: seq<Segment>, mark: string)
    ensures Sorted(Before(segments, mark), Upto(|segments|)) <==> PlaceholdersLast(segments, mark)
  {
    var all := Upto(|segments|);
    forall i, j | 0 <= i < j < |segments|
      ensures Precedes(segments, mark, all[i], all[j]) <==> InPlace(segments[i], segments[j], mark)
    {
    }
  }

  /**
   Taking the placeholders out and putting them back leaves every caption at its position if and only if starts never
   decrease and no placeholder comes before another caption with the same start.
   */
  lemma BackInPlace(segments: seq<Segment>, mark: string)
    ensures Final(segments, mark) == Upto(|segments|) <==> PlaceholdersLast(segments, mark)
  {
    hide Sort, Positions;
    var final := Final(segments, mark);
    var before := Before(segments, mark);
    RunsEarlier(segments, mark);
    SortStable(ByStart(segments), before, Kept(segments, mark) + Held(segments, mark));
    PositionsPart(segments, mark, |segments|);
    InOrderMeaning(segments, mark);
    if Sorted(before, Upto(|segments|)) {
      SortedUnique(before, final, Upto(|segments|));
    }
  }

  /** Strictly increasing starts always meet the condition. */
  lemma StrictStarts(segments: seq<Segment>, mark: string)
    requires forall i, j :: 0 <= i < j < |segments| ==> segments[i].start < segments[j].start
    ensures Final(segments, mark) == Upto(|segments|)
  {
    BackInPlace(segments, mark);
  }

  // ----- from positions to captions -----

  /** The same list with other captions translated: nothing but texts differs, and placeholders do not differ. */
  ghost predicate TranslatedInPlace(segments: seq<Segment>, mark: string, whole: seq<Segment>) {
    && |whole| == |segments|
    && forall i :: 0 <= i < |segments| ==>
      && whole[i].(text := segments[i].text) == segments[i]
      && (segments[i].text == mark ==> whole[i] == segments[i])
  }

  /** Translated captions followed by placeholders, sorted by start. */
  function Recombined(translated: seq<Segment>, placeholders: seq<Segment>): seq<Segment> {
    Sort(StartsNoLater, translated + placeholders)
  }

  /** A list with placeholders, translated, is the translated list in the order of `Final`, whatever that order is. */
  lemma RecombinedOrder(segments: seq<Segment>, mark: string, whole: seq<Segment>)
    requires TranslatedInPlace(segments, mark, whole)
    ensures Recombined(At(whole, Kept(segments, mark)), At(segments, Held(segments, mark)))
      == At(whole, Final(segments, mark))
  {
    hide Sort, Positions;
    var kept, held := Kept(segments, mark), Held(segments, mark);
    SortImage(ByStart(segments), StartsNoLater, (i: nat) => Pick(whole, i), kept + held);
    forall k | 0 <= k < |held| ensures Pick(whole, held[k]) == Pick(segments, held[k]) {
      assert held[k] in held;
    }
    assert At(whole, kept + held) == At(whole, kept) + At(segments, held);
  }

  // ----- the place of a kept caption among the kept ones -----

  /** How many captions before the i-th are kept. */
  function Rank(segments: seq<Segment>, mark: string, i: nat): nat
    requires i <= |segments|
  {
    |Positions(segments, mark, false, i)|
  }

  lemma {:induction false} PositionsPrefix(segments: seq<Segment>, mark: string, held: bool, i: nat, n: nat)
    requires i <= n <= |segments|
    ensures Positions(segments, mark, held, i) <= Positions(segments, mark, held, n)
  {
    hide Positions;
    if i < n {
      PositionsPrefix(segments, mark, held, i, n - 1);
      PositionsNext(segments, mark, held, n - 1);
    }
  }

  lemma PositionsNext(segments: seq<Segment>, mark: string, held: bool, n: nat)
    requires n < |segments|
    ensures Positions(segments, mark, held, n + 1)
      == Positions(segments, mark, held, n) + if (segments[n].text == mark) == held then [n] else []
  {
  }

  lemma KeptRank(segments: seq<Segment>, mark: string, i: nat)
    requires i < |segments| && segments[i].text != mark
    ensures Rank(segments, mark, i) < |Kept(segments, mark)| && Kept(segments, mark)[Rank(segments, mark, i)] == i
  {
    hide Positions;
    PositionsPrefix(segments, mark, false, i + 1, |segments|);
    PositionsNext(segments, mark, false, i);
  }

  lemma RankKept(segments: seq<Segment>, mark: string, k: nat)
    requires k < |Kept(segments, mark)|
    ensures var i := Kept(segments, mark)[k];
      i < |segments| && segments[i].text != mark && Rank(segments, mark, i) == k
  {
    hide Positions;
    var kept := Kept(segments, mark);
    assert kept[k] in kept;
    KeptRank(segments, mark, kept[k]);
  }
}
