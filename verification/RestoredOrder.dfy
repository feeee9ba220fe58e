/** Captions restored from the packed clock need not be in order of start, and then placeholders reorder them. */
module RestoredOrder {
  import opened Wrappers
  import opened Sorting
  import opened Intervals
  import opened Timeline
  import opened Layout
  import opened PackedTimeline
  import opened Placeholders
  import opened TranslationWhole

  /** Thirty seconds were removed behind the first fifty. */
  const SPANS := [Span(0.0, 50.0, 0.0, 50.0), Span(50.0, 120.0, 80.0, 150.0)]

  /** A sentence across the removed audio, one that overlaps its beginning, and a refused window. */
  function Spoken(mark: string): seq<Segment> {
    [Segment(40.0, 55.0, "a", None), Segment(45.0, 46.0, "b", None), Segment(60.0, 120.0, mark, None)]
  }

  /** The first sentence comes back in two pieces, the second of which starts after the other sentence. */
  function BackOnClock(mark: string): seq<Segment> {
    [Segment(40.0, 50.0, "a", None), Segment(80.0, 85.0, "a", None),
     Segment(45.0, 46.0, "b", None), Segment(90.0, 150.0, mark, None)]
  }

  lemma PiecesInTwo(start: real, end: real)
    ensures Pieces(start, end, SPANS) ==
      (var before := if Reaches(start, end, SPANS[0]) then [Piece(start, end, SPANS[0])] else [];
       if Reaches(start, end, SPANS[1]) then Extended(before, Piece(start, end, SPANS[1])) else before)
  {
    assert SPANS[..1] == [SPANS[0]] && [SPANS[0]][..0] == [];
    assert Extended([], Piece(start, end, SPANS[0])) == [Piece(start, end, SPANS[0])];
    assert Pieces(start, end, [SPANS[0]])
      == if Reaches(start, end, SPANS[0]) then [Piece(start, end, SPANS[0])] else [];
  }

  lemma RestoredOne(s: Segment, x: Interval)
    ensures Restored(s, [x]) == if Lasts(x) then [s.(start := x.start, end := x.end)] else []
  {
    assert [x][..0] == [] && Restored(s, []) == [];
  }

  lemma RestoredTwo(s: Segment, x: Interval, y: Interval)
    requires Lasts(x) && Lasts(y)
    ensures Restored(s, [x, y]) == [s.(start := x.start, end := x.end), s.(start := y.start, end := y.end)]
  {
    assert [x, y][..1] == [x];
    RestoredOne(s, x);
  }

  lemma WholeSeconds(a: real, b: real)
    requires a + 1.0 <= b
    ensures Lasts(Interval(a, b))
  {
  }

  lemma RestoredAppend(cues: seq<Segment>, s: Segment)
    ensures RestoredAll(cues + [s], SPANS) == RestoredAll(cues, SPANS) + Restored(s, Pieces(s.start, s.end, SPANS))
  {
    assert (cues + [s])[..|cues|] == cues;
  }

  lemma PieceOf(start: real, end: real, s: Span, x: Interval)
    requires x.start < x.end
    requires x.start == s.originalStart + Later(start, s.processedStart) - s.processedStart
    requires x.end == s.originalStart + Sooner(end, s.processedEnd) - s.processedStart
    ensures Reaches(start, end, s) && Piece(start, end, s) == x
  {
  }

  lemma ApartPieces(x: Interval, y: Interval)
    requires y.start >= x.end + 1.0
    ensures Extended([x], y) == [x, y]
  {
  }

  lemma CrossingPieces()
    ensures Pieces(40.0, 55.0, SPANS) == [Interval(40.0, 50.0), Interval(80.0, 85.0)]
  {
    hide Pieces, Piece, Reaches, Extended;
    PiecesInTwo(40.0, 55.0);
    PieceOf(40.0, 55.0, SPANS[0], Interval(40.0, 50.0));
    PieceOf(40.0, 55.0, SPANS[1], Interval(80.0, 85.0));
    ApartPieces(Interval(40.0, 50.0), Interval(80.0, 85.0));
  }

  lemma InnerPieces()
    ensures Pieces(45.0, 46.0, SPANS) == [Interval(45.0, 46.0)]
    ensures Pieces(60.0, 120.0, SPANS) == [Interval(90.0, 150.0)]
  {
    hide Pieces, Piece, Extended;
    PiecesInTwo(45.0, 46.0);
    PiecesInTwo(60.0, 120.0);
    PieceOf(45.0, 46.0, SPANS[0], Interval(45.0, 46.0));
    PieceOf(60.0, 120.0, SPANS[1], Interval(90.0, 150.0));
    LonePiece(Interval(90.0, 150.0));
  }

  lemma LonePiece(x: Interval)
    ensures Extended([], x) == [x]
  {
  }

  lemma RestoredSpoken(mark: string)
    ensures RestoredAll(Spoken(mark), SPANS) == BackOnClock(mark)
  {
    hide Lasts, Restored, Pieces, RestoredAll;
    var cues := Spoken(mark);
    CrossingPieces();
    InnerPieces();
    WholeSeconds(40.0, 50.0);
    WholeSeconds(80.0, 85.0);
    WholeSeconds(45.0, 46.0);
    WholeSeconds(90.0, 150.0);
    RestoredTwo(cues[0], Interval(40.0, 50.0), Interval(80.0, 85.0));
    RestoredOne(cues[1], Interval(45.0, 46.0));
    RestoredOne(cues[2], Interval(90.0, 150.0));
    RestoredAppend([], cues[0]);
    RestoredAppend([cues[0]], cues[1]);
    RestoredAppend([cues[0], cues[1]], cues[2]);
    assert [] + [cues[0]] == [cues[0]] && [cues[0]] + [cues[1]] == [cues[0], cues[1]]
      && [cues[0], cues[1]] + [cues[2]] == cues;
    NothingRestored();
  }

  lemma NothingRestored()
    ensures RestoredAll([], SPANS) == []
  {
  }

  lemma BothKinds(mark: string)
    requires mark != "a"
    ensures 0 in Kept(BackOnClock(mark), mark) && 3 in Held(BackOnClock(mark), mark)
  {
  }

  lemma StartsTotal()
    ensures TotalPreorder(StartsNoLater)
  {
  }

  lemma SpansChained()
    ensures Chained(SPANS)
  {
  }

  /** The outcome for a mixed list is sorted by start. */
  lemma MixedSorted(segments: seq<Segment>, mark: string, merged: seq<Segment>)
    requires Kept(segments, mark) != [] && Held(segments, mark) != []
    ensures Sorted(StartsNoLater, Outcome(segments, mark, merged))
  {
    hide Sort, Kept, Held, At, Sorted;
    StartsTotal();
    SortSorted(StartsNoLater, merged + At(segments, Held(segments, mark)));
  }

  lemma OutOfOrder(mark: string)
    requires mark != "b"
    ensures !Sorted(StartsNoLater, BackOnClock(mark)) && !PlaceholdersLast(BackOnClock(mark), mark)
  {
    var back := BackOnClock(mark);
    assert !StartsNoLater(back[1], back[2]);
    assert !InPlace(back[1], back[2], mark);
  }

  /**
   A list that restoring can produce, with one placeholder: even when every text comes back as it was, the result is
   another list, because sorting by start moves the second piece behind the other sentence.
   */
  lemma PlaceholdersReorder(mark: string)
    requires mark != "a" && mark != "b"
    ensures Chained(SPANS) && RestoredAll(Spoken(mark), SPANS) == BackOnClock(mark)
    ensures !AllStay(BackOnClock(mark), mark) && Places(BackOnClock(mark), mark) != Upto(4)
    ensures Outcome(BackOnClock(mark), mark, At(BackOnClock(mark), Kept(BackOnClock(mark), mark))) != BackOnClock(mark)
  {
    hide Kept, Held, At, RestoredAll, Chained, Sorted, PlaceholdersLast, Places, Outcome;
    var back := BackOnClock(mark);
    SpansChained();
    RestoredSpoken(mark);
    BothKinds(mark);
    OutOfOrder(mark);
    OutcomePlaces(back, mark, back);
    MixedSorted(back, mark, At(back, Kept(back, mark)));
  }
}
