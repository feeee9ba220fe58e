/**
 When a layout succeeds and how many captions it makes, from the input alone; and captions whose layout is not final.
 */
module LayoutSuccess {
  import opened Wrappers
  import opened Rounding
  import opened Sorting
  import opened Text
  import opened Wrap
  import opened Layout
  import opened LayoutText
  import opened LayoutTheorems
  import Sweep

  /** The blocks of lines that one interval has to show. */
  function Needed(segments: seq<Segment>, v: Sweep.Interval, width: nat, maxLines: nat): nat
    requires width >= 1 && maxLines >= 1 && InRange(v, |segments|)
  {
    |Blocks(Caption(segments, v).text, width, maxLines)|
  }

  function NeededAll(segments: seq<Segment>, intervals: seq<Sweep.Interval>, width: nat, maxLines: nat): nat
    requires width >= 1 && maxLines >= 1 && AllInRange(intervals, |segments|)
  {
    if intervals == [] then 0
    else Needed(segments, intervals[0], width, maxLines) + NeededAll(segments, intervals[1..], width, maxLines)
  }

  /** Every interval has a millisecond for each of its blocks. */
  ghost predicate Spacious(segments: seq<Segment>, intervals: seq<Sweep.Interval>, width: nat, maxLines: nat)
    requires width >= 1 && maxLines >= 1 && AllInRange(intervals, |segments|)
  {
    forall k :: 0 <= k < |intervals| ==>
      Needed(segments, intervals[k], width, maxLines) <= intervals[k].last - intervals[k].first
  }

  lemma {:induction false} DividedAllSucceeds(segments: seq<Segment>, intervals: seq<Sweep.Interval>,
                                              width: nat, maxLines: nat)
    requires width >= 1 && maxLines >= 1 && AllInRange(intervals, |segments|)
    ensures var r := DividedAll(segments, intervals, width, maxLines);
      && (r.Ok? <==> Spacious(segments, intervals, width, maxLines))
      && (r.Err? ==> r.error == NoRoom)
      && (r.Ok? ==> |r.value| == NeededAll(segments, intervals, width, maxLines))
  {
    if intervals != [] {
      DividedAllSucceeds(segments, intervals[1..], width, maxLines);
      assert forall k :: 0 < k < |intervals| ==> intervals[k] == intervals[1..][k - 1];
    }
  }

  /** The intervals that a layout of the captions shares out. */
  function Intervals(segments: seq<Segment>): (r: seq<Sweep.Interval>)
    requires AllMillisProper(Input(segments))
    ensures AllInRange(r, |Input(segments)|)
  {
    SweepIndices(Clock(Input(segments)));
    Sweep.SweepOf(Clock(Input(segments)))
  }

  /** The number of captions that a layout makes. */
  function LaidCount(segments: seq<Segment>, width: nat, maxLines: nat): nat
    requires width >= 1 && maxLines >= 1 && AllMillisProper(Input(segments))
  {
    NeededAll(Input(segments), Intervals(segments), width, maxLines)
  }

  ghost predicate SpokenProper(segments: seq<Segment>) {
    forall i :: 0 <= i < |segments| && !Blank(segments[i].text) ==> MillisProper(segments[i])
  }

  lemma InputProper(segments: seq<Segment>)
    ensures AllMillisProper(Input(segments)) <==> SpokenProper(segments)
  {
    var n := Input(segments);
    forall i | 0 <= i < |segments| ensures Spoken(segments[i]) <==> !Blank(segments[i].text) {
      SpokenText(segments[i].text);
      NormalTextLines(segments[i].text);
    }
    if SpokenProper(segments) {
      forall k | 0 <= k < |n| ensures MillisProper(n[k]) {
        assert n[k] in n;
        InputMembers(segments, n[k]);
        var i :| 0 <= i < |segments| && Spoken(segments[i]) && n[k] == Renew(segments[i]);
      }
    }
    if AllMillisProper(n) {
      forall i | 0 <= i < |segments| && !Blank(segments[i].text) ensures MillisProper(segments[i]) {
        InputMembers(segments, Renew(segments[i]));
        var k :| 0 <= k < |n| && n[k] == Renew(segments[i]);
      }
    }
  }

  lemma SortedValid(segments: seq<Segment>)
    ensures AllValid(Sort(StartsNoLater, segments)) <==> AllValid(segments)
  {
    var sorted := Sort(StartsNoLater, segments);
    SortMembers(StartsNoLater, segments);
    assert forall i :: 0 <= i < |sorted| ==> sorted[i] in segments;
    assert forall i :: 0 <= i < |segments| ==> segments[i] in sorted;
  }

  /** What the captions must be like for a layout to succeed. */
  ghost predicate Layable(segments: seq<Segment>, width: int, maxLines: int) {
    && width >= 1 && maxLines >= 1
    && AllValid(segments)
    && AllMillisProper(Input(segments))
    && Spacious(Input(segments), Intervals(segments), width, maxLines)
  }

  /**
   A layout succeeds iff the dimensions and all times are valid, every spoken caption lasts on the millisecond clock and
   every interval has a millisecond for each of its blocks; it then makes one caption for each of those blocks.
   */
  lemma LayoutSucceeds(segments: seq<Segment>, width: int, maxLines: int)
    ensures LayOut(segments, width, maxLines).Ok? <==> Layable(segments, width, maxLines)
    ensures Layable(segments, width, maxLines) ==>
      |LayOut(segments, width, maxLines).value| == LaidCount(segments, width, maxLines)
    ensures AllMillisProper(Input(segments)) <==> SpokenProper(segments)
  {
    SortedValid(segments);
    InputProper(segments);
    if width >= 1 && maxLines >= 1 && AllMillisProper(Input(segments)) {
      DividedAllSucceeds(Input(segments), Intervals(segments), width, maxLines);
    }
  }

  lemma OnlyNoRoom(normalized: seq<Segment>, width: nat, maxLines: nat)
    requires width >= 1 && maxLines >= 1 && AllMillisProper(normalized)
    ensures LayOutNormal(normalized, width, maxLines).Err? ==> LayOutNormal(normalized, width, maxLines).error == NoRoom
  {
    hide Divided, Millis;
    SweepIndices(Clock(normalized));
    DividedNoRoom(normalized, Sweep.SweepOf(Clock(normalized)), width, maxLines);
  }

  lemma {:induction false} DividedNoRoom(segments: seq<Segment>, intervals: seq<Sweep.Interval>, width: nat,
                                         maxLines: nat)
    requires width >= 1 && maxLines >= 1 && AllInRange(intervals, |segments|)
    ensures var r := DividedAll(segments, intervals, width, maxLines); r.Err? ==> r.error == NoRoom
  {
    hide Timed, Blocks;
    if intervals != [] {
      DividedNoRoom(segments, intervals[1..], width, maxLines);
    }
  }

  /** Why a layout fails: the dimensions, a time, a caption too short for the clock, or else too little room. */
  lemma LayoutErrors(segments: seq<Segment>, width: int, maxLines: int)
    ensures LayOut(segments, width, maxLines).Err? ==>
      var error := LayOut(segments, width, maxLines).error;
      if width < 1 || maxLines < 1 then error == BadDimensions
      else if exists i :: 0 <= i < |segments| && !(0.0 <= segments[i].start < segments[i].end)
      then error == InvalidInterval
      else if exists i :: 0 <= i < |segments| && !Blank(segments[i].text) && TooShort(segments[i])
      then error == SubMillisecond
      else error == NoRoom
  {
    hide LayOutNormal, Normalized, Millis, Sort;
    SortedValid(segments);
    InputProper(segments);
    if width >= 1 && maxLines >= 1 && AllMillisProper(Input(segments)) {
      OnlyNoRoom(Input(segments), width, maxLines);
    }
    forall i | 0 <= i < |segments| && ValidTimes(segments[i])
      ensures MillisProper(segments[i]) <==> !TooShort(segments[i])
    {
      MillisNonNegative(segments[i].start);
    }
  }

  /** Both ends go to the same millisecond. */
  predicate TooShort(s: Segment) {
    Millis(s.end) <= Millis(s.start)
  }

  // ----- a lone caption -----

  lemma LoneInput(s: Segment)
    requires !Blank(s.text)
    ensures Sort(StartsNoLater, [s]) == [s] && Input([s]) == [Renew(s)]
  {
    SortIdentity(StartsNoLater, [s]);
    SpokenText(s.text);
    NormalTextLines(s.text);
    AllSpoken([s]);
  }

  /** The blocks of a lone caption. */
  function LoneBlocks(s: Segment, width: nat, maxLines: nat): seq<string>
    requires width >= 1 && maxLines >= 1
  {
    Blocks(NormalText(s.text), width, maxLines)
  }

  lemma LoneSweep(s: Segment)
    requires MillisProper(s)
    ensures Sweep.SweepOf(Clock([s])) == [Sweep.Interval(Millis(s.start), Millis(s.end), [0])]
  {
    hide Millis;
    var cues := Clock([s]);
    Sweep.DisjointSweep(cues);
    assert Sweep.OwnSweep(cues) == [Sweep.Interval(Millis(s.start), Millis(s.end), [0])];
  }

  lemma LoneSpacious(s: Segment, intervals: seq<Sweep.Interval>, width: nat, maxLines: nat)
    requires width >= 1 && maxLines >= 1 && AllInRange(intervals, 1)
    requires |intervals| == 1 && intervals[0].active == [0]
    requires |Blocks(s.text, width, maxLines)| <= intervals[0].last - intervals[0].first
    ensures Spacious([s], intervals, width, maxLines)
  {
    LoneText([s], intervals[0]);
  }

  /** A lone spoken caption needs as many milliseconds as it has blocks. */
  lemma LoneCaption(s: Segment, width: nat, maxLines: nat)
    requires width >= 1 && maxLines >= 1
    requires !Blank(s.text) && ValidTimes(s) && MillisProper(s)
    requires |LoneBlocks(s, width, maxLines)| <= Millis(s.end) - Millis(s.start)
    ensures LayOut([s], width, maxLines).Ok?
  {
    hide Millis, Blocks, NormalText, LayOut, Normalized, Spacious, Sort, Sweep.SweepOf;
    LoneInput(s);
    LoneSweep(Renew(s));
    LoneSpacious(Renew(s), Intervals([s]), width, maxLines);
    LayoutSucceeds([s], width, maxLines);
  }

  lemma LoneText(segments: seq<Segment>, v: Sweep.Interval)
    requires |segments| == 1 && v.active == [0]
    ensures Caption(segments, v).text == segments[0].text
  {
    assert Texts(segments, v) == [segments[0].text];
  }

  // ----- a layout that is not final -----

  /** A word one shorter than the line followed by a word one longer: the blank between them fills the line. */
  lemma NoRoomLines(a: string, b: string, width: nat)
    requires width >= 2 && IsWord(a) && IsWord(b)
    requires |a| == width - 1 && |b| == width + 1
    ensures AllWords([a, b]) && NoRoomBreak("", [a, b], width)
    ensures WrapFrom("", [a, b], width) == [a + " ", b[..width], b[width..]]
  {
    LongWord(b, width);
    var ws := [a, b];
    assert ws[1..] == [b];
    assert NextStep("", ws, width) == Step(None, a, [b], false);
    assert NextStep(a, [b], width) == Step(Some(a + " "), "", [b], true);
    assert NoRoomBreak(a, [b], width);
    assert WrapFrom(a, [b], width) == [a + " "] + WrapFrom("", [b], width);
    assert WrapFrom("", ws, width) == [] + WrapFrom(a, [b], width);
  }

  lemma LongWord(b: string, width: nat)
    requires width >= 2 && IsWord(b) && |b| == width + 1
    ensures AllWords([b]) && WrapFrom("", [b], width) == [b[..width], b[width..]]
  {
    var rest := b[width..];
    assert IsWord(rest);
    assert [b][1..] == [] && [rest][1..] == [];
    assert NextStep("", [b], width) == Step(Some(b[..width]), "", [rest], false);
    assert NextStep("", [rest], width) == Step(None, rest, [], false);
    assert WrapFrom(rest, [], width) == [rest];
    assert WrapFrom("", [rest], width) == [] + WrapFrom(rest, [], width);
  }

  lemma TwoWords(a: string, b: string)
    requires IsWord(a) && IsWord(b)
    ensures Words(a + " " + b) == [a, b]
    ensures Tidy(a + " " + b) && SplitLines(a + " " + b) == [a + " " + b]
    ensures NormalText(a + " " + b) == a + " " + b && !Blank(a + " " + b)
  {
    var text := a + " " + b;
    WordsOfWord(a);
    WordsAppend(a, b);
    TidyWord(a);
    TidyAppend(a, b);
    TidyShape(text);
    LineEndUnique(text, |text|);
    assert NormalLines([text]) == [text] + NormalLines([]);
  }

  lemma PairOfBlocks(lines: seq<string>)
    requires |lines| == 3
    ensures |BlockTexts(Chunks(lines, 2))| == 2
  {
    assert |lines[2..]| == 1;
  }

  /** Ten seconds of such a text. */
  function Unsettled(a: string, b: string): Segment {
    Segment(0.0, 10.0, a + " " + b, None)
  }

  /** Such a caption is laid out, and laying its layout out again gives something else: the blank is dropped. */
  lemma LayoutNotFinal(a: string, b: string, width: nat)
    requires width >= 2 && IsWord(a) && IsWord(b)
    requires |a| == width - 1 && |b| == width + 1
    ensures var first := LayOut([Unsettled(a, b)], width, 2);
      first.Ok? && LayOut(first.value, width, 2).Ok? && LayOut(first.value, width, 2) != first
  {
    hide LayOut, WrapFrom, NoRoomBreak, Words, SplitLines, NormalText;
    var s := Unsettled(a, b);
    TwoWords(a, b);
    NoRoomLines(a, b, width);
    TenSeconds();
    UnsettledBlocks(a, b, width);
    LoneCaption(s, width, 2);
    var out := LayOut([s], width, 2).value;
    LayoutFixedPoint([s], width, 2, out);
    assert !RoomyInput([s], width) by { NotRoomy(a, b, width); }
    var blocks := LayoutKeepsLines([s], width, 2, out);
    var again := LayoutPointwise([s], width, 2, out);
    SameStamps(blocks, again);
    Relayout(blocks, width, 2);
  }

  lemma TenSeconds()
    ensures Millis(0.0) == 0 && Millis(10.0) == 10000
  {
  }

  lemma UnsettledBlocks(a: string, b: string, width: nat)
    requires width >= 2 && IsWord(a) && IsWord(b)
    requires |a| == width - 1 && |b| == width + 1
    ensures |LoneBlocks(Unsettled(a, b), width, 2)| == 2
  {
    var text := a + " " + b;
    TwoWords(a, b);
    NoRoomLines(a, b, width);
    var lines := WrapLine(text, width);
    assert WrapAll([text], width) == lines + WrapAll([], width) == lines;
    PairOfBlocks(lines);
  }

  lemma NotRoomy(a: string, b: string, width: nat)
    requires width >= 2 && IsWord(a) && IsWord(b)
    requires |a| == width - 1 && |b| == width + 1
    ensures !RoomyInput([Unsettled(a, b)], width)
  {
    var text := a + " " + b;
    TwoWords(a, b);
    NoRoomLines(a, b, width);
    NormalTextLines(text);
    var lines := NormalLines(SplitLines([Unsettled(a, b)][0].text));
    assert lines == [text];
    assert LayoutText.Breaks(lines[0], width);
  }

  /** At 24, one of the two widths in use: a word of 23 letters and a word of 25. */
  lemma LayoutNotFinalAt24()
    ensures exists segments, out :: LayOut(segments, 24, 2) == Ok(out) && LayOut(out, 24, 2) != Ok(out)
  {
    var a, b := seq(23, i => 'a'), seq(25, i => 'b');
    LayoutNotFinal(a, b, 24);
    assert LayOut([Unsettled(a, b)], 24, 2) == Ok(LayOut([Unsettled(a, b)], 24, 2).value);
  }
}
