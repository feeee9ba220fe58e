/** The main results about `segment_subtitles` as a whole. */
module LayoutTheorems {
  import opened Wrappers
  import opened Rounding
  import opened Sorting
  import opened Text
  import opened Wrap
  import opened Layout
  import opened LayoutText
  import opened LayoutProofs
  import Sweep

  // ----- what is laid out -----

  function Renew(s: Segment): Segment {
    s.(text := NormalText(s.text))
  }

  predicate Spoken(s: Segment) {
    NormalText(s.text) != ""
  }

  lemma BlankSplit(text: string, k: nat)
    requires k < |text| && text[k] == '\n'
    ensures Blank(text) <==> Blank(text[..k]) && Blank(text[k + 1..])
  {
    assert forall i :: k < i < |text| ==> text[i] == text[k + 1..][i - k - 1];
    assert forall i :: 0 <= i < k ==> text[i] == text[..k][i];
  }

  lemma NormalCons(line: string, rest: seq<string>)
    ensures NormalLines([line] + rest) == [] <==> Blank(line) && NormalLines(rest) == []
  {
    assert ([line] + rest)[1..] == rest;
  }

  /** Only blank text has no normal lines. */
  lemma {:induction false} SpokenText(text: string)
    ensures NormalLines(SplitLines(text)) == [] <==> Blank(text)
    decreases |text|
  {
    if text != "" {
      var k := LineEnd(text);
      if k == |text| {
        NormalCons(text, []);
      } else {
        SpokenText(text[k + 1..]);
        NormalCons(text[..k], SplitLines(text[k + 1..]));
        BlankSplit(text, k);
      }
    }
  }

  /** x is the normal form of a spoken caption of the list. */
  ghost predicate Renewed(segments: seq<Segment>, x: Segment) {
    exists i :: 0 <= i < |segments| && Spoken(segments[i]) && x == Renew(segments[i])
  }

  lemma RenewedStep(segments: seq<Segment>, x: Segment)
    requires segments != []
    ensures var n := |segments| - 1;
      Renewed(segments, x) <==> Renewed(segments[..n], x) || (Spoken(segments[n]) && x == Renew(segments[n]))
  {
    hide Renew, Spoken;
    var n := |segments| - 1;
    assert forall i :: 0 <= i < n ==> segments[i] == segments[..n][i];
    if Renewed(segments, x) {
      var i :| 0 <= i < |segments| && Spoken(segments[i]) && x == Renew(segments[i]);
      assert i < n ==> segments[..n][i] == segments[i];
    }
    if Renewed(segments[..n], x) {
      var i :| 0 <= i < n && Spoken(segments[..n][i]) && x == Renew(segments[..n][i]);
      assert segments[..n][i] == segments[i];
    }
  }

  lemma {:induction false} NormalizedMembers(segments: seq<Segment>, x: Segment)
    ensures x in Normalized(segments) <==> Renewed(segments, x)
  {
    if segments != [] {
      var n := |segments| - 1;
      NormalizedMembers(segments[..n], x);
      RenewedStep(segments, x);
    }
  }

  lemma NormalizedExact(segments: seq<Segment>)
    ensures Exacts(Normalized(segments))
  {
    var all := Normalized(segments);
    forall k | 0 <= k < |all| ensures Exact(all[k].text) && AllTidy(SplitLines(all[k].text)) {
      assert all[k] in all;
      NormalizedMembers(segments, all[k]);
      var i :| 0 <= i < |segments| && Spoken(segments[i]) && all[k] == Renew(segments[i]);
      NormalTextLines(segments[i].text);
      TidyLines(SplitLines(all[k].text));
    }
  }

  /** The captions that take part in the layout, in order of start. */
  function Input(segments: seq<Segment>): seq<Segment> {
    Normalized(Sort(StartsNoLater, segments))
  }

  lemma InputMembers(segments: seq<Segment>, x: Segment)
    ensures x in Input(segments) <==> Renewed(segments, x)
  {
    var sorted := Sort(StartsNoLater, segments);
    SortMembers(StartsNoLater, segments);
    NormalizedMembers(sorted, x);
    if Renewed(segments, x) {
      var i :| 0 <= i < |segments| && Spoken(segments[i]) && x == Renew(segments[i]);
      assert segments[i] in sorted;
    }
    if Renewed(sorted, x) {
      var i :| 0 <= i < |sorted| && Spoken(sorted[i]) && x == Renew(sorted[i]);
      assert sorted[i] in segments;
    }
  }

  lemma SweepGood(cues: seq<Sweep.Cue>)
    ensures GoodIntervals(Sweep.SweepOf(cues), |cues|)
  {
    Sweep.SweepExact(cues);
    SweepIndices(cues);
    var r := Sweep.SweepOf(cues);
    assert forall k :: 0 <= k < |r| ==> Sweep.Sharp(cues, r[k]);
  }

  /** A successful layout as blocks on the millisecond clock. */
  lemma Success(segments: seq<Segment>, width: nat, maxLines: nat, out: seq<Segment>) returns (blocks: seq<Block>)
    requires LayOut(segments, width, maxLines) == Ok(out)
    ensures width >= 1 && maxLines >= 1
    ensures AllMillisProper(Input(segments)) && Exacts(Input(segments))
    ensures LayOutNormal(Input(segments), width, maxLines) == Ok(blocks)
    ensures out == StampAll(blocks)
  {
    NormalizedExact(Sort(StartsNoLater, segments));
    blocks := LayOutNormal(Input(segments), width, maxLines).value;
  }

  // ----- exact timing -----

  /** The input captions shown at t, by their place in order of start. */
  function ActiveAt(segments: seq<Segment>, t: nat): seq<nat>
    requires AllMillisProper(Input(segments))
  {
    Sweep.Active(Clock(Input(segments)), t)
  }

  /** At t the block shows one of the blocks of lines of all captions active at t, with the speaker of a lone one. */
  ghost predicate ShowsActive(segments: seq<Segment>, b: Block, t: nat, width: nat, maxLines: nat)
    requires width >= 1 && maxLines >= 1
    requires AllMillisProper(Input(segments))
  {
    var v := Sweep.Interval(t, t + 1, ActiveAt(segments, t));
    v.active != [] && InRange(v, |Input(segments)|) && FromInterval(Input(segments), v, b, width, maxLines)
  }

  /**
   The layout is pointwise exact: its captions are in order and disjoint; something is shown at t iff some input
   caption is active at t; and what is shown are the texts of exactly the active captions, in order of start.
   */
  lemma LayoutPointwise(segments: seq<Segment>, width: nat, maxLines: nat, out: seq<Segment>)
    returns (blocks: seq<Block>)
    requires LayOut(segments, width, maxLines) == Ok(out)
    ensures width >= 1 && maxLines >= 1 && AllMillisProper(Input(segments))
    ensures out == StampAll(blocks) && Track(blocks)
    ensures forall t: nat :: SomeShowing(blocks, t) <==> ActiveAt(segments, t) != []
    ensures forall k, t: nat :: 0 <= k < |blocks| && Showing(blocks[k], t) ==>
      ShowsActive(segments, blocks[k], t, width, maxLines)
  {
    blocks := Success(segments, width, maxLines, out);
    var n := Input(segments);
    var cues := Clock(n);
    var intervals := Sweep.SweepOf(cues);
    SweepGood(cues);
    DividedAllContract(n, intervals, width, maxLines, blocks);
    forall t: nat | ActiveAt(segments, t) != [] ensures SomeShowing(blocks, t) {
      Sweep.SweepExact(cues);
      assert Sweep.Covered(intervals, t);
      var j :| 0 <= j < |intervals| && intervals[j].first <= t < intervals[j].last;
      var k := DividedAllShows(n, intervals, width, maxLines, blocks, j, t);
    }
    forall k, t: nat | 0 <= k < |blocks| && Showing(blocks[k], t)
      ensures ShowsActive(segments, blocks[k], t, width, maxLines)
    {
      var j := DividedAllOnly(n, intervals, width, maxLines, blocks, k, t);
      var k' := DividedAllShows(n, intervals, width, maxLines, blocks, j, t);
      assert k' == k;
      Sweep.SweepExact(cues);
      assert Sweep.Sharp(cues, intervals[j]);
      assert intervals[j].active == ActiveAt(segments, t);
      var v := Sweep.Interval(t, t + 1, ActiveAt(segments, t));
      assert Texts(n, v) == Texts(n, intervals[j]);
    }
  }

  /** The speaker of a caption that is shown alone is shown with it; captions shown together have none. */
  lemma ShownSpeaker(segments: seq<Segment>, b: Block, t: nat, width: nat, maxLines: nat)
    requires width >= 1 && maxLines >= 1 && AllMillisProper(Input(segments))
    requires ShowsActive(segments, b, t, width, maxLines)
    ensures var active := ActiveAt(segments, t);
      && active != [] && active[0] < |Input(segments)|
      && b.speaker == (if |active| > 1 then None else Input(segments)[active[0]].speaker)
      && exists i :: 0 <= i < |segments| && SpokenAt(segments[i], t)
           && segments[i].speaker == Input(segments)[active[0]].speaker
  {
    hide Millis, NormalText;
    var n, active := Input(segments), ActiveAt(segments, t);
    assert active[0] in active && n[active[0]] in n;
    InputMembers(segments, n[active[0]]);
    var i :| 0 <= i < |segments| && Spoken(segments[i]) && n[active[0]] == Renew(segments[i]);
    SpokenText(segments[i].text);
    NormalTextLines(segments[i].text);
  }

  /** A caption is active at t iff it is not blank and t lies between its rounded times. */
  lemma ActiveMeaning(segments: seq<Segment>, t: nat)
    requires AllMillisProper(Input(segments))
    ensures ActiveAt(segments, t) != [] <==>
      exists i :: 0 <= i < |segments| && SpokenAt(segments[i], t)
  {
    var n := Input(segments);
    var active := ActiveAt(segments, t);
    if active != [] {
      assert active[0] in active && n[active[0]] in n;
      InputMembers(segments, n[active[0]]);
      var i :| 0 <= i < |segments| && Spoken(segments[i]) && n[active[0]] == Renew(segments[i]);
      SpokenText(segments[i].text);
      NormalTextLines(segments[i].text);
    }
    if i :| 0 <= i < |segments| && SpokenAt(segments[i], t) {
      SpokenText(segments[i].text);
      NormalTextLines(segments[i].text);
      InputMembers(segments, Renew(segments[i]));
      var k: nat :| k < |n| && n[k] == Renew(segments[i]);
      assert Sweep.Shown(Clock(n)[k], t);
      assert k in active;
    }
  }

  /** The captions of a list that are not blank and whose rounded times cover t, with normal text. */
  function Covering(segments: seq<Segment>, t: nat): seq<Segment> {
    if segments == [] then []
    else
      var n := |segments| - 1;
      var s := segments[n];
      Covering(segments[..n], t) + if SpokenAt(s, t) then [Renew(s)] else []
  }

  function Picked(segments: seq<Segment>, places: seq<nat>): (r: seq<Segment>)
    requires forall k :: 0 <= k < |places| ==> places[k] < |segments|
    ensures |r| == |places| && forall k :: 0 <= k < |r| ==> r[k] == segments[places[k]]
  {
    seq(|places|, k requires 0 <= k < |places| => segments[places[k]])
  }

  lemma ActivePlaces(cues: seq<Sweep.Cue>, t: nat)
    ensures forall k :: 0 <= k < |Sweep.Active(cues, t)| ==> Sweep.Active(cues, t)[k] < |cues|
  {
    var active := Sweep.Active(cues, t);
    assert forall k :: 0 <= k < |active| ==> active[k] in active;
  }

  /** The captions shown at t, by what they say. */
  function PickedAt(n: seq<Segment>, t: nat): seq<Segment>
    requires AllMillisProper(n)
  {
    ActivePlaces(Clock(n), t);
    Picked(n, Sweep.Active(Clock(n), t))
  }

  lemma PickedAppend(before: seq<Segment>, x: Segment, t: nat)
    requires AllMillisProper(before) && MillisProper(x)
    ensures AllMillisProper(before + [x])
    ensures PickedAt(before + [x], t) ==
      PickedAt(before, t) + if Millis(x.start) <= t < Millis(x.end) then [x] else []
  {
    hide Millis;
    var n := before + [x];
    assert Clock(n)[..|before|] == Clock(before);
    ActivePlaces(Clock(before), t);
    ActivePlaces(Clock(n), t);
  }

  lemma {:induction false} ActivePicks(segments: seq<Segment>, t: nat)
    requires AllMillisProper(Normalized(segments))
    ensures PickedAt(Normalized(segments), t) == Covering(segments, t)
  {
    hide Millis, NormalText, PickedAt;
    var n := Normalized(segments);
    if segments != [] {
      var m := |segments| - 1;
      var before, s := Normalized(segments[..m]), segments[m];
      assert AllMillisProper(before) by {
        assert forall k :: 0 <= k < |before| ==> before[k] == n[k];
      }
      ActivePicks(segments[..m], t);
      SpokenText(s.text);
      NormalTextLines(s.text);
      if Spoken(s) {
        assert n == before + [Renew(s)];
        assert n[|before|] == Renew(s);
        PickedAppend(before, Renew(s), t);
      } else {
        assert n == before;
      }
    } else {
      NonePicked(t);
    }
  }

  lemma NonePicked(t: nat)
    ensures PickedAt([], t) == []
  {
  }

  /** The captions active at t are exactly those not blank whose rounded times cover t, in order of start. */
  lemma ActiveCaptions(segments: seq<Segment>, t: nat)
    requires AllMillisProper(Input(segments))
    ensures forall k :: 0 <= k < |ActiveAt(segments, t)| ==> ActiveAt(segments, t)[k] < |Input(segments)|
    ensures Picked(Input(segments), ActiveAt(segments, t)) == Covering(Sort(StartsNoLater, segments), t)
  {
    ActivePlaces(Clock(Input(segments)), t);
    ActivePicks(Sort(StartsNoLater, segments), t);
  }

  // ----- whole texts -----

  /** The blocks together hold the wrapped lines of every interval, in order, each line within the width. */
  lemma LayoutKeepsLines(segments: seq<Segment>, width: nat, maxLines: nat, out: seq<Segment>)
    returns (blocks: seq<Block>)
    requires LayOut(segments, width, maxLines) == Ok(out)
    ensures width >= 1 && maxLines >= 1 && AllMillisProper(Input(segments))
    ensures out == StampAll(blocks)
    ensures AllInRange(Sweep.SweepOf(Clock(Input(segments))), |Input(segments)|)
    ensures GoodTexts(blocks, width, maxLines)
    ensures var lines := CaptionLines(Input(segments), Sweep.SweepOf(Clock(Input(segments))));
      && LinesOf(TextsOf(blocks)) == WrapAll(lines, width)
      && SolidAll(LinesOf(TextsOf(blocks))) == SolidAll(lines)
  {
    blocks := Success(segments, width, maxLines, out);
    var n := Input(segments);
    var intervals := Sweep.SweepOf(Clock(n));
    SweepGood(Clock(n));
    DividedAllContract(n, intervals, width, maxLines, blocks);
    CaptionLinesTidy(n, intervals);
    WrapAllSolid(CaptionLines(n, intervals), width);
  }

  lemma {:induction false} CaptionLinesTidy(segments: seq<Segment>, intervals: seq<Sweep.Interval>)
    requires Exacts(segments) && AllInRange(intervals, |segments|)
    ensures AllTidy(CaptionLines(segments, intervals))
  {
    if intervals != [] {
      CaptionLinesTidy(segments, intervals[1..]);
      LinesOfTidy(Texts(segments, intervals[0]));
      ConcatEach(LinesOf(Texts(segments, intervals[0])), CaptionLines(segments, intervals[1..]), 1);
    }
  }

  // ----- laying out again -----

  function Retidied(blocks: seq<Block>): (r: seq<Block>)
    ensures |r| == |blocks|
    ensures forall k :: 0 <= k < |r| ==> r[k] == blocks[k].(text := NormalText(blocks[k].text))
  {
    seq(|blocks|, k requires 0 <= k < |blocks| => blocks[k].(text := NormalText(blocks[k].text)))
  }

  lemma StampTimes(b: Block)
    requires 0 <= b.first < b.last
    ensures ValidTimes(Stamp(b)) && MillisProper(Stamp(b))
    ensures Millis(Stamp(b).start) == b.first && Millis(Stamp(b).end) == b.last
  {
    StampReadBack(b);
  }

  lemma StampedSorted(blocks: seq<Block>)
    requires Track(blocks)
    ensures Sort(StartsNoLater, StampAll(blocks)) == StampAll(blocks)
  {
    var s := StampAll(blocks);
    forall i, j | 0 <= i < j < |s| ensures StartsNoLater(s[i], s[j]) {
      assert blocks[i].first <= blocks[j].first;
    }
    SortIdentity(StartsNoLater, s);
  }

  lemma StampedValid(blocks: seq<Block>)
    requires Track(blocks)
    ensures AllValid(StampAll(blocks))
  {
    forall k | 0 <= k < |blocks| ensures ValidTimes(StampAll(blocks)[k]) {
      StampTimes(blocks[k]);
    }
  }

  lemma {:induction false} AllSpoken(segments: seq<Segment>)
    requires forall i :: 0 <= i < |segments| ==> Spoken(segments[i])
    ensures |Normalized(segments)| == |segments|
    ensures forall i :: 0 <= i < |segments| ==> Normalized(segments)[i] == Renew(segments[i])
  {
    if segments != [] {
      AllSpoken(segments[..|segments| - 1]);
    }
  }

  lemma RenormalizeAll(blocks: seq<Block>, width: nat, maxLines: nat)
    requires width >= 1 && maxLines >= 1 && GoodTexts(blocks, width, maxLines)
    ensures Normalized(StampAll(blocks)) == StampAll(Retidied(blocks))
  {
    forall k | 0 <= k < |blocks| ensures Spoken(StampAll(blocks)[k]) {
      NormalBlock(blocks[k].text, width, maxLines);
    }
    AllSpoken(StampAll(blocks));
  }

  lemma StampedCaption(blocks: seq<Block>, v: Sweep.Interval, k: nat)
    requires k < |blocks| && v.first == blocks[k].first && v.last == blocks[k].last && v.active == [k]
    ensures Caption(StampAll(blocks), v) == blocks[k]
  {
    assert Texts(StampAll(blocks), v) == [blocks[k].text];
  }

  lemma LoneBlock(b: Block, width: nat, maxLines: nat)
    requires width >= 1 && maxLines >= 1 && b.first < b.last
    requires Blocks(b.text, width, maxLines) == [b.text]
    ensures Divided(b, width, maxLines) == Ok([b])
  {
    assert Timed(b, [b.text]) == [b];
  }

  lemma {:induction false} DivideAgain(blocks: seq<Block>, intervals: seq<Sweep.Interval>, k: nat, width: nat,
                                       maxLines: nat)
    requires width >= 1 && maxLines >= 1
    requires |intervals| == |blocks| && k <= |blocks| && AllInRange(intervals, |blocks|)
    requires forall i :: 0 <= i < |blocks| ==>
      Divided(Caption(StampAll(blocks), intervals[i]), width, maxLines) == Ok([blocks[i]])
    ensures DividedAll(StampAll(blocks), intervals[k..], width, maxLines) == Ok(blocks[k..])
    decreases |blocks| - k
  {
    hide Divided, Caption, StampAll;
    if k < |blocks| {
      DivideAgain(blocks, intervals, k + 1, width, maxLines);
      assert intervals[k..][1..] == intervals[k + 1..];
      assert blocks[k..] == [blocks[k]] + blocks[k + 1..];
      assert Divided(Caption(StampAll(blocks), intervals[k..][0]), width, maxLines) == Ok([blocks[k]]);
    }
  }

  /** Captions in order whose texts are single blocks are laid out as themselves. */
  lemma SingleBlocks(blocks: seq<Block>, width: nat, maxLines: nat)
    requires width >= 1 && maxLines >= 1 && Track(blocks)
    requires forall k :: 0 <= k < |blocks| ==> Blocks(blocks[k].text, width, maxLines) == [blocks[k].text]
    ensures AllMillisProper(StampAll(blocks))
    ensures LayOutNormal(StampAll(blocks), width, maxLines) == Ok(blocks)
  {
    var n := StampAll(blocks);
    forall k | 0 <= k < |blocks|
      ensures MillisProper(n[k]) && Millis(n[k].start) == blocks[k].first && Millis(n[k].end) == blocks[k].last
    {
      StampTimes(blocks[k]);
    }
    var cues := Clock(n);
    Sweep.DisjointSweep(cues);
    var intervals := Sweep.OwnSweep(cues);
    SweepIndices(cues);
    forall k | 0 <= k < |blocks| ensures Divided(Caption(n, intervals[k]), width, maxLines) == Ok([blocks[k]]) {
      StampedCaption(blocks, intervals[k], k);
      LoneBlock(blocks[k], width, maxLines);
    }
    DivideAgain(blocks, intervals, 0, width, maxLines);
    assert intervals[0..] == intervals && blocks[0..] == blocks;
  }

  lemma LayOutSteps(segments: seq<Segment>, width: nat, maxLines: nat)
    requires width >= 1 && maxLines >= 1
    ensures AllValid(Sort(StartsNoLater, segments)) && AllMillisProper(Input(segments)) ==>
      LayOut(segments, width, maxLines) == StampResult(LayOutNormal(Input(segments), width, maxLines))
  {
  }

  /** Good blocks in order are laid out as themselves, but for blanks at line ends. */
  lemma Relayout(blocks: seq<Block>, width: nat, maxLines: nat)
    requires width >= 1 && maxLines >= 1
    requires Track(blocks) && GoodTexts(blocks, width, maxLines)
    ensures LayOut(StampAll(blocks), width, maxLines) == Ok(StampAll(Retidied(blocks)))
  {
    hide LayOut, Normalized, Track, GoodTexts, Stamp, Blocks, AllMillisProper;
    var again := Retidied(blocks);
    assert Track(again) by { RetidiedTrack(blocks); }
    LayOutSteps(StampAll(blocks), width, maxLines);
    StampedSorted(blocks);
    RenormalizeAll(blocks, width, maxLines);
    StampedValid(blocks);
    forall k | 0 <= k < |blocks| ensures Blocks(again[k].text, width, maxLines) == [again[k].text] {
      RetidiedBlock(blocks, k, width, maxLines);
    }
    SingleBlocks(again, width, maxLines);
  }

  lemma RetidiedTrack(blocks: seq<Block>)
    requires Track(blocks)
    ensures Track(Retidied(blocks))
  {
  }

  lemma RetidiedBlock(blocks: seq<Block>, k: nat, width: nat, maxLines: nat)
    requires width >= 1 && maxLines >= 1 && GoodTexts(blocks, width, maxLines) && k < |blocks|
    ensures Blocks(Retidied(blocks)[k].text, width, maxLines) == [Retidied(blocks)[k].text]
  {
    NormalBlock(blocks[k].text, width, maxLines);
  }

  /** No line of any caption meets a break of a long word with no room left on its line. */
  ghost predicate RoomyInput(segments: seq<Segment>, width: nat)
    requires width >= 1
  {
    forall i :: 0 <= i < |segments| ==> Roomy(NormalLines(SplitLines(segments[i].text)), width)
  }

  ghost predicate RoomyTexts(segments: seq<Segment>, width: nat)
    requires width >= 1
  {
    forall i :: 0 <= i < |segments| ==> Roomy(SplitLines(segments[i].text), width)
  }

  lemma RoomyNormal(segments: seq<Segment>, width: nat)
    requires width >= 1
    ensures RoomyTexts(Input(segments), width) <==> RoomyInput(segments, width)
  {
    var n := Input(segments);
    if RoomyInput(segments, width) {
      forall k | 0 <= k < |n| ensures Roomy(SplitLines(n[k].text), width) {
        assert n[k] in n;
        InputMembers(segments, n[k]);
        var i :| 0 <= i < |segments| && Spoken(segments[i]) && n[k] == Renew(segments[i]);
        NormalTextLines(segments[i].text);
      }
    }
    if RoomyTexts(n, width) {
      forall i | 0 <= i < |segments| ensures Roomy(NormalLines(SplitLines(segments[i].text)), width) {
        NormalTextLines(segments[i].text);
        if Spoken(segments[i]) {
          InputMembers(segments, Renew(segments[i]));
          var k :| 0 <= k < |n| && n[k] == Renew(segments[i]);
        }
      }
    }
  }

  lemma {:induction false} RoomyLinesOf(texts: seq<string>, width: nat)
    requires width >= 1
    ensures Roomy(LinesOf(texts), width) <==> forall i :: 0 <= i < |texts| ==> Roomy(SplitLines(texts[i]), width)
  {
    if texts != [] {
      RoomyLinesOf(texts[1..], width);
      ConcatEach(SplitLines(texts[0]), LinesOf(texts[1..]), width);
      assert forall i :: 0 < i < |texts| ==> texts[i] == texts[1..][i - 1];
    }
  }

  lemma {:induction false} RoomyCaptions(segments: seq<Segment>, intervals: seq<Sweep.Interval>, width: nat)
    requires width >= 1 && AllInRange(intervals, |segments|)
    ensures Roomy(CaptionLines(segments, intervals), width) <==>
      forall j :: 0 <= j < |intervals| ==> Roomy(LinesOf(Texts(segments, intervals[j])), width)
  {
    if intervals != [] {
      RoomyCaptions(segments, intervals[1..], width);
      ConcatEach(LinesOf(Texts(segments, intervals[0])), CaptionLines(segments, intervals[1..]), width);
      assert forall j :: 0 < j < |intervals| ==> intervals[j] == intervals[1..][j - 1];
    }
  }

  /** Every caption is part of some interval. */
  lemma RoomyIntervals(segments: seq<Segment>, r: seq<Sweep.Interval>, width: nat)
    requires width >= 1 && AllMillisProper(segments)
    requires r == Sweep.SweepOf(Clock(segments)) && AllInRange(r, |segments|)
    requires forall j :: 0 <= j < |r| ==> Roomy(LinesOf(Texts(segments, r[j])), width)
    ensures RoomyTexts(segments, width)
  {
    forall i | 0 <= i < |segments| ensures Roomy(SplitLines(segments[i].text), width) {
      var j, k := SomeInterval(Clock(segments), i);
      RoomyLinesOf(Texts(segments, r[j]), width);
      assert Texts(segments, r[j])[k] == segments[i].text;
    }
  }

  /** The lines laid out are roomy iff all captions are. */
  lemma RoomySweep(segments: seq<Segment>, width: nat)
    requires width >= 1 && AllMillisProper(segments)
    ensures AllInRange(Sweep.SweepOf(Clock(segments)), |segments|)
    ensures Roomy(CaptionLines(segments, Sweep.SweepOf(Clock(segments))), width) <==> RoomyTexts(segments, width)
  {
    var r := Sweep.SweepOf(Clock(segments));
    SweepIndices(Clock(segments));
    RoomyCaptions(segments, r, width);
    if RoomyTexts(segments, width) {
      forall j | 0 <= j < |r| ensures Roomy(LinesOf(Texts(segments, r[j])), width) {
        RoomyLinesOf(Texts(segments, r[j]), width);
      }
    }
    if Roomy(CaptionLines(segments, r), width) {
      RoomyIntervals(segments, r, width);
    }
  }

  lemma SomeInterval(cues: seq<Sweep.Cue>, i: nat) returns (j: nat, k: nat)
    requires Sweep.Proper(cues) && i < |cues|
    ensures j < |Sweep.SweepOf(cues)| && k < |Sweep.SweepOf(cues)[j].active| && Sweep.SweepOf(cues)[j].active[k] == i
  {
    var r := Sweep.SweepOf(cues);
    var t := cues[i].first;
    Sweep.SweepExact(cues);
    assert Sweep.Shown(cues[i], t);
    assert i in Sweep.Active(cues, t);
    assert Sweep.Covered(r, t);
    j :| 0 <= j < |r| && r[j].first <= t < r[j].last;
    assert Sweep.Sharp(cues, r[j]);
    k :| 0 <= k < |r[j].active| && r[j].active[k] == i;
  }

  /** Laying out a result again at the same size changes nothing iff no line met a break with no room left. */
  lemma LayoutFixedPoint(segments: seq<Segment>, width: nat, maxLines: nat, out: seq<Segment>)
    requires LayOut(segments, width, maxLines) == Ok(out)
    ensures LayOut(out, width, maxLines) == Ok(out) <==> RoomyInput(segments, width)
  {
    var blocks := Success(segments, width, maxLines, out);
    var n := Input(segments);
    var intervals := Sweep.SweepOf(Clock(n));
    SweepGood(Clock(n));
    DividedAllContract(n, intervals, width, maxLines, blocks);
    Relayout(blocks, width, maxLines);
    var lines := CaptionLines(n, intervals);
    WrapAllContract(lines, width);
    RoomySweep(n, width);
    RoomyNormal(segments, width);
    TidyBlocks(blocks, width, maxLines);
    if StampAll(blocks) == StampAll(Retidied(blocks)) {
      SameStamps(blocks, Retidied(blocks));
    }
  }

  lemma StampInjective(a: Block, b: Block)
    requires Stamp(a) == Stamp(b)
    ensures a == b
  {
    StampReadBack(a);
    StampReadBack(b);
  }

  lemma SameStamps(a: seq<Block>, b: seq<Block>)
    requires |a| == |b| && StampAll(a) == StampAll(b)
    ensures a == b
  {
    forall k | 0 <= k < |a| ensures a[k] == b[k] {
      assert StampAll(a)[k] == Stamp(a[k]) && StampAll(b)[k] == Stamp(b[k]);
      StampInjective(a[k], b[k]);
    }
  }

  lemma TidyBlocks(blocks: seq<Block>, width: nat, maxLines: nat)
    requires width >= 1 && maxLines >= 1 && GoodTexts(blocks, width, maxLines)
    ensures Retidied(blocks) == blocks <==> AllTidy(LinesOf(TextsOf(blocks)))
  {
    forall k | 0 <= k < |blocks|
      ensures Retidied(blocks)[k] == blocks[k] <==> AllTidy(SplitLines(blocks[k].text))
    {
      NormalBlock(blocks[k].text, width, maxLines);
    }
    TidyLinesOf(TextsOf(blocks));
    if AllTidy(LinesOf(TextsOf(blocks))) {
      assert forall k :: 0 <= k < |blocks| ==> AllTidy(SplitLines(TextsOf(blocks)[k]));
    }
    if Retidied(blocks) == blocks {
      assert forall k :: 0 <= k < |blocks| ==> AllTidy(SplitLines(TextsOf(blocks)[k]));
    }
  }

  lemma {:induction false} TidyLinesOf(texts: seq<string>)
    ensures AllTidy(LinesOf(texts)) <==> forall i :: 0 <= i < |texts| ==> AllTidy(SplitLines(texts[i]))
  {
    if texts != [] {
      TidyLinesOf(texts[1..]);
      ConcatEach(SplitLines(texts[0]), LinesOf(texts[1..]), 1);
      assert forall i :: 0 < i < |texts| ==> texts[i] == texts[1..][i - 1];
    }
  }
}
