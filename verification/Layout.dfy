/** `segment_subtitles`: normalise, sweep, wrap, and share each interval's time among its blocks of lines. */
module Layout {
  import opened Wrappers
  import opened Rounding
  import opened Sorting
  import opened Text
  import opened Wrap
  import Sweep

  /** A caption; times are seconds. */
  datatype Segment = Segment(start: real, end: real, text: string, speaker: Option<string>)

  /** A caption on the millisecond clock. */
  datatype Block = Block(first: int, last: int, text: string, speaker: Option<string>)

  /** A caption on the millisecond clock as one in seconds. */
  function Stamp(b: Block): Segment {
    Segment(Seconds(b.first), Seconds(b.last), b.text, b.speaker)
  }

  function StampAll(blocks: seq<Block>): (r: seq<Segment>)
    ensures |r| == |blocks|
    ensures forall k :: 0 <= k < |r| ==> r[k] == Stamp(blocks[k])
  {
    seq(|blocks|, k requires 0 <= k < |blocks| => Stamp(blocks[k]))
  }

  datatype LayoutError = BadDimensions | InvalidInterval | SubMillisecond | NoRoom

  predicate StartsNoLater(a: Segment, b: Segment) {
    a.start <= b.start
  }

  predicate ValidTimes(s: Segment) {
    0.0 <= s.start < s.end
  }

  predicate AllValid(segments: seq<Segment>) {
    forall i :: 0 <= i < |segments| ==> ValidTimes(segments[i])
  }

  // ----- normalisation -----

  /** The nonblank lines, each with its words separated by single blanks. */
  function NormalLines(lines: seq<string>): (r: seq<string>)
    ensures |r| <= |lines|
  {
    if lines == [] then []
    else (if Blank(lines[0]) then [] else [Join(" ", Words(lines[0]))]) + NormalLines(lines[1..])
  }

  function NormalText(text: string): string {
    Join("\n", NormalLines(SplitLines(text)))
  }

  function Normalized(segments: seq<Segment>): (r: seq<Segment>) {
    if segments == [] then []
    else
      var n := |segments| - 1;
      var text := NormalText(segments[n].text);
      Normalized(segments[..n]) + if text == "" then [] else [segments[n].(text := text)]
  }

  method Normalize(segments: seq<Segment>) returns (r: Result<seq<Segment>, LayoutError>)
    ensures r == if AllValid(segments) then Ok(Normalized(segments)) else Err(InvalidInterval)
  {
    var normalized := [];
    for k := 0 to |segments|
      invariant forall i :: 0 <= i < k ==> ValidTimes(segments[i])
      invariant normalized == Normalized(segments[..k])
    {
      if !ValidTimes(segments[k]) {
        return Err(InvalidInterval);
      }
      assert segments[..k + 1][..k] == segments[..k];
      var text := NormalText(segments[k].text);
      if text != "" {
        normalized := normalized + [segments[k].(text := text)];
      }
    }
    assert segments[..|segments|] == segments;
    return Ok(normalized);
  }

  // ----- the millisecond clock -----

  predicate MillisProper(s: Segment) {
    0 <= Millis(s.start) < Millis(s.end)
  }

  predicate AllMillisProper(segments: seq<Segment>) {
    forall i :: 0 <= i < |segments| ==> MillisProper(segments[i])
  }

  function Clock(segments: seq<Segment>): (cues: seq<Sweep.Cue>)
    requires AllMillisProper(segments)
    ensures |cues| == |segments|
    ensures forall i :: 0 <= i < |cues| ==> cues[i] == Sweep.Cue(Millis(segments[i].start), Millis(segments[i].end))
    ensures Sweep.Proper(cues)
  {
    seq(|segments|, i requires 0 <= i < |segments| => Sweep.Cue(Millis(segments[i].start), Millis(segments[i].end)))
  }

  /** Not blank, and t lies between the rounded times. */
  predicate SpokenAt(s: Segment, t: int) {
    !Blank(s.text) && Millis(s.start) <= t < Millis(s.end)
  }

  // ----- intervals as captions -----

  ghost predicate InRange(v: Sweep.Interval, n: nat) {
    forall k :: 0 <= k < |v.active| ==> v.active[k] < n
  }

  ghost predicate AllInRange(intervals: seq<Sweep.Interval>, n: nat) {
    forall k :: 0 <= k < |intervals| ==> InRange(intervals[k], n)
  }

  function Texts(segments: seq<Segment>, v: Sweep.Interval): (r: seq<string>)
    requires InRange(v, |segments|)
    ensures |r| == |v.active|
    ensures forall k :: 0 <= k < |r| ==> r[k] == segments[v.active[k]].text
  {
    seq(|v.active|, k requires 0 <= k < |v.active| => segments[v.active[k]].text)
  }

  /** All texts shown, the earliest start first; the speaker only when there is a single cue. */
  function Caption(segments: seq<Segment>, v: Sweep.Interval): Block
    requires InRange(v, |segments|)
  {
    Block(v.first, v.last, Join("\n", Texts(segments, v)),
          if |v.active| == 1 then segments[v.active[0]].speaker else None)
  }

  // ----- blocks of lines -----

  function WrapAll(lines: seq<string>, width: nat): seq<string>
    requires width >= 1
  {
    if lines == [] then [] else WrapLine(lines[0], width) + WrapAll(lines[1..], width)
  }

  /** Consecutive pieces of the given size; the last one may be shorter. */
  function Chunks<T>(s: seq<T>, size: nat): (r: seq<seq<T>>)
    requires size >= 1
  {
    if s == [] then []
    else if |s| <= size then [s]
    else [s[..size]] + Chunks(s[size..], size)
  }

  function Flatten<T>(parts: seq<seq<T>>): seq<T> {
    if parts == [] then [] else parts[0] + Flatten(parts[1..])
  }

  /** The characters of a block without its line breaks. */
  function Weight(block: string): nat {
    if block == "" then 0 else (if block[0] == '\n' then 0 else 1) + Weight(block[1..])
  }

  function Consumed(weights: seq<nat>, k: nat): nat
    requires k <= |weights|
  {
    if k == 0 then 0 else Consumed(weights, k - 1) + weights[k - 1]
  }

  /** The larger and the smaller of two numbers, as the clamping uses them. */
  function Max(a: int, b: int): int {
    if a > b then a else b
  }

  function Min(a: int, b: int): int {
    if a < b then a else b
  }

  /** A block's proportional end, kept behind the last boundary and ahead of the blocks to come. */
  function Clamped(cursor: int, first: int, last: int, consumed: nat, total: nat, toCome: nat): int {
    var share := if total == 0 then 0 else HalfEven(((last - first) * consumed) as real / total as real);
    Min(last - toCome, Max(cursor + 1, first + share))
  }

  /** Where the time of the first k blocks ends. */
  function Boundary(first: int, last: int, weights: seq<nat>, k: nat): int
    requires k <= |weights|
  {
    if k == 0 then first
    else if k == |weights| then last
    else
      Clamped(Boundary(first, last, weights, k - 1), first, last,
              Consumed(weights, k), Consumed(weights, |weights|), |weights| - k)
  }

  /** The boundaries are strictly increasing and tile the interval. */
  lemma {:induction false} BoundaryRoom(first: int, last: int, weights: seq<nat>, k: nat)
    requires |weights| <= last - first && k <= |weights|
    ensures first + k <= Boundary(first, last, weights, k) <= last - (|weights| - k)
    ensures k > 0 ==> Boundary(first, last, weights, k - 1) < Boundary(first, last, weights, k)
    ensures Boundary(first, last, weights, 0) == first
    ensures |weights| > 0 ==> Boundary(first, last, weights, |weights|) == last
  {
    if k > 0 {
      BoundaryRoom(first, last, weights, k - 1);
    }
  }

  lemma {:induction false} BoundaryIncreasing(first: int, last: int, weights: seq<nat>, j: nat, k: nat)
    requires |weights| <= last - first && j < k <= |weights|
    ensures Boundary(first, last, weights, j) < Boundary(first, last, weights, k)
    decreases k
  {
    BoundaryRoom(first, last, weights, k);
    if j < k - 1 {
      BoundaryIncreasing(first, last, weights, j, k - 1);
    }
  }

  function BlockTexts(chunks: seq<seq<string>>): (r: seq<string>)
    ensures |r| == |chunks|
    ensures forall k :: 0 <= k < |r| ==> r[k] == Join("\n", chunks[k])
  {
    seq(|chunks|, k requires 0 <= k < |chunks| => Join("\n", chunks[k]))
  }

  function Weights(blocks: seq<string>): (r: seq<nat>)
    ensures |r| == |blocks|
    ensures forall k :: 0 <= k < |r| ==> r[k] == Weight(blocks[k])
  {
    seq(|blocks|, k requires 0 <= k < |blocks| => Weight(blocks[k]))
  }

  function Blocks(text: string, width: nat, maxLines: nat): seq<string>
    requires width >= 1 && maxLines >= 1
  {
    BlockTexts(Chunks(WrapAll(SplitLines(text), width), maxLines))
  }

  /** The blocks of one caption with their shares of its time. */
  function Timed(c: Block, texts: seq<string>): (r: seq<Block>)
    ensures |r| == |texts|
    ensures forall k :: 0 <= k < |r| ==> r[k] == TimedBlock(c, texts, k)
  {
    seq(|texts|, k requires 0 <= k < |texts| => TimedBlock(c, texts, k))
  }

  function TimedBlock(c: Block, texts: seq<string>, k: nat): Block
    requires k < |texts|
  {
    var weights := Weights(texts);
    Block(Boundary(c.first, c.last, weights, k), Boundary(c.first, c.last, weights, k + 1), texts[k], c.speaker)
  }

  function Divided(c: Block, width: nat, maxLines: nat): Result<seq<Block>, LayoutError>
    requires width >= 1 && maxLines >= 1
  {
    var texts := Blocks(c.text, width, maxLines);
    if c.last - c.first < |texts| then Err(NoRoom) else Ok(Timed(c, texts))
  }

  method ShareTime(c: Block, texts: seq<string>) returns (result: seq<Segment>)
    ensures result == StampAll(Timed(c, texts))
  {
    hide Clamped, Seconds;
    var weights := Weights(texts);
    var total := Consumed(weights, |weights|);
    var consumed := 0;
    var cursor := c.first;
    result := [];
    for index := 0 to |texts|
      invariant consumed == Consumed(weights, index)
      invariant cursor == Boundary(c.first, c.last, weights, index)
      invariant |result| == index
      invariant forall k :: 0 <= k < index ==> result[k] == Stamp(TimedBlock(c, texts, k))
    {
      consumed := consumed + weights[index];
      var boundary := if index == |texts| - 1 then c.last
        else Clamped(cursor, c.first, c.last, consumed, total, |texts| - index - 1);
      result := result + [Segment(Seconds(cursor), Seconds(boundary), texts[index], c.speaker)];
      cursor := boundary;
    }
  }

  function StampResult(r: Result<seq<Block>, LayoutError>): Result<seq<Segment>, LayoutError> {
    if r.Err? then Err(r.error) else Ok(StampAll(r.value))
  }

  /** Shares out one caption that the sweep has stamped in seconds. */
  method Divide(s: Segment, width: nat, maxLines: nat) returns (r: Result<seq<Segment>, LayoutError>)
    requires width >= 1 && maxLines >= 1
    ensures r == StampResult(Divided(Block(Millis(s.start), Millis(s.end), s.text, s.speaker), width, maxLines))
  {
    var c := Block(Millis(s.start), Millis(s.end), s.text, s.speaker);
    var texts := Blocks(s.text, width, maxLines);
    if c.last - c.first < |texts| {
      return Err(NoRoom);
    }
    var timed := ShareTime(c, texts);
    return Ok(timed);
  }

  // ----- the whole function -----

  function Prepend(before: seq<Block>, r: Result<seq<Block>, LayoutError>): Result<seq<Block>, LayoutError> {
    if r.Err? then r else Ok(before + r.value)
  }

  /** The captions of all intervals, or the first error among them. */
  function DividedAll(segments: seq<Segment>, intervals: seq<Sweep.Interval>, width: nat, maxLines: nat)
    : Result<seq<Block>, LayoutError>
    requires width >= 1 && maxLines >= 1
    requires AllInRange(intervals, |segments|)
  {
    if intervals == [] then Ok([])
    else
      var here := Divided(Caption(segments, intervals[0]), width, maxLines);
      if here.Err? then here
      else Prepend(here.value, DividedAll(segments, intervals[1..], width, maxLines))
  }

  lemma SweepIndices(cues: seq<Sweep.Cue>)
    ensures AllInRange(Sweep.SweepOf(cues), |cues|)
  {
    Sweep.SweepExact(cues);
    var r := Sweep.SweepOf(cues);
    forall k | 0 <= k < |r| ensures InRange(r[k], |cues|) {
      assert Sweep.Active(cues, r[k].first) == r[k].active;
      assert forall j :: 0 <= j < |r[k].active| ==> r[k].active[j] in r[k].active;
    }
  }

  /** The layout of normalised captions, on the millisecond clock. */
  function LayOutNormal(normalized: seq<Segment>, width: nat, maxLines: nat): Result<seq<Block>, LayoutError>
    requires width >= 1 && maxLines >= 1
    requires AllMillisProper(normalized)
  {
    SweepIndices(Clock(normalized));
    DividedAll(normalized, Sweep.SweepOf(Clock(normalized)), width, maxLines)
  }

  function LayOut(segments: seq<Segment>, width: int, maxLines: int): Result<seq<Segment>, LayoutError> {
    if width < 1 || maxLines < 1 then Err(BadDimensions)
    else
      var sorted := Sort(StartsNoLater, segments);
      if !AllValid(sorted) then Err(InvalidInterval)
      else
        var normalized := Normalized(sorted);
        if !AllMillisProper(normalized) then Err(SubMillisecond)
        else StampResult(LayOutNormal(normalized, width, maxLines))
  }

  method CheckClock(segments: seq<Segment>) returns (proper: bool)
    ensures proper <==> AllMillisProper(segments)
  {
    for k := 0 to |segments|
      invariant forall i :: 0 <= i < k ==> MillisProper(segments[i])
    {
      if !MillisProper(segments[k]) {
        return false;
      }
    }
    return true;
  }

  /** The stamp of a caption is read back as the same milliseconds. */
  lemma StampReadBack(b: Block)
    ensures Block(Millis(Stamp(b).start), Millis(Stamp(b).end), Stamp(b).text, Stamp(b).speaker) == b
  {
    MillisOfSeconds(b.first);
    MillisOfSeconds(b.last);
  }

  lemma StampConcat(a: seq<Block>, b: seq<Block>)
    ensures StampAll(a) + StampAll(b) == StampAll(a + b)
  {
  }

  method DivideAll(segments: seq<Segment>, intervals: seq<Sweep.Interval>, width: nat, maxLines: nat)
    returns (r: Result<seq<Segment>, LayoutError>)
    requires width >= 1 && maxLines >= 1
    requires AllInRange(intervals, |segments|)
    ensures r == StampResult(DividedAll(segments, intervals, width, maxLines))
  {
    var result := [];
    ghost var blocks := [];
    ghost var whole := DividedAll(segments, intervals, width, maxLines);
    ghost var rest := whole;
    assert intervals[0..] == intervals;
    PrependNothing(whole);
    for k := 0 to |intervals|
      invariant result == StampAll(blocks)
      invariant rest == DividedAll(segments, intervals[k..], width, maxLines)
      invariant whole == Prepend(blocks, rest)
    {
      assert intervals[k..][1..] == intervals[k + 1..];
      var s := Stamp(Caption(segments, intervals[k]));
      StampReadBack(Caption(segments, intervals[k]));
      var part := Divide(s, width, maxLines);
      ghost var here := Divided(Caption(segments, intervals[k]), width, maxLines);
      if part.Err? {
        return Err(part.error);
      }
      rest := DividedAll(segments, intervals[k + 1..], width, maxLines);
      PrependTwice(blocks, here.value, rest);
      StampConcat(blocks, here.value);
      blocks := blocks + here.value;
      result := result + part.value;
    }
    assert rest == Ok([]) && blocks + [] == blocks;
    return Ok(result);
  }

  lemma PrependNothing(r: Result<seq<Block>, LayoutError>)
    ensures Prepend([], r) == r
  {
    assert r.Ok? ==> [] + r.value == r.value;
  }

  lemma PrependTwice(a: seq<Block>, b: seq<Block>, r: Result<seq<Block>, LayoutError>)
    ensures Prepend(a, Prepend(b, r)) == Prepend(a + b, r)
  {
    assert r.Ok? ==> a + (b + r.value) == a + b + r.value;
  }

  method SegmentSubtitles(segments: seq<Segment>, width: int, maxLines: int)
    returns (r: Result<seq<Segment>, LayoutError>)
    ensures r == LayOut(segments, width, maxLines)
  {
    if width < 1 || maxLines < 1 {
      return Err(BadDimensions);
    }
    var normalizing := Normalize(Sort(StartsNoLater, segments));
    if normalizing.Err? {
      return Err(normalizing.error);
    }
    var normalized := normalizing.value;
    var proper := CheckClock(normalized);
    if !proper {
      return Err(SubMillisecond);
    }
    var cues := Clock(normalized);
    var intervals := Sweep.Run(cues);
    SweepIndices(cues);
    r := DivideAll(normalized, intervals, width, maxLines);
  }
}
