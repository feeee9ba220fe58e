/** How an interval is shared among its blocks: in proportion to their characters, as far as there is room. */
module LayoutShares {
  import opened Wrappers
  import opened Rounding
  import opened Text
  import opened Layout
  import opened LayoutText
  import opened LayoutProofs
  import opened LayoutTheorems
  import Sweep

  /** The characters of some lines. */
  function Chars(lines: seq<string>): nat {
    if lines == [] then 0 else |lines[0]| + Chars(lines[1..])
  }

  /** The characters of the wrapped lines of some blocks. */
  function CharsOf(blocks: seq<Block>): nat {
    Chars(LinesOf(TextsOf(blocks)))
  }

  /** Where the blocks with the first `part` of `total` characters would end if their time were exactly proportional. */
  function Ideal(first: int, last: int, part: nat, total: nat): real
    requires total > 0
  {
    first as real + ((last - first) * part) as real / total as real
  }

  /**
   The boundary lies within half a millisecond of the ideal one, unless that would leave less than a millisecond behind
   the boundary before it, or for one of the blocks to come: then it is the bound that would be broken.
   */
  predicate Near(boundary: int, lowest: int, highest: int, ideal: real) {
    && lowest <= boundary <= highest
    && (|| -0.5 <= boundary as real - ideal <= 0.5
        || (boundary == lowest && ideal <= lowest as real - 0.5)
        || (boundary == highest && ideal >= highest as real + 0.5))
  }

  /** Between its bounds, a boundary halfway between two milliseconds goes to the even share. */
  predicate TieEven(boundary: int, first: int, lowest: int, highest: int, ideal: real) {
    lowest < boundary < highest && (boundary as real - ideal == 0.5 || boundary as real - ideal == -0.5) ==>
      (boundary - first) % 2 == 0
  }

  /** The blocks of one interval: full but for the last, one behind the other from end to end, each with its share. */
  ghost predicate Shares(v: Sweep.Interval, part: seq<Block>, maxLines: nat) {
    && part != [] && CharsOf(part) > 0
    && part[0].first == v.first && part[|part| - 1].last == v.last
    && (forall k :: 0 <= k < |part| - 1 ==> part[k].last == part[k + 1].first)
    && (forall k :: 0 <= k < |part| - 1 ==> |SplitLines(part[k].text)| == maxLines)
    && (forall k :: 0 < k < |part| ==> ShareAt(v, part, k))
  }

  ghost predicate ShareAt(v: Sweep.Interval, part: seq<Block>, k: nat)
    requires 0 < k < |part| && CharsOf(part) > 0
  {
    var ideal := Ideal(v.first, v.last, CharsOf(part[..k]), CharsOf(part));
    var lowest, highest := part[k - 1].first + 1, v.last - (|part| - k);
    Near(part[k].first, lowest, highest, ideal) && TieEven(part[k].first, v.first, lowest, highest, ideal)
  }

  // ----- weights are characters -----

  lemma {:induction false} WeightConcat(a: string, b: string)
    ensures Weight(a + b) == Weight(a) + Weight(b)
  {
    if a == "" {
      assert a + b == b;
    } else {
      assert (a + b)[1..] == a[1..] + b;
      WeightConcat(a[1..], b);
    }
  }

  lemma {:induction false} WeightOfLine(line: string)
    requires OneLine(line)
    ensures Weight(line) == |line|
  {
    if line != "" {
      assert line[0] != '\n' && forall i :: 0 <= i < |line[1..]| ==> line[1..][i] == line[i + 1];
      WeightOfLine(line[1..]);
    }
  }

  /** The weight of a text is the number of characters of its lines. */
  lemma {:induction false} WeightOfText(text: string)
    ensures Weight(text) == Chars(SplitLines(text))
    decreases |text|
  {
    if text != "" {
      var k := LineEnd(text);
      assert OneLine(text[..k]);
      WeightOfLine(text[..k]);
      if k == |text| {
        assert text[..k] == text && [text][1..] == [];
      } else {
        var rest := text[k + 1..];
        WeightOfText(rest);
        assert text == text[..k] + ("\n" + rest);
        WeightConcat(text[..k], "\n" + rest);
        assert ("\n" + rest)[1..] == rest;
        assert ([text[..k]] + SplitLines(rest))[1..] == SplitLines(rest);
      }
    }
  }

  lemma {:induction false} CharsConcat(a: seq<string>, b: seq<string>)
    ensures Chars(a + b) == Chars(a) + Chars(b)
  {
    if a == [] {
      assert a + b == b;
    } else {
      assert (a + b)[1..] == a[1..] + b;
      CharsConcat(a[1..], b);
    }
  }

  lemma LinesOfLast(texts: seq<string>, last: string)
    ensures LinesOf(texts + [last]) == LinesOf(texts) + SplitLines(last)
  {
    hide SplitLines;
    LinesOfConcat(texts, [last]);
    assert [last][1..] == [] && LinesOf([]) == [];
    assert SplitLines(last) + [] == SplitLines(last);
  }

  lemma ConsumedNext(texts: seq<string>, k: nat)
    requires k < |texts|
    ensures Consumed(Weights(texts), 0) == 0
    ensures Consumed(Weights(texts), k + 1) == Consumed(Weights(texts), k) + Weight(texts[k])
  {
    hide Weight;
  }

  /** The weights that the split adds up are the characters of the blocks. */
  lemma {:induction false} ConsumedChars(texts: seq<string>, k: nat)
    requires k <= |texts|
    ensures Consumed(Weights(texts), k) == Chars(LinesOf(texts[..k]))
  {
    if k == 0 {
      assert texts[..0] == [];
    } else {
      hide Chars, LinesOf, SplitLines, Weight, Consumed, Weights;
      ConsumedChars(texts, k - 1);
      ConsumedNext(texts, k - 1);
      assert texts[..k] == texts[..k - 1] + [texts[k - 1]];
      LinesOfLast(texts[..k - 1], texts[k - 1]);
      CharsConcat(LinesOf(texts[..k - 1]), SplitLines(texts[k - 1]));
      WeightOfText(texts[k - 1]);
    }
  }

  // ----- one boundary -----

  /** A boundary in the middle, from the one before it. */
  lemma BoundaryShare(first: int, last: int, weights: seq<nat>, k: nat)
    requires 0 < k < |weights| && |weights| <= last - first && Consumed(weights, |weights|) > 0
    ensures var ideal := Ideal(first, last, Consumed(weights, k), Consumed(weights, |weights|));
      var lowest, highest := Boundary(first, last, weights, k - 1) + 1, last - (|weights| - k);
      && Near(Boundary(first, last, weights, k), lowest, highest, ideal)
      && TieEven(Boundary(first, last, weights, k), first, lowest, highest, ideal)
  {
    hide HalfEven, Consumed;
    BoundaryRoom(first, last, weights, k - 1);
    var total := Consumed(weights, |weights|);
    var x := ((last - first) * Consumed(weights, k)) as real / total as real;
    var share := HalfEven(x);
    assert Boundary(first, last, weights, k) ==
      Clamped(Boundary(first, last, weights, k - 1), first, last, Consumed(weights, k), total, |weights| - k);
  }

  // ----- the blocks of one interval -----

  lemma {:induction false} ChunksFull<T>(s: seq<T>, size: nat, k: nat)
    requires size >= 1 && k + 1 < |Chunks(s, size)|
    ensures |Chunks(s, size)[k]| == size
  {
    if k > 0 {
      ChunksFull(s[size..], size, k - 1);
    }
  }

  lemma BlocksFull(text: string, width: nat, maxLines: nat, k: nat)
    requires width >= 1 && maxLines >= 1 && k + 1 < |Blocks(text, width, maxLines)|
    ensures |SplitLines(Blocks(text, width, maxLines)[k])| == maxLines
  {
    var lines := WrapAll(SplitLines(text), width);
    var chunks := Chunks(lines, maxLines);
    WrapAllContract(SplitLines(text), width);
    ChunksContract(lines, maxLines);
    ChunksFull(lines, maxLines, k);
    assert chunks[k] in chunks;
    ChunkGood(lines, chunks[k], width);
    GoodLinesJoin(chunks[k], width);
  }

  lemma SomeChars(texts: seq<string>, width: nat, maxLines: nat)
    requires texts != [] && BlockText(texts[0], width, maxLines)
    ensures Chars(LinesOf(texts)) > 0
  {
    var lines := SplitLines(texts[0]);
    GoodLineShape(lines[0], width);
    assert LinesOf(texts)[0] == lines[0];
  }

  lemma TimedTexts(c: Block, texts: seq<string>, k: nat)
    requires k <= |texts|
    ensures TextsOf(Timed(c, texts)) == texts && TextsOf(Timed(c, texts)[..k]) == texts[..k]
  {
  }

  lemma TimedShareAt(c: Block, v: Sweep.Interval, texts: seq<string>, k: nat)
    requires 0 < k < |texts| && |texts| <= c.last - c.first && Chars(LinesOf(texts)) > 0
    requires c.first == v.first && c.last == v.last
    ensures CharsOf(Timed(c, texts)) > 0 && ShareAt(v, Timed(c, texts), k)
  {
    hide Boundary, Near, TieEven, Chars, LinesOf, Consumed, Timed, Ideal;
    TimedTexts(c, texts, |texts|);
    TimedTexts(c, texts, k);
    ConsumedChars(texts, |texts|);
    ConsumedChars(texts, k);
    assert texts[..|texts|] == texts;
    BoundaryShare(c.first, c.last, Weights(texts), k);
  }

  lemma TimedEnds(c: Block, texts: seq<string>)
    requires texts != []
    ensures var part := Timed(c, texts);
      && part[0].first == c.first && part[|part| - 1].last == c.last
      && (forall k :: 0 <= k < |part| - 1 ==> part[k].last == part[k + 1].first)
      && (forall k :: 0 <= k < |part| ==> part[k].text == texts[k])
  {
  }

  lemma TimedShares(c: Block, v: Sweep.Interval, texts: seq<string>, width: nat, maxLines: nat)
    requires width >= 1 && maxLines >= 1 && texts != [] && texts == Blocks(c.text, width, maxLines)
    requires c.first == v.first && c.last == v.last && |texts| <= c.last - c.first
    ensures Shares(v, Timed(c, texts), maxLines)
  {
    hide Blocks, ShareAt, Chars, LinesOf, SplitLines, TimedBlock, BlockText;
    var part := Timed(c, texts);
    BlocksContract(c.text, width, maxLines);
    SomeChars(texts, width, maxLines);
    TimedTexts(c, texts, |texts|);
    TimedEnds(c, texts);
    forall k | 0 <= k < |part| - 1 ensures |SplitLines(part[k].text)| == maxLines {
      BlocksFull(c.text, width, maxLines, k);
    }
    forall k | 0 < k < |part| ensures ShareAt(v, part, k) {
      TimedShareAt(c, v, texts, k);
    }
  }

  // ----- the whole layout -----

  /**
   Every interval's time is shared among its blocks in proportion to the characters of their wrapped lines, to the
   millisecond, as far as every block gets one; and no block but the last of an interval has lines to spare.
   */
  lemma LayoutProportional(segments: seq<Segment>, width: nat, maxLines: nat, out: seq<Segment>)
    returns (parts: seq<seq<Block>>)
    requires LayOut(segments, width, maxLines) == Ok(out)
    ensures AllMillisProper(Input(segments)) && out == StampAll(Flatten(parts))
    ensures var intervals := Sweep.SweepOf(Clock(Input(segments)));
      |parts| == |intervals| && forall j :: 0 <= j < |parts| ==> Shares(intervals[j], parts[j], maxLines)
  {
    hide LayOut, Shares, Blocks;
    var blocks := Success(segments, width, maxLines, out);
    var n := Input(segments);
    var intervals := Sweep.SweepOf(Clock(n));
    SweepGood(Clock(n));
    parts := DividedAllParts(n, intervals, width, maxLines, blocks);
    forall j | 0 <= j < |parts| ensures Shares(intervals[j], parts[j], maxLines) {
      DividedShares(n, intervals[j], width, maxLines, parts[j]);
    }
  }

  lemma DividedShares(segments: seq<Segment>, v: Sweep.Interval, width: nat, maxLines: nat, part: seq<Block>)
    requires width >= 1 && maxLines >= 1
    requires InRange(v, |segments|) && Exacts(segments) && v.first < v.last && v.active != []
    requires Divided(Caption(segments, v), width, maxLines) == Ok(part)
    ensures Shares(v, part, maxLines)
  {
    hide Blocks, Shares;
    var c := Caption(segments, v);
    var texts := Blocks(c.text, width, maxLines);
    DividedContract(segments, v, width, maxLines, part);
    assert part == Timed(c, texts);
    assert SomeShowing(part, v.first);
    TimedShares(c, v, texts, width, maxLines);
  }
}
