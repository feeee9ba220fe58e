/**
 What happens to caption text on its way through the layout: normalised, joined, split, wrapped and cut into blocks.
 */
module LayoutText {
  import opened Text
  import opened Wrap
  import opened Layout

  predicate Breaks(line: string, width: nat)
    requires width >= 1
  {
    NoRoomBreak("", Words(line), width)
  }

  /** No line of the list meets a break without room. */
  ghost predicate Roomy(lines: seq<string>, width: nat)
    requires width >= 1
  {
    forall i :: 0 <= i < |lines| ==> !Breaks(lines[i], width)
  }

  lemma ConcatEach(a: seq<string>, b: seq<string>, width: nat)
    requires width >= 1
    ensures AllTidy(a + b) <==> AllTidy(a) && AllTidy(b)
    ensures AllGood(a + b, width) <==> AllGood(a, width) && AllGood(b, width)
    ensures Roomy(a + b, width) <==> Roomy(a, width) && Roomy(b, width)
  {
    var c := a + b;
    assert forall i :: 0 <= i < |a| ==> c[i] == a[i];
    assert forall i :: 0 <= i < |b| ==> c[|a| + i] == b[i];
    assert forall i :: |a| <= i < |c| ==> c[i] == b[i - |a|];
  }

  lemma {:induction false} NormalTidy(lines: seq<string>)
    ensures AllTidy(NormalLines(lines))
  {
    if lines != [] {
      NormalTidy(lines[1..]);
      if !Blank(lines[0]) {
        WordsOfBlank(lines[0]);
        WordsOfJoin(Words(lines[0]));
        ConcatEach([Join(" ", Words(lines[0]))], NormalLines(lines[1..]), 1);
      }
    }
  }

  lemma TidyLines(lines: seq<string>)
    requires AllTidy(lines)
    ensures forall i :: 0 <= i < |lines| ==> lines[i] != "" && OneLine(lines[i]) && !Blank(lines[i])
  {
    forall i | 0 <= i < |lines| ensures lines[i] != "" && OneLine(lines[i]) && !Blank(lines[i]) {
      TidyShape(lines[i]);
    }
  }

  lemma JoinEmpty(lines: seq<string>)
    requires forall i :: 0 <= i < |lines| ==> lines[i] != ""
    ensures Join("\n", lines) == "" <==> lines == []
  {
  }

  /** Normal text splits back into its normal lines. */
  lemma NormalTextLines(text: string)
    ensures SplitLines(NormalText(text)) == NormalLines(SplitLines(text))
    ensures NormalText(text) == "" <==> NormalLines(SplitLines(text)) == []
    ensures AllTidy(NormalLines(SplitLines(text)))
  {
    var lines := NormalLines(SplitLines(text));
    NormalTidy(SplitLines(text));
    TidyLines(lines);
    LinesOfJoin(lines);
    JoinEmpty(lines);
  }

  /** The lines of several texts, one text after the other. */
  function LinesOf(texts: seq<string>): seq<string> {
    if texts == [] then [] else SplitLines(texts[0]) + LinesOf(texts[1..])
  }

  /** A text that is exactly its lines, none of them empty. */
  ghost predicate Exact(text: string) {
    && SplitLines(text) != []
    && (forall i :: 0 <= i < |SplitLines(text)| ==> SplitLines(text)[i] != "")
    && Join("\n", SplitLines(text)) == text
  }

  lemma {:induction false} JoinTexts(texts: seq<string>)
    requires forall i :: 0 <= i < |texts| ==> Exact(texts[i])
    ensures Join("\n", texts) == Join("\n", LinesOf(texts))
    ensures forall i :: 0 <= i < |LinesOf(texts)| ==> LinesOf(texts)[i] != "" && OneLine(LinesOf(texts)[i])
    ensures texts != [] ==> LinesOf(texts) != []
  {
    if texts != [] {
      var rest := texts[1..];
      JoinTexts(rest);
      if rest == [] {
        assert LinesOf(texts) == SplitLines(texts[0]) + [] == SplitLines(texts[0]);
      } else {
        JoinAppend("\n", SplitLines(texts[0]), LinesOf(rest));
      }
    }
  }

  /** Texts joined by line breaks split into all their lines. */
  lemma LinesOfTexts(texts: seq<string>)
    requires forall i :: 0 <= i < |texts| ==> Exact(texts[i])
    ensures SplitLines(Join("\n", texts)) == LinesOf(texts)
  {
    JoinTexts(texts);
    LinesOfJoin(LinesOf(texts));
  }

  lemma RoomyCons(lines: seq<string>, width: nat)
    requires width >= 1 && lines != []
    ensures Roomy(lines, width) <==> !Breaks(lines[0], width) && Roomy(lines[1..], width)
  {
    assert forall i :: 0 < i < |lines| ==> lines[i] == lines[1..][i - 1];
  }

  lemma {:induction false} WrapAllContract(lines: seq<string>, width: nat)
    requires width >= 1
    ensures AllGood(WrapAll(lines, width), width)
    ensures lines != [] && AllTidy(lines) ==> WrapAll(lines, width) != []
    ensures AllTidy(WrapAll(lines, width)) <==> Roomy(lines, width)
  {
    if lines != [] {
      var here, rest := WrapLine(lines[0], width), WrapAll(lines[1..], width);
      WrapAllContract(lines[1..], width);
      LinesFit("", Words(lines[0]), width);
      ConcatEach(here, rest, width);
      RoomyCons(lines, width);
      if AllTidy(lines) {
        assert Tidy(lines[0]);
      }
    }
  }

  /** Wrapping all lines keeps every character that is not a blank, in order. */
  lemma {:induction false} WrapAllSolid(lines: seq<string>, width: nat)
    requires width >= 1 && AllTidy(lines)
    ensures SolidAll(WrapAll(lines, width)) == SolidAll(lines)
  {
    if lines != [] {
      var here, rest := WrapLine(lines[0], width), WrapAll(lines[1..], width);
      WrapAllSolid(lines[1..], width);
      WrapContract(lines[0], width);
      SolidOfWords(Words(lines[0]));
      SolidAppend(here, rest);
    }
  }

  lemma {:induction false} SolidAppend(a: seq<string>, b: seq<string>)
    ensures SolidAll(a + b) == SolidAll(a) + SolidAll(b)
  {
    if a == [] {
      assert a + b == b;
      Units(SolidAll(b));
    } else {
      assert a + b == [a[0]] + (a[1..] + b);
      SolidCons(a[0], a[1..] + b);
      SolidAppend(a[1..], b);
      Assoc(Solid(a[0]), SolidAll(a[1..]), SolidAll(b));
    }
  }

  lemma {:induction false} SolidOfWords(ws: seq<string>)
    ensures Solid(Join(" ", ws)) == SolidAll(ws)
  {
    if |ws| == 1 {
      assert ws == [ws[0]] + [];
      SolidCons(ws[0], []);
      Units(Solid(ws[0]));
    } else if |ws| > 1 {
      SolidBlank(ws[0], Join(" ", ws[1..]));
      SolidOfWords(ws[1..]);
    }
  }

  /** A chunk holds lines of the list, at least one and at most `size` of them. */
  ghost predicate ChunkOf(c: seq<string>, lines: seq<string>, size: nat) {
    1 <= |c| <= size && forall l :: l in c ==> l in lines
  }

  lemma ChunkOfMore(c: seq<string>, lines: seq<string>, size: nat)
    requires size <= |lines| && ChunkOf(c, lines[size..], size)
    ensures ChunkOf(c, lines, size)
  {
  }

  lemma {:induction false} ChunksContract(lines: seq<string>, size: nat)
    requires size >= 1
    ensures Flatten(Chunks(lines, size)) == lines
    ensures forall c :: c in Chunks(lines, size) ==> ChunkOf(c, lines, size)
  {
    if |lines| > size {
      var first, rest := lines[..size], Chunks(lines[size..], size);
      ChunksContract(lines[size..], size);
      assert ([first] + rest)[1..] == rest && first + lines[size..] == lines;
      assert ChunkOf(first, lines, size);
      forall c | c in rest ensures ChunkOf(c, lines, size) {
        ChunkOfMore(c, lines, size);
      }
    } else if lines != [] {
      assert [lines][1..] == [];
    }
  }

  /** A text of one to maxLines good lines: what a block of a caption looks like. */
  ghost predicate BlockText(text: string, width: nat, maxLines: nat) {
    var lines := SplitLines(text);
    && 1 <= |lines| <= maxLines
    && AllGood(lines, width)
    && Join("\n", lines) == text
  }

  lemma GoodLineShape(line: string, width: nat)
    requires GoodLine(line, width)
    ensures line != "" && OneLine(line) && !Blank(line)
  {
    if Tidy(line) {
      TidyShape(line);
    } else {
      var most := line[..|line| - 1];
      TidyShape(most);
      assert line == most + " ";
      assert !Blank(line) by {
        var i :| 0 <= i < |most| && !IsSpace(most[i]);
        assert line[i] == most[i];
      }
    }
  }

  lemma GoodLinesJoin(lines: seq<string>, width: nat)
    requires AllGood(lines, width)
    ensures SplitLines(Join("\n", lines)) == lines
  {
    forall i | 0 <= i < |lines| ensures lines[i] != "" && OneLine(lines[i]) {
      GoodLineShape(lines[i], width);
    }
    LinesOfJoin(lines);
  }

  lemma {:induction false} BlockLines(chunks: seq<seq<string>>, width: nat)
    requires forall c :: c in chunks ==> AllGood(c, width)
    ensures LinesOf(BlockTexts(chunks)) == Flatten(chunks)
  {
    if chunks != [] {
      assert chunks[0] in chunks;
      GoodLinesJoin(chunks[0], width);
      assert BlockTexts(chunks)[1..] == BlockTexts(chunks[1..]);
      BlockLines(chunks[1..], width);
    }
  }

  lemma ChunkGood(lines: seq<string>, c: seq<string>, width: nat)
    requires AllGood(lines, width)
    requires forall l :: l in c ==> l in lines
    ensures AllGood(c, width)
  {
    forall i | 0 <= i < |c| ensures GoodLine(c[i], width) {
      assert c[i] in lines;
    }
  }

  /** Blocks are good blocks which together keep all wrapped lines in order. */
  lemma BlocksContract(text: string, width: nat, maxLines: nat)
    requires width >= 1 && maxLines >= 1
    ensures forall k :: 0 <= k < |Blocks(text, width, maxLines)| ==>
      BlockText(Blocks(text, width, maxLines)[k], width, maxLines)
    ensures LinesOf(Blocks(text, width, maxLines)) == WrapAll(SplitLines(text), width)
  {
    var lines := WrapAll(SplitLines(text), width);
    WrapAllContract(SplitLines(text), width);
    var chunks := Chunks(lines, maxLines);
    ChunksContract(lines, maxLines);
    forall c | c in chunks ensures AllGood(c, width) {
      ChunkGood(lines, c, width);
    }
    BlockLines(chunks, width);
    forall k | 0 <= k < |chunks| ensures BlockText(BlockTexts(chunks)[k], width, maxLines) {
      assert chunks[k] in chunks;
      GoodLinesJoin(chunks[k], width);
    }
  }

  /** A line without the blank that a break without room leaves at its end. */
  function Tidied(line: string): string {
    if line != "" && line[|line| - 1] == ' ' then line[..|line| - 1] else line
  }

  lemma TidiedLine(line: string, width: nat)
    requires GoodLine(line, width)
    ensures Tidy(Tidied(line)) && |Tidied(line)| <= width
    ensures Words(line) == Words(Tidied(line)) && Join(" ", Words(line)) == Tidied(line)
    ensures Tidied(line) == line <==> Tidy(line)
  {
    GoodLineShape(line, width);
    if Tidy(line) {
      TidyShape(line);
    } else {
      assert line == line[..|line| - 1] + " ";
      WordsTrailingSpace(line[..|line| - 1]);
    }
  }

  function TidiedAll(lines: seq<string>): (r: seq<string>)
    ensures |r| == |lines|
    ensures forall i :: 0 <= i < |r| ==> r[i] == Tidied(lines[i])
  {
    seq(|lines|, i requires 0 <= i < |lines| => Tidied(lines[i]))
  }

  lemma {:induction false} NormalOfGood(lines: seq<string>, width: nat)
    requires AllGood(lines, width)
    ensures NormalLines(lines) == TidiedAll(lines)
  {
    hide Words, Join, Tidied, Tidy, Blank, GoodLine;
    if lines != [] {
      GoodLineShape(lines[0], width);
      TidiedLine(lines[0], width);
      NormalOfGood(lines[1..], width);
      assert TidiedAll(lines) == [Tidied(lines[0])] + TidiedAll(lines[1..]);
    }
  }

  /** Normalising a block only drops blanks at line ends; the lines then fit as they are. */
  lemma NormalBlock(text: string, width: nat, maxLines: nat)
    requires width >= 1 && maxLines >= 1
    requires BlockText(text, width, maxLines)
    ensures NormalText(text) != ""
    ensures Blocks(NormalText(text), width, maxLines) == [NormalText(text)]
    ensures NormalText(text) == text <==> AllTidy(SplitLines(text))
  {
    var lines := SplitLines(text);
    var tidied := TidiedAll(lines);
    NormalOfGood(lines, width);
    NormalTextLines(text);
    forall i | 0 <= i < |lines|
      ensures Tidy(tidied[i]) && |tidied[i]| <= width && (tidied[i] == lines[i] <==> Tidy(lines[i]))
    {
      TidiedLine(lines[i], width);
    }
    WrapShort(tidied, width);
    assert Chunks(tidied, maxLines) == [tidied];
    assert BlockTexts([tidied]) == [Join("\n", tidied)];
    if AllTidy(lines) {
      assert tidied == lines;
    }
    if NormalText(text) == text {
      assert tidied == lines;
    }
  }

  lemma {:induction false} WrapShort(lines: seq<string>, width: nat)
    requires width >= 1
    requires forall i :: 0 <= i < |lines| ==> Tidy(lines[i]) && |lines[i]| <= width
    ensures WrapAll(lines, width) == lines
  {
    if lines != [] {
      TidyLineAlone(lines[0], width);
      WrapShort(lines[1..], width);
      assert [lines[0]] + lines[1..] == lines;
    }
  }
}
