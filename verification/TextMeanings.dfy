/** What stripping, lines, words and wrapping are, in characters and positions. */
module TextMeanings {
  import opened Wrappers
  import opened Text
  import opened Wrap
  import opened Layout
  import opened LayoutText

  predicate White(s: string) {
    forall k :: 0 <= k < |s| ==> s[k] == ' ' || s[k] == '\t' || s[k] == '\n'
  }

  predicate NoWhite(s: string) {
    forall k :: 0 <= k < |s| ==> s[k] != ' ' && s[k] != '\t' && s[k] != '\n'
  }

  // ----- stripping -----

  /** The part from a to b, with nothing but white space on either side of it. */
  predicate Core(s: string, a: nat, b: nat, core: string) {
    a <= b <= |s| && core == s[a..b] && White(s[..a]) && White(s[b..])
  }

  lemma {:induction false} LeftCut(s: string) returns (a: nat)
    ensures a <= |s| && StripLeft(s) == s[a..] && White(s[..a])
  {
    if s != "" && IsSpace(s[0]) {
      a := LeftCut(s[1..]);
      a := a + 1;
      assert s[a..] == s[1..][a - 1..];
      assert s[..a] == [s[0]] + s[1..][..a - 1];
    } else {
      a := 0;
    }
  }

  lemma {:induction false} RightCut(s: string) returns (b: nat)
    ensures b <= |s| && StripRight(s) == s[..b] && White(s[b..])
  {
    b := |s|;
    if s != "" && IsSpace(s[|s| - 1]) {
      b := RightCut(s[..|s| - 1]);
      assert s[..b] == s[..|s| - 1][..b];
      assert s[b..] == s[..|s| - 1][b..] + [s[|s| - 1]];
    }
  }

  /** Stripping takes the white space off both ends, and nothing else. */
  lemma StripExactly(s: string) returns (a: nat, b: nat)
    ensures Core(s, a, b, Strip(s))
    ensures Strip(s) != "" ==> NoWhite([Strip(s)[0]]) && NoWhite([Strip(s)[|Strip(s)| - 1]])
  {
    a := LeftCut(s);
    b := RightCut(s[a..]);
    b := a + b;
    assert s[a..b] == s[a..][..b - a] && s[b..] == s[a..][b - a..];
    StripShape(s);
  }

  // ----- lines -----

  /** What stands behind the last line: a line end, if the text has one there. */
  function LastEnd(s: string): string {
    if s != "" && s[|s| - 1] == '\n' then "\n" else ""
  }

  lemma JoinFirst(first: string, lines: seq<string>)
    ensures Join("\n", [first] + lines) == if lines == [] then first else first + "\n" + Join("\n", lines)
  {
    assert ([first] + lines)[1..] == lines;
  }

  lemma LastEndOf(first: string, rest: string)
    ensures LastEnd(first + "\n" + rest) == if rest == "" then "\n" else LastEnd(rest)
  {
    var s := first + "\n" + rest;
    assert rest != "" ==> s[|s| - 1] == rest[|rest| - 1];
  }

  /** The lines are what stands between the line ends; a last line end closes the last line. */
  lemma {:induction false} LinesExactly(s: string)
    ensures SplitLines(s) == [] <==> s == ""
    ensures s == Join("\n", SplitLines(s)) + LastEnd(s)
    decreases |s|
  {
    hide Join, LastEnd;
    if s == "" {
      NoLines();
    } else {
      var k := LineEnd(s);
      if k == |s| {
        assert s[..k] == s;
        OnlyLine(s);
      } else {
        var rest := s[k + 1..];
        assert s == s[..k] + "\n" + rest;
        LinesExactly(rest);
        JoinFirst(s[..k], SplitLines(rest));
        LastEndOf(s[..k], rest);
      }
    }
  }

  lemma NoLines()
    ensures Join("\n", []) == "" && LastEnd("") == ""
  {
  }

  lemma OnlyLine(s: string)
    requires OneLine(s)
    ensures Join("\n", [s]) == s && LastEnd(s) == ""
  {
  }

  /** No line holds a line end. */
  lemma LinesApart(s: string)
    ensures forall k :: 0 <= k < |SplitLines(s)| ==> '\n' !in SplitLines(s)[k]
  {
    forall k | 0 <= k < |SplitLines(s)| ensures '\n' !in SplitLines(s)[k] {
      assert OneLine(SplitLines(s)[k]);
    }
  }

  // ----- words -----

  /** The text is these words, whole runs without white space, with white space before, between and behind them. */
  ghost predicate Spells(s: string, ws: seq<string>)
    decreases |ws|
  {
    if ws == [] then White(s) else exists a: nat, b: nat :: Begins(s, ws, a, b) && Spells(s[b..], ws[1..])
  }

  predicate Begins(s: string, ws: seq<string>, a: nat, b: nat)
    requires ws != []
  {
    a < b <= |s| && White(s[..a]) && s[a..b] == ws[0] && NoWhite(ws[0]) && (b < |s| ==> White([s[b]]))
  }

  lemma {:induction false} WordsSpell(s: string)
    ensures Spells(s, Words(s))
    decreases |s|
  {
    hide White, NoWhite;
    if s == "" {
      NothingWhite();
    } else if IsSpace(s[0]) {
      WordsSpell(s[1..]);
      SpaceBefore(s, Words(s[1..]));
    } else {
      var b := WordEnd(s);
      WordsSpell(s[b..]);
      assert Words(s)[1..] == Words(s[b..]);
      FirstWord(s);
    }
  }

  lemma NothingWhite()
    ensures White("")
  {
  }

  lemma WhiteBefore(s: string, a: nat)
    requires s != "" && IsSpace(s[0]) && a < |s|
    ensures White(s[1..][..a]) ==> White(s[..a + 1])
  {
    assert s[..a + 1] == [s[0]] + s[1..][..a];
  }

  lemma SpaceBefore(s: string, ws: seq<string>)
    requires s != "" && IsSpace(s[0]) && Spells(s[1..], ws)
    ensures Spells(s, ws)
  {
    hide White, NoWhite;
    if ws == [] {
      WhiteBefore(s, |s| - 1);
      assert s[1..][..|s| - 1] == s[1..] && s[..|s|] == s;
    } else {
      var a: nat, b: nat :| Begins(s[1..], ws, a, b) && Spells(s[1..][b..], ws[1..]);
      WhiteBefore(s, a);
      assert s[a + 1..b + 1] == s[1..][a..b] && s[b + 1..] == s[1..][b..];
      assert Begins(s, ws, a + 1, b + 1);
    }
  }

  lemma FirstWord(s: string)
    requires s != "" && !IsSpace(s[0])
    ensures WordEnd(s) > 0 && Begins(s, Words(s), 0, WordEnd(s))
  {
    assert Words(s)[0] == s[..WordEnd(s)];
  }

  lemma {:induction false} SkipWhite(s: string, a: nat)
    requires a <= |s| && White(s[..a])
    ensures Words(s) == Words(s[a..])
  {
    if a > 0 {
      assert s[0] == s[..a][0];
      assert s[1..][..a - 1] == s[..a][1..];
      SkipWhite(s[1..], a - 1);
      assert s[a..] == s[1..][a - 1..];
    } else {
      assert s[0..] == s;
    }
  }

  lemma WordAt(s: string, ws: seq<string>, a: nat, b: nat)
    requires ws != [] && Begins(s, ws, a, b)
    ensures Words(s) == [ws[0]] + Words(s[b..])
  {
    SkipWhite(s, a);
    var t := s[a..];
    assert t[..b - a] == ws[0] && t[b - a..] == s[b..];
    assert forall k :: 0 <= k < b - a ==> t[k] == ws[0][k];
    assert b < |s| ==> t[b - a] == [s[b]][0];
    WordEndUnique(t, b - a);
  }

  /** The words of a text are the only ones that spell it. */
  lemma {:induction false} WordsExactly(s: string, ws: seq<string>)
    ensures Spells(s, ws) <==> ws == Words(s)
    decreases |ws|
  {
    hide White, NoWhite, Words;
    WordsSpell(s);
    if Spells(s, ws) {
      if ws == [] {
        WordsOfBlank(s);
        WhiteIsBlank(s);
      } else {
        var a: nat, b: nat :| Begins(s, ws, a, b) && Spells(s[b..], ws[1..]);
        WordAt(s, ws, a, b);
        WordsExactly(s[b..], ws[1..]);
        assert ws == [ws[0]] + ws[1..];
      }
    }
  }

  /** How many of the first n lines are not white. */
  function Filled(lines: seq<string>, n: nat): nat
    requires n <= |lines|
  {
    if n == 0 then 0 else Filled(lines, n - 1) + if White(lines[n - 1]) then 0 else 1
  }

  lemma WhiteIsBlank(s: string)
    ensures White(s) <==> Blank(s)
  {
  }

  lemma {:induction false} NormalConcat(a: seq<string>, b: seq<string>)
    ensures NormalLines(a + b) == NormalLines(a) + NormalLines(b)
  {
    if a == [] {
      assert a + b == b;
    } else {
      assert (a + b)[1..] == a[1..] + b;
      NormalConcat(a[1..], b);
    }
  }

  lemma NormalLineOf(line: string)
    ensures NormalLines([line]) == if White(line) then [] else [Join(" ", Words(line))]
  {
    WhiteIsBlank(line);
    assert [line][1..] == [];
  }

  lemma {:induction false} NormalCount(lines: seq<string>, n: nat)
    requires n <= |lines|
    ensures |NormalLines(lines[..n])| == Filled(lines, n)
  {
    hide White, Join, Words;
    if n > 0 {
      NormalCount(lines, n - 1);
      NormalLineOf(lines[n - 1]);
      NormalConcat(lines[..n - 1], [lines[n - 1]]);
      assert lines[..n] == lines[..n - 1] + [lines[n - 1]];
    }
  }

  lemma NormalAt(lines: seq<string>, i: nat)
    requires i < |lines| && !White(lines[i])
    ensures Filled(lines, i) < |NormalLines(lines)|
    ensures NormalLines(lines)[Filled(lines, i)] == Join(" ", Words(lines[i]))
  {
    hide White, Join, Words, NormalLines, Filled;
    var before, here, later := lines[..i], [lines[i]], lines[i + 1..];
    assert lines == before + (here + later);
    NormalCount(lines, i);
    NormalConcat(before, here + later);
    NormalConcat(here, later);
    NormalLineOf(lines[i]);
  }

  /** Normal text has a line for every line that is not white, in order, with single blanks between its words. */
  lemma NormalExactly(text: string, i: nat)
    requires i < |SplitLines(text)|
    ensures var lines := SplitLines(text);
      && SplitLines(NormalText(text)) == NormalLines(lines) && |NormalLines(lines)| == Filled(lines, |lines|)
      && (!White(lines[i]) ==>
            && Filled(lines, i) < |NormalLines(lines)|
            && NormalLines(lines)[Filled(lines, i)] == Join(" ", Words(lines[i])))
  {
    hide White, Join, Words, NormalText, SplitLines, NormalLines, Filled;
    var lines := SplitLines(text);
    NormalTextLines(text);
    NormalCount(lines, |lines|);
    assert lines[..|lines|] == lines;
    if !White(lines[i]) {
      NormalAt(lines, i);
    }
  }

  // ----- wrapping, line by line -----

  /**
   The next line of some words: the first k of them, as many as fit. If the word behind them is too long for any line,
   it is broken and fills up the line; when its blank just fits, the blank alone is taken.
   */
  ghost predicate FirstLine(ws: seq<string>, width: nat, k: nat, line: string, rest: seq<string>) {
    && k <= |ws| && |Join(" ", ws[..k])| <= width
    && if k == |ws| then line == Join(" ", ws) && rest == []
       else
         && |Join(" ", ws[..k + 1])| > width
         && var head := if k == 0 then "" else Join(" ", ws[..k]) + " ";
         if |ws[k]| <= width || |head| > width then line == Join(" ", ws[..k]) && rest == ws[k..]
         else if |head| == width then line == head && rest == ws[k..]
         else line == head + ws[k][..width - |head|] && rest == [ws[k][width - |head|..]] + ws[k + 1..]
  }

  /** These lines are made one after the other, each the next line of the words that are left. */
  ghost predicate LineByLine(ws: seq<string>, width: nat, lines: seq<string>)
    decreases |lines|
  {
    if ws == [] || lines == [] then ws == [] && lines == []
    else exists k, rest :: FirstLine(ws, width, k, lines[0], rest) && LineByLine(rest, width, lines[1..])
  }

  lemma JoinNonempty(ws: seq<string>)
    requires AllWords(ws)
    ensures Join(" ", ws) == "" <==> ws == []
  {
    if ws != [] {
      JoinWordsShape(ws);
    }
  }

  /** From the words that the line holds already and the words to come to the end of the line. */
  lemma {:induction false} WrapLineFrom(done: seq<string>, ws: seq<string>, width: nat)
    returns (k: nat, line: string, rest: seq<string>)
    requires width >= 1 && AllWords(done) && AllWords(ws) && done + ws != []
    requires |Join(" ", done)| <= width
    ensures FirstLine(done + ws, width, k, line, rest) && AllWords(rest)
    ensures WrapFrom(Join(" ", done), ws, width) == [line] + WrapFrom("", rest, width)
    decreases |ws|
  {
    hide WrapFrom, FirstLine, Join, NextStep;
    var head := Join(" ", done);
    JoinNonempty(done);
    if ws == [] {
      k, line, rest := |done|, head, ws;
      LastLine(done, width);
    } else {
      var longer := done + [ws[0]];
      JoinOneMore(done, ws[0]);
      WrapStep(head, ws, width);
      if |Join(" ", longer)| <= width {
        LineGrows(done, ws, width);
        assert longer + ws[1..] == done + ws && IsWord(ws[0]);
        k, line, rest := WrapLineFrom(longer, ws[1..], width);
      } else {
        k := |done|;
        line, rest := LineEnds(done, ws, width);
      }
    }
  }

  lemma LastLine(done: seq<string>, width: nat)
    requires width >= 1 && AllWords(done) && done != [] && |Join(" ", done)| <= width
    ensures FirstLine(done + [], width, |done|, Join(" ", done), [])
    ensures WrapFrom(Join(" ", done), [], width) == [Join(" ", done)] + WrapFrom("", [], width)
  {
    JoinNonempty(done);
    assert done + [] == done && done[..|done|] == done;
  }

  lemma JoinOneMore(done: seq<string>, w: string)
    ensures Join(" ", done + [w]) == if done == [] then w else Join(" ", done) + " " + w
  {
    if done != [] {
      JoinAppend(" ", done, [w]);
    }
  }

  lemma WrapStep(line: string, ws: seq<string>, width: nat)
    requires width >= 1 && AllWords(ws) && ws != []
    ensures var s := NextStep(line, ws, width);
      WrapFrom(line, ws, width) == (if s.out.Some? then [s.out.value] else []) + WrapFrom(s.line, s.ws, width)
  {
  }

  /** The next word fits, and the line goes on. */
  lemma LineGrows(done: seq<string>, ws: seq<string>, width: nat)
    requires width >= 1 && AllWords(done) && AllWords(ws) && ws != [] && |Join(" ", done + [ws[0]])| <= width
    ensures NextStep(Join(" ", done), ws, width) == Step(None, Join(" ", done + [ws[0]]), ws[1..], false)
  {
    hide Join;
    JoinNonempty(done);
    JoinOneMore(done, ws[0]);
  }

  /** The next word does not fit as a whole: the line ends, with a part of a word that is too long for any line. */
  lemma LineEnds(done: seq<string>, ws: seq<string>, width: nat) returns (line: string, rest: seq<string>)
    requires width >= 1 && AllWords(done) && AllWords(ws) && ws != []
    requires |Join(" ", done)| <= width < |Join(" ", done + [ws[0]])|
    ensures FirstLine(done + ws, width, |done|, line, rest) && AllWords(rest)
    ensures NextStep(Join(" ", done), ws, width).out == Some(line)
    ensures NextStep(Join(" ", done), ws, width).line == "" && NextStep(Join(" ", done), ws, width).ws == rest
  {
    hide Join;
    JoinNonempty(done);
    JoinOneMore(done, ws[0]);
    var s := NextStep(Join(" ", done), ws, width);
    line, rest := s.out.value, s.ws;
    var all := done + ws;
    assert all[..|done|] == done && all[|done|..] == ws && all[|done|] == ws[0];
    assert all[..|done| + 1] == done + [ws[0]] && all[|done| + 1..] == ws[1..];
  }

  /** The wrapped lines of some words come about line by line. */
  lemma {:induction false} WrapsLineByLine(ws: seq<string>, width: nat, n: nat)
    requires width >= 1 && AllWords(ws) && |WrapFrom("", ws, width)| == n
    ensures LineByLine(ws, width, WrapFrom("", ws, width))
    decreases n
  {
    hide WrapFrom, FirstLine;
    WrapNothing(width);
    if ws != [] {
      var none: seq<string> := [];
      assert none + ws == ws && Join(" ", none) == "";
      var k, line, rest := WrapLineFrom(none, ws, width);
      var lines := WrapFrom("", ws, width);
      assert lines[0] == line && lines[1..] == WrapFrom("", rest, width);
      WrapsLineByLine(rest, width, n - 1);
      assert FirstLine(ws, width, k, lines[0], rest) && LineByLine(rest, width, lines[1..]);
    }
  }

  lemma WrapNothing(width: nat)
    requires width >= 1
    ensures WrapFrom("", [], width) == []
  {
  }

  lemma JoinLonger(ws: seq<string>, j: nat, k: nat)
    requires j < k <= |ws|
    ensures |Join(" ", ws[..j + 1])| <= |Join(" ", ws[..k])|
  {
    if j + 1 < k {
      assert ws[..k] == ws[..j + 1] + ws[j + 1..k];
      JoinAppend(" ", ws[..j + 1], ws[j + 1..k]);
    }
  }

  lemma FirstLineOnly(ws: seq<string>, width: nat, j: nat, k: nat, line: string, rest: seq<string>, other: string,
                      left: seq<string>)
    requires FirstLine(ws, width, j, line, rest) && FirstLine(ws, width, k, other, left)
    ensures j == k && line == other && rest == left
  {
    if j < k {
      JoinLonger(ws, j, k);
    } else if k < j {
      JoinLonger(ws, k, j);
    }
  }

  lemma {:induction false} LineByLineOnly(ws: seq<string>, width: nat, a: seq<string>, b: seq<string>)
    requires LineByLine(ws, width, a) && LineByLine(ws, width, b)
    ensures a == b
    decreases |a|
  {
    hide FirstLine;
    if ws != [] {
      var j, rest :| FirstLine(ws, width, j, a[0], rest) && LineByLine(rest, width, a[1..]);
      var k, left :| FirstLine(ws, width, k, b[0], left) && LineByLine(left, width, b[1..]);
      FirstLineOnly(ws, width, j, k, a[0], rest, b[0], left);
      LineByLineOnly(rest, width, a[1..], b[1..]);
      assert a == [a[0]] + a[1..] && b == [b[0]] + b[1..];
    }
  }

  /** Wrapping is greedy: its lines are the only ones that are made line by line, each as full as it can be. */
  lemma WrapExactly(text: string, width: nat, lines: seq<string>)
    requires width >= 1
    ensures LineByLine(Words(text), width, lines) <==> lines == WrapLine(text, width)
  {
    WrapsLineByLine(Words(text), width, |WrapLine(text, width)|);
    if LineByLine(Words(text), width, lines) {
      LineByLineOnly(Words(text), width, lines, WrapLine(text, width));
    }
  }
}
