/**
 Greedy wrapping of one caption line: `textwrap.wrap` with long words broken and hyphens kept,
 on a line whose words are separated by single blanks.
 */
module Wrap {
  import opened Wrappers
  import opened Text

  /** The characters of some words and the words themselves: drops at every step that uses up a word. */
  function Mass(ws: seq<string>): nat {
    if ws == [] then 0 else |ws[0]| + 1 + Mass(ws[1..])
  }

  /** One step of the wrapper: at most one finished line, and the line and words to go on with. */
  datatype Step = Step(out: Option<string>, line: string, ws: seq<string>, noRoom: bool)

  /**
   `line` is the output line under construction ("" when none has been started), `ws` what is left.
   A word too long for any line fills up the current line; when the line and the blank behind it
   leave no room at all, nothing of the word is taken and the blank stays at the end of the line.
   */
  function NextStep(line: string, ws: seq<string>, width: nat): (s: Step)
    requires width >= 1
    requires AllWords(ws) && ws != []
    ensures AllWords(s.ws)
    ensures Mass(s.ws) < Mass(ws) || (s.ws == ws && line != "" && s.line == "")
  {
    var w, rest := ws[0], ws[1..];
    assert IsWord(w);
    if line == "" then
      if |w| <= width then Step(None, w, rest, false) else Step(Some(w[..width]), "", [w[width..]] + rest, false)
    else if |line| + 1 > width then Step(Some(line), "", ws, false)
    else if |line| + 1 + |w| <= width then Step(None, line + " " + w, rest, false)
    else if |w| > width then
      var room := width - |line| - 1;
      if room == 0 then Step(Some(line + " "), "", ws, true)
      else Step(Some(line + " " + w[..room]), "", [w[room..]] + rest, false)
    else Step(Some(line), "", ws, false)
  }

  function WrapFrom(line: string, ws: seq<string>, width: nat): seq<string>
    requires width >= 1
    requires AllWords(ws)
    decreases Mass(ws), |line|
  {
    if ws == [] then
      if line == "" then [] else [line]
    else
      var s := NextStep(line, ws, width);
      (if s.out.Some? then [s.out.value] else []) + WrapFrom(s.line, s.ws, width)
  }

  /** The lines that `textwrap` makes of a line of words separated by single blanks. */
  function WrapLine(line: string, width: nat): seq<string>
    requires width >= 1
  {
    WrapFrom("", Words(line), width)
  }

  /** Some step meets a word longer than the width while line and blank fill the width exactly. */
  predicate NoRoomBreak(line: string, ws: seq<string>, width: nat)
    requires width >= 1
    requires AllWords(ws)
    decreases Mass(ws), |line|
  {
    if ws == [] then false
    else
      var s := NextStep(line, ws, width);
      s.noRoom || NoRoomBreak(s.line, s.ws, width)
  }

  /** A line that is its words with single blanks between them. */
  predicate Tidy(line: string) {
    Words(line) != [] && Join(" ", Words(line)) == line
  }

  lemma TidyWord(w: string)
    requires IsWord(w)
    ensures Tidy(w)
  {
    WordsOfWord(w);
  }

  lemma TidyAppend(line: string, w: string)
    requires Tidy(line) && IsWord(w)
    ensures Tidy(line + " " + w)
  {
    WordsAppend(line, w);
    JoinAppend(" ", Words(line), [w]);
  }

  lemma TidyShape(line: string)
    requires Tidy(line)
    ensures line != "" && OneLine(line) && !IsSpace(line[0]) && !IsSpace(line[|line| - 1]) && !Blank(line)
  {
    JoinWordsShape(Words(line));
    WordsOfBlank(line);
  }

  /** Every output line fits, and is tidy up to one blank kept at its end. */
  ghost predicate GoodLine(line: string, width: nat) {
    && 1 <= |line| <= width
    && (Tidy(line) || (line[|line| - 1] == ' ' && Tidy(line[..|line| - 1])))
  }

  ghost predicate AllGood(lines: seq<string>, width: nat) {
    forall i :: 0 <= i < |lines| ==> GoodLine(lines[i], width)
  }

  /**
   A step finishes good lines only, keeps a good line going, and leaves a blank at a line's end iff there was no
   room.
   */
  lemma StepGood(line: string, ws: seq<string>, width: nat)
    requires width >= 1 && AllWords(ws) && ws != []
    requires line == "" || (Tidy(line) && |line| <= width)
    ensures var s := NextStep(line, ws, width);
      && (s.out.Some? ==> GoodLine(s.out.value, width))
      && (s.line == "" || (Tidy(s.line) && |s.line| <= width))
      && (s.noRoom <==> s.out.Some? && !Tidy(s.out.value))
      && (s.out.None? ==> s.line != "")
  {
    var w := ws[0];
    assert IsWord(w);
    if line == "" {
      TidyWord(w);
      if |w| > width { TidyWord(w[..width]); }
    } else if |line| + 1 <= width {
      var room := width - |line| - 1;
      if |w| <= room {
        TidyAppend(line, w);
      } else if |w| > width && room > 0 {
        TidyAppend(line, w[..room]);
      } else if |w| > width {
        assert (line + " ")[..|line|] == line;
        if Tidy(line + " ") { TidyShape(line + " "); }
      }
    }
  }

  ghost predicate AllTidy(lines: seq<string>) {
    forall i :: 0 <= i < |lines| ==> Tidy(lines[i])
  }

  lemma ConsGood(x: string, lines: seq<string>, width: nat)
    ensures AllGood([x] + lines, width) <==> GoodLine(x, width) && AllGood(lines, width)
    ensures AllTidy([x] + lines) <==> Tidy(x) && AllTidy(lines)
  {
    var all := [x] + lines;
    assert all[0] == x && forall i :: 0 <= i < |lines| ==> all[i + 1] == lines[i];
    assert forall i :: 0 < i < |all| ==> all[i] == lines[i - 1];
  }

  /** Wrapping finishes good lines only; they are all tidy iff no long word is broken with no room left. */
  lemma {:induction false} LinesFit(line: string, ws: seq<string>, width: nat)
    requires width >= 1 && AllWords(ws)
    requires line == "" || (Tidy(line) && |line| <= width)
    ensures AllGood(WrapFrom(line, ws, width), width)
    ensures line != "" || ws != [] ==> WrapFrom(line, ws, width) != []
    ensures AllTidy(WrapFrom(line, ws, width)) <==> !NoRoomBreak(line, ws, width)
    decreases Mass(ws), |line|
  {
    if ws != [] {
      var s := NextStep(line, ws, width);
      var rest := WrapFrom(s.line, s.ws, width);
      StepGood(line, ws, width);
      LinesFit(s.line, s.ws, width);
      if s.out.Some? {
        ConsGood(s.out.value, rest, width);
      } else {
        assert [] + rest == rest;
      }
    } else {
      assert line != "" ==> WrapFrom(line, ws, width) == [line];
    }
  }

  /** The characters other than blanks, in order. */
  function Solid(s: string): string {
    if s == "" then "" else (if IsSpace(s[0]) then "" else [s[0]]) + Solid(s[1..])
  }

  function SolidAll(lines: seq<string>): string {
    if lines == [] then "" else Solid(lines[0]) + SolidAll(lines[1..])
  }

  lemma {:induction false} SolidConcat(a: string, b: string)
    ensures Solid(a + b) == Solid(a) + Solid(b)
  {
    if a == "" {
      assert a + b == b;
    } else {
      assert (a + b)[1..] == a[1..] + b;
      SolidConcat(a[1..], b);
    }
  }

  lemma SolidCons(x: string, lines: seq<string>)
    ensures SolidAll([x] + lines) == Solid(x) + SolidAll(lines)
  {
    assert ([x] + lines)[1..] == lines;
  }

  lemma Assoc(a: string, b: string, c: string)
    ensures a + (b + c) == a + b + c
  {
  }

  lemma Units(a: string)
    ensures a + "" == a && "" + a == a
  {
  }

  lemma SolidBlank(line: string, w: string)
    ensures Solid(line + " " + w) == Solid(line) + Solid(w)
  {
    SolidConcat(line, " ");
    assert Solid(" ") == "" by { assert " "[1..] == ""; }
    SolidConcat(line + " ", w);
  }

  lemma SolidSplit(w: string, k: nat, rest: seq<string>)
    requires k <= |w|
    ensures Solid(w[..k]) + SolidAll([w[k..]] + rest) == SolidAll([w] + rest)
  {
    assert ([w[k..]] + rest)[1..] == rest && ([w] + rest)[1..] == rest;
    SolidConcat(w[..k], w[k..]);
    assert w[..k] + w[k..] == w;
  }

  lemma BreakKeeps(line: string, w: string, room: nat, rest: seq<string>)
    requires room <= |w|
    ensures Solid(line + " " + w[..room]) + SolidAll([w[room..]] + rest) == Solid(line) + SolidAll([w] + rest)
  {
    SolidBlank(line, w[..room]);
    SolidSplit(w, room, rest);
    Assoc(Solid(line), Solid(w[..room]), SolidAll([w[room..]] + rest));
  }

  /** What a state of the wrapper still holds, in order. */
  function Held(line: string, ws: seq<string>): string {
    Solid(line) + SolidAll(ws)
  }

  /** What a step has put out and what it leaves behind. */
  function After(s: Step): string {
    (if s.out.Some? then Solid(s.out.value) else "") + Held(s.line, s.ws)
  }

  lemma FreshKeeps(ws: seq<string>, width: nat)
    requires width >= 1 && AllWords(ws) && ws != []
    ensures After(NextStep("", ws, width)) == Held("", ws)
  {
    var w, rest := ws[0], ws[1..];
    assert IsWord(w) && ws == [w] + rest;
    Units(SolidAll(ws));
    if |w| > width {
      SolidSplit(w, width, rest);
      Units(SolidAll([w[width..]] + rest));
    } else {
      SolidCons(w, rest);
      Units(Held(w, rest));
    }
  }

  lemma JoinedKeeps(line: string, w: string, rest: seq<string>)
    ensures Held(line + " " + w, rest) == Held(line, [w] + rest)
  {
    SolidBlank(line, w);
    SolidCons(w, rest);
    Assoc(Solid(line), Solid(w), SolidAll(rest));
  }

  lemma StepKeeps(line: string, ws: seq<string>, width: nat)
    requires width >= 1 && AllWords(ws) && ws != []
    ensures After(NextStep(line, ws, width)) == Held(line, ws)
  {
    hide Solid, SolidAll;
    var w, rest := ws[0], ws[1..];
    assert IsWord(w) && ws == [w] + rest;
    EmptySolid();
    if line == "" {
      FreshKeeps(ws, width);
    } else if |line| + 1 <= width && |line| + 1 + |w| <= width {
      JoinedKeeps(line, w, rest);
      Units(Held(line + " " + w, rest));
    } else if |line| + 1 <= width && |w| > width {
      var room := width - |line| - 1;
      BreakKeeps(line, w, room, rest);
      Units(SolidAll([w[room..]] + rest));
      if room == 0 {
        Units(line + " ");
        assert w[..0] == "" && w[0..] == w;
      }
    } else {
      Units(SolidAll(ws));
    }
  }

  lemma EmptySolid()
    ensures Solid("") == ""
  {
  }

  /** Wrapping keeps every character that is not a blank, in order. */
  lemma {:induction false} SolidKept(line: string, ws: seq<string>, width: nat)
    requires width >= 1 && AllWords(ws)
    ensures SolidAll(WrapFrom(line, ws, width)) == Solid(line) + SolidAll(ws)
    decreases Mass(ws), |line|
  {
    if ws != [] {
      var s := NextStep(line, ws, width);
      var rest := WrapFrom(s.line, s.ws, width);
      var head := if s.out.Some? then Solid(s.out.value) else "";
      SolidKept(s.line, s.ws, width);
      assert SolidAll(WrapFrom(line, ws, width)) == head + SolidAll(rest) by {
        if s.out.Some? {
          SolidCons(s.out.value, rest);
        } else {
          assert [] + rest == rest;
        }
      }
      StepKeeps(line, ws, width);
    }
  }

  /** Whatever still fits behind the current line joins it. */
  lemma {:induction false} FitsAlone(line: string, ws: seq<string>, width: nat)
    requires width >= 1 && AllWords(ws)
    requires line != "" && |Join(" ", [line] + ws)| <= width
    ensures WrapFrom(line, ws, width) == [Join(" ", [line] + ws)]
    decreases |ws|
  {
    if ws != [] {
      var w, rest := ws[0], ws[1..];
      assert ([line] + ws)[1..] == ws && [line] + ws == [line, w] + rest;
      assert IsWord(w);
      var next := line + " " + w;
      if rest == [] {
        assert [line] + ws == [line, w];
        assert Join(" ", [next]) == next;
        assert WrapFrom(line, ws, width) == WrapFrom(next, rest, width);
      } else {
        assert ([next] + rest)[1..] == rest;
        assert Join(" ", [next] + rest) == Join(" ", [line] + ws);
        FitsAlone(next, rest, width);
      }
    }
  }

  /** A tidy line that fits is returned alone. */
  lemma TidyLineAlone(line: string, width: nat)
    requires width >= 1
    requires Tidy(line) && |line| <= width
    ensures WrapLine(line, width) == [line]
  {
    var ws := Words(line);
    assert ws == [ws[0]] + ws[1..];
    assert IsWord(ws[0]);
    FitsAlone(ws[0], ws[1..], width);
    assert |ws[0]| <= width by {
      if |ws| > 1 { JoinAppend(" ", [ws[0]], ws[1..]); }
    }
    assert WrapFrom("", ws, width) == WrapFrom(ws[0], ws[1..], width);
  }

  /** The contract of the wrapper on a line of words. */
  lemma WrapContract(line: string, width: nat)
    requires width >= 1
    ensures AllGood(WrapLine(line, width), width)
    ensures Words(line) != [] ==> WrapLine(line, width) != []
    ensures SolidAll(WrapLine(line, width)) == SolidAll(Words(line))
  {
    LinesFit("", Words(line), width);
    SolidKept("", Words(line), width);
    Units(SolidAll(Words(line)));
  }

  /** Wrapping "abcd efghijk" at width 5 keeps the blank behind "abcd". */
  lemma BlankKeptExample()
    ensures NoRoomBreak("", ["abcd", "efghijk"], 5)
    ensures WrapFrom("", ["abcd", "efghijk"], 5) == ["abcd ", "efghi", "jk"]
  {
    LongWordExample();
    var ws := ["abcd", "efghijk"];
    assert ws[1..] == ["efghijk"];
    assert "abcd" + " " == "abcd ";
    assert AllWords(["efghijk"]);
    assert NextStep("abcd", ["efghijk"], 5) == Step(Some("abcd "), "", ["efghijk"], true);
    assert NextStep("", ws, 5) == Step(None, "abcd", ["efghijk"], false);
  }

  lemma LongWordExample()
    ensures AllWords(["efghijk"]) && WrapFrom("", ["efghijk"], 5) == ["efghi", "jk"]
  {
    assert ["efghijk"][1..] == [] && ["jk"][1..] == [];
    assert "efghijk"[..5] == "efghi" && "efghijk"[5..] == "jk";
    assert NextStep("", ["efghijk"], 5) == Step(Some("efghi"), "", ["jk"], false);
    assert NextStep("", ["jk"], 5) == Step(None, "jk", [], false);
    assert WrapFrom("", ["jk"], 5) == ["jk"];
  }
}
