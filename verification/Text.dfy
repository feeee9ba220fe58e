/** Lines, words and joins of caption text. A line ends at '\n'; blank, tab and '\n' separate words. */
module Text {
  predicate IsSpace(c: char) {
    c == ' ' || c == '\t' || c == '\n'
  }

  predicate Blank(s: string) {
    forall i :: 0 <= i < |s| ==> IsSpace(s[i])
  }

  /** A nonempty run of characters without white space. */
  predicate IsWord(w: string) {
    w != "" && forall i :: 0 <= i < |w| ==> !IsSpace(w[i])
  }

  predicate AllWords(ws: seq<string>) {
    forall i :: 0 <= i < |ws| ==> IsWord(ws[i])
  }

  predicate OneLine(s: string) {
    forall i :: 0 <= i < |s| ==> s[i] != '\n'
  }

  /** The parts with the separator between them. */
  function Join(sep: string, parts: seq<string>): string {
    if parts == [] then ""
    else if |parts| == 1 then parts[0]
    else parts[0] + sep + Join(sep, parts[1..])
  }

  /** The length of the longest prefix without white space. */
  function WordEnd(s: string): (k: nat)
    ensures k <= |s|
    ensures forall i :: 0 <= i < k ==> !IsSpace(s[i])
    ensures k < |s| ==> IsSpace(s[k])
  {
    if s == "" || IsSpace(s[0]) then 0 else 1 + WordEnd(s[1..])
  }

  function LineEnd(s: string): (k: nat)
    ensures k <= |s|
    ensures OneLine(s[..k])
    ensures k < |s| ==> s[k] == '\n'
  {
    if s == "" || s[0] == '\n' then 0
    else
      var k := LineEnd(s[1..]);
      assert s[..1 + k] == [s[0]] + s[1..][..k];
      1 + k
  }

  /** The words of a text. */
  function Words(s: string): (ws: seq<string>)
    ensures AllWords(ws)
    decreases |s|
  {
    if s == "" then []
    else if IsSpace(s[0]) then Words(s[1..])
    else [s[..WordEnd(s)]] + Words(s[WordEnd(s)..])
  }

  /** The lines of a text. */
  function SplitLines(s: string): (lines: seq<string>)
    ensures forall i :: 0 <= i < |lines| ==> OneLine(lines[i])
    decreases |s|
  {
    if s == "" then []
    else
      var k := LineEnd(s);
      if k == |s| then [s] else [s[..k]] + SplitLines(s[k + 1..])
  }

  /** A text without white space at its start. */
  function StripLeft(s: string): string {
    if s != "" && IsSpace(s[0]) then StripLeft(s[1..]) else s
  }

  function StripRight(s: string): string {
    if s != "" && IsSpace(s[|s| - 1]) then StripRight(s[..|s| - 1]) else s
  }

  function Strip(s: string): string {
    StripRight(StripLeft(s))
  }

  lemma {:induction false} WordEndUnique(s: string, k: nat)
    requires k <= |s|
    requires forall i :: 0 <= i < k ==> !IsSpace(s[i])
    requires k < |s| ==> IsSpace(s[k])
    ensures WordEnd(s) == k
  {
    var e := WordEnd(s);
    assert e < |s| ==> IsSpace(s[e]);
  }

  /** Appending one more word to a line appends it to the line's words. */
  lemma {:induction false} WordsAppend(s: string, w: string)
    requires IsWord(w)
    ensures Words(s + " " + w) == Words(s) + [w]
    decreases |s|
  {
    var t := s + " " + w;
    if s == "" {
      assert t[1..] == w;
      WordEndUnique(w, |w|);
      assert w[..|w|] == w && w[|w|..] == "";
    } else if IsSpace(s[0]) {
      WordsAppend(s[1..], w);
      assert t[1..] == s[1..] + " " + w;
    } else {
      var k := WordEnd(s);
      assert forall i :: 0 <= i < k ==> t[i] == s[i];
      assert IsSpace(t[k]);
      WordEndUnique(t, k);
      assert t[..k] == s[..k] && t[k..] == s[k..] + " " + w;
      WordsAppend(s[k..], w);
    }
  }

  lemma WordsOfWord(w: string)
    requires IsWord(w)
    ensures Words(w) == [w]
  {
    WordEndUnique(w, |w|);
    assert w[..|w|] == w && w[|w|..] == "";
  }

  lemma {:induction false} WordsTrailingSpace(s: string)
    ensures Words(s + " ") == Words(s)
    decreases |s|
  {
    var t := s + " ";
    if s == "" {
      assert t[1..] == "";
    } else if IsSpace(s[0]) {
      assert t[1..] == s[1..] + " ";
      WordsTrailingSpace(s[1..]);
    } else {
      var k := WordEnd(s);
      assert forall i :: 0 <= i < k ==> t[i] == s[i];
      assert IsSpace(t[k]);
      WordEndUnique(t, k);
      assert t[..k] == s[..k] && t[k..] == s[k..] + " ";
      WordsTrailingSpace(s[k..]);
    }
  }

  lemma {:induction false} JoinAppend(sep: string, a: seq<string>, b: seq<string>)
    requires a != [] && b != []
    ensures Join(sep, a + b) == Join(sep, a) + sep + Join(sep, b)
  {
    if |a| == 1 {
      assert (a + b)[1..] == b;
    } else {
      assert (a + b)[1..] == a[1..] + b;
      JoinAppend(sep, a[1..], b);
    }
  }

  /** Splitting a join of words gives the words back. */
  lemma {:induction false} WordsOfJoin(ws: seq<string>)
    requires AllWords(ws)
    ensures Words(Join(" ", ws)) == ws
  {
    if |ws| == 1 {
      WordsOfWord(ws[0]);
    } else if |ws| > 1 {
      var n := |ws| - 1;
      assert ws == ws[..n] + [ws[n]];
      JoinAppend(" ", ws[..n], [ws[n]]);
      WordsAppend(Join(" ", ws[..n]), ws[n]);
      WordsOfJoin(ws[..n]);
    }
  }

  lemma {:induction false} LineEndUnique(s: string, k: nat)
    requires k <= |s|
    requires forall i :: 0 <= i < k ==> s[i] != '\n'
    requires k < |s| ==> s[k] == '\n'
    ensures LineEnd(s) == k
  {
    var e := LineEnd(s);
    assert OneLine(s[..e]);
    assert forall i :: 0 <= i < e ==> s[..e][i] == s[i];
  }

  /** Splitting a join of nonempty lines gives the lines back. */
  lemma {:induction false} LinesOfJoin(lines: seq<string>)
    requires forall i :: 0 <= i < |lines| ==> lines[i] != "" && OneLine(lines[i])
    ensures SplitLines(Join("\n", lines)) == lines
  {
    if lines != [] {
      var s := Join("\n", lines);
      var first := lines[0];
      if |lines| == 1 {
        LineEndUnique(s, |s|);
      } else {
        var rest := Join("\n", lines[1..]);
        assert s == first + "\n" + rest;
        assert forall i :: 0 <= i < |first| ==> s[i] == first[i];
        LineEndUnique(s, |first|);
        assert s[..|first|] == first && s[|first| + 1..] == rest;
        LinesOfJoin(lines[1..]);
      }
    }
  }

  lemma {:induction false} WordsOfBlank(s: string)
    ensures Words(s) == [] <==> Blank(s)
    decreases |s|
  {
    if s != "" && IsSpace(s[0]) {
      WordsOfBlank(s[1..]);
      assert Blank(s) <==> Blank(s[1..]);
    }
  }

  /** A join of words is one line, is not blank and has no white space at either end. */
  lemma {:induction false} JoinWordsShape(ws: seq<string>)
    requires AllWords(ws) && ws != []
    ensures var s := Join(" ", ws); s != "" && OneLine(s) && !IsSpace(s[0]) && !IsSpace(s[|s| - 1])
  {
    if |ws| > 1 {
      JoinWordsShape(ws[1..]);
    }
  }

  lemma {:induction false} StripLeftShape(s: string)
    ensures var r := StripLeft(s); r == "" || !IsSpace(r[0])
    ensures |StripLeft(s)| <= |s|
    ensures StripLeft(s) == "" <==> Blank(s)
    ensures exists k :: 0 <= k <= |s| && StripLeft(s) == s[k..]
  {
    if s != "" && IsSpace(s[0]) {
      StripLeftShape(s[1..]);
      var k :| 0 <= k <= |s[1..]| && StripLeft(s[1..]) == s[1..][k..];
      assert s[1..][k..] == s[k + 1..];
      assert Blank(s) <==> Blank(s[1..]);
    } else {
      assert s == s[0..];
      assert s != "" ==> !Blank(s) by {
        assert s != "" ==> !IsSpace(s[0]);
      }
    }
  }

  lemma {:induction false} StripRightShape(s: string)
    requires s == "" || !IsSpace(s[0])
    ensures var r := StripRight(s);
      (s == "" ==> r == "") && (s != "" ==> r != "" && r[0] == s[0] && !IsSpace(r[|r| - 1])) && |r| <= |s|
  {
    if s != "" && IsSpace(s[|s| - 1]) {
      assert |s| > 1;
      StripRightShape(s[..|s| - 1]);
    }
  }

  /** Stripped text has no white space at its ends, and is empty only for blank text. */
  lemma StripShape(s: string)
    ensures var r := Strip(s); r == "" || (!IsSpace(r[0]) && !IsSpace(r[|r| - 1]))
    ensures Strip(s) == "" <==> Blank(s)
    ensures |Strip(s)| <= |s|
  {
    StripLeftShape(s);
    StripRightShape(StripLeft(s));
  }

  lemma StripOfStripped(s: string)
    requires s == "" || (!IsSpace(s[0]) && !IsSpace(s[|s| - 1]))
    ensures Strip(s) == s
  {
  }

  lemma StripIdempotent(s: string)
    ensures Strip(Strip(s)) == Strip(s)
  {
    StripShape(s);
    StripOfStripped(Strip(s));
  }
}
