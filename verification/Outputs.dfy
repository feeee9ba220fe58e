/** The consumers of a subtitle track: SRT and SAMI output and the validators of worker and editor. */
module Outputs {
  import opened Wrappers
  import opened Rounding
  import opened Text
  import opened Decimal
  import opened Layout

  // ----- SRT -----

  /** `HH:MM:SS,mmm` of a number of milliseconds. */
  function FormatMillis(ms: nat): string {
    Padded(ms / 3600000, 2)
    + (":" + Padded(ms / 60000 % 60, 2) + ":" + Padded(ms / 1000 % 60, 2) + "," + Padded(ms % 1000, 3))
  }

  function ParseMillis(s: string): int
    requires |s| >= 10
  {
    var k := |s| - 10;
    InMillis(Value(s[..k]), Value(s[k + 1..k + 3]), Value(s[k + 4..k + 6]), Value(s[k + 7..]))
  }

  function InMillis(hours: int, minutes: int, seconds: int, millis: int): int {
    hours * 3600000 + minutes * 60000 + seconds * 1000 + millis
  }

  lemma StampParts(h: string, m: string, s: string, r: string)
    requires |m| == 2 && |s| == 2 && |r| == 3
    ensures var text := h + (":" + m + ":" + s + "," + r);
      && |text| == |h| + 10
      && text[..|h|] == h
      && text[|h| + 1..|h| + 3] == m
      && text[|h| + 4..|h| + 6] == s
      && text[|h| + 7..] == r
  {
  }

  lemma ParseParts(text: string, h: string, m: string, s: string, r: string)
    requires |text| == |h| + 10 && text[..|h|] == h
    requires text[|h| + 1..|h| + 3] == m && text[|h| + 4..|h| + 6] == s && text[|h| + 7..] == r
    ensures ParseMillis(text) == InMillis(Value(h), Value(m), Value(s), Value(r))
  {
    hide InMillis, Value;
  }

  lemma PaddedLength(n: nat)
    ensures n < 100 ==> |Padded(n, 2)| == 2
    ensures n < 1000 ==> |Padded(n, 3)| == 3
  {
    ShortNumeral(n);
  }

  /** A time stamp is read back as the milliseconds it was made from. */
  lemma StampRoundTrip(ms: nat)
    ensures |FormatMillis(ms)| >= 10 && ParseMillis(FormatMillis(ms)) == ms
  {
    hide Padded, Value, ParseMillis;
    var h, m, s, r := ms / 3600000, ms / 60000 % 60, ms / 1000 % 60, ms % 1000;
    PaddedLength(m);
    PaddedLength(s);
    PaddedLength(r);
    StampParts(Padded(h, 2), Padded(m, 2), Padded(s, 2), Padded(r, 3));
    ParseParts(FormatMillis(ms), Padded(h, 2), Padded(m, 2), Padded(s, 2), Padded(r, 3));
    ValueOfPadded(h, 2);
    ValueOfPadded(m, 2);
    ValueOfPadded(s, 2);
    ValueOfPadded(r, 3);
    SplitTime(ms);
  }

  lemma SplitTime(ms: nat)
    ensures ms / 3600000 * 3600000 + ms / 60000 % 60 * 60000 + ms / 1000 % 60 * 1000 + ms % 1000 == ms
  {
    var seconds, minutes := ms / 1000, ms / 60000;
    assert minutes == seconds / 60 && ms / 3600000 == minutes / 60;
  }

  /** A stamp is digits with two colons and a comma at their places, counted from its end. */
  predicate StampShaped(s: string) {
    var n := |s|;
    && n >= 12 && s[n - 10] == ':' && s[n - 7] == ':' && s[n - 4] == ','
    && Digits(s[..n - 10]) && Digits(s[n - 9..n - 7]) && Digits(s[n - 6..n - 4]) && Digits(s[n - 3..])
  }

  lemma StampShape(ms: nat)
    ensures StampShaped(FormatMillis(ms)) && (|FormatMillis(ms)| > 12 ==> FormatMillis(ms)[0] != '0')
  {
    hide Padded, Digits;
    var h, m, s, r := ms / 3600000, ms / 60000 % 60, ms / 1000 % 60, ms % 1000;
    PaddedLength(m);
    PaddedLength(s);
    PaddedLength(r);
    PaddedDigits(h, 2);
    PaddedDigits(m, 2);
    PaddedDigits(s, 2);
    PaddedDigits(r, 3);
    PartsShape(Padded(h, 2), Padded(m, 2), Padded(s, 2), Padded(r, 3));
    assert h == 0 ==> |Padded(h, 2)| == 2 by {
      PaddedLength(h);
    }
  }

  lemma PartsShape(h: string, m: string, s: string, r: string)
    requires |h| >= 2 && |m| == 2 && |s| == 2 && |r| == 3
    requires Digits(h) && Digits(m) && Digits(s) && Digits(r)
    ensures var text := h + (":" + m + ":" + s + "," + r);
      StampShaped(text) && |text| == |h| + 10 && text[0] == h[0]
  {
    hide Digits;
    var text := h + (":" + m + ":" + s + "," + r);
    var n := |text|;
    assert text[..n - 10] == h && text[n - 9..n - 7] == m && text[n - 6..n - 4] == s && text[n - 3..] == r;
  }

  datatype OutputError = NegativeTime | EndNotAfterStart | BelowMillisecond | BadInterval | Overlap

  datatype SrtEntry = SrtEntry(index: nat, start: string, end: string, text: string)

  /** The stamp of a time in seconds; negative times have none. */
  function FormatStamp(seconds: real): Result<string, OutputError> {
    if seconds < 0.0 then Err(NegativeTime)
    else
      MillisNonNegative(seconds);
      Ok(FormatMillis(Millis(seconds)))
  }

  /** One cue that is not blank, with the errors in the order the program meets them. */
  function CueToSrt(s: Segment, index: nat): Result<SrtEntry, OutputError> {
    var start := FormatStamp(s.start);
    if start.Err? then Err(start.error)
    else if s.end <= s.start then Err(EndNotAfterStart)
    else
      var end := FormatStamp(s.end);
      if end.Err? then Err(end.error)
      else if start.value == end.value then Err(BelowMillisecond)
      else Ok(SrtEntry(index, start.value, end.value, Strip(s.text)))
  }

  /** A cue that SRT output accepts. */
  predicate SrtAccepts(s: Segment) {
    Blank(s.text) || (0.0 <= s.start < s.end && Millis(s.start) != Millis(s.end))
  }

  predicate AllSrtAccept(segments: seq<Segment>) {
    forall i :: 0 <= i < |segments| ==> SrtAccepts(segments[i])
  }

  lemma SameStamp(a: real, b: real)
    requires 0.0 <= a && 0.0 <= b
    ensures Millis(a) >= 0 && Millis(b) >= 0
    ensures FormatMillis(Millis(a)) == FormatMillis(Millis(b)) <==> Millis(a) == Millis(b)
  {
    MillisNonNegative(a);
    MillisNonNegative(b);
    StampRoundTrip(Millis(a));
    StampRoundTrip(Millis(b));
  }

  /** A cue that is not blank is written iff its rounded times are proper, with stamps that read back as these times. */
  lemma CueToSrtAccepts(s: Segment, index: nat)
    ensures CueToSrt(s, index).Ok? <==> 0.0 <= s.start < s.end && Millis(s.start) != Millis(s.end)
    ensures CueToSrt(s, index).Ok? ==>
      && |CueToSrt(s, index).value.start| >= 10 && ParseMillis(CueToSrt(s, index).value.start) == Millis(s.start)
      && |CueToSrt(s, index).value.end| >= 10 && ParseMillis(CueToSrt(s, index).value.end) == Millis(s.end)
  {
    if 0.0 <= s.start < s.end {
      SameStamp(s.start, s.end);
      StampRoundTrip(Millis(s.start));
      StampRoundTrip(Millis(s.end));
    }
  }

  lemma SrtStep(s: Segment, index: nat)
    ensures Strip(s.text) == "" <==> Blank(s.text)
    ensures SrtAccepts(s) <==> Blank(s.text) || CueToSrt(s, index).Ok?
  {
    StripShape(s.text);
    CueToSrtAccepts(s, index);
  }

  /** The numbered entries of the cues that are not blank. */
  function SrtEntries(segments: seq<Segment>): seq<SrtEntry>
    requires AllSrtAccept(segments)
  {
    if segments == [] then []
    else
      var n := |segments| - 1;
      var before := SrtEntries(segments[..n]);
      assert SrtAccepts(segments[n]);
      CueToSrtAccepts(segments[n], |before| + 1);
      before + if Blank(segments[n].text) then [] else [CueToSrt(segments[n], |before| + 1).value]
  }

  /** How many of the first n cues are not blank. */
  function Spoken(segments: seq<Segment>, n: nat): nat
    requires n <= |segments|
  {
    if n == 0 then 0 else Spoken(segments, n - 1) + if Blank(segments[n - 1].text) then 0 else 1
  }

  lemma {:induction false} SpokenPrefix(segments: seq<Segment>, m: nat, n: nat)
    requires n <= m <= |segments|
    ensures Spoken(segments[..m], n) == Spoken(segments, n)
  {
    if n > 0 {
      SpokenPrefix(segments, m, n - 1);
    }
  }

  /** The entry shows the cue under this number: its text without white space at its ends, and its rounded times. */
  predicate EntryOf(e: SrtEntry, s: Segment, number: nat) {
    && e.index == number && e.text == Strip(s.text)
    && |e.start| >= 10 && ParseMillis(e.start) == Millis(s.start)
    && |e.end| >= 10 && ParseMillis(e.end) == Millis(s.end)
  }

  /** There is an entry for every cue that is not blank, in order and numbered from one, and for no other. */
  lemma {:induction false} EntriesExactly(segments: seq<Segment>, k: nat)
    requires AllSrtAccept(segments)
    ensures |SrtEntries(segments)| == Spoken(segments, |segments|)
    ensures k < |segments| && !Blank(segments[k].text) ==>
      && Spoken(segments, k) < |SrtEntries(segments)|
      && EntryOf(SrtEntries(segments)[Spoken(segments, k)], segments[k], Spoken(segments, k) + 1)
  {
    hide Blank, EntryOf, CueToSrt, SrtAccepts;
    if segments != [] {
      var n := |segments| - 1;
      EntriesExactly(segments[..n], k);
      EntriesNext(segments);
      SpokenPrefix(segments, n, n);
      if k < n {
        SpokenPrefix(segments, n, k);
      }
      if !Blank(segments[n].text) {
        assert SrtAccepts(segments[n]);
        EntryMade(segments[n], Spoken(segments, n) + 1);
      }
    }
  }

  lemma EntriesNext(segments: seq<Segment>)
    requires AllSrtAccept(segments) && segments != []
    ensures var n := |segments| - 1; var before := SrtEntries(segments[..n]);
      && (Blank(segments[n].text) ==> SrtEntries(segments) == before)
      && (!Blank(segments[n].text) ==>
            && CueToSrt(segments[n], |before| + 1).Ok?
            && SrtEntries(segments) == before + [CueToSrt(segments[n], |before| + 1).value])
  {
    hide Blank, CueToSrt, Millis;
    assert SrtAccepts(segments[|segments| - 1]);
    CueToSrtAccepts(segments[|segments| - 1], |SrtEntries(segments[..|segments| - 1])| + 1);
  }

  lemma EntryMade(s: Segment, number: nat)
    requires SrtAccepts(s) && !Blank(s.text)
    ensures CueToSrt(s, number).Ok? && EntryOf(CueToSrt(s, number).value, s, number)
  {
    CueToSrtAccepts(s, number);
  }

  /** What is wrong with a cue, if SRT output refuses it. */
  predicate SrtFault(s: Segment, error: OutputError) {
    && !Blank(s.text)
    && if s.start < 0.0 then error == NegativeTime
       else if s.end <= s.start then error == EndNotAfterStart
       else Millis(s.start) == Millis(s.end) && error == BelowMillisecond
  }

  lemma FaultMade(s: Segment, number: nat)
    requires !Blank(s.text) && CueToSrt(s, number).Err?
    ensures SrtFault(s, CueToSrt(s, number).error)
  {
    CueToSrtAccepts(s, number);
  }

  method SegmentsToSrt(segments: seq<Segment>) returns (r: Result<seq<SrtEntry>, OutputError>)
    ensures r.Ok? <==> AllSrtAccept(segments)
    ensures r.Ok? ==> r.value == SrtEntries(segments)
    ensures r.Err? ==> exists k :: 0 <= k < |segments| && AllSrtAccept(segments[..k]) && SrtFault(segments[k], r.error)
  {
    hide CueToSrt, Strip, Blank, SrtAccepts;
    var blocks: seq<SrtEntry> := [];
    for k := 0 to |segments|
      invariant AllSrtAccept(segments[..k])
      invariant blocks == SrtEntries(segments[..k])
    {
      assert segments[..k + 1][..k] == segments[..k];
      SrtStep(segments[k], |blocks| + 1);
      if Strip(segments[k].text) != "" {
        var entry := CueToSrt(segments[k], |blocks| + 1);
        if entry.Err? {
          assert !SrtAccepts(segments[k]);
          FaultMade(segments[k], |blocks| + 1);
          return Err(entry.error);
        }
        blocks := blocks + [entry.value];
      }
    }
    assert segments[..|segments|] == segments;
    return Ok(blocks);
  }

  // ----- SAMI -----

  type SamiEvents = map<nat, string>

  /** The event map under construction and the end of the last cue written. */
  datatype Sami = Sami(events: SamiEvents, previousEnd: int)

  function SamiStep(state: Sami, s: Segment): Result<Sami, OutputError> {
    if !ValidTimes(s) then Err(BadInterval)
    else
      var start, end := Millis(s.start), Millis(s.end);
      if start < state.previousEnd || end <= start then Err(Overlap)
      else
        MillisNonNegative(s.start);
        MillisNonNegative(s.end);
        if Blank(s.text) then Ok(state)
        else Ok(Sami(state.events[start := s.text][end := ""], end))
  }

  function SamiOf(segments: seq<Segment>): Result<Sami, OutputError> {
    if segments == [] then Ok(Sami(map[0 := ""], 0))
    else
      var n := |segments| - 1;
      var before := SamiOf(segments[..n]);
      if before.Err? then before else SamiStep(before.value, segments[n])
  }

  lemma {:induction false} SamiFails(segments: seq<Segment>, k: nat)
    requires k <= |segments| && SamiOf(segments[..k]).Err?
    ensures SamiOf(segments) == SamiOf(segments[..k])
  {
    if k == |segments| {
      assert segments[..k] == segments;
    } else {
      var n := |segments| - 1;
      assert segments[..n][..k] == segments[..k];
      SamiFails(segments[..n], k);
    }
  }

  lemma SamiNone(segments: seq<Segment>)
    ensures SamiOf(segments[..0]) == Ok(Sami(map[0 := ""], 0))
  {
  }

  lemma SamiNext(segments: seq<Segment>, k: nat)
    requires k < |segments| && SamiOf(segments[..k]).Ok?
    ensures SamiOf(segments[..k + 1]) == SamiStep(SamiOf(segments[..k]).value, segments[k])
  {
    assert segments[..k + 1][..k] == segments[..k];
  }

  method SegmentsToSami(segments: seq<Segment>) returns (r: Result<SamiEvents, OutputError>)
    ensures r == if SamiOf(segments).Err? then Err(SamiOf(segments).error) else Ok(SamiOf(segments).value.events)
  {
    hide SamiOf, Millis, Strip, Blank;
    var events: SamiEvents := map[0 := ""];
    var previousEnd := 0;
    SamiNone(segments);
    for k := 0 to |segments|
      invariant SamiOf(segments[..k]) == Ok(Sami(events, previousEnd))
    {
      SamiNext(segments, k);
      var s := segments[k];
      if !ValidTimes(s) {
        SamiFails(segments, k + 1);
        return Err(BadInterval);
      }
      var start, end := Millis(s.start), Millis(s.end);
      if start < previousEnd || end <= start {
        SamiFails(segments, k + 1);
        return Err(Overlap);
      }
      StripShape(s.text);
      MillisNonNegative(s.start);
      if Strip(s.text) != "" {
        events := events[start := s.text];
        events := events[end := ""];
        previousEnd := end;
      }
    }
    assert segments[..|segments|] == segments;
    return Ok(events);
  }

  /** Every cue has valid times, lasts a millisecond, and begins when all cues before it that say something ended. */
  ghost predicate SamiAccepts(segments: seq<Segment>) {
    && (forall k :: 0 <= k < |segments| ==>
          0.0 <= segments[k].start < segments[k].end && Millis(segments[k].start) < Millis(segments[k].end))
    && (forall j, k :: 0 <= j < k < |segments| && !Blank(segments[j].text) ==>
          Millis(segments[j].end) <= Millis(segments[k].start))
  }

  /** The end that the next cue must not come before. */
  ghost predicate LastEnd(segments: seq<Segment>, end: int) {
    && end >= 0
    && (forall j :: 0 <= j < |segments| && !Blank(segments[j].text) ==> Millis(segments[j].end) <= end)
    && (end == 0 || exists j :: 0 <= j < |segments| && !Blank(segments[j].text) && Millis(segments[j].end) == end)
  }

  /** SAMI output accepts exactly such lists of cues. */
  lemma {:induction false} SamiAcceptance(segments: seq<Segment>)
    ensures SamiOf(segments).Ok? <==> SamiAccepts(segments)
    ensures SamiOf(segments).Ok? ==> LastEnd(segments, SamiOf(segments).value.previousEnd)
  {
    hide Millis, Blank;
    if segments != [] {
      var n := |segments| - 1;
      SamiAcceptance(segments[..n]);
      SamiPrefix(segments);
      if SamiOf(segments[..n]).Ok? {
        SamiAppend(segments[..n], segments[n], SamiOf(segments[..n]).value);
        assert segments == segments[..n] + [segments[n]];
      }
    }
  }

  lemma SamiPrefix(segments: seq<Segment>)
    requires segments != []
    ensures SamiAccepts(segments) ==> SamiAccepts(segments[..|segments| - 1])
  {
  }

  lemma SamiAppend(before: seq<Segment>, s: Segment, state: Sami)
    requires SamiAccepts(before) && LastEnd(before, state.previousEnd)
    ensures SamiStep(state, s).Ok? <==> SamiAccepts(before + [s])
    ensures SamiStep(state, s).Ok? ==> LastEnd(before + [s], SamiStep(state, s).value.previousEnd)
  {
    hide Millis, Blank;
    var all := before + [s];
    assert all[|before|] == s && forall j :: 0 <= j < |before| ==> all[j] == before[j];
    if s.start >= 0.0 {
      MillisNonNegative(s.start);
    }
  }

  /** What a player shows at t: the text of the last event at or before t. */
  function Replay(events: SamiEvents, t: nat): string {
    if t in events then events[t] else if t == 0 then "" else Replay(events, t - 1)
  }

  lemma {:induction false} ReplayUnchanged(a: SamiEvents, b: SamiEvents, t: nat)
    requires forall k: nat :: k <= t ==> (k in a <==> k in b) && (k in a ==> a[k] == b[k])
    ensures Replay(a, t) == Replay(b, t)
  {
    if t !in a && t > 0 {
      ReplayUnchanged(a, b, t - 1);
    }
  }

  lemma {:induction false} ReplaySince(events: SamiEvents, k: nat, t: nat)
    requires k <= t && k in events
    requires forall p: nat :: k < p <= t ==> p !in events
    ensures Replay(events, t) == events[k]
    decreases t
  {
    if k < t {
      ReplaySince(events, k, t - 1);
    }
  }

  /** The text of the cue that covers t, or nothing. */
  function CaptionAt(segments: seq<Segment>, t: nat): string {
    if segments == [] then ""
    else
      var n := |segments| - 1;
      if SpokenAt(segments[n], t) then segments[n].text else CaptionAt(segments[..n], t)
  }

  ghost predicate SamiInvariant(segments: seq<Segment>, state: Sami) {
    && 0 <= state.previousEnd && state.previousEnd as nat in state.events
      && state.events[state.previousEnd as nat] == ""
    && (forall p :: p in state.events ==> p <= state.previousEnd)
    && (forall t: nat :: Replay(state.events, t) == CaptionAt(segments, t))
    && (forall t: nat :: t >= state.previousEnd ==> CaptionAt(segments, t) == "")
  }

  lemma SamiAdd(segments: seq<Segment>, state: Sami, s: Segment)
    requires SamiInvariant(segments, state)
    requires SamiStep(state, s).Ok?
    ensures SamiInvariant(segments + [s], SamiStep(state, s).value)
  {
    var all := segments + [s];
    assert all[..|segments|] == segments;
    var next := SamiStep(state, s).value;
    MillisNonNegative(s.start);
    var start: nat, end: nat := Millis(s.start), Millis(s.end);
    forall t: nat
      ensures Replay(next.events, t) == CaptionAt(all, t)
      ensures t >= next.previousEnd ==> CaptionAt(all, t) == ""
    {
      if !Blank(s.text) {
        if t < start {
          ReplayUnchanged(state.events, next.events, t);
        } else if t < end {
          ReplaySince(next.events, start, t);
        } else {
          ReplaySince(next.events, end, t);
        }
      }
    }
  }

  lemma {:induction false} SamiExact(segments: seq<Segment>)
    requires SamiOf(segments).Ok?
    ensures SamiInvariant(segments, SamiOf(segments).value)
  {
    if segments == [] {
      forall t: nat ensures Replay(map[0 := ""], t) == "" {
        ReplaySince(map[0 := ""], 0, t);
      }
    } else {
      var n := |segments| - 1;
      SamiExact(segments[..n]);
      SamiAdd(segments[..n], SamiOf(segments[..n]).value, segments[n]);
      assert segments[..n] + [segments[n]] == segments;
    }
  }
}
