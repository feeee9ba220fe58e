/** A laid-out track is accepted by every consumer, and SRT and SAMI show the same. */
module Consumers {
  import opened Wrappers
  import opened Rounding
  import opened Text
  import opened Wrap
  import opened Layout
  import opened LayoutText
  import opened LayoutProofs
  import opened LayoutTheorems
  import opened LayoutSuccess
  import opened Outputs

  // ----- the validators -----

  datatype CueError = BadDuration | BadNames | NoCues | TooMany | OutsideTimeline | CuesOverlap | BadText | Unwritable

  predicate CueTimes(s: Segment, duration: real) {
    0.0 <= s.start < s.end <= duration + 0.05
  }

  /** One millisecond of overlap is tolerated. */
  predicate FollowsCue(s: Segment, previousEnd: real) {
    s.start >= previousEnd - 0.001
  }

  predicate CueText(s: Segment) {
    !Blank(s.text) && |SplitLines(s.text)| <= 2
  }

  predicate InSequence(cues: seq<Segment>) {
    forall k :: 0 < k < |cues| ==> FollowsCue(cues[k], cues[k - 1].end)
  }

  /** What the worker demands of a track before it writes it. */
  ghost predicate CuesValid(cues: seq<Segment>, duration: real) {
    && duration > 0.0
    && cues != []
    && (forall k :: 0 <= k < |cues| ==> CueTimes(cues[k], duration) && CueText(cues[k]))
    && InSequence(cues)
  }

  /** What is wrong with the k-th cue, when nothing is with those before it: its times, its order, or its text. */
  ghost predicate CueFault(cues: seq<Segment>, duration: real, k: int, error: CueError) {
    && 0 <= k < |cues|
    && (forall j :: 0 <= j < k ==> CueTimes(cues[j], duration) && CueText(cues[j]))
    && (forall j :: 0 < j < k ==> FollowsCue(cues[j], cues[j - 1].end))
    && if !CueTimes(cues[k], duration) then error == OutsideTimeline
       else if k > 0 && !FollowsCue(cues[k], cues[k - 1].end) then error == CuesOverlap
       else !CueText(cues[k]) && error == BadText
  }

  method ValidateCues(cues: seq<Segment>, duration: real) returns (error: Option<CueError>)
    ensures error.None? <==> CuesValid(cues, duration)
    ensures error.Some? ==>
      if duration <= 0.0 then error.value == BadDuration
      else if cues == [] then error.value == NoCues
      else exists k :: CueFault(cues, duration, k, error.value)
  {
    if duration <= 0.0 {
      return Some(BadDuration);
    }
    var previousEnd := 0.0;
    if cues == [] {
      return Some(NoCues);
    }
    for k := 0 to |cues|
      invariant previousEnd == if k == 0 then 0.0 else cues[k - 1].end
      invariant forall j :: 0 <= j < k ==> CueTimes(cues[j], duration) && CueText(cues[j])
      invariant forall j :: 0 < j < k ==> FollowsCue(cues[j], cues[j - 1].end)
    {
      if !CueTimes(cues[k], duration) {
        assert CueFault(cues, duration, k, OutsideTimeline);
        return Some(OutsideTimeline);
      }
      StartsAfterZero(cues[k], duration);
      if !FollowsCue(cues[k], previousEnd) {
        assert CueFault(cues, duration, k, CuesOverlap);
        return Some(CuesOverlap);
      }
      if !CueText(cues[k]) {
        assert CueFault(cues, duration, k, BadText);
        return Some(BadText);
      }
      previousEnd := cues[k].end;
    }
    return None;
  }

  /** Imported captions may overlap as long as they start in order. */
  function SequenceEnd(s: Segment, imported: bool): real {
    if imported then s.start else s.end
  }

  ghost predicate Following(cues: seq<Segment>, imported: bool) {
    forall k :: 0 < k < |cues| ==> FollowsCue(cues[k], SequenceEnd(cues[k - 1], imported))
  }

  predicate TrackText(s: Segment, imported: bool) {
    !Blank(s.text) && |s.text| <= 1000 && (imported || |SplitLines(s.text)| <= 2)
  }

  /** What the editor demands of each track. */
  ghost predicate TrackValid(cues: seq<Segment>, duration: real, allowEmpty: bool, imported: bool) {
    && (if allowEmpty then 0 else 1) <= |cues| <= 10000
    && (forall k :: 0 <= k < |cues| ==> CueTimes(cues[k], duration) && TrackText(cues[k], imported))
    && Following(cues, imported)
    && AllSrtAccept(cues)
  }

  /** The same for a track of the editor. */
  ghost predicate TrackFault(cues: seq<Segment>, duration: real, imported: bool, k: int, error: CueError) {
    && 0 <= k < |cues|
    && (forall j :: 0 <= j < k ==> CueTimes(cues[j], duration) && TrackText(cues[j], imported))
    && (forall j :: 0 < j < k ==> FollowsCue(cues[j], SequenceEnd(cues[j - 1], imported)))
    && if !CueTimes(cues[k], duration) then error == OutsideTimeline
       else if k > 0 && !FollowsCue(cues[k], SequenceEnd(cues[k - 1], imported)) then error == CuesOverlap
       else !TrackText(cues[k], imported) && error == BadText
  }

  /** The loop over the cues of one track. */
  method CheckCues(cues: seq<Segment>, duration: real, imported: bool) returns (error: Option<CueError>)
    ensures error.Some? ==> exists k :: TrackFault(cues, duration, imported, k, error.value)
    ensures error.None? <==>
      (forall k :: 0 <= k < |cues| ==> CueTimes(cues[k], duration) && TrackText(cues[k], imported))
        && Following(cues, imported)
  {
    hide CueTimes, TrackText;
    var previousEnd := 0.0;
    for k := 0 to |cues|
      invariant previousEnd == if k == 0 then 0.0 else SequenceEnd(cues[k - 1], imported)
      invariant forall j :: 0 <= j < k ==> CueTimes(cues[j], duration) && TrackText(cues[j], imported)
      invariant forall j :: 0 < j < k ==> FollowsCue(cues[j], SequenceEnd(cues[j - 1], imported))
    {
      if !CueTimes(cues[k], duration) {
        assert TrackFault(cues, duration, imported, k, OutsideTimeline);
        return Some(OutsideTimeline);
      }
      StartsAfterZero(cues[k], duration);
      if !FollowsCue(cues[k], previousEnd) {
        assert TrackFault(cues, duration, imported, k, CuesOverlap);
        return Some(CuesOverlap);
      }
      if !TrackText(cues[k], imported) {
        assert TrackFault(cues, duration, imported, k, BadText);
        return Some(BadText);
      }
      previousEnd := SequenceEnd(cues[k], imported);
    }
    return None;
  }

  lemma StartsAfterZero(s: Segment, duration: real)
    requires CueTimes(s, duration)
    ensures FollowsCue(s, 0.0)
  {
  }

  /** The worker's rules in numbers: at most a twentieth of a second past the end, and a millisecond of overlap. */
  lemma CuesValidExactly(cues: seq<Segment>, duration: real)
    ensures CuesValid(cues, duration) <==>
      && duration > 0.0 && |cues| > 0
      && (forall k :: 0 <= k < |cues| ==>
            && 0.0 <= cues[k].start < cues[k].end <= duration + 0.05
            && Strip(cues[k].text) != "" && |SplitLines(cues[k].text)| <= 2)
      && (forall k :: 0 < k < |cues| ==> cues[k].start - cues[k - 1].end >= -0.001)
  {
    forall k | 0 <= k < |cues| ensures Strip(cues[k].text) == "" <==> Blank(cues[k].text) {
      StripShape(cues[k].text);
    }
  }

  /** The editor's rules in numbers; imported captions may have more lines, and overlap if they start in order. */
  lemma TrackValidExactly(cues: seq<Segment>, duration: real, allowEmpty: bool, imported: bool)
    ensures TrackValid(cues, duration, allowEmpty, imported) <==>
      && (|cues| > 0 || allowEmpty) && |cues| <= 10000
      && (forall k :: 0 <= k < |cues| ==>
            && 0.0 <= cues[k].start < cues[k].end <= duration + 0.05 && Millis(cues[k].start) != Millis(cues[k].end)
            && Strip(cues[k].text) != "" && |cues[k].text| <= 1000
            && (imported || |SplitLines(cues[k].text)| <= 2))
      && (forall k :: 0 < k < |cues| ==>
            cues[k].start - (if imported then cues[k - 1].start else cues[k - 1].end) >= -0.001)
  {
    hide Millis;
    forall k | 0 <= k < |cues| ensures Strip(cues[k].text) == "" <==> Blank(cues[k].text) {
      StripShape(cues[k].text);
    }
  }

  /** Why a track is refused: its size, else its first cue at fault, else that SRT cannot show it. */
  ghost predicate TrackError(cues: seq<Segment>, duration: real, allowEmpty: bool, imported: bool, error: CueError) {
    if (cues == [] && !allowEmpty) || |cues| > 10000 then error == TooMany
    else (exists k :: TrackFault(cues, duration, imported, k, error)) || (error == Unwritable && !AllSrtAccept(cues))
  }

  method ValidateTrack(cues: seq<Segment>, duration: real, allowEmpty: bool, imported: bool)
    returns (error: Option<CueError>)
    ensures error.None? <==> TrackValid(cues, duration, allowEmpty, imported)
    ensures error.Some? ==> TrackError(cues, duration, allowEmpty, imported, error.value)
  {
    hide CueTimes, TrackText, Following, AllSrtAccept;
    if !((if allowEmpty then 0 else 1) <= |cues| <= 10000) {
      return Some(TooMany);
    }
    error := CheckCues(cues, duration, imported);
    if error.Some? {
      return;
    }
    var written := SegmentsToSrt(cues);
    return if written.Ok? then None else Some(Unwritable);
  }

  /** The tracks of a draft by name. */
  type Tracks = map<string, seq<Segment>>

  /** What the editor demands of a draft: exactly the tracks named, and each of them valid. */
  ghost predicate TracksValid(tracks: Tracks, names: set<string>, duration: real, allowEmpty: bool, imported: bool) {
    && duration > 0.0
    && tracks.Keys == names
    && (forall name :: name in tracks ==> TrackValid(tracks[name], duration, allowEmpty, imported))
  }

  method ValidateTracks(tracks: Tracks, names: set<string>, duration: real, allowEmpty: bool, imported: bool)
    returns (error: Option<CueError>)
    ensures error.None? <==> TracksValid(tracks, names, duration, allowEmpty, imported)
    ensures error.Some? ==>
      if duration <= 0.0 then error.value == BadDuration
      else if tracks.Keys != names then error.value == BadNames
      else exists name :: name in tracks && TrackError(tracks[name], duration, allowEmpty, imported, error.value)
  {
    if duration <= 0.0 {
      return Some(BadDuration);
    }
    if tracks.Keys != names {
      return Some(BadNames);
    }
    var toDo := tracks.Keys;
    while toDo != {}
      invariant toDo <= tracks.Keys
      invariant forall name :: name in tracks && name !in toDo ==>
        TrackValid(tracks[name], duration, allowEmpty, imported)
    {
      var name :| name in toDo;
      error := ValidateTrack(tracks[name], duration, allowEmpty, imported);
      if error.Some? {
        return;
      }
      toDo := toDo - {name};
    }
    return None;
  }

  datatype DraftError = Rejected(cue: CueError) | NotLaidOut(layout: LayoutError)

  datatype Draft = Draft(revision: nat, duration: real, languages: map<string, string>, tracks: Tracks)

  /** The part of a language code before its first hyphen. */
  function Primary(language: string): string {
    if language == "" || language[0] == '-' then "" else [language[0]] + Primary(language[1..])
  }

  function WidthOf(language: string): nat {
    if Primary(language) in {"auto", "ko", "ja", "zh"} then 24 else 42
  }

  /** The language has this code, alone or before a hyphen. */
  predicate HasCode(language: string, code: string) {
    language == code || (|code| < |language| && language[..|code|] == code && language[|code|] == '-')
  }

  lemma {:induction false} PrimaryPart(language: string)
    ensures var p := Primary(language);
      p <= language && '-' !in p && (|p| < |language| ==> language[|p|] == '-')
  {
    if language != "" && language[0] != '-' {
      PrimaryPart(language[1..]);
    }
  }

  lemma PrimaryIs(language: string, code: string)
    requires '-' !in code
    ensures Primary(language) == code <==> HasCode(language, code)
  {
    hide Primary;
    var p := Primary(language);
    PrimaryPart(language);
    if HasCode(language, code) {
      assert forall k :: 0 <= k < |code| ==> language[k] == code[k] != '-';
      assert forall k :: 0 <= k < |p| ==> language[k] == p[k] != '-';
    }
  }

  /** Lines are 24 characters wide in Korean, Japanese, Chinese and unknown languages, and 42 in all others. */
  lemma WidthExactly(language: string)
    ensures WidthOf(language) ==
      if HasCode(language, "auto") || HasCode(language, "ko") || HasCode(language, "ja") || HasCode(language, "zh")
      then 24 else 42
  {
    PrimaryIs(language, "auto");
    PrimaryIs(language, "ko");
    PrimaryIs(language, "ja");
    PrimaryIs(language, "zh");
  }

  function LaidTrack(tracks: Tracks, languages: map<string, string>, name: string): Result<seq<Segment>, LayoutError>
    requires name in tracks && name in languages
  {
    LayOut(tracks[name], WidthOf(languages[name]), 2)
  }

  /** Every track can be laid out at the width of its language. */
  ghost predicate AllLaid(tracks: Tracks, languages: map<string, string>)
    requires tracks.Keys == languages.Keys
  {
    forall name :: name in languages ==> LaidTrack(tracks, languages, name).Ok?
  }

  function Laid(tracks: Tracks, languages: map<string, string>): Tracks
    requires tracks.Keys == languages.Keys && AllLaid(tracks, languages)
  {
    map name | name in languages :: LaidTrack(tracks, languages, name).value
  }

  /** All tracks can be laid out, and the results pass the second validation. */
  ghost predicate DraftKept(tracks: Tracks, languages: map<string, string>, duration: real)
    requires tracks.Keys == languages.Keys
  {
    && AllLaid(tracks, languages)
    && TracksValid(Laid(tracks, languages), languages.Keys, duration, false, false)
  }

  method LayAll(tracks: Tracks, languages: map<string, string>) returns (r: Result<Tracks, LayoutError>)
    requires tracks.Keys == languages.Keys
    ensures r.Ok? <==> AllLaid(tracks, languages)
    ensures r.Ok? ==> r.value == Laid(tracks, languages)
  {
    hide LayOut;
    var normalized: Tracks := map[];
    var toDo := languages.Keys;
    while toDo != {}
      invariant toDo <= languages.Keys && normalized.Keys == languages.Keys - toDo
      invariant forall name :: name in normalized ==> LaidTrack(tracks, languages, name) == Ok(normalized[name])
    {
      var name :| name in toDo;
      var laid := SegmentSubtitles(tracks[name], WidthOf(languages[name]), 2);
      assert laid == LaidTrack(tracks, languages, name);
      if laid.Err? {
        return Err(laid.error);
      }
      normalized := normalized[name := laid.value];
      toDo := toDo - {name};
    }
    return Ok(normalized);
  }

  /** `write_draft`: validate, lay out every track, validate the results again, and store those. */
  method WriteDraft(tracks: Tracks, languages: map<string, string>, duration: real, revision: nat)
    returns (r: Result<Draft, DraftError>)
    ensures r.Ok? <==>
      TracksValid(tracks, languages.Keys, duration, false, false) && DraftKept(tracks, languages, duration)
    ensures r.Ok? ==> r.value == Draft(revision, duration, languages, Laid(tracks, languages))
    ensures r.Err? ==>
      (r.error.NotLaidOut? <==>
        TracksValid(tracks, languages.Keys, duration, false, false) && !AllLaid(tracks, languages))
  {
    hide LayOut, LaidTrack, TrackValid;
    var error := ValidateTracks(tracks, languages.Keys, duration, false, false);
    if error.Some? {
      return Err(Rejected(error.value));
    }
    var normalized := LayAll(tracks, languages);
    if normalized.Err? {
      return Err(NotLaidOut(normalized.error));
    }
    error := ValidateTracks(normalized.value, languages.Keys, duration, false, false);
    if error.Some? {
      return Err(Rejected(error.value));
    }
    return Ok(Draft(revision, duration, languages, normalized.value));
  }

  // ----- laid-out tracks are accepted -----

  lemma BlockTextShape(text: string, width: nat)
    requires BlockText(text, width, 2)
    ensures !Blank(text)
    ensures |text| <= 2 * width + 1
  {
    var lines := SplitLines(text);
    assert |lines| == 1 || (|lines| == 2 && lines == [lines[0], lines[1]]);
    GoodLineShape(lines[0], width);
    var i :| 0 <= i < |lines[0]| && !IsSpace(lines[0][i]);
    assert text[i] == lines[0][i] by {
      TwoLines(lines);
    }
    TwoLines(lines);
  }

  lemma TwoLines(lines: seq<string>)
    requires 1 <= |lines| <= 2
    ensures Join("\n", lines) == if |lines| == 1 then lines[0] else lines[0] + "\n" + lines[1]
  {
    if |lines| == 2 {
      assert lines[1..] == [lines[1]];
    }
  }

  /** What the text checks and the SRT and SAMI writers need of a track. */
  lemma StampedTrack(blocks: seq<Block>, width: nat)
    requires Track(blocks) && GoodTexts(blocks, width, 2)
    ensures InSequence(StampAll(blocks))
    ensures AllSrtAccept(StampAll(blocks))
    ensures forall k :: 0 <= k < |blocks| ==>
      CueText(StampAll(blocks)[k]) && |StampAll(blocks)[k].text| <= 2 * width + 1
  {
    var out := StampAll(blocks);
    forall k | 0 <= k < |blocks|
      ensures CueText(out[k]) && |out[k].text| <= 2 * width + 1 && SrtAccepts(out[k])
    {
      BlockTextShape(blocks[k].text, width);
      StampTimes(blocks[k]);
    }
    forall k | 0 < k < |out| ensures FollowsCue(out[k], out[k - 1].end) {
      assert blocks[k - 1].last <= blocks[k].first;
    }
  }

  lemma StampedStep(state: Sami, b: Block)
    requires 0 <= b.first < b.last && state.previousEnd <= b.first && !Blank(b.text)
    ensures SamiStep(state, Stamp(b)).Ok? && SamiStep(state, Stamp(b)).value.previousEnd == b.last
  {
    hide Millis, Seconds;
    StampTimes(b);
  }

  lemma {:induction false} StampedSami(blocks: seq<Block>, width: nat)
    requires Track(blocks) && GoodTexts(blocks, width, 2)
    ensures SamiOf(StampAll(blocks)).Ok?
    ensures SamiOf(StampAll(blocks)).value.previousEnd == if blocks == [] then 0 else blocks[|blocks| - 1].last
  {
    hide SamiStep, Stamp, BlockText;
    if blocks != [] {
      var n := |blocks| - 1;
      StampedSami(blocks[..n], width);
      assert StampAll(blocks)[..n] == StampAll(blocks[..n]);
      BlockTextShape(blocks[n].text, width);
      StampedStep(SamiOf(StampAll(blocks[..n])).value, blocks[n]);
    }
  }

  /** The spoken captions end, on the millisecond clock, no later than the limit. */
  ghost predicate EndsBy(segments: seq<Segment>, limit: real) {
    forall i :: 0 <= i < |segments| && !Blank(segments[i].text) ==> Seconds(Millis(segments[i].end)) <= limit
  }

  ghost predicate StampedBy(blocks: seq<Block>, limit: real) {
    forall k :: 0 <= k < |blocks| ==> Seconds(blocks[k].last) <= limit
  }

  /** The layout ends exactly when the last spoken caption does. */
  lemma LayoutEnds(segments: seq<Segment>, width: nat, maxLines: nat, out: seq<Segment>, limit: real)
    returns (blocks: seq<Block>)
    requires LayOut(segments, width, maxLines) == Ok(out)
    ensures out == StampAll(blocks) && Track(blocks) && width >= 1 && GoodTexts(blocks, width, maxLines)
    ensures StampedBy(blocks, limit) <==> EndsBy(segments, limit)
    ensures blocks != [] <==> exists i :: 0 <= i < |segments| && !Blank(segments[i].text)
  {
    hide LayOut, Millis, Seconds;
    blocks := LayoutPointwise(segments, width, maxLines, out);
    var same := LayoutKeepsLines(segments, width, maxLines, out);
    SameStamps(blocks, same);
    LayoutTimes(segments, width, maxLines, out);
    if EndsBy(segments, limit) {
      forall k | 0 <= k < |blocks| ensures Seconds(blocks[k].last) <= limit {
        var t: nat := blocks[k].last - 1;
        assert Showing(blocks[k], t);
        assert SomeShowing(blocks, t);
        ActiveMeaning(segments, t);
        var i :| 0 <= i < |segments| && SpokenAt(segments[i], t);
        SecondsMonotone(blocks[k].last, Millis(segments[i].end));
      }
    } else if StampedBy(blocks, limit) {
      var i :| 0 <= i < |segments| && !Blank(segments[i].text) && Seconds(Millis(segments[i].end)) > limit;
      var t: nat := Millis(segments[i].end) - 1;
      ActiveMeaning(segments, t);
      assert SomeShowing(blocks, t);
      var k :| 0 <= k < |blocks| && Showing(blocks[k], t);
      SecondsMonotone(Millis(segments[i].end), blocks[k].last);
      assert false;
    }
    if blocks != [] {
      var t: nat := blocks[0].first;
      assert Showing(blocks[0], t);
      assert SomeShowing(blocks, t);
      ActiveMeaning(segments, t);
    }
    if i :| 0 <= i < |segments| && !Blank(segments[i].text) {
      var t: nat := Millis(segments[i].start);
      ActiveMeaning(segments, t);
      assert SomeShowing(blocks, t);
    }
  }

  lemma SecondsMonotone(a: int, b: int)
    requires a <= b
    ensures Seconds(a) <= Seconds(b)
  {
  }

  /** Every spoken caption of a successful layout has a positive duration in milliseconds. */
  lemma LayoutTimes(segments: seq<Segment>, width: nat, maxLines: nat, out: seq<Segment>)
    requires LayOut(segments, width, maxLines) == Ok(out)
    ensures forall i :: 0 <= i < |segments| && !Blank(segments[i].text) ==>
      0 <= Millis(segments[i].start) < Millis(segments[i].end)
  {
    var blocks := Success(segments, width, maxLines, out);
    InputProper(segments);
  }

  /**
   Every consumer accepts a laid-out track of some spoken captions that end within the media: the worker's validator,
   the editor's checks of each cue, and both writers.
   */
  lemma LayoutAccepted(segments: seq<Segment>, width: nat, out: seq<Segment>, duration: real)
    requires LayOut(segments, width, 2) == Ok(out) && width <= 499
    requires duration > 0.0
    requires forall i :: 0 <= i < |segments| && !Blank(segments[i].text) ==> segments[i].end <= duration
    requires exists i :: 0 <= i < |segments| && !Blank(segments[i].text)
    ensures width >= 1 && AllMillisProper(Input(segments))
    ensures CuesValid(out, duration)
    ensures LaidCount(segments, width, 2) <= 10000 ==> TrackValid(out, duration, false, false)
    ensures AllSrtAccept(out) && SamiOf(out).Ok?
  {
    hide Millis, Seconds, CueTimes, CueText, SamiOf, TrackValid;
    LayoutSucceeds(segments, width, 2);
    forall i | 0 <= i < |segments| && !Blank(segments[i].text)
      ensures Seconds(Millis(segments[i].end)) <= duration + 0.05
    {
      MillisNearby(segments[i].end);
    }
    var blocks := LayoutEnds(segments, width, 2, out, duration + 0.05);
    StampedTrack(blocks, width);
    StampedSami(blocks, width);
    StampedCueTimes(blocks, duration);
    StampedValidTrack(blocks, width, duration);
  }

  lemma StampedCueTimes(blocks: seq<Block>, duration: real)
    requires Track(blocks)
    ensures StampedBy(blocks, duration + 0.05) <==>
      forall k :: 0 <= k < |blocks| ==> CueTimes(StampAll(blocks)[k], duration)
  {
    forall k | 0 <= k < |blocks|
      ensures CueTimes(StampAll(blocks)[k], duration) <==> Seconds(blocks[k].last) <= duration + 0.05
    {
      StampTimes(blocks[k]);
    }
  }

  /** No end of a cue passes the limit once it is rounded. */
  ghost predicate RoundedWithin(cues: seq<Segment>, duration: real) {
    forall i :: 0 <= i < |cues| ==> Seconds(Millis(cues[i].end)) <= duration + 0.05
  }

  lemma StampedValidTrack(blocks: seq<Block>, width: nat, duration: real)
    requires Track(blocks) && GoodTexts(blocks, width, 2) && width <= 499 && blocks != []
    ensures TrackValid(StampAll(blocks), duration, false, false) <==>
      |blocks| <= 10000 && StampedBy(blocks, duration + 0.05)
  {
    hide Stamp, AllSrtAccept, CueTimes;
    StampedTrack(blocks, width);
    StampedCueTimes(blocks, duration);
    assert forall k :: 0 <= k < |blocks| ==> CueText(StampAll(blocks)[k]);
  }

  /**
   The second validation in `write_draft` can fail although the first succeeded: an end time may be rounded up past
   the limit. It succeeds iff the layout makes no more than 10000 cues and no rounded end passes the limit.
   */
  lemma DraftSecondValidation(cues: seq<Segment>, duration: real, width: nat)
    requires TrackValid(cues, duration, false, false)
    requires Layable(cues, width, 2) && width <= 499
    ensures LayOut(cues, width, 2).Ok?
    ensures TrackValid(LayOut(cues, width, 2).value, duration, false, false) <==>
      LaidCount(cues, width, 2) <= 10000 && RoundedWithin(cues, duration)
  {
    hide LayOut, AllSrtAccept, LaidCount, Layable, StampedBy, RoundedWithin, TrackText, Track, CueTimes;
    LayoutSucceeds(cues, width, 2);
    var out := LayOut(cues, width, 2).value;
    var blocks := LayoutEnds(cues, width, 2, out, duration + 0.05);
    AllSpokenEnds(cues, duration);
    StampedValidTrack(blocks, width, duration);
  }

  lemma AllSpokenEnds(cues: seq<Segment>, duration: real)
    requires forall i :: 0 <= i < |cues| ==> TrackText(cues[i], false)
    ensures EndsBy(cues, duration + 0.05) <==> RoundedWithin(cues, duration)
    ensures cues != [] ==> exists i :: 0 <= i < |cues| && !Blank(cues[i].text)
  {
    hide Millis, Seconds;
    assert forall i :: 0 <= i < |cues| ==> !Blank(cues[i].text) by {
      assert forall i :: 0 <= i < |cues| ==> TrackText(cues[i], false);
    }
    if cues != [] {
      assert !Blank(cues[0].text);
    }
  }

  /** A track that the second validation accepts as well. */
  ghost predicate TrackKept(cues: seq<Segment>, duration: real, width: nat) {
    Layable(cues, width, 2) && LaidCount(cues, width, 2) <= 10000 && RoundedWithin(cues, duration)
  }

  /**
   A valid draft is stored iff all its tracks can be laid out, stay within 10000 cues and have no end rounded past
   the limit.
   */
  lemma DraftStored(tracks: Tracks, languages: map<string, string>, duration: real)
    requires TracksValid(tracks, languages.Keys, duration, false, false)
    ensures DraftKept(tracks, languages, duration) <==>
      forall name :: name in languages ==> TrackKept(tracks[name], duration, WidthOf(languages[name]))
  {
    hide LayOut, Layable, LaidCount, RoundedWithin, TrackValid;
    forall name | name in languages
      ensures LaidTrack(tracks, languages, name).Ok? <==> Layable(tracks[name], WidthOf(languages[name]), 2)
      ensures LaidTrack(tracks, languages, name).Ok? ==>
        (TrackValid(LaidTrack(tracks, languages, name).value, duration, false, false) <==>
         TrackKept(tracks[name], duration, WidthOf(languages[name])))
    {
      LayoutSucceeds(tracks[name], WidthOf(languages[name]), 2);
      if Layable(tracks[name], WidthOf(languages[name]), 2) {
        DraftSecondValidation(tracks[name], duration, WidthOf(languages[name]));
      }
    }
  }

  lemma RoundedEnd()
    ensures Millis(0.0) == 0 && Millis(1.0507) == 1051 && Seconds(1051) > 1.0007 + 0.05
  {
    assert 1.0507 * 1000.0 == 1050.7 && (1050.7).Floor == 1050;
  }

  /** A cue that ends at the limit of media lasting 1.0007 s. */
  const LATE_CUE := Segment(0.0, 1.0507, "Hi", None)

  lemma ShortText(width: nat)
    requires width >= 2
    ensures TrackText(LATE_CUE, false) && LoneBlocks(LATE_CUE, width, 2) == ["Hi"]
  {
    LineEndUnique("Hi", 2);
    assert !IsSpace("Hi"[0]);
    assert IsWord("Hi");
    TidyWord("Hi");
    WordsOfWord("Hi");
    assert NormalLines(["Hi"]) == ["Hi"];
    WrapShort(["Hi"], width);
    assert Chunks(["Hi"], 2) == [["Hi"]];
  }

  lemma LateCueValid(width: nat)
    requires width >= 2
    ensures TrackValid([LATE_CUE], 1.0007, false, false) && LayOut([LATE_CUE], width, 2).Ok?
  {
    hide LayOut, TrackText, LoneBlocks, Millis, SplitLines, Blank;
    RoundedEnd();
    ShortText(width);
    assert !Blank(LATE_CUE.text) && MillisProper(LATE_CUE) && SrtAccepts(LATE_CUE) by { LateCueTimes(); }
    LoneCaption(LATE_CUE, width, 2);
  }

  lemma LateCueTimes()
    ensures !Blank(LATE_CUE.text) && MillisProper(LATE_CUE) && SrtAccepts(LATE_CUE)
  {
    RoundedEnd();
    assert !IsSpace(LATE_CUE.text[0]);
  }

  /**
   A cue "Hi" ending at 1.0507 s of media lasting 1.0007 s is valid and laid out, but no more valid then: it ends at
   1.051 s.
   */
  lemma RoundedPastLimit(width: nat)
    requires 2 <= width <= 499
    ensures TrackValid([LATE_CUE], 1.0007, false, false)
    ensures LayOut([LATE_CUE], width, 2).Ok?
    ensures !TrackValid(LayOut([LATE_CUE], width, 2).value, 1.0007, false, false)
  {
    hide LayOut, Millis, Seconds, TrackValid, LaidCount;
    LateCueValid(width);
    LayoutSucceeds([LATE_CUE], width, 2);
    DraftSecondValidation([LATE_CUE], 1.0007, width);
    RoundedEnd();
    assert Seconds(Millis([LATE_CUE][0].end)) > 1.0007 + 0.05;
  }

  // ----- SRT and SAMI show the same -----

  ghost predicate EntryShows(e: SrtEntry, t: nat) {
    |e.start| >= 10 && |e.end| >= 10 && ParseMillis(e.start) <= t < ParseMillis(e.end)
  }

  /**
   SAMI shows text at t iff some SRT entry covers t, and then the entry holds that text without surrounding blanks.
   */
  ghost predicate SameAt(entries: seq<SrtEntry>, shown: string, t: nat) {
    && (shown == "" <==> forall k :: 0 <= k < |entries| ==> !EntryShows(entries[k], t))
    && (forall k :: 0 <= k < |entries| && EntryShows(entries[k], t) ==> entries[k].text == Strip(shown))
  }

  lemma SamiWritableStep(state: Sami, s: Segment)
    requires SamiStep(state, s).Ok?
    ensures SrtAccepts(s) && state.previousEnd <= SamiStep(state, s).value.previousEnd
    ensures !Blank(s.text) ==> Millis(s.end) == SamiStep(state, s).value.previousEnd
  {
  }

  lemma {:induction false} SamiWritable(segments: seq<Segment>)
    requires SamiOf(segments).Ok?
    ensures AllSrtAccept(segments)
    ensures forall k :: 0 <= k < |segments| && !Blank(segments[k].text) ==>
      Millis(segments[k].end) <= SamiOf(segments).value.previousEnd
  {
    hide SamiStep, SrtAccepts, Millis, Blank;
    if segments != [] {
      var n := |segments| - 1;
      SamiWritable(segments[..n]);
      SamiWritableStep(SamiOf(segments[..n]).value, segments[n]);
      assert forall k :: 0 <= k < n ==> segments[k] == segments[..n][k];
    }
  }

  lemma EntryTimes(s: Segment, index: nat, t: nat)
    requires !Blank(s.text) && CueToSrt(s, index).Ok?
    ensures EntryShows(CueToSrt(s, index).value, t) <==> SpokenAt(s, t)
    ensures CueToSrt(s, index).value.text == Strip(s.text)
  {
    CueToSrtAccepts(s, index);
  }

  lemma {:induction false} EntriesShow(segments: seq<Segment>, t: nat)
    requires SamiOf(segments).Ok? && AllSrtAccept(segments)
    ensures SameAt(SrtEntries(segments), CaptionAt(segments, t), t)
    ensures t >= SamiOf(segments).value.previousEnd ==> CaptionAt(segments, t) == ""
  {
    hide CueToSrt, EntryShows, SpokenAt, Strip, SamiStep, SrtAccepts;
    SamiExact(segments);
    if segments != [] {
      var n := |segments| - 1;
      var s := segments[n];
      EntriesShow(segments[..n], t);
      var before := SrtEntries(segments[..n]);
      SrtStep(s, |before| + 1);
      if !Blank(s.text) {
        EntryTimes(s, |before| + 1, t);
        LateStart(segments, t);
        SameAtAppend(before, CaptionAt(segments[..n], t), CueToSrt(s, |before| + 1).value, s.text, t);
      } else {
        BlankUncovered(s, t);
        assert before + [] == before;
      }
    }
  }

  lemma BlankUncovered(s: Segment, t: nat)
    requires Blank(s.text)
    ensures !SpokenAt(s, t)
  {
  }

  /** A cue that SAMI accepts starts when nothing else is shown any more. */
  lemma LateStart(segments: seq<Segment>, t: nat)
    requires segments != [] && SamiOf(segments).Ok?
    ensures var n := |segments| - 1; SpokenAt(segments[n], t) ==> CaptionAt(segments[..n], t) == ""
  {
    SamiExact(segments[..|segments| - 1]);
  }

  lemma SameAtAppend(entries: seq<SrtEntry>, shown: string, e: SrtEntry, text: string, t: nat)
    requires SameAt(entries, shown, t)
    requires EntryShows(e, t) ==> shown == "" && text != "" && e.text == Strip(text)
    ensures SameAt(entries + [e], if EntryShows(e, t) then text else shown, t)
  {
    var all := entries + [e];
    assert all[|entries|] == e && forall k :: 0 <= k < |entries| ==> all[k] == entries[k];
  }

  /** Whenever SAMI output succeeds, so does SRT output, and at every millisecond both show the same. */
  lemma SamiMatchesSrt(segments: seq<Segment>, t: nat)
    requires SamiOf(segments).Ok?
    ensures AllSrtAccept(segments)
    ensures SameAt(SrtEntries(segments), Replay(SamiOf(segments).value.events, t), t)
    ensures Replay(SamiOf(segments).value.events, t) == CaptionAt(segments, t)
  {
    SamiExact(segments);
    SamiWritable(segments);
    EntriesShow(segments, t);
  }
}
