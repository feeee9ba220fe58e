/** The whole of `translate`: placeholders out, the rest translated in batches and merged, placeholders back. */
module TranslationWhole {
  import opened Sorting
  import opened Layout
  import opened Placeholders
  import opened TranslationGroups
  import opened Translation

  /** Every caption with the text answered for its group; placeholders as they were. */
  function Translated(segments: seq<Segment>, mark: string, groups: seq<Group>,
                      text: string -> string): (r: seq<Segment>)
    requires Flatten(groups) == At(segments, Kept(segments, mark))
    ensures |r| == |segments|
    ensures forall i :: 0 <= i < |r| ==>
      r[i] == if segments[i].text == mark then segments[i] else TranslatedAt(segments, mark, groups, text, i)
  {
    seq(|segments|, i requires 0 <= i < |segments| =>
      if segments[i].text == mark then segments[i] else TranslatedAt(segments, mark, groups, text, i))
  }

  function TranslatedAt(segments: seq<Segment>, mark: string, groups: seq<Group>, text: string -> string,
                        i: nat): Segment
    requires Flatten(groups) == At(segments, Kept(segments, mark))
    requires i < |segments| && segments[i].text != mark
  {
    KeptRank(segments, mark, i);
    segments[i].(text := text(Id(GroupIndex(groups, Rank(segments, mark, i)))))
  }

  lemma KeptTranslated(segments: seq<Segment>, mark: string, groups: seq<Group>, replies: seq<seq<Answer>>,
                       text: string -> string, results: map<nat, seq<string>>)
    requires Flatten(groups) == At(segments, Kept(segments, mark)) && AnsweredBy(groups, replies, text, results)
    ensures AllAnswered(Batches(groups), results)
    ensures Merged(Batches(groups), results, Order(results))
      == At(Translated(segments, mark, groups, text), Kept(segments, mark))
  {
    hide Id, Positions, GroupIndex, Merged, AnsweredBy;
    var kept := Kept(segments, mark);
    TransparentMerge(At(segments, kept), groups, replies, text, results);
    var merged, whole := Merged(Batches(groups), results, Order(results)), Translated(segments, mark, groups, text);
    forall k | 0 <= k < |kept| ensures merged[k] == Pick(whole, kept[k]) {
      RankKept(segments, mark, k);
      assert At(segments, kept)[k] == segments[kept[k]];
    }
  }

  // ----- the two branches without a sort -----

  /** `translate`, given the merged translation of what is not a placeholder. */
  function Outcome(segments: seq<Segment>, mark: string, merged: seq<Segment>): seq<Segment> {
    if Held(segments, mark) == [] then merged
    else if Kept(segments, mark) == [] then segments
    else Recombined(merged, At(segments, Held(segments, mark)))
  }

  /** Where each caption ends up: only a list with both kinds of captions is sorted. */
  function Places(segments: seq<Segment>, mark: string): seq<nat> {
    if Held(segments, mark) == [] || Kept(segments, mark) == [] then Upto(|segments|) else Final(segments, mark)
  }

  /** When every caption keeps its position. */
  predicate AllStay(segments: seq<Segment>, mark: string) {
    Held(segments, mark) == [] || Kept(segments, mark) == [] || PlaceholdersLast(segments, mark)
  }

  lemma NoneHeld(segments: seq<Segment>, mark: string)
    requires Held(segments, mark) == []
    ensures Kept(segments, mark) == Upto(|segments|)
  {
    hide Positions;
    forall k: nat ensures k in Kept(segments, mark) <==> k in Upto(|segments|) {
      if k < |segments| {
        assert k in Kept(segments, mark) || k in Held(segments, mark);
        assert Upto(|segments|)[k] == k;
      }
    }
    AscendingUnique(Kept(segments, mark), Upto(|segments|));
  }

  lemma NoneKept(segments: seq<Segment>, mark: string, whole: seq<Segment>)
    requires Kept(segments, mark) == [] && TranslatedInPlace(segments, mark, whole)
    ensures whole == segments
  {
    hide Positions;
    forall i | 0 <= i < |segments| ensures whole[i] == segments[i] {
      assert i in Kept(segments, mark) || i in Held(segments, mark);
    }
  }

  lemma AllInPlace(whole: seq<Segment>)
    ensures At(whole, Upto(|whole|)) == whole
  {
  }

  /** From the translated captions to the outcome, on all three ways. */
  lemma OutcomePlaces(segments: seq<Segment>, mark: string, whole: seq<Segment>)
    requires TranslatedInPlace(segments, mark, whole)
    ensures Outcome(segments, mark, At(whole, Kept(segments, mark))) == At(whole, Places(segments, mark))
    ensures Places(segments, mark) == Upto(|segments|) <==> AllStay(segments, mark)
  {
    hide Kept, Held, Recombined, Final, PlaceholdersLast;
    AllInPlace(whole);
    BackInPlace(segments, mark);
    if Held(segments, mark) == [] {
      NoneHeld(segments, mark);
    } else if Kept(segments, mark) == [] {
      NoneKept(segments, mark, whole);
    } else {
      RecombinedOrder(segments, mark, whole);
    }
  }

  /**
   Whatever the order of each batch's answer, the outcome has every caption with the input's time and speaker and the
   text answered for its own group, and every placeholder as it was. All of them stay at their positions if and only if
   the list is not mixed, or starts never decrease and no placeholder comes before another caption with the same start.
   */
  lemma TranslateWhole(segments: seq<Segment>, mark: string, groups: seq<Group>, replies: seq<seq<Answer>>,
                       text: string -> string, results: map<nat, seq<string>>)
    requires Flatten(groups) == At(segments, Kept(segments, mark)) && AnsweredBy(groups, replies, text, results)
    ensures AllAnswered(Batches(groups), results)
    ensures var whole := Translated(segments, mark, groups, text);
      var outcome := Outcome(segments, mark, Merged(Batches(groups), results, Order(results)));
      && TranslatedInPlace(segments, mark, whole)
      && outcome == At(whole, Places(segments, mark))
      && (AllStay(segments, mark) ==> outcome == whole)
    ensures Places(segments, mark) == Upto(|segments|) <==> AllStay(segments, mark)
  {
    hide Id, Positions, GroupIndex, Merged, AnsweredBy, Outcome, Places, AllStay, Kept, Held;
    KeptTranslated(segments, mark, groups, replies, text, results);
    var whole := Translated(segments, mark, groups, text);
    OutcomePlaces(segments, mark, whole);
    AllInPlace(whole);
  }
}
