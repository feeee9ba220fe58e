/** Aligning a batch's answer with its targets, and putting the translations back onto the captions. */
module Translation {
  import opened Wrappers
  import opened Sorting
  import opened Text
  import opened Layout
  import opened TranslationGroups

  // ----- answers -----

  datatype Answer = NotObject | Answer(id: Option<string>, text: Option<string>)

  datatype AnswerList = NotList | Answers(items: seq<Answer>)

  datatype AlignError = Mismatch

  predicate Usable(a: Answer, ids: seq<string>) {
    a.Answer? && a.id.Some? && a.id.value in ids && a.text.Some? && Strip(a.text.value) != ""
  }

  ghost predicate DistinctIds(items: seq<Answer>) {
    forall j, k :: 0 <= j < k < |items| && items[j].Answer? && items[k].Answer? ==> items[j].id != items[k].id
  }

  ghost predicate AllUsable(items: seq<Answer>, ids: seq<string>) {
    forall j :: 0 <= j < |items| ==> Usable(items[j], ids)
  }

  ghost predicate Matches(result: AnswerList, ids: seq<string>) {
    result.Answers? && |result.items| == |ids| && AllUsable(result.items, ids) && DistinctIds(result.items)
  }

  /** An answer is taken if it has an item for each target, with one of their ids, none twice, and no blank text. */
  lemma MatchesExactly(result: AnswerList, ids: seq<string>)
    ensures Matches(result, ids) <==>
      && result.Answers? && |result.items| == |ids|
      && (forall j :: 0 <= j < |result.items| ==>
            && result.items[j].Answer? && result.items[j].id.Some? && result.items[j].text.Some?
            && result.items[j].id.value in ids && !Blank(result.items[j].text.value))
      && (forall j, k :: 0 <= j < k < |result.items| && result.items[j].Answer? && result.items[k].Answer? ==>
            result.items[j].id != result.items[k].id)
  {
    if result.Answers? {
      forall j | 0 <= j < |result.items| && result.items[j].Answer? && result.items[j].text.Some?
        ensures Strip(result.items[j].text.value) == "" <==> Blank(result.items[j].text.value)
      {
        StripShape(result.items[j].text.value);
      }
    }
  }

  /** Some answer item gives this text to this id. */
  ghost predicate Gives(items: seq<Answer>, id: string, text: string) {
    exists j :: 0 <= j < |items| && items[j] == Answer(Some(id), Some(text))
  }

  ghost predicate Aligned(items: seq<Answer>, ids: seq<string>, texts: seq<string>) {
    |texts| == |ids| && forall k :: 0 <= k < |ids| ==> Gives(items, ids[k], texts[k])
  }

  /** The dictionary holds exactly what the items give. */
  ghost predicate Indexed(items: seq<Answer>, byId: map<string, string>) {
    forall id, text :: (id in byId && byId[id] == text) <==> Gives(items, id, text)
  }

  lemma SubsetFull(a: set<string>, b: set<string>)
    requires a <= b && |b| <= |a|
    ensures a == b
  {
    if x :| x in b && x !in a {
      SubsetSize(a, b - {x});
    }
  }

  lemma {:induction false} SubsetSize(a: set<string>, b: set<string>)
    requires a <= b
    ensures |a| <= |b|
    decreases a
  {
    if x :| x in a {
      SubsetSize(a - {x}, b - {x});
    }
  }

  function IdSet(ids: seq<string>): (r: set<string>)
    ensures |r| <= |ids|
    ensures forall id :: id in r <==> id in ids
  {
    if ids == [] then {}
    else
      assert forall id :: id in ids <==> id == ids[0] || id in ids[1..];
      {ids[0]} + IdSet(ids[1..])
  }

  /**
   An answer is taken if and only if it has one usable item per target and no id twice; then every target gets the
   text of the item with its id, whatever the order of the answer.
   */
  method AlignResult(result: AnswerList, ids: seq<string>) returns (r: Result<seq<string>, AlignError>)
    ensures r.Ok? <==> Matches(result, ids)
    ensures r.Ok? ==> Aligned(result.items, ids, r.value)
  {
    hide Usable, Gives, Indexed, DistinctIds, AllUsable, IdSet, Aligned;
    if result.NotList? || |result.items| != |ids| {
      return Err(Mismatch);
    }
    var items := result.items;
    var byId: map<string, string> := map[];
    IndexedNone(ids);
    for k := 0 to |items|
      invariant AllUsable(items[..k], ids) && DistinctIds(items[..k])
      invariant Indexed(items[..k], byId)
      invariant |byId| == k && byId.Keys <= IdSet(ids)
    {
      var item := items[k];
      if !Usable(item, ids) {
        NotAllUsable(items, k, ids);
        return Err(Mismatch);
      }
      UsableShape(items, k, ids);
      if item.id.value in byId {
        RepeatedId(items, k, byId);
        return Err(Mismatch);
      }
      IndexedGrows(items, k, byId);
      IdsStayDistinct(items, k, byId, ids);
      byId := byId[item.id.value := item.text.value];
    }
    assert items[..|items|] == items;
    assert |byId.Keys| == |byId|;
    SubsetFull(byId.Keys, IdSet(ids));
    return Ok(Found(byId, ids, items));
  }

  /** The text kept for each id, in the order of the ids. */
  function Found(byId: map<string, string>, ids: seq<string>, ghost items: seq<Answer>): (r: seq<string>)
    requires Indexed(items, byId) && byId.Keys == IdSet(ids)
    ensures Aligned(items, ids, r)
  {
    seq(|ids|, k requires 0 <= k < |ids| => byId[ids[k]])
  }

  lemma IndexedNone(ids: seq<string>)
    ensures Indexed([], map[]) && DistinctIds([]) && AllUsable([], ids)
  {
  }

  lemma NotAllUsable(items: seq<Answer>, k: nat, ids: seq<string>)
    requires k < |items| && !Usable(items[k], ids)
    ensures !AllUsable(items, ids)
  {
  }

  lemma UsableShape(items: seq<Answer>, k: nat, ids: seq<string>)
    requires k < |items| && AllUsable(items[..k], ids) && Usable(items[k], ids)
    ensures AllUsable(items[..k + 1], ids)
    ensures items[k].Answer? && items[k].id.Some? && items[k].text.Some? && items[k].id.value in IdSet(ids)
  {
    assert items[..k + 1] == items[..k] + [items[k]];
  }

  lemma RepeatedId(items: seq<Answer>, k: nat, byId: map<string, string>)
    requires k < |items| && items[k].Answer? && items[k].id.Some?
    requires Indexed(items[..k], byId) && items[k].id.value in byId
    ensures !DistinctIds(items)
  {
    var id := items[k].id.value;
    assert Gives(items[..k], id, byId[id]);
    var j :| 0 <= j < k && items[..k][j] == Answer(Some(id), Some(byId[id]));
    assert items[j].id == items[k].id;
  }

  lemma GivesAppend(items: seq<Answer>, item: Answer, id: string, text: string)
    ensures Gives(items + [item], id, text) <==> Gives(items, id, text) || item == Answer(Some(id), Some(text))
  {
    var longer := items + [item];
    assert forall j :: 0 <= j < |items| ==> longer[j] == items[j];
    assert longer[|items|] == item;
  }

  lemma IndexedGrows(items: seq<Answer>, k: nat, byId: map<string, string>)
    requires k < |items| && items[k].Answer? && items[k].id.Some? && items[k].text.Some?
    requires Indexed(items[..k], byId) && items[k].id.value !in byId
    ensures Indexed(items[..k + 1], byId[items[k].id.value := items[k].text.value])
  {
    hide Gives;
    var item := items[k];
    assert items[..k + 1] == items[..k] + [item];
    var more := byId[item.id.value := item.text.value];
    forall id, text ensures (id in more && more[id] == text) <==> Gives(items[..k] + [item], id, text) {
      GivesAppend(items[..k], item, id, text);
    }
  }

  lemma IdsStayDistinct(items: seq<Answer>, k: nat, byId: map<string, string>, ids: seq<string>)
    requires k < |items| && items[k].Answer? && items[k].id.Some?
    requires Indexed(items[..k], byId) && items[k].id.value !in byId
    requires AllUsable(items[..k], ids) && DistinctIds(items[..k])
    ensures DistinctIds(items[..k + 1])
  {
    var before := items[..k];
    assert items[..k + 1] == before + [items[k]];
    forall j | 0 <= j < k ensures before[j].id != items[k].id {
      assert Usable(before[j], ids);
      assert Gives(before, before[j].id.value, before[j].text.value);
    }
  }

  ghost predicate DistinctStrings(ids: seq<string>) {
    forall j, k :: 0 <= j < k < |ids| ==> ids[j] != ids[k]
  }

  function InOrder(ids: seq<string>, text: string -> string): (r: seq<Answer>)
    ensures |r| == |ids|
    ensures forall k :: 0 <= k < |r| ==> r[k] == Answer(Some(ids[k]), Some(text(ids[k])))
  {
    seq(|ids|, k requires 0 <= k < |ids| => Answer(Some(ids[k]), Some(text(ids[k]))))
  }

  function TextsOf(ids: seq<string>, text: string -> string): (r: seq<string>)
    ensures |r| == |ids|
    ensures forall k :: 0 <= k < |r| ==> r[k] == text(ids[k])
  {
    seq(|ids|, k requires 0 <= k < |ids| => text(ids[k]))
  }

  lemma {:induction false} MemberIndex<T>(s: seq<T>, x: T)
    requires x in multiset(s)
    ensures exists j :: 0 <= j < |s| && s[j] == x
  {
    assert x in s;
  }

  lemma RepeatedCount<T>(s: seq<T>, j: int, k: int)
    requires 0 <= j < k < |s| && s[j] == s[k]
    ensures multiset(s)[s[j]] >= 2
  {
    assert s == s[..k] + [s[k]] + s[k + 1..];
    assert s[j] in s[..k];
    assert multiset(s) == multiset(s[..k]) + multiset{s[k]} + multiset(s[k + 1..]);
  }

  lemma {:induction false} DistinctCount(ids: seq<string>, text: string -> string, a: Answer)
    requires DistinctStrings(ids)
    ensures multiset(InOrder(ids, text))[a] <= 1
  {
    if ids != [] {
      var s := InOrder(ids, text);
      DistinctCount(ids[1..], text, a);
      assert s == [s[0]] + s[1..] && s[1..] == InOrder(ids[1..], text);
      assert multiset(s) == multiset{s[0]} + multiset(s[1..]);
      forall j | 0 <= j < |s[1..]| ensures s[1..][j] != s[0] {
        assert s[1..][j].id.value == ids[j + 1];
      }
    }
  }

  /** Any permutation of one nonblank answer per target is taken, and gives every target its own text. */
  lemma PermutedAnswer(items: seq<Answer>, ids: seq<string>, text: string -> string)
    requires DistinctStrings(ids)
    requires forall id :: id in ids ==> Strip(text(id)) != ""
    requires multiset(items) == multiset(InOrder(ids, text))
    ensures Matches(Answers(items), ids)
    ensures forall texts :: Aligned(items, ids, texts) ==> texts == TextsOf(ids, text)
  {
    var ordered := InOrder(ids, text);
    assert |items| == |multiset(items)| == |multiset(ordered)| == |ids|;
    forall j | 0 <= j < |items| ensures exists k :: 0 <= k < |ids| && items[j] == ordered[k] {
      assert items[j] in multiset(items);
      MemberIndex(ordered, items[j]);
    }
    forall j, k | 0 <= j < k < |items| ensures items[j].id != items[k].id {
      if items[j].id == items[k].id {
        RepeatedCount(items, j, k);
        DistinctCount(ids, text, items[j]);
        assert false;
      }
    }
    forall texts | Aligned(items, ids, texts) ensures texts == TextsOf(ids, text) {
      forall k | 0 <= k < |ids| ensures texts[k] == text(ids[k]) {
        assert Gives(items, ids[k], texts[k]);
      }
    }
  }

  // ----- merging -----

  /** Every caption of a group with the same new text. */
  function WithText(group: Group, text: string): (r: seq<Segment>)
    ensures |r| == |group|
    ensures forall k :: 0 <= k < |r| ==> r[k] == group[k].(text := text)
  {
    seq(|group|, k requires 0 <= k < |group| => group[k].(text := text))
  }

  /** One batch: `zip` stops at the shorter list. */
  function Retext(groups: seq<Group>, texts: seq<string>): seq<Segment> {
    if groups == [] || texts == [] then [] else WithText(groups[0], texts[0]) + Retext(groups[1..], texts[1..])
  }

  lemma {:induction false} RetextAppend(a: seq<Group>, x: seq<string>, b: seq<Group>, y: seq<string>)
    requires |a| == |x|
    ensures Retext(a + b, x + y) == Retext(a, x) + Retext(b, y)
  {
    if a == [] {
      assert a + b == b && x + y == y;
    } else {
      assert (a + b)[1..] == a[1..] + b && (x + y)[1..] == x[1..] + y;
      RetextAppend(a[1..], x[1..], b, y);
    }
  }

  function Merged(batches: seq<seq<Group>>, results: map<nat, seq<string>>, order: seq<nat>): seq<Segment>
    requires forall k :: 0 <= k < |order| ==> order[k] < |batches| && order[k] in results
  {
    if order == [] then []
    else
      var n := |order| - 1;
      Merged(batches, results, order[..n]) + Retext(batches[order[n]], results[order[n]])
  }

  /** The numbers of the batches that have a result, in ascending order. */
  function Order(results: map<nat, seq<string>>): (r: seq<nat>)
    ensures forall k :: 0 <= k < |r| ==> r[k] in results
  {
    var r := Ascending(results.Keys);
    assert forall k :: 0 <= k < |r| ==> r[k] in r;
    r
  }

  method MergeBatch(batch: seq<Group>, texts: seq<string>) returns (part: seq<Segment>)
    ensures part == Retext(batch, texts)
  {
    part := [];
    var shorter := if |batch| <= |texts| then |batch| else |texts|;
    for j := 0 to shorter
      invariant part == Retext(batch[..j], texts[..j])
    {
      ghost var before := part;
      for i := 0 to |batch[j]|
        invariant part == before + WithText(batch[j], texts[j])[..i]
      {
        part := part + [batch[j][i].(text := texts[j])];
      }
      RetextNext(batch, texts, j);
    }
    RetextShorter(batch, texts);
  }

  lemma RetextNext(groups: seq<Group>, texts: seq<string>, j: nat)
    requires j < |groups| && j < |texts|
    ensures Retext(groups[..j + 1], texts[..j + 1]) == Retext(groups[..j], texts[..j]) + WithText(groups[j], texts[j])
  {
    assert groups[..j + 1] == groups[..j] + [groups[j]] && texts[..j + 1] == texts[..j] + [texts[j]];
    RetextAppend(groups[..j], texts[..j], [groups[j]], [texts[j]]);
    assert [groups[j]][1..] == [];
  }

  lemma MergedNone(batches: seq<seq<Group>>, results: map<nat, seq<string>>)
    ensures Merged(batches, results, []) == []
  {
  }

  lemma MergedNext(batches: seq<seq<Group>>, results: map<nat, seq<string>>, order: seq<nat>, k: nat)
    requires k < |order|
    requires forall j :: 0 <= j < |order| ==> order[j] < |batches| && order[j] in results
    ensures Merged(batches, results, order[..k + 1])
      == Merged(batches, results, order[..k]) + Retext(batches[order[k]], results[order[k]])
  {
    hide Retext;
    assert order[..k + 1][..k] == order[..k];
  }

  method Merge(batches: seq<seq<Group>>, results: map<nat, seq<string>>) returns (merged: seq<Segment>)
    requires forall i :: i in results ==> i < |batches|
    ensures merged == Merged(batches, results, Order(results))
  {
    hide Retext, Merged;
    var order := Order(results);
    merged := [];
    MergedNone(batches, results);
    for k := 0 to |order|
      invariant merged == Merged(batches, results, order[..k])
    {
      var part := MergeBatch(batches[order[k]], results[order[k]]);
      MergedNext(batches, results, order, k);
      merged := merged + part;
    }
    assert order[..|order|] == order;
  }

  lemma {:induction false} RetextShorter(groups: seq<Group>, texts: seq<string>)
    ensures var n := if |groups| <= |texts| then |groups| else |texts|;
      Retext(groups, texts) == Retext(groups[..n], texts[..n])
  {
    var n := if |groups| <= |texts| then |groups| else |texts|;
    if n > 0 {
      RetextShorter(groups[1..], texts[1..]);
      assert groups[..n][1..] == groups[1..][..n - 1] && texts[..n][1..] == texts[1..][..n - 1];
    }
  }

  /** The group that holds the k-th caption of the list. */
  function GroupIndex(groups: seq<Group>, k: nat): (g: nat)
    requires k < |Flatten(groups)|
    ensures g < |groups|
  {
    if k < |groups[0]| then 0 else 1 + GroupIndex(groups[1..], k - |groups[0]|)
  }

  /** Putting texts onto groups changes no time, no speaker and no position: every caption gets its own group's text. */
  lemma {:induction false} RetextShape(groups: seq<Group>, texts: seq<string>)
    requires |texts| == |groups|
    ensures |Retext(groups, texts)| == |Flatten(groups)|
    ensures forall k :: 0 <= k < |Flatten(groups)| ==>
      Retext(groups, texts)[k] == Flatten(groups)[k].(text := texts[GroupIndex(groups, k)])
  {
    if groups != [] {
      RetextShape(groups[1..], texts[1..]);
      forall k | 0 <= k < |Flatten(groups)|
        ensures Retext(groups, texts)[k] == Flatten(groups)[k].(text := texts[GroupIndex(groups, k)])
      {
        if k >= |groups[0]| {
          var j := k - |groups[0]|;
          assert Flatten(groups)[k] == Flatten(groups[1..])[j];
          assert Retext(groups, texts)[k] == Retext(groups[1..], texts[1..])[j];
        }
      }
    }
  }

  /** Every batch has a result, and it has one text per group. */
  ghost predicate AllAnswered(batches: seq<seq<Group>>, results: map<nat, seq<string>>) {
    && (forall b: nat :: b in results <==> b < |batches|)
    && (forall b :: 0 <= b < |batches| ==> |results[b]| == |batches[b]|)
  }

  function ResultList(results: map<nat, seq<string>>, n: nat): (r: seq<seq<string>>)
    requires forall b: nat :: b < n ==> b in results
    ensures |r| == n && forall b :: 0 <= b < n ==> r[b] == results[b]
  {
    seq(n, b requires 0 <= b < n => results[b])
  }

  lemma {:induction false} SameLengths(batches: seq<seq<Group>>, lists: seq<seq<string>>)
    requires |batches| == |lists|
    requires forall b :: 0 <= b < |batches| ==> |lists[b]| == |batches[b]|
    ensures |Flatten(batches)| == |Flatten(lists)|
  {
    if batches != [] {
      SameLengths(batches[1..], lists[1..]);
    }
  }

  /** One more batch with its texts. */
  lemma RetextLast(groups: seq<seq<Group>>, last: seq<Group>, lists: seq<seq<string>>, texts: seq<string>)
    requires |Flatten(groups)| == |Flatten(lists)|
    ensures Retext(Flatten(groups + [last]), Flatten(lists + [texts]))
      == Retext(Flatten(groups), Flatten(lists)) + Retext(last, texts)
  {
    FlattenAppend(groups, [last]);
    FlattenAppend(lists, [texts]);
    FlattenSingle(last);
    FlattenSingle(texts);
    RetextAppend(Flatten(groups), Flatten(lists), last, texts);
  }

  lemma MergedUpto(batches: seq<seq<Group>>, results: map<nat, seq<string>>, n: nat)
    requires n < |batches| && forall i: nat :: i <= n ==> i in results
    ensures Merged(batches, results, Upto(n + 1))
      == Merged(batches, results, Upto(n)) + Retext(batches[n], results[n])
  {
    hide Retext;
    assert Upto(n + 1)[..n] == Upto(n);
  }

  lemma RetextUpto(batches: seq<seq<Group>>, results: map<nat, seq<string>>, n: nat)
    requires AllAnswered(batches, results) && n < |batches|
    ensures Retext(Flatten(batches[..n + 1]), Flatten(ResultList(results, n + 1)))
      == Retext(Flatten(batches[..n]), Flatten(ResultList(results, n))) + Retext(batches[n], results[n])
  {
    hide Retext, Flatten;
    var before := ResultList(results, n);
    assert batches[..n + 1] == batches[..n] + [batches[n]];
    assert ResultList(results, n + 1) == before + [results[n]];
    SameLengths(batches[..n], before);
    RetextLast(batches[..n], batches[n], before, results[n]);
  }

  lemma {:induction false} MergedPrefix(batches: seq<seq<Group>>, results: map<nat, seq<string>>, n: nat)
    requires AllAnswered(batches, results) && n <= |batches|
    ensures Merged(batches, results, Upto(n)) == Retext(Flatten(batches[..n]), Flatten(ResultList(results, n)))
  {
    if n > 0 {
      hide Retext, Flatten, Merged, ResultList;
      MergedPrefix(batches, results, n - 1);
      MergedUpto(batches, results, n - 1);
      RetextUpto(batches, results, n - 1);
    }
  }

  lemma MergedAll(batches: seq<seq<Group>>, results: map<nat, seq<string>>)
    requires AllAnswered(batches, results)
    ensures Order(results) == Upto(|batches|)
    ensures Merged(batches, results, Order(results))
      == Retext(Flatten(batches), Flatten(ResultList(results, |batches|)))
  {
    var order := Upto(|batches|);
    forall i: nat ensures i in order <==> i in Order(results) {
      if i < |batches| {
        assert order[i] == i;
      }
    }
    AscendingUnique(Order(results), order);
    MergedPrefix(batches, results, |batches|);
    assert batches[..|batches|] == batches;
  }

  /** A complete translation has the input's captions in the input's order: only texts differ. */
  lemma CompleteKeepsTiming(segments: seq<Segment>, groups: seq<Group>, results: map<nat, seq<string>>)
    requires Flatten(groups) == segments && AllAnswered(Batches(groups), results)
    ensures var merged := Merged(Batches(groups), results, Order(results));
      |merged| == |segments| && forall k :: 0 <= k < |segments| ==> merged[k].(text := segments[k].text) == segments[k]
  {
    var batches := Batches(groups);
    MergedAll(batches, results);
    BatchesFlatten(groups);
    SameLengths(batches, ResultList(results, |batches|));
    RetextShape(groups, Flatten(ResultList(results, |batches|)));
  }

  // ----- the whole way from answers to captions -----

  lemma {:induction false} FlattenTexts(lists: seq<seq<string>>, ids: seq<seq<string>>, text: string -> string)
    requires |lists| == |ids|
    requires forall b :: 0 <= b < |ids| ==> lists[b] == TextsOf(ids[b], text)
    ensures Flatten(lists) == TextsOf(Flatten(ids), text)
  {
    if lists != [] {
      FlattenTexts(lists[1..], ids[1..], text);
      assert lists[0] == TextsOf(ids[0], text);
    }
  }

  lemma BatchIdsDistinct(n: nat, b: nat)
    requires b < |Batches(Ids(n))|
    ensures DistinctStrings(Batches(Ids(n))[b])
    ensures forall id :: id in Batches(Ids(n))[b] ==> id in Ids(n)
  {
    hide Id;
    var ids := Ids(n);
    BatchAt(ids, b);
    var batch := Batches(ids)[b];
    forall j, k | 0 <= j < k < |batch| ensures batch[j] != batch[k] {
      IdsDiffer(BATCH * b + j, BATCH * b + k);
      assert batch[j] == ids[BATCH * b + j] && batch[k] == ids[BATCH * b + k];
    }
  }

  /** Each batch answered with any permutation of one nonblank text per id, and aligned. */
  ghost predicate AnsweredBy(groups: seq<Group>, replies: seq<seq<Answer>>, text: string -> string,
                             results: map<nat, seq<string>>) {
    var ids := Batches(Ids(|groups|));
    && |replies| == |ids|
    && (forall b: nat :: b in results <==> b < |ids|)
    && (forall b :: 0 <= b < |ids| ==> multiset(replies[b]) == multiset(InOrder(ids[b], text)))
    && (forall b :: 0 <= b < |ids| ==> Aligned(replies[b], ids[b], results[b]))
    && (forall id :: id in Ids(|groups|) ==> Strip(text(id)) != "")
  }

  lemma AnsweredBatch(n: nat, b: nat, reply: seq<Answer>, text: string -> string, texts: seq<string>)
    requires b < |Batches(Ids(n))|
    requires multiset(reply) == multiset(InOrder(Batches(Ids(n))[b], text))
    requires Aligned(reply, Batches(Ids(n))[b], texts)
    requires forall id :: id in Ids(n) ==> Strip(text(id)) != ""
    ensures texts == TextsOf(Batches(Ids(n))[b], text)
  {
    hide Id, Aligned, Chunks;
    BatchIdsDistinct(n, b);
    PermutedAnswer(reply, Batches(Ids(n))[b], text);
  }

  lemma BatchLengths<T, U>(s: seq<T>, t: seq<U>)
    requires |s| == |t|
    ensures |Batches(s)| == |Batches(t)|
    ensures forall b :: 0 <= b < |Batches(s)| ==> |Batches(s)[b]| == |Batches(t)[b]|
  {
    BatchCount(s);
    BatchCount(t);
    forall b | 0 <= b < |Batches(s)| ensures |Batches(s)[b]| == |Batches(t)[b]| {
      BatchAt(s, b);
      BatchAt(t, b);
    }
  }

  lemma AnsweredTexts(groups: seq<Group>, replies: seq<seq<Answer>>, text: string -> string,
                      results: map<nat, seq<string>>)
    requires AnsweredBy(groups, replies, text, results)
    ensures AllAnswered(Batches(groups), results)
    ensures Flatten(ResultList(results, |Batches(groups)|)) == TextsOf(Ids(|groups|), text)
  {
    hide Id, Batches, Aligned;
    var ids := Batches(Ids(|groups|));
    BatchLengths(groups, Ids(|groups|));
    forall b: nat | b < |ids| ensures results[b] == TextsOf(ids[b], text) {
      AnsweredBatch(|groups|, b, replies[b], text, results[b]);
    }
    FlattenTexts(ResultList(results, |ids|), ids, text);
    BatchesFlatten(Ids(|groups|));
  }

  /**
   Whatever the order of each batch's answer, the merged captions are the input's captions, in the input's order and
   with the input's times and speakers, each with the text answered for its own group's id.
   */
  lemma TransparentMerge(segments: seq<Segment>, groups: seq<Group>, replies: seq<seq<Answer>>,
                         text: string -> string, results: map<nat, seq<string>>)
    requires Flatten(groups) == segments && AnsweredBy(groups, replies, text, results)
    ensures AllAnswered(Batches(groups), results)
    ensures var merged := Merged(Batches(groups), results, Order(results));
      |merged| == |segments| && forall k :: 0 <= k < |segments| ==>
        merged[k] == segments[k].(text := text(Id(GroupIndex(groups, k))))
  {
    hide Id;
    var batches := Batches(groups);
    AnsweredTexts(groups, replies, text, results);
    MergedAll(batches, results);
    BatchesFlatten(groups);
    RetextShape(groups, TextsOf(Ids(|groups|), text));
  }
}
