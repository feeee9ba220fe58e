/** `translation_groups` and the batches of identified targets made from the groups. */
module TranslationGroups {
  import opened Rounding
  import opened Layout
  import Decimal

  type Group = seq<Segment>

  datatype Span = Span(start: real, end: real)

  /** One sentence that was projected onto several pieces of the original timeline. */
  datatype Crossing = Crossing(text: string, intervals: seq<Span>)

  datatype Key = Key(start: int, end: int, text: string)

  /** A time rounded to microseconds. */
  function Micros(seconds: real): int {
    HalfEven(seconds * 1000000.0)
  }

  function KeyOf(s: Segment): Key {
    Key(Micros(s.start), Micros(s.end), s.text)
  }

  function PieceKey(c: Crossing, k: nat): Key
    requires k < |c.intervals|
  {
    Key(Micros(c.intervals[k].start), Micros(c.intervals[k].end), c.text)
  }

  // ----- where a caption comes from -----

  predicate Names(c: Crossing, upto: nat, key: Key)
    requires upto <= |c.intervals|
  {
    exists k :: 0 <= k < upto && PieceKey(c, k) == key
  }

  /** The sentences that have a piece with this key. */
  function Sources(crossings: seq<Crossing>, key: Key): set<nat> {
    set i: nat | i < |crossings| && Names(crossings[i], |crossings[i].intervals|, key)
  }

  function Lookup(origins: map<Key, set<nat>>, key: Key): set<nat> {
    if key in origins then origins[key] else {}
  }

  method Origins(crossings: seq<Crossing>) returns (origins: map<Key, set<nat>>)
    ensures forall key :: Lookup(origins, key) == Sources(crossings, key)
  {
    origins := map[];
    for index := 0 to |crossings|
      invariant forall key :: Lookup(origins, key) == Sources(crossings[..index], key)
    {
      var c := crossings[index];
      ghost var before := origins;
      for k := 0 to |c.intervals|
        invariant forall key :: Lookup(origins, key) == Lookup(before, key) + if Names(c, k, key) then {index} else {}
      {
        origins := Noted(origins, PieceKey(c, k), index);
        assert forall key :: Names(c, k + 1, key) <==> Names(c, k, key) || PieceKey(c, k) == key;
      }
      SourcesGrow(crossings, index);
      assert forall key :: SourcesWith(crossings, index, key);
    }
    assert crossings[..|crossings|] == crossings;
  }

  /** One more sentence for the key of a piece. */
  function Noted(origins: map<Key, set<nat>>, key: Key, index: nat): (r: map<Key, set<nat>>)
    ensures forall other :: Lookup(r, other) == Lookup(origins, other) + if other == key then {index} else {}
  {
    origins[key := Lookup(origins, key) + {index}]
  }

  ghost predicate SourcesWith(crossings: seq<Crossing>, index: nat, key: Key)
    requires index < |crossings|
  {
    var here := if Names(crossings[index], |crossings[index].intervals|, key) then {index} else {};
    Sources(crossings[..index + 1], key) == Sources(crossings[..index], key) + here
  }

  lemma SourcesGrow(crossings: seq<Crossing>, index: nat)
    requires index < |crossings|
    ensures forall key :: SourcesWith(crossings, index, key)
  {
    var longer := crossings[..index + 1];
    assert forall i :: 0 <= i < index ==> longer[i] == crossings[..index][i];
  }

  // ----- groups -----

  predicate Close(first: Segment, previous: Segment, s: Segment) {
    var gap := s.start - previous.end;
    -0.00000001 <= gap <= 0.300001 && s.end - first.start <= 8.0
  }

  /** The caption shares the group's translation. */
  predicate Joins(crossings: seq<Crossing>, group: Group, s: Segment) {
    && group != []
    && var previous := group[|group| - 1];
      && s.text == previous.text
      && (Sources(crossings, KeyOf(previous)) * Sources(crossings, KeyOf(s)) != {} || Close(group[0], previous, s))
  }

  function Placed(crossings: seq<Crossing>, groups: seq<Group>, s: Segment): seq<Group> {
    var n := |groups|;
    if n > 0 && Joins(crossings, groups[n - 1], s) then groups[..n - 1] + [groups[n - 1] + [s]] else groups + [[s]]
  }

  function GroupsOf(crossings: seq<Crossing>, segments: seq<Segment>): seq<Group> {
    if segments == [] then []
    else
      var n := |segments| - 1;
      Placed(crossings, GroupsOf(crossings, segments[..n]), segments[n])
  }

  /** Whether the caption goes into the last group, by the dictionary of origins. */
  method BelongsToLast(crossings: seq<Crossing>, origins: map<Key, set<nat>>, groups: seq<Group>, s: Segment)
    returns (joined: bool)
    requires forall key :: Lookup(origins, key) == Sources(crossings, key)
    requires AllNonempty(groups)
    ensures joined == (groups != [] && Joins(crossings, groups[|groups| - 1], s))
  {
    hide KeyOf, Sources, Lookup, Close;
    if groups == [] {
      return false;
    }
    var last := groups[|groups| - 1];
    var previous := last[|last| - 1];
    if s.text != previous.text {
      return false;
    }
    var sameSource := Lookup(origins, KeyOf(previous)) * Lookup(origins, KeyOf(s)) != {};
    return sameSource || Close(last[0], previous, s);
  }

  ghost predicate AllNonempty(groups: seq<Group>) {
    forall g :: 0 <= g < |groups| ==> groups[g] != []
  }

  method GroupSegments(crossings: seq<Crossing>, segments: seq<Segment>) returns (groups: seq<Group>)
    ensures groups == GroupsOf(crossings, segments)
  {
    hide Joins, Sources, Lookup;
    var origins := Origins(crossings);
    groups := [];
    for k := 0 to |segments|
      invariant groups == GroupsOf(crossings, segments[..k])
      invariant AllNonempty(groups)
    {
      assert segments[..k + 1][..k] == segments[..k];
      var joined := BelongsToLast(crossings, origins, groups, segments[k]);
      var n := |groups|;
      if joined {
        groups := groups[..n - 1] + [groups[n - 1] + [segments[k]]];
      } else {
        groups := groups + [[segments[k]]];
      }
    }
    assert segments[..|segments|] == segments;
  }

  lemma {:induction false} FlattenAppend<T>(a: seq<seq<T>>, b: seq<seq<T>>)
    ensures Flatten(a + b) == Flatten(a) + Flatten(b)
  {
    if a == [] {
      assert a + b == b;
    } else {
      assert (a + b)[1..] == a[1..] + b;
      FlattenAppend(a[1..], b);
    }
  }

  lemma FlattenSingle<T>(part: seq<T>)
    ensures Flatten([part]) == part
  {
    assert [part][1..] == [];
  }

  /** Every caption after a group's first joins what precedes it in the group. */
  ghost predicate Chained(crossings: seq<Crossing>, group: Group) {
    group != [] && forall k :: 0 < k < |group| ==> Joins(crossings, group[..k], group[k])
  }

  /** Groups are as long as they can be. */
  ghost predicate Separate(crossings: seq<Crossing>, groups: seq<Group>) {
    forall g :: 0 < g < |groups| && groups[g] != [] ==> !Joins(crossings, groups[g - 1], groups[g][0])
  }

  ghost predicate AllChained(crossings: seq<Crossing>, groups: seq<Group>) {
    forall g :: 0 <= g < |groups| ==> Chained(crossings, groups[g])
  }

  ghost predicate Grouping(crossings: seq<Crossing>, groups: seq<Group>, segments: seq<Segment>) {
    Flatten(groups) == segments && AllChained(crossings, groups) && Separate(crossings, groups)
  }

  lemma PlacedContract(crossings: seq<Crossing>, groups: seq<Group>, segments: seq<Segment>, s: Segment)
    requires Grouping(crossings, groups, segments)
    ensures Grouping(crossings, Placed(crossings, groups, s), segments + [s])
  {
    hide Joins;
    var n := |groups|;
    if n > 0 && Joins(crossings, groups[n - 1], s) {
      var last := groups[n - 1];
      var longer := last + [s];
      forall k | 0 < k < |longer| ensures Joins(crossings, longer[..k], longer[k]) {
        assert longer[..k] == last[..k];
        if k == |last| {
          assert last[..k] == last;
        }
      }
      assert groups == groups[..n - 1] + [last];
      FlattenAppend(groups[..n - 1], [last]);
      FlattenAppend(groups[..n - 1], [longer]);
      FlattenSingle(last);
      FlattenSingle(longer);
    } else {
      FlattenAppend(groups, [[s]]);
      FlattenSingle([s]);
    }
  }

  lemma NoGroups(crossings: seq<Crossing>)
    ensures Grouping(crossings, [], [])
  {
  }

  /** Grouping neither loses, repeats nor reorders a caption, and starts a group only where it must. */
  lemma {:induction false} GroupsContract(crossings: seq<Crossing>, segments: seq<Segment>)
    ensures Grouping(crossings, GroupsOf(crossings, segments), segments)
  {
    hide Grouping, Placed;
    if segments == [] {
      NoGroups(crossings);
    } else {
      var n := |segments| - 1;
      GroupsContract(crossings, segments[..n]);
      PlacedContract(crossings, GroupsOf(crossings, segments[..n]), segments[..n], segments[n]);
      assert segments[..n] + [segments[n]] == segments;
    }
  }

  /** All captions of a group have the text that is sent for translation. */
  lemma {:induction false} GroupText(crossings: seq<Crossing>, group: Group, k: nat)
    requires Chained(crossings, group) && k < |group|
    ensures group[k].text == group[0].text
  {
    if k > 0 {
      GroupText(crossings, group, k - 1);
      assert Joins(crossings, group[..k], group[k]);
      assert group[..k][k - 1] == group[k - 1];
    }
  }

  /** Both times round to the same number of microseconds. */
  predicate SameTime(a: real, b: real) {
    HalfEven(a * 1000000.0) == HalfEven(b * 1000000.0)
  }

  /** Two captions are pieces of the same sentence: one that was cut, with parts at their times and with their texts. */
  ghost predicate SameSentence(crossings: seq<Crossing>, a: Segment, b: Segment) {
    exists i, j, k :: PartsOf(crossings, a, b, i, j, k)
  }

  predicate PartsOf(crossings: seq<Crossing>, a: Segment, b: Segment, i: int, j: int, k: int) {
    && 0 <= i < |crossings| && 0 <= j < |crossings[i].intervals| && 0 <= k < |crossings[i].intervals|
    && crossings[i].text == a.text == b.text
    && SameTime(crossings[i].intervals[j].start, a.start) && SameTime(crossings[i].intervals[j].end, a.end)
    && SameTime(crossings[i].intervals[k].start, b.start) && SameTime(crossings[i].intervals[k].end, b.end)
  }

  lemma SourcesMeaning(crossings: seq<Crossing>, a: Segment, b: Segment)
    ensures Sources(crossings, KeyOf(a)) * Sources(crossings, KeyOf(b)) != {} <==> SameSentence(crossings, a, b)
  {
    hide HalfEven;
    var both := Sources(crossings, KeyOf(a)) * Sources(crossings, KeyOf(b));
    if both != {} {
      var i :| i in both;
      var c := crossings[i];
      assert Names(c, |c.intervals|, KeyOf(a)) && Names(c, |c.intervals|, KeyOf(b));
      var j :| 0 <= j < |c.intervals| && PieceKey(c, j) == KeyOf(a);
      var k :| 0 <= k < |c.intervals| && PieceKey(c, k) == KeyOf(b);
      assert PartsOf(crossings, a, b, i, j, k);
    }
    forall i, j, k | PartsOf(crossings, a, b, i, j, k) ensures i in both {
      assert PieceKey(crossings[i], j) == KeyOf(a) && PieceKey(crossings[i], k) == KeyOf(b);
    }
  }

  /**
   A caption shares the translation of the one before it if and only if it has the same text, and either both are parts
   of one sentence, or at most 0.3 seconds lie between them and the whole group stays within eight seconds.
   */
  lemma JoinsExactly(crossings: seq<Crossing>, group: Group, s: Segment)
    requires group != []
    ensures var previous := group[|group| - 1];
      Joins(crossings, group, s) <==>
        && s.text == previous.text
        && (|| SameSentence(crossings, previous, s)
            || (-0.00000001 <= s.start - previous.end <= 0.300001 && s.end - group[0].start <= 8.0))
  {
    hide Sources, SameSentence, KeyOf;
    SourcesMeaning(crossings, group[|group| - 1], s);
  }

  // ----- batches -----

  const BATCH: nat := 40

  function Batches<T>(s: seq<T>): seq<seq<T>> {
    Chunks(s, BATCH)
  }

  function BatchEnd(offset: nat, n: nat): nat {
    if offset + BATCH < n then offset + BATCH else n
  }

  lemma {:induction false} BatchCount<T>(s: seq<T>)
    ensures |Batches(s)| == (|s| + BATCH - 1) / BATCH
  {
    if |s| > BATCH {
      BatchCount(s[BATCH..]);
    }
  }

  lemma SliceOfRest<T>(s: seq<T>, n: nat, from: nat, to: nat)
    requires n <= |s| && from <= to <= |s| - n
    ensures s[n..][from..to] == s[n + from..n + to]
  {
  }

  lemma {:induction false} BatchAt<T>(s: seq<T>, b: nat)
    requires b < |Batches(s)|
    ensures BATCH * b < |s|
    ensures Batches(s)[b] == s[BATCH * b..BatchEnd(BATCH * b, |s|)]
  {
    if b > 0 {
      var rest := s[BATCH..];
      BatchAt(rest, b - 1);
      assert Batches(s)[b] == Batches(rest)[b - 1];
      var from := BATCH * (b - 1);
      assert BATCH * b == BATCH + from && BatchEnd(BATCH * b, |s|) == BATCH + BatchEnd(from, |rest|);
      SliceOfRest(s, BATCH, from, BatchEnd(from, |rest|));
    } else if |s| <= BATCH {
      assert s[0..|s|] == s;
    }
  }

  lemma {:induction false} BatchesFlatten<T>(s: seq<T>)
    ensures Flatten(Batches(s)) == s
  {
    if s != [] {
      if |s| <= BATCH {
        FlattenSingle(s);
      } else {
        BatchesFlatten(s[BATCH..]);
        assert Batches(s) == [s[..BATCH]] + Batches(s[BATCH..]);
        FlattenAppend([s[..BATCH]], Batches(s[BATCH..]));
        FlattenSingle(s[..BATCH]);
        assert s == s[..BATCH] + s[BATCH..];
      }
    }
  }

  /** The id of the i-th target: its number from one, in at least six digits. */
  function Id(i: nat): string {
    "cue-" + Decimal.Padded(i + 1, 6)
  }

  lemma IdsDiffer(i: nat, j: nat)
    requires i != j
    ensures Id(i) != Id(j)
  {
    Decimal.ValueOfPadded(i + 1, 6);
    Decimal.ValueOfPadded(j + 1, 6);
    assert Id(i)[4..] == Decimal.Padded(i + 1, 6) && Id(j)[4..] == Decimal.Padded(j + 1, 6);
  }

  /** An id is "cue-" and at least six digits, of which only the first six can be padding. */
  lemma IdShape(i: nat)
    ensures Id(i)[..4] == "cue-" && |Id(i)| >= 10 && Decimal.Value(Id(i)[4..]) == i + 1
    ensures Decimal.Digits(Id(i)[4..]) && (|Id(i)| > 10 ==> Id(i)[4] != '0')
  {
    Decimal.ValueOfPadded(i + 1, 6);
    Decimal.PaddedDigits(i + 1, 6);
    assert Id(i)[4..] == Decimal.Padded(i + 1, 6);
  }

  function Ids(n: nat): (r: seq<string>)
    ensures |r| == n && forall i :: 0 <= i < n ==> r[i] == Id(i)
  {
    seq(n, i requires 0 <= i < n => Id(i))
  }

  datatype Target = Target(id: string, text: string)

  datatype Request = Request(before: seq<Target>, targets: seq<Target>, after: seq<Target>)

  function Targets(groups: seq<Group>): (r: seq<Target>)
    requires forall g :: 0 <= g < |groups| ==> groups[g] != []
    ensures |r| == |groups|
    ensures forall g :: 0 <= g < |groups| ==> r[g] == Target(Id(g), groups[g][0].text)
  {
    seq(|groups|, g requires 0 <= g < |groups| => Target(Id(g), groups[g][0].text))
  }

  function Clipped(t: Target): Target {
    if |t.text| > 1000 then t.(text := t.text[..1000]) else t
  }

  function Shortened(targets: seq<Target>): (r: seq<Target>)
    ensures |r| == |targets|
    ensures forall k :: 0 <= k < |r| ==> r[k] == Clipped(targets[k])
  {
    seq(|targets|, k requires 0 <= k < |targets| => Clipped(targets[k]))
  }

  function RequestAt(targets: seq<Target>, offset: nat): Request
    requires offset < |targets|
  {
    var end := BatchEnd(offset, |targets|);
    Request(
      Shortened(targets[if offset >= 2 then offset - 2 else 0..offset]),
      targets[offset..end],
      Shortened(targets[end..if end + 2 < |targets| then end + 2 else |targets|]))
  }

  function Least(a: int, b: int): int {
    if a <= b then a else b
  }

  /** The i-th group as it is shown for context: with at most a thousand characters of its text. */
  predicate ShowsGroup(t: Target, groups: seq<Group>, i: int) {
    0 <= i < |groups| && groups[i] != [] && t == Target(Id(i), groups[i][0].text[..Least(|groups[i][0].text|, 1000)])
  }

  /** A request asks for the next forty groups, and shows the two before and the two behind them. */
  lemma RequestExactly(groups: seq<Group>, offset: nat)
    requires offset < |groups| && forall g :: 0 <= g < |groups| ==> groups[g] != []
    ensures var r, end := RequestAt(Targets(groups), offset), Least(offset + 40, |groups|);
      && |r.targets| == end - offset
      && |r.before| == Least(2, offset) && |r.after| == Least(2, |groups| - end)
      && (forall k :: 0 <= k < |r.targets| ==> r.targets[k] == Target(Id(offset + k), groups[offset + k][0].text))
      && (forall k :: 0 <= k < |r.before| ==> ShowsGroup(r.before[k], groups, offset - |r.before| + k))
      && (forall k :: 0 <= k < |r.after| ==> ShowsGroup(r.after[k], groups, end + k))
  {
    hide Id;
  }

  method Requests(groups: seq<Group>) returns (requests: seq<Request>, ids: seq<seq<string>>)
    requires forall g :: 0 <= g < |groups| ==> groups[g] != []
    ensures ids == Batches(Ids(|groups|))
    ensures |requests| == |Batches(groups)|
    ensures forall b :: 0 <= b < |requests| ==>
      BATCH * b < |groups| && requests[b] == RequestAt(Targets(groups), BATCH * b)
  {
    hide RequestAt, Id, Batches;
    var targets := Targets(groups);
    BatchCount(groups);
    BatchCount(Ids(|groups|));
    requests, ids := [], [];
    var offset := 0;
    ghost var b := 0;
    while offset < |targets|
      invariant offset == BATCH * b && b <= |Batches(groups)|
      invariant offset < |targets| || b == |Batches(groups)|
      invariant |requests| == b && ids == Batches(Ids(|groups|))[..b]
      invariant forall k :: 0 <= k < b ==> BATCH * k < |groups| && requests[k] == RequestAt(targets, BATCH * k)
      decreases |targets| - offset
    {
      var batch := targets[offset..BatchEnd(offset, |targets|)];
      requests := requests + [RequestAt(targets, offset)];
      var names := seq(|batch|, k requires 0 <= k < |batch| => batch[k].id);
      BatchAt(Ids(|groups|), b);
      assert names == Batches(Ids(|groups|))[b];
      ids := ids + [names];
      offset := offset + BATCH;
      b := b + 1;
    }
  }

  /** Every group is a target of exactly one request, and context entries are never targets of the same request. */
  lemma RequestsAskOnce(targets: seq<Target>, requests: seq<Request>)
    requires |requests| == |Batches(targets)|
    requires forall b :: 0 <= b < |requests| ==> BATCH * b < |targets| && requests[b] == RequestAt(targets, BATCH * b)
    requires forall g :: 0 <= g < |targets| ==> targets[g].id == Id(g)
    ensures Flatten(seq(|requests|, b requires 0 <= b < |requests| => requests[b].targets)) == targets
    ensures forall b :: 0 <= b < |requests| ==> ContextApart(requests[b])
  {
    BatchCount(targets);
    var asked := seq(|requests|, b requires 0 <= b < |requests| => requests[b].targets);
    forall b | 0 <= b < |requests| ensures asked[b] == Batches(targets)[b] && ContextApart(requests[b]) {
      BatchAt(targets, b);
      RequestApart(targets, BATCH * b);
    }
    assert asked == Batches(targets);
    BatchesFlatten(targets);
  }

  ghost predicate Apart(a: seq<Target>, b: seq<Target>) {
    forall j, k :: 0 <= j < |a| && 0 <= k < |b| ==> a[j].id != b[k].id
  }

  ghost predicate ContextApart(r: Request) {
    Apart(r.before, r.targets) && Apart(r.after, r.targets)
  }

  lemma RequestApart(targets: seq<Target>, offset: nat)
    requires offset < |targets|
    requires forall g :: 0 <= g < |targets| ==> targets[g].id == Id(g)
    ensures ContextApart(RequestAt(targets, offset))
  {
    hide Id;
    var r := RequestAt(targets, offset);
    var end := BatchEnd(offset, |targets|);
    var low := if offset >= 2 then offset - 2 else 0;
    forall j, k | 0 <= j < |r.before| && 0 <= k < |r.targets| ensures r.before[j].id != r.targets[k].id {
      IdsDiffer(low + j, offset + k);
      assert targets[low + j].id == Id(low + j) && targets[offset + k].id == Id(offset + k);
    }
    forall j, k | 0 <= j < |r.after| && 0 <= k < |r.targets| ensures r.after[j].id != r.targets[k].id {
      IdsDiffer(end + j, offset + k);
      assert targets[end + j].id == Id(end + j) && targets[offset + k].id == Id(offset + k);
    }
  }
}
