/** Reading a reader's reply: the event ids it lists, how many items it saw, its errors
    (v5_workspace.py). Two loops of the source deduplicate the same ids in two ways. */
module SyncResults {
  import opened Lists
  import opened Options
  import opened Text

  /** An entry of "work_event_ids": its str() and its truth value. */
  datatype EventRef = EventRef(text: string, truthy: bool)

  /** A value of the reply: what sync_feishu_information returns under one kind. */
  datatype ResultItem =
    | NotAnObject
    | ResultItem(
        available: bool,
        eventIds: seq<EventRef>,
        itemsSeen: Option<int>,
        savedCount: Option<int>,
        total: Option<int>,
        error: string,
        errors: seq<string>)

  type Results = seq<ResultItem>

  function Max(a: int, b: int): int {
    if a < b then b else a
  }

  /** Every id text of the reply, in order. */
  function AllRefs(results: Results): seq<EventRef> {
    if results == [] then []
    else (if results[0].ResultItem? then results[0].eventIds else []) + AllRefs(results[1..])
  }

  function NonEmptyTexts(refs: seq<EventRef>): seq<string> {
    if refs == [] then []
    else NonEmptyTexts(refs[..|refs| - 1]) +
         (if refs[|refs| - 1].text != "" then [refs[|refs| - 1].text] else [])
  }

  function TruthyTexts(refs: seq<EventRef>): seq<string> {
    if refs == [] then []
    else TruthyTexts(refs[..|refs| - 1]) +
         (if refs[|refs| - 1].truthy then [refs[|refs| - 1].text] else [])
  }

  /** The ids a reply stands for. */
  function EventIds(results: Results): seq<string> {
    Distinct(NonEmptyTexts(AllRefs(results)))
  }

  /** The count of an item that lists no ids. */
  function DeclaredCount(item: ResultItem): int {
    if item.NotAnObject? || item.eventIds != [] then 0
    else if item.itemsSeen.Some? then item.itemsSeen.value
    else if item.savedCount.Some? then item.savedCount.value
    else if item.total.Some? then item.total.value
    else 0
  }

  function DeclaredCounts(results: Results): int {
    if results == [] then 0
    else DeclaredCounts(results[..|results| - 1]) + DeclaredCount(results[|results| - 1])
  }

  function UnclampedSeen(results: Results): int {
    DeclaredCounts(results) + |Distinct(TruthyTexts(AllRefs(results)))|
  }

  function ItemsSeen(results: Results, minimum: int): int {
    Max(UnclampedSeen(results), minimum)
  }

  /** Ids arrive as strings: an id is truthy exactly when it is not empty. */
  ghost predicate StringIds(results: Results) {
    forall ref <- AllRefs(results) :: ref.truthy <==> ref.text != ""
  }

  lemma {:induction false} SameTexts(refs: seq<EventRef>)
    requires forall ref <- refs :: ref.truthy <==> ref.text != ""
    ensures NonEmptyTexts(refs) == TruthyTexts(refs)
  {
    if refs != [] {
      SameTexts(refs[..|refs| - 1]);
      assert refs[|refs| - 1] in refs;
    }
  }

  /** The ordered id list has no repetition and, for string ids, the seen count is exactly that list's
      length plus what the id-less items declare. */
  lemma DedupAlgorithmsAgree(results: Results)
    requires StringIds(results)
    ensures NoRepeats(EventIds(results))
    ensures UnclampedSeen(results) == |EventIds(results)| + DeclaredCounts(results)
  {
    SameTexts(AllRefs(results));
    DistinctFacts(NonEmptyTexts(AllRefs(results)));
  }

  /** So the `minimum` clamp changes the count exactly when the declared counts sum below zero. */
  lemma ClampBitesIffNegative(results: Results)
    requires StringIds(results)
    ensures ItemsSeen(results, |EventIds(results)|) != UnclampedSeen(results) <==> DeclaredCounts(results) < 0
  {
    DedupAlgorithmsAgree(results);
  }

  lemma {:induction false} TextsAre(refs: seq<EventRef>)
    ensures forall x :: x in NonEmptyTexts(refs) <==> x != "" && exists ref <- refs :: ref.text == x
    ensures forall x :: x in TruthyTexts(refs) <==> exists ref <- refs :: ref.truthy && ref.text == x
  {
    if refs != [] {
      TextsAre(refs[..|refs| - 1]);
      assert refs == refs[..|refs| - 1] + [refs[|refs| - 1]];
    }
  }

  /** The ids one loop lists and the ids the other counts. */
  ghost predicate SameIds(results: Results) {
    forall x :: x in Distinct(NonEmptyTexts(AllRefs(results))) <==> x in Distinct(TruthyTexts(AllRefs(results)))
  }

  /** Ids of any kind: the two loops find the same ones if and only if no truthy id has an empty text, and
      the text of every falsy id is empty or that of a truthy one as well. */
  lemma DedupAgreesIff(results: Results)
    ensures SameIds(results) <==>
            && (forall ref <- AllRefs(results) :: ref.truthy ==> ref.text != "")
            && (forall ref <- AllRefs(results) :: !ref.truthy && ref.text != "" ==>
                  exists other <- AllRefs(results) :: other.truthy && other.text == ref.text)
  {
    var refs := AllRefs(results);
    TextsAre(refs);
    DistinctFacts(NonEmptyTexts(refs));
    DistinctFacts(TruthyTexts(refs));
    if SameIds(results) {
      forall ref <- refs | ref.truthy ensures ref.text != "" { assert ref.text in Distinct(TruthyTexts(refs)); }
      forall ref <- refs | !ref.truthy && ref.text != ""
        ensures exists other <- refs :: other.truthy && other.text == ref.text
      {
        assert ref.text in Distinct(NonEmptyTexts(refs));
      }
    }
  }

  lemma {:induction false} SameSize(a: seq<string>, b: seq<string>)
    requires NoRepeats(a) && NoRepeats(b) && forall x :: x in a ==> x in b
    ensures |a| <= |b| && (|a| == |b| ==> forall x :: x in b ==> x in a)
  {
    if a != [] {
      var front, last := a[..|a| - 1], a[|a| - 1];
      assert last in a;
      var k :| 0 <= k < |b| && b[k] == last;
      var rest := b[..k] + b[k + 1..];
      assert forall x :: x in b <==> x in rest || x == last;
      forall x | x in front ensures x in rest { assert x in a && x != last; }
      SameSize(front, rest);
    }
  }

  /** The counts disagree exactly when the ids do, for ids whose str() is not empty when they are truthy,
      as with every JSON value. */
  lemma CountsAgreeIff(results: Results)
    requires forall ref <- AllRefs(results) :: ref.truthy ==> ref.text != ""
    ensures UnclampedSeen(results) == |EventIds(results)| + DeclaredCounts(results) <==> SameIds(results)
  {
    var refs := AllRefs(results);
    var listed, counted := Distinct(NonEmptyTexts(refs)), Distinct(TruthyTexts(refs));
    TextsAre(refs);
    DistinctFacts(NonEmptyTexts(refs));
    DistinctFacts(TruthyTexts(refs));
    SameSize(counted, listed);
    if SameIds(results) { SameSize(listed, counted); }
  }

  /** It happens: the JSON number 0 is listed but not counted. */
  lemma NumericIdIsListedButNotCounted()
    ensures var zero := [ResultItem(true, [EventRef("0", false)], None, None, None, "", [])];
            EventIds(zero) == ["0"] && UnclampedSeen(zero) == 0
  {
    var ref := EventRef("0", false);
    var zero := [ResultItem(true, [ref], None, None, None, "", [])];
    assert AllRefs(zero) == [ref] + AllRefs([]);
    assert [ref][..0] == [];
    assert NonEmptyTexts([ref]) == NonEmptyTexts([]) + ["0"];
    assert TruthyTexts([ref]) == TruthyTexts([]);
    assert Distinct(["0"]) == AppendNew(Distinct(["0"][..0]), "0");
    assert zero[..0] == [];
  }

  // Loops of the source, proved against the functions above.

  lemma {:induction false} NonEmptyTextsConcat(a: seq<EventRef>, b: seq<EventRef>)
    ensures NonEmptyTexts(a + b) == NonEmptyTexts(a) + NonEmptyTexts(b)
    ensures TruthyTexts(a + b) == TruthyTexts(a) + TruthyTexts(b)
  {
    if b == [] {
      assert a + b == a;
    } else {
      var front, last := b[..|b| - 1], b[|b| - 1];
      assert (a + b)[..|a + b| - 1] == a + front;
      NonEmptyTextsConcat(a, front);
    }
  }

  lemma {:induction false} AllRefsSnoc(results: Results, item: ResultItem)
    ensures AllRefs(results + [item]) == AllRefs(results) + (if item.ResultItem? then item.eventIds else [])
  {
    if results == [] {
      assert [item][1..] == [];
      assert AllRefs([item]) == (if item.ResultItem? then item.eventIds else []) + AllRefs([]);
    } else {
      AllRefsSnoc(results[1..], item);
      assert (results + [item])[1..] == results[1..] + [item];
    }
  }

  lemma EventIdsSnoc(refs: seq<EventRef>, ref: EventRef)
    ensures Distinct(NonEmptyTexts(refs + [ref])) ==
            if ref.text == "" then Distinct(NonEmptyTexts(refs))
            else AppendNew(Distinct(NonEmptyTexts(refs)), ref.text)
  {
    assert (refs + [ref])[..|refs|] == refs;
    var texts := NonEmptyTexts(refs);
    assert (texts + [ref.text])[..|texts|] == texts;
    assert texts + [] == texts;
  }

  /** The inner loop of _work_event_ids_from_result. */
  method AddEventIds(found: seq<string>, ghost before: seq<EventRef>, refs: seq<EventRef>) returns (ids: seq<string>)
    requires found == Distinct(NonEmptyTexts(before))
    ensures ids == Distinct(NonEmptyTexts(before + refs))
  {
    ids := found;
    assert before + refs[..0] == before;
    for j := 0 to |refs|
      invariant ids == Distinct(NonEmptyTexts(before + refs[..j]))
    {
      var text := refs[j].text;
      assert before + refs[..j + 1] == before + refs[..j] + [refs[j]];
      EventIdsSnoc(before + refs[..j], refs[j]);
      if text != "" && text !in ids {
        ids := ids + [text];
      }
    }
    assert before + refs[..|refs|] == before + refs;
  }

  /** _work_event_ids_from_result. */
  method CollectEventIds(results: Results) returns (ids: seq<string>)
    ensures ids == EventIds(results)
  {
    ids := [];
    for k := 0 to |results|
      invariant ids == EventIds(results[..k])
    {
      AllRefsSnoc(results[..k], results[k]);
      assert results[..k + 1] == results[..k] + [results[k]];
      if results[k].NotAnObject? {
        assert AllRefs(results[..k]) + [] == AllRefs(results[..k]);
        continue;
      }
      ids := AddEventIds(ids, AllRefs(results[..k]), results[k].eventIds);
    }
    assert results[..|results|] == results;
  }

  method TruthyIds(refs: seq<EventRef>) returns (texts: seq<string>)
    ensures texts == TruthyTexts(refs)
  {
    texts := [];
    for j := 0 to |refs|
      invariant texts == TruthyTexts(refs[..j])
    {
      assert refs[..j + 1][..j] == refs[..j];
      if refs[j].truthy {
        texts := texts + [refs[j].text];
      }
    }
    assert refs[..|refs|] == refs;
  }

  lemma ItemsSnoc(results: Results, item: ResultItem)
    ensures DeclaredCounts(results + [item]) == DeclaredCounts(results) + DeclaredCount(item)
    ensures TruthyTexts(AllRefs(results + [item])) ==
            TruthyTexts(AllRefs(results)) + (if item.ResultItem? then TruthyTexts(item.eventIds) else [])
  {
    assert (results + [item])[..|results|] == results;
    AllRefsSnoc(results, item);
    NonEmptyTextsConcat(AllRefs(results), if item.ResultItem? then item.eventIds else []);
  }

  /** _items_seen_from_result. */
  method CountItemsSeen(results: Results, minimum: int) returns (seen: int)
    ensures seen == ItemsSeen(results, minimum)
  {
    var count := 0;
    var texts: seq<string> := [];
    for k := 0 to |results|
      invariant count == DeclaredCounts(results[..k])
      invariant texts == TruthyTexts(AllRefs(results[..k]))
    {
      var item := results[k];
      ItemsSnoc(results[..k], item);
      assert results[..k + 1] == results[..k] + [item];
      if item.NotAnObject? {
        continue;
      }
      if item.eventIds != [] {
        var added := TruthyIds(item.eventIds);
        texts := texts + added;
      } else if item.itemsSeen.Some? {
        count := count + item.itemsSeen.value;
      } else if item.savedCount.Some? {
        count := count + item.savedCount.value;
      } else if item.total.Some? {
        count := count + item.total.value;
      }
    }
    assert results[..|results|] == results;
    if texts != [] {
      count := count + |Distinct(texts)|;
    }
    seen := Max(count, minimum);
  }

  /** Every value that is an object says it is available. */
  predicate Available(results: Results) {
    forall item <- results :: item.ResultItem? ==> item.available
  }

  function AllErrors(results: Results): seq<string> {
    if results == [] then []
    else (if results[0].ResultItem? then NonEmpty([results[0].error] + results[0].errors) else [])
         + AllErrors(results[1..])
  }

  function Join(texts: seq<string>): string {
    if texts == [] then "" else if |texts| == 1 then texts[0] else texts[0] + "; " + Join(texts[1..])
  }

  function Truncate(s: string, limit: nat): string {
    if |s| <= limit then s else s[..limit]
  }

  /** _error_message_from_result. */
  function ErrorMessage(results: Results): Option<string> {
    var errors := AllErrors(results);
    if errors == [] then None else Some(Truncate(Join(Distinct(errors)), 1000))
  }
}
