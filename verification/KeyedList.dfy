/** Vectors of identified values edited in place by `upsert_by_id` and
    `remove_by_id`, and what a whole stream of such edits amounts to. */
module KeyedList {
  import opened Domain
  import opened Sequences

  ghost predicate Has<T>(items: seq<Keyed<T>>, id: Id) {
    exists i | 0 <= i < |items| :: items[i].id == id
  }

  ghost predicate Distinct<T>(items: seq<Keyed<T>>) {
    forall i, j | 0 <= i < j < |items| :: items[i].id != items[j].id
  }

  /** Replace the first item with the same id, or append. */
  function Upsert<T>(items: seq<Keyed<T>>, item: Keyed<T>): seq<Keyed<T>> {
    if items == [] then [item]
    else if items[0].id == item.id then [item] + items[1..]
    else [items[0]] + Upsert(items[1..], item)
  }

  /** Keep every item with another id. */
  function Remove<T>(items: seq<Keyed<T>>, id: Id): seq<Keyed<T>> {
    if items == [] then []
    else (if items[0].id == id then [] else [items[0]]) + Remove(items[1..], id)
  }

  function Lookup<T>(items: seq<Keyed<T>>, id: Id): Option<Keyed<T>> {
    if items == [] then None
    else if items[0].id == id then Some(items[0])
    else Lookup(items[1..], id)
  }

  /** A stream of upserts, applied in order to an empty vector. */
  function UpsertAll<T>(stream: seq<Keyed<T>>): seq<Keyed<T>> {
    if stream == [] then []
    else Upsert(UpsertAll(stream[..|stream| - 1]), stream[|stream| - 1])
  }

  /** The latest item of a stream with the given id, read backwards. */
  function Latest<T>(stream: seq<Keyed<T>>, id: Id): Option<Keyed<T>> {
    if stream == [] then None
    else if stream[|stream| - 1].id == id then Some(stream[|stream| - 1])
    else Latest(stream[..|stream| - 1], id)
  }

  function Ids<T>(items: seq<Keyed<T>>): (ids: seq<Id>)
    ensures |ids| == |items|
    ensures forall i | 0 <= i < |items| :: ids[i] == items[i].id
  {
    if items == [] then [] else [items[0].id] + Ids(items[1..])
  }

  /** Distinct ids in order of first appearance. */
  function FirstSeen(ids: seq<Id>): seq<Id> {
    if ids == [] then []
    else
      var before := FirstSeen(ids[..|ids| - 1]);
      if ids[|ids| - 1] in before then before else before + [ids[|ids| - 1]]
  }

  lemma UpsertHead<T>(items: seq<Keyed<T>>, item: Keyed<T>)
    requires items != []
    ensures Upsert(items, item) ==
            if items[0].id == item.id then [item] + items[1..] else [items[0]] + Upsert(items[1..], item)
  {
  }

  lemma SplitAt<T>(items: seq<T>, i: nat, item: T)
    requires i < |items|
    ensures items[i..][0] == items[i] && items[i..][1..] == items[i + 1..]
    ensures items[..i] + [items[i]] == items[..i + 1]
    ensures items[..i] + ([item] + items[i + 1..]) == items[i := item]
  {
  }

  lemma UpsertStep<T>(items: seq<Keyed<T>>, item: Keyed<T>, i: nat, whole: seq<Keyed<T>>)
    requires i < |items| && whole == items[..i] + Upsert(items[i..], item)
    ensures if items[i].id == item.id then whole == items[i := item]
            else whole == items[..i + 1] + Upsert(items[i + 1..], item)
  {
    UpsertHead(items[i..], item);
    SplitAt(items, i, item);
    Associate(items[..i], [items[i]], Upsert(items[i + 1..], item));
  }

  method UpsertById<T>(items: seq<Keyed<T>>, item: Keyed<T>) returns (r: seq<Keyed<T>>)
    ensures r == Upsert(items, item)
  {
    var i := 0;
    while i < |items| && items[i].id != item.id
      invariant 0 <= i <= |items|
      invariant Upsert(items, item) == items[..i] + Upsert(items[i..], item)
    {
      UpsertStep(items, item, i, Upsert(items, item));
      i := i + 1;
    }
    if i < |items| {
      UpsertStep(items, item, i, Upsert(items, item));
      r := items[i := item];
    } else {
      assert items[i..] == [];
      assert items[..i] == items;
      r := items + [item];
    }
  }

  lemma RemoveStep<T>(items: seq<Keyed<T>>, id: Id, r: seq<Keyed<T>>, i: nat)
    requires i < |items| && Remove(items, id) == r + Remove(items[i..], id)
    ensures Remove(items, id) == (if items[i].id != id then r + [items[i]] else r) + Remove(items[i + 1..], id)
  {
    assert items[i..][1..] == items[i + 1..];
    Associate(r, [items[i]], Remove(items[i + 1..], id));
  }

  method RemoveById<T>(items: seq<Keyed<T>>, id: Id) returns (r: seq<Keyed<T>>)
    ensures r == Remove(items, id)
  {
    r := [];
    var i := 0;
    while i < |items|
      invariant 0 <= i <= |items|
      invariant Remove(items, id) == r + Remove(items[i..], id)
    {
      RemoveStep(items, id, r, i);
      if items[i].id != id {
        r := r + [items[i]];
      }
      i := i + 1;
    }
  }

  lemma {:induction false} UpsertFacts<T>(items: seq<Keyed<T>>, item: Keyed<T>, id: Id)
    ensures Lookup(Upsert(items, item), id) == if id == item.id then Some(item) else Lookup(items, id)
    ensures Has(Upsert(items, item), id) <==> Has(items, id) || id == item.id
    ensures Lookup(items, id).Some? <==> Has(items, id)
    ensures Lookup(items, id).Some? ==> Lookup(items, id).value.id == id && Lookup(items, id).value in items
  {
    if items == [] {
      assert Upsert(items, item)[0].id == item.id;
    } else {
      UpsertFacts(items[1..], item, id);
      HasSplit(items, id);
      HasSplit(Upsert(items, item), id);
      if items[0].id == item.id {
        assert Upsert(items, item)[1..] == items[1..];
      } else {
        assert Upsert(items, item)[1..] == Upsert(items[1..], item);
      }
    }
  }

  lemma HasSplit<T>(items: seq<Keyed<T>>, id: Id)
    requires items != []
    ensures Has(items, id) <==> items[0].id == id || Has(items[1..], id)
  {
    if Has(items, id) && items[0].id != id {
      var i :| 0 <= i < |items| && items[i].id == id;
      assert items[1..][i - 1].id == id;
    }
    if Has(items[1..], id) {
      var i :| 0 <= i < |items[1..]| && items[1..][i].id == id;
      assert items[i + 1].id == id;
    }
  }

  lemma {:induction false} UpsertDistinct<T>(items: seq<Keyed<T>>, item: Keyed<T>)
    requires Distinct(items)
    ensures Distinct(Upsert(items, item))
  {
    if items != [] {
      var rest := items[1..];
      UpsertDistinct(rest, item);
      if items[0].id != item.id {
        assert !Has(rest, items[0].id);
        UpsertFacts(rest, item, items[0].id);
      }
    }
  }

  lemma {:induction false} RemoveFacts<T>(items: seq<Keyed<T>>, gone: Id, id: Id)
    ensures Lookup(Remove(items, gone), id) == if id == gone then None else Lookup(items, id)
    ensures Has(Remove(items, gone), id) <==> Has(items, id) && id != gone
  {
    if items != [] {
      RemoveFacts(items[1..], gone, id);
      HasSplit(items, id);
      if items[0].id != gone {
        assert Remove(items, gone)[1..] == Remove(items[1..], gone);
        HasSplit(Remove(items, gone), id);
      } else {
        assert Remove(items, gone) == Remove(items[1..], gone);
      }
    }
  }

  lemma {:induction false} RemoveAbsent<T>(items: seq<Keyed<T>>, gone: Id)
    requires !Has(items, gone)
    ensures Remove(items, gone) == items
  {
    if items != [] {
      HasSplit(items, gone);
      RemoveAbsent(items[1..], gone);
    }
  }

  lemma {:induction false} RemoveDistinct<T>(items: seq<Keyed<T>>, gone: Id)
    requires Distinct(items)
    ensures Distinct(Remove(items, gone))
  {
    if items != [] {
      RemoveDistinct(items[1..], gone);
      assert !Has(items[1..], items[0].id);
      RemoveFacts(items[1..], gone, items[0].id);
    }
  }

  lemma FirstSeenLast<T>(stream: seq<Keyed<T>>)
    requires stream != []
    ensures var init, id := stream[..|stream| - 1], stream[|stream| - 1].id;
            var before := FirstSeen(Ids(init));
            FirstSeen(Ids(stream)) == if id in before then before else before + [id]
  {
    assert Ids(stream)[..|stream| - 1] == Ids(stream[..|stream| - 1]);
  }

  lemma UpsertAllLast<T>(stream: seq<Keyed<T>>, id: Id)
    requires stream != []
    ensures var init, last := stream[..|stream| - 1], stream[|stream| - 1];
            && UpsertAll(stream) == Upsert(UpsertAll(init), last)
            && Latest(stream, id) == if last.id == id then Some(last) else Latest(init, id)
  {
  }

  /** What a stream of upserts leaves: under each id the latest item, the ids
      distinct and in order of first appearance. Together these determine the
      vector. */
  lemma {:induction false} UpsertAllMeaning<T>(stream: seq<Keyed<T>>, id: Id)
    ensures Lookup(UpsertAll(stream), id) == Latest(stream, id)
    ensures Distinct(UpsertAll(stream))
    ensures Ids(UpsertAll(stream)) == FirstSeen(Ids(stream))
  {
    if stream != [] {
      var init, last := stream[..|stream| - 1], stream[|stream| - 1];
      UpsertAllMeaning(init, id);
      UpsertAllLast(stream, id);
      FirstSeenLast(stream);
      var before := UpsertAll(init);
      UpsertFacts(before, last, id);
      UpsertDistinct(before, last);
      UpsertIds(before, last);
    }
  }

  lemma {:induction false} UpsertIds<T>(items: seq<Keyed<T>>, item: Keyed<T>)
    ensures Ids(Upsert(items, item)) == if item.id in Ids(items) then Ids(items) else Ids(items) + [item.id]
  {
    if items != [] {
      UpsertIds(items[1..], item);
      assert Ids(items) == [items[0].id] + Ids(items[1..]);
      if items[0].id == item.id {
        assert Upsert(items, item)[1..] == items[1..];
      } else {
        assert Upsert(items, item)[1..] == Upsert(items[1..], item);
      }
    }
  }
}
