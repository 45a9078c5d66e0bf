/**
 * The in-memory dataset list store (src/store/datasets.ts): its `items` and
 * `loading` fields and the effect of `load`, `upsert` and `remove` on them.
 */
module Datasets {
  import opened Wrappers
  import opened Lists
  import opened Types

  /** `items.findIndex(x => x.id === id)`: the first position holding that id, or -1. */
  function IndexOfId(items: seq<Dataset>, id: string): (k: int)
    ensures -1 <= k < |items|
    ensures k == -1 ==> forall j :: 0 <= j < |items| ==> items[j].id != id
    ensures k >= 0 ==> items[k].id == id && forall j :: 0 <= j < k ==> items[j].id != id
  {
    if items == [] then -1
    else if items[0].id == id then 0
    else
      var k := IndexOfId(items[1..], id);
      if k == -1 then -1 else k + 1
  }

  /** The first position holding `id` is the one before which no entry has it. */
  lemma IndexOfIdIs(items: seq<Dataset>, id: string, k: nat)
    requires k < |items| && items[k].id == id
    requires forall j :: 0 <= j < k ==> items[j].id != id
    ensures IndexOfId(items, id) == k
  {
    var i := IndexOfId(items, id);
    assert items[k].id == id;
    assert i >= 0 ==> items[i].id == id;
  }

  /** `items.find(x => x.id === id)`. */
  function Lookup(items: seq<Dataset>, id: string): Option<Dataset> {
    var k := IndexOfId(items, id);
    if k == -1 then None else Some(items[k])
  }

  /** The list `upsert(d)` leaves: the first entry with `d`'s id replaced in place, or `d` put in front. */
  function Upserted(items: seq<Dataset>, d: Dataset): seq<Dataset> {
    var idx := IndexOfId(items, d.id);
    if idx >= 0 then items[idx := d] else [d] + items
  }

  /**
   * Upserting an id already present keeps the length and changes only the
   * entry at its first position; upserting a new id puts it in front of all
   * the others, which keep their order.
   */
  lemma UpsertedFacts(items: seq<Dataset>, d: Dataset)
    ensures var idx, r := IndexOfId(items, d.id), Upserted(items, d);
      && (idx >= 0 ==> |r| == |items| && r[idx] == d && forall j :: 0 <= j < |items| && j != idx ==> r[j] == items[j])
      && (idx == -1 ==> |r| == |items| + 1 && r[0] == d && r[1..] == items)
  {
  }

  /** After `upsert(d)` a lookup of `d`'s id finds `d`. */
  lemma LookupAfterUpsert(items: seq<Dataset>, d: Dataset)
    ensures Lookup(Upserted(items, d), d.id) == Some(d)
  {
    var idx := IndexOfId(items, d.id);
    var r := Upserted(items, d);
    if idx >= 0 {
      IndexOfIdIs(r, d.id, idx);
    } else {
      IndexOfIdIs(r, d.id, 0);
    }
  }

  /** Upserting the same dataset twice is the same as once. */
  lemma UpsertIdempotent(items: seq<Dataset>, d: Dataset)
    ensures Upserted(Upserted(items, d), d) == Upserted(items, d)
  {
    var idx := IndexOfId(items, d.id);
    var r := Upserted(items, d);
    if idx >= 0 {
      IndexOfIdIs(r, d.id, idx);
    } else {
      IndexOfIdIs(r, d.id, 0);
    }
  }

  /** The list `remove(id)` leaves: `items.filter(x => x.id !== id)`. */
  function Removed(items: seq<Dataset>, id: string): seq<Dataset> {
    Filter(items, (x: Dataset) => x.id != id)
  }

  /** After `remove(id)` no entry has that id; every other entry stays, as often as before and in order. */
  lemma RemovedFacts(items: seq<Dataset>, id: string)
    ensures forall x :: x in Removed(items, id) <==> x in items && x.id != id
    ensures forall x: Dataset :: x.id != id ==> multiset(Removed(items, id))[x] == multiset(items)[x]
    ensures IndexOfId(Removed(items, id), id) == -1
  {
    FilterMembers(items, (x: Dataset) => x.id != id);
    FilterCount(items, (x: Dataset) => x.id != id);
    var r := Removed(items, id);
    forall j | 0 <= j < |r|
      ensures r[j].id != id
    {
      assert r[j] in r;
    }
  }

  /** Removing an id that was just added as new restores the list. */
  lemma RemoveUndoesInsert(items: seq<Dataset>, d: Dataset)
    requires IndexOfId(items, d.id) == -1
    ensures Removed(Upserted(items, d), d.id) == items
  {
    assert Upserted(items, d) == [d] + items;
    assert ([d] + items)[1..] == items;
    FilterKeepsAll(items, (x: Dataset) => x.id != d.id);
  }

  /** The store: the datasets and whether a load is in progress. */
  class DatasetStore {
    var items: seq<Dataset>
    var loading: bool

    constructor ()
      ensures items == [] && !loading
    {
      items, loading := [], false;
    }

    /** The first half of `load()`: mark the store as loading; the list stays. */
    method BeginLoad()
      modifies this`loading
      ensures loading
    {
      loading := true;
    }

    /** The second half of `load()`, once the local database has answered with `stored`. */
    method FinishLoad(stored: seq<Dataset>)
      modifies this
      ensures items == stored && !loading
    {
      items, loading := stored, false;
    }

    /** `upsert(d)`: copy the list and overwrite the first entry with `d`'s id, or put `d` in front. */
    method Upsert(d: Dataset)
      modifies this`items
      ensures items == Upserted(old(items), d)
    {
      var idx := IndexOfId(items, d.id);
      if idx >= 0 {
        var next := items;
        next := next[idx := d];
        items := next;
      } else {
        items := [d] + items;
      }
    }

    /** `remove(id)`: keep the entries with another id. */
    method Remove(id: string)
      modifies this`items
      ensures items == Removed(old(items), id)
    {
      items := Removed(items, id);
    }
  }
}
