/**
 * The dataset placement builder (src/pages/Builder.tsx): the tier groups it
 * restores from a dataset's `itemId -> tierId` placements, and the drop that
 * moves one item into a group and rederives the placements.
 */
module Builder {
  import opened Wrappers
  import opened Records
  import opened Lists
  import opened Types

  /** The groups of the page: tier id to the items shown in that tier. */
  type Groups = Record<seq<DatasetItem>>

  /** The ids of `arr`, in order. */
  function ItemIds(arr: seq<DatasetItem>): seq<string> {
    seq(|arr|, i requires 0 <= i < |arr| => arr[i].id)
  }

  /** The ids of a sequence with one more item last. */
  lemma ItemIdsSnoc(arr: seq<DatasetItem>)
    requires arr != []
    ensures ItemIds(arr) == ItemIds(arr[..|arr| - 1]) + [arr[|arr| - 1].id]
  {
  }

  /** The ids of `tiers`, in order. */
  function TierIds(tiers: seq<Tier>): seq<string> {
    seq(|tiers|, i requires 0 <= i < |tiers| => tiers[i].id)
  }

  /** `items.find(x => x.id === id)`: the first item with that id. */
  function FindItem(items: seq<DatasetItem>, id: string): (r: Option<DatasetItem>)
    ensures r.None? <==> id !in ItemIds(items)
    ensures r.Some? ==> r.value in items && r.value.id == id
    ensures r.Some? ==> exists k :: 0 <= k < |items| && items[k] == r.value
                                   && forall j :: 0 <= j < k ==> items[j].id != id
  {
    if items == [] then None
    else
      assert ItemIds(items) == [items[0].id] + ItemIds(items[1..]);
      if items[0].id == id then Some(items[0])
      else
        var r := FindItem(items[1..], id);
        if r.Some? then
          var k :| 0 <= k < |items[1..]| && items[1..][k] == r.value && forall j :: 0 <= j < k ==> items[1..][j].id != id;
          assert items[k + 1] == r.value;
          r
        else r
  }

  /** `arr.filter(x => x.id !== id)`. */
  function DropId(arr: seq<DatasetItem>, id: string): seq<DatasetItem> {
    Filter(arr, (x: DatasetItem) => x.id != id)
  }

  /**
   * Dropping an id removes every item with it and keeps every other item, as
   * often as before (and, being a filter, in the same order).
   */
  lemma DropIdFacts(arr: seq<DatasetItem>, id: string)
    ensures id !in ItemIds(DropId(arr, id))
    ensures forall x :: x in DropId(arr, id) <==> x in arr && x.id != id
    ensures forall x: DatasetItem :: x.id != id ==> multiset(DropId(arr, id))[x] == multiset(arr)[x]
  {
    FilterMembers(arr, (x: DatasetItem) => x.id != id);
    FilterCount(arr, (x: DatasetItem) => x.id != id);
    var r := DropId(arr, id);
    forall i | 0 <= i < |r|
      ensures ItemIds(r)[i] != id
    {
      assert r[i] in r;
    }
  }

  /* ---------------- restoring the groups ---------------- */

  /** `tiers.reduce((acc, t) => ({ ...acc, [t.id]: [] }), {})`: one empty group per tier. */
  function EmptyGroups(tiers: seq<Tier>): Groups {
    if tiers == [] then []
    else Put(EmptyGroups(tiers[..|tiers| - 1]), tiers[|tiers| - 1].id, [])
  }

  /** There is a group exactly for each tier id, and it is empty. */
  lemma {:induction false} EmptyGroupsFacts(tiers: seq<Tier>)
    ensures UniqueKeys(EmptyGroups(tiers))
    ensures forall k :: Get(EmptyGroups(tiers), k) == if k in TierIds(tiers) then Some([]) else None
  {
    if tiers != [] {
      var init := tiers[..|tiers| - 1];
      EmptyGroupsFacts(init);
      assert TierIds(tiers) == TierIds(init) + [tiers[|tiers| - 1].id];
    }
  }

  /**
   * The placement loop over `entries`: an entry whose item exists and whose
   * tier has a group appends that item to the group; any other entry is skipped.
   */
  function PlaceEntries(groups: Groups, items: seq<DatasetItem>, entries: Record<string>): Groups {
    if entries == [] then groups
    else
      var g := PlaceEntries(groups, items, entries[..|entries| - 1]);
      var e := entries[|entries| - 1];
      var item := FindItem(items, e.0);
      var group := Get(g, e.1);
      if item.Some? && group.Some? then Put(g, e.1, group.value + [item.value]) else g
  }

  /** The items the entries place in tier `tid`, in entry order. */
  function Placed(items: seq<DatasetItem>, entries: Record<string>, tid: string): seq<DatasetItem> {
    if entries == [] then []
    else
      var e := entries[|entries| - 1];
      var item := FindItem(items, e.0);
      Placed(items, entries[..|entries| - 1], tid) + (if e.1 == tid && item.Some? then [item.value] else [])
  }

  /** An item is placed in `tid` exactly when some entry names it (by its first match) and `tid`. */
  lemma {:induction false} PlacedMembers(items: seq<DatasetItem>, entries: Record<string>, tid: string)
    ensures forall x :: x in Placed(items, entries, tid) <==>
      exists i :: 0 <= i < |entries| && entries[i].1 == tid && FindItem(items, entries[i].0) == Some(x)
  {
    if entries != [] {
      var init := entries[..|entries| - 1];
      PlacedMembers(items, init, tid);
      forall x ensures x in Placed(items, entries, tid) <==>
        exists i :: 0 <= i < |entries| && entries[i].1 == tid && FindItem(items, entries[i].0) == Some(x)
      {
        PlacedLast(items, entries, tid, x);
        if exists i :: 0 <= i < |entries| && entries[i].1 == tid && FindItem(items, entries[i].0) == Some(x) {
          var i :| 0 <= i < |entries| && entries[i].1 == tid && FindItem(items, entries[i].0) == Some(x);
          if i < |init| {
            assert init[i] == entries[i];
          }
        }
        if x in Placed(items, init, tid) {
          var i :| 0 <= i < |init| && init[i].1 == tid && FindItem(items, init[i].0) == Some(x);
          assert entries[i] == init[i];
        }
      }
    }
  }

  /** The last entry adds its item, when it names `tid`, after what the earlier entries placed. */
  lemma PlacedLast(items: seq<DatasetItem>, entries: Record<string>, tid: string, x: DatasetItem)
    requires entries != []
    ensures x in Placed(items, entries, tid) <==>
      x in Placed(items, entries[..|entries| - 1], tid)
      || (entries[|entries| - 1].1 == tid && FindItem(items, entries[|entries| - 1].0) == Some(x))
  {
  }

  /** Placing entries keeps the groups' keys. */
  lemma {:induction false} PlaceEntriesKeys(groups: Groups, items: seq<DatasetItem>, entries: Record<string>)
    ensures Keys(PlaceEntries(groups, items, entries)) == Keys(groups)
    ensures UniqueKeys(groups) ==> UniqueKeys(PlaceEntries(groups, items, entries))
  {
    if entries != [] {
      PlaceEntriesKeys(groups, items, entries[..|entries| - 1]);
    }
  }

  /** An existing group gains exactly the items placed in it, after the ones it had; a missing one stays missing. */
  lemma {:induction false} PlaceEntriesAt(groups: Groups, items: seq<DatasetItem>, entries: Record<string>, k: string)
    ensures Get(PlaceEntries(groups, items, entries), k) ==
      if Get(groups, k).None? then None else Some(Get(groups, k).value + Placed(items, entries, k))
  {
    if entries == [] {
      if Get(groups, k).Some? {
        assert Get(groups, k).value + [] == Get(groups, k).value;
      }
    } else {
      var init := entries[..|entries| - 1];
      PlaceEntriesAt(groups, items, init, k);
      var g := PlaceEntries(groups, items, init);
      var e := entries[|entries| - 1];
      var item := FindItem(items, e.0);
      assert PlaceEntries(groups, items, entries)
          == if item.Some? && Get(g, e.1).Some? then Put(g, e.1, Get(g, e.1).value + [item.value]) else g;
      if Get(groups, k).Some? {
        var before := Get(groups, k).value;
        if e.1 == k && item.Some? {
          assert Placed(items, entries, k) == Placed(items, init, k) + [item.value];
          assert before + Placed(items, entries, k) == (before + Placed(items, init, k)) + [item.value];
        } else {
          assert Placed(items, entries, k) == Placed(items, init, k) + [];
          assert Placed(items, init, k) + [] == Placed(items, init, k);
        }
      }
    }
  }

  /** The groups the restore effect builds for dataset `d`. */
  function Restored(d: Dataset): Groups {
    PlaceEntries(EmptyGroups(d.tiers), d.items, if d.placements.Some? then d.placements.value else [])
  }

  /**
   * Restoring gives a group exactly to each tier of the dataset, holding the
   * items the placements assign to it in entry order; placements naming an
   * unknown item or an unknown tier are dropped.
   */
  lemma RestoredFacts(d: Dataset)
    ensures UniqueKeys(Restored(d))
    ensures forall k :: (Get(Restored(d), k) ==
      if k in TierIds(d.tiers)
      then Some(Placed(d.items, if d.placements.Some? then d.placements.value else [], k))
      else None)
  {
    var entries := if d.placements.Some? then d.placements.value else [];
    EmptyGroupsFacts(d.tiers);
    PlaceEntriesKeys(EmptyGroups(d.tiers), d.items, entries);
    forall k ensures Get(Restored(d), k) ==
      if k in TierIds(d.tiers) then Some(Placed(d.items, entries, k)) else None
    {
      PlaceEntriesAt(EmptyGroups(d.tiers), d.items, entries, k);
      assert [] + Placed(d.items, entries, k) == Placed(d.items, entries, k);
    }
  }

  /* ---------------- the drop ---------------- */

  /** The first loop of the drop: the same groups with the item taken out of each. */
  function StripAll(groups: Groups, id: string): Groups {
    if groups == [] then []
    else
      var e := groups[|groups| - 1];
      Put(StripAll(groups[..|groups| - 1], id), e.0, DropId(e.1, id))
  }

  /** Taking the item out keeps every group, in place, with the item dropped from it. */
  lemma {:induction false} StripAllFacts(groups: Groups, id: string)
    requires UniqueKeys(groups)
    ensures Keys(StripAll(groups, id)) == Keys(groups)
    ensures UniqueKeys(StripAll(groups, id))
    ensures forall k :: (Get(StripAll(groups, id), k) ==
      if Get(groups, k).None? then None else Some(DropId(Get(groups, k).value, id)))
  {
    if groups != [] {
      var init := groups[..|groups| - 1];
      var e := groups[|groups| - 1];
      assert groups == init + [e];
      UniqueKeysSnoc(init, e);
      StripAllFacts(init, id);
      KeysSnoc(init, e);
      forall k ensures Get(groups, k) == if k in Keys(init) then Get(init, k) else if k == e.0 then Some(e.1) else None {
        GetSnoc(init, e, k);
      }
    }
  }

  /** The groups after dropping `item` onto `overId`: out of every group, then last in `overId`'s. */
  function Dropped(groups: Groups, item: DatasetItem, overId: string): Groups {
    var stripped := StripAll(groups, item.id);
    Put(stripped, overId, Get(stripped, overId).GetOr([]) + [item])
  }

  /**
   * After a drop the item is last in `overId`'s group (created when missing)
   * and in no other group; every other group keeps its items and their order;
   * no group is added but `overId`'s.
   */
  lemma DroppedFacts(groups: Groups, item: DatasetItem, overId: string)
    requires UniqueKeys(groups)
    ensures var r := Dropped(groups, item, overId);
      && UniqueKeys(r)
      && Keys(r) == (if overId in Keys(groups) then Keys(groups) else Keys(groups) + [overId])
      && Get(r, overId) == Some(DropId(Get(groups, overId).GetOr([]), item.id) + [item])
      && forall k :: k != overId ==> (Get(r, k) ==
           if Get(groups, k).None? then None else Some(DropId(Get(groups, k).value, item.id)))
  {
    StripAllFacts(groups, item.id);
  }

  /** The moved item is in no group other than `overId`'s. */
  lemma DroppedOnlyThere(groups: Groups, item: DatasetItem, overId: string, k: string)
    requires UniqueKeys(groups) && k != overId
    ensures Get(Dropped(groups, item, overId), k).Some? ==> item.id !in ItemIds(Get(Dropped(groups, item, overId), k).value)
  {
    DroppedFacts(groups, item, overId);
    if Get(groups, k).Some? {
      DropIdFacts(Get(groups, k).value, item.id);
    }
  }

  /** The inner placement loop: every item of `arr` now maps to `tid`. */
  function PlaceGroup(placements: Record<string>, arr: seq<DatasetItem>, tid: string): Record<string> {
    if arr == [] then placements
    else Put(PlaceGroup(placements, arr[..|arr| - 1], tid), arr[|arr| - 1].id, tid)
  }

  /** The placements the drop rederives from the groups, in entry order. */
  function PlacementsOf(groups: Groups): Record<string> {
    if groups == [] then []
    else PlaceGroup(PlacementsOf(groups[..|groups| - 1]), groups[|groups| - 1].1, groups[|groups| - 1].0)
  }

  /** After the inner loop, the group's items map to its id and every other id is as before. */
  lemma {:induction false} PlaceGroupAt(placements: Record<string>, arr: seq<DatasetItem>, tid: string, id: string)
    ensures Get(PlaceGroup(placements, arr, tid), id) == if id in ItemIds(arr) then Some(tid) else Get(placements, id)
  {
    if arr != [] {
      var init := arr[..|arr| - 1];
      PlaceGroupAt(placements, init, tid, id);
      ItemIdsSnoc(arr);
    }
  }

  /** The id of the last group holding an item with id `id`. */
  function GroupOf(groups: Groups, id: string): Option<string> {
    if groups == [] then None
    else if id in ItemIds(groups[|groups| - 1].1) then Some(groups[|groups| - 1].0)
    else GroupOf(groups[..|groups| - 1], id)
  }

  /** The rederived placements send each id to the last group holding it, and nowhere when none does. */
  lemma {:induction false} PlacementsAt(groups: Groups, id: string)
    ensures Get(PlacementsOf(groups), id) == GroupOf(groups, id)
  {
    if groups != [] {
      var init := groups[..|groups| - 1];
      PlacementsAt(init, id);
      PlaceGroupAt(PlacementsOf(init), groups[|groups| - 1].1, groups[|groups| - 1].0, id);
    }
  }

  /** An id has a group exactly when some group holds it, and its group is one that holds it. */
  lemma {:induction false} GroupOfFacts(groups: Groups, id: string)
    ensures GroupOf(groups, id).Some? <==> exists i :: 0 <= i < |groups| && id in ItemIds(groups[i].1)
    ensures GroupOf(groups, id).Some? ==>
      exists i :: 0 <= i < |groups| && groups[i].0 == GroupOf(groups, id).value && id in ItemIds(groups[i].1)
  {
    if groups != [] {
      var init := groups[..|groups| - 1];
      var n := |groups| - 1;
      GroupOfFacts(init, id);
      if id in ItemIds(groups[n].1) {
        assert groups[n].0 == GroupOf(groups, id).value;
      } else {
        if exists i :: 0 <= i < |groups| && id in ItemIds(groups[i].1) {
          var i :| 0 <= i < |groups| && id in ItemIds(groups[i].1);
          assert init[i] == groups[i];
        }
        if GroupOf(init, id).Some? {
          var i :| 0 <= i < |init| && init[i].0 == GroupOf(init, id).value && id in ItemIds(init[i].1);
          assert groups[i] == init[i];
        }
      }
    }
  }

  /** After a drop the rederived placements send the moved item to `overId`. */
  lemma DropPlacesItem(groups: Groups, item: DatasetItem, overId: string)
    requires UniqueKeys(groups)
    ensures Get(PlacementsOf(Dropped(groups, item, overId)), item.id) == Some(overId)
  {
    var r := Dropped(groups, item, overId);
    DroppedFacts(groups, item, overId);
    var last := DropId(Get(groups, overId).GetOr([]), item.id) + [item];
    assert ItemIds(last)[|last| - 1] == item.id;
    var i := IndexOfKey(r, overId);
    GetAt(r, i);
    assert item.id in ItemIds(r[i].1);
    PlacementsAt(r, item.id);
    GroupOfFacts(r, item.id);
    var j :| 0 <= j < |r| && r[j].0 == GroupOf(r, item.id).value && item.id in ItemIds(r[j].1);
    GetAt(r, j);
    if r[j].0 != overId {
      DroppedOnlyThere(groups, item, overId, r[j].0);
    }
  }

  /** The first loop of the drop: copy every group without the item. */
  method StripGroups(prev: Groups, id: string) returns (next: Groups)
    ensures next == StripAll(prev, id)
  {
    next := [];
    var i := 0;
    while i < |prev|
      invariant 0 <= i <= |prev|
      invariant next == StripAll(prev[..i], id)
    {
      assert prev[..i + 1][..i] == prev[..i];
      next := Put(next, prev[i].0, DropId(prev[i].1, id));
      i := i + 1;
    }
    assert prev[..|prev|] == prev;
  }

  /** The nested loops of the drop: map every item of every group to the group's id. */
  method DerivePlacements(groups: Groups) returns (placements: Record<string>)
    ensures placements == PlacementsOf(groups)
  {
    placements := [];
    var g := 0;
    while g < |groups|
      invariant 0 <= g <= |groups|
      invariant placements == PlacementsOf(groups[..g])
    {
      assert groups[..g + 1][..g] == groups[..g];
      var tid := groups[g].0;
      var arr := groups[g].1;
      var j := 0;
      while j < |arr|
        invariant 0 <= j <= |arr|
        invariant placements == PlaceGroup(PlacementsOf(groups[..g]), arr[..j], tid)
      {
        assert arr[..j + 1][..j] == arr[..j];
        placements := Put(placements, arr[j].id, tid);
        j := j + 1;
      }
      assert arr[..|arr|] == arr;
      g := g + 1;
    }
    assert groups[..|groups|] == groups;
  }

  /** The restore loops: one empty group per tier, then each usable placement appended. */
  method RestoreGroups(d: Dataset) returns (groups: Groups)
    ensures groups == Restored(d)
  {
    groups := [];
    var t := 0;
    while t < |d.tiers|
      invariant 0 <= t <= |d.tiers|
      invariant groups == EmptyGroups(d.tiers[..t])
    {
      assert d.tiers[..t + 1][..t] == d.tiers[..t];
      groups := Put(groups, d.tiers[t].id, []);
      t := t + 1;
    }
    assert d.tiers[..|d.tiers|] == d.tiers;
    ghost var empty := groups;
    if d.placements.Some? {
      var entries := d.placements.value;
      var i := 0;
      while i < |entries|
        invariant 0 <= i <= |entries|
        invariant groups == PlaceEntries(empty, d.items, entries[..i])
      {
        assert entries[..i + 1][..i] == entries[..i];
        var item := FindItem(d.items, entries[i].0);
        var group := Get(groups, entries[i].1);
        if item.Some? && group.Some? {
          groups := Put(groups, entries[i].1, group.value + [item.value]);
        }
        i := i + 1;
      }
      assert entries[..|entries|] == entries;
    }
  }

  /** The builder page's own state: the groups it shows. */
  class BuilderPage {
    var tierItems: Groups

    /** The groups form a JavaScript object: no key twice. */
    predicate Valid()
      reads this
    {
      UniqueKeys(tierItems)
    }

    constructor ()
      ensures Valid() && tierItems == []
    {
      tierItems := [];
    }

    /**
     * The restore effect: with no current dataset nothing happens; otherwise
     * the groups become one per tier, filled from the placements.
     */
    method Restore(current: Option<Dataset>)
      modifies this
      ensures current.None? ==> tierItems == old(tierItems)
      ensures current.Some? ==> tierItems == Restored(current.value) && Valid()
    {
      if current.None? {
        return;
      }
      var groups := RestoreGroups(current.value);
      RestoredFacts(current.value);
      tierItems := groups;
    }

    /**
     * `onDragEnd`: with no drop target, no current dataset or no item with
     * the dragged id nothing happens and nothing is persisted.  Otherwise
     * the groups become the dropped ones and the dataset to persist is the
     * current one with the rederived placements and the time `now`.
     */
    method OnDragEnd(current: Option<Dataset>, activeId: string, overId: Option<string>, now: string)
      returns (persisted: Option<Dataset>)
      requires Valid()
      modifies this
      ensures Valid()
      ensures overId.None? || overId == Some("") || current.None? || FindItem(current.value.items, activeId).None?
        ==> tierItems == old(tierItems) && persisted.None?
      ensures overId.Some? && overId != Some("") && current.Some? && FindItem(current.value.items, activeId).Some?
        ==> var item := FindItem(current.value.items, activeId).value;
            && tierItems == Dropped(old(tierItems), item, overId.value)
            && persisted == Some(current.value.(placements := Some(PlacementsOf(tierItems)), updatedAt := now))
    {
      persisted := None;
      if overId.None? || overId.value == "" || current.None? {
        return;
      }
      var d := current.value;
      var item := FindItem(d.items, activeId);
      if item.None? {
        return;
      }
      var stripped := StripGroups(tierItems, item.value.id);
      var next := Put(stripped, overId.value, Get(stripped, overId.value).GetOr([]) + [item.value]);
      var placements := DerivePlacements(next);
      DroppedFacts(tierItems, item.value, overId.value);
      tierItems := next;
      persisted := Some(d.(placements := Some(placements), updatedAt := now));
    }
  }
}
