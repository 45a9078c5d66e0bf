/**
 * The ranking page of a public template (src/pages/PublicDetail.tsx).
 *
 * The template's items are partitioned between a pool and six tier rows; a
 * selection cursor walks a shuffled queue of pool ids so that the user can rank
 * one item at a time.  The list primitives and the board transitions are pure
 * functions; the page's state is the class `Board`, whose methods follow the
 * page's handlers and effects step by step and are proved against them.
 */
module PublicDetail {
  import opened Wrappers
  import opened Lists
  import opened Types

  /** A drop target of the board: `'pool' | TierId`. */
  datatype Bucket = Pool | Ranked(tier: TierId)

  /** Position of a tier in the order S, A, B, C, D, U in which the page scans rows. */
  function Rank(t: TierId): nat {
    match t
    case S => 0
    case A => 1
    case B => 2
    case C => 3
    case D => 4
    case U => 5
  }

  /** `TierAssignment`: the items of each of the six rows. */
  datatype TierAssignment = TierAssignment(s: seq<MediaItem>, a: seq<MediaItem>, b: seq<MediaItem>,
                                           c: seq<MediaItem>, d: seq<MediaItem>, u: seq<MediaItem>)
  {
    /** `tiers[t]`. */
    function Get(t: TierId): seq<MediaItem> {
      match t
      case S => s
      case A => a
      case B => b
      case C => c
      case D => d
      case U => u
    }

    /** `{ ...tiers, [t]: l }`. */
    function With(t: TierId, l: seq<MediaItem>): (r: TierAssignment)
      ensures r.Get(t) == l
      ensures forall t' :: t' != t ==> r.Get(t') == Get(t')
      ensures l == Get(t) ==> r == this
    {
      match t
      case S => this.(s := l)
      case A => this.(a := l)
      case B => this.(b := l)
      case C => this.(c := l)
      case D => this.(d := l)
      case U => this.(u := l)
    }

    /** Every item in the six rows, counted with multiplicity. */
    function Items(): multiset<MediaItem> {
      multiset(s) + multiset(a) + multiset(b) + multiset(c) + multiset(d) + multiset(u)
    }
  }

  /** Replacing one row changes the rows' items by exactly the old and new row. */
  lemma TierWithItems(tiers: TierAssignment, t: TierId, l: seq<MediaItem>)
    ensures tiers.With(t, l).Items() + multiset(tiers.Get(t)) == tiers.Items() + multiset(l)
  {
  }

  /** `emptyTiers`, the board's initial rows. */
  const EmptyTiers: TierAssignment := TierAssignment([], [], [], [], [], [])

  /** `list.map(i => i.id)`. */
  function Ids(list: seq<MediaItem>): (r: seq<string>)
    ensures |r| == |list|
    ensures forall i :: 0 <= i < |list| ==> r[i] == list[i].id
  {
    if list == [] then [] else [list[0].id] + Ids(list[1..])
  }

  /** `list.findIndex(i => i.id === id)`: the first position holding `id`, or -1. */
  function FindIndex(list: seq<MediaItem>, id: string): (k: int)
    ensures -1 <= k < |list|
    ensures k == -1 ==> forall j :: 0 <= j < |list| ==> list[j].id != id
    ensures k >= 0 ==> list[k].id == id && forall j :: 0 <= j < k ==> list[j].id != id
  {
    if list == [] then -1
    else if list[0].id == id then 0
    else
      var k := FindIndex(list[1..], id);
      if k == -1 then -1 else k + 1
  }

  /** `findIndex` answers -1 exactly when no item carries the id. */
  lemma FindIndexAbsent(list: seq<MediaItem>, id: string)
    ensures FindIndex(list, id) == -1 <==> id !in Ids(list)
  {
    var k := FindIndex(list, id);
    if k >= 0 {
      assert Ids(list)[k] == id;
    }
  }

  /** The first position holding `id` is the one before which no item has it. */
  lemma FindIndexIs(list: seq<MediaItem>, id: string, k: nat)
    requires k < |list| && list[k].id == id
    requires forall j :: 0 <= j < k ==> list[j].id != id
    ensures FindIndex(list, id) == k
  {
    var i := FindIndex(list, id);
    assert list[k].id == id;
    assert i >= 0 ==> list[i].id == id;
  }

  /** The result of `removeFrom`: the remaining list and the removed item, if any. */
  datatype Removal = Removal(next: seq<MediaItem>, removed: Option<MediaItem>)

  /**
   * `removeFrom(list, id)`: an absent id leaves the list as it is and removes
   * nothing; otherwise the first item with that id is taken out and the others
   * keep their order.
   */
  function RemoveFrom(list: seq<MediaItem>, id: string): (r: Removal)
    ensures r.removed.None? <==> id !in Ids(list)
    ensures r.removed.None? ==> r.next == list
    ensures r.removed.Some? ==>
      var k := FindIndex(list, id);
      && r.removed.value == list[k]
      && r.removed.value.id == id
      && |r.next| == |list| - 1
      && r.next == list[..k] + list[k + 1..]
  {
    FindIndexAbsent(list, id);
    var k := FindIndex(list, id);
    if k == -1 then Removal(list, None)
    else
      var next := list[..k] + list[k + 1..];
      assert |next| == |list| - 1;
      Removal(next, Some(list[k]))
  }

  /** Removal loses nothing: the remaining list and the removed item together are the old list. */
  lemma RemoveFromCount(list: seq<MediaItem>, id: string)
    ensures var r := RemoveFrom(list, id);
      multiset(list) == multiset(r.next) + if r.removed.Some? then multiset{r.removed.value} else multiset{}
  {
    var k := FindIndex(list, id);
    if k != -1 {
      assert list == list[..k] + [list[k]] + list[k + 1..];
    }
  }

  /** Where `insertAt(list, index, item)` puts the item: at `index` when it is in range, else last. */
  function Slot(list: seq<MediaItem>, index: Option<int>): (p: nat)
    ensures p <= |list|
    ensures index.Some? && 0 <= index.value <= |list| ==> p == index.value
    ensures index.None? || index.value < 0 || index.value > |list| ==> p == |list|
  {
    if index.None? || index.value < 0 || index.value > |list| then |list| else index.value
  }

  /**
   * `insertAt(list, index, item)`: the list grows by exactly the item, which
   * lands at its slot, with everything before and after it kept in order.
   */
  function InsertAt(list: seq<MediaItem>, index: Option<int>, item: MediaItem): (r: seq<MediaItem>)
    ensures |r| == |list| + 1
    ensures r[Slot(list, index)] == item
    ensures r[..Slot(list, index)] == list[..Slot(list, index)]
    ensures r[Slot(list, index) + 1..] == list[Slot(list, index)..]
    ensures multiset(r) == multiset(list) + multiset{item}
  {
    if index.None? || index.value < 0 || index.value > |list| then list + [item]
    else
      var i := index.value;
      assert list == list[..i] + list[i..];
      list[..i] + [item] + list[i..]
  }

  /** Inserting an item whose id is new and removing that id again gives back the list and the item. */
  lemma {:induction false} RemoveInserted(list: seq<MediaItem>, index: Option<int>, item: MediaItem)
    requires item.id !in Ids(list)
    ensures RemoveFrom(InsertAt(list, index, item), item.id) == Removal(list, Some(item))
  {
    var r := InsertAt(list, index, item);
    var p := Slot(list, index);
    InsertedIsFound(list, index, item);
    assert r[..p] + r[p + 1..] == list[..p] + list[p..];
    assert list[..p] + list[p..] == list;
  }

  /** An item with a new id is found where it was inserted. */
  lemma InsertedIsFound(list: seq<MediaItem>, index: Option<int>, item: MediaItem)
    requires item.id !in Ids(list)
    ensures FindIndex(InsertAt(list, index, item), item.id) == Slot(list, index)
  {
    var r := InsertAt(list, index, item);
    var p := Slot(list, index);
    forall j | 0 <= j < p
      ensures r[j].id != item.id
    {
      assert r[j] == r[..p][j] == list[j];
      assert Ids(list)[j] == list[j].id;
    }
    FindIndexIs(r, item.id, p);
  }

  /** The whole board: the pool and the six rows. */
  datatype Partition = Partition(pool: seq<MediaItem>, tiers: TierAssignment)
  {
    /** The items of one bucket. */
    function Get(b: Bucket): seq<MediaItem> {
      match b
      case Pool => pool
      case Ranked(t) => tiers.Get(t)
    }

    /** Every item on the board, counted with multiplicity. */
    function Items(): multiset<MediaItem> {
      multiset(pool) + tiers.Items()
    }

    /** The board with one bucket replaced. */
    function With(b: Bucket, l: seq<MediaItem>): (r: Partition)
      ensures r.Get(b) == l
      ensures forall b' :: b' != b ==> r.Get(b') == Get(b')
      ensures l == Get(b) ==> r == this
    {
      match b
      case Pool => this.(pool := l)
      case Ranked(t) =>
        var r := this.(tiers := tiers.With(t, l));
        assert forall b' :: b' != b && b'.Ranked? ==> r.Get(b') == tiers.With(t, l).Get(b'.tier);
        r
    }
  }

  /** Adding a common part to both sides of a multiset equation. */
  lemma ShiftSum(a: multiset<MediaItem>, b: multiset<MediaItem>, c: multiset<MediaItem>,
                 d: multiset<MediaItem>, e: multiset<MediaItem>)
    requires b + c == d + e
    ensures (a + b) + c == (a + d) + e
  {
    assert (a + b) + c == a + (b + c);
    assert (a + d) + e == a + (d + e);
  }

  /** Replacing one bucket changes the board's items by exactly the old and new contents. */
  lemma WithItems(p: Partition, b: Bucket, l: seq<MediaItem>)
    ensures p.With(b, l).Items() + multiset(p.Get(b)) == p.Items() + multiset(l)
  {
    match b
    case Pool =>
      assert p.With(b, l).Items() == multiset(l) + p.tiers.Items();
    case Ranked(t) =>
      TierWithItems(p.tiers, t, l);
      assert p.With(b, l).Items() == multiset(p.pool) + p.tiers.With(t, l).Items();
      ShiftSum(multiset(p.pool), p.tiers.With(t, l).Items(), multiset(p.tiers.Get(t)), p.tiers.Items(), multiset(l));
  }

  /**
   * `onMove(itemId, from, to, toIndex)`.  Nothing happens when `from` and `to`
   * are the same bucket or the id is not in `from`.  Otherwise the first item
   * with that id leaves `from`, lands in `to` at its slot, and every other
   * bucket is untouched.
   */
  function MoveItem(p: Partition, itemId: string, from: Bucket, to: Bucket, toIndex: Option<int>): Partition {
    if from == to then p
    else
      var res := RemoveFrom(p.Get(from), itemId);
      if res.removed.None? then p
      else
        var p1 := p.With(from, res.next);
        p1.With(to, InsertAt(p1.Get(to), toIndex, res.removed.value))
  }

  /** What a move does to each bucket. */
  lemma MoveItemCases(p: Partition, itemId: string, from: Bucket, to: Bucket, toIndex: Option<int>)
    ensures from == to || itemId !in Ids(p.Get(from)) ==> MoveItem(p, itemId, from, to, toIndex) == p
    ensures from != to && itemId in Ids(p.Get(from)) ==>
      var r := MoveItem(p, itemId, from, to, toIndex);
      var k := FindIndex(p.Get(from), itemId);
      && r.Get(from) == p.Get(from)[..k] + p.Get(from)[k + 1..]
      && r.Get(to) == InsertAt(p.Get(to), toIndex, p.Get(from)[k])
      && forall b :: b != from && b != to ==> r.Get(b) == p.Get(b)
  {
  }

  /** A move neither loses nor duplicates an item: the board's multiset of items is unchanged. */
  lemma MoveKeepsItems(p: Partition, itemId: string, from: Bucket, to: Bucket, toIndex: Option<int>)
    ensures MoveItem(p, itemId, from, to, toIndex).Items() == p.Items()
  {
    if from != to {
      var res := RemoveFrom(p.Get(from), itemId);
      if res.removed.Some? {
        var p1 := p.With(from, res.next);
        TakeOutKeepsRest(p, from, itemId);
        PutInAddsItem(p1, to, toIndex, res.removed.value);
      }
    }
  }

  /** Taking the first item with `id` out of one bucket leaves the board short of exactly that item. */
  lemma TakeOutKeepsRest(p: Partition, b: Bucket, id: string)
    requires RemoveFrom(p.Get(b), id).removed.Some?
    ensures var res := RemoveFrom(p.Get(b), id);
      p.With(b, res.next).Items() + multiset{res.removed.value} == p.Items()
  {
    var res := RemoveFrom(p.Get(b), id);
    var p1 := p.With(b, res.next);
    WithItems(p, b, res.next);
    RemoveFromCount(p.Get(b), id);
    assert (p1.Items() + multiset{res.removed.value}) + multiset(res.next) == p.Items() + multiset(res.next);
    MultisetCancel(p1.Items() + multiset{res.removed.value}, p.Items(), multiset(res.next));
  }

  /** Inserting an item into one bucket adds exactly that item to the board. */
  lemma PutInAddsItem(p: Partition, b: Bucket, index: Option<int>, item: MediaItem)
    ensures p.With(b, InsertAt(p.Get(b), index, item)).Items() == p.Items() + multiset{item}
  {
    var l := InsertAt(p.Get(b), index, item);
    WithItems(p, b, l);
    assert p.With(b, l).Items() + multiset(p.Get(b)) == (p.Items() + multiset{item}) + multiset(p.Get(b));
    MultisetCancel(p.With(b, l).Items(), p.Items() + multiset{item}, multiset(p.Get(b)));
  }

  /** The first step of the example below: Y leaves the pool `[X, Y, Z]` for the empty row S. */
  lemma MoveToEmptyTier(x: MediaItem, y: MediaItem, z: MediaItem)
    requires x.id != y.id && y.id != z.id && x.id != z.id
    ensures MoveItem(Partition([x, y, z], EmptyTiers), y.id, Pool, Ranked(S), None)
         == Partition([x, z], TierAssignment([y], [], [], [], [], []))
  {
    assert Ids([x, y, z]) == [x.id, y.id, z.id];
    assert FindIndex([x, y, z], y.id) == 1;
    assert [x, y, z][..1] + [x, y, z][2..] == [x, z];
    assert InsertAt([], None, y) == [y];
  }

  /** The second step: X goes to index 0 of row S, ahead of Y. */
  lemma MoveToFront(x: MediaItem, y: MediaItem, z: MediaItem)
    requires x.id != z.id
    ensures MoveItem(Partition([x, z], TierAssignment([y], [], [], [], [], [])), x.id, Pool, Ranked(S), Some(0))
         == Partition([z], TierAssignment([x, y], [], [], [], [], []))
  {
    assert Ids([x, z]) == [x.id, z.id];
    assert FindIndex([x, z], x.id) == 0;
    assert InsertAt([y], Some(0), x) == [x, y];
  }

  /** The example of a pool `[X, Y, Z]`: Y to S, then X to the front of S. */
  lemma {:induction false} MoveScenario(x: MediaItem, y: MediaItem, z: MediaItem)
    requires x.id != y.id && y.id != z.id && x.id != z.id
    ensures
      var p1 := MoveItem(Partition([x, y, z], EmptyTiers), y.id, Pool, Ranked(S), None);
      var p2 := MoveItem(p1, x.id, Pool, Ranked(S), Some(0));
      && p1.pool == [x, z] && p1.tiers.s == [y]
      && p2.pool == [z] && p2.tiers.s == [x, y]
  {
    MoveToEmptyTier(x, y, z);
    MoveToFront(x, y, z);
  }

  /** The first tier, in S..U order, holding an item with this id. */
  function FirstTierWith(tiers: TierAssignment, id: string): Option<TierId> {
    if id in Ids(tiers.Get(S)) then Some(S)
    else if id in Ids(tiers.Get(A)) then Some(A)
    else if id in Ids(tiers.Get(B)) then Some(B)
    else if id in Ids(tiers.Get(C)) then Some(C)
    else if id in Ids(tiers.Get(D)) then Some(D)
    else if id in Ids(tiers.Get(U)) then Some(U)
    else None
  }

  /** The bucket `onAssignClick` moves from: the pool if it holds the id, else the first tier that does. */
  function BucketOf(p: Partition, id: string): Option<Bucket> {
    if id in Ids(p.pool) then Some(Pool)
    else
      match FirstTierWith(p.tiers, id)
      case Some(t) => Some(Ranked(t))
      case None => None
  }

  /** The row found is the first, in S..U order, that holds the id; none is found only when no row holds it. */
  lemma FirstTierWithFacts(tiers: TierAssignment, id: string)
    ensures FirstTierWith(tiers, id).None? <==> forall t :: id !in Ids(tiers.Get(t))
    ensures FirstTierWith(tiers, id).Some? ==>
      var t := FirstTierWith(tiers, id).value;
      && id in Ids(tiers.Get(t))
      && forall t' :: Rank(t') < Rank(t) ==> id !in Ids(tiers.Get(t'))
  {
    match FirstTierWith(tiers, id)
    case None =>
      forall t ensures id !in Ids(tiers.Get(t)) {
        match t
        case S => case A => case B => case C => case D => case U =>
      }
    case Some(t) =>
      forall t' | Rank(t') < Rank(t) ensures id !in Ids(tiers.Get(t')) {
        match t'
        case S => case A => case B => case C => case D => case U =>
      }
  }

  /** The bucket found holds the id, the pool is preferred, and nothing is found only when no bucket holds the id. */
  lemma BucketOfFacts(p: Partition, id: string)
    ensures BucketOf(p, id).None? <==> forall b :: id !in Ids(p.Get(b))
    ensures BucketOf(p, id) == Some(Pool) <==> id in Ids(p.pool)
    ensures BucketOf(p, id).Some? ==> id in Ids(p.Get(BucketOf(p, id).value))
  {
    FirstTierWithFacts(p.tiers, id);
    match BucketOf(p, id)
    case None =>
      forall b ensures id !in Ids(p.Get(b)) {
        if b.Ranked? {
          assert p.Get(b) == p.tiers.Get(b.tier);
        }
      }
    case Some(b) =>
      if b.Ranked? {
        assert p.Get(b) == p.tiers.Get(b.tier);
      }
  }

  /** The board part of `onSkip`: the selected item, wherever it is first found, goes to the pool's end. */
  function SkipItem(p: Partition, sel: string): Partition {
    match FirstTierWith(p.tiers, sel)
    case Some(t) =>
      var res := RemoveFrom(p.tiers.Get(t), sel);
      Partition(p.pool + [res.removed.value], p.tiers.With(t, res.next))
    case None =>
      var res := RemoveFrom(p.pool, sel);
      if res.removed.Some? then
        p.(pool := res.next + [res.removed.value])
      else p
  }

  /**
   * What skipping does: an item found in a tier goes back to the end of the
   * pool exactly as a move to the pool would put it; an item found only in the
   * pool is rotated to the pool's end; an id found nowhere changes nothing.
   */
  lemma SkipItemCases(p: Partition, sel: string)
    ensures BucketOf(p, sel).None? ==> SkipItem(p, sel) == p
    ensures BucketOf(p, sel).Some? ==>
      var r := SkipItem(p, sel);
      |r.pool| > 0 && r.pool[|r.pool| - 1].id == sel
    ensures FirstTierWith(p.tiers, sel).Some? ==>
      SkipItem(p, sel) == MoveItem(p, sel, Ranked(FirstTierWith(p.tiers, sel).value), Pool, None)
    ensures FirstTierWith(p.tiers, sel).None? && sel in Ids(p.pool) ==>
      && SkipItem(p, sel).tiers == p.tiers
      && SkipItem(p, sel).pool == RemoveFrom(p.pool, sel).next + [p.pool[FindIndex(p.pool, sel)]]
  {
    FirstTierWithFacts(p.tiers, sel);
    match FirstTierWith(p.tiers, sel)
    case Some(t) =>
      var res := RemoveFrom(p.tiers.Get(t), sel);
      var r := Partition(p.pool + [res.removed.value], p.tiers.With(t, res.next));
      assert r == p.With(Ranked(t), res.next).With(Pool, InsertAt(p.pool, None, res.removed.value));
      assert BucketOf(p, sel).Some?;
    case None =>
      assert BucketOf(p, sel) == if sel in Ids(p.pool) then Some(Pool) else None;
  }

  /** Skipping neither loses nor duplicates an item. */
  lemma SkipKeepsItems(p: Partition, sel: string)
    ensures SkipItem(p, sel).Items() == p.Items()
  {
    match FirstTierWith(p.tiers, sel)
    case Some(t) =>
      SkipItemCases(p, sel);
      MoveKeepsItems(p, sel, Ranked(t), Pool, None);
    case None =>
      var res := RemoveFrom(p.pool, sel);
      RemoveFromCount(p.pool, sel);
      if res.removed.Some? {
        assert multiset(SkipItem(p, sel).pool) == multiset(p.pool);
      }
  }

  /**
   * The queue `onSkip` leaves: `sel` deferred to the tail.  Its head is `sel`
   * only when nothing else is queued, so the next auto-selection moves on.
   */
  function Requeued(q: seq<string>, sel: string): seq<string> {
    Without(q, sel) + [sel]
  }

  /** The requeued id is last and, unless nothing else is queued, not first; no id is lost or repeated. */
  lemma RequeuedFacts(q: seq<string>, sel: string)
    ensures var r := Requeued(q, sel); |r| > 0 && r[|r| - 1] == sel
    ensures Requeued(q, sel)[0] == sel <==> Without(q, sel) == []
    ensures forall x :: x in Requeued(q, sel) <==> x in q || x == sel
    ensures Distinct(q) ==> Distinct(Requeued(q, sel))
  {
    var rest := Without(q, sel);
    WithoutFacts(q, sel);
    if rest != [] {
      assert rest[0] in rest;
    }
    if Distinct(q) {
      forall x ensures multiset(rest + [sel])[x] <= 1 {
        if x == sel {
          assert sel !in rest;
          assert multiset(rest)[x] == 0;
        }
      }
    }
  }

  /** `selectionQueue.filter(id => poolIds.includes(id))`: the queue entries still in the pool. */
  function Kept(queue: seq<string>, poolIds: seq<string>): seq<string> {
    Filter(queue, x => x in poolIds)
  }

  /** `poolIds.filter(id => !kept.includes(id))`: the pool ids not yet queued. */
  function NewIds(poolIds: seq<string>, kept: seq<string>): seq<string> {
    Filter(poolIds, x => x !in kept)
  }

  /**
   * Whatever order the shuffle picks for the new ids, the reconciled queue
   * holds exactly the pool's ids, and holds each once when the old queue and
   * the pool had no repeated ids.
   */
  lemma {:induction false} ReconciledQueue(queue: seq<string>, poolIds: seq<string>, shuffled: seq<string>)
    requires multiset(shuffled) == multiset(NewIds(poolIds, Kept(queue, poolIds)))
    ensures forall x :: x in Kept(queue, poolIds) + shuffled <==> x in poolIds
    ensures Distinct(queue) && Distinct(poolIds) ==> Distinct(Kept(queue, poolIds) + shuffled)
  {
    var kept := Kept(queue, poolIds);
    var unqueued := NewIds(poolIds, kept);
    FilterMembers(queue, x => x in poolIds);
    FilterMembers(poolIds, x => x !in kept);
    FilterCount(queue, x => x in poolIds);
    FilterCount(poolIds, x => x !in kept);
    forall x ensures x in kept + shuffled <==> x in poolIds {
      assert x in shuffled <==> x in multiset(shuffled);
      assert x in unqueued <==> x in multiset(unqueued);
    }
    if Distinct(queue) && Distinct(poolIds) {
      forall x ensures multiset(kept + shuffled)[x] <= 1 {
        assert multiset(kept + shuffled)[x] == multiset(kept)[x] + multiset(unqueued)[x];
        if x in kept {
          assert multiset(unqueued)[x] == 0;
        } else {
          assert multiset(kept)[x] == 0;
        }
      }
    }
  }

  /** Reconciliation never reorders what is kept: a queue wholly inside the pool is kept as it is. */
  lemma {:induction false} KeptIsStable(queue: seq<string>, poolIds: seq<string>)
    requires forall i :: 0 <= i < |queue| ==> queue[i] in poolIds
    ensures Kept(queue, poolIds) == queue
  {
    FilterKeepsAll(queue, x => x in poolIds);
  }

  /** The queue entries still in the pool keep their relative order: keeping distributes over concatenation. */
  lemma KeptKeepsOrder(q1: seq<string>, q2: seq<string>, poolIds: seq<string>)
    ensures Kept(q1 + q2, poolIds) == Kept(q1, poolIds) + Kept(q2, poolIds)
  {
    FilterConcat(q1, q2, x => x in poolIds);
  }

  /**
   * `shuffle(arr)`: a Fisher-Yates pass over a copy of `arr`.  The random index
   * is an arbitrary choice in `[0, i]`; whatever is chosen, the result is a
   * permutation of the input.
   */
  method Shuffle(arr: seq<string>) returns (r: seq<string>)
    ensures |r| == |arr|
    ensures multiset(r) == multiset(arr)
  {
    var a := new string[|arr|](k requires 0 <= k < |arr| => arr[k]);
    assert a[..] == arr;
    var i := a.Length - 1;
    while i > 0
      invariant -1 <= i < a.Length || a.Length == 0
      invariant multiset(a[..]) == multiset(arr)
    {
      var j :| 0 <= j <= i;
      a[i], a[j] := a[j], a[i];
      i := i - 1;
    }
    r := a[..];
  }

  /** A result saved by the page: `{ id, templateId, tiers }`. */
  datatype SavedResult = SavedResult(id: string, templateId: string, tiers: TierAssignment)

  /** `all.find(x => x.id === rid && x.templateId === id)`. */
  function FindResult(all: seq<SavedResult>, rid: string, templateId: Option<string>): (r: Option<SavedResult>)
    ensures r.Some? ==> r.value in all && r.value.id == rid && Some(r.value.templateId) == templateId
    ensures r.None? ==> forall x :: x in all ==> !(x.id == rid && Some(x.templateId) == templateId)
    ensures r.Some? ==> exists k :: 0 <= k < |all| && all[k] == r.value
                                   && forall j :: 0 <= j < k ==> !(all[j].id == rid && Some(all[j].templateId) == templateId)
  {
    if all == [] then None
    else if all[0].id == rid && Some(all[0].templateId) == templateId then Some(all[0])
    else
      var r := FindResult(all[1..], rid, templateId);
      if r.Some? then
        var k :| 0 <= k < |all[1..]| && all[1..][k] == r.value
                 && forall j :: 0 <= j < k ==> !(all[1..][j].id == rid && Some(all[1..][j].templateId) == templateId);
        assert all[k + 1] == r.value;
        r
      else r
  }

  /** The ids placed in the six rows, S first: `flatMap(t => tiers[t]).map(i => i.id)`. */
  function AssignedIds(t: TierAssignment): seq<string> {
    Ids(t.s) + Ids(t.a) + Ids(t.b) + Ids(t.c) + Ids(t.d) + Ids(t.u)
  }

  /** `tpl.items.filter(i => !assignedIds.includes(i.id))`: the template items no row holds. */
  function Remaining(items: seq<MediaItem>, placed: seq<string>): (r: seq<MediaItem>)
    ensures forall x :: x in r <==> x in items && x.id !in placed
    ensures |r| <= |items|
  {
    FilterMembers(items, (i: MediaItem) => i.id !in placed);
    Filter(items, (i: MediaItem) => i.id !in placed)
  }

  /** A saved `{S: [a], pool: [b]}` over the template `[a, b]` reloads with the pool `[b]`. */
  lemma SavedScenario(a: MediaItem, b: MediaItem)
    requires a.id != b.id
    ensures Remaining([a, b], AssignedIds(EmptyTiers.With(S, [a]))) == [b]
  {
    assert AssignedIds(EmptyTiers.With(S, [a])) == [a.id];
  }

  /** The page's state: the board, the selected id and the traversal queue. */
  class Board {
    var pool: seq<MediaItem>
    var tiers: TierAssignment
    var selected: Option<string>
    var queue: seq<string>

    constructor ()
      ensures pool == [] && tiers == EmptyTiers && selected == None && queue == []
    {
      pool, tiers, selected, queue := [], EmptyTiers, None, [];
    }

    /** The pool and rows as one value. */
    function Snapshot(): Partition
      reads this
    {
      Partition(pool, tiers)
    }

    /** `!selected` is false: some id is selected and it is not the empty string. */
    predicate HasSelection()
      reads this
    {
      selected.Some? && selected.value != ""
    }

    /** The template-loading effect: a known template fills the pool with its items. */
    method LoadTemplate(template: Option<seq<MediaItem>>)
      modifies this`pool
      ensures pool == if template.Some? then template.value else old(pool)
    {
      if template.Some? {
        pool := template.value;
      }
    }

    /**
     * The saved-result effect.  With a non-empty result id and a saved result
     * for it and this template, the rows become the saved rows and, when the
     * template is known, the pool becomes the template items no row holds, in
     * template order, and the first of them is selected.
     */
    method LoadSavedResult(all: seq<SavedResult>, rid: Option<string>, templateId: Option<string>,
                           template: Option<seq<MediaItem>>)
      modifies this
      ensures queue == old(queue)
      ensures rid.None? || rid == Some("") || FindResult(all, rid.value, templateId).None? ==>
        pool == old(pool) && tiers == old(tiers) && selected == old(selected)
      ensures rid.Some? && rid != Some("") && FindResult(all, rid.value, templateId).Some? ==>
        var found := FindResult(all, rid.value, templateId).value;
        && tiers == found.tiers
        && (template.None? ==> pool == old(pool) && selected == old(selected))
        && (template.Some? ==>
              && pool == Remaining(template.value, AssignedIds(found.tiers))
              && selected == if pool == [] then None else Some(pool[0].id))
    {
      if rid.None? || rid.value == "" {
        return;
      }
      var found := FindResult(all, rid.value, templateId);
      if found.Some? {
        tiers := found.value.tiers;
        if template.Some? {
          var assignedIds := AssignedIds(found.value.tiers);
          var remaining := Remaining(template.value, assignedIds);
          pool := remaining;
          selected := if remaining == [] then None else Some(remaining[0].id);
        }
      }
    }

    /** `onMove`: the board changes exactly as `MoveItem` says; selection and queue stay. */
    method Move(itemId: string, from: Bucket, to: Bucket, toIndex: Option<int>)
      modifies this`pool, this`tiers
      ensures Snapshot() == MoveItem(old(Snapshot()), itemId, from, to, toIndex)
    {
      if from == to {
        return;
      }
      var moved: Option<MediaItem>;
      if from == Pool {
        var res := RemoveFrom(pool, itemId);
        moved := res.removed;
        pool := res.next;
      } else {
        var res := RemoveFrom(tiers.Get(from.tier), itemId);
        moved := res.removed;
        tiers := tiers.With(from.tier, res.next);
      }
      if moved.None? {
        return;
      }
      if to == Pool {
        pool := InsertAt(pool, toIndex, moved.value);
      } else {
        tiers := tiers.With(to.tier, InsertAt(tiers.Get(to.tier), toIndex, moved.value));
      }
    }

    /**
     * `onAssignClick(tier)`.  With a selection held somewhere on the board, the
     * item moves to `tier`, its id leaves the queue and the new queue head (or
     * nothing) is selected; otherwise nothing changes.
     */
    method AssignClick(tier: TierId)
      modifies this
      ensures !old(HasSelection()) || BucketOf(old(Snapshot()), old(selected).value).None? ==>
        Snapshot() == old(Snapshot()) && selected == old(selected) && queue == old(queue)
      ensures old(HasSelection()) && BucketOf(old(Snapshot()), old(selected).value).Some? ==>
        var sel := old(selected).value;
        && Snapshot() == MoveItem(old(Snapshot()), sel, BucketOf(old(Snapshot()), sel).value, Ranked(tier), None)
        && queue == Without(old(queue), sel)
        && selected == (if queue == [] then None else Some(queue[0]))
    {
      if !HasSelection() {
        return;
      }
      var sel := selected.value;
      var nextQueue := Without(queue, sel);
      var nextId := if |nextQueue| > 0 then Some(nextQueue[0]) else None;
      var from := BucketOf(Snapshot(), sel);
      if from.None? {
        return;
      }
      Move(sel, from.value, Ranked(tier), None);
      queue := nextQueue;
      selected := nextId;
    }

    /**
     * `onSkip()`.  With a selection, the item goes to the end of the pool (see
     * `SkipItem`), its id is deferred to the queue's tail and the selection is
     * cleared; otherwise nothing changes.
     */
    method Skip()
      modifies this
      ensures !old(HasSelection()) ==>
        Snapshot() == old(Snapshot()) && selected == old(selected) && queue == old(queue)
      ensures old(HasSelection()) ==>
        && Snapshot() == SkipItem(old(Snapshot()), old(selected).value)
        && queue == Requeued(old(queue), old(selected).value)
        && selected == None
    {
      if !HasSelection() {
        return;
      }
      var sel := selected.value;
      var next := SkipItem(Snapshot(), sel);
      var nextQueue := Requeued(queue, sel);
      pool, tiers, queue, selected := next.pool, next.tiers, nextQueue, None;
      assert Snapshot() == next;
    }

    /**
     * The queue-reconciliation effect, run whenever the pool changes.  The queue
     * becomes its entries still in the pool, in their old order, followed by
     * a permutation of the pool ids not kept.  A missing selection takes the
     * head; a selection that left the pool takes the head or is cleared.
     */
    method Reconcile()
      modifies this`queue, this`selected
      ensures
        var kept := Kept(old(queue), Ids(pool));
        && |kept| <= |queue|
        && queue[..|kept|] == kept
        && multiset(queue[|kept|..]) == multiset(NewIds(Ids(pool), kept))
      ensures !old(HasSelection()) ==> selected == if queue != [] then Some(queue[0]) else old(selected)
      ensures old(HasSelection()) && old(selected).value !in Ids(pool) ==>
        selected == if queue != [] then Some(queue[0]) else None
      ensures old(HasSelection()) && old(selected).value in Ids(pool) ==> selected == old(selected)
    {
      var poolIds := Ids(pool);
      var kept := Kept(queue, poolIds);
      var newOnes := NewIds(poolIds, kept);
      var shuffled := Shuffle(newOnes);
      var nextQueue := kept + shuffled;
      assert nextQueue[..|kept|] == kept && nextQueue[|kept|..] == shuffled;
      var nextSelected := selected;
      if !HasSelection() {
        if |nextQueue| > 0 {
          nextSelected := Some(nextQueue[0]);
        }
      } else if selected.value !in poolIds {
        nextSelected := if |nextQueue| > 0 then Some(nextQueue[0]) else None;
      }
      queue, selected := nextQueue, nextSelected;
    }

    /** The auto-select effect: with no selection and a non-empty queue, the head is selected. */
    method AutoSelect()
      modifies this`selected
      ensures selected == if !old(HasSelection()) && queue != [] then Some(queue[0]) else old(selected)
    {
      if !HasSelection() && |queue| > 0 {
        selected := Some(queue[0]);
      }
    }
  }
}
