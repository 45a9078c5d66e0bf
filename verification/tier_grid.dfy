/**
 * The tier board widget (src/components/TierGrid.tsx): the order and settings
 * of its rows, the ids of its drag containers, the drag-end rule that turns a
 * drop into a move, and the "clear tier" action.
 */
module TierGrid {
  import opened Wrappers
  import opened Types
  import opened PublicDetail

  /** `defaultOrder`: the rows as first shown. */
  const DefaultOrder: seq<TierId> := [S, A, B, C, D, U]

  /** `prev.indexOf(tier)`: the first position of `t`, or -1. */
  function IndexOf(order: seq<TierId>, t: TierId): (i: int)
    ensures -1 <= i < |order|
    ensures i == -1 ==> t !in order
    ensures i >= 0 ==> order[i] == t && forall j :: 0 <= j < i ==> order[j] != t
  {
    if order == [] then -1
    else if order[0] == t then 0
    else
      var i := IndexOf(order[1..], t);
      if i == -1 then -1 else i + 1
  }

  /** `order` with the entries at `i` and `j` exchanged. */
  function Swap(order: seq<TierId>, i: nat, j: nat): seq<TierId>
    requires i < |order| && j < |order|
  {
    order[i := order[j]][j := order[i]]
  }

  /** The row order `moveTierUp(t)` leaves. */
  function RowUp(order: seq<TierId>, t: TierId): seq<TierId> {
    var i := IndexOf(order, t);
    if i <= 0 then order else Swap(order, i - 1, i)
  }

  /** The row order `moveTierDown(t)` leaves. */
  function RowDown(order: seq<TierId>, t: TierId): seq<TierId> {
    var i := IndexOf(order, t);
    if i == -1 || i >= |order| - 1 then order else Swap(order, i, i + 1)
  }

  /** Exchanging two entries only permutes the order. */
  lemma SwapPermutes(order: seq<TierId>, i: nat, j: nat)
    requires i < |order| && j < |order|
    ensures multiset(Swap(order, i, j)) == multiset(order)
  {
  }

  /**
   * Moving up: the first row, or a row not in the order, leaves the order as
   * it is; any other row trades places with its predecessor and nothing else
   * moves.  Either way the result is a permutation.
   */
  lemma RowUpCases(order: seq<TierId>, t: TierId)
    ensures IndexOf(order, t) <= 0 ==> RowUp(order, t) == order
    ensures IndexOf(order, t) > 0 ==>
      var i, r := IndexOf(order, t), RowUp(order, t);
      && |r| == |order|
      && r[i - 1] == t && r[i] == order[i - 1]
      && forall k :: 0 <= k < |order| && k != i - 1 && k != i ==> r[k] == order[k]
    ensures multiset(RowUp(order, t)) == multiset(order)
  {
    var i := IndexOf(order, t);
    if i > 0 {
      SwapPermutes(order, i - 1, i);
    }
  }

  /**
   * Moving down: the last row, or a row not in the order, leaves the order as
   * it is; any other row trades places with its successor and nothing else
   * moves.  Either way the result is a permutation.
   */
  lemma RowDownCases(order: seq<TierId>, t: TierId)
    ensures IndexOf(order, t) == -1 || IndexOf(order, t) >= |order| - 1 ==> RowDown(order, t) == order
    ensures 0 <= IndexOf(order, t) < |order| - 1 ==>
      var i, r := IndexOf(order, t), RowDown(order, t);
      && |r| == |order|
      && r[i + 1] == t && r[i] == order[i + 1]
      && forall k :: 0 <= k < |order| && k != i && k != i + 1 ==> r[k] == order[k]
    ensures multiset(RowDown(order, t)) == multiset(order)
  {
    var i := IndexOf(order, t);
    if 0 <= i < |order| - 1 {
      SwapPermutes(order, i, i + 1);
    }
  }

  /** No row appears twice. */
  predicate NoRepeats(order: seq<TierId>) {
    forall i, j :: 0 <= i < j < |order| ==> order[i] != order[j]
  }

  /** An order holding each of the six rows once, as the widget's always does, has no repeats. */
  lemma PermutationHasNoRepeats(order: seq<TierId>)
    requires multiset(order) == multiset(DefaultOrder)
    ensures NoRepeats(order)
  {
    forall i, j | 0 <= i < j < |order|
      ensures order[i] != order[j]
    {
      var x := order[j];
      assert multiset(DefaultOrder)[x] == 1 by {
        match x
        case S => case A => case B => case C => case D => case U =>
      }
      assert order == order[..j] + [x] + order[j + 1..];
      assert order[..j][i] == order[i];
      assert multiset(order)[x] == multiset(order[..j])[x] + 1 + multiset(order[j + 1..])[x];
    }
  }

  /** Moving a row down right after moving it up restores the order, unless it was already first. */
  lemma {:induction false} DownUndoesUp(order: seq<TierId>, t: TierId)
    requires IndexOf(order, t) > 0
    ensures RowDown(RowUp(order, t), t) == order
  {
    var i := IndexOf(order, t);
    var r := RowUp(order, t);
    assert r[i - 1] == t;
    assert forall j :: 0 <= j < i - 1 ==> r[j] == order[j];
    assert IndexOf(r, t) == i - 1;
    assert Swap(r, i - 1, i) == order;
  }

  /** Moving a row up right after moving it down restores the order, unless it was already last. */
  lemma {:induction false} UpUndoesDown(order: seq<TierId>, t: TierId)
    requires NoRepeats(order)
    requires 0 <= IndexOf(order, t) < |order| - 1
    ensures RowUp(RowDown(order, t), t) == order
  {
    var i := IndexOf(order, t);
    var r := RowDown(order, t);
    assert r[i + 1] == t && r[i] == order[i + 1] != t;
    assert forall j :: 0 <= j < i ==> r[j] == order[j];
    assert IndexOf(r, t) == i + 1;
    assert Swap(r, i, i + 1) == order;
  }

  /** The label and colour of one row. */
  datatype RowSetting = RowSetting(labelText: string, color: string)

  /** The row settings the widget starts with. */
  const DefaultSettings: map<TierId, RowSetting> := map[
    S := RowSetting("S", "#f59e0b"),
    A := RowSetting("A", "#ef4444"),
    B := RowSetting("B", "#22c55e"),
    C := RowSetting("C", "#3b82f6"),
    D := RowSetting("D", "#a855f7"),
    U := RowSetting("Без оценки", "#94a3b8")]

  /**
   * The settings after "save" on row `t`: its label becomes `labelText`, its
   * colour becomes `color` unless that is empty, in which case the old colour
   * stays; every other row keeps its settings.
   */
  function SavedSettings(settings: map<TierId, RowSetting>, t: TierId, labelText: string, color: string)
    : (r: map<TierId, RowSetting>)
    requires t in settings
    ensures r.Keys == settings.Keys
    ensures r[t].labelText == labelText
    ensures r[t].color == (if color == "" then settings[t].color else color)
    ensures forall t' :: t' in settings && t' != t ==> r[t'] == settings[t']
  {
    settings[t := RowSetting(labelText, if color != "" then color else settings[t].color)]
  }

  /** The widget's own state: the order of its rows and their settings. */
  class Grid {
    var rowOrder: seq<TierId>
    var rowSettings: map<TierId, RowSetting>

    /** Every row has settings, and the order lists each row exactly once. */
    predicate Valid()
      reads this
    {
      && (forall t: TierId :: t in rowSettings)
      && multiset(rowOrder) == multiset(DefaultOrder)
    }

    constructor ()
      ensures Valid()
      ensures rowOrder == DefaultOrder && rowSettings == DefaultSettings
    {
      rowOrder, rowSettings := DefaultOrder, DefaultSettings;
      new;
      forall t: TierId
        ensures t in rowSettings
      {
        match t
        case S => case A => case B => case C => case D => case U =>
      }
    }

    /** `moveTierUp(tier)`: copy the order and swap the row with the one above; settings stay. */
    method MoveTierUp(tier: TierId)
      requires Valid()
      modifies this`rowOrder
      ensures Valid()
      ensures rowOrder == RowUp(old(rowOrder), tier)
    {
      var prev := rowOrder;
      var idx := IndexOf(prev, tier);
      if idx <= 0 {
        return;
      }
      SwapPermutes(prev, idx - 1, idx);
      var next := prev;
      next := next[idx - 1 := prev[idx]][idx := prev[idx - 1]];
      rowOrder := next;
    }

    /** `moveTierDown(tier)`: copy the order and swap the row with the one below; settings stay. */
    method MoveTierDown(tier: TierId)
      requires Valid()
      modifies this`rowOrder
      ensures Valid()
      ensures rowOrder == RowDown(old(rowOrder), tier)
    {
      var prev := rowOrder;
      var idx := IndexOf(prev, tier);
      if idx == -1 || idx >= |prev| - 1 {
        return;
      }
      SwapPermutes(prev, idx, idx + 1);
      var next := prev;
      next := next[idx := prev[idx + 1]][idx + 1 := prev[idx]];
      rowOrder := next;
    }

    /** The "save" button of the settings dialog for row `editTier`; the order stays. */
    method SaveSettings(editTier: TierId, tempLabel: string, tempColor: string)
      requires Valid()
      modifies this`rowSettings
      ensures Valid()
      ensures rowSettings == SavedSettings(old(rowSettings), editTier, tempLabel, tempColor)
    {
      rowSettings := SavedSettings(rowSettings, editTier, tempLabel, tempColor);
    }
  }

  /**
   * `containers`: the item ids of the pool and of every row in `order`.  Rows
   * are added in order; a repeated row only writes the same ids again.
   */
  function Containers(p: Partition, order: seq<TierId>): map<Bucket, seq<string>> {
    if order == [] then map[Pool := Ids(p.pool)]
    else
      var t := order[|order| - 1];
      Containers(p, order[..|order| - 1])[Ranked(t) := Ids(p.tiers.Get(t))]
  }

  /** The containers are the pool and the rows of the order, each holding its bucket's ids. */
  lemma {:induction false} ContainersFacts(p: Partition, order: seq<TierId>)
    ensures forall b :: b in Containers(p, order) <==> b == Pool || (b.Ranked? && b.tier in order)
    ensures forall b :: b in Containers(p, order) ==> Containers(p, order)[b] == Ids(p.Get(b))
  {
    if order != [] {
      var init := order[..|order| - 1];
      ContainersFacts(p, init);
      assert order == init + [order[|order| - 1]];
    }
  }

  /** Reordering the rows does not change what the containers hold. */
  lemma ContainersIgnoreOrder(p: Partition, o1: seq<TierId>, o2: seq<TierId>)
    requires forall t :: t in o1 <==> t in o2
    ensures Containers(p, o1) == Containers(p, o2)
  {
    ContainersFacts(p, o1);
    ContainersFacts(p, o2);
  }

  /** The value of `Number(s)` in the cases the model tells apart. */
  datatype JsNum = Finite(n: int) | NaN

  /** Every character is an ASCII digit. */
  predicate IsDigits(s: string) {
    forall i :: 0 <= i < |s| ==> '0' <= s[i] <= '9'
  }

  /** The value of a string of decimal digits. */
  function DigitsValue(s: string): nat
    requires IsDigits(s)
  {
    if s == [] then 0
    else 10 * DigitsValue(s[..|s| - 1]) + ((s[|s| - 1] as int) - ('0' as int))
  }

  /** `Number(s)`: the empty string is 0, a digit string its value, and anything else NaN. */
  function ToNumber(s: string): JsNum {
    if s == "" then Finite(0)
    else if IsDigits(s) then Finite(DigitsValue(s))
    else NaN
  }

  /** `a === b` on numbers: NaN equals nothing. */
  predicate SameNumber(a: JsNum, b: JsNum) {
    a.Finite? && b.Finite? && a.n == b.n
  }

  /** `` `${n}` `` for a natural number. */
  function Decimal(n: nat): string {
    if n < 10 then [('0' as int + n) as char]
    else Decimal(n / 10) + [('0' as int + n % 10) as char]
  }

  /** The digits of a number read back as that number. */
  lemma {:induction false} DecimalRoundTrip(n: nat)
    ensures Decimal(n) != "" && IsDigits(Decimal(n))
    ensures ToNumber(Decimal(n)) == Finite(n)
  {
    var s := Decimal(n);
    if n >= 10 {
      DecimalRoundTrip(n / 10);
      assert s[..|s| - 1] == Decimal(n / 10);
      assert DigitsValue(s) == 10 * (n / 10) + n % 10;
    } else {
      assert DigitsValue(s) == 10 * DigitsValue([]) + n;
    }
  }

  /** `s.split(':')[0]`: the text before the first colon, or all of it. */
  function BeforeColon(s: string): string {
    if s == [] || s[0] == ':' then [] else [s[0]] + BeforeColon(s[1..])
  }

  /** The text after the first colon, when there is one. */
  function AfterColon(s: string): Option<string> {
    if s == [] then None
    else if s[0] == ':' then Some(s[1..])
    else AfterColon(s[1..])
  }

  /** `s.split(':')[1]`: the text between the first and second colon, or undefined without a colon. */
  function SecondField(s: string): Option<string> {
    match AfterColon(s)
    case None => None
    case Some(rest) => Some(BeforeColon(rest))
  }

  /** A colon-free prefix and the rest are recovered by splitting at the first colon. */
  lemma {:induction false} SplitAtColon(c: string, rest: string)
    requires ':' !in c
    ensures BeforeColon(c + ":" + rest) == c
    ensures AfterColon(c + ":" + rest) == Some(rest)
  {
    if c != [] {
      assert (c + ":" + rest)[1..] == c[1..] + ":" + rest;
      SplitAtColon(c[1..], rest);
    }
  }

  /** The id the widget gives the item at `index` of container `c`: `` `${c}:${index}` ``. */
  function SlotId(c: string, index: nat): string {
    c + ":" + Decimal(index)
  }

  /** What a drag-end event carries: the dragged element's id and item id, and the drop target's id, if any. */
  datatype DragEnd = DragEnd(activeId: string, itemId: Option<string>, overId: Option<string>)

  /** A call `onMove(itemId, from, to, toIndex)`; `None` stands for an undefined index. */
  datatype MoveCall = MoveCall(itemId: string, from: string, to: string, toIndex: Option<JsNum>)

  /** `handleDragEnd(evt)`: the move it asks for, or `None` when it returns early. */
  function HandleDragEnd(e: DragEnd): Option<MoveCall> {
    if e.overId.None? then None
    else
      var fromContainer := BeforeColon(e.activeId);
      var fromIndex := SecondField(e.activeId);
      var toContainer := BeforeColon(e.overId.value);
      var toIndexMaybe := SecondField(e.overId.value);
      var toIndex := if toIndexMaybe.Some? && toIndexMaybe.value != "" then Some(ToNumber(toIndexMaybe.value)) else None;
      if e.itemId.None? || e.itemId.value == "" then None
      else if fromContainer == toContainer && fromIndex.Some? && toIndex.Some?
              && SameNumber(ToNumber(fromIndex.value), toIndex.value) then None
      else Some(MoveCall(e.itemId.value, fromContainer, toContainer, toIndex))
  }

  /** Without a drop target, or without a (non-empty) item id, no move is asked for; a move asked for names that item. */
  lemma DragNeedsTargetAndItem(e: DragEnd)
    ensures e.overId.None? || e.itemId.None? || e.itemId == Some("") ==> HandleDragEnd(e).None?
    ensures HandleDragEnd(e).Some? ==> e.overId.Some? && e.itemId.Some? && HandleDragEnd(e).value.itemId == e.itemId.value != ""
  {
  }

  /**
   * A drag from slot `from:i` to slot `to:j` of the widget: a drop back onto
   * the same slot asks for nothing; any other drop asks to move the item from
   * container `from` to container `to` at index `j`.
   */
  lemma DragBetweenSlots(from: string, i: nat, to: string, j: nat, itemId: string)
    requires ':' !in from && ':' !in to && itemId != ""
    ensures HandleDragEnd(DragEnd(SlotId(from, i), Some(itemId), Some(SlotId(to, j))))
         == if from == to && i == j then None else Some(MoveCall(itemId, from, to, Some(Finite(j))))
  {
    SplitAtColon(from, Decimal(i));
    SplitAtColon(to, Decimal(j));
    DecimalRoundTrip(i);
    DecimalRoundTrip(j);
    DigitsHaveNoColon(Decimal(i));
    DigitsHaveNoColon(Decimal(j));
  }

  /** A drop onto a target id without a colon always asks for a move, with an undefined index. */
  lemma DropWithoutIndex(activeId: string, itemId: string, overId: string)
    requires ':' !in overId && itemId != ""
    ensures HandleDragEnd(DragEnd(activeId, Some(itemId), Some(overId)))
         == Some(MoveCall(itemId, BeforeColon(activeId), overId, None))
  {
    NoColonIsWhole(overId);
  }

  /** Text without a colon is its own first field and has no second one. */
  lemma {:induction false} NoColonIsWhole(s: string)
    requires ':' !in s
    ensures BeforeColon(s) == s && AfterColon(s) == None
  {
    if s != [] {
      NoColonIsWhole(s[1..]);
    }
  }

  /** A digit string holds no colon, so splitting leaves it whole. */
  lemma {:induction false} DigitsHaveNoColon(s: string)
    requires IsDigits(s)
    ensures ':' !in s
    ensures BeforeColon(s) == s
  {
    assert forall i :: 0 <= i < |s| ==> s[i] != ':';
    NoColonIsWhole(s);
  }

  /** One click of "clear tier" on row `t`: its first item goes to the end of the pool. */
  lemma ClearStep(p: Partition, t: TierId)
    requires p.tiers.Get(t) != []
    ensures
      var row := p.tiers.Get(t);
      MoveItem(p, row[0].id, Ranked(t), Pool, None) == Partition(p.pool + [row[0]], p.tiers.With(t, row[1..]))
  {
    var row := p.tiers.Get(t);
    MoveItemCases(p, row[0].id, Ranked(t), Pool, None);
    assert Ids(row)[0] == row[0].id;
    assert FindIndex(row, row[0].id) == 0;
    var r := MoveItem(p, row[0].id, Ranked(t), Pool, None);
    assert r.pool == InsertAt(p.pool, None, row[0]) == p.pool + [row[0]];
    assert r.tiers.Get(t) == row[1..];
    forall t' | t' != t
      ensures r.tiers.Get(t') == p.tiers.Get(t')
    {
      assert r.Get(Ranked(t')) == p.Get(Ranked(t'));
    }
    assert r.tiers == p.tiers.With(t, row[1..]) by {
      var w := p.tiers.With(t, row[1..]);
      assert r.tiers.s == w.s && r.tiers.a == w.a && r.tiers.b == w.b;
      assert r.tiers.c == w.c && r.tiers.d == w.d && r.tiers.u == w.u by {
        assert r.tiers.Get(C) == w.Get(C) && r.tiers.Get(D) == w.Get(D) && r.tiers.Get(U) == w.Get(U);
      }
    }
  }

  /** Writing a row twice keeps only the second write. */
  lemma WithTwice(tiers: TierAssignment, t: TierId, x: seq<MediaItem>, y: seq<MediaItem>)
    ensures tiers.With(t, x).With(t, y) == tiers.With(t, y)
  {
  }

  /** Step `k` of clearing a row, on the row's remaining suffix. */
  lemma ClearSuffixStep(p: Partition, t: TierId, row: seq<MediaItem>, k: nat)
    requires k < |row| && p.tiers.Get(t) == row[k..]
    ensures MoveItem(p, row[k].id, Ranked(t), Pool, None) == Partition(p.pool + [row[k]], p.tiers.With(t, row[k + 1..]))
  {
    assert row[k..][0] == row[k] && row[k..][1..] == row[k + 1..];
    ClearStep(p, t);
  }

  /** Taking one more element of `row` onto a sequence. */
  lemma AppendOne<T>(pool: seq<T>, row: seq<T>, k: nat)
    requires k < |row|
    ensures (pool + row[..k]) + [row[k]] == pool + row[..k + 1]
  {
    assert row[..k + 1] == row[..k] + [row[k]];
  }

  /** Step `k` of clearing a row, stated on what the first `k` steps left. */
  lemma ClearStepAt(pool0: seq<MediaItem>, tiers0: TierAssignment, t: TierId, row: seq<MediaItem>, k: nat)
    requires k < |row|
    ensures MoveItem(Partition(pool0 + row[..k], tiers0.With(t, row[k..])), row[k].id, Ranked(t), Pool, None)
         == Partition(pool0 + row[..k + 1], tiers0.With(t, row[k + 1..]))
  {
    var before := Partition(pool0 + row[..k], tiers0.With(t, row[k..]));
    ClearSuffixStep(before, t, row, k);
    WithTwice(tiers0, t, row[k..], row[k + 1..]);
    AppendOne(pool0, row, k);
  }

  /**
   * "Clear tier" (`ids.forEach(id => onMove(id, tier, 'pool'))`), each move
   * taking effect before the next: the row ends empty, its items follow the
   * pool's in row order, and the other rows, the selection and the queue stay.
   */
  method ClearTier(board: Board, t: TierId)
    modifies board`pool, board`tiers
    ensures board.pool == old(board.pool) + old(board.tiers.Get(t))
    ensures board.tiers == old(board.tiers).With(t, [])
  {
    var row := board.tiers.Get(t);
    ghost var tiers0 := board.tiers;
    ghost var pool0 := board.pool;
    var ids := Ids(row);
    var k := 0;
    while k < |ids|
      invariant 0 <= k <= |ids|
      invariant board.tiers == tiers0.With(t, row[k..])
      invariant board.pool == pool0 + row[..k]
    {
      ClearStepAt(pool0, tiers0, t, row, k);
      board.Move(ids[k], Ranked(t), Pool, None);
      k := k + 1;
    }
  }
}
