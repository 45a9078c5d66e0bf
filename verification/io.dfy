/**
 * CSV rows and default tiers (src/lib/io.ts): the item `importCsv` makes of
 * each parsed row, the row `exportCsv` makes of each item, and
 * `defaultTiers`.  Parsing and writing CSV text (papaparse) and the file
 * plumbing are not modelled; a row is the record of its cells.
 */
module Io {
  import opened Wrappers
  import opened Records
  import opened Lists
  import opened Types

  /** A parsed CSV row: column name to cell text. */
  type Row = Record<string>

  /** The columns an item keeps as its own fields rather than as attributes. */
  predicate Reserved(k: string) {
    k == "id" || k == "title" || k == "imageUrl"
  }

  /** The cells of every other column: `Object.entries(r).filter(([k]) => !reserved.includes(k))`. */
  function Attributes(row: Row): Row {
    Filter(row, (e: (string, string)) => !Reserved(e.0))
  }

  /** The attributes of a row with one more column first. */
  lemma AttributesCons(e: (string, string), rest: Row)
    ensures Attributes([e] + rest) == (if Reserved(e.0) then [] else [e]) + Attributes(rest)
  {
    assert ([e] + rest)[1..] == rest;
  }

  /** A column keeps its cell among the attributes unless it is reserved. */
  lemma {:induction false} AttributesGet(row: Row, k: string)
    ensures Get(Attributes(row), k) == if Reserved(k) then None else Get(row, k)
  {
    if row != [] {
      AttributesGet(row[1..], k);
      var head := if !Reserved(row[0].0) then [row[0]] else [];
      assert Attributes(row) == head + Attributes(row[1..]);
      if head != [] {
        assert (head + Attributes(row[1..]))[1..] == Attributes(row[1..]);
      } else {
        assert head + Attributes(row[1..]) == Attributes(row[1..]);
      }
    }
  }

  /**
   * The item of one row: its id unless that is empty (then `freshId`), its
   * title or "", its image URL unless missing or empty, and the other columns
   * as attributes.
   */
  function ImportRow(row: Row, freshId: string): DatasetItem {
    var id := Get(row, "id");
    var title := Get(row, "title");
    var imageUrl := Get(row, "imageUrl");
    DatasetItem(if id.Some? && id.value != "" then id.value else freshId,
                title.GetOr(""),
                if imageUrl.Some? && imageUrl.value != "" then imageUrl else None,
                Some(Attributes(row)))
  }

  /** The fields of an imported item, one by one, and its attributes holding no reserved column. */
  lemma ImportRowFacts(row: Row, freshId: string)
    ensures var item := ImportRow(row, freshId);
      && (Get(row, "id").Some? && Get(row, "id").value != "" ==> item.id == Get(row, "id").value)
      && (Get(row, "id").None? || Get(row, "id") == Some("") ==> item.id == freshId)
      && item.title == (if Get(row, "title").Some? then Get(row, "title").value else "")
      && (item.imageUrl.None? <==> Get(row, "imageUrl").None? || Get(row, "imageUrl") == Some(""))
      && item.attributes.Some?
      && forall i :: 0 <= i < |item.attributes.value| ==> !Reserved(item.attributes.value[i].0)
  {
    FilterMembers(row, (e: (string, string)) => !Reserved(e.0));
    var a := Attributes(row);
    forall i | 0 <= i < |a|
      ensures !Reserved(a[i].0)
    {
      assert a[i] in a;
    }
  }

  /** `importCsv`: one item per row, in row order; `freshIds[k]` is the id drawn for row `k`. */
  function ImportCsv(rows: seq<Row>, freshIds: seq<string>): seq<DatasetItem>
    requires |freshIds| == |rows|
  {
    if rows == [] then [] else [ImportRow(rows[0], freshIds[0])] + ImportCsv(rows[1..], freshIds[1..])
  }

  /** Importing yields exactly one item per row, each made of its own row. */
  lemma {:induction false} ImportCsvFacts(rows: seq<Row>, freshIds: seq<string>)
    requires |freshIds| == |rows|
    ensures |ImportCsv(rows, freshIds)| == |rows|
    ensures forall k :: 0 <= k < |rows| ==> ImportCsv(rows, freshIds)[k] == ImportRow(rows[k], freshIds[k])
  {
    if rows != [] {
      ImportCsvFacts(rows[1..], freshIds[1..]);
    }
  }

  /** An export row: the cells of a row before writing, `None` for an undefined value. */
  type ExportRowCells = Record<Option<string>>

  /** `{ ...r, ...a }` for an attribute record `a`, key by key. */
  function SpreadInto(r: ExportRowCells, a: Record<string>): ExportRowCells {
    if a == [] then r
    else Put(SpreadInto(r, a[..|a| - 1]), a[|a| - 1].0, Some(a[|a| - 1].1))
  }

  /** The item's own three cells, before its attributes. */
  function OwnCells(item: DatasetItem): ExportRowCells {
    [("id", Some(item.id)), ("title", Some(item.title)), ("imageUrl", item.imageUrl)]
  }

  /** The row of one item: `{ id, title, imageUrl, ...attributes }`. */
  function ExportRow(item: DatasetItem): ExportRowCells {
    SpreadInto(OwnCells(item), item.attributes.GetOr([]))
  }

  /** Spreading writes each attribute's value and leaves every other column as it was. */
  lemma {:induction false} SpreadGet(r: ExportRowCells, a: Record<string>, k: string)
    requires UniqueKeys(a)
    ensures Get(SpreadInto(r, a), k) == if k in Keys(a) then Some(Some(Get(a, k).value)) else Get(r, k)
  {
    if a != [] {
      var init, e := a[..|a| - 1], a[|a| - 1];
      assert a == init + [e];
      UniqueKeysSnoc(init, e);
      SpreadGet(r, init, k);
      KeysSnoc(init, e);
      GetSnoc(init, e, k);
    }
  }

  /** Spreading keeps the columns already there first, in their order. */
  lemma {:induction false} SpreadKeepsColumns(r: ExportRowCells, a: Record<string>)
    ensures |Keys(r)| <= |Keys(SpreadInto(r, a))| && Keys(SpreadInto(r, a))[..|Keys(r)|] == Keys(r)
  {
    if a != [] {
      var s := SpreadInto(r, a[..|a| - 1]);
      SpreadKeepsColumns(r, a[..|a| - 1]);
      var k := a[|a| - 1].0;
      if k !in Keys(s) {
        assert Keys(s + [(k, Some(a[|a| - 1].1))])[..|Keys(r)|] == Keys(r) by {
          KeysSnoc(s, (k, Some(a[|a| - 1].1)));
        }
      }
    }
  }

  /** The keys of a three-entry record. */
  lemma KeysOfThree<V>(r: Record<V>)
    requires |r| == 3
    ensures Keys(r) == [r[0].0, r[1].0, r[2].0]
  {
    assert r[1..][1..][1..] == [];
    assert Keys(r[1..][1..]) == [r[2].0];
    assert Keys(r[1..]) == [r[1].0, r[2].0];
  }

  /** An export row starts with the `id`, `title` and `imageUrl` columns, in that order. */
  lemma ExportColumns(item: DatasetItem)
    ensures |Keys(ExportRow(item))| >= 3 && Keys(ExportRow(item))[..3] == ["id", "title", "imageUrl"]
  {
    SpreadKeepsColumns(OwnCells(item), item.attributes.GetOr([]));
    KeysOfThree(OwnCells(item));
  }

  /**
   * Each attribute has its column holding its value; the three item fields
   * keep their own values unless an attribute of the same name overrides them.
   */
  lemma ExportCell(item: DatasetItem, k: string)
    requires item.attributes.Some? ==> UniqueKeys(item.attributes.value)
    ensures var a := item.attributes.GetOr([]);
      Get(ExportRow(item), k) ==
        if k in Keys(a) then Some(Some(Get(a, k).value))
        else if k == "id" then Some(Some(item.id))
        else if k == "title" then Some(Some(item.title))
        else if k == "imageUrl" then Some(item.imageUrl)
        else None
  {
    SpreadGet(OwnCells(item), item.attributes.GetOr([]), k);
  }

  /** The attribute cells as export cells. */
  function Lift(a: Record<string>): ExportRowCells {
    if a == [] then [] else [(a[0].0, Some(a[0].1))] + Lift(a[1..])
  }

  /** Writing a row: an undefined value is written as an empty cell. */
  function CsvCells(r: ExportRowCells): Row {
    if r == [] then [] else [(r[0].0, r[0].1.GetOr(""))] + CsvCells(r[1..])
  }

  /** Keys of a concatenation. */
  lemma {:induction false} KeysConcat<V>(a: Record<V>, b: Record<V>)
    ensures Keys(a + b) == Keys(a) + Keys(b)
  {
    if a != [] {
      assert (a + b)[1..] == a[1..] + b;
      KeysConcat(a[1..], b);
      assert Keys(a + b) == [a[0].0] + (Keys(a[1..]) + Keys(b));
    } else {
      assert a + b == b;
    }
  }

  /** Lifted cells have the attribute names as keys. */
  lemma {:induction false} LiftKeys(a: Record<string>)
    ensures Keys(Lift(a)) == Keys(a)
  {
    if a != [] {
      LiftKeys(a[1..]);
    }
  }

  /** Writing lifted cells gives back the attribute record. */
  lemma {:induction false} CsvCellsLift(a: Record<string>)
    ensures CsvCells(Lift(a)) == a
  {
    if a != [] {
      CsvCellsLift(a[1..]);
    }
  }

  /** Writing distributes over concatenation. */
  lemma {:induction false} CsvCellsConcat(r: ExportRowCells, s: ExportRowCells)
    ensures CsvCells(r + s) == CsvCells(r) + CsvCells(s)
  {
    if r != [] {
      assert (r + s)[1..] == r[1..] + s;
      CsvCellsConcat(r[1..], s);
      assert CsvCells(r + s) == [(r[0].0, r[0].1.GetOr(""))] + (CsvCells(r[1..]) + CsvCells(s));
    } else {
      assert r + s == s;
    }
  }

  /** Attributes whose names are new and distinct are spread by appending them. */
  lemma {:induction false} SpreadNew(r: ExportRowCells, a: Record<string>)
    requires UniqueKeys(a)
    requires forall k :: k in Keys(a) ==> k !in Keys(r)
    ensures SpreadInto(r, a) == r + Lift(a)
  {
    if a != [] {
      var init, e := a[..|a| - 1], a[|a| - 1];
      assert a == init + [e];
      UniqueKeysSnoc(init, e);
      KeysSnoc(init, e);
      SpreadNew(r, init);
      KeysConcat(r, Lift(init));
      LiftKeys(init);
      PutNew(r + Lift(init), e.0, Some(e.1));
      LiftSnoc(init, e);
    }
  }

  /** Lifting a record with one more entry last. */
  lemma {:induction false} LiftSnoc(a: Record<string>, e: (string, string))
    ensures Lift(a + [e]) == Lift(a) + [(e.0, Some(e.1))]
  {
    if a != [] {
      assert (a + [e])[1..] == a[1..] + [e];
      LiftSnoc(a[1..], e);
      assert Lift(a + [e]) == [(a[0].0, Some(a[0].1))] + (Lift(a[1..]) + [(e.0, Some(e.1))]);
    } else {
      assert a + [e] == [e];
    }
  }

  /** A name of a record whose entries all have non-reserved names is not reserved. */
  lemma NoReservedKey(a: Record<string>, k: string)
    requires forall i :: 0 <= i < |a| ==> !Reserved(a[i].0)
    requires k in Keys(a)
    ensures !Reserved(k)
  {
    var i := IndexOfKey(a, k);
  }

  /** The written export row of an item with distinct, non-reserved attribute names: its three cells, then the attributes. */
  lemma ExportRowCsv(item: DatasetItem)
    requires item.attributes.Some? && UniqueKeys(item.attributes.value)
    requires forall i :: 0 <= i < |item.attributes.value| ==> !Reserved(item.attributes.value[i].0)
    ensures CsvCells(ExportRow(item))
         == [("id", item.id), ("title", item.title), ("imageUrl", item.imageUrl.GetOr(""))] + item.attributes.value
  {
    var a := item.attributes.value;
    KeysOfThree(OwnCells(item));
    forall k | k in Keys(a)
      ensures k !in Keys(OwnCells(item))
    {
      NoReservedKey(a, k);
    }
    SpreadNew(OwnCells(item), a);
    CsvCellsConcat(OwnCells(item), Lift(a));
    CsvCellsLift(a);
    CsvCellsOfThree(OwnCells(item));
  }

  /** Writing a three-cell row. */
  lemma CsvCellsOfThree(r: ExportRowCells)
    requires |r| == 3
    ensures CsvCells(r) == [(r[0].0, r[0].1.GetOr("")), (r[1].0, r[1].1.GetOr("")), (r[2].0, r[2].1.GetOr(""))]
  {
    assert r[1..][1..][1..] == [];
    assert CsvCells(r[1..][1..]) == [(r[2].0, r[2].1.GetOr(""))];
    assert CsvCells(r[1..]) == [(r[1].0, r[1].1.GetOr("")), (r[2].0, r[2].1.GetOr(""))];
  }

  /** Importing three own cells followed by non-reserved attribute cells. */
  lemma ImportOwnCells(id: string, title: string, imageUrl: string, a: Row, freshId: string)
    requires id != ""
    requires forall i :: 0 <= i < |a| ==> !Reserved(a[i].0)
    ensures ImportRow([("id", id), ("title", title), ("imageUrl", imageUrl)] + a, freshId)
         == DatasetItem(id, title, if imageUrl != "" then Some(imageUrl) else None, Some(a))
  {
    var row := [("id", id), ("title", title), ("imageUrl", imageUrl)] + a;
    assert row == [("id", id)] + ([("title", title)] + ([("imageUrl", imageUrl)] + a));
    AttributesCons(("id", id), [("title", title)] + ([("imageUrl", imageUrl)] + a));
    AttributesCons(("title", title), [("imageUrl", imageUrl)] + a);
    AttributesCons(("imageUrl", imageUrl), a);
    FilterKeepsAll(a, (e: (string, string)) => !Reserved(e.0));
    assert Attributes(row) == a;
    assert row[1..] == [("title", title)] + ([("imageUrl", imageUrl)] + a);
    assert row[1..][1..] == [("imageUrl", imageUrl)] + a;
    assert Get(row, "id") == Some(id);
    assert Get(row, "title") == Get(row[1..], "title") == Some(title);
    assert Get(row, "imageUrl") == Get(row[1..][1..], "imageUrl") == Some(imageUrl);
  }

  /**
   * Round trip: an item with a non-empty id, no empty image URL, and an
   * attribute record of distinct, non-reserved names comes back unchanged
   * from importing the row it exports.
   */
  lemma ExportImportRoundTrip(item: DatasetItem, freshId: string)
    requires item.id != "" && item.imageUrl != Some("")
    requires item.attributes.Some? && UniqueKeys(item.attributes.value)
    requires forall i :: 0 <= i < |item.attributes.value| ==> !Reserved(item.attributes.value[i].0)
    ensures ImportRow(CsvCells(ExportRow(item)), freshId) == item
  {
    ExportRowCsv(item);
    ImportOwnCells(item.id, item.title, item.imageUrl.GetOr(""), item.attributes.value, freshId);
  }

  /** `defaultTiers()`. */
  function DefaultTiers(): seq<Tier> {
    [Tier("S", "S", "#f59e0b"), Tier("A", "A", "#84cc16"), Tier("B", "B", "#22c55e"),
     Tier("C", "C", "#06b6d4"), Tier("D", "D", "#6366f1")]
  }

  /** Five tiers with distinct ids S, A, B, C, D, in that order, each labelled by its id. */
  lemma DefaultTiersFacts()
    ensures |DefaultTiers()| == 5
    ensures forall i :: 0 <= i < 5 ==> DefaultTiers()[i].id == ["S", "A", "B", "C", "D"][i]
    ensures forall i :: 0 <= i < 5 ==> DefaultTiers()[i].labelText == DefaultTiers()[i].id
    ensures forall i, j :: 0 <= i < j < 5 ==> DefaultTiers()[i].id != DefaultTiers()[j].id
  {
  }
}
