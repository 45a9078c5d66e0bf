/**
 * The template list kept under one key of the browser's key-value storage
 * (src/storage.ts): the defensive `read`, `saveTemplate`, `listTemplates`
 * and `getTemplate`.  JSON is a parameter of the model.
 */
module Storage {
  import opened Wrappers
  import opened Types

  /** A saved template; `createdAt` is `Date.now()` at saving. */
  datatype Template = Template(id: string, name: string, items: seq<MediaItem>, createdAt: int)

  /** What `listTemplates` reports of a template. */
  datatype Summary = Summary(id: string, name: string, createdAt: int)

  /** What `JSON.parse` makes of the stored text: an exception, a value that is no array, or an array. */
  datatype Parsed = ParseError | NotArray | Array(templates: seq<Template>)

  /** `JSON.stringify` and `JSON.parse` on template lists. */
  datatype Json = Json(stringify: seq<Template> -> string, parse: string -> Parsed)

  /** Parsing gives back what was stringified, and a stringified list is never empty text. */
  ghost predicate Inverse(j: Json) {
    forall l :: j.parse(j.stringify(l)) == Array(l) && j.stringify(l) != ""
  }

  /** The storage key of the list. */
  const Key := "tierworks:templates"

  /** `read()` over the stored entries: the list, or nothing when it is missing, empty, unparsable or no array. */
  function ReadList(entries: map<string, string>, j: Json): seq<Template> {
    if Key !in entries || entries[Key] == "" then []
    else
      match j.parse(entries[Key])
      case Array(l) => l
      case _ => []
  }

  /** `read()` yields nothing for a missing key or unusable text, and the stored list otherwise. */
  lemma ReadListCases(entries: map<string, string>, j: Json)
    ensures Key !in entries ==> ReadList(entries, j) == []
    ensures Key in entries && entries[Key] != "" && j.parse(entries[Key]) in {ParseError, NotArray}
      ==> ReadList(entries, j) == []
    ensures Key in entries && entries[Key] != "" && j.parse(entries[Key]).Array?
      ==> ReadList(entries, j) == j.parse(entries[Key]).templates
  {
  }

  /** `listTemplates()`: id, name and creation time of each stored template, in order. */
  function Summaries(l: seq<Template>): seq<Summary> {
    seq(|l|, k requires 0 <= k < |l| => Summary(l[k].id, l[k].name, l[k].createdAt))
  }

  /** One summary per template, in the same order, each naming its template. */
  lemma SummariesFacts(l: seq<Template>)
    ensures |Summaries(l)| == |l|
    ensures forall k :: 0 <= k < |l| ==>
      Summaries(l)[k].id == l[k].id && Summaries(l)[k].name == l[k].name && Summaries(l)[k].createdAt == l[k].createdAt
  {
  }

  /** `read().find(t => t.id === id)`. */
  function Find(l: seq<Template>, id: string): (r: Option<Template>)
    ensures r.None? <==> forall k :: 0 <= k < |l| ==> l[k].id != id
    ensures r.Some? ==> exists k :: 0 <= k < |l| && l[k] == r.value && r.value.id == id
                                   && forall j :: 0 <= j < k ==> l[j].id != id
  {
    if l == [] then None
    else if l[0].id == id then Some(l[0])
    else
      var r := Find(l[1..], id);
      assert r.Some? ==> exists k :: 0 <= k < |l[1..]| && l[1..][k] == r.value && forall j :: 0 <= j < k ==> l[1..][j].id != id;
      if r.Some? then
        var k :| 0 <= k < |l[1..]| && l[1..][k] == r.value && forall j :: 0 <= j < k ==> l[1..][j].id != id;
        assert l[k + 1] == r.value;
        r
      else r
  }

  /** A template appended after every template without its id is what a search for that id finds. */
  lemma FindAppended(l: seq<Template>, t: Template)
    requires forall k :: 0 <= k < |l| ==> l[k].id != t.id
    ensures Find(l + [t], t.id) == Some(t)
  {
    assert (l + [t])[|l|] == t;
    assert forall k :: 0 <= k < |l| ==> (l + [t])[k] == l[k];
  }

  /** The browser's key-value storage. */
  class LocalStorage {
    var entries: map<string, string>

    constructor (initial: map<string, string>)
      ensures entries == initial
    {
      entries := initial;
    }

    /** `read()`. */
    function Read(j: Json): seq<Template>
      reads this
    {
      ReadList(entries, j)
    }

    /**
     * `saveTemplate(name, items)` with the fresh id `id` and the time `now`:
     * the list read back gains the template last and is written under the
     * key; the id is returned and no other key changes.
     */
    method SaveTemplate(j: Json, name: string, items: seq<MediaItem>, id: string, now: int) returns (r: string)
      modifies this
      ensures r == id
      ensures entries == old(entries)[Key := j.stringify(old(Read(j)) + [Template(id, name, items, now)])]
    {
      var list := ReadList(entries, j);
      list := list + [Template(id, name, items, now)];
      entries := entries[Key := j.stringify(list)];
      r := id;
    }

    /** `listTemplates()`. */
    function ListTemplates(j: Json): seq<Summary>
      reads this
    {
      Summaries(Read(j))
    }

    /** `getTemplate(id)`. */
    function GetTemplate(j: Json, id: string): Option<Template>
      reads this
    {
      Find(Read(j), id)
    }
  }

  /** The list under the key after saving: the earlier list with the new template last. */
  lemma ReadAfterSave(entries: map<string, string>, j: Json, t: Template)
    requires Inverse(j)
    ensures ReadList(entries[Key := j.stringify(ReadList(entries, j) + [t])], j) == ReadList(entries, j) + [t]
  {
    var l := ReadList(entries, j) + [t];
    assert j.parse(j.stringify(l)) == Array(l) && j.stringify(l) != "";
  }

  /** Summarising a list with one more template last gives that template's summary last. */
  lemma SummariesSnoc(l: seq<Template>, t: Template)
    ensures Summaries(l + [t]) == Summaries(l) + [Summary(t.id, t.name, t.createdAt)]
  {
    SummariesFacts(l + [t]);
    SummariesFacts(l);
    assert (l + [t])[|l|] == t;
    forall k | 0 <= k < |l|
      ensures Summaries(l + [t])[k] == Summaries(l)[k]
    {
      assert (l + [t])[k] == l[k];
    }
  }

  /**
   * After saving, `listTemplates()` reports what it reported before, with the
   * new template's id, name and creation time last.
   */
  lemma ListAfterSave(entries: map<string, string>, j: Json, name: string, items: seq<MediaItem>, id: string, now: int)
    requires Inverse(j)
    ensures var t := Template(id, name, items, now);
      Summaries(ReadList(entries[Key := j.stringify(ReadList(entries, j) + [t])], j))
        == Summaries(ReadList(entries, j)) + [Summary(id, name, now)]
  {
    var t := Template(id, name, items, now);
    ReadAfterSave(entries, j, t);
    SummariesSnoc(ReadList(entries, j), t);
  }

  /** After saving under a fresh id, getting that id gives the saved name and items. */
  lemma GetAfterSave(entries: map<string, string>, j: Json, name: string, items: seq<MediaItem>, id: string, now: int)
    requires Inverse(j)
    requires forall k :: 0 <= k < |ReadList(entries, j)| ==> ReadList(entries, j)[k].id != id
    ensures var t := Template(id, name, items, now);
      Find(ReadList(entries[Key := j.stringify(ReadList(entries, j) + [t])], j), id) == Some(t)
  {
    var t := Template(id, name, items, now);
    ReadAfterSave(entries, j, t);
    FindAppended(ReadList(entries, j), t);
  }
}
