/**
 * Share links (src/lib/share.ts): the payload `buildShareUrl` packs into the
 * `s` query parameter, and the dataset `loadSharedDataset` rebuilds from it.
 * Compression (lz-string) and JSON are parameters of the model.
 */
module Share {
  import opened Wrappers
  import opened Records
  import opened Types

  /** What a share link carries: title, items, tiers and, when the dataset has them, placements. */
  datatype SharePayload = SharePayload(t: string, i: seq<DatasetItem>, r: seq<Tier>, p: Option<Record<string>>)

  /** The fields of a parsed object; `None` is a missing (or null) field. */
  datatype ParsedFields = ParsedFields(t: Option<string>, i: Option<seq<DatasetItem>>,
                                       r: Option<seq<Tier>>, p: Option<Record<string>>)

  /**
   * What `JSON.parse` gives: an exception, `null`, an object, or any other
   * value (a number, string, boolean or array), on which every field reads
   * as undefined.
   */
  datatype Parsed = ParseError | Null | Object(fields: ParsedFields) | OtherValue

  /** The foreign code the two functions call. */
  datatype Codec = Codec(compress: string -> string, decompress: string -> Option<string>,
                         stringify: SharePayload -> string, parse: string -> Parsed)

  /**
   * The properties of the foreign code a round trip relies on: decompressing
   * undoes compressing, only the empty text compresses to the empty text,
   * the empty text does not parse, and parsing a stringified payload gives
   * back its fields.
   */
  ghost predicate Inverse(c: Codec) {
    && (forall x :: c.decompress(c.compress(x)) == Some(x))
    && (forall x :: x != "" ==> c.compress(x) != "")
    && c.parse("") == ParseError
    && (forall p :: c.parse(c.stringify(p)) == Object(ParsedFields(Some(p.t), Some(p.i), Some(p.r), p.p)))
  }

  /** `buildShareUrl`'s payload: the dataset's title, items, tiers and placements. */
  function PayloadOf(d: Dataset): (p: SharePayload)
    ensures p.t == d.title && p.i == d.items && p.r == d.tiers && p.p == d.placements
  {
    SharePayload(d.title, d.items, d.tiers, d.placements)
  }

  /** The value of the `s` parameter of `buildShareUrl(d)`. */
  function ShareParam(c: Codec, d: Dataset): string {
    c.compress(c.stringify(PayloadOf(d)))
  }

  /** The title default: a missing or empty title becomes "Shared dataset". */
  function TitleOr(t: Option<string>): string {
    if t.Some? && t.value != "" then t.value else "Shared dataset"
  }

  /** The dataset built from parsed fields, with a fresh id and the current time. */
  function FromFields(f: ParsedFields, id: string, now: string): Dataset {
    Dataset(id, "shared", TitleOr(f.t), Some(""), f.i.GetOr([]), f.r.GetOr([]), Some(f.p.GetOr([])),
            now, now, false)
  }

  /**
   * `loadSharedDataset()`, given the `s` parameter of the current URL, a
   * fresh id and the current time: `None` where the source returns null.
   */
  function LoadShared(c: Codec, s: Option<string>, id: string, now: string): Option<Dataset> {
    if s.None? || s.value == "" then None
    else
      var json := c.decompress(s.value);
      if json.None? || json.value == "" then None
      else
        match c.parse(json.value)
        case ParseError => None
        case Null => None
        case Object(f) => Some(FromFields(f, id, now))
        case OtherValue => Some(FromFields(ParsedFields(None, None, None, None), id, now))
  }

  /**
   * No dataset without an `s` parameter, without a decompressed text, or
   * when the text does not parse or parses to null.
   */
  lemma LoadSharedNull(c: Codec, s: Option<string>, id: string, now: string)
    ensures s.None? || s == Some("") ==> LoadShared(c, s, id, now).None?
    ensures s.Some? && s.value != "" && (c.decompress(s.value).None? || c.decompress(s.value) == Some(""))
      ==> LoadShared(c, s, id, now).None?
    ensures s.Some? && s.value != "" && c.decompress(s.value).Some? && c.decompress(s.value).value != ""
      && (c.parse(c.decompress(s.value).value) == ParseError || c.parse(c.decompress(s.value).value) == Null)
      ==> LoadShared(c, s, id, now).None?
  {
  }

  /**
   * Every loaded dataset is owned by "shared", unpublished, created and
   * updated at the same moment, has the fresh id and an empty description,
   * and has a placement record.
   */
  lemma LoadSharedShape(c: Codec, s: Option<string>, id: string, now: string)
    requires LoadShared(c, s, id, now).Some?
    ensures var d := LoadShared(c, s, id, now).value;
      && d.ownerId == "shared" && !d.isPublished && d.createdAt == d.updatedAt == now
      && d.id == id && d.description == Some("") && d.placements.Some?
  {
  }

  /** Missing fields take their defaults: "Shared dataset", no items, no tiers, no placements. */
  lemma MissingFieldsDefault(c: Codec, s: Option<string>, id: string, now: string)
    requires s.Some? && s.value != ""
    requires c.decompress(s.value).Some? && c.decompress(s.value).value != ""
    requires c.parse(c.decompress(s.value).value) in {Object(ParsedFields(None, None, None, None)), OtherValue}
    ensures LoadShared(c, s, id, now).Some?
    ensures var d := LoadShared(c, s, id, now).value;
      d.title == "Shared dataset" && d.items == [] && d.tiers == [] && d.placements == Some([])
  {
  }

  /**
   * Round trip: loading the parameter `buildShareUrl` made gives back the
   * items, tiers and placements (none become an empty record) of the
   * dataset, and its title unless that was empty.
   */
  lemma ShareRoundTrip(c: Codec, d: Dataset, id: string, now: string)
    requires Inverse(c)
    ensures LoadShared(c, Some(ShareParam(c, d)), id, now)
         == Some(Dataset(id, "shared", if d.title != "" then d.title else "Shared dataset", Some(""),
                         d.items, d.tiers, Some(d.placements.GetOr([])), now, now, false))
  {
    var json := c.stringify(PayloadOf(d));
    assert c.parse(json) == Object(ParsedFields(Some(d.title), Some(d.items), Some(d.tiers), d.placements));
    assert json != "";
    assert c.decompress(c.compress(json)) == Some(json);
    assert ShareParam(c, d) != "";
  }
}
