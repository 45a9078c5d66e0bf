/**
 * The image upload panel (src/components/UploadPanel.tsx): the item name
 * derived from a file name by `name.replace(/\.[^.]+$/, '')`, and
 * `onSelectFiles`, which turns the chosen files into panel items and hands
 * them to the `onItems` callback.
 */
module Upload {
  import opened Wrappers

  /** The last position of a '.' in `s`, if any. */
  function LastDot(s: string): (r: Option<nat>)
    ensures r.None? ==> forall j :: 0 <= j < |s| ==> s[j] != '.'
    ensures r.Some? ==> r.value < |s| && s[r.value] == '.' && forall j :: r.value < j < |s| ==> s[j] != '.'
  {
    if s == [] then None
    else if s[|s| - 1] == '.' then Some(|s| - 1)
    else LastDot(s[..|s| - 1])
  }

  /**
   * The regular expression `\.[^.]+$` matches at `i`: a dot there, then one
   * or more characters that are no dot, up to the end of the name.
   */
  ghost predicate ExtensionAt(s: string, i: int) {
    0 <= i < |s| - 1 && s[i] == '.' && forall j :: i < j < |s| ==> s[j] != '.'
  }

  /** The name without its extension: the text before the last dot, unless nothing follows that dot. */
  function StripExtension(s: string): string {
    match LastDot(s)
    case None => s
    case Some(i) => if i == |s| - 1 then s else s[..i]
  }

  /** Where the expression matches, the name is the text before the match. */
  lemma StripMatch(s: string, i: int)
    requires ExtensionAt(s, i)
    ensures StripExtension(s) == s[..i]
  {
    var d := LastDot(s);
    assert s[i] == '.';
  }

  /** Where the expression matches nowhere, the name is the file name itself. */
  lemma StripNoMatch(s: string)
    requires forall i :: !ExtensionAt(s, i)
    ensures StripExtension(s) == s
  {
    var d := LastDot(s);
    if d.Some? && d.value != |s| - 1 {
      assert ExtensionAt(s, d.value);
    }
  }

  /** A name with no dot, or ending in one, is kept. */
  lemma StripKeeps(s: string)
    requires (forall j :: 0 <= j < |s| ==> s[j] != '.') || (|s| > 0 && s[|s| - 1] == '.')
    ensures StripExtension(s) == s
  {
    forall i
      ensures !ExtensionAt(s, i)
    {
      if 0 <= i < |s| - 1 && s[i] == '.' {
        assert s[|s| - 1] == '.';
      }
    }
    StripNoMatch(s);
  }

  /** The derived name is always a prefix of the file name. */
  lemma StripPrefix(s: string)
    ensures StripExtension(s) <= s
  {
  }

  /** A panel item: the generated id, the object URL of the file, and the derived name. */
  datatype UploadItem = UploadItem(id: string, url: string, name: string)

  /** What `onItems` is given for an item. */
  datatype NewItem = NewItem(id: string, title: string, imageUrl: string)

  /** The items made for the chosen files, given the generated ids and the object URLs, file by file. */
  function Uploads(names: seq<string>, urls: seq<string>, ids: seq<string>): seq<UploadItem>
    requires |urls| == |names| && |ids| == |names|
  {
    seq(|names|, k requires 0 <= k < |names| => UploadItem(ids[k], urls[k], StripExtension(names[k])))
  }

  /** `next.map(i => ({ id: i.id, title: i.name, imageUrl: i.url }))`. */
  function Offered(next: seq<UploadItem>): seq<NewItem> {
    seq(|next|, k requires 0 <= k < |next| => NewItem(next[k].id, next[k].name, next[k].url))
  }

  /**
   * One item per file, in file order, each with its id, its URL and the name
   * stripped of its extension; the callback gets the same ids, the name as
   * title and the URL as image.
   */
  lemma UploadsFacts(names: seq<string>, urls: seq<string>, ids: seq<string>)
    requires |urls| == |names| && |ids| == |names|
    ensures var next := Uploads(names, urls, ids);
      && |next| == |names| && |Offered(next)| == |names|
      && (forall k :: 0 <= k < |names| ==>
            next[k].id == ids[k] && next[k].url == urls[k] && next[k].name <= names[k])
      && (forall k :: 0 <= k < |names| ==>
            Offered(next)[k] == NewItem(ids[k], StripExtension(names[k]), urls[k]))
  {
    var next := Uploads(names, urls, ids);
    forall k | 0 <= k < |names|
      ensures next[k].name <= names[k]
    {
      StripPrefix(names[k]);
    }
  }

  /** The panel: the items uploaded so far. */
  class UploadPanel {
    var items: seq<UploadItem>

    constructor ()
      ensures items == []
    {
      items := [];
    }

    /**
     * `onSelectFiles(files)`, given the file names, the object URL made for
     * each file and the id generated for each: nothing happens without a
     * file list; otherwise the new items are appended after the existing
     * ones and handed to `onItems`.
     */
    method OnSelectFiles(files: Option<seq<string>>, urls: seq<string>, ids: seq<string>)
      returns (offered: Option<seq<NewItem>>)
      requires files.Some? ==> |urls| == |files.value| && |ids| == |files.value|
      modifies this`items
      ensures files.None? ==> items == old(items) && offered.None?
      ensures files.Some? ==> (items == old(items) + Uploads(files.value, urls, ids)
                               && offered == Some(Offered(Uploads(files.value, urls, ids))))
    {
      if files.None? {
        return None;
      }
      var names := files.value;
      var next: seq<UploadItem> := [];
      var k := 0;
      while k < |names|
        invariant 0 <= k <= |names|
        invariant |next| == k
        invariant forall j :: 0 <= j < k ==> next[j] == UploadItem(ids[j], urls[j], StripExtension(names[j]))
      {
        next := next + [UploadItem(ids[k], urls[k], StripExtension(names[k]))];
        k := k + 1;
      }
      assert next == Uploads(names, urls, ids);
      items := items + next;
      offered := Some(Offered(next));
    }
  }
}
