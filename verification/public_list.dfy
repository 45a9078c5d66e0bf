/**
 * The card-title shortening of the public template list (src/pages/Public.tsx):
 * `truncate(text, max)`, with JavaScript's `length` and `slice` on UTF-16
 * code units, one `char` per code unit.
 */
module PublicList {
  /** The ellipsis appended to a shortened title, one code unit. */
  const Ellipsis: char := '…'

  /** The default `max` of the page. */
  const DefaultMax := 28

  /**
   * Where `text.slice(0, end)` stops: a negative end counts back from the
   * length (not below 0), any other end is capped at the length.
   */
  function SliceEnd(len: nat, end: int): (e: nat)
    ensures e <= len
    ensures end >= 0 ==> e == if end <= len then end else len
    ensures end < 0 ==> e == if len + end >= 0 then len + end else 0
  {
    if end < 0 then (if len + end >= 0 then len + end else 0)
    else if end <= len then end
    else len
  }

  /** `truncate(text, max)`. */
  function Truncate(text: string, max: int): string {
    if |text| > max then text[..SliceEnd(|text|, max - 1)] + [Ellipsis] else text
  }

  /** A text no longer than `max` is returned as it is. */
  lemma TruncateShort(text: string, max: int)
    requires |text| <= max
    ensures Truncate(text, max) == text
  {
  }

  /**
   * A longer text, for a positive `max`, becomes exactly `max` characters:
   * its first `max - 1` characters and the ellipsis.
   */
  lemma TruncateLong(text: string, max: int)
    requires max >= 1 && |text| > max
    ensures var r := Truncate(text, max);
      |r| == max && r[..max - 1] == text[..max - 1] && r[max - 1] == Ellipsis
  {
  }

  /** For a positive `max` the result never exceeds `max` characters and starts like the text. */
  lemma TruncateBound(text: string, max: int)
    requires max >= 1
    ensures |Truncate(text, max)| <= max
    ensures Truncate(text, max) == text || Truncate(text, max)[..max - 1] == text[..max - 1]
  {
    if |text| > max {
      TruncateLong(text, max);
    }
  }

  /**
   * Shortening twice is shortening once, for every `max` from 0 up (with
   * `max` 0 the slice end -1 counts back one from the length, so the result
   * keeps the length and the last character becomes the ellipsis).
   */
  lemma {:induction false} TruncateIdempotent(text: string, max: int)
    requires max >= 0
    ensures Truncate(Truncate(text, max), max) == Truncate(text, max)
  {
    var r := Truncate(text, max);
    if |text| > max {
      if max >= 1 {
        TruncateLong(text, max);
      } else {
        assert |r| == |text|;
        assert r[..|r| - 1] == text[..|text| - 1];
      }
    }
  }

  /** A negative `max` is where idempotence ends: the slice end counts back again on the second call. */
  lemma NegativeMaxShortensAgain()
    ensures Truncate("abcd", -1) == "ab" + [Ellipsis]
    ensures Truncate(Truncate("abcd", -1), -1) == "a" + [Ellipsis]
  {
    assert "abcd"[..2] == "ab";
    assert ("ab" + [Ellipsis])[..1] == "a";
  }

  /** The page's own call: a card title is at most 28 characters, and shortening it again changes nothing. */
  lemma CardTitle(text: string)
    ensures |Truncate(text, DefaultMax)| <= DefaultMax
    ensures Truncate(Truncate(text, DefaultMax), DefaultMax) == Truncate(text, DefaultMax)
  {
    TruncateBound(text, DefaultMax);
    TruncateIdempotent(text, DefaultMax);
  }
}
