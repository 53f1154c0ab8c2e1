/**
 * The zod checks the form schemas are made of: `z.string().trim().min(lo).max(hi)` (the
 * length of the string after `String.prototype.trim`), `z.string().min(lo)` on the raw
 * length, and `z.number().min(lo).max(hi)`.
 */
module Zod {
  import opened JsText

  /** zod's `min`/`max` on a string compare its `.length`, in UTF-16 code units. */
  predicate LengthBetween(s: string, lo: int, hi: int) {
    lo <= Utf16Length(s) <= hi
  }

  predicate TrimmedBetween(s: string, lo: int, hi: int) {
    LengthBetween(Trim(s), lo, hi)
  }

  predicate NumberBetween(x: real, lo: real, hi: real) {
    lo <= x <= hi
  }

  /** White space around a value never changes whether a trimmed check accepts it. */
  lemma PaddingIrrelevant(pre: string, s: string, post: string, lo: int, hi: int)
    requires AllWhitespace(pre) && AllWhitespace(post)
    ensures TrimmedBetween(pre + s + post, lo, hi) <==> TrimmedBetween(s, lo, hi)
  {
    TrimIgnoresPadding(pre, s, post);
  }

  /** A value made only of white space trims to nothing, so a trimmed check with a positive minimum rejects it. */
  lemma BlankRejected(s: string, lo: int, hi: int)
    requires AllWhitespace(s) && lo >= 1
    ensures Trim(s) == []
    ensures !TrimmedBetween(s, lo, hi)
  {
    TrimIgnoresPadding(s, "", "");
    assert s + "" + "" == s;
  }

  /** The trimmed value has no white space at either end. */
  lemma TrimmedHasNoPadding(s: string)
    ensures Trim(s) == [] || (!IsWhitespace(Trim(s)[0]) && !IsWhitespace(Trim(s)[|Trim(s)| - 1]))
  {
    var t := TrimStart(s);
    var r := TrimEnd(t);
    TrimStartShape(s);
    TrimEndShape(t);
    if r != [] {
      assert r == t[..|r|];
      assert r[0] == t[0];
    }
  }
}
