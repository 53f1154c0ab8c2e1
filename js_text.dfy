/**
 * The JavaScript string operations the application relies on, written out:
 * `trim`, ASCII `toLowerCase`/`toUpperCase`, `includes`, `startsWith`,
 * `split(" ")`/`join`, `padStart(2, "0")`, the decimal rendering of integers
 * and `parseInt` (ECMA-262, section 19.2.5, with an undefined radix).
 */
module JsText {
  import opened Wrappers

  /** How many UTF-16 code units encode `c`: two for a code point outside the Basic Multilingual Plane. */
  function CodeUnits(c: char): nat {
    if c as int < 0x10000 then 1 else 2
  }

  /**
   * `s.length`: JavaScript counts UTF-16 code units, so each character outside the Basic
   * Multilingual Plane counts twice.
   */
  function Utf16Length(s: string): (n: nat)
    ensures |s| <= n <= 2 * |s|
    ensures (forall k :: 0 <= k < |s| ==> s[k] as int < 0x10000) ==> n == |s|
  {
    if s == [] then 0 else CodeUnits(s[0]) + Utf16Length(s[1..])
  }

  /** The length is zero exactly for the empty string. */
  lemma Utf16LengthZero(s: string)
    ensures Utf16Length(s) == 0 <==> s == []
  {
  }

  /** WhiteSpace and LineTerminator code points (ECMA-262, sections 12.2 and 12.3). */
  predicate IsWhitespace(c: char) {
    c == '\t' || c == '\U{000B}' || c == '\U{000C}' || c == ' ' || c == '\U{00A0}' || c == '\U{FEFF}'
    || c == '\n' || c == '\r' || c == '\U{2028}' || c == '\U{2029}'
    || c == '\U{1680}' || ('\U{2000}' <= c <= '\U{200A}') || c == '\U{202F}' || c == '\U{205F}' || c == '\U{3000}'
  }

  predicate AllWhitespace(s: string) {
    forall k :: 0 <= k < |s| ==> IsWhitespace(s[k])
  }

  /** `String.prototype.trimStart`: the suffix left after dropping leading whitespace. */
  function TrimStart(s: string): string {
    if s != [] && IsWhitespace(s[0]) then TrimStart(s[1..]) else s
  }

  /** `trimStart` removes a run of leading white space and stops at the first other character. */
  lemma {:induction false} TrimStartShape(s: string)
    ensures |TrimStart(s)| <= |s| && TrimStart(s) == s[|s| - |TrimStart(s)|..]
    ensures AllWhitespace(s[..|s| - |TrimStart(s)|])
    ensures TrimStart(s) == [] || !IsWhitespace(TrimStart(s)[0])
  {
    if s != [] && IsWhitespace(s[0]) {
      TrimStartShape(s[1..]);
      var n := |s| - |TrimStart(s)|;
      assert s[..n] == [s[0]] + s[1..][..n - 1];
    }
  }

  /** `String.prototype.trimEnd`: the prefix left after dropping trailing whitespace. */
  function TrimEnd(s: string): string {
    if s != [] && IsWhitespace(s[|s| - 1]) then TrimEnd(s[..|s| - 1]) else s
  }

  /** `trimEnd` removes a run of trailing white space and stops at the last other character. */
  lemma {:induction false} TrimEndShape(s: string)
    ensures |TrimEnd(s)| <= |s| && TrimEnd(s) == s[..|TrimEnd(s)|]
    ensures AllWhitespace(s[|TrimEnd(s)|..])
    ensures TrimEnd(s) == [] || !IsWhitespace(TrimEnd(s)[|TrimEnd(s)| - 1])
  {
    if s != [] && IsWhitespace(s[|s| - 1]) {
      var p := s[..|s| - 1];
      TrimEndShape(p);
      var n := |TrimEnd(s)|;
      assert s[n..] == p[n..] + [s[|s| - 1]];
    }
  }

  /** `String.prototype.trim`, which zod's `.trim()` applies before length checks. */
  function Trim(s: string): string {
    TrimEnd(TrimStart(s))
  }

  /** Trimming removes exactly the surrounding whitespace: whatever is padded around `s` is dropped again. */
  lemma {:induction false} TrimIgnoresPadding(pre: string, s: string, post: string)
    requires AllWhitespace(pre) && AllWhitespace(post)
    ensures Trim(pre + s + post) == Trim(s)
  {
    var whole := pre + s + post;
    assert whole == pre + (s + post);
    TrimStartPadding(pre, s + post);
    assert TrimStart(whole) == TrimStart(s + post);
    var t := TrimStart(s);
    TrimStartAppend(s, post);
    if t == [] {
      assert TrimStart(whole) == [];
    } else {
      assert TrimStart(whole) == t + post;
      TrimEndPadding(t, post);
    }
  }

  /** Trimming twice is trimming once. */
  lemma TrimIdempotent(s: string)
    ensures Trim(Trim(s)) == Trim(s)
  {
    TrimStartShape(s);
    var u := TrimStart(s);
    var i := |s| - |u|;
    TrimEndShape(u);
    var j := |TrimEnd(u)|;
    assert u == u[..j] + u[j..];
    assert s == s[..i] + u[..j] + u[j..];
    TrimIgnoresPadding(s[..i], Trim(s), u[j..]);
  }

  lemma {:induction false} TrimStartPadding(pre: string, s: string)
    requires AllWhitespace(pre)
    ensures TrimStart(pre + s) == TrimStart(s)
  {
    if pre != [] {
      assert (pre + s)[0] == pre[0];
      assert (pre + s)[1..] == pre[1..] + s;
      assert AllWhitespace(pre[1..]) by {
        forall k | 0 <= k < |pre[1..]| ensures IsWhitespace(pre[1..][k]) {
          assert pre[1..][k] == pre[k + 1];
        }
      }
      TrimStartPadding(pre[1..], s);
      assert IsWhitespace((pre + s)[0]);
      assert TrimStart(pre + s) == TrimStart((pre + s)[1..]);
    } else {
      assert pre + s == s;
    }
  }

  lemma {:induction false} TrimStartAppend(s: string, post: string)
    requires AllWhitespace(post)
    ensures TrimStart(s + post) == if TrimStart(s) == [] then [] else TrimStart(s) + post
  {
    if s == [] {
      assert s + post == post;
      TrimStartPadding(post, "");
      assert post + "" == post;
    } else if IsWhitespace(s[0]) {
      assert (s + post)[1..] == s[1..] + post;
      TrimStartAppend(s[1..], post);
    }
  }

  lemma {:induction false} TrimEndPadding(t: string, post: string)
    requires AllWhitespace(post)
    ensures TrimEnd(t + post) == TrimEnd(t)
  {
    if post != [] {
      var p := post[..|post| - 1];
      assert (t + post)[..|t + post| - 1] == t + p;
      TrimEndPadding(t, p);
    } else {
      assert t + post == t;
    }
  }

  /** Upper-case ASCII letters become lower case; every other character is kept (ASCII model of `toLowerCase`). */
  function LowerChar(c: char): char {
    if 'A' <= c <= 'Z' then (c as int + 32) as char else c
  }

  function UpperChar(c: char): char {
    if 'a' <= c <= 'z' then (c as int - 32) as char else c
  }

  function ToLower(s: string): (r: string)
    ensures |r| == |s| && forall k :: 0 <= k < |s| ==> r[k] == LowerChar(s[k])
  {
    if s == [] then [] else [LowerChar(s[0])] + ToLower(s[1..])
  }

  function ToUpper(s: string): (r: string)
    ensures |r| == |s| && forall k :: 0 <= k < |s| ==> r[k] == UpperChar(s[k])
  {
    if s == [] then [] else [UpperChar(s[0])] + ToUpper(s[1..])
  }

  /** `hay.includes(needle)`: `needle` occurs in `hay` at some position. */
  predicate Includes(hay: string, needle: string) {
    needle <= hay || (hay != [] && Includes(hay[1..], needle))
  }

  /** `needle` occurs in `hay` starting at offset `i`. */
  predicate OccursAt(hay: string, needle: string, i: int) {
    0 <= i <= |hay| - |needle| && hay[i..i + |needle|] == needle
  }

  /** `Includes` holds exactly when the needle occurs at some offset. */
  lemma IncludesAt(hay: string, needle: string)
    ensures Includes(hay, needle) <==> exists i :: OccursAt(hay, needle, i)
  {
    if Includes(hay, needle) {
      var i := IncludesWitness(hay, needle);
    }
    if exists i :: OccursAt(hay, needle, i) {
      var i :| OccursAt(hay, needle, i);
      OccursIncludes(hay, needle, i);
    }
  }

  lemma {:induction false} IncludesWitness(hay: string, needle: string) returns (i: int)
    requires Includes(hay, needle)
    ensures OccursAt(hay, needle, i)
  {
    if needle <= hay {
      i := 0;
    } else {
      var j := IncludesWitness(hay[1..], needle);
      assert hay[1..][j..j + |needle|] == hay[j + 1..j + 1 + |needle|];
      i := j + 1;
    }
  }

  lemma {:induction false} OccursIncludes(hay: string, needle: string, i: int)
    requires OccursAt(hay, needle, i)
    ensures Includes(hay, needle)
    decreases i
  {
    if i == 0 {
      assert needle <= hay;
    } else {
      assert hay[1..][i - 1..i - 1 + |needle|] == hay[i..i + |needle|];
      OccursIncludes(hay[1..], needle, i - 1);
    }
  }

  /** The empty term is included in every string, so an empty search shows everything. */
  lemma EmptyIncludedEverywhere(hay: string)
    ensures Includes(hay, "")
  {
  }

  /** `s.includes` compared after `toLowerCase` on both sides. */
  predicate IncludesIgnoringCase(hay: string, needle: string) {
    Includes(ToLower(hay), ToLower(needle))
  }

  /** `s.split(" ")`: the maximal space-free pieces between single spaces, empty pieces included. */
  function SplitSpaces(s: string): (r: seq<string>)
    ensures |r| >= 1
    ensures forall k :: 0 <= k < |r| ==> ' ' !in r[k]
    decreases |s|
  {
    if s == [] then [""]
    else if s[0] == ' ' then [""] + SplitSpaces(s[1..])
    else
      var rest := SplitSpaces(s[1..]);
      [[s[0]] + rest[0]] + rest[1..]
  }

  /** `words.join(" ")`. */
  function JoinSpaces(words: seq<string>): string
    requires |words| >= 1
  {
    if |words| == 1 then words[0] else words[0] + " " + JoinSpaces(words[1..])
  }

  /** Splitting at the spaces and joining with spaces gives the string back. */
  lemma {:induction false} SplitJoinRoundTrip(s: string)
    ensures JoinSpaces(SplitSpaces(s)) == s
    decreases |s|
  {
    if s != [] {
      SplitJoinRoundTrip(s[1..]);
      var rest := SplitSpaces(s[1..]);
      if s[0] == ' ' {
        assert SplitSpaces(s) == [""] + rest;
        JoinAfterSpace(rest);
      } else {
        assert SplitSpaces(s) == [[s[0]] + rest[0]] + rest[1..];
        JoinAfterChar(s[0], rest);
      }
      assert s == [s[0]] + s[1..];
    }
  }

  lemma JoinAfterSpace(rest: seq<string>)
    requires |rest| >= 1
    ensures JoinSpaces([""] + rest) == " " + JoinSpaces(rest)
  {
    assert ([""] + rest)[1..] == rest;
  }

  lemma JoinAfterChar(c: char, rest: seq<string>)
    requires |rest| >= 1
    ensures JoinSpaces([[c] + rest[0]] + rest[1..]) == [c] + JoinSpaces(rest)
  {
    var w := [[c] + rest[0]] + rest[1..];
    if |rest| > 1 {
      assert w[1..] == rest[1..];
      JoinConcat([c], rest[0], JoinSpaces(rest[1..]));
    }
  }

  lemma JoinConcat(a: string, b: string, t: string)
    ensures (a + b) + " " + t == a + (b + " " + t)
  {
  }

  /** The first character of each word, or nothing for an empty word (`word[0]` is `undefined`, which `join` renders as ""). */
  function FirstChars(words: seq<string>): (r: string)
    ensures |r| <= |words|
  {
    if words == [] then "" else FirstChars(words[..|words| - 1]) + words[|words| - 1][..if words[|words| - 1] == "" then 0 else 1]
  }

  /** `name.split(" ").map(w => w[0]).join("").toUpperCase()`. */
  function Initials(name: string): (r: string)
    ensures |r| <= |SplitSpaces(name)|
    ensures forall k :: 0 <= k < |r| ==> r[k] != ' ' && !('a' <= r[k] <= 'z')
  {
    var firsts := FirstChars(SplitSpaces(name));
    FirstCharsNoSpace(SplitSpaces(name));
    ToUpper(firsts)
  }

  lemma {:induction false} FirstCharsNoSpace(words: seq<string>)
    requires forall k :: 0 <= k < |words| ==> ' ' !in words[k]
    ensures ' ' !in FirstChars(words)
  {
    if words != [] {
      FirstCharsNoSpace(words[..|words| - 1]);
      var w := words[|words| - 1];
      assert ' ' !in w;
      assert ' ' !in w[..if w == "" then 0 else 1];
    }
  }

  /** The initials hold one upper-cased character for each non-empty word, in order. */
  lemma {:induction false} FirstCharsCount(words: seq<string>)
    ensures |FirstChars(words)| == |set k | 0 <= k < |words| && words[k] != ""|
  {
    if words != [] {
      var n := |words| - 1;
      FirstCharsCount(words[..n]);
      var before := set k | 0 <= k < n && words[..n][k] != "";
      var all := set k | 0 <= k < |words| && words[k] != "";
      assert before == set k | 0 <= k < n && words[k] != "";
      if words[n] == "" {
        assert all == before;
      } else {
        assert all == before + {n};
      }
    }
  }

  function DigitChar(d: nat): char
    requires d < 10
  {
    ('0' as int + d) as char
  }

  predicate IsDecimalDigit(c: char) {
    '0' <= c <= '9'
  }

  /** `Number.prototype.toString()` of a non-negative integer: its decimal digits, no leading zeros. */
  function NatToString(n: nat): (r: string)
    ensures |r| >= 1 && forall k :: 0 <= k < |r| ==> IsDecimalDigit(r[k])
    ensures r[0] == '0' ==> n == 0
  {
    if n < 10 then [DigitChar(n)] else NatToString(n / 10) + [DigitChar(n % 10)]
  }

  /** Decimal rendering of any integer, with a leading "-" when negative. */
  function IntToString(i: int): string {
    if i < 0 then "-" + NatToString(-i) else NatToString(i)
  }

  /** `s.padStart(2, "0")`. */
  function PadStart2(s: string): (r: string)
    ensures |r| == if |s| >= 2 then |s| else 2
    ensures r[|r| - |s|..] == s
    ensures forall k :: 0 <= k < |r| - |s| ==> r[k] == '0'
  {
    if |s| >= 2 then s else seq(2 - |s|, _ => '0') + s
  }

  /** The value of character `c` as a digit in base `radix` (10 or 16), if it is one. */
  function DigitValue(c: char, radix: nat): Option<nat> {
    if '0' <= c <= '9' && (c as int - '0' as int) < radix then Some(c as int - '0' as int)
    else if radix == 16 && 'a' <= c <= 'f' then Some(c as int - 'a' as int + 10)
    else if radix == 16 && 'A' <= c <= 'F' then Some(c as int - 'A' as int + 10)
    else None
  }

  /** The longest prefix of `s` made of radix digits. */
  function LeadingDigits(s: string, radix: nat): (r: string)
    ensures r <= s
    ensures forall k :: 0 <= k < |r| ==> DigitValue(r[k], radix).Some?
    ensures |r| < |s| ==> DigitValue(s[|r|], radix).None?
  {
    if s != [] && DigitValue(s[0], radix).Some? then [s[0]] + LeadingDigits(s[1..], radix) else []
  }

  /** The mathematical value of a digit string, most significant digit first. */
  function DigitsValue(ds: string, radix: nat): nat
    requires forall k :: 0 <= k < |ds| ==> DigitValue(ds[k], radix).Some?
  {
    if ds == [] then 0
    else DigitsValue(ds[..|ds| - 1], radix) * radix + DigitValue(ds[|ds| - 1], radix).value
  }

  /**
   * `parseInt(s)` with the radix omitted (ECMA-262, section 19.2.5): leading white space is
   * skipped, one optional sign is read, a "0x"/"0X" prefix selects base 16, and the longest run of
   * digits is read. `None` stands for NaN, the result when no digit follows.
   */
  function ParseInt(s: string): Option<int> {
    ParseSigned(TrimStart(s))
  }

  /** The sign step of `parseInt`: a leading "-" negates, a leading "+" is dropped. */
  function ParseSigned(t: string): Option<int> {
    var negative := t != [] && t[0] == '-';
    var u := if t != [] && (t[0] == '-' || t[0] == '+') then t[1..] else t;
    var m := ParseUnsigned(u);
    if m.None? then None
    else
      var v: int := m.value;
      Some(if negative then -v else v)
  }

  /** The radix step of `parseInt`: "0x" or "0X" selects base 16, anything else base 10. */
  function ParseUnsigned(u: string): Option<nat> {
    if |u| >= 2 && u[0] == '0' && (u[1] == 'x' || u[1] == 'X') then DigitsAsNumber(u[2..], 16)
    else DigitsAsNumber(u, 10)
  }

  /** The longest run of leading digits, read in `radix`, or NaN when there is none. */
  function DigitsAsNumber(body: string, radix: nat): Option<nat> {
    var ds := LeadingDigits(body, radix);
    if ds == [] then None else Some(DigitsValue(ds, radix))
  }

  lemma {:induction false} DigitsOfNatToString(n: nat)
    ensures forall k :: 0 <= k < |NatToString(n)| ==> DigitValue(NatToString(n)[k], 10).Some?
    ensures DigitsValue(NatToString(n), 10) == n
  {
    var r := NatToString(n);
    if n >= 10 {
      DigitsOfNatToString(n / 10);
      var p := NatToString(n / 10);
      assert r == p + [DigitChar(n % 10)];
      assert r[..|r| - 1] == p;
    }
  }

  lemma {:induction false} LeadingDigitsOfDigits(s: string, rest: string)
    requires forall k :: 0 <= k < |s| ==> IsDecimalDigit(s[k])
    requires rest == [] || DigitValue(rest[0], 10).None?
    ensures LeadingDigits(s + rest, 10) == s
  {
    if s != [] {
      assert (s + rest)[1..] == s[1..] + rest;
      LeadingDigitsOfDigits(s[1..], rest);
    } else {
      assert s + rest == rest;
    }
  }

  /** Reading a decimal rendering back is the identity: `parseInt(String(n)) == n`. */
  lemma ParseIntOfNatToString(n: nat)
    ensures ParseInt(NatToString(n)) == Some(n)
  {
    ParseIntOfDigitsThen(NatToString(n), "");
    assert NatToString(n) + "" == NatToString(n);
    DigitsOfNatToString(n);
  }

  /** A string that does not start with white space is not changed by `trimStart`. */
  lemma TrimStartOfNonWhitespace(s: string)
    requires s != [] && !IsWhitespace(s[0])
    ensures TrimStart(s) == s
  {
  }

  /** Reading a signed decimal rendering back is the identity: `parseInt(String(i)) == i`. */
  lemma ParseIntRoundTrip(i: int)
    ensures ParseInt(IntToString(i)) == Some(i)
  {
    if i < 0 {
      NegativeRoundTrip(-i);
    } else {
      assert IntToString(i) == NatToString(i);
      ParseIntOfNatToString(i);
    }
  }

  lemma NegativeRoundTrip(n: int)
    requires n > 0
    ensures ParseInt(IntToString(-n)) == Some(-n)
  {
    var s := IntToString(-n);
    var d := NatToString(n);
    assert s == "-" + d;
    assert s[0] == '-' && s[1..] == d;
    ParseIntOfNatToString(n);
    MinusThenDigits(s, d, n);
  }

  lemma MinusThenDigits(s: string, d: string, n: int)
    requires |s| >= 1 && s[0] == '-' && s[1..] == d
    requires d != [] && IsDecimalDigit(d[0]) && ParseInt(d) == Some(n)
    ensures ParseInt(s) == Some(-n)
  {
    TrimStartOfNonWhitespace(s);
    TrimStartOfNonWhitespace(d);
    UnsignedOfUnsigned(d);
    assert ParseUnsigned(d) == Some(n);
    MinusSign(s);
  }

  /** A leading "-" negates what follows it. */
  lemma MinusSign(t: string)
    requires t != [] && t[0] == '-'
    ensures ParseUnsigned(t[1..]).None? ==> ParseSigned(t).None?
    ensures ParseUnsigned(t[1..]).Some? ==> ParseSigned(t) == Some(-(ParseUnsigned(t[1..]).value as int))
  {
  }

  /** Without a sign, `parseInt` reads the digits as they are. */
  lemma UnsignedOfUnsigned(t: string)
    requires t != [] && t[0] != '-' && t[0] != '+'
    ensures ParseSigned(t) == ParseUnsigned(t)
  {
  }

  /** Without a "0x" prefix the digits are read in base 10. */
  lemma DecimalOfUnprefixed(u: string)
    requires !(|u| >= 2 && u[0] == '0' && (u[1] == 'x' || u[1] == 'X'))
    ensures ParseUnsigned(u) == DigitsAsNumber(u, 10)
  {
  }

  lemma DecimalDigitsHaveValues(ds: string)
    requires forall k :: 0 <= k < |ds| ==> IsDecimalDigit(ds[k])
    ensures forall k :: 0 <= k < |ds| ==> DigitValue(ds[k], 10).Some?
  {
    forall k | 0 <= k < |ds| ensures DigitValue(ds[k], 10).Some? {
      assert IsDecimalDigit(ds[k]);
    }
  }

  /** A run of decimal digits followed by a non-digit reads as the digits' value, as in `parseInt("5abc") == 5`. */
  lemma ParseIntOfDigitsThen(ds: string, rest: string)
    requires |ds| >= 1 && forall k :: 0 <= k < |ds| ==> IsDecimalDigit(ds[k])
    requires rest == [] || DigitValue(rest[0], 10).None?
    requires !(|ds| == 1 && ds[0] == '0' && rest != [] && (rest[0] == 'x' || rest[0] == 'X'))
    ensures forall k :: 0 <= k < |ds| ==> DigitValue(ds[k], 10).Some?
    ensures ParseUnsigned(ds + rest) == Some(DigitsValue(ds, 10))
    ensures ParseInt(ds + rest) == Some(DigitsValue(ds, 10))
  {
    DecimalDigitsHaveValues(ds);
    var s := ds + rest;
    assert s[0] == ds[0];
    TrimStartOfNonWhitespace(s);
    UnsignedOfUnsigned(s);
    if |s| >= 2 {
      assert !(s[0] == '0' && (s[1] == 'x' || s[1] == 'X')) by {
        if |ds| >= 2 { assert s[1] == ds[1]; } else { assert s[1] == rest[0]; }
      }
    }
    DecimalOfUnprefixed(s);
    LeadingDigitsOfDigits(ds, rest);
    assert DigitsAsNumber(s, 10) == Some(DigitsValue(ds, 10));
  }
}
