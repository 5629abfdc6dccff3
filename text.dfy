/**
 * The JavaScript string operations the search pipelines use:
 * `String.prototype.trim`, `toUpperCase` (on ASCII letters) and `startsWith`,
 * and the UTF-16 code units in which `length` and `slice` count.
 */
module Text {

  /** The characters `trim` removes: ECMAScript WhiteSpace and LineTerminator. */
  predicate IsJsWhitespace(c: char)
  {
    || c == '\t' || c == '\n' || c == '\U{B}' || c == '\U{C}' || c == '\r'
    || c == ' ' || c == '\U{A0}' || c == '\U{1680}'
    || ('\U{2000}' <= c <= '\U{200A}')
    || c == '\U{2028}' || c == '\U{2029}' || c == '\U{202F}' || c == '\U{205F}'
    || c == '\U{3000}' || c == '\U{FEFF}'
  }

  ghost predicate AllWhitespace(s: string)
  {
    forall k :: 0 <= k < |s| ==> IsJsWhitespace(s[k])
  }

  function TrimStart(s: string): (r: string)
    ensures |r| <= |s| && r == s[|s| - |r|..]
    ensures AllWhitespace(s[..|s| - |r|])
    ensures r == [] || !IsJsWhitespace(r[0])
  {
    if s != [] && IsJsWhitespace(s[0]) then TrimStart(s[1..]) else s
  }

  function TrimEnd(s: string): (r: string)
    ensures |r| <= |s| && r == s[..|r|]
    ensures AllWhitespace(s[|r|..])
    ensures r == [] || !IsJsWhitespace(r[|r| - 1])
  {
    if s != [] && IsJsWhitespace(s[|s| - 1]) then TrimEnd(s[..|s| - 1]) else s
  }

  /** `s.trim()`: whitespace removed from both ends. */
  function Trim(s: string): string
  {
    TrimEnd(TrimStart(s))
  }

  /**
   * `Trim(s)` is the middle of `s`: what it cut off at either end is all
   * whitespace, and it neither begins nor ends with whitespace.
   */
  lemma TrimShape(s: string) returns (lead: nat)
    ensures lead + |Trim(s)| <= |s|
    ensures Trim(s) == s[lead..lead + |Trim(s)|]
    ensures AllWhitespace(s[..lead]) && AllWhitespace(s[lead + |Trim(s)|..])
    ensures Trim(s) == [] || (!IsJsWhitespace(Trim(s)[0]) && !IsJsWhitespace(Trim(s)[|Trim(s)| - 1]))
  {
    var mid := TrimStart(s);
    var r := Trim(s);
    lead := |s| - |mid|;
    assert s[lead..] == mid;
    assert s[lead..lead + |r|] == mid[..|r|];
    assert s[lead + |r|..] == mid[|r|..];
    if r != [] {
      assert r[0] == mid[0];
    }
  }

  /** `s.trim() === ""` exactly when `s` is empty or all whitespace. */
  lemma TrimEmptyIffAllWhitespace(s: string)
    ensures Trim(s) == "" <==> AllWhitespace(s)
  {
  }

  predicate IsAsciiLower(c: char)
  {
    'a' <= c <= 'z'
  }

  /** `toUpperCase` on one character, for the ASCII letters. */
  function UpperChar(c: char): (u: char)
    ensures !IsAsciiLower(u)
    ensures IsAsciiLower(c) ==> 'A' <= u <= 'Z' && u as int - 'A' as int == c as int - 'a' as int
    ensures !IsAsciiLower(c) ==> u == c
  {
    if IsAsciiLower(c) then (c as int - 32) as char else c
  }

  /** `s.toUpperCase()`, character by character. */
  function Upper(s: string): (r: string)
    ensures |r| == |s|
    ensures forall k :: 0 <= k < |s| ==> r[k] == UpperChar(s[k])
  {
    seq(|s|, k requires 0 <= k < |s| => UpperChar(s[k]))
  }

  /** Upper-casing twice is upper-casing once. */
  lemma UpperIdempotent(s: string)
    ensures Upper(Upper(s)) == Upper(s)
  {
  }

  /** The upper-cased text contains no lower-case ASCII letter. */
  lemma UpperHasNoLower(s: string)
    ensures forall k :: 0 <= k < |Upper(s)| ==> !IsAsciiLower(Upper(s)[k])
  {
  }

  /** A padded word trims back to the word: `(" " + s + " ").trim()` is `s`. */
  lemma TrimPadded(s: string)
    requires s != [] && !IsJsWhitespace(s[0]) && !IsJsWhitespace(s[|s| - 1])
    ensures Trim(" " + s + " ") == s
  {
    var p := " " + s + " ";
    assert TrimStart(p) == s + " " by { assert p[1..] == s + " "; }
    assert TrimEnd(s + " ") == s by { assert (s + " ")[..|s|] == s; }
  }

  /** Upper-casing neither creates nor removes whitespace. */
  lemma UpperCharWhitespace(c: char)
    ensures IsJsWhitespace(UpperChar(c)) <==> IsJsWhitespace(c)
  {
  }

  /** Upper-casing commutes with removing leading whitespace. */
  lemma {:induction false} TrimStartUpper(s: string)
    ensures TrimStart(Upper(s)) == Upper(TrimStart(s))
    decreases |s|
  {
    if s != [] {
      UpperCharWhitespace(s[0]);
      if IsJsWhitespace(s[0]) {
        assert Upper(s)[1..] == Upper(s[1..]);
        TrimStartUpper(s[1..]);
      }
    }
  }

  /** Upper-casing commutes with removing trailing whitespace. */
  lemma {:induction false} TrimEndUpper(s: string)
    ensures TrimEnd(Upper(s)) == Upper(TrimEnd(s))
    decreases |s|
  {
    if s != [] {
      UpperCharWhitespace(s[|s| - 1]);
      if IsJsWhitespace(s[|s| - 1]) {
        assert Upper(s)[..|s| - 1] == Upper(s[..|s| - 1]);
        TrimEndUpper(s[..|s| - 1]);
      }
    }
  }

  /** `s.toUpperCase().trim()` is `s.trim().toUpperCase()`. */
  lemma TrimUpper(s: string)
    ensures Trim(Upper(s)) == Upper(Trim(s))
  {
    TrimStartUpper(s);
    TrimEndUpper(TrimStart(s));
  }

  /** `s.startsWith(prefix)`. */
  predicate StartsWith(s: string, prefix: string)
  {
    |prefix| <= |s| && s[..|prefix|] == prefix
  }

  // JavaScript string values, which count UTF-16 code units.

  /** A UTF-16 code unit: JavaScript's `length`, indexing and `slice` count these. */
  newtype CodeUnit = x: int | 0 <= x < 0x1_0000

  /** A JavaScript string value: a sequence of UTF-16 code units. */
  type JsString = seq<CodeUnit>

  /** The character lies in the Basic Multilingual Plane: one code unit encodes it. */
  predicate IsBmp(c: char)
  {
    c as int < 0x1_0000
  }

  predicate IsHighSurrogate(u: CodeUnit)
  {
    0xD800 <= u < 0xDC00
  }

  /** The UTF-16 encoding of one character: itself, or a high and a low surrogate. */
  function Utf16Char(c: char): (r: JsString)
    ensures IsBmp(c) ==> r == [c as int as CodeUnit]
    ensures !IsBmp(c) ==> |r| == 2 && IsHighSurrogate(r[0]) && 0xDC00 <= r[1] < 0xE000
  {
    if IsBmp(c) then [c as int as CodeUnit]
    else
      var v := c as int - 0x1_0000;
      [(0xD800 + v / 0x400) as CodeUnit, (0xDC00 + v % 0x400) as CodeUnit]
  }

  /** Every character of `s` is in the Basic Multilingual Plane. */
  predicate AllBmp(s: string)
  {
    forall k :: 0 <= k < |s| ==> IsBmp(s[k])
  }

  /**
   * The string value a text becomes: its characters' encodings in order. It is
   * at least as long as the text, and as long exactly when every character is
   * in the Basic Multilingual Plane.
   */
  function Utf16(s: string): (r: JsString)
    ensures |r| >= |s|
    ensures |r| == |s| <==> AllBmp(s)
  {
    if s == [] then []
    else
      assert AllBmp(s) <==> IsBmp(s[0]) && AllBmp(s[1..]) by {
        assert forall k :: 1 <= k < |s| ==> s[k] == s[1..][k - 1];
      }
      Utf16Char(s[0]) + Utf16(s[1..])
  }

  /** A text of Basic Multilingual Plane characters encodes unit for character. */
  lemma {:induction false} Utf16OfBmp(s: string)
    requires AllBmp(s)
    ensures |Utf16(s)| == |s|
    ensures forall k :: 0 <= k < |s| ==> Utf16(s)[k] as int == s[k] as int
    decreases |s|
  {
    if s != [] {
      assert AllBmp(s[1..]) by {
        assert forall k :: 0 <= k < |s| - 1 ==> s[1..][k] == s[k + 1];
      }
      Utf16OfBmp(s[1..]);
    }
  }

  /** For Basic Multilingual Plane text, the first `n` units encode the first `n` characters. */
  lemma Utf16PrefixOfBmp(s: string, n: nat)
    requires AllBmp(s) && n <= |s|
    ensures Utf16(s)[..n] == Utf16(s[..n])
  {
    var h := s[..n];
    assert AllBmp(h) by {
      assert forall k :: 0 <= k < n ==> h[k] == s[k];
    }
    Utf16OfBmp(s);
    Utf16OfBmp(h);
    var a, b := Utf16(s)[..n], Utf16(h);
    forall k | 0 <= k < n
      ensures a[k] == b[k]
    {
      assert a[k] as int == s[k] as int && h[k] == s[k];
    }
    assert a == b;
  }

  /** The encoding of a concatenation is the concatenation of the encodings. */
  lemma {:induction false} Utf16Append(a: string, b: string)
    ensures Utf16(a + b) == Utf16(a) + Utf16(b)
    decreases |a|
  {
    if a == [] {
      assert a + b == b;
    } else {
      assert (a + b)[0] == a[0] && (a + b)[1..] == a[1..] + b;
      Utf16Append(a[1..], b);
    }
  }

  /** A text of characters outside the Basic Multilingual Plane takes two units per character. */
  lemma {:induction false} Utf16Astral(s: string)
    requires forall k :: 0 <= k < |s| ==> !IsBmp(s[k])
    ensures |Utf16(s)| == 2 * |s|
    decreases |s|
  {
    if s != [] {
      Utf16Astral(s[1..]);
    }
  }
}
