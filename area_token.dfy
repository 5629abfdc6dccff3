/**
 * The postcode-area token of a location: the first match of the regular
 * expression `[A-Z]{1,2}\d{1,2}` (no flags) in the location text, as
 * `String.prototype.match` returns it.
 *
 * `MatchAt` follows the backtracking matcher: at one start position it tries two
 * letters before one, and after the letters two digits before one. `FindAreaToken`
 * tries the start positions from the left. The lemmas characterise the result
 * independently: it is the longest token that starts at the leftmost position
 * where any token starts.
 */
module AreaToken {
  import opened Wrappers

  predicate IsUpperLetter(c: char) { 'A' <= c <= 'Z' }

  /** `\d` without the `u` flag: an ASCII digit. */
  predicate IsDigit(c: char) { '0' <= c <= '9' }

  /** `t` is in the language of `[A-Z]{1,2}\d{1,2}`. */
  predicate IsAreaToken(t: string)
  {
    || (2 <= |t| <= 3 && IsUpperLetter(t[0]) && forall k :: 1 <= k < |t| ==> IsDigit(t[k]))
    || (3 <= |t| <= 4 && IsUpperLetter(t[0]) && IsUpperLetter(t[1])
        && forall k :: 2 <= k < |t| ==> IsDigit(t[k]))
  }

  /** The `n` characters of `s` from position `i` form a token. */
  predicate TokenAt(s: string, i: nat, n: nat)
  {
    i + n <= |s| && IsAreaToken(s[i..i + n])
  }

  ghost predicate HasTokenAt(s: string, i: nat)
  {
    exists n :: TokenAt(s, i, n)
  }

  /** `n` is the length of the longest token starting at `i`. */
  ghost predicate LongestTokenAt(s: string, i: nat, n: nat)
  {
    TokenAt(s, i, n) && forall m: nat :: TokenAt(s, i, m) ==> m <= n
  }

  /** A token starts at `i` and none starts further left. */
  ghost predicate IsFirstAreaToken(s: string, i: nat, n: nat)
  {
    LongestTokenAt(s, i, n) && forall k :: 0 <= k < i ==> !HasTokenAt(s, k)
  }

  /**
   * `[A-Z]{letters}\d{1,2}` at position `i`, the digits tried greedily; the length
   * of the match, or `None`.
   */
  function LettersThenDigits(s: string, i: nat, letters: nat): (r: Option<nat>)
    requires 1 <= letters <= 2
  {
    if i + letters <= |s| && IsUpperLetter(s[i]) && (letters == 1 || IsUpperLetter(s[i + 1])) then
      if i + letters + 2 <= |s| && IsDigit(s[i + letters]) && IsDigit(s[i + letters + 1]) then
        Some(letters + 2)
      else if i + letters + 1 <= |s| && IsDigit(s[i + letters]) then
        Some(letters + 1)
      else
        None
    else
      None
  }

  /** The length of the regular expression's match at `i`: two letters tried before one. */
  function MatchAt(s: string, i: nat): (r: Option<nat>)
    ensures r.Some? ==> TokenAt(s, i, r.value)
  {
    var two := LettersThenDigits(s, i, 2);
    if two.Some? then two else LettersThenDigits(s, i, 1)
  }

  /** The start and length of the first match at or after position `i`. */
  function FindFrom(s: string, i: nat): (r: Option<(nat, nat)>)
    decreases |s| - i
    ensures r.Some? ==> i <= r.value.0 && TokenAt(s, r.value.0, r.value.1)
  {
    if i >= |s| then None
    else match MatchAt(s, i)
      case Some(n) => Some((i, n))
      case None => FindFrom(s, i + 1)
  }

  function FindAreaToken(s: string): Option<(nat, nat)>
  {
    FindFrom(s, 0)
  }

  /** `s.match(/([A-Z]{1,2}\d{1,2})/)?.[0]`. */
  function FirstAreaToken(s: string): (r: Option<string>)
    ensures r.Some? ==> IsAreaToken(r.value)
  {
    match FindAreaToken(s)
    case Some((i, n)) => Some(s[i..i + n])
    case None => None
  }

  /**
   * At one position the backtracking order picks the longest token: a token with
   * two letters and one with one letter cannot both start at `i`, and the digits
   * are taken greedily.
   */
  lemma MatchAtIsLongest(s: string, i: nat)
    ensures MatchAt(s, i).None? <==> !HasTokenAt(s, i)
    ensures MatchAt(s, i).Some? ==> LongestTokenAt(s, i, MatchAt(s, i).value)
  {
    var r := MatchAt(s, i);
    forall m: nat | TokenAt(s, i, m)
      ensures r.Some? && m <= r.value
    {
      var t := s[i..i + m];
      assert forall k :: 0 <= k < m ==> t[k] == s[i + k];
      if IsUpperLetter(s[i + 1]) {
        assert IsDigit(s[i + 2]);
        assert LettersThenDigits(s, i, 2).Some?;
      } else {
        assert LettersThenDigits(s, i, 2).None?;
        assert IsDigit(s[i + 1]);
      }
    }
  }

  /** `FindFrom` returns the first token at or after `i`, and `None` when there is none. */
  lemma {:induction false} FindFromSpec(s: string, i: nat)
    ensures FindFrom(s, i).None? <==> forall k :: i <= k < |s| ==> !HasTokenAt(s, k)
    ensures FindFrom(s, i).Some? ==>
      var (j, n) := FindFrom(s, i).value;
      LongestTokenAt(s, j, n) && forall k :: i <= k < j ==> !HasTokenAt(s, k)
    decreases |s| - i
  {
    if i < |s| {
      MatchAtIsLongest(s, i);
      if MatchAt(s, i).None? {
        FindFromSpec(s, i + 1);
      }
    }
  }

  /** No token can start at or beyond the end of the text. */
  lemma NoTokenAtEnd(s: string, k: nat)
    requires k >= |s|
    ensures !HasTokenAt(s, k)
  {
  }

  /**
   * The result is exactly the leftmost-longest token: `FindAreaToken` returns
   * `(i, n)` if and only if `(i, n)` is the first token of the text, and `None`
   * if and only if no token occurs anywhere in it.
   */
  lemma FindAreaTokenSpec(s: string, i: nat, n: nat)
    ensures FindAreaToken(s) == Some((i, n)) <==> IsFirstAreaToken(s, i, n)
    ensures FindAreaToken(s).None? <==> forall k: nat :: !HasTokenAt(s, k)
  {
    FindFromSpec(s, 0);
    if IsFirstAreaToken(s, i, n) {
      assert HasTokenAt(s, i);
      var (j, m) := FindAreaToken(s).value;
      assert HasTokenAt(s, j);
      assert j == i;
    }
    if FindAreaToken(s).None? {
      forall k: nat ensures !HasTokenAt(s, k) {
        if k >= |s| { NoTokenAtEnd(s, k); }
      }
    }
  }

  /** A token on its own is its own first token: extraction inverts the format. */
  lemma TokenIsItsOwnArea(t: string)
    requires IsAreaToken(t)
    ensures FirstAreaToken(t) == Some(t)
  {
    assert t[0..|t|] == t;
    assert TokenAt(t, 0, |t|);
    FindFromSpec(t, 0);
    MatchAtIsLongest(t, 0);
    var (j, n) := FindFrom(t, 0).value;
    assert j == 0 by {
      assert HasTokenAt(t, 0);
    }
    assert n == |t|;
  }

  /**
   * When no match starts before `i` and one starts at `i`, it is the first area
   * token (used to work out the examples).
   */
  lemma {:induction false} FirstMatchAt(s: string, j: nat, i: nat, n: nat)
    requires j <= i < |s|
    requires forall k :: j <= k < i ==> MatchAt(s, k).None?
    requires MatchAt(s, i) == Some(n)
    ensures FindFrom(s, j) == Some((i, n))
    decreases i - j
  {
    if j < i {
      FirstMatchAt(s, j + 1, i, n);
    }
  }

  /** The town name carries no token; the area token follows it. */
  lemma ExampleTownThenArea()
    ensures FirstAreaToken("Orpington BR5") == Some("BR5")
  {
    var s := "Orpington BR5";
    assert MatchAt(s, 0).None? && MatchAt(s, 1).None? && MatchAt(s, 2).None?;
    assert MatchAt(s, 3).None? && MatchAt(s, 4).None? && MatchAt(s, 5).None?;
    assert MatchAt(s, 6).None? && MatchAt(s, 7).None? && MatchAt(s, 8).None?;
    assert MatchAt(s, 9).None?;
    FirstMatchAt(s, 0, 10, 3);
    assert s[10..13] == "BR5";
  }

  /** Two digits are taken when two follow: the token of "Bromley BR15" is "BR15". */
  lemma ExampleTwoDigits()
    ensures FirstAreaToken("Bromley BR15") == Some("BR15")
  {
    var s := "Bromley BR15";
    assert MatchAt(s, 0).None? && MatchAt(s, 1).None? && MatchAt(s, 2).None?;
    assert MatchAt(s, 3).None? && MatchAt(s, 4).None? && MatchAt(s, 5).None?;
    assert MatchAt(s, 6).None? && MatchAt(s, 7).None?;
    FirstMatchAt(s, 0, 8, 4);
    assert s[8..12] == "BR15";
  }

  /** Without a word boundary the match may start inside a word: "ABC12" yields "BC12". */
  lemma ExampleInsideWord()
    ensures FirstAreaToken("ABC12") == Some("BC12")
  {
    var s := "ABC12";
    assert MatchAt(s, 0).None?;
    FirstMatchAt(s, 0, 1, 4);
    assert s[1..5] == "BC12";
  }
}
