/**
 * The description text a property card shows. JavaScript measures and slices
 * the description in UTF-16 code units, so the card works on `JsString`; a
 * catalogue text reaches it as `Utf16(text)`.
 */
module PropertyCard {
  import opened Text

  /** The longest description, in code units, the card shows unabridged. */
  const MaxDescription := 150

  /** `"..."`: three full stops (U+002E). */
  const Ellipsis: JsString := [0x2E, 0x2E, 0x2E]

  /**
   * `description.length > 150 ? description.slice(0, 150) + "..." : description`.
   * A text of at most 150 code units is shown as it is (150 itself included);
   * a longer one as its first 150 code units followed by an ellipsis.
   */
  function ShownDescription(description: JsString): (shown: JsString)
    ensures |description| <= MaxDescription ==> shown == description
    ensures |description| > MaxDescription ==>
      |shown| == MaxDescription + 3 && shown[..MaxDescription] == description[..MaxDescription]
      && shown[MaxDescription..] == Ellipsis
  {
    if |description| > MaxDescription then description[..MaxDescription] + Ellipsis else description
  }

  function Min(a: int, b: int): int { if a <= b then a else b }

  /**
   * The shown text never exceeds 153 code units, begins with the first
   * `min(150, length)` units of the description, and is never longer than
   * the description by more than the ellipsis.
   */
  lemma ShownBounds(description: JsString)
    ensures |ShownDescription(description)| <= MaxDescription + 3
    ensures |ShownDescription(description)| <= |description| + 3
    ensures var n := Min(MaxDescription, |description|);
      n <= |ShownDescription(description)| && ShownDescription(description)[..n] == description[..n]
  {
  }

  /**
   * Showing a shown text again changes nothing: an abridged text is 153
   * code units long, and its first 150 are the same.
   */
  lemma ShownIdempotent(description: JsString)
    ensures ShownDescription(ShownDescription(description)) == ShownDescription(description)
  {
  }

  /**
   * The shown text equals the description exactly when the description is
   * short or is 153 code units ending in "...": the cut is not detectable from
   * the text alone.
   */
  lemma ShownUnchangedIff(description: JsString)
    ensures ShownDescription(description) == description <==>
      |description| <= MaxDescription
      || (|description| == MaxDescription + 3 && description[MaxDescription..] == Ellipsis)
  {
  }

  /**
   * For a text of Basic Multilingual Plane characters, code units and
   * characters coincide: the card cuts after the 150th character.
   */
  lemma BmpTextCutByCharacters(text: string)
    requires AllBmp(text)
    ensures |text| <= MaxDescription ==> ShownDescription(Utf16(text)) == Utf16(text)
    ensures |text| > MaxDescription ==>
      ShownDescription(Utf16(text)) == Utf16(text[..MaxDescription]) + Ellipsis
  {
    if |text| > MaxDescription {
      Utf16PrefixOfBmp(text, MaxDescription);
    }
  }

  /**
   * 76 characters outside the Basic Multilingual Plane (76 emoji, say) are 152
   * code units: the card shows the first 75 and the ellipsis, although the text
   * has fewer than 150 characters.
   */
  lemma AstralTextIsCut(text: string)
    requires |text| == 76 && forall k :: 0 <= k < |text| ==> !IsBmp(text[k])
    ensures ShownDescription(Utf16(text)) == Utf16(text[..75]) + Ellipsis
  {
    Utf16Append(text[..75], text[75..]);
    assert text[..75] + text[75..] == text;
    assert |Utf16(text[..75])| == MaxDescription by {
      assert forall k :: 0 <= k < 75 ==> text[..75][k] == text[k];
      Utf16Astral(text[..75]);
    }
    Utf16Astral(text);
  }

  /**
   * One Basic Multilingual Plane character and then 75 outside it ("a" and 75
   * emoji) are 151 code units: the cut falls between the two halves of the
   * last character, and the shown text keeps a lone high surrogate.
   */
  lemma CutSplitsSurrogatePair(text: string)
    requires |text| == 76 && IsBmp(text[0]) && forall k :: 1 <= k < |text| ==> !IsBmp(text[k])
    ensures |Utf16(text)| == MaxDescription + 1
    ensures IsHighSurrogate(ShownDescription(Utf16(text))[MaxDescription - 1])
  {
    var rest := text[1..];
    assert Utf16(text) == Utf16Char(text[0]) + Utf16(rest);
    Utf16Append(rest[..74], rest[74..]);
    assert rest[..74] + rest[74..] == rest;
    assert |Utf16(rest[..74])| == MaxDescription - 2 by {
      assert forall k :: 0 <= k < 74 ==> rest[..74][k] == text[k + 1];
      Utf16Astral(rest[..74]);
    }
    assert Utf16(rest[74..]) == Utf16Char(text[75]) by {
      assert rest[74..] == [text[75]];
      assert Utf16([text[75]]) == Utf16Char(text[75]) + Utf16([]);
    }
  }
}
