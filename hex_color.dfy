/**
 * Validation and normalisation of the hex colour strings typed into the
 * options page (`isValidHexColor`, `normalizeHexColor` in src/options.tsx).
 */
module HexColor {

  predicate IsHexDigit(c: char) {
    '0' <= c <= '9' || 'a' <= c <= 'f' || 'A' <= c <= 'F'
  }

  predicate AllHex(s: string) {
    forall i :: 0 <= i < |s| ==> IsHexDigit(s[i])
  }

  /** `isValidHexColor`: the whole string is `#` and then exactly 3 or exactly 6 hex digits. */
  predicate IsValidHexColor(s: string) {
    (|s| == 4 || |s| == 7) && s[0] == '#' && AllHex(s[1..])
  }

  /** `normalizeHexColor`: prepend `#` unless the string already starts with one. */
  function NormalizeHexColor(s: string): (r: string)
    ensures |r| > 0 && r[0] == '#'
    ensures |r| == |s| || |r| == |s| + 1
    ensures |s| > 0 && s[0] == '#' ==> r == s
  {
    if |s| > 0 && s[0] == '#' then s else "#" + s
  }

  /**
   * The regular expression `^#([A-Fa-f0-9]{6}|[A-Fa-f0-9]{3})$` read as a language:
   * the string is `#` followed by a run of 3 or 6 hex digits.
   */
  ghost predicate MatchesHexPattern(s: string) {
    exists digits: string :: (|digits| == 3 || |digits| == 6) && AllHex(digits) && s == "#" + digits
  }

  lemma ValidIffMatchesPattern(s: string)
    ensures IsValidHexColor(s) <==> MatchesHexPattern(s)
  {
    if IsValidHexColor(s) {
      assert s == "#" + s[1..];
    }
    if MatchesHexPattern(s) {
      var digits: string :| (|digits| == 3 || |digits| == 6) && AllHex(digits) && s == "#" + digits;
      assert s[1..] == digits;
    }
  }

  /** The four- and eight-digit hex notations of CSS (with an alpha channel) are rejected. */
  lemma AlphaFormsRejected(s: string)
    requires |s| == 5 || |s| == 9
    ensures !IsValidHexColor(s)
  {
  }

  /**
   * The accepted strings are exactly the three- and six-digit forms of the hex
   * notation of section 5.2 of CSS Color Module Level 4, which also allows four and
   * eight digits.
   */
  predicate CssHexNotation(s: string) {
    |s| > 0 && s[0] == '#' && |s| - 1 in {3, 4, 6, 8} && AllHex(s[1..])
  }

  lemma ValidIsStrictSubsetOfCss(s: string)
    ensures IsValidHexColor(s) <==> CssHexNotation(s) && |s| - 1 in {3, 6}
    ensures CssHexNotation("#ff99") && !IsValidHexColor("#ff99")
  {
    assert AllHex("#ff99"[1..]) by {
      assert "#ff99"[1..] == "ff99";
    }
  }

  /** Normalising twice is the same as normalising once. */
  lemma NormalizeIdempotent(s: string)
    ensures NormalizeHexColor(NormalizeHexColor(s)) == NormalizeHexColor(s)
  {
  }

  /**
   * What the hex input accepts: a typed text is valid after normalisation iff it is a valid
   * colour already, or it is 3 or 6 hex digits without the `#`.
   */
  lemma NormalizedValidity(text: string)
    ensures IsValidHexColor(NormalizeHexColor(text)) <==>
              IsValidHexColor(text) || ((|text| == 3 || |text| == 6) && AllHex(text))
  {
    if |text| > 0 && text[0] == '#' {
      assert !IsHexDigit(text[0]);
    } else {
      assert ("#" + text)[1..] == text;
    }
  }

  /** The typed text is kept: normalising only ever adds a `#` in front. */
  lemma NormalizeKeepsText(s: string)
    ensures var r := NormalizeHexColor(s); |r| >= |s| && r[|r| - |s|..] == s
  {
    if !(|s| > 0 && s[0] == '#') {
      assert ("#" + s)[1..] == s;
    }
  }

  /** A valid colour is left alone by normalisation. */
  lemma NormalizeValid(s: string)
    requires IsValidHexColor(s)
    ensures NormalizeHexColor(s) == s
  {
  }
}
