/**
 * Code-point classification for grapheme-cluster handling: variation selectors,
 * the zero-width joiner, Fitzpatrick skin-tone modifiers, gender signs and regional
 * indicators (the emoji code point kinds of Unicode Technical Standard #51, section 1.4),
 * together with the UTF-16 surrogate halves of the regional indicators.
 */
module UnicodeConstants {

  /** A Kotlin `Char`: one UTF-16 code unit, surrogate halves included. */
  newtype CodeUnit = n: int | 0 <= n < 0x1_0000

  const MAX_CODE_POINT := 0x10FFFF

  /** VS15, text presentation, and VS16, emoji presentation. */
  const VARIATION_SELECTOR_TEXT := 0xFE0E
  const VARIATION_SELECTOR_EMOJI := 0xFE0F

  /** Joins emoji into composite sequences. */
  const ZWJ := 0x200D

  /** The inclusive range of the five Fitzpatrick skin-tone modifiers. */
  const SKIN_TONE_FIRST := 0x1F3FB
  const SKIN_TONE_LAST := 0x1F3FF

  const FEMALE_SIGN := 0x2640
  const MALE_SIGN := 0x2642

  /** The inclusive range of the 26 regional indicator symbols A..Z. */
  const REGIONAL_INDICATOR_FIRST := 0x1F1E6
  const REGIONAL_INDICATOR_LAST := 0x1F1FF
  const REGIONAL_INDICATOR_HIGH_SURROGATE: CodeUnit := 0xD83C
  const REGIONAL_INDICATOR_LOW_SURROGATE_FIRST := 0xDDE6
  const REGIONAL_INDICATOR_LOW_SURROGATE_LAST := 0xDDFF

  predicate IsVariationSelector(codePoint: int) {
    codePoint == VARIATION_SELECTOR_TEXT || codePoint == VARIATION_SELECTOR_EMOJI
  }

  /** The `Char` overload: tests the unit's code. */
  predicate IsVariationSelectorChar(c: CodeUnit) {
    IsVariationSelector(c as int)
  }

  predicate IsSkinToneModifier(codePoint: int) {
    SKIN_TONE_FIRST <= codePoint <= SKIN_TONE_LAST
  }

  predicate IsGenderSymbol(codePoint: int) {
    codePoint == FEMALE_SIGN || codePoint == MALE_SIGN
  }

  predicate IsRegionalIndicator(codePoint: int) {
    REGIONAL_INDICATOR_FIRST <= codePoint <= REGIONAL_INDICATOR_LAST
  }

  predicate IsRegionalIndicatorHighSurrogate(c: CodeUnit) {
    c == REGIONAL_INDICATOR_HIGH_SURROGATE
  }

  predicate IsRegionalIndicatorLowSurrogate(charCode: int) {
    REGIONAL_INDICATOR_LOW_SURROGATE_FIRST <= charCode <= REGIONAL_INDICATOR_LOW_SURROGATE_LAST
  }

  // === The code points each predicate accepts ===

  ghost function CodePointsWhere(p: int -> bool): set<int> {
    set cp | 0 <= cp <= MAX_CODE_POINT && p(cp)
  }

  /** The code points of the inclusive range lo..hi. */
  ghost function Interval(lo: int, hi: int): set<int> {
    CodePointsWhere(n => lo <= n <= hi)
  }

  lemma {:induction false} IntervalSize(lo: int, hi: int)
    requires 0 <= lo <= hi + 1 && hi <= MAX_CODE_POINT
    ensures |Interval(lo, hi)| == hi - lo + 1
    decreases hi - lo
  {
    if lo <= hi {
      IntervalSize(lo + 1, hi);
      assert Interval(lo, hi) == {lo} + Interval(lo + 1, hi);
    }
  }

  /** Exactly VS15 and VS16; the neighbours U+FE0D and U+FE10 are not selectors. */
  lemma VariationSelectorSet()
    ensures CodePointsWhere(IsVariationSelector) == {0xFE0E, 0xFE0F}
    ensures !IsVariationSelector(0xFE0D) && !IsVariationSelector(0xFE10)
  {
  }

  /** Both selectors lie in the Basic Multilingual Plane, so the `Char` overload sees every one. */
  lemma VariationSelectorFitsOneUnit(codePoint: int)
    ensures IsVariationSelector(codePoint)
        <==> 0 <= codePoint < 0x1_0000 && IsVariationSelectorChar(codePoint as CodeUnit)
  {
  }

  /** The five Fitzpatrick modifiers U+1F3FB..U+1F3FF. */
  lemma SkinToneModifierCount()
    ensures CodePointsWhere(IsSkinToneModifier) == Interval(0x1F3FB, 0x1F3FF)
    ensures |CodePointsWhere(IsSkinToneModifier)| == 5
  {
    assert CodePointsWhere(IsSkinToneModifier) == Interval(0x1F3FB, 0x1F3FF);
    IntervalSize(0x1F3FB, 0x1F3FF);
  }

  /** Female and male sign only; U+2641 between them is not a gender symbol. */
  lemma GenderSymbolSet()
    ensures CodePointsWhere(IsGenderSymbol) == {0x2640, 0x2642}
    ensures !IsGenderSymbol(0x2641)
  {
  }

  /** The 26 regional indicators U+1F1E6..U+1F1FF. */
  lemma RegionalIndicatorCount()
    ensures CodePointsWhere(IsRegionalIndicator) == Interval(0x1F1E6, 0x1F1FF)
    ensures |CodePointsWhere(IsRegionalIndicator)| == 26
  {
    assert CodePointsWhere(IsRegionalIndicator) == Interval(0x1F1E6, 0x1F1FF);
    IntervalSize(0x1F1E6, 0x1F1FF);
  }

  /** No code point belongs to two of the five kinds. */
  lemma KindsDisjoint(codePoint: int)
    ensures (if IsVariationSelector(codePoint) then 1 else 0)
          + (if codePoint == ZWJ then 1 else 0)
          + (if IsSkinToneModifier(codePoint) then 1 else 0)
          + (if IsGenderSymbol(codePoint) then 1 else 0)
          + (if IsRegionalIndicator(codePoint) then 1 else 0) <= 1
  {
  }

  // === UTF-16 (section 2.1 of RFC 2781) ===

  /** A code point that UTF-16 encodes as a surrogate pair. */
  predicate IsSupplementary(codePoint: int) {
    0x1_0000 <= codePoint <= MAX_CODE_POINT
  }

  predicate IsHighSurrogate(u: CodeUnit) { 0xD800 <= u <= 0xDBFF }

  predicate IsLowSurrogate(u: CodeUnit) { 0xDC00 <= u <= 0xDFFF }

  /** W1 = 0xD800 + the upper ten bits of U - 0x10000. */
  function HighSurrogate(codePoint: int): (u: CodeUnit)
    requires IsSupplementary(codePoint)
    ensures IsHighSurrogate(u)
  {
    (0xD800 + (codePoint - 0x1_0000) / 0x400) as CodeUnit
  }

  /** W2 = 0xDC00 + the lower ten bits of U - 0x10000. */
  function LowSurrogate(codePoint: int): (u: CodeUnit)
    requires IsSupplementary(codePoint)
    ensures IsLowSurrogate(u)
  {
    (0xDC00 + (codePoint - 0x1_0000) % 0x400) as CodeUnit
  }

  /** The code point a surrogate pair stands for. */
  function DecodeSurrogatePair(high: CodeUnit, low: CodeUnit): (codePoint: int)
    requires IsHighSurrogate(high) && IsLowSurrogate(low)
    ensures IsSupplementary(codePoint)
  {
    0x1_0000 + (high as int - 0xD800) * 0x400 + (low as int - 0xDC00)
  }

  lemma DecodeEncode(codePoint: int)
    requires IsSupplementary(codePoint)
    ensures DecodeSurrogatePair(HighSurrogate(codePoint), LowSurrogate(codePoint)) == codePoint
  {
    var v := codePoint - 0x1_0000;
    assert v == (v / 0x400) * 0x400 + v % 0x400;
  }

  lemma EncodeDecode(high: CodeUnit, low: CodeUnit)
    requires IsHighSurrogate(high) && IsLowSurrogate(low)
    ensures HighSurrogate(DecodeSurrogatePair(high, low)) == high
    ensures LowSurrogate(DecodeSurrogatePair(high, low)) == low
  {
    var q, r := high as int - 0xD800, low as int - 0xDC00;
    DivModUnique(q * 0x400 + r, q, r);
  }

  lemma DivModUnique(v: int, q: int, r: int)
    requires 0 <= r < 0x400 && v == q * 0x400 + r
    ensures v / 0x400 == q && v % 0x400 == r
  {
  }

  /**
   * A supplementary code point is a regional indicator exactly when its high
   * surrogate is U+D83C and its low surrogate lies in U+DDE6..U+DDFF.
   */
  lemma RegionalIndicatorBySurrogates(codePoint: int)
    requires IsSupplementary(codePoint)
    ensures IsRegionalIndicator(codePoint)
        <==> IsRegionalIndicatorHighSurrogate(HighSurrogate(codePoint))
             && IsRegionalIndicatorLowSurrogate(LowSurrogate(codePoint) as int)
  {
    var v := codePoint - 0x1_0000;
    var q, r := v / 0x400, v % 0x400;
    DivModUnique(v, q, r);
    assert v == q * 0x400 + r;
    assert IsRegionalIndicator(codePoint) <==> q == 0x3C && 0x1E6 <= r <= 0x1FF;
  }

  /** The same read the other way: a scanner that sees the two units sees a regional indicator. */
  lemma RegionalIndicatorFromPair(high: CodeUnit, low: CodeUnit)
    requires IsHighSurrogate(high) && IsLowSurrogate(low)
    ensures IsRegionalIndicatorHighSurrogate(high) && IsRegionalIndicatorLowSurrogate(low as int)
        <==> IsRegionalIndicator(DecodeSurrogatePair(high, low))
  {
    EncodeDecode(high, low);
    RegionalIndicatorBySurrogates(DecodeSurrogatePair(high, low));
  }
}
