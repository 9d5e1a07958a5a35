/**
 Turning a tenant's two hex colours into the seven accent tokens: `branding-theme.ts`.

 `onAccentFor` and `rampAwayFrom` loop in the source and are methods here, each proved against the
 function that says what it picks. The theorems are about those functions, for every curve of
 `Srgb.IsCurve`.
 */
module BrandTheme {
  import opened Common
  import opened Srgb
  import opened HexColour

  datatype Theme = Light | Dark

  datatype Ground = Ground(canvas: Rgb, surface: Rgb, fallbackFocusRing: Rgb)

  const AA_TEXT_CONTRAST: real := 4.5
  const FOCUS_INDICATOR_CONTRAST: real := 3.0
  const HOVER_SHIFT: real := 0.16
  const SUBTLE_MIX: real := 0.86
  const RAMP_STEPS: seq<real> := [0.12, 0.24, 0.36, 0.5, 0.64, 0.78, 1.0]

  /** `#ffffff`, `#0e1117`, `#000000`. */
  const ON_ACCENT_CANDIDATES: seq<Rgb> := [WHITE, Rgb(0x0e, 0x11, 0x17), BLACK]

  function GroundOf(theme: Theme): Ground {
    match theme
    case Light => Ground(Rgb(0xf6, 0xf7, 0xf9), WHITE, Rgb(0x4f, 0x46, 0xe5))
    case Dark => Ground(Rgb(0x0e, 0x11, 0x17), Rgb(0x15, 0x19, 0x23), Rgb(0xa5, 0xb4, 0xfc))
  }

  // --- mix -------------------------------------------------------------------------------------

  /** `Math.round`: ties go up. */
  function Round(x: real): int { (x + 0.5).Floor }

  lemma RoundMonotone(x: real, y: real)
    ensures x <= y ==> Round(x) <= Round(y)
  {
  }

  lemma RoundWhole(v: int)
    ensures Round(v as real) == v
  {
  }

  function Lerp(left: real, right: real, weight: real): real { left + (right - left) * weight }

  lemma LerpMonotone(left: real, right: real, w1: real, w2: real)
    requires w1 <= w2
    ensures if left <= right then Lerp(left, right, w1) <= Lerp(left, right, w2)
            else Lerp(left, right, w2) <= Lerp(left, right, w1)
    ensures Lerp(left, right, 0.0) == left && Lerp(left, right, 1.0) == right
  {
    var d := right - left;
    assert if d >= 0.0 then d * w1 <= d * w2 else d * w2 <= d * w1;
  }

  /** One channel of `mix`. The clamp of `toHex` never fires: the result is between its ends. */
  function MixChannel(left: Byte, right: Byte, weight: real): (v: Byte)
    requires 0.0 <= weight <= 1.0
    ensures if left <= right then left <= v <= right else right <= v <= left
    ensures weight == 1.0 ==> v == right
  {
    MixBetween(left, right, weight);
    Round(Lerp(left as real, right as real, weight))
  }

  lemma MixBetween(left: int, right: int, weight: real)
    requires 0.0 <= weight <= 1.0
    ensures var v := Round(Lerp(left as real, right as real, weight));
            if left <= right then left <= v <= right else right <= v <= left
    ensures Round(Lerp(left as real, right as real, 1.0)) == right
  {
    RoundedLerpMonotone(left, right, 0.0, weight);
    RoundedLerpMonotone(left, right, weight, 1.0);
    LerpMonotone(left as real, right as real, 0.0, 1.0);
    RoundWhole(left);
    RoundWhole(right);
  }

  lemma RoundedLerpMonotone(left: int, right: int, w1: real, w2: real)
    requires w1 <= w2
    ensures var a, b := Round(Lerp(left as real, right as real, w1)), Round(Lerp(left as real, right as real, w2));
            if left <= right then a <= b else b <= a
  {
    var x, y := Lerp(left as real, right as real, w1), Lerp(left as real, right as real, w2);
    LerpMonotone(left as real, right as real, w1, w2);
    RoundMonotone(x, y);
    RoundMonotone(y, x);
  }

  function Mix(from: Rgb, to: Rgb, weight: real): (c: Rgb)
    requires 0.0 <= weight <= 1.0
    ensures Between(from, c, to)
    ensures weight == 1.0 ==> c == to
  {
    Rgb(MixChannel(from.r, to.r, weight), MixChannel(from.g, to.g, weight), MixChannel(from.b, to.b, weight))
  }

  /** More weight never moves a channel back: the ramp is a one-way walk toward its extreme. */
  lemma MixMonotone(from: Rgb, to: Rgb, w1: real, w2: real)
    requires 0.0 <= w1 <= w2 <= 1.0
    ensures Between(Mix(from, to, w1), Mix(from, to, w2), to)
  {
    MixChannelMonotone(from.r, to.r, w1, w2);
    MixChannelMonotone(from.g, to.g, w1, w2);
    MixChannelMonotone(from.b, to.b, w1, w2);
  }

  lemma MixChannelMonotone(left: Byte, right: Byte, w1: real, w2: real)
    requires 0.0 <= w1 <= w2 <= 1.0
    ensures var a, b := MixChannel(left, right, w1), MixChannel(left, right, w2);
            if left <= right then a <= b <= right else right <= b <= a
  {
    RoundedLerpMonotone(left, right, w1, w2);
  }

  // --- onAccentFor: the argmax loop -------------------------------------------------------------

  /** `i` is the first position of the largest score. */
  ghost predicate IsArgMax(scores: seq<real>, i: nat) {
    && i < |scores|
    && (forall j :: 0 <= j < |scores| ==> scores[j] <= scores[i])
    && (forall j :: 0 <= j < i ==> scores[j] < scores[i])
  }

  function ArgMax(scores: seq<real>): (i: nat)
    requires scores != []
    ensures IsArgMax(scores, i)
  {
    var last := |scores| - 1;
    if last == 0 then 0
    else
      var i := ArgMax(scores[..last]);
      assert forall j :: 0 <= j < last ==> scores[..last][j] == scores[j];
      if scores[last] > scores[i] then last else i
  }

  function AccentScores(f: Curve, accent: Rgb): (scores: seq<real>)
    ensures |scores| == |ON_ACCENT_CANDIDATES|
    ensures forall j :: 0 <= j < |scores| ==> scores[j] == ContrastRatio(f, ON_ACCENT_CANDIDATES[j], accent)
  {
    seq(|ON_ACCENT_CANDIDATES|, j requires 0 <= j < |ON_ACCENT_CANDIDATES| =>
      ContrastRatio(f, ON_ACCENT_CANDIDATES[j], accent))
  }

  function OnAccent(f: Curve, accent: Rgb): Rgb {
    ON_ACCENT_CANDIDATES[ArgMax(AccentScores(f, accent))]
  }

  method OnAccentFor(f: Curve, accent: Rgb) returns (best: Rgb)
    ensures best == OnAccent(f, accent)
  {
    ghost var scores := AccentScores(f, accent);
    ghost var chosen: nat := 0;
    best := ON_ACCENT_CANDIDATES[0];
    var bestRatio := 0.0;

    for k := 0 to |ON_ACCENT_CANDIDATES|
      invariant chosen < |scores| && best == ON_ACCENT_CANDIDATES[chosen]
      invariant bestRatio == if k == 0 then 0.0 else scores[chosen]
      invariant k > 0 ==> chosen < k && IsArgMax(scores[..k], chosen)
    {
      var candidate := ON_ACCENT_CANDIDATES[k];
      var ratio := ContrastRatio(f, candidate, accent);
      ContrastLaws(f, candidate, accent);
      if ratio > bestRatio {
        best, bestRatio, chosen := candidate, ratio, k;
      }
    }
    assert scores[..|scores|] == scores;
  }

  /** Whatever the accent, the chosen text colour clears AA: one of the pure extremes does, and both are candidates. */
  lemma OnAccentClears(f: Curve, accent: Rgb)
    ensures ContrastRatio(f, OnAccent(f, accent), accent) >= AA_TEXT_CONTRAST
  {
    PureExtremeClears(f, accent);
    var scores := AccentScores(f, accent);
    assert scores[0] == ContrastRatio(f, WHITE, accent) && scores[2] == ContrastRatio(f, BLACK, accent);
  }

  /**
   The third candidate is not optional: `#777777` is an accent on which both white and `#0e1117` fall
   short, so without pure black the same argmax returns a failing pair.
   */
  lemma BlackIsNeeded(f: seq<real>)
    requires IsSrgb(f)
    ensures IsCurve(f)
    ensures var grey := Rgb(0x77, 0x77, 0x77);
            && ContrastRatio(f, WHITE, grey) < AA_TEXT_CONTRAST
            && ContrastRatio(f, ON_ACCENT_CANDIDATES[1], grey) < AA_TEXT_CONTRAST
            && OnAccent(f, grey) == BLACK
  {
    SrgbIsCurve(f);
    GreyBounds(f);
    var grey, ink := Rgb(0x77, 0x77, 0x77), ON_ACCENT_CANDIDATES[1];
    LuminanceRange(f, grey);
    LuminanceRange(f, ink);
    ContrastClears(1.0, Luminance(f, grey), AA_TEXT_CONTRAST);
    ContrastClears(Luminance(f, ink), Luminance(f, grey), AA_TEXT_CONTRAST);
    OnAccentClears(f, grey);
  }

  lemma GreyBounds(f: seq<real>)
    requires IsSrgb(f) && IsCurve(f)
    ensures 0.1834 < Luminance(f, Rgb(0x77, 0x77, 0x77)) < 0.19
    ensures 0.0035 < Luminance(f, ON_ACCENT_CANDIDATES[1]) < 0.1
  {
    assert Pow(0.1834, 5) <= Pow(0.4940, 12);
    ChannelAbove(0x77, f[0x77], 0.4940, 0.1834);
    assert Pow(0.4950, 12) <= Pow(0.19, 5);
    ChannelBelow(0x77, f[0x77], 0.4950, 0.19);
    assert Pow(0.005, 5) <= Pow(0.115, 12);
    ChannelAbove(0x11, f[0x11], 0.115, 0.005);
    assert Pow(0.14, 12) <= Pow(0.1, 5);
    ChannelBelow(0x17, f[0x17], 0.14, 0.1);
    ChannelRange(f, 0x0e);
    ChannelRange(f, 0x17);
    CurveMonotone(f, 0x0e, 0x17);
    CurveMonotone(f, 0x11, 0x17);
  }

  // --- rampAwayFrom: the first-hit loop ---------------------------------------------------------

  predicate Clears(f: Curve, c: Rgb, background: Rgb, threshold: real) {
    ContrastRatio(f, c, background) >= threshold
  }

  function Extreme(f: Curve, background: Rgb): Rgb {
    if Luminance(f, background) > 0.5 then BLACK else WHITE
  }

  function Step(k: nat): (weight: real)
    requires k < |RAMP_STEPS|
    ensures 0.0 <= weight <= 1.0
    ensures k == |RAMP_STEPS| - 1 ==> weight == 1.0
  {
    RAMP_STEPS[k]
  }

  /** The colours the ramp tries, in order: the start itself, then one mix per step. */
  function RampColour(f: Curve, start: Rgb, background: Rgb, k: nat): Rgb
    requires k <= |RAMP_STEPS|
  {
    if k == 0 then start else Mix(start, Extreme(f, background), Step(k - 1))
  }

  /** Which of those colours clear. */
  function Tries(f: Curve, start: Rgb, background: Rgb, threshold: real): (tries: seq<bool>)
    ensures |tries| == |RAMP_STEPS| + 1
    ensures forall k :: 0 <= k < |tries| ==>
              tries[k] == Clears(f, RampColour(f, start, background, k), background, threshold)
  {
    seq(|RAMP_STEPS| + 1, k requires 0 <= k <= |RAMP_STEPS| =>
      Clears(f, RampColour(f, start, background, k), background, threshold))
  }

  function FirstTrue(tries: seq<bool>): (k: nat)
    ensures k <= |tries| && (k < |tries| ==> tries[k])
    ensures forall j :: 0 <= j < k ==> !tries[j]
  {
    if tries == [] || tries[0] then 0 else 1 + FirstTrue(tries[1..])
  }

  /** The first colour of the ramp that clears the threshold, or none. */
  function Ramp(f: Curve, start: Rgb, background: Rgb, threshold: real): Option<Rgb> {
    var k := FirstTrue(Tries(f, start, background, threshold));
    if k <= |RAMP_STEPS| then Some(RampColour(f, start, background, k)) else None
  }

  method RampAwayFrom(f: Curve, start: Rgb, background: Rgb, threshold: real) returns (result: Option<Rgb>)
    ensures result == Ramp(f, start, background, threshold)
  {
    if Clears(f, start, background, threshold) {
      return Some(start);
    }
    var extreme := Extreme(f, background);

    ghost var tries := Tries(f, start, background, threshold);

    for k := 0 to |RAMP_STEPS|
      invariant forall j :: 0 <= j <= k ==> !tries[j]
    {
      var stepped := Mix(start, extreme, Step(k));
      assert stepped == RampColour(f, start, background, k + 1);
      if Clears(f, stepped, background, threshold) {
        return Some(stepped);
      }
    }
    return None;
  }

  /** An answer is a colour of the ramp that clears, and the least-changed one: nothing before it does. */
  lemma RampFirstHit(f: Curve, start: Rgb, background: Rgb, threshold: real)
    ensures Ramp(f, start, background, threshold).Some? ==>
              exists k: nat :: k <= |RAMP_STEPS|
                && Ramp(f, start, background, threshold).value == RampColour(f, start, background, k)
                && Clears(f, RampColour(f, start, background, k), background, threshold)
                && forall j: nat :: j < k ==> !Clears(f, RampColour(f, start, background, j), background, threshold)
  {
  }

  /**
   The ramp gives up exactly when both of its ends fail: no step between them can succeed where they
   do not, even when the start lies on the far side of the background and the walk crosses it.
   */
  lemma RampGivesUp(f: Curve, start: Rgb, background: Rgb, threshold: real)
    ensures Ramp(f, start, background, threshold).None? <==>
              !Clears(f, start, background, threshold)
              && !Clears(f, Extreme(f, background), background, threshold)
  {
    var tries := Tries(f, start, background, threshold);
    var extreme := Extreme(f, background);
    assert RampColour(f, start, background, 0) == start;
    assert RampColour(f, start, background, |RAMP_STEPS|) == extreme;
    if !tries[0] && !tries[|RAMP_STEPS|] {
      forall j | 0 < j <= |RAMP_STEPS|
        ensures !tries[j]
      {
        NoPeakBetween(f, start, RampColour(f, start, background, j), extreme, background, threshold);
      }
    }
  }

  // --- The derived tokens -----------------------------------------------------------------------

  function ReadableOn(f: Curve, preferred: Rgb, background: Rgb, threshold: real): Rgb {
    match Ramp(f, preferred, background, threshold)
    case Some(c) => c
    case None => OnAccent(f, background)
  }

  lemma ReadableClears(f: Curve, preferred: Rgb, background: Rgb)
    ensures Clears(f, ReadableOn(f, preferred, background, AA_TEXT_CONTRAST), background, AA_TEXT_CONTRAST)
  {
    RampFirstHit(f, preferred, background, AA_TEXT_CONTRAST);
    OnAccentClears(f, background);
  }

  function FocusRing(f: Curve, accent: Rgb, ground: Ground): Rgb {
    match Ramp(f, accent, ground.canvas, FOCUS_INDICATOR_CONTRAST)
    case Some(c) => c
    case None => ground.fallbackFocusRing
  }

  /** On both shipped canvases the ramp's pure extreme clears 3:1, so the platform fallback is never used. */
  lemma FallbackUnreachable(f: Curve, accent: Rgb, theme: Theme)
    ensures Ramp(f, accent, GroundOf(theme).canvas, FOCUS_INDICATOR_CONTRAST).Some?
  {
    var canvas := GroundOf(theme).canvas;
    LuminanceRange(f, canvas);
    LuminanceRange(f, BLACK);
    LuminanceRange(f, WHITE);
    CurveMonotone(f, 246, 247);
    CurveMonotone(f, 246, 249);
    CurveMonotone(f, 0x0e, 23);
    CurveMonotone(f, 0x11, 23);
    ContrastClears(Luminance(f, Extreme(f, canvas)), Luminance(f, canvas), FOCUS_INDICATOR_CONTRAST);
    RampGivesUp(f, accent, canvas, FOCUS_INDICATOR_CONTRAST);
  }

  lemma FocusRingClears(f: Curve, accent: Rgb, theme: Theme)
    ensures Clears(f, FocusRing(f, accent, GroundOf(theme)), GroundOf(theme).canvas, FOCUS_INDICATOR_CONTRAST)
  {
    FallbackUnreachable(f, accent, theme);
    RampFirstHit(f, accent, GroundOf(theme).canvas, FOCUS_INDICATOR_CONTRAST);
  }

  datatype Tokens = Tokens(
    accent: string,
    accentHover: string,
    accentSubtle: string,
    onAccent: string,
    onAccentSubtle: string,
    focusRing: string,
    brandDecor: string)

  /** `None` is the `RangeError` a colour that is not `#rrggbb` raises. */
  function BrandCssVariables(f: Curve, primaryColor: string, accentColor: string, theme: Theme): Option<Tokens> {
    match (NormaliseHex(primaryColor), NormaliseHex(accentColor))
    case (Some(primary), Some(decor)) =>
      var ground := GroundOf(theme);
      var accent := ToRgb(primary);
      var subtle := Mix(accent, ground.surface, SUBTLE_MIX);
      Some(Tokens(
        primary,
        ToHex(Mix(accent, if theme == Light then BLACK else WHITE, HOVER_SHIFT)),
        ToHex(subtle),
        ToHex(OnAccent(f, accent)),
        ToHex(ReadableOn(f, accent, subtle, AA_TEXT_CONTRAST)),
        ToHex(FocusRing(f, accent, ground)),
        decor))
    case _ => None
  }

  function Contrast(f: Curve, left: string, right: string): real
    requires IsHexColour(left) && IsHexColour(right)
  {
    ContrastRatio(f, ToRgb(left), ToRgb(right))
  }

  predicate AllConcrete(t: Tokens) {
    && IsHexColour(t.accent) && IsHexColour(t.accentHover) && IsHexColour(t.accentSubtle)
    && IsHexColour(t.onAccent) && IsHexColour(t.onAccentSubtle) && IsHexColour(t.focusRing)
    && IsHexColour(t.brandDecor)
  }

  /**
   The promise of the module, over the emitted text: for every pair of colours a tenant can type and
   both themes, every token is concrete hex and all three checked pairs clear their threshold.
   */
  lemma EveryTenantColourIsAccessible(f: Curve, primaryColor: string, accentColor: string, theme: Theme)
    ensures BrandCssVariables(f, primaryColor, accentColor, theme).Some? <==>
              NormaliseHex(primaryColor).Some? && NormaliseHex(accentColor).Some?
    ensures BrandCssVariables(f, primaryColor, accentColor, theme).Some? ==>
              var t := BrandCssVariables(f, primaryColor, accentColor, theme).value;
              && AllConcrete(t)
              && t.accent == Lower(Trim(primaryColor)) && t.brandDecor == Lower(Trim(accentColor))
              && Contrast(f, t.onAccent, t.accent) >= AA_TEXT_CONTRAST
              && Contrast(f, t.onAccentSubtle, t.accentSubtle) >= AA_TEXT_CONTRAST
              && Contrast(f, t.focusRing, ToHex(GroundOf(theme).canvas)) >= FOCUS_INDICATOR_CONTRAST
  {
    if BrandCssVariables(f, primaryColor, accentColor, theme).Some? {
      DerivedPairsClear(f, NormaliseHex(primaryColor).value, theme);
    }
  }

  lemma DerivedPairsClear(f: Curve, primary: string, theme: Theme)
    requires IsHexColour(primary)
    ensures var accent, ground := ToRgb(primary), GroundOf(theme);
            var subtle := Mix(accent, ground.surface, SUBTLE_MIX);
            && Contrast(f, ToHex(OnAccent(f, accent)), primary) >= AA_TEXT_CONTRAST
            && Contrast(f, ToHex(ReadableOn(f, accent, subtle, AA_TEXT_CONTRAST)), ToHex(subtle)) >= AA_TEXT_CONTRAST
            && Contrast(f, ToHex(FocusRing(f, accent, ground)), ToHex(ground.canvas)) >= FOCUS_INDICATOR_CONTRAST
  {
    var accent, ground := ToRgb(primary), GroundOf(theme);
    var subtle := Mix(accent, ground.surface, SUBTLE_MIX);
    OnAccentClears(f, accent);
    ReadableClears(f, accent, subtle);
    FocusRingClears(f, accent, theme);
    RgbRoundTrip(primary);
    ContrastOfText(f, OnAccent(f, accent), accent);
    ContrastOfText(f, ReadableOn(f, accent, subtle, AA_TEXT_CONTRAST), subtle);
    ContrastOfText(f, FocusRing(f, accent, ground), ground.canvas);
  }

  lemma ContrastOfText(f: Curve, left: Rgb, right: Rgb)
    ensures Contrast(f, ToHex(left), ToHex(right)) == ContrastRatio(f, left, right)
  {
    HexRoundTrip(left);
    HexRoundTrip(right);
  }

  /** Hover reads as more of the same colour: never lighter in the light theme, never darker in the dark one. */
  lemma HoverMovesAway(f: Curve, accent: Rgb)
    ensures Luminance(f, Mix(accent, BLACK, HOVER_SHIFT)) <= Luminance(f, accent)
    ensures Luminance(f, accent) <= Luminance(f, Mix(accent, WHITE, HOVER_SHIFT))
  {
    var down, up := Mix(accent, BLACK, HOVER_SHIFT), Mix(accent, WHITE, HOVER_SHIFT);
    CurveMonotone(f, down.r, accent.r);
    CurveMonotone(f, down.g, accent.g);
    CurveMonotone(f, down.b, accent.b);
    CurveMonotone(f, accent.r, up.r);
    CurveMonotone(f, accent.g, up.g);
    CurveMonotone(f, accent.b, up.b);
  }
}
