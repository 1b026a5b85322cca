/**
 * Themed text and views: which colour a component gets (`useThemeColor`),
 * and the font size and weight `Text` derives from a heading level.
 */
module Themed {
  import opened Wrappers
  import C = Colors

  /** A colour variant: "default" or one of the scheme colours. */
  datatype Variant = Default | Scheme(color: C.SchemeColor)

  /** The props `useThemeColor` reads: per-theme overrides and an explicit variant. */
  datatype ColorProps = ColorProps(light: Option<string>, dark: Option<string>, variant: Option<Variant>)

  /** JavaScript truthiness of an optional string. */
  predicate Truthy(s: Option<string>) {
    s.Some? && s.value != ""
  }

  /** The device colour scheme, "light" when it is unknown. */
  function ResolveTheme(scheme: Option<C.Theme>): (theme: C.Theme)
    ensures scheme.None? ==> theme == C.Light
    ensures scheme.Some? ==> theme == scheme.value
  {
    scheme.GetOr(C.Light)
  }

  /** The variant in effect: the prop when given, the store's current variant otherwise. */
  function EffectiveVariant(props: ColorProps, currentVariant: Option<Variant>): (v: Option<Variant>)
    ensures props.variant.Some? ==> v == props.variant
    ensures props.variant.None? ==> v == currentVariant
  {
    if props.variant.Some? then props.variant else currentVariant
  }

  function PropForTheme(props: ColorProps, theme: C.Theme): (prop: Option<string>) {
    if theme == C.Light then props.light else props.dark
  }

  /**
   * useThemeColor with its hook reads as parameters: `scheme` is the device colour
   * scheme, `currentVariant` the variant store's value. The result is never empty.
   */
  function UseThemeColor(
    props: ColorProps, colorName: C.ColorName, scheme: Option<C.Theme>, currentVariant: Option<Variant>)
    : (color: string)
    ensures color != ""
  {
    var theme := ResolveTheme(scheme);
    var variant := EffectiveVariant(props, currentVariant);
    if variant == Some(Default) then C.PaletteColor(theme, C.Text)
    else if variant.Some? && C.SchemeColorOf(theme, variant.value.color) != "" then
      C.SchemeColorOf(theme, variant.value.color)
    else if Truthy(PropForTheme(props, theme)) then PropForTheme(props, theme).value
    else C.PaletteColor(theme, colorName)
  }

  /** The "default" variant always gives the theme's text colour. */
  lemma DefaultVariantIsText(props: ColorProps, colorName: C.ColorName, scheme: Option<C.Theme>, currentVariant: Option<Variant>)
    requires EffectiveVariant(props, currentVariant) == Some(Default)
    ensures UseThemeColor(props, colorName, scheme, currentVariant) == C.PaletteColor(ResolveTheme(scheme), C.Text)
  {
  }

  /** A scheme variant gives that scheme colour whatever the per-theme props and colour name. */
  lemma SchemeVariantWins(props: ColorProps, colorName: C.ColorName, scheme: Option<C.Theme>,
                          currentVariant: Option<Variant>, color: C.SchemeColor)
    requires EffectiveVariant(props, currentVariant) == Some(Scheme(color))
    ensures UseThemeColor(props, colorName, scheme, currentVariant) == C.SchemeColorOf(ResolveTheme(scheme), color)
  {
  }

  /** With no variant anywhere, a non-empty prop for the current theme wins, else the palette entry. */
  lemma NoVariantUsesPropOrPalette(props: ColorProps, colorName: C.ColorName, scheme: Option<C.Theme>)
    requires props.variant.None?
    ensures var theme := ResolveTheme(scheme);
      var own := PropForTheme(props, theme);
      UseThemeColor(props, colorName, scheme, None) == if Truthy(own) then own.value else C.PaletteColor(theme, colorName)
  {
  }

  /** An explicit variant prop makes the store's variant irrelevant. */
  lemma ExplicitVariantIgnoresStore(props: ColorProps, colorName: C.ColorName, scheme: Option<C.Theme>,
                                    v1: Option<Variant>, v2: Option<Variant>)
    requires props.variant.Some?
    ensures UseThemeColor(props, colorName, scheme, v1) == UseThemeColor(props, colorName, scheme, v2)
  {
  }

  /** The same resolution as a priority list: the first present candidate wins. */
  function FirstPresent(candidates: seq<Option<string>>, fallback: string): (r: string)
    ensures r == fallback || Some(r) in candidates
    ensures (forall k :: 0 <= k < |candidates| ==> candidates[k].None?) ==> r == fallback
    ensures |candidates| > 0 && candidates[0].Some? ==> r == candidates[0].value
  {
    if |candidates| == 0 then fallback
    else if candidates[0].Some? then candidates[0].value
    else FirstPresent(candidates[1..], fallback)
  }

  function Candidates(props: ColorProps, scheme: Option<C.Theme>, currentVariant: Option<Variant>)
    : seq<Option<string>>
  {
    var theme := ResolveTheme(scheme);
    var variant := EffectiveVariant(props, currentVariant);
    var own := PropForTheme(props, theme);
    [ if variant == Some(Default) then Some(C.PaletteColor(theme, C.Text)) else None,
      if variant.Some? && variant.value.Scheme? then Some(C.SchemeColorOf(theme, variant.value.color)) else None,
      if Truthy(own) then own else None ]
  }

  /** useThemeColor agrees with the priority list: default variant, scheme colour, theme prop, palette. */
  lemma UseThemeColorIsPriorityList(props: ColorProps, colorName: C.ColorName, scheme: Option<C.Theme>, currentVariant: Option<Variant>)
    ensures UseThemeColor(props, colorName, scheme, currentVariant)
         == FirstPresent(Candidates(props, scheme, currentVariant), C.PaletteColor(ResolveTheme(scheme), colorName))
  {
    var cs := Candidates(props, scheme, currentVariant);
    var fb := C.PaletteColor(ResolveTheme(scheme), colorName);
    var tail1, tail2, tail3 := cs[1..], cs[1..][1..], cs[1..][1..][1..];
    assert tail3 == [];
    assert FirstPresent(tail2, fb) == if cs[2].Some? then cs[2].value else fb;
    assert FirstPresent(tail1, fb) == if cs[1].Some? then cs[1].value else FirstPresent(tail2, fb);
  }

  // ---------------------------------------------------------------------------
  // Text sizing
  // ---------------------------------------------------------------------------

  datatype Heading = H1 | H2 | H3 | H4 | H5 | H6

  /** 1 for h1 up to 6 for h6. */
  function Rank(h: Heading): (rank: nat) {
    match h
    case H1 => 1 case H2 => 2 case H3 => 3 case H4 => 4 case H5 => 5 case H6 => 6
  }

  /** The preset heading sizes in points. */
  function HeadingSize(h: Heading): (size: nat)
    ensures 16 <= size <= 32
  {
    match h
    case H1 => 32 case H2 => 28 case H3 => 24 case H4 => 20 case H5 => 18 case H6 => 16
  }

  /** Sizes strictly decrease from h1 to h6. */
  lemma HeadingSizesDecrease(a: Heading, b: Heading)
    ensures Rank(a) < Rank(b) <==> HeadingSize(a) > HeadingSize(b)
  {
  }

  /** fontSize: the heading size times `multiple` (1 when absent); unset without a heading. */
  function FontSize(textSize: Option<Heading>, multiple: Option<real>): (size: Option<real>)
    ensures textSize.None? <==> size.None?
    ensures textSize.Some? && multiple.None? ==> size == Some(HeadingSize(textSize.value) as real)
    ensures textSize.Some? && multiple.Some? ==> size == Some(HeadingSize(textSize.value) as real * multiple.value)
  {
    if textSize.Some? then Some(HeadingSize(textSize.value) as real * multiple.GetOr(1.0)) else None
  }

  /** fontWeight: "700", "600", "500" for h1, h2, h3; unset for h4-h6 and without a heading. */
  function FontWeight(textSize: Option<Heading>): (weight: Option<string>)
    ensures weight.Some? <==> textSize.Some? && Rank(textSize.value) <= 3
  {
    match textSize
    case Some(H1) => Some("700")
    case Some(H2) => Some("600")
    case Some(H3) => Some("500")
    case _ => None
  }

  /** The weights of the three largest headings. */
  lemma FontWeightValues()
    ensures FontWeight(Some(H1)) == Some("700")
    ensures FontWeight(Some(H2)) == Some("600")
    ensures FontWeight(Some(H3)) == Some("500")
  {
  }

  datatype TextProps = TextProps(
    lightColor: Option<string>, darkColor: Option<string>, variant: Option<Variant>,
    textSize: Option<Heading>, multiple: Option<real>)

  datatype TextStyle = TextStyle(color: string, fontSize: Option<real>, fontWeight: Option<string>)

  /** The style `Text` puts before the caller's own: colour resolved for "text", size and weight. */
  function TextStyleOf(props: TextProps, scheme: Option<C.Theme>, currentVariant: Option<Variant>): (style: TextStyle)
    ensures style.color != ""
    ensures style.color == UseThemeColor(ColorProps(props.lightColor, props.darkColor, props.variant), C.Text, scheme, currentVariant)
    ensures style.fontSize.Some? <==> props.textSize.Some?
    ensures style.fontSize == FontSize(props.textSize, props.multiple)
    ensures style.fontWeight == FontWeight(props.textSize)
  {
    TextStyle(
      UseThemeColor(ColorProps(props.lightColor, props.darkColor, props.variant), C.Text, scheme, currentVariant),
      FontSize(props.textSize, props.multiple),
      FontWeight(props.textSize))
  }

  /** The background colour `View` puts before the caller's own style. */
  function ViewBackground(lightColor: Option<string>, darkColor: Option<string>, variant: Option<Variant>,
                          scheme: Option<C.Theme>, currentVariant: Option<Variant>): (color: string)
    ensures color != ""
    ensures color == UseThemeColor(ColorProps(lightColor, darkColor, variant), C.Background, scheme, currentVariant)
  {
    UseThemeColor(ColorProps(lightColor, darkColor, variant), C.Background, scheme, currentVariant)
  }
}
