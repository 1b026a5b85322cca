/** The themed button: the colours, border and text variant each button variant gets. */
module ThemedButton {
  import opened Wrappers
  import C = Colors
  import T = Themed

  datatype ButtonVariant = Default | Ghost | Primary | Secondary | Link | LinkButton

  datatype ButtonStyle = ButtonStyle(
    backgroundColor: string, borderColor: string, borderWidth: nat, textVariant: T.Variant)

  /** The style for `variant` ("default" when absent) under device scheme `scheme`. */
  function ButtonStyleOf(scheme: Option<C.Theme>, variant: Option<ButtonVariant>): (style: ButtonStyle)
    ensures style.borderWidth == 1 <==> variant == Some(Ghost)
    ensures style.borderWidth == 0 <==> variant != Some(Ghost)
    ensures style.textVariant == T.Scheme(C.Primary) <==> variant == Some(Link) || variant == Some(LinkButton)
    ensures style.textVariant == T.Default <==> !(variant == Some(Link) || variant == Some(LinkButton))
  {
    var theme := T.ResolveTheme(scheme);
    var v := variant.GetOr(Default);
    var background :=
      if v == Primary then C.SchemeColorOf(theme, C.Primary)
      else if v == Secondary then C.SchemeColorOf(theme, C.Secondary)
      else if v == Ghost || v == Link || v == LinkButton then "transparent"
      else C.PaletteColor(theme, C.Background);
    var border :=
      if v == Ghost then C.PaletteColor(theme, C.Text)
      else if v == Primary then C.SchemeColorOf(theme, C.Primary)
      else if v == Secondary then C.SchemeColorOf(theme, C.Secondary)
      else "transparent";
    var textVariant :=
      if v == Primary then T.Default
      else if v == Secondary then T.Default
      else if v == Ghost then T.Default
      else if v == Link || v == LinkButton then T.Scheme(C.Primary)
      else T.Default;
    var width := if v == Ghost then 1 else 0;
    ButtonStyle(background, border, width, textVariant)
  }

  /** Background: scheme primary/secondary, transparent for ghost and links, else the theme background. */
  lemma BackgroundByVariant(scheme: Option<C.Theme>, variant: ButtonVariant)
    ensures var theme := T.ResolveTheme(scheme);
      ButtonStyleOf(scheme, Some(variant)).backgroundColor ==
        match variant
        case Primary => C.SchemeColorOf(theme, C.Primary)
        case Secondary => C.SchemeColorOf(theme, C.Secondary)
        case Ghost | Link | LinkButton => "transparent"
        case Default => C.PaletteColor(theme, C.Background)
  {
  }

  /** Border: the theme text colour for ghost, the scheme colour for primary/secondary, else transparent. */
  lemma BorderByVariant(scheme: Option<C.Theme>, variant: ButtonVariant)
    ensures var theme := T.ResolveTheme(scheme);
      ButtonStyleOf(scheme, Some(variant)).borderColor ==
        match variant
        case Ghost => C.PaletteColor(theme, C.Text)
        case Primary => C.SchemeColorOf(theme, C.Primary)
        case Secondary => C.SchemeColorOf(theme, C.Secondary)
        case Default | Link | LinkButton => "transparent"
  {
  }

  /** Filled buttons: background and border have the same colour. */
  lemma FilledButtonsMatchBorder(scheme: Option<C.Theme>, variant: ButtonVariant)
    requires variant == Primary || variant == Secondary
    ensures ButtonStyleOf(scheme, Some(variant)).backgroundColor == ButtonStyleOf(scheme, Some(variant)).borderColor
  {
  }

  /** An absent variant is the "default" variant, and an unknown scheme is the light theme. */
  lemma Defaults(scheme: Option<C.Theme>, variant: Option<ButtonVariant>)
    ensures ButtonStyleOf(scheme, None) == ButtonStyleOf(scheme, Some(Default))
    ensures ButtonStyleOf(None, variant) == ButtonStyleOf(Some(C.Light), variant)
  {
  }

  /**
   * The colour of the button's label, as `Text` resolves it from the button's text
   * variant: the scheme primary for links, the theme text colour otherwise, whatever
   * variant the store holds.
   */
  lemma LabelColor(scheme: Option<C.Theme>, variant: Option<ButtonVariant>, currentVariant: Option<T.Variant>)
    ensures var theme := T.ResolveTheme(scheme);
      var props := T.ColorProps(None, None, Some(ButtonStyleOf(scheme, variant).textVariant));
      T.UseThemeColor(props, C.Text, scheme, currentVariant) ==
        if variant == Some(Link) || variant == Some(LinkButton) then C.SchemeColorOf(theme, C.Primary)
        else C.PaletteColor(theme, C.Text)
  {
  }
}
