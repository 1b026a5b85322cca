/** The light and dark colour palettes and their `scheme_colors` tables. */
module Colors {

  datatype Theme = Light | Dark

  /** The top-level keys of a palette. */
  datatype ColorName = Text | Background | Tint | TabIconDefault | TabIconSelected

  /** The keys of a palette's `scheme_colors` table. */
  datatype SchemeColor = Primary | Secondary | Alt | Other | Ghost

  const TintColorLight: string := "#2f95dc"
  const TintColorDark: string := "#fff"

  /** `Colors[theme][name]`: never empty. */
  function PaletteColor(theme: Theme, name: ColorName): (hex: string)
    ensures hex != ""
  {
    match (theme, name)
    case (Light, Text) => "#000"
    case (Light, Background) => "#fff"
    case (Light, Tint) => TintColorLight
    case (Light, TabIconDefault) => "#ccc"
    case (Light, TabIconSelected) => TintColorLight
    case (Dark, Text) => "#fff"
    case (Dark, Background) => "#000"
    case (Dark, Tint) => TintColorDark
    case (Dark, TabIconDefault) => "#ccc"
    case (Dark, TabIconSelected) => TintColorDark
  }

  /** `Colors[theme].scheme_colors[color]`: never empty, so always truthy. */
  function SchemeColorOf(theme: Theme, color: SchemeColor): (hex: string)
    ensures hex != ""
  {
    match (theme, color)
    case (_, Primary) => "#00416d"
    case (_, Secondary) => "#f1733e"
    case (Light, Alt) => "#e0e0e0"
    case (Dark, Alt) => "#222222"
    case (_, Other) => "#4cafef"
    case (_, Ghost) => "transparent"
  }

  function Opposite(theme: Theme): (other: Theme) {
    if theme == Light then Dark else Light
  }

  /** Every scheme colour but `alt` is the same in both themes, and `alt` differs. */
  lemma SchemeColorsShared(color: SchemeColor)
    ensures SchemeColorOf(Light, color) == SchemeColorOf(Dark, color) <==> color != Alt
  {
  }

  /** `ghost` is transparent in both themes. */
  lemma GhostIsTransparent(theme: Theme)
    ensures SchemeColorOf(theme, Ghost) == "transparent"
  {
  }

  /** Text and background colours swap between the two themes. */
  lemma TextBackgroundSwapped(theme: Theme)
    ensures PaletteColor(theme, Text) == PaletteColor(Opposite(theme), Background)
    ensures PaletteColor(theme, Background) == PaletteColor(Opposite(theme), Text)
    ensures PaletteColor(theme, Text) != PaletteColor(theme, Background)
  {
  }

  /** The selected tab icon uses the theme's tint. */
  lemma TabIconSelectedIsTint(theme: Theme)
    ensures PaletteColor(theme, TabIconSelected) == PaletteColor(theme, Tint)
  {
  }
}
