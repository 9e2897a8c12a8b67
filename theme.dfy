/**
 * The app's theme context: three pieces of state (high contrast, dyslexia
 * font, font size), the styles derived from them, the two toggles, and the
 * value the context has outside any provider.
 */
module Theme {
  import opened Wrappers

  /** The colour set screens read from `themeStyles.colors`. */
  datatype Colors = Colors(background: string, text: string, buttonBackground: string,
                           buttonText: string, border: string, headerBackground: string)

  /** The default warm-sand palette. */
  const SandColors: Colors := Colors("#E8D4A2", "#5C4033", "#D2B48C", "#5C4033", "#a58d6fff", "#C8A882")

  /** The high-contrast palette. */
  const HighContrastColors: Colors := Colors("#FFFFFF", "#000000", "#8B4513", "#FFFFFF", "#000000", "#654321")

  /** The name of the dyslexia-friendly font family. */
  const DyslexiaFontFamily: string := "DyslexiaFont"

  /** `themeStyles`; `fontFamily: None` is JavaScript's `undefined`. */
  datatype ThemeStyles = ThemeStyles(colors: Colors, fontFamily: Option<string>, fontSizeMultiplier: real)

  /** The provider's `useState` values. */
  datatype ThemeState = ThemeState(highContrast: bool, dyslexiaFont: bool, fontSize: string)

  /** The values before any toggle. */
  const InitialState: ThemeState := ThemeState(false, false, "medium")

  /** The multiplier chosen by the font-size setting. */
  function FontSizeMultiplier(fontSize: string): (m: real)
    ensures fontSize == "small" ==> m == 0.95
    ensures fontSize == "large" ==> m == 1.25
    ensures fontSize != "small" && fontSize != "large" ==> m == 1.0
  {
    if fontSize == "small" then 0.95
    else if fontSize == "large" then 1.25
    else 1.0
  }

  /** The `useMemo` computation of `themeStyles`. */
  function DeriveStyles(s: ThemeState): (t: ThemeStyles)
    // colours follow the contrast flag alone
    ensures t.colors == if s.highContrast then HighContrastColors else SandColors
    // a font family is set exactly for the dyslexia font
    ensures t.fontFamily.Some? <==> s.dyslexiaFont
    ensures t.fontFamily.Some? ==> t.fontFamily.value == DyslexiaFontFamily
    ensures t.fontSizeMultiplier == FontSizeMultiplier(s.fontSize)
  {
    var colors := if s.highContrast then HighContrastColors else SandColors;
    var fontFamily := if s.dyslexiaFont then Some(DyslexiaFontFamily) else None;
    ThemeStyles(colors, fontFamily, FontSizeMultiplier(s.fontSize))
  }

  /** The two palettes differ in every colour, so the colours on screen
      tell whether high contrast is on. */
  lemma ColorsTellContrast(s: ThemeState, u: ThemeState)
    ensures DeriveStyles(s).colors == DeriveStyles(u).colors <==> s.highContrast == u.highContrast
    ensures SandColors.background != HighContrastColors.background && SandColors.text != HighContrastColors.text
    ensures SandColors.buttonBackground != HighContrastColors.buttonBackground
    ensures SandColors.buttonText != HighContrastColors.buttonText && SandColors.border != HighContrastColors.border
    ensures SandColors.headerBackground != HighContrastColors.headerBackground
  {
  }

  /** The multiplier is one of three values, and 1 exactly for any setting
      other than small and large. */
  lemma MultiplierRange(fontSize: string)
    ensures FontSizeMultiplier(fontSize) in {0.95, 1.0, 1.25}
    ensures FontSizeMultiplier(fontSize) == 1.0 <==> fontSize != "small" && fontSize != "large"
  {
  }

  /** `toggleHighContrast`: `setHighContrast((h) => !h)`. */
  function ToggleHighContrast(s: ThemeState): (t: ThemeState)
    ensures t.highContrast != s.highContrast
    ensures t.dyslexiaFont == s.dyslexiaFont && t.fontSize == s.fontSize
  {
    s.(highContrast := !s.highContrast)
  }

  /** `toggleDyslexiaFont`: `setDyslexiaFont((d) => !d)`. */
  function ToggleDyslexiaFont(s: ThemeState): (t: ThemeState)
    ensures t.dyslexiaFont != s.dyslexiaFont
    ensures t.highContrast == s.highContrast && t.fontSize == s.fontSize
  {
    s.(dyslexiaFont := !s.dyslexiaFont)
  }

  /** `setFontSize`: the state setter, which takes any value. */
  function SetFontSize(s: ThemeState, fontSize: string): (t: ThemeState)
    ensures t.fontSize == fontSize
    ensures t.highContrast == s.highContrast && t.dyslexiaFont == s.dyslexiaFont
  {
    s.(fontSize := fontSize)
  }

  /** Each toggle undoes itself, and the two toggles commute. */
  lemma TogglesInvolutive(s: ThemeState)
    ensures ToggleHighContrast(ToggleHighContrast(s)) == s
    ensures ToggleDyslexiaFont(ToggleDyslexiaFont(s)) == s
    ensures ToggleHighContrast(ToggleDyslexiaFont(s)) == ToggleDyslexiaFont(ToggleHighContrast(s))
  {
  }

  /** Toggling contrast changes the colours and nothing else of the styles;
      toggling the font changes the font family and nothing else. */
  lemma TogglesTouchOneStyle(s: ThemeState)
    ensures DeriveStyles(ToggleHighContrast(s)).colors != DeriveStyles(s).colors
    ensures DeriveStyles(ToggleHighContrast(s)).fontFamily == DeriveStyles(s).fontFamily
    ensures DeriveStyles(ToggleHighContrast(s)).fontSizeMultiplier == DeriveStyles(s).fontSizeMultiplier
    ensures DeriveStyles(ToggleDyslexiaFont(s)).fontFamily != DeriveStyles(s).fontFamily
    ensures DeriveStyles(ToggleDyslexiaFont(s)).colors == DeriveStyles(s).colors
    ensures DeriveStyles(ToggleDyslexiaFont(s)).fontSizeMultiplier == DeriveStyles(s).fontSizeMultiplier
  {
    ColorsTellContrast(s, ToggleHighContrast(s));
  }

  /** The state and styles a consumer reads from the context. */
  datatype ContextValue = ContextValue(highContrast: bool, dyslexiaFont: bool, fontSize: string, themeStyles: ThemeStyles)

  /** What `ThemeProvider` supplies for a state. */
  function ProviderValue(s: ThemeState): (v: ContextValue)
    ensures v.highContrast == s.highContrast && v.dyslexiaFont == s.dyslexiaFont && v.fontSize == s.fontSize
    ensures v.themeStyles == DeriveStyles(s)
  {
    ContextValue(s.highContrast, s.dyslexiaFont, s.fontSize, DeriveStyles(s))
  }

  /** The `createContext` default, written out literally. */
  const DefaultContext: ContextValue :=
    ContextValue(false, false, "medium",
                 ThemeStyles(Colors("#E8D4A2", "#5C4033", "#D2B48C", "#5C4033", "#a58d6fff", "#C8A882"), None, 1.0))

  /** A consumer outside any provider sees what a fresh provider supplies. */
  lemma DefaultMatchesInitialProvider()
    ensures DefaultContext == ProviderValue(InitialState)
  {
  }
}
