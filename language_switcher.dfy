/** The header button that switches the site to the other language. */
module LanguageSwitcher {
  import opened Strings
  import opened Locales
  import opened LanguageContext

  /** The language the button offers: Arabic from English, English otherwise. */
  function Opposite(current: Language): (other: Language)
    ensures other != current
  {
    if current == En then Ar else En
  }

  /** "Arabic" written in Arabic. */
  const ArabicName: string := "\U{627}\U{644}\U{639}\U{631}\U{628}\U{64A}\U{629}"

  /** The button's caption names the offered language: Arabic in Arabic script when Arabic is offered, `EN` when English is. */
  function Label(current: Language): (caption: string)
    ensures caption == (if Opposite(current) == Ar then ArabicName else "EN")
    ensures caption == ArabicName <==> Opposite(current) == Ar
  {
    if current == En then ArabicName else "EN"
  }

  /**
    The path a click navigates to, `setLanguage` applied to the opposite
    language: it lies under the opposite language's code, never the current one's.
   */
  function ClickTarget(pathname: string, current: Language): (target: string)
    ensures Segments(target) != [] && Segments(target)[0] == Code(Opposite(current))
    ensures Segments(target)[0] != Code(current)
  {
    RewritePath(pathname, Opposite(current))
  }

  /** Switching twice gives back the language one started from. */
  lemma OppositeInvolution(current: Language)
    ensures Opposite(Opposite(current)) == current
  {
  }

  /**
    Clicking on the page reached by a click comes back to where the first
    click would have gone had it asked for the current language: the rest of
    the path survives a round trip through the other language.
   */
  lemma {:induction false} ClickRoundTrip(pathname: string, current: Language)
    ensures ClickTarget(ClickTarget(pathname, current), Opposite(current)) == RewritePath(pathname, current)
  {
  }
}
