/**
  The two languages the site is published in and their route codes.
  Both the edge middleware and the language context work with the fixed list
  `en`, `ar` in that order, and `en` is the default.
 */
module Locales {
  datatype Language = En | Ar

  /** The route segment and `lang` attribute of a language. */
  function Code(lang: Language): (code: string)
    ensures |code| == 2 && '/' !in code
    ensures code in LocaleCodes
  {
    match lang
    case En => "en"
    case Ar => "ar"
  }

  /** The supported locale codes, in the order the middleware scans them. */
  const LocaleCodes: seq<string> := ["en", "ar"]

  const DefaultLocale: string := "en"
}
