/**
  The client-side language context: which language is active, its text
  direction and translation bundle, and the navigation `setLanguage`
  performs. Navigation is modelled as the path it pushes; the router, the
  route parameters and React's context machinery are inputs.
 */
module LanguageContext {
  import opened Wrappers
  import opened Strings
  import opened Locales

  /** The value the provider hands to the page tree (the setter is `SetLanguage` below). */
  datatype ContextValue = ContextValue(language: Language, bundle: Language, isRTL: bool)

  /** The non-empty `/`-separated segments of a pathname (`split('/')` then `filter(Boolean)`). */
  function Segments(pathname: string): (segments: seq<string>)
    ensures forall seg :: seg in segments ==> seg != [] && '/' !in seg
  {
    NonEmpty(Split(pathname, '/'))
  }

  /**
    Replaces a leading locale segment with `lang`, or puts `lang` in front
    when there is none: the result always leads with `lang`'s code, keeps
    every other segment in order, and stays clean when the input is.
   */
  function Relocalize(segments: seq<string>, lang: Language): (r: seq<string>)
    ensures r != [] && r[0] == Code(lang)
    ensures |segments| > 0 && segments[0] in LocaleCodes ==> r[1..] == segments[1..]
    ensures !(|segments| > 0 && segments[0] in LocaleCodes) ==> r[1..] == segments
    ensures (forall seg :: seg in segments ==> seg != [] && '/' !in seg) ==>
      forall seg :: seg in r ==> seg != [] && '/' !in seg
  {
    if |segments| > 0 && segments[0] in LocaleCodes then segments[0 := Code(lang)]
    else [Code(lang)] + segments
  }

  /**
    The path `setLanguage(lang)` navigates to from `pathname`: a rooted path
    whose segments, read back, are the relocalised segments of the original,
    and which is already in normal form (no empty segment, no trailing `/`).
   */
  function RewritePath(pathname: string, lang: Language): (path: string)
    ensures path != [] && path[0] == '/'
    ensures Segments(path) == Relocalize(Segments(pathname), lang)
    ensures path == "/" + Join(Segments(path), '/')
  {
    var segments := Relocalize(Segments(pathname), lang);
    SegmentsOfRooted(segments);
    "/" + Join(segments, '/')
  }

  /**
    `setLanguage`: split the current pathname, drop empty segments, overwrite
    the first segment when it is a locale or insert the new locale in front,
    and rejoin.
   */
  method SetLanguage(pathname: string, lang: Language) returns (newPath: string)
    ensures newPath == RewritePath(pathname, lang)
    ensures Segments(newPath) == Relocalize(Segments(pathname), lang)
  {
    var segments := NonEmpty(Split(pathname, '/'));
    if |segments| > 0 && segments[0] in LocaleCodes {
      segments := segments[0 := Code(lang)];
    } else {
      segments := [Code(lang)] + segments;
    }
    newPath := "/" + Join(segments, '/');
  }

  /** Joining clean segments under a leading `/` and reading the segments back gives them unchanged. */
  lemma {:induction false} SegmentsOfRooted(segments: seq<string>)
    requires forall seg :: seg in segments ==> seg != [] && '/' !in seg
    ensures Segments("/" + Join(segments, '/')) == segments
  {
    var joined := Join(segments, '/');
    assert "/" + joined == [] + ['/'] + joined;
    SplitAppend([], joined, '/');
    if segments == [] {
      assert Split("/" + joined, '/') == ["", ""];
      assert NonEmpty(["", ""]) == NonEmpty([""]) == [];
    } else {
      SplitJoin(segments, '/');
      NonEmptyAppend([""], segments);
      NonEmptyKeepsAll(segments);
    }
  }

  /** The new path is `/{lang}` or lies under `/{lang}/`. */
  lemma {:induction false} RewriteStartsWithLocale(pathname: string, lang: Language)
    ensures var path := RewritePath(pathname, lang);
      path == "/" + Code(lang) || StartsWith(path, "/" + Code(lang) + "/")
  {
    var segments := Relocalize(Segments(pathname), lang);
    assert segments[0] == Code(lang);
    if |segments| > 1 {
      var path := "/" + Join(segments, '/');
      assert path == "/" + Code(lang) + "/" + Join(segments[1..], '/');
      assert path[..|"/" + Code(lang) + "/"|] == "/" + Code(lang) + "/";
    }
  }

  /** A leading locale segment is replaced and every later segment kept, in order. */
  lemma ReplacesLeadingLocale(pathname: string, lang: Language)
    requires Segments(pathname) != [] && Segments(pathname)[0] in LocaleCodes
    ensures Segments(RewritePath(pathname, lang)) == [Code(lang)] + Segments(pathname)[1..]
  {
  }

  /** Without a leading locale segment, `lang` is inserted in front and nothing is removed. */
  lemma InsertsLocale(pathname: string, lang: Language)
    requires Segments(pathname) == [] || Segments(pathname)[0] !in LocaleCodes
    ensures Segments(RewritePath(pathname, lang)) == [Code(lang)] + Segments(pathname)
    ensures |Segments(RewritePath(pathname, lang))| == |Segments(pathname)| + 1
  {
  }

  /** Switching to the same language twice lands on the same path as switching once. */
  lemma {:induction false} RewriteIdempotent(pathname: string, lang: Language)
    ensures RewritePath(RewritePath(pathname, lang), lang) == RewritePath(pathname, lang)
  {
  }

  /** A path that is already normalised under `lang` is left as it is. */
  lemma {:induction false} RewriteKeepsNormalPath(segments: seq<string>, lang: Language)
    requires forall seg :: seg in segments ==> seg != [] && '/' !in seg
    ensures RewritePath("/" + Join([Code(lang)] + segments, '/'), lang) == "/" + Join([Code(lang)] + segments, '/')
  {
    SegmentsOfRooted([Code(lang)] + segments);
  }

  /** `/en/foo/bar` becomes `/ar/foo/bar`. */
  lemma SwitchExample(pathname: string)
    requires pathname == "/en/foo/bar"
    ensures RewritePath(pathname, Ar) == "/ar/foo/bar"
  {
    var before, after := ["en", "foo", "bar"], ["ar", "foo", "bar"];
    JoinThree("en", "foo", "bar", '/');
    JoinThree("ar", "foo", "bar", '/');
    assert pathname == "/" + Join(before, '/');
    SegmentsExample(pathname, before);
    assert Relocalize(before, Ar) == after;
    assert RewritePath(pathname, Ar) == "/" + Join(after, '/');
  }

  /** The root becomes `/ar`. */
  lemma RootExample()
    ensures RewritePath("/", Ar) == "/ar"
  {
    SegmentsOfRooted([]);
  }

  /** Empty segments are dropped: `/en//foo/` becomes `/ar/foo`. */
  lemma NormaliseExample(pathname: string)
    requires pathname == "/en//foo/"
    ensures RewritePath(pathname, Ar) == "/ar/foo"
  {
    NormaliseSegments(pathname);
    assert Relocalize(["en", "foo"], Ar) == ["ar", "foo"];
    JoinTwo("ar", "foo", '/');
  }

  lemma NormaliseSegments(pathname: string)
    requires pathname == "/en//foo/"
    ensures Segments(pathname) == ["en", "foo"]
  {
    var parts := ["", "en", "", "foo", ""];
    assert parts == ["", "en"] + ["", "foo", ""];
    JoinAppend(["", "en"], ["", "foo", ""], '/');
    JoinTwo("", "en", '/');
    JoinThree("", "foo", "", '/');
    assert Join(parts, '/') == pathname;
    SplitJoin(parts, '/');
    NonEmptyAppend(["", "en"], ["", "foo", ""]);
    assert NonEmpty(["", "en"]) == ["en"];
    assert NonEmpty(["", "foo", ""]) == ["foo"];
  }

  lemma JoinTwo(a: string, b: string, sep: char)
    ensures Join([a, b], sep) == a + [sep] + b
  {
    assert [a, b][1..] == [b];
  }

  lemma JoinThree(a: string, b: string, c: string, sep: char)
    ensures Join([a, b, c], sep) == a + [sep] + b + [sep] + c
  {
    assert [a, b, c][1..] == [b, c];
    JoinTwo(b, c, sep);
  }

  lemma SegmentsExample(pathname: string, segments: seq<string>)
    requires forall seg :: seg in segments ==> seg != [] && '/' !in seg
    requires pathname == "/" + Join(segments, '/')
    ensures Segments(pathname) == segments
  {
    SegmentsOfRooted(segments);
  }

  /** The active language: the route's locale, else the provider's initial locale, else English. */
  function ActiveLanguage(routeLocale: Option<Language>, initialLocale: Option<Language>): (lang: Language)
    ensures routeLocale.Some? ==> lang == routeLocale.value
    ensures routeLocale.None? && initialLocale.Some? ==> lang == initialLocale.value
    ensures routeLocale.None? && initialLocale.None? ==> lang == En
  {
    match routeLocale
    case Some(l) => l
    case None =>
      match initialLocale
      case Some(l) => l
      case None => En
  }

  /** The provider's value: the bundle is the active language's and the layout is right-to-left exactly for Arabic. */
  function Provide(routeLocale: Option<Language>, initialLocale: Option<Language>): (ctx: ContextValue)
    ensures ctx.language == ActiveLanguage(routeLocale, initialLocale)
    ensures ctx.bundle == ctx.language
    ensures ctx.isRTL <==> ctx.language == Ar
  {
    var language := ActiveLanguage(routeLocale, initialLocale);
    ContextValue(language, language, language == Ar)
  }

  const OutsideProviderError: string := "useLanguage must be used within a LanguageProvider"

  /** `useLanguage`: the nearest provider's value, or an error when there is no provider above. */
  function UseLanguage(context: Option<ContextValue>): (r: Result<ContextValue, string>)
    ensures r.Success? <==> context.Some?
    ensures r.Success? ==> r.value == context.value
    ensures r.Failure? ==> r.error == OutsideProviderError
  {
    match context
    case Some(ctx) => Success(ctx)
    case None => Failure(OutsideProviderError)
  }
}
