/**
  The edge middleware that gives every human-facing path a locale prefix.
  A request is described by its pathname and its `Accept-Language` header
  (absent when the request has none); the answer is to let it through or to
  redirect it to the same path under a locale.
 */
module Middleware {
  import opened Wrappers
  import opened Strings
  import opened Locales

  datatype Response = Next | Redirect(location: string)

  /** The path prefixes that are never localised. */
  const ExemptPrefixes: seq<string> := ["/api/", "/_next/", "/favicon.ico"]

  /** The file extensions of the exemption pattern's alternation. */
  const ImageExtensions: seq<string> := [".svg", ".png", ".jpg", ".jpeg", ".gif", ".ico", ".webp"]

  /** The path ends in one of the image extensions (case-sensitive), as the pattern's `$` anchor demands. */
  predicate HasImageExtension(pathname: string) {
    exists ext :: ext in ImageExtensions && EndsWith(pathname, ext)
  }

  /**
    Paths that are never localised: API routes, framework internals, the
    favicon, and any path ending in one of the image extensions (case-sensitive).
   */
  function IsExempt(pathname: string): (exempt: bool)
    ensures exempt <==> (exists prefix :: prefix in ExemptPrefixes && StartsWith(pathname, prefix)) || HasImageExtension(pathname)
  {
    || StartsWith(pathname, "/api/")
    || StartsWith(pathname, "/_next/")
    || StartsWith(pathname, "/favicon.ico")
    || HasImageExtension(pathname)
  }

  /**
    The path is `/{locale}` or lies under `/{locale}/` for some supported
    locale; with the two codes spelled out, it is `/en`, `/ar`, or starts
    with `/en/` or `/ar/`.
   */
  function HasLocale(pathname: string): (prefixed: bool)
    ensures prefixed <==>
      pathname == "/en" || pathname == "/ar" || StartsWith(pathname, "/en/") || StartsWith(pathname, "/ar/")
  {
    assert "en" in LocaleCodes && "ar" in LocaleCodes;
    exists code :: code in LocaleCodes && (StartsWith(pathname, "/" + code + "/") || pathname == "/" + code)
  }

  /** The first code in `codes` that the header contains anywhere, if any. */
  function FirstIncluded(header: string, codes: seq<string>): (r: Option<string>)
    ensures r.Some? ==> r.value in codes && Contains(header, r.value)
    ensures r.None? <==> forall c :: c in codes ==> !Contains(header, c)
    ensures r.Some? ==> exists k :: 0 <= k < |codes| && codes[k] == r.value && forall j :: 0 <= j < k ==> !Contains(header, codes[j])
  {
    if codes == [] then None
    else if Contains(header, codes[0]) then Some(codes[0])
    else
      var rest := FirstIncluded(header, codes[1..]);
      assert rest.Some? ==> exists k :: 0 <= k < |codes| && codes[k] == rest.value && forall j :: 0 <= j < k ==> !Contains(header, codes[j]) by {
        if rest.Some? {
          var k :| 0 <= k < |codes[1..]| && codes[1..][k] == rest.value && forall j :: 0 <= j < k ==> !Contains(header, codes[1..][j]);
          assert codes[k + 1] == rest.value;
          assert forall j :: 0 <= j < k + 1 ==> !Contains(header, codes[j]) by {
            forall j | 0 <= j < k + 1 ensures !Contains(header, codes[j]) {
              if j > 0 { assert codes[j] == codes[1..][j - 1]; }
            }
          }
        }
      }
      rest
  }

  /**
    The locale a redirect uses: the first supported code the header contains,
    scanning the codes in their fixed order; the default when the header is
    absent or empty or contains none.
   */
  function PreferredLocale(acceptLanguage: Option<string>): (locale: string)
    ensures locale in LocaleCodes
  {
    if acceptLanguage.Some? && acceptLanguage.value != "" then
      match FirstIncluded(acceptLanguage.value, LocaleCodes)
      case Some(code) => code
      case None => DefaultLocale
    else DefaultLocale
  }

  /**
    What the middleware answers for a pathname and an `Accept-Language`
    header: exempt paths pass through whatever the header, and a redirect
    happens exactly for paths that are neither exempt nor prefixed, to the
    same path under the preferred locale.
   */
  function Route(pathname: string, acceptLanguage: Option<string>): (r: Response)
    ensures IsExempt(pathname) ==> r == Next
    ensures r.Redirect? <==> !IsExempt(pathname) && !HasLocale(pathname)
    ensures r.Redirect? ==> r.location == "/" + PreferredLocale(acceptLanguage) + pathname
  {
    if IsExempt(pathname) || HasLocale(pathname) then Next
    else Redirect("/" + PreferredLocale(acceptLanguage) + pathname)
  }

  /** Reads the header and scans the supported codes in order, returning the first one it contains. */
  method GetLocale(acceptLanguage: Option<string>) returns (locale: string)
    ensures locale == PreferredLocale(acceptLanguage)
    ensures locale in LocaleCodes
  {
    if acceptLanguage.Some? && acceptLanguage.value != "" {
      var header := acceptLanguage.value;
      var i := 0;
      while i < |LocaleCodes|
        invariant 0 <= i <= |LocaleCodes|
        invariant FirstIncluded(header, LocaleCodes) == FirstIncluded(header, LocaleCodes[i..])
      {
        if Contains(header, LocaleCodes[i]) {
          return LocaleCodes[i];
        }
        i := i + 1;
      }
    }
    return DefaultLocale;
  }

  /**
    The middleware: exempt paths and already-prefixed paths pass through,
    every other path is redirected under the preferred locale. The fallback
    to the default locale after `GetLocale` never applies, since `GetLocale`
    always yields a supported code.
   */
  method HandleRequest(pathname: string, acceptLanguage: Option<string>) returns (response: Response)
    ensures response == Route(pathname, acceptLanguage)
    ensures response.Redirect? <==> !IsExempt(pathname) && !HasLocale(pathname)
  {
    if IsExempt(pathname) {
      return Next;
    }
    var pathnameHasLocale := HasLocale(pathname);
    if pathnameHasLocale {
      return Next;
    }
    var found := GetLocale(acceptLanguage);
    var locale := if found != "" then found else DefaultLocale;
    response := Redirect("/" + locale + pathname);
  }

  /** Paths that merely begin with a locale's letters are not prefixed. */
  lemma WordsAreNotLocales()
    ensures !HasLocale("/english") && !HasLocale("/arabic") && !HasLocale("/")
  {
    assert "/english"[3] != '/' && "/arabic"[3] != '/';
  }

  /** A string whose character at `k` differs from the prefix's does not start with it. */
  lemma PrefixMismatch(s: string, prefix: string, k: nat)
    requires k < |prefix| && k < |s| && s[k] != prefix[k]
    ensures !StartsWith(s, prefix)
  {
    if |prefix| <= |s| {
      assert s[..|prefix|][k] == s[k];
    }
  }

  /** A non-empty string whose last character differs from the suffix's last does not end with it. */
  lemma SuffixMismatch(s: string, suffix: string)
    requires suffix != [] && s != [] && s[|s| - 1] != suffix[|suffix| - 1]
    ensures !EndsWith(s, suffix)
  {
    if |suffix| <= |s| {
      assert s[|s| - |suffix|..][|suffix| - 1] == s[|s| - 1];
    }
  }

  /**
    A path whose second character is not `a`, `_` or `f` and whose last
    character is not `g`, `f`, `o` or `p` is not exempt.
   */
  lemma NotExempt(pathname: string)
    requires |pathname| >= 2 && pathname[1] !in "a_f" && pathname[|pathname| - 1] !in "gfop"
    ensures !IsExempt(pathname)
  {
    PrefixMismatch(pathname, "/api/", 1);
    PrefixMismatch(pathname, "/_next/", 1);
    PrefixMismatch(pathname, "/favicon.ico", 1);
    SuffixMismatch(pathname, ".svg");
    SuffixMismatch(pathname, ".png");
    SuffixMismatch(pathname, ".jpg");
    SuffixMismatch(pathname, ".jpeg");
    SuffixMismatch(pathname, ".gif");
    SuffixMismatch(pathname, ".ico");
    SuffixMismatch(pathname, ".webp");
  }

  /** API, framework, favicon and image paths are exempt. */
  lemma ExemptExamples()
    ensures IsExempt("/api/submit-request") && IsExempt("/_next/static/app.js") && IsExempt("/favicon.ico")
    ensures IsExempt("/images/logo.svg") && IsExempt("/photo.jpeg")
  {
    assert StartsWith("/api/submit-request", "/api/");
    assert StartsWith("/_next/static/app.js", "/_next/");
    assert StartsWith("/favicon.ico", "/favicon.ico");
    assert EndsWith("/images/logo.svg", ".svg") && EndsWith("/photo.jpeg", ".jpeg");
  }

  /** Page paths are not exempt, and the extension test is case-sensitive: `.SVG` is not exempt. */
  lemma NotExemptExamples()
    ensures !IsExempt("/images/logo.SVG") && !IsExempt("/services")
  {
    NotExempt("/images/logo.SVG");
    NotExempt("/services");
  }

  /** With the header absent or empty the default locale is used. */
  lemma NoHeaderMeansDefault()
    ensures PreferredLocale(None) == "en" && PreferredLocale(Some("")) == "en"
  {
  }

  /**
    The scan looks for `en` first: a header that contains `en` anywhere
    resolves to `en`, even when `ar` comes first or carries a higher weight.
   */
  lemma {:induction false} EnWinsAnywhere(before: string, after: string)
    ensures PreferredLocale(Some(before + "en" + after)) == "en"
  {
    ContainsInfix(before, "en", after);
  }

  /** The locale is `ar` exactly when the header contains `ar` and not `en`. */
  lemma ArabicExactly(acceptLanguage: Option<string>)
    ensures PreferredLocale(acceptLanguage) == "ar" <==>
      acceptLanguage.Some? && Contains(acceptLanguage.value, "ar") && !Contains(acceptLanguage.value, "en")
  {
    if acceptLanguage.Some? && acceptLanguage.value == "" {
      assert !Contains("", "ar");
    }
  }

  /** A string that lacks the first character of `sub` does not include `sub`. */
  lemma {:induction false} NotContainsWithoutFirst(s: string, sub: string)
    requires sub != [] && sub[0] !in s
    ensures !Contains(s, sub)
    decreases |s|
  {
    if s != [] {
      assert s[0] != sub[0];
      NotContainsWithoutFirst(s[1..], sub);
    }
  }

  /** Headers that mention neither code fall back to `en`. */
  lemma NeitherMeansDefault(header: string)
    requires !Contains(header, "en") && !Contains(header, "ar")
    ensures PreferredLocale(Some(header)) == "en"
  {
  }

  /** The root is redirected to `/en/`, with a trailing slash, when the header does not ask for Arabic. */
  lemma RootRedirect()
    ensures Route("/", None) == Redirect("/en/")
  {
    RootRedirectTo(None);
  }

  /** The root always redirects to the preferred locale followed by a slash. */
  lemma RootRedirectTo(acceptLanguage: Option<string>)
    ensures Route("/", acceptLanguage) == Redirect("/" + PreferredLocale(acceptLanguage) + "/")
  {
    WordsAreNotLocales();
  }

  /**
    A browser whose header starts with `ar` and has no `e` anywhere (such as
    `ar-SA,ar;q=0.9`) is sent from the root to `/ar/`.
   */
  lemma RootRedirectArabic(header: string)
    requires StartsWith(header, "ar") && 'e' !in header
    ensures Route("/", Some(header)) == Redirect("/ar/")
  {
    NotContainsWithoutFirst(header, "en");
    assert Contains(header, "ar");
    ArabicExactly(Some(header));
    RootRedirectTo(Some(header));
  }

  /**
    No redirect loop: for a pathname that starts with `/`, the redirect
    target passes through on the next request, whatever header that request
    carries.
   */
  lemma NoRedirectLoop(pathname: string, acceptLanguage: Option<string>, nextHeader: Option<string>)
    requires pathname != [] && pathname[0] == '/'
    requires Route(pathname, acceptLanguage).Redirect?
    ensures Route(Route(pathname, acceptLanguage).location, nextHeader) == Next
  {
    var code := PreferredLocale(acceptLanguage);
    var target := "/" + code + pathname;
    assert StartsWith(target, "/" + code + "/") by {
      assert target[..|"/" + code + "/"|] == "/" + code + "/";
    }
    assert HasLocale(target);
  }
}
