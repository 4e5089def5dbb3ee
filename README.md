# Tamr.me locale routing and request intake, in Dafny

A model of the logic inside the bilingual (English/Arabic) Tamr.me marketing
site. It covers four pieces:

- **Locale middleware** (`middleware.ts`). Each request path either passes
  through or is redirected to `/{locale}{path}`. API routes, framework
  internals, the favicon and image files are exempt. Paths already under
  `/en` or `/ar` pass through. Otherwise the locale is the first of `en`,
  `ar` that the `Accept-Language` header contains as a substring, or `en`.
  `getLocale`'s `for` loop is the method `Middleware.GetLocale`, proved
  against the recursive scan `FirstIncluded`. `Middleware.HandleRequest` is
  proved against the function `Route`.
- **Language context** (`contexts/LanguageContext.tsx`). This covers the
  active-language fallback chain, the right-to-left flag and the bundle
  choice, and the error `useLanguage` raises outside a provider. It also
  covers `setLanguage`'s path rewrite. The rewrite is the method
  `SetLanguage`, proved against the function `RewritePath`. The source
  overwrites `segments[0]` or calls `unshift` on a local array that nothing
  else holds. `SetLanguage` instead rebinds a local sequence to the edited
  value. No other code can see the array, so the pushed path is the same.
  Navigation is modelled as the path that would be pushed.
- **Language switcher** (`components/LanguageSwitcher.tsx`): the opposite
  language, the button caption and the click target.
- **Request-intake endpoint** (`app/api/submit-request/route.ts`). `POST` is
  a pure decision over:
  - the parsed body, or a parse failure;
  - the configured webhook URL;
  - what the webhook call did.

  It returns the HTTP reply and the message posted, if one was posted.
  Validation runs in order, and the first failure wins.

The JavaScript string built-ins these files use are modelled in module
`Strings` over `seq<char>`:

- `startsWith`, `endsWith` and `includes`;
- `trim`, with ECMAScript's white-space and line-terminator set;
- `split` on one character, `join`, and `filter(Boolean)`.

Files: `wrappers.dfy` (Option, Result), `strings.dfy`, `locales.dfy`,
`middleware.dfy`, `language_context.dfy`, `language_switcher.dfy`,
`submit_request.dfy`.

### Behaviour a reader might not expect (the model follows the code)

- **Network failures.** One might expect a failed webhook call to get the
  "Failed to send request. Please try again later." reply. The code gives
  that reply only for a non-2xx response whose body can be read. A `fetch`
  that throws lands in the catch-all, which replies "An unexpected error
  occurred. Please try again." with status 500. So does a refused response
  whose body cannot be read. See `SubmitRequest.AfterWebhook` and
  `SubmitRequest.Handle`.
- **Root redirect.** One might expect `/` to redirect to `/en` or `/ar`.
  The code builds `'/' + locale + pathname`, so the target keeps the
  trailing slash: `/en/` or `/ar/`. See `Middleware.RootRedirect`.
- **Language preference.** One might expect the browser's most preferred
  language to win. The code does not parse `Accept-Language` as section
  12.5.4 of RFC 9110 defines it: it ignores quality values and order, and
  looks for the substring `en` before `ar`. A header that contains `en`
  anywhere, even `ar, en;q=0.1`, resolves to `en`. See
  `Middleware.EnWinsAnywhere`.

## Model

| member | source | states |
|---|---|---|
| `Strings.Trim` | app/api/submit-request/route.ts:15-34 | `trim()` drops only white space on either side; the result neither starts nor ends with white space, and it is empty exactly when the input is all white space |
| `Strings.SplitJoin` | contexts/LanguageContext.tsx:34-40 | joining pieces that contain no separator and splitting again gives back the pieces |
| `Strings.SplitOfJoin` | app/api/submit-request/route.ts:48-58 | splitting a join yields each part's own pieces in order, even when a part contains the separator |
| `Locales.Code` | contexts/LanguageContext.tsx:7 | each language's route code is one of the supported locale codes, two characters long and free of `/` |
| `Middleware.FirstIncluded` | middleware.ts:40-43 | the scan returns the first code in list order that the header contains: every earlier code is absent from the header; it returns none exactly when the header contains no code in the list |
| `Middleware.PreferredLocale` | middleware.ts:36-47 | the resolved locale is always one of `en`, `ar`, never undefined |
| `Middleware.GetLocale` | middleware.ts:36-47 | the `for` loop over the locales with an early return computes the preferred locale |
| `Middleware.IsExempt` | middleware.ts:11-16 | a path is exempt exactly when it starts with one of `/api/`, `/_next/`, `/favicon.ico` or ends with one of the extensions in the pattern's alternation `svg png jpg jpeg gif ico webp` |
| `Middleware.HasLocale` | middleware.ts:21-23 | `locales.some(...)` over the two codes holds exactly when the path is `/en` or `/ar` or starts with `/en/` or `/ar/` |
| `Middleware.Route` | middleware.ts:7-34 | exempt paths pass through whatever the header; a redirect happens if and only if the path is neither exempt nor prefixed, and it goes to `'/' + locale + pathname` with the preferred locale |
| `Middleware.HandleRequest` | middleware.ts:7-34 | the middleware answers as `Route`, so the `\|\| defaultLocale` fallback never applies; it redirects exactly for non-exempt, unprefixed paths |
| `Middleware.WordsAreNotLocales` | middleware.ts:21-23 | `/english`, `/arabic` and `/` do not count as locale-prefixed |
| `Middleware.ExemptExamples` | middleware.ts:11-16 | API, `_next`, favicon and image paths are exempt |
| `Middleware.NotExemptExamples` | middleware.ts:11-16 | page paths are not exempt, and the extension test is case-sensitive: `.SVG` is not exempt |
| `Middleware.NoHeaderMeansDefault` | middleware.ts:38-46 | an absent or empty header gives `en` |
| `Middleware.NeitherMeansDefault` | middleware.ts:38-46 | a header containing neither `en` nor `ar` gives `en` |
| `Middleware.EnWinsAnywhere` | middleware.ts:40-43 | a header containing `en` anywhere gives `en`, whatever precedes it |
| `Middleware.ArabicExactly` | middleware.ts:38-46 | the locale is `ar` if and only if the header contains `ar` and not `en` |
| `Middleware.RootRedirectTo` | middleware.ts:31-32 | the root redirects to the preferred locale followed by a slash |
| `Middleware.RootRedirect` | middleware.ts:31-32 | with no header, `/` redirects to `/en/` |
| `Middleware.RootRedirectArabic` | middleware.ts:31-32 | a header such as `ar-SA,ar;q=0.9` sends `/` to `/ar/` |
| `Middleware.NoRedirectLoop` | middleware.ts:21-33 | for a pathname starting with `/`, the redirect target passes through on the next request, whatever header that request carries |
| `LanguageContext.Segments` | contexts/LanguageContext.tsx:34 | `split('/').filter(Boolean)` yields non-empty segments without `/` |
| `LanguageContext.Relocalize` | contexts/LanguageContext.tsx:35-39 | the edited segment list always leads with the new code; after it come the old segments minus a leading `en`/`ar`, or all the old segments when there is none; clean segments stay clean |
| `LanguageContext.RewritePath` | contexts/LanguageContext.tsx:34-40 | the new path is rooted at `/`; its segments, read back with `split('/').filter(Boolean)`, are the relocalised segments of the old path; and it is in normal form, `/` followed by those segments joined by `/`, with no empty segment and no trailing slash |
| `LanguageContext.SetLanguage` | contexts/LanguageContext.tsx:32-42 | the segment edit computes `RewritePath`, and the new path's segments are the relocalised old ones |
| `LanguageContext.SegmentsOfRooted` | contexts/LanguageContext.tsx:34-40 | reading back the segments of `'/' + segments.join('/')` gives the segments |
| `LanguageContext.RewriteStartsWithLocale` | contexts/LanguageContext.tsx:34-40 | the new path is `/{lang}` or starts with `/{lang}/` |
| `LanguageContext.ReplacesLeadingLocale` | contexts/LanguageContext.tsx:35-36 | a leading `en`/`ar` segment is replaced and all later segments are kept in order |
| `LanguageContext.InsertsLocale` | contexts/LanguageContext.tsx:37-38 | without a leading locale, `lang` is inserted in front, nothing is removed, and the segment count grows by one |
| `LanguageContext.RewriteIdempotent` | contexts/LanguageContext.tsx:34-40 | rewriting twice to the same language equals rewriting once |
| `LanguageContext.RewriteKeepsNormalPath` | contexts/LanguageContext.tsx:34-40 | a normalised path already under `lang` is unchanged |
| `LanguageContext.SwitchExample` | contexts/LanguageContext.tsx:34-40 | `/en/foo/bar` becomes `/ar/foo/bar` |
| `LanguageContext.RootExample` | contexts/LanguageContext.tsx:37-40 | `/` becomes `/ar` |
| `LanguageContext.NormaliseExample` | contexts/LanguageContext.tsx:34-40 | empty segments are dropped: `/en//foo/` becomes `/ar/foo` |
| `LanguageContext.ActiveLanguage` | contexts/LanguageContext.tsx:29-30 | the route's locale wins, then the initial locale, then `en` |
| `LanguageContext.Provide` | contexts/LanguageContext.tsx:44-49 | the bundle is the active language's, and `isRTL` holds if and only if the language is Arabic |
| `LanguageContext.UseLanguage` | contexts/LanguageContext.tsx:54-60 | outside a provider the hook fails with its error; inside it returns the provider's value |
| `LanguageSwitcher.Opposite` | components/LanguageSwitcher.tsx:10 | the offered language always differs from the current one |
| `LanguageSwitcher.OppositeInvolution` | components/LanguageSwitcher.tsx:10 | taking the opposite twice gives back the original |
| `LanguageSwitcher.Label` | components/LanguageSwitcher.tsx:11 | the caption names the offered language: Arabic in Arabic script exactly when Arabic is offered, `EN` otherwise |
| `LanguageSwitcher.ClickTarget` | components/LanguageSwitcher.tsx:15 | a click navigates under the opposite language's code, never the current one's |
| `LanguageSwitcher.ClickRoundTrip` | components/LanguageSwitcher.tsx:15 | two clicks lead back to the current language with the rest of the path preserved |
| `SubmitRequest.CheckRequired` | app/api/submit-request/route.ts:15-34 | a field is blank if and only if it is absent, falsy or white space only; a truthy non-string throws; a filled field trims to something non-empty |
| `SubmitRequest.Validate` | app/api/submit-request/route.ts:15-34 | the name error if and only if the name is blank; the phone error only when the name is filled; the details error only when both are filled; a `TypeError` if and only if the first field that is not filled is a truthy non-string; success if and only if all three are filled |
| `SubmitRequest.EmailShown` | app/api/submit-request/route.ts:52 | the email line shows the trimmed email, or `Not provided` when the email is absent or blank; a non-string email throws |
| `SubmitRequest.AfterWebhook` | app/api/submit-request/route.ts:61-85 | success if and only if the webhook answered 2xx, and then the reply is status 200, `success: true` and no error; a non-2xx answer whose body can be read gives 500 with the retry message; a non-2xx answer whose body cannot be read, or a call that throws, gives 500 with the generic message |
| `SubmitRequest.Handle` | app/api/submit-request/route.ts:10-86 | `success: true` with status 200 if and only if everything is valid, the URL is set and the webhook accepts; every failure is `success: false` with 400 or 500; 400 if and only if validation stops at a blank field, with that field's message; the configuration error if and only if the three fields are valid and no URL is set; 500 with the generic message for an unparsable body, for validation that stops at a truthy non-string field (the first required field that is not filled), and for a non-string email once the fields are valid and the URL is set; the webhook is called if and only if every check passed, it receives the formatted message, and the reply is then `AfterWebhook`'s |
| `SubmitRequest.NameFirst` | app/api/submit-request/route.ts:15-20 | a missing or blank name gives 400 "Name is required." and no webhook call, whatever else holds |
| `SubmitRequest.MissingConfiguration` | app/api/submit-request/route.ts:37-45 | a valid request without a URL gives 500 with the configuration message and no webhook call |
| `SubmitRequest.EmailNotValidated` | app/api/submit-request/route.ts:15-34 | any string email, even a malformed one, succeeds when the rest is valid |
| `SubmitRequest.AcceptedExample` | app/api/submit-request/route.ts:69-78 | `{A, 555, help}` with a working webhook gives 200 and `success: true` |
| `SubmitRequest.RefusedExample` | app/api/submit-request/route.ts:69-76 | the same request refused by the webhook gives 500 with the retry message |
| `SubmitRequest.MessageLayout` | app/api/submit-request/route.ts:48-58 | when the trimmed name, the shown email and the trimmed phone contain no line feed, splitting the message on line feeds gives: the title, a blank line, the name, email and phone lines, `- Request:`, a line of three backticks, the lines of the trimmed details, and another line of three backticks |
| `SubmitRequest.DiscordContent` | app/api/submit-request/route.ts:48-58 | for every input, the message is the template filled in: the title line, a blank line, `- Name: ` with the trimmed name, `- Email: ` with the shown email, `- Phone: ` with the trimmed phone, `- Request:`, then the trimmed details between two lines of three backticks, joined by line feeds |

## Left out

- Translation bundle contents (`lib/translations.ts`). They are static data. The model keeps only the `Language` type and records which bundle is chosen.
- Route parameter validation. The page layout returns "not found" for a route locale other than `en`/`ar`, and the context casts the parameter to `Language`. So `ActiveLanguage` takes the route locale as an optional `Language`, and a stray string never reaches the context in the model.
- Framework plumbing: `useParams`, `usePathname`, `router.push` and React's context machinery. They are inputs, or are replaced by the pushed path.
- The middleware's absolute URL (`new URL(..., request.url)`). Only the path is modelled. URL parsing would normalise dot segments and percent-encoding, and that normalisation is not modelled.
- The framework's `config.matcher` regular expression. The framework evaluates it, not the middleware code.
- Server-side I/O in the intake handler. These are external effects, and the model turns them into inputs and outputs:
  - `request.json()` becomes the `Payload` input. A JSON `null` body throws on its first field access, so it is folded into `Unparsable`, which has the same outcome.
  - `process.env` becomes the `webhookUrl` input.
  - `fetch` and `text()` become the `WebhookOutcome` input.
  - `console.error` logging is not modelled.
  - `JSON.stringify` of `{content}` is not modelled.
  - `NextResponse` construction becomes the `Reply` record.
- The client form controller, its e-mail pattern and its dismiss timer. These live in files outside this core.
- `html-attributes-setter.tsx` and the root layout. They are a DOM side effect and static markup. Their only logic (`rtl` exactly for `ar`) duplicates `Provide`'s `isRTL`.
- String encoding. JavaScript strings are UTF-16 code units, while Dafny's `char` is a Unicode scalar value. No string length is observable in this core, so nothing depends on the difference.
