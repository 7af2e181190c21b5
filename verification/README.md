# Cote Royale storefront: a verified model of its logic

This project models the server and client logic of a fragrance storefront built on Next.js, with Prismic as its CMS, Stripe for checkout and Resend for mail. It leaves out the rendering. It covers:

- the fixed-window rate limiter and its shared in-memory store;
- contact-form validation and sanitisation;
- the cart updaters and totals;
- checkout reconciliation against CMS prices;
- the contact and search API routes;
- the security and CORS header decorators;
- the locale helpers, the CMS link resolver and the language switcher list;
- the contact-form hook on the client.

Calls to the CMS, Stripe, Resend and the cookie store become inputs of the model: the outcome each call gives. `Date.now()` becomes a `now` parameter. Zod's e-mail format test becomes the predicate `isEmail`. State the source changes in place is modelled as Dafny classes:

- the rate-limit store;
- the cart;
- the response headers;
- the hook's state cells.

The rest is functions. `btoa`, used for the fallback client identifier, is modelled as Base64 per section 4 of RFC 4648 over Latin-1 code units.

Modules, one per source file:

- `RateLimiter`
- `Validation`, over `JsString`, which holds the JavaScript string operations
- `Cart` and `AddToCartButton`
- `Checkout`
- `ContactRoute`
- `SearchRoute`
- `Security`, over `Http`
- `I18n`
- `Locale`
- `Prismicio`
- `GetLocales`
- `UseContactForm`
- `Base64`

## Model

| member | source | states |
|---|---|---|
| RateLimiter.CeilSeconds | src/utils/rateLimiter.ts:64 | `Math.ceil(ms/1000)`: the result r is the least integer with ms ≤ 1000·r, for negative ms too |
| RateLimiter.Limiter.Cleanup | src/utils/rateLimiter.ts:82-88 | the loop deletes exactly the entries with resetTime ≤ cutoff and keeps every other entry unchanged |
| RateLimiter.Limiter.Check | src/utils/rateLimiter.ts:29-77 | the store after cleanup and update, and the returned result, are those of the specification `Step` |
| RateLimiter.CreateLimiters | src/utils/rateLimiter.ts:119-132 | both limiters share one empty store; contact allows 5 per 900000 ms, the API limiter 20 per 60000 ms |
| RateLimiter.FreshWindow | src/utils/rateLimiter.ts:43-56 | no entry or an expired one: allowed, count 1, resetTime now+windowMs, remaining maxRequests−1 |
| RateLimiter.Denied | src/utils/rateLimiter.ts:58-66 | a full, unexpired window: denied, remaining 0, the entry unchanged |
| RateLimiter.RetryAfterAtLeastOneSecond | src/utils/rateLimiter.ts:43-64 | every denial carries retryAfter ≥ 1, the ceiling of the remaining window in seconds |
| RateLimiter.Increment | src/utils/rateLimiter.ts:68-76 | otherwise the count rises by exactly 1 and remaining = maxRequests − count ≥ 0 |
| RateLimiter.CleanupIsInvisible | src/utils/rateLimiter.ts:36-43 | cleanup never changes the decision for the identifier checked |
| RateLimiter.OtherEntriesUntouched | src/utils/rateLimiter.ts:36-88 | a check leaves every other identifier's entry unchanged; only expired ones may be dropped |
| RateLimiter.StepKeepsCountsWithin | src/utils/rateLimiter.ts:43-76 | with maxRequests ≥ 1, no stored count ever exceeds maxRequests |
| RateLimiter.RunInsideWindow | src/utils/rateLimiter.ts:58-76 | inside one window, calls are allowed while the count is below the limit and denied after it |
| RateLimiter.WindowAllowsExactlyMax | src/utils/rateLimiter.ts:43-76 | starting a window, the first maxRequests calls are allowed and every later call in it is denied |
| RateLimiter.FirstForwarded | src/utils/rateLimiter.ts:102 | the text before the first comma (all of it when there is none), trimmed; so no comma and no surrounding whitespace |
| RateLimiter.Fallback | src/utils/rateLimiter.ts:109-113 | "fallback-" then at most 16 Base64 characters; nothing when `btoa` throws |
| RateLimiter.GetClientIdentifier | src/utils/rateLimiter.ts:94-114 | sources tried in order: x-forwarded-for, x-real-ip, cf-connecting-ip, fallback; an empty header counts as absent |
| RateLimiter.IdentifierIgnoresLowerSources | src/utils/rateLimiter.ts:100-106 | once x-forwarded-for is present, the other headers never matter |
| RateLimiter.IdentifierFailsOnlyOnWideCharacters | src/utils/rateLimiter.ts:109-111 | deriving the identifier throws exactly when the fallback is reached and user-agent+accept holds a character above U+00FF |
| Base64.ValueOf | src/utils/rateLimiter.ts:111 | an alphabet character stands for a 6-bit value |
| Base64.ValueOfCharOf | src/utils/rateLimiter.ts:111 | every 6-bit value survives the alphabet round trip |
| Base64.Encode | src/utils/rateLimiter.ts:111 | the encoding has four characters per three bytes, rounded up |
| Base64.DecodeEncode | src/utils/rateLimiter.ts:111 | every encoding is well formed and decodes back to the bytes |
| Base64.EncodingAlphabet | src/utils/rateLimiter.ts:111 | an encoding holds only alphabet characters and `=` |
| Base64.Btoa | src/utils/rateLimiter.ts:111 | `btoa` fails exactly on a character above U+00FF |
| Base64.BtoaRoundTrip | src/utils/rateLimiter.ts:111 | `btoa` output decodes to the input's character codes, so it loses nothing |
| JsString.Trim | src/utils/validation.ts:62 | `trim` is the slice of the input between an all-whitespace prefix and an all-whitespace suffix, and that slice neither starts nor ends with whitespace |
| JsString.StrippedTwice | src/utils/validation.ts:62 | a whitespace-stripped prefix of a whitespace-stripped suffix is a slice with whitespace only outside it |
| JsString.TrimChars | src/utils/validation.ts:62 | `trim` invents no character: every character of the result comes from the input |
| JsString.Split | src/utils/validation.ts:89 | `split` gives at least one piece, none containing the separator, and they join back to the input |
| JsString.SplitFirstPiece | src/utils/rateLimiter.ts:102 | the first piece of `split` is the input up to the first separator, or all of it |
| JsString.IndexOf | src/app/api/contact/route.ts:116 | the first occurrence at or after `from`, or none at all |
| JsString.FirstOccurrence | src/app/api/contact/route.ts:116 | an occurrence with no earlier copy of the pattern's first character is the one `replace` finds |
| JsString.ReplaceChar | src/utils/validation.ts:56-61 | a global one-character replace keeps no occurrence when the replacement has none, and invents nothing |
| JsString.LiteralSubstitution | src/app/api/contact/route.ts:116 | a replacement string without `$` is inserted literally |
| Validation.ReplacementsEscapeEachCharacter | src/utils/validation.ts:56-61 | the five chained replaces equal escaping each character on its own |
| Validation.NoMarkupAfterEscape | src/utils/validation.ts:56-61 | escaped text contains none of `< > " ' /` |
| Validation.SanitizeTextEscapes | src/utils/validation.ts:55-63 | `sanitizeText` is escaping then trimming, and its output holds no markup character |
| Validation.EmailDomainIsAfterFirstAt | src/utils/validation.ts:89 | the domain examined runs from the first `@` to the next `@` or the end |
| Validation.NoAtRefused | src/utils/validation.ts:89-90 | an address without `@` is refused |
| Validation.EmptyDomainRefused | src/utils/validation.ts:89-90 | an empty domain is refused |
| Validation.DisposableDomainRefused | src/utils/validation.ts:93-100 | the four disposable domains are refused in any letter case |
| Validation.OtherDomainAccepted | src/utils/validation.ts:88-101 | any other non-empty domain is accepted |
| Validation.TempmailRefused | src/utils/validation.ts:95-100 | an address at `TempMail.org`, whatever its local part, is refused: the domain is lower-cased before the comparison |
| Validation.InlineHandlerSuspicious | src/utils/validation.ts:45-49 | an inline `OnClick = ` handler is suspicious; case and spaces before `=` do not matter |
| Validation.ScriptElementSuspicious | src/utils/validation.ts:42-49 | a script element is suspicious |
| Validation.NoElementWithoutOpeningBracket | src/utils/validation.ts:42-46 | the script and iframe patterns need a `<`, in any letter case, so text without one never matches them |
| Validation.SanitizedHasNoElement | src/utils/validation.ts:40-63 | for every input, the output of `sanitizeText` matches neither the script nor the iframe pattern |
| Validation.RunEnd | src/utils/validation.ts:71-76 | a URL match extends to the next whitespace or the end |
| Validation.UrlCountPositive | src/utils/validation.ts:76 | the URL count is positive exactly when a URL starts somewhere |
| Validation.SpamIsAnyIndicator | src/utils/validation.ts:68-83 | spam exactly when a keyword, any URL, a run of 5 equal characters or 10 capitals occurs; the "more than 2 URLs" test is subsumed |
| Validation.RepeatedLettersAreSpam | src/utils/validation.ts:72-82 | ten repeated letters are spam |
| Validation.CollapseWhitespace | src/utils/validation.ts:28 | no whitespace is left but single spaces, no two of them adjacent; the result starts with whitespace iff the input does; the other characters are kept in order; the text never grows |
| Validation.NonWhitespaceSkipsLeading | src/utils/validation.ts:28 | leading whitespace holds none of the characters that are kept |
| Validation.CollapseIsSqueezedSpaces | src/utils/validation.ts:28 | collapsing equals turning every whitespace character into a space and then dropping each space that follows a space |
| Validation.SqueezeLeadingRun | src/utils/validation.ts:28 | a leading whitespace run squeezes to one space |
| Validation.ParsedFormShape | src/utils/validation.ts:4-31 | a parsed form has a trimmed non-empty name ≤ 100, a meaningful message ≤ 1000, and an e-mail ≤ 254 that passes the format test |
| Validation.TrimIdempotent | src/utils/validation.ts:9-26 | trimming twice is trimming once |
| Validation.ValidateContactForm | src/utils/validation.ts:107-155 | the step-by-step validation returns the specification result `Validate` |
| Validation.CollectContentErrors | src/utils/validation.ts:116-133 | the pushes yield exactly the content errors, in their fixed order |
| Validation.SchemaFailureShortCircuits | src/utils/validation.ts:114-154 | a schema error reports only its issues; any other exception gives exactly ["Invalid input data"] |
| Validation.SuccessIffChecksPass | src/utils/validation.ts:116-137 | after the schema: success iff all four content checks pass |
| Validation.ContentErrorsOrdered | src/utils/validation.ts:116-133 | each error appears iff its check fails, at most once, in the order name, message, domain, spam |
| Validation.AcceptedDataIsSanitized | src/utils/validation.ts:139-146 | accepted name and message hold no markup character; the e-mail is the parsed one |
| Cart.Clamp | src/context/CartContext.tsx:85 | `max(1, min(99, q))` lies in 1..99 and equals q when q is in range |
| Cart.Removed | src/context/CartContext.tsx:76-78 | a line stays iff its id differs; the result is no longer than the cart |
| Cart.Updated | src/context/CartContext.tsx:80-88 | the same length; matching lines get the clamped quantity and the others are unchanged |
| Cart.CartStore.AddToCart | src/context/CartContext.tsx:60-74 | the cart becomes `Added(old cart, item)` |
| Cart.CartStore.RemoveFromCart | src/context/CartContext.tsx:76-78 | the cart becomes `Removed(old cart, id)` |
| Cart.CartStore.UpdateQuantity | src/context/CartContext.tsx:80-88 | the cart becomes `Updated(old cart, id, q)` |
| Cart.CartStore.ClearCart | src/context/CartContext.tsx:90-92 | the cart becomes empty |
| Cart.AddExisting | src/context/CartContext.tsx:62-69 | a known id keeps the length and raises that line by one, capped at 99 |
| Cart.AddNew | src/context/CartContext.tsx:72 | a new id appends one line with quantity 1; the other lines are unchanged |
| Cart.RemovedConcat | src/context/CartContext.tsx:76-78 | removal keeps the order of what remains |
| Cart.UnknownIdIsNoOp | src/context/CartContext.tsx:76-88 | an unknown id changes nothing, for remove and for update |
| Cart.AddKeepsWellFormed | src/context/CartContext.tsx:60-74 | adding keeps unique ids and quantities in 1..99 |
| Cart.RemoveKeepsWellFormed | src/context/CartContext.tsx:76-78 | removing keeps unique ids and quantities in 1..99 |
| Cart.UpdateKeepsWellFormed | src/context/CartContext.tsx:80-88 | updating keeps unique ids and quantities in 1..99 |
| Cart.UpdateNeverRemoves | src/context/CartContext.tsx:80-88 | a quantity ≤ 0 becomes 1; no line is removed |
| Cart.EmptyTotals | src/context/CartContext.tsx:94-98 | the empty cart has 0 items and costs 0 |
| Cart.TotalsConcat | src/context/CartContext.tsx:94-98 | both totals add up over concatenation |
| Cart.TotalsSingle | src/context/CartContext.tsx:94-98 | one line counts its quantity and costs price × quantity |
| Cart.TotalsReplace | src/context/CartContext.tsx:94-98 | replacing one line changes the totals by that line's difference |
| Cart.AddRaisesTotalItems | src/context/CartContext.tsx:60-95 | adding raises the item count by one, except on a line already at 99 |
| Cart.TotalItemsBounds | src/context/CartContext.tsx:94-95 | in a well-formed cart the item count lies between the number of lines and 99 times that |
| AddToCartButton.ButtonItem | src/components/AddToCartButton.tsx:15-29 | the item the button adds has no id, and its uid is whatever the caller passed as `uid` (nothing, at both call sites) |
| AddToCartButton.DistinctProductsMerged | src/components/AddToCartButton.tsx:27 | as written, any second product is merged into the first one's line, which then has quantity 2 |
| AddToCartButton.ButtonItemCorrected | src/components/AddToCartButton.tsx:25-29 | the corrected item carries the product's document id as both its id and its uid |
| AddToCartButton.CorrectedButtonKeepsProductsApart | src/components/AddToCartButton.tsx:27 | with the id given, a product gets its own line, and adding it again only raises its quantity |
| AddToCartButton.CorrectedDistinctProductsApart | src/components/AddToCartButton.tsx:27 | two different products added through the corrected button stay on two lines |
| Checkout.Dedup | src/app/api/checkout/route.ts:24-25 | `[...new Set(xs)]` holds the same values, each once |
| Checkout.Uids | src/app/api/checkout/route.ts:24 | one uid per cart line, in order |
| Checkout.ProductMap | src/app/api/checkout/route.ts:28 | the map's keys are the product ids and each maps to a product with that id |
| Checkout.ProductMapLastWins | src/app/api/checkout/route.ts:28 | for a repeated id, the last product in the list wins |
| Checkout.Reconcile | src/app/api/checkout/route.ts:32-74 | Ok iff every line passes, with one CMS-priced item per line in cart order; Err names the first failing line |
| Checkout.Origin | src/app/api/checkout/route.ts:76 | the origin used is never empty: a missing or empty header gives way to the default |
| Checkout.Post | src/app/api/checkout/route.ts:12-150 | cart check 400, deduplicated lookup, 404 or 400 for the first bad line, session request, 500 on a missing url or a throw |
| Checkout.MissingUidRejected | src/app/api/checkout/route.ts:33-42 | a first line without `uid` is the first refused, with 404 "Product with ID undefined not found." |
| Checkout.LineItemPricedFromCms | src/app/api/checkout/route.ts:51-73 | the charge is the CMS price (0 when absent) times the client quantity; the client name and price are ignored |
| Checkout.ZeroPriceAccepted | src/app/api/checkout/route.ts:53-56 | a zero CMS price is accepted |
| Checkout.LookupIdsAreCartIds | src/app/api/checkout/route.ts:24-25 | the CMS is asked for each cart identifier exactly once |
| Checkout.DedupNoLonger | src/app/api/checkout/route.ts:24-25 | deduplication never lengthens the list |
| Checkout.RedirectUrls | src/app/api/checkout/route.ts:76-78 | success and cancel URLs are origin + "/" + lang + the fixed paths, with the session placeholder on success |
| ContactRoute.Digits | src/app/api/contact/route.ts:36-37 | a non-empty string of decimal digits |
| ContactRoute.IntToString | src/app/api/contact/route.ts:34-37 | `toString` of an integer is never empty |
| ContactRoute.DigitsRoundTrip | src/app/api/contact/route.ts:34-37 | the digits read back give the number |
| ContactRoute.Options | src/app/api/contact/route.ts:14-17 | an empty 200 carrying the security and CORS headers |
| ContactRoute.Decide | src/app/api/contact/route.ts:19-181 | the limiter's new store and the reply are those of `Answer`: the quota is spent before the body is read, and an identifier failure is the catch-all 500 |
| ContactRoute.AnswerChecked | src/app/api/contact/route.ts:25-171 | after the limiter: 429 when denied, 400 for an unusable body, otherwise the validation outcome |
| ContactRoute.Post | src/app/api/contact/route.ts:19-181 | the response carries the status and body of `Answer`, its headers with the JSON type, then the security and CORS headers; the e-mails sent are the reply's |
| ContactRoute.QuotaSpentWhateverTheBody | src/app/api/contact/route.ts:22-46 | the limiter's new store does not depend on the body, the settings or the mail outcome, and equals one limiter step for an identified client |
| ContactRoute.RateLimitedReply | src/app/api/contact/route.ts:25-43 | a denial is a 429 with Retry-After (or "900"), limit "5", remaining and reset; no mail is sent |
| ContactRoute.RetryAfterFromLimiter | src/app/api/contact/route.ts:34 | the contact limiter always gives its own wait of ≥ 1 s, so the "900" fallback is never used |
| ContactRoute.AfterSettingsOutcome | src/app/api/contact/route.ts:82-171 | after the settings lookup: 200 iff a recipient is configured and the owner mail is delivered; mail is attempted iff a recipient is configured |
| ContactRoute.SuccessIffAllStepsSucceed | src/app/api/contact/route.ts:19-171 | 200 iff allowed, a truthy JSON body, valid input, a recipient, and the owner e-mail delivered |
| ContactRoute.EmailOnlyAfterRecipient | src/app/api/contact/route.ts:46-131 | mail goes out iff allowed, valid input and a recipient are all there |
| ContactRoute.LanguageErrorUnreachable | src/app/api/contact/route.ts:72-80 | after validation the locale check never fires: the answer is that of the settings step |
| ContactRoute.SuccessSendsBothEmails | src/app/api/contact/route.ts:115-171 | on success the owner mail goes to the recipient, replying to the sender; the confirmation goes to the sender; the rate-limit headers are kept |
| ContactRoute.OwnerFailureSkipsConfirmation | src/app/api/contact/route.ts:122-180 | an undelivered owner mail answers 500 and no confirmation is attempted |
| ContactRoute.ValidationFailureDetails | src/app/api/contact/route.ts:58-67 | a validation failure is a 400 whose details are exactly the validator's messages, in order |
| ContactRoute.SubjectFallback | src/app/api/contact/route.ts:115-117 | no template, or an empty one, gives "Contact form message from " + name |
| ContactRoute.PlaceholderAfter | src/app/api/contact/route.ts:116 | in `pre + "{{name}}" + post`, with no placeholder starting in `pre`, the placeholder found is the one after `pre` |
| ContactRoute.SubjectNamesSender | src/app/api/contact/route.ts:116 | the first `{{name}}` is replaced by a name without `$` |
| ContactRoute.PlaceholderAtSeventeen | src/app/api/contact/route.ts:116 | in the default owner subject the placeholder is found right after "New message from " |
| ContactRoute.SubjectExpandsDollarPatterns | src/app/api/contact/route.ts:116 | a name `$&` is read as a replacement pattern and leaves the placeholder in the subject |
| ContactRoute.LiteralSubjectNamesSender | src/app/api/contact/route.ts:115-117 | with the name inserted as plain text, any name, `$` included, replaces the first placeholder |
| ContactRoute.LiteralSubjectKeepsDollarName | src/app/api/contact/route.ts:115-117 | with the name inserted as plain text, a sender called `$&` is named in the subject |
| SearchRoute.LangCheckedFirst | src/app/api/search/route.ts:12-17 | a missing or empty lang is a 400 whatever the query, and the CMS is not asked |
| SearchRoute.UnknownLangRefused | src/app/api/search/route.ts:19-26 | an unknown lang is a 400 "Invalid language: " + lang |
| SearchRoute.EmptyQueryAnswersEmptyList | src/app/api/search/route.ts:28-30 | a known lang with no query answers [] without asking the CMS |
| SearchRoute.SearchIffParametersValid | src/app/api/search/route.ts:12-48 | the CMS is asked iff both parameters are present and the lang is known, and then in the CMS id of that lang |
| SearchRoute.SearchAnswer | src/app/api/search/route.ts:32-59 | a search answers 200 with the CMS documents, or 500 when the CMS throws |
| Security.WithSecurityHeaders | src/utils/security.ts:6-24 | the same response, its headers updated with the six fixed security headers and nothing else changed |
| Security.WithCors | src/utils/security.ts:29-49 | the same response, its headers updated with the four CORS headers and nothing else changed |
| Security.AllowedOriginCases | src/utils/security.ts:33-40 | the origin is the first listed one, else the site URL, else http://localhost:3000 |
| Security.DecoratorsCommute | src/utils/security.ts:8-46 | the two header sets are disjoint, so the order of the decorators does not matter |
| Security.DecoratorsIdempotent | src/utils/security.ts:8-46 | applying either decorator twice is applying it once |
| Security.DecoratedHeaders | src/utils/security.ts:8-46 | a decorated response carries all ten headers and keeps each other header it had |
| I18n.Get | src/i18n.ts:12-15 | `LOCALES[key]` is the value stored under key, or undefined when there is none |
| I18n.KeyOf | src/i18n.ts:42-48 | the loop finds a key whose value matches, or there is none |
| I18n.KeyOfIsSound | src/i18n.ts:43-46 | a key found maps back to the value searched for |
| I18n.KeyOfGet | src/i18n.ts:12-48 | looking a key's value up again gives the key back |
| I18n.ReverseLocaleLookupCases | src/i18n.ts:12-48 | "en" gives "en-us", "pl" gives "pl", anything else undefined |
| I18n.ReverseLocaleLookupSound | src/i18n.ts:43-46 | a defined result r satisfies LOCALES[r] == input |
| I18n.ReverseLocaleLookupRoundTrip | src/i18n.ts:12-48 | reverseLocaleLookup(LOCALES[k]) == k for every key k |
| I18n.PathnameHasLocaleCases | src/i18n.ts:32-36 | true iff the path is "/en" or "/pl", or starts with "/en/" or "/pl/" |
| Locale.IsValidLocaleCases | src/utils/locale.ts:43-45 | a locale is valid iff it is "en" or "pl" |
| Locale.DefaultLocale | src/utils/locale.ts:51-53 | the default is the URL prefix of "en-us", and it is valid |
| Locale.ValidateLocaleFromCookie | src/utils/locale.ts:60-71 | the cookie value when it is valid, else "en"; always valid |
| Locale.ValidateLocaleIdempotent | src/utils/locale.ts:60-71 | validating twice is validating once |
| Locale.GetPrismicLangFromUrl | src/utils/locale.ts:78-83 | undefined for an invalid locale, otherwise a CMS id that maps back to it |
| Locale.PrismicLangAgreesWithLookup | src/utils/locale.ts:78-83 | for a valid locale the result equals reverseLocaleLookup |
| Locale.GetCurrentLocale | src/utils/locale.ts:8-36 | lang is the cookie value when valid, else "en"; prismicLang is always defined and maps back to lang |
| Locale.CurrentLocaleAgreesWithCookieValidation | src/utils/locale.ts:12-71 | getCurrentLocale picks the same language as validateLocaleFromCookie |
| Prismicio.RoutePrefix | src/prismicio.ts:26 | "pl" keeps its prefix; "en-us" and every unknown CMS locale get "en" |
| Prismicio.LinkResolver | src/prismicio.ts:22-40 | homepage, fragrance, quiz and contact_page give their paths under the locale; any other type gives null |
| Prismicio.LinkResolverHasLocale | src/prismicio.ts:26-38 | every path the resolver produces satisfies pathnameHasLocale |
| GetLocales.LocaleLinks | src/utils/getLocales.ts:15-32 | one entry per repository language, its url the homepage link of that language |
| GetLocales.FirstIndexOf | src/utils/getLocales.ts:36-38 | the first position holding the language, or none when it does not occur |
| GetLocales.MovedToFrontIsPermutation | src/utils/getLocales.ts:39-40 | moving an element to the front loses and duplicates nothing |
| GetLocales.ReorderedFacts | src/utils/getLocales.ts:34-43 | the active language first when present, the others in order, a permutation of the mapped list |
| GetLocales.FindIndex | src/utils/getLocales.ts:38 | the loop returns the first matching index, or -1 |
| GetLocales.MoveToFront | src/utils/getLocales.ts:39-40 | the array becomes element i followed by the others in order |
| GetLocales.GetLocales | src/utils/getLocales.ts:12-44 | the returned array is the specification's reordered list |
| UseContactForm.Settle | src/hooks/useContactForm.ts:46-63 | never loading or idle; a message is always shown; success iff the response is ok; the form reset iff success |
| UseContactForm.FailureShowsServerError | src/hooks/useContactForm.ts:53-58 | a non-ok response shows the server's error text, or the default text when there is none |
| UseContactForm.ContactFormHook.Start | src/hooks/useContactForm.ts:34-68 | loading with the message cleared, so isSubmitting holds |
| UseContactForm.ContactFormHook.Finish | src/hooks/useContactForm.ts:37-68 | status and message as `Settle` says, the form reset once on success, isSubmitting false |
| UseContactForm.ContactFormHook.Submit | src/hooks/useContactForm.ts:33-64 | start, then settle on the fetch result |

## Left out

- Strings are sequences of Unicode code points, not of UTF-16 code units. The model differs from the source only for characters outside the Basic Multilingual Plane, in two places. `String.length` and `.slice` count such a character once, where the source counts two units. The repeated-character pattern `/(.)\1{4,}/` reads code points in the model, where the source's `.` takes one unit. So five identical astral characters, U+1F600 say, count as a run in the model, while the source sees alternating surrogates and no run.
- `toLowerCase` is modelled on the ASCII letters only. Regular-expression case folding (`i` flag) is modelled the same way.
- Zod's e-mail format test is the parameter `isEmail`. The model assumes Zod 4 behaviour: the checks of a field do not abort each other, they are reported in declaration order, and its type messages read "Invalid input: expected string, received …".
- Numbers in the parsed body are integers. A fractional or NaN value plays no part in any branch the model covers.
- The lookahead-based script and iframe patterns are modelled as the language they match: an opening `<script` or `<iframe` followed by a word boundary, and later its closing tag. Any text may come between the two, a bare `<` included.
- The CMS, Stripe and Resend calls and the cookie store are inputs: the outcome each call gives. The e-mail templates (`ContactEmail`, `ConfirmationEmail`) are carried as their arguments, not rendered.
- ContactRoute.Post: the confirmation e-mail's own outcome is not an input. The route never awaits it, so it cannot change the response. The random `X-Entity-Ref-ID` header of both e-mails is left out, as are console logging and timing.
- Concurrent requests interleaving on the shared rate-limit store are not modelled. Checks are sequential.
- Header names are the `Header` datatype rather than strings. Case-insensitive matching of header names is therefore implicit.
- The cart's localStorage load and save effects, the locale-redirecting middleware and `createLocaleRedirect`, `useThrottle`, and the Stripe webhook route are not part of this model.
- `LOCALES` is a two-entry table. Inherited object properties such as `LOCALES["constructor"]` are not modelled.
- Checkout.Post: cart lines that are not objects, and quantities that are not integers, are outside the model. Stripe's own validation of the session request is an oracle outcome.
- UseContactForm.FailureShowsServerError: an `error` field that is neither a string nor absent (a number, say) is not modelled. It would be shown as it is.

## Findings

| source | as written | input that shows it | evidently intended | confidence | as-written member | corrected member |
|---|---|---|---|---|---|---|
| src/components/AddToCartButton.tsx:27 | the button passes `{ uid, name, price, image }`, but the cart matches lines on `id`, so every product added has `id` undefined. Its callers pass no `uid` either: the fragrance list (src/slices/FragranceList/FragranceDisplay.tsx:73-80) passes `id`, which the button never reads, and the product page (src/app/[lang]/fragrance/[uid]/page.tsx:69) passes nothing. So `uid` is undefined too, and checkout refuses every line with 404 "Product with ID undefined not found." | add product "a", then a different product "b": one line remains, holding "a" with quantity 2 | the product's document id reaches the cart as its `id` and `uid`, so different products get different lines | high (not executed) | AddToCartButton.DistinctProductsMerged | AddToCartButton.CorrectedDistinctProductsApart |
| src/app/api/contact/route.ts:116 | the sanitised name is the replacement string of `replace`, so `$&`, `$$`, `` $` `` and `$'` in it are expanded as patterns | a sender named `$&` with the template "New message from {{name}}": the subject stays "New message from {{name}}" | the name appears in the subject as typed | medium (not executed) | ContactRoute.SubjectExpandsDollarPatterns | ContactRoute.LiteralSubjectNamesSender |
