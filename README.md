# wheelx-web admin core, in Dafny

This project models the logic of the wheelx-web site that does not draw
anything:

- the admin data-access client `app/private/lib/api.ts`. It reads the bearer
  token from the cookie string, classifies responses, unwraps envelopes,
  builds query strings, and gives every exported call a never-throw
  fallback.
- the two route guards, `middleware.ts` and `proxy.ts`. Each one decides to
  pass a request through or to redirect it to `/<locale>/auth/login`.
- the sitemap generator `app/sitemap.ts`. It emits 16 entries with hreflang
  alternates.
- the partner-contact endpoint `app/api/contact-partner/route.ts`. It
  validates the fields and the email address, composes the mail and picks
  the status of the reply.
- the state of the garages, groups, events and posts admin list pages:
  normalising the list response, the pager, the search and country resets,
  and the garage editor with its services parse and format.
- the broadcast composer on the notifications page.
- the `beforeSend` scrubbers of the browser and server Sentry setups.

`Js.dfy` gives the JavaScript semantics the code relies on: JSON values,
ToBoolean (`Truthy`), property reads (`Get`), template-literal ToString,
`split` and `join` on one character, and `trim` with the `\s` class.
Chapters 7.1.2, 12.2 and 12.3 of ECMA-262 define these. The other
modules follow the repository's files:

- `AdminApi` is api.ts.
- `Routing` holds the locale list and the private-page test (navigation.ts
  and middleware.ts).
- `Guards` holds both guards.
- `Sitemap`, `ContactPartner`, and `ListPages` (the normalisation and pager
  shared by the four list pages).
- `Garages`, `Groups`, `Events`, `Posts` and `Notifications`, one page class
  each.
- `SentryEvent` (the event objects and `URLSearchParams.delete`),
  `SentryClient` and `SentryServer`.

The pure parts are functions together with lemmas about them.

The parts that change state are classes:

- Page state (`useState`) becomes fields.
- Each handler becomes a method.
- An `async` handler is split at its `await`. `Begin…` returns the API call
  it makes. `Finish…` takes what that call resolved with.
- The Sentry scrubbers update the event's request object in place.
- `URLSearchParams.delete` is a loop over the parameter list.
- The sitemap is built by nested loops.

Where the code and its written description differ, the model follows the
code:

- `handleResponse` does not check the content type.
- No `x-country` or `x-request-id` header is sent.
- The 401 redirect is commented out (api.ts:25), so a 401 is just an error.
- The envelope is unwrapped by truthiness, so a falsy `data` returns the
  whole body.
- The login locale defaults to `en` when the path has no locale prefix.
- The groups and events pages pass a country, but `fetchGroups` and
  `fetchEvents` drop it.

## Model

| member | source | states |
|---|---|---|
| AdminApi.TakeUntilSemicolon | app/private/lib/api.ts:8 | the `[^;]+` group: the longest prefix without `;`, followed by `;` or the end of the string |
| AdminApi.FirstKeyMatch | app/private/lib/api.ts:8 | the leftmost position at or after `from` where `wheelx_token=` starts the string or follows a space and is followed by a character other than `;`; None when there is none |
| AdminApi.CookieToken | app/private/lib/api.ts:8-9 | a token exists exactly when the pattern matches somewhere in the cookie string; the token is then non-empty and has no `;` |
| AdminApi.TokenAfter | app/private/lib/api.ts:8-9 | a key at the start of the remaining cookie text, followed by a value, yields that value up to the next `;` |
| AdminApi.FirstKeyAt | app/private/lib/api.ts:8-9 | when the key matches at k and at no earlier position, the token is the `;`-free run that follows the key at k |
| AdminApi.TakeUntilSemicolonOf | app/private/lib/api.ts:8 | a value without `;`, followed by `;` or by nothing, is captured whole |
| AdminApi.NoTokenWithoutKey | app/private/lib/api.ts:8-9 | a cookie string with no space that does not start with the key has no token |
| AdminApi.NoKeyInWord | app/private/lib/api.ts:8-9 | no match starts inside a leading cookie word without spaces that does not begin like the key, nor right after it |
| AdminApi.TokenAfterWord | app/private/lib/api.ts:8-9 | after another cookie and a space (as in `theme=dark; wheelx_token=abc123; lang=fr`), the value after the key, up to the next `;` or the end, is the token |
| AdminApi.EmptyTokenSkipped | app/private/lib/api.ts:8-9 | an empty `wheelx_token=;` is skipped and the next occurrence's value is taken |
| AdminApi.OtherCookiesIgnored | app/private/lib/api.ts:8-9 | `wheelx_admin_token=…` and `my_wheelx_token=…` are not the token, because the key must start the string or follow a space |
| AdminApi.AuthHeaders | app/private/lib/api.ts:3-17 | no header outside a browser; an Authorization header exactly when there is a token other than "undefined" or "null", and its value is then `Bearer ` + token; no other key ever |
| AdminApi.AuthHeaderOfToken | app/private/lib/api.ts:12-16 | in a browser, a real token gives exactly `{Authorization: "Bearer " + token}` |
| AdminApi.NoHeaderForPlaceholder | app/private/lib/api.ts:12-14 | the cookie `wheelx_token=undefined` gives no header |
| AdminApi.UnwrapByTruthiness | app/private/lib/api.ts:33 | success returns `json.data` when it is truthy and `json` otherwise; the `json.data.data` test changes nothing |
| AdminApi.UnauthorizedComesFirst | app/private/lib/api.ts:20-31 | status 401 fails with Unauthorized whatever the body and status text, before the ok test |
| AdminApi.Envelopes | app/private/lib/api.ts:29-33 | a `{data: [...], meta}` body with an ok status yields the array; a non-ok status other than 401 fails with `API Error: ` + statusText |
| AdminApi.FalsyDataReturnsBody | app/private/lib/api.ts:33 | a body whose `data` is 0, "", false or null is returned whole |
| AdminApi.HandleResponse | app/private/lib/api.ts:19-34 | 401 fails as Unauthorized before anything else, any other non-2xx status fails with its status text, an unreadable body fails, and a readable one is unwrapped |
| AdminApi.Unwrap | app/private/lib/api.ts:33 | the payload test; a null body fails because reading `json.data` throws (the lemmas above give its results) |
| AdminApi.NameValueOf | app/private/lib/api.ts:38 | a `name=value` piece with no `=` in its value parses back to the pair |
| AdminApi.DecimalHasNoDelimiters | app/private/lib/api.ts:38 | a decimal page or limit contains neither `&` nor `=` |
| Js.IntToString | app/private/lib/api.ts:38 | the template rendering of an integer is a non-empty run of digits, with a leading `-` for a negative number |
| Js.NatToString | app/private/lib/api.ts:38 | the rendering of a natural number is a non-empty run of digits |
| Js.ParseNatToString | app/private/lib/api.ts:38 | reading the digits back gives the number, so distinct pages give distinct query values |
| AdminApi.ParseJoined | app/private/lib/api.ts:38 | splitting an `&`-join of `&`-free pieces reads each piece on its own, as many as were joined |
| AdminApi.ParseParams | app/private/lib/api.ts:38 | name/value pairs free of `&` and `=` that are written as `name=value` pieces joined by `&` are read back as the same pairs, in order |
| AdminApi.ListQueryPairs | app/private/lib/api.ts:38 | the list query parses to page, limit and then `search=enc(search)`, the last exactly when the search is non-empty and its encoding has no delimiters |
| AdminApi.ListQuery | app/private/lib/api.ts:38 | the template `page=${page}&limit=${limit}` plus `&search=` and the encoded search when the search is non-empty |
| AdminApi.PageQuery | app/private/lib/api.ts:51 | `page=${page}&limit=${limit}` with no search |
| AdminApi.PageQueryPairs | app/private/lib/api.ts:51 | the garages and reports query parses to exactly page and limit, never a search |
| AdminApi.RequestShape | app/private/lib/api.ts:36-233 | each call goes to the configured base URL and carries the auth headers unchanged; only the broadcast and garage update have a body and a JSON Content-Type; only the read calls use GET and only ban/unban use PATCH |
| AdminApi.ReadResult | app/private/lib/api.ts:36-47 | a thrown fetch, a non-ok status or a null body gives the fallback; otherwise the unwrapped body |
| AdminApi.FailuresFallBack | app/private/lib/api.ts:36-147 | on any failure, 401 included, a list call gives `{data: [], meta: {total: 0}}`, the stats give null and the active rides give `[]`; an action gives false on a 401 or a thrown fetch |
| AdminApi.ActionsReportOk | app/private/lib/api.ts:150-233 | every mutating call resolves with exactly "status in 200..299", and with false when fetch throws |
| AdminApi.ListResultNotNull | app/private/lib/api.ts:36-123 | a list call never resolves with null |
| AdminApi.ActionResult | app/private/lib/api.ts:150-233 | an action resolves with `res.ok`, and with false when fetch throws |
| AdminApi.Resolve | app/private/lib/api.ts:36-233 | what each exported function resolves with: the read calls give the unwrapped payload or their fallback (`{data: [], meta: {total: 0}}` for lists, null for the stats, `[]` for active rides), the actions give ActionResult |
| AdminApi.RequestOf | app/private/lib/api.ts:3-233 | the request each call makes: its verb, `API_URL` plus its path, the auth headers with a JSON Content-Type when it has a body, and that body |
| Routing.IsPrivatePage | middleware.ts:27 | a path is private when it starts with `/<locale>/private` for one of the four locales, or with `/private` |
| Routing.FindLocale | middleware.ts:39 | the result is en or a locale from position i on; when the path starts with `/` + the locale at some position j, the result is a matching locale at or before j |
| Routing.LoginLocale | middleware.ts:39-40 | the login locale is always one of the four locales |
| Routing.LoginPath | middleware.ts:39-40 | the login path `/<locale>/auth/login` in the locale LoginLocale finds |
| Routing.LoginLocaleOf | middleware.ts:39-40 | a path `/<l>…` for a locale l has login locale l |
| Routing.PrivateLoginLocale | middleware.ts:39-40 | a private path under `/<l>/private` goes to the l login page, and one beginning `/private` to the en one |
| Routing.PrivateIsAPrefixTest | middleware.ts:27 | the private test is a plain prefix test: `/en/private`, `/private/users` and `/en/privateer` are private; `/en/privacy` and `/fr` are not |
| Guards.HasValue | middleware.ts:30 | a cookie counts only when present and non-empty |
| Guards.RedirectTarget | middleware.ts:33-37 | the `redirect` parameter: the path without its first segment when that is a locale, else the whole path, followed by the search |
| Guards.Middleware | middleware.ts:12-47 | a 307/308 intl response passes first; otherwise redirect exactly when the page is private and neither the admin nor the user token is non-empty; the redirect goes to `/<login locale>/auth/login` with the locale-stripped path plus search as `redirect` |
| Guards.Proxy | proxy.ts:12-39 | a 307/308 intl response passes first; otherwise redirect exactly when the page is private and the admin cookie is absent, to the login page with no query |
| Guards.RedirectStripsLocale | middleware.ts:33-37 | for `/<l>/rest`, the redirect value is `/rest` followed by the search |
| Guards.RedirectKeepsBarePath | middleware.ts:33-37 | a path without a locale segment is kept whole in the redirect value |
| Guards.AnonymousLocalisedVisit | middleware.ts:29-42 | an untokened visit to `/<l>/private…?q` redirects to `/<l>/auth/login` with redirect `/private…?q` (as for `/fr/private/users?foo=1`) |
| Guards.SameLoginPage | proxy.ts:33-34 | without cookies the two guards redirect the same visits, to the same login path |
| Guards.GuardsDisagree | proxy.ts:30-31 | a user token alone lets the middleware pass but not the proxy; an empty admin cookie lets the proxy pass but not the middleware |
| Guards.PlaceholderTokenPasses | middleware.ts:30-31 | the middleware accepts the cookie values "undefined" and "null" as tokens |
| Guards.OnlyAdminPagesGuarded | middleware.ts:22-29 | a non-private path always passes, whatever the cookies |
| Sitemap.LocaleUrl | app/sitemap.ts:27-29 | a page URL is the base URL and the path, with `/<locale>` between them except for the default locale |
| Sitemap.Alternates | app/sitemap.ts:32-44 | one URL per locale plus `x-default`, the unprefixed URL |
| Sitemap.EntryAt | app/sitemap.ts:24-53 | the entry at position i comes from the page i / 4 in the locale i % 4: pages are the outer loop and locales the inner one |
| Sitemap.BuildAlternates | app/sitemap.ts:32-44 | the loop's map equals the alternates: one localised URL per locale plus x-default |
| Sitemap.LocaleMap | app/sitemap.ts:36-41 | a map holding each locale's URL, and only those keys, is the per-locale map the alternates start from |
| Sitemap.BuildEntry | app/sitemap.ts:25-52 | one loop step builds the entry of the page in that locale: its localised URL, the copied fields and the full alternates |
| Sitemap.BuildSitemap | app/sitemap.ts:18-57 | exactly 16 entries, page-major, entry i being page i div 4 in locale i mod 4 |
| Sitemap.AlternateKeys | app/sitemap.ts:36-44 | the alternates have exactly the keys en, fr, es, it and x-default |
| Sitemap.XDefaultIsDefaultLocale | app/sitemap.ts:44 | x-default is the en URL of the page |
| Sitemap.EntryProperties | app/sitemap.ts:24-50 | an entry's URL is its own locale's alternate; entries of one page share alternates; frequency, priority and lastModified are copied |
| Sitemap.UrlExamples | app/sitemap.ts:27-29 | the first entry is `https://wheelx.bike`, entry 5 is `https://wheelx.bike/fr/privacy`, and entry 15 is `https://wheelx.bike/it/contact` with x-default `https://wheelx.bike/contact` |
| Sitemap.SameLocalesAsRouter | app/sitemap.ts:4-5 | the sitemap's locale list and default are the router's |
| ContactPartner.MatchesEmailPattern | app/api/contact-partner/route.ts:18 | the regular expression `^[^\s@]+@[^\s@]+\.[^\s@]+$` as three non-empty runs without whitespace or `@`, joined by `@` and `.` |
| ContactPartner.IsEmail | app/api/contact-partner/route.ts:18-19 | the e-mail test as a check: no whitespace, one `@`, a non-empty local part and a `.` strictly inside the domain; EmailCheckIsPattern proves it equals the pattern |
| ContactPartner.PatternGivesCheck | app/api/contact-partner/route.ts:18-19 | every string matching the email pattern passes the structural check |
| ContactPartner.CheckGivesPattern | app/api/contact-partner/route.ts:18-19 | every string passing the structural check matches the pattern |
| ContactPartner.EmailCheckIsPattern | app/api/contact-partner/route.ts:18-19 | the check and the pattern agree on every string |
| ContactPartner.DomainNeedsInnerDot | app/api/contact-partner/route.ts:18-19 | an address with a single `@` whose domain has no dot between its first and last characters is rejected |
| ContactPartner.LocalPartNeeded | app/api/contact-partner/route.ts:18-19 | an address that starts with its only `@` is rejected |
| ContactPartner.OneAtOnly | app/api/contact-partner/route.ts:18-19 | an address with two `@` is rejected |
| ContactPartner.AcceptsPlainAddress | app/api/contact-partner/route.ts:18-24 | `jane@shop.com` is accepted |
| ContactPartner.RejectsDomainWithoutDot | app/api/contact-partner/route.ts:18-24 | `jane@shop` is rejected |
| ContactPartner.RejectsLeadingDot | app/api/contact-partner/route.ts:18-24 | `jane@.com` is rejected: the domain must not begin with its dot |
| ContactPartner.RejectsEmptyLocalPart | app/api/contact-partner/route.ts:18-24 | `@shop.com` is rejected |
| ContactPartner.RejectsSecondAt | app/api/contact-partner/route.ts:18-24 | `a@b@c.com` is rejected |
| ContactPartner.RejectsSpace | app/api/contact-partner/route.ts:18-24 | `jane doe@shop.com` is rejected |
| ContactPartner.NewlinesToBr | app/api/contact-partner/route.ts:81 | `message.replace(/\n/g, '<br>')`, character by character |
| ContactPartner.NewlinesToBrIsSplitJoin | app/api/contact-partner/route.ts:81 | the HTML message is the text split at `\n` and joined with `<br>`, so nothing else changes and nothing is escaped |
| ContactPartner.NoNewlineUnchanged | app/api/contact-partner/route.ts:81 | a message without a newline is copied as is |
| ContactPartner.AllFields | app/api/contact-partner/route.ts:10 | all five fields present and truthy |
| ContactPartner.Post | app/api/contact-partner/route.ts:4-113 | unreadable JSON gives 500; a missing or falsy field gives 400 `All fields are required`; a bad email gives 400 `Invalid email address`; only then is one mail made, and only when the message is a string; once the body is validated the reply is 200 exactly when a mail was made and sending succeeded, and 500 `Failed to send email` otherwise, including a non-string message whose `replace` throws |
| ContactPartner.RequiredBeforeEmail | app/api/contact-partner/route.ts:10-24 | a missing field gives the required-fields reply even when the email is also invalid, and nothing is sent |
| ContactPartner.Compose | app/api/contact-partner/route.ts:94-100 | the mail given to `sendMail`: sender from SMTP_USERNAME, the fixed recipients, the subject, the HTML and replyTo the email |
| ContactPartner.ComposedMail | app/api/contact-partner/route.ts:94-100 | the subject is `Partnership Inquiry: <category> - <company>`, replyTo is the submitted email, the recipients are the fixed list, and the HTML message is the text with each newline turned into `<br>` |
| ListPages.Normalise | app/private/garages/page.tsx:35-40 | a null response throws (None) and nothing else does; the page count it stores is always truthy |
| ListPages.NormaliseObject | app/private/garages/page.tsx:35-40 | for every object body: the rows are its truthy `data` or `[]`; with a truthy `meta`, the page count is its truthy `totalPages` or 1 and the total is `meta.total` when truthy, else the number of rows; without one, 1 and `rows.length` |
| ListPages.NormaliseEnvelopeOf | app/private/garages/page.tsx:35-40 | `{data: xs, meta: m}` for every meta object m: the rows xs, `m.totalPages` when truthy else 1, `m.total` when truthy else the number of rows |
| ListPages.NormaliseDataOnly | app/private/garages/page.tsx:35-40 | `{data: xs}` without meta gives xs, one page and `xs.length` as total |
| ListPages.NormalisePagesOnly | app/private/garages/page.tsx:36-40 | a meta with a page count and no total counts the rows as total |
| ListPages.NormaliseScalar | app/private/garages/page.tsx:35-40 | a number, string or boolean body gives an empty list, one page and total 0 |
| ListPages.NormaliseArray | app/private/garages/page.tsx:35-40 | an array response is the list, with one page and its length as total |
| ListPages.NormaliseEnvelope | app/private/garages/page.tsx:35-40 | a `{data, meta: {totalPages, total}}` body gives those values |
| ListPages.NormaliseZeroMeta | app/private/garages/page.tsx:36-39 | totalPages 0 becomes 1 |
| ListPages.NormaliseMissingFields | app/private/garages/page.tsx:35-40 | an object without data and meta gives an empty list, one page and total 0 |
| ListPages.FallbackNormalises | app/private/garages/page.tsx:34-40 | whatever a list call resolves with, the page's normalisation does not throw |
| ListPages.PrevEnabled | app/private/garages/page.tsx:197 | Previous is enabled unless `page <= 1` or loading |
| ListPages.NextEnabled | app/private/garages/page.tsx:205 | Next is enabled unless `page >= totalPages` (JavaScript comparison of a number with the stored value) or loading |
| ListPages.EmptyState | app/private/groups/page.tsx:125 | the "No ... found." row shows when not loading and the list has length 0 |
| ListPages.PagerStaysInRange | app/private/garages/page.tsx:197-206 | Previous only from a page above 1 and Next only below totalPages, and neither while loading |
| ListPages.EmptyStateOfArray | app/private/groups/page.tsx:125 | the empty row is shown exactly when not loading and the list is empty |
| ListPages.Clean | app/private/garages/page.tsx:71 | every kept piece is trimmed and non-empty, and there are at most as many as there were pieces |
| Js.Split | app/private/garages/page.tsx:71 | `split(",")` gives at least one piece, no piece holds the separator, and joining the pieces with it gives the text back |
| Js.SplitWithout | app/private/garages/page.tsx:71 | a text without the separator splits into itself alone |
| Js.SplitAfterPiece | app/private/garages/page.tsx:71 | a separator-free piece followed by the separator splits off as the first piece |
| Js.SplitTwo | app/api/contact-partner/route.ts:18-19 | one separator between two separator-free pieces gives exactly those two pieces |
| Js.SplitThree | app/api/contact-partner/route.ts:18-19 | two separators between three separator-free pieces give exactly those three pieces |
| Js.SplitJoin | app/private/garages/page.tsx:64-71 | splitting a join of separator-free pieces gives the pieces back |
| Js.SplitFirstPiece | middleware.ts:33-37 | the first piece of a split extends every separator-free prefix of the text |
| Js.TrimStart | app/private/garages/page.tsx:71 | the result is a suffix of the text that does not start with whitespace |
| Js.TrimEnd | app/private/garages/page.tsx:71 | the result is a prefix of the text that does not end with whitespace |
| Js.TrimStartCutsSpace | app/private/garages/page.tsx:71 | everything the start trim drops is whitespace |
| Js.TrimEndCutsSpace | app/private/garages/page.tsx:71 | everything the end trim drops is whitespace |
| Js.Trim | app/private/garages/page.tsx:71 | `trim()` gives a text that neither starts nor ends with whitespace and is no longer than the input |
| Js.TrimIsSlice | app/private/garages/page.tsx:71 | the trimmed text is the slice of the input that starts where the leading whitespace ends |
| Js.TrimCutsSpace | app/private/garages/page.tsx:71 | everything before and after that slice is whitespace |
| Js.TrimRemovesOnlySpace | app/private/garages/page.tsx:71 | `trim()` keeps a contiguous slice and removes only whitespace on either side of it |
| Js.TrimOfTrimmed | app/private/garages/page.tsx:71 | trimming an already trimmed text changes nothing |
| Js.TrimLeadingSpace | app/private/garages/page.tsx:71 | a space in front does not change the trimmed text |
| ListPages.TrimKeeps | app/private/garages/page.tsx:71 | trimming introduces no character the text did not have |
| ListPages.CleanCons | app/private/garages/page.tsx:71 | a trimmed, non-empty first piece is kept as it is in front of the cleaned rest |
| ListPages.CleanLeadingSpace | app/private/garages/page.tsx:71 | the space after each `,` of a `, `-join does not change the cleaned pieces |
| ListPages.ParseConsServices | app/private/garages/page.tsx:71 | a well-formed name followed by `, ` and more text parses to that name in front of what the rest parses to |
| ListPages.CleanKeeps | app/private/garages/page.tsx:71 | cleaning introduces no character a piece did not have |
| ListPages.ParseServices | app/private/garages/page.tsx:71 | the parsed services are non-empty, trimmed and comma-free |
| ListPages.ParseJoinedServices | app/private/garages/page.tsx:64-71 | parsing the `, `-join of trimmed, non-empty, comma-free names gives them back |
| ListPages.ParseEmptyServices | app/private/garages/page.tsx:71 | the empty text parses to no services |
| ListPages.ArrayJoinOfStrings | app/private/garages/page.tsx:64 | `join(", ")` on an array of strings is the string join |
| ListPages.FormatServices | app/private/garages/page.tsx:64 | the services field of the edit form: a missing or null services gives "", an array its join, and anything else throws (None) |
| ListPages.FormatStrings | app/private/garages/page.tsx:64 | an array of strings is shown as their `, `-join |
| ListPages.ServicesRoundTrip | app/private/garages/page.tsx:64-71 | formatting a service list and parsing it back is the identity for well-formed names |
| Garages.FormFor | app/private/garages/page.tsx:59-66 | the form is built exactly when the garage is not null and its services are missing or an array, and copies name and address |
| Garages.BodyFields | app/private/garages/page.tsx:71-75 | the body always has the services, and has name and address exactly when they are defined, with the given values |
| Garages.GarageTargetsItsId | app/private/garages/page.tsx:77 | a garage whose `_id` is a non-empty string s is saved with a POST of the body to `<API_URL>/garages/s` and deleted with a POST to `<API_URL>/garages/s/delete` (the delete id comes from line 179) |
| Garages.GarageFallsBackToId | app/private/garages/page.tsx:179 | without a truthy `_id`, a string `id` t is used (`/garages/t/delete`); with neither, the id prints as `undefined` |
| Garages.UpdateBody | app/private/garages/page.tsx:71-75 | the body holds the parsed services, and name and address exactly when they are defined |
| Garages.UntouchedEditorKeepsServices | app/private/garages/page.tsx:59-77 | opening the editor and saving at once sends the garage's own services |
| Garages.GaragesPage.constructor | app/private/garages/page.tsx:17-25 | the initial state: empty list, loading, page 1, one page, editor closed |
| Garages.GaragesPage.BeginLoad | app/private/garages/page.tsx:31-34 | loading is set and page `page` of 10 is requested; nothing else changes |
| Garages.GaragesPage.FinishLoad | app/private/garages/page.tsx:35-46 | the normalised list and counts, or an empty list on a thrown error; loading ends |
| Garages.GaragesPage.PressPrevious | app/private/garages/page.tsx:197-198 | an enabled button decrements the page and page stays at least 1 |
| Garages.GaragesPage.PressNext | app/private/garages/page.tsx:205-206 | an enabled button increments the page |
| Garages.GaragesPage.StartEdit | app/private/garages/page.tsx:59-66 | the editor opens on the garage with its form |
| Garages.GaragesPage.EditName | app/private/garages/page.tsx:224 | only the form's name changes |
| Garages.GaragesPage.EditAddress | app/private/garages/page.tsx:232 | only the form's address changes |
| Garages.GaragesPage.EditServices | app/private/garages/page.tsx:240 | only the form's services text changes |
| Garages.GaragesPage.Cancel | app/private/garages/page.tsx:246 | the editor closes and the form is kept |
| Garages.GaragesPage.BeginSave | app/private/garages/page.tsx:68-77 | a call exactly when the editor is open: the update of that garage's id with the parsed body |
| Garages.GaragesPage.FinishSave | app/private/garages/page.tsx:77-83 | success closes the editor and reloads; failure leaves the editor open |
| Garages.GaragesPage.BeginDelete | app/private/garages/page.tsx:48-50 | a delete of the garage's id only when confirmed |
| Garages.GaragesPage.FinishDelete | app/private/garages/page.tsx:50-56 | a reload only after a successful delete |
| Groups.GroupsPage.constructor | app/private/groups/page.tsx:18-24 | the initial state: empty list, loading, page 1, empty search and country |
| Groups.GroupsPage.BeginLoad | app/private/groups/page.tsx:33-36 | the request is `fetchGroups(page, 10, search)`, whatever the country |
| Groups.GroupsPage.FinishLoad | app/private/groups/page.tsx:37-47 | the normalised list and counts, or an empty list on error; loading ends |
| Groups.GroupsPage.SetSearch | app/private/groups/page.tsx:64-67 | the search is kept and the page goes back to 1 |
| Groups.GroupsPage.SelectCountry | app/private/groups/page.tsx:58 | the country is kept and the page goes back to 1 |
| Groups.GroupsPage.PressPrevious | app/private/groups/page.tsx:142-143 | an enabled button decrements the page and page stays at least 1 |
| Groups.GroupsPage.PressNext | app/private/groups/page.tsx:150-151 | an enabled button increments the page |
| Groups.GroupsPage.ShowsEmptyState | app/private/groups/page.tsx:125 | the empty row shows when not loading and no group is listed |
| Events.EventsPage.constructor | app/private/events/page.tsx:17-23 | the initial state: empty list, loading, page 1, empty search and country |
| Events.EventsPage.BeginLoad | app/private/events/page.tsx:32-35 | the request is `fetchEvents(page, 10, search)`, whatever the country |
| Events.EventsPage.FinishLoad | app/private/events/page.tsx:36-46 | the normalised list and counts, or an empty list on error; loading ends |
| Events.EventsPage.SetSearch | app/private/events/page.tsx:63-66 | the search is kept and the page goes back to 1 |
| Events.EventsPage.SelectCountry | app/private/events/page.tsx:57 | the country is kept and the page goes back to 1 |
| Events.EventsPage.PressPrevious | app/private/events/page.tsx:128-129 | an enabled button decrements the page and page stays at least 1 |
| Events.EventsPage.PressNext | app/private/events/page.tsx:136-137 | an enabled button increments the page |
| Events.EventsPage.ShowsEmptyState | app/private/events/page.tsx:111 | the empty row shows when not loading and no event is listed |
| Posts.PostsPage.constructor | app/private/posts/page.tsx:16-21 | the initial state: empty list, loading, page 1, empty search |
| Posts.PostsPage.BeginLoad | app/private/posts/page.tsx:30-33 | the request is `fetchPosts(page, 10, search)` |
| Posts.PostsPage.FinishLoad | app/private/posts/page.tsx:34-44 | the normalised list and counts, or an empty list on error; loading ends |
| Posts.PostsPage.SetSearch | app/private/posts/page.tsx:60-63 | the search is kept and the page goes back to 1 |
| Posts.PostsPage.PressPrevious | app/private/posts/page.tsx:123-124 | an enabled button decrements the page and page stays at least 1 |
| Posts.PostsPage.PressNext | app/private/posts/page.tsx:131-132 | an enabled button increments the page |
| Posts.PostsPage.ShowsEmptyState | app/private/posts/page.tsx:106 | the empty row shows when not loading and no post is listed |
| Notifications.NotificationsPage.constructor | app/private/notifications/page.tsx:8-11 | empty title and message, not sending, idle |
| Notifications.NotificationsPage.SetTitle | app/private/notifications/page.tsx:50 | only the title changes |
| Notifications.NotificationsPage.SetMessage | app/private/notifications/page.tsx:60 | only the message changes |
| Notifications.NotificationsPage.BeginSend | app/private/notifications/page.tsx:13-20 | an empty title or message changes nothing and sends nothing; otherwise status goes idle, sending starts, and one broadcast of the current title and message is made |
| Notifications.NotificationsPage.FinishSend | app/private/notifications/page.tsx:20-30 | success shows the banner and clears both fields; failure shows the error and keeps them; sending ends |
| Notifications.NotificationsPage.ClearStatus | app/private/notifications/page.tsx:26 | the banner goes back to idle and nothing else changes |
| Notifications.NotificationsPage.CanSubmit | app/private/notifications/page.tsx:79 | the submit button is enabled exactly while no send is in flight |
| SentryEvent.Without | sentry.client.config.ts:53 | `searchParams.delete(name)` on the pair list: the pairs not named `name`, in order (specified by the lemmas below) |
| SentryEvent.WithoutAll | sentry.client.config.ts:53-54 | several deletes at once: the pairs whose name is in none of the given names, in order |
| SentryEvent.KeptFrom | sentry.client.config.ts:53-54 | one position per pair WithoutAll keeps, so it has exactly as many entries |
| SentryEvent.KeptFromPoints | sentry.client.config.ts:53-54 | every kept position lies in the list and holds the pair WithoutAll keeps there |
| SentryEvent.KeptFromIncreases | sentry.client.config.ts:53-54 | the kept positions increase strictly |
| SentryEvent.KeptFromComplete | sentry.client.config.ts:53-54 | every pair whose name is not dropped has its position kept |
| SentryEvent.KeptIndicesEmbed | sentry.client.config.ts:53-54 | WithoutAll is the subsequence of the list at the strictly increasing positions KeptIndices gives, and that holds every pair whose name is not dropped |
| SentryEvent.WithoutAllRemoves | sentry.client.config.ts:53-54 | no kept pair has a dropped name |
| SentryEvent.WithoutAfterWithoutAll | sentry.client.config.ts:53-54 | one more delete after WithoutAll drops that name too |
| SentryEvent.WithoutNone | sentry.client.config.ts:53-54 | dropping no name keeps the whole list |
| SentryClient.Initialises | sentry.client.config.ts:14-16 | the browser SDK starts exactly when NEXT_PUBLIC_SENTRY_DSN is a non-empty string |
| SentryClient.ScrubQuery | sentry.client.config.ts:52-55 | the query after deleting `token` and then `code`; its properties are the two lemmas below |
| SentryEvent.WithoutRemoves | sentry.client.config.ts:53-54 | after a delete no parameter has that name |
| SentryEvent.WithoutKeepsOthers | sentry.client.config.ts:53-55 | every other name keeps its values in their order |
| SentryEvent.WithoutAbsent | sentry.client.config.ts:53-55 | deleting an absent name leaves the list as it is |
| SentryEvent.WithoutAppend | sentry.client.config.ts:53 | deleting from a concatenation deletes from each part |
| SentryEvent.OnlyAppend | sentry.client.config.ts:53-55 | the pairs of one name in a concatenation are those of each part, in order |
| SentryEvent.DropAt | sentry.client.config.ts:53 | removing one pair that has the name leaves what the delete keeps unchanged |
| SentryEvent.KeepAt | sentry.client.config.ts:53 | a pair with another name extends a prefix the delete keeps whole |
| SentryClient.WithoutMembers | sentry.client.config.ts:53-55 | the delete adds no pair that was not there |
| SentryEvent.SearchParams.Delete | sentry.client.config.ts:53 | the loop removes every pair with the name, in place, and keeps the others in order |
| SentryClient.ScrubQueryProperties | sentry.client.config.ts:51-57 | no `token` or `code` remains, each other name keeps its values in their order, and a clean URL is unchanged |
| SentryClient.ScrubQueryKeepsOrder | sentry.client.config.ts:53-55 | the scrubbed query is the original minus every `token` and `code` pair: its pairs sit in the original at strictly increasing positions, so order across names is kept, and every other pair of the original is among them |
| SentryClient.BeforeSend | sentry.client.config.ts:49-58 | the same event comes back; its URL query is scrubbed in place when there is a URL, and nothing else changes |
| SentryServer.InitialisesWithEither | sentry.server.config.ts:9-11 | Sentry starts exactly when either variable is set |
| SentryServer.ScrubHeaders | sentry.server.config.ts:27-29 | `authorization` and `cookie` are gone and every other header keeps its value |
| SentryServer.DeleteIsCaseSensitive | sentry.server.config.ts:28 | a capitalised `Authorization` header survives |
| SentryServer.BeforeSend | sentry.server.config.ts:25-32 | the same event comes back; its headers are scrubbed in place when present, and nothing else changes |

## Left out

- Network, mail and Sentry I/O. `fetch`, the nodemailer transport and `sendMail`, and `Sentry.init` are not modelled. Their outcomes are inputs: an `Outcome` per call, a `send` function for the mail, and `Initialises` for the DSN gate.
- Timers and concurrency: the search debounce, the active-rides polling and the 3-second banner timer. The caller invokes `BeginLoad` or `ClearStatus`. Overlapping requests are not modelled.
- React: effects and their dependency lists, and rendering. Only the state and the predicates that decide what is shown (the pager buttons, the empty row) are modelled.
- Confirmation and alert dialogs: `confirm` is the `confirmed` input of `BeginDelete`, and `alert` has no effect on state.
- Floating point: sitemap priorities are tenths (10, 5, 5, 8) and Sentry sample rates are left out. JSON numbers are integers.
- Dates: the sitemap's `lastModified` and the mail's year are parameters.
- URL parsing and serialisation: `new URL` throwing on a malformed URL, and the re-serialised `toString`. The URL is an already-parsed prefix, query list and fragment.
- Percent-encoding: `encodeURIComponent` is the parameter `enc`. The middleware's `redirect` value is modelled before encoding.
- next-intl: its response is only the status it returns.
- Js.ToNumber treats strings, arrays and objects as NaN, so with a numeric-string totalPages such as "3" the model keeps Next enabled on the last page (`page >= totalPages` is false for NaN; garages page.tsx:205 and the same line of the other list pages), while the browser converts "3" and disables it.
- Lengths count Unicode scalar values, not UTF-16 code units.
- The HTML mail template: only its interpolated values are modelled (the fields, the converted message and the year).
- The SMTP port `parseInt` and the transport options.
- Sentry `ignoreErrors`, integrations and the edge configuration.
- AdminApi.AuthHeaders: its contract is proved for every cookie string, but there is no worked example from cookie string to header. The token examples are stated for `CookieToken` instead.
- Garages.GaragesPage.StartEdit: when building the form throws (a null garage, or services that are neither missing nor an array), the editor is still opened and the old form is kept. The uncaught exception is not modelled further.
- The country filter: no hook filters by country. The selected country is state only, because the fetchers drop it.
