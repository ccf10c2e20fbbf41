# e-Gov amendment search, modelled in Dafny

This project models the core of a small web tool for searching amendments to
Japanese laws. The user picks a period, and can also pick law categories and a
title filter. The tool lists every law revision whose promulgation date or
enforcement date falls in that period. The core has five parts:

- **The e-Gov client** (`EGovClient`). `getLaws` builds the listing query for
  the e-Gov law registry and turns a failed response into an error.
  `getAmendmentsInPeriod` does three things:
  - it pages through the listing, 10000 entries at a time, and stops on an
    empty page or once the reported `total_count` is reached;
  - it flattens each entry's `law_info` and `revision_info` into one
    `AmendmentSummary`;
  - it keeps the records with a date inside `[date_from, date_to]`.

  `formatAmendmentType` and `formatMission` turn codes into display labels.
- **The types and the category catalogue** (`LawTypes`). These are the records
  of the registry's API, plus the 50 law categories `001`-`050`.
- **The `GET /api/laws` route** (`LawsRoute`). It reads the query string,
  answers 400 unless both dates are given, runs the search, and answers 200
  with the records or 500 with a fixed message.
- **The search page** (`SearchPage`). This covers:
  - toggling a category chip;
  - building the search address and running the search;
  - numbering the grid rows;
  - selecting a row, and fetching the selected law's revisions.

  Each of these is a transition of the page state.
- **The access middleware** (`AccessGate`). It has two steps:
  - an optional allow-list of client addresses, given as exact entries or as
    entries of the form `network/bits`;
  - after it, optional HTTP Basic authentication.

  The result is one decision: allow, 403, 401, or a decoding fault.

Some helper modules model the JavaScript behaviour that the core relies on:

- `Strings`: `trim`, `split` and `join`;
- `Decimal`: `parseInt` in radix 10 and `String(n)`;
- `LexOrder`: JavaScript's `<=` on strings;
- `Results`: `Option` and `Result`.

Effects become parameters:

- the registry is a function from the query to a response or a failure (`Upstream`);
- `encodeURIComponent` is an `Encoder`;
- `atob` is a `Decoder` that may fail;
- the outcome of the page's `fetch` is a value of `SearchOutcome` or
  `RevisionsOutcome`.

## Model

| member | source | states |
|---|---|---|
| EGovClient.ListingQuery | lib/egov-client.ts:23-36 | Definition only: the `URLSearchParams` built by `getLaws`, appending the optional pairs and then `repeal_status`. Its contents are stated by `ListingQueryContents` and the lemmas after it. |
| EGovClient.ListingQueryContents | lib/egov-client.ts:23-36 | The listing query carries `limit` exactly when it is a non-zero number, and `offset` whenever it is given. It carries `category_cd` exactly when the code list is non-empty, with the codes joined by commas, and `law_title` exactly when the title is non-empty. It always carries `repeal_status=None`. The keys come in the source's order. |
| EGovClient.ListingQueryPaging | lib/egov-client.ts:25-26 | `limit` reads back as the decimal spelling of the limit, and is absent when the limit is missing or 0. `offset` reads back as the decimal spelling of the offset whenever it is given, including 0. |
| EGovClient.ListingQueryCodes | lib/egov-client.ts:28-30 | `category_cd` reads back as the comma-joined codes, and is absent when the code list is missing or empty. |
| EGovClient.ListingQueryTitle | lib/egov-client.ts:31-33 | `law_title` reads back as the title when it is non-empty, and is absent otherwise. |
| EGovClient.ListingQueryTail | lib/egov-client.ts:36 | Every listing query asks for non-repealed laws only. |
| EGovClient.ListingQueryOrder | lib/egov-client.ts:23-36 | The keys of the query appear in the fixed order limit, offset, category_cd, law_title, repeal_status, with none repeated. |
| EGovClient.LookupAppend | lib/egov-client.ts:23-36 | The first value of a key in two concatenated parameter lists comes from the first list when the key occurs there, and from the second list otherwise. |
| EGovClient.GetLaws | lib/egov-client.ts:40-53 | `getLaws` succeeds exactly when the registry answers, and then returns the registry's page unchanged. A non-success status becomes the error `API request failed: <statusText>`. A thrown failure keeps its message. |
| EGovClient.Project | lib/egov-client.ts:157-172 | Definition only: `law_id` and `law_num` are taken from `law_info`, and the other twelve fields from `revision_info` under the same names. Its meaning is stated by `ProjectEmbed` and `ProjectIgnores`. |
| EGovClient.ProjectAllElements | lib/egov-client.ts:154-174 | Flattening a page gives one record per entry, in the same order, and each record is the projection of its own entry. |
| EGovClient.ProjectAllAppend | lib/egov-client.ts:154-174 | Flattening distributes over concatenation: page after page gives the records of each page, in turn. |
| EGovClient.ProjectEmbed | lib/egov-client.ts:156-172 | The projection loses no field of the summary: any summary is the projection of some entry. |
| EGovClient.ProjectIgnores | lib/egov-client.ts:156-172 | The projection reads only `law_id` and `law_num` from `law_info`. Entries that agree on those and on `revision_info` give the same record. |
| EGovClient.ProjectEach | lib/egov-client.ts:154-174 | The loop that pushes one record per entry computes exactly the flattening of the page. |
| EGovClient.FetchAllPages | lib/egov-client.ts:130-182 | The paging loop makes exactly the requests the stop rule allows. Each page before the last was non-empty and below the reported total. The loop makes at most max(1, ⌈bound / 10000⌉) requests, where the bound caps every reported total. The result is the error of the failed last page, if it failed, or else every flattened record of every page, in page order. |
| EGovClient.FetchPage | lib/egov-client.ts:141-181 | One pass of the loop body. The loop stops exactly when the page failed, was empty, or reached `total_count`. If it stops, the answer is the page's error or the records collected so far. If not, the page's records are appended. |
| EGovClient.CollectedLength | lib/egov-client.ts:151-174 | The number of collected records equals the number of entries on the pages fetched so far. |
| EGovClient.StopsAfterUnique | lib/egov-client.ts:152-179 | The stop rule fixes the number of requests: no two different counts both satisfy it. |
| EGovClient.PagesWithinBound | lib/egov-client.ts:179-181 | If the last page was requested at an offset below the bound, the number of requests is at most max(1, ⌈bound / 10000⌉). |
| EGovClient.FilterInPeriod | lib/egov-client.ts:185-201 | The date filter keeps exactly the records with a non-empty promulgation date or enforcement date inside `[date_from, date_to]` under string order. Its result is never longer than its input. |
| EGovClient.FilterCounts | lib/egov-client.ts:185-201 | The filter keeps each record in the period exactly as often as it occurred, and drops every other record. |
| EGovClient.FilterAppend | lib/egov-client.ts:185-201 | The filter keeps relative order: filtering a concatenation concatenates the filtered parts. |
| EGovClient.ReversedPeriodIsEmpty | lib/egov-client.ts:185-201 | A period whose end is before its start admits no record. |
| EGovClient.DateInRangeIsChronological | lib/egov-client.ts:188-199 | When the bounds and the date are `YYYY-MM-DD` dates, the string comparison agrees with the chronological order. |
| EGovClient.GetAmendmentsInPeriod | lib/egov-client.ts:114-208 | The whole search fails with the error of the first failed page. Otherwise it returns exactly the collected records that lie in the period, in collection order. Every returned record lies in the period. |
| EGovClient.FormatAmendmentType | lib/egov-client.ts:213-225 | The label is `N/A` exactly when the code is missing or empty. Each of the codes 1, 2, 3, 4 and 8 gets its own label from the table. Any other code c gets exactly `その他(c)`. |
| EGovClient.AmendmentTypeRoundTrip | lib/egov-client.ts:213-225 | Every non-empty code can be read back from its label. |
| EGovClient.KnownLabelRead | lib/egov-client.ts:214-220 | Each of the five fixed labels reads back as its code. |
| EGovClient.OtherLabelRead | lib/egov-client.ts:224 | The generic label `その他(<code>)` reads back as its code. |
| EGovClient.AmendmentTypeLabelsDistinct | lib/egov-client.ts:213-225 | Different non-empty codes get different labels. |
| EGovClient.FormatMission | lib/egov-client.ts:230-239 | A missing or empty mission is shown as `N/A`. `New` is shown as `新規制定・被改正法` and `Partial` as `一部改正法`. Any other mission is shown as given. The result is never empty. |
| EGovClient.FormatMissionIdempotent | lib/egov-client.ts:230-239 | Formatting a formatted mission changes nothing: the labels `新規制定・被改正法`, `一部改正法` and `N/A` are not themselves mission codes. |
| LawTypes.CatalogueProperties | types/law.ts:109-160 | The catalogue has 50 entries. Their codes are three-digit strings in strictly ascending order, their names are pairwise distinct, and none has a description. |
| LawTypes.CatalogueEntries | types/law.ts:109-160 | Entry i of the catalogue has the code `i + 1` written in three digits. |
| LawTypes.NumberedTableProperties | types/law.ts:109-160 | Any table numbered consecutively from `001` has ascending three-digit codes, distinct names and no descriptions. |
| LawTypes.ThreeDigitCodesOrdered | types/law.ts:110-159 | Writing numbers below 1000 in three digits keeps their order under string comparison. |
| LawTypes.ThreeDigitCodeValue | types/law.ts:110-159 | The three-digit spelling of n reads back as n. |
| LawsRoute.HandleLaws | app/api/laws/route.ts:3-52 | The answer is 400 with the fixed message exactly when either date is missing or empty. Otherwise it is 200, with the records and their count, or 500 with the fixed message. |
| LawsRoute.ValidationPrecedesSearch | app/api/laws/route.ts:22-27 | A request without both dates gets 400 whatever the search would do: the search is not consulted. |
| LawsRoute.SearchAnswered | app/api/laws/route.ts:30-51 | With both dates present, the search runs on exactly the request's dates, the comma-split categories and the non-empty title. Its records are returned unchanged with 200, and any failure becomes 500. |
| LawsRoute.CategoryCodes | app/api/laws/route.ts:30 | The categories are split exactly when the parameter is non-empty. The parts contain no comma, and joining them with commas gives the parameter back, so they are exactly the comma-separated pieces. |
| LawsRoute.CategoriesForwardedVerbatim | app/api/laws/route.ts:30-36 | The registry sees the request's `categories` value verbatim as `category_cd`, or sees no `category_cd` when the value is empty or absent. |
| LawsRoute.TitleForwarded | app/api/laws/route.ts:12-35 | The title reaches the registry's query exactly when it is non-empty. |
| LawsRoute.ParsePair | app/api/laws/route.ts:8-12 | A query part is split at its first `=`, and rejoining the halves gives the part back. A part without `=` is a name with the empty value. |
| LawsRoute.ParseFormatQuery | app/api/laws/route.ts:8-12 | Reading a query string back gives the pairs it was written from, when no name holds `=` or `&` and no value holds `&`. |
| SearchPage.ToggleCategory | app/page.tsx:60-66 | After a toggle the code is selected exactly when it was not before, and a newly selected code goes to the end. Every other code keeps its count. |
| SearchPage.ToggleTwice | app/page.tsx:60-66 | Toggling a code that was not selected twice restores the selection. |
| SearchPage.ToggleKeepsDistinct | app/page.tsx:60-66 | Toggling never makes a code appear twice. |
| SearchPage.Remove | app/page.tsx:62 | Filtering out a code removes every copy of it and keeps the count of every other code. |
| SearchPage.RemoveAppend | app/page.tsx:62 | Removal works piecewise, so deselecting a code keeps the other codes in their order. |
| SearchPage.CategoryFragment | app/page.tsx:84-86 | The categories part of the address is empty exactly when no category is selected. |
| SearchPage.LawTitleFragment | app/page.tsx:87-89 | The title part of the address is empty exactly when the filter is blank. |
| SearchPage.QueryPairsParse | app/page.tsx:84-92 | The route reads the page's query string back as the page wrote it: both dates, the joined categories when present, and the title when present. |
| SearchPage.CategoriesRoundTrip | app/page.tsx:84-86 | When every code is non-empty and contains no comma or `&`, the route's comma split gives back exactly the codes the page selected. |
| SearchPage.SearchQueryReachesRoute | app/page.tsx:84-92 | The route receives the typed dates, the selected codes and the encoded, trimmed title, which is absent when the filter is blank. |
| SearchPage.HandleSearch | app/page.tsx:68-117 | A delivered list replaces the shown one and clears the selected law and its revisions. Any failure sets an error and leaves the list, the selection and the revisions as they were. Loading ends either way. The chips, the dialog, the date range and the law-name filter are untouched. |
| SearchPage.PageShowsRouteAnswer | app/page.tsx:90-112 | Against the route, the page shows the search's records on 200. On 400 or 500 it shows the failed-fetch message and the old list. |
| SearchPage.SearchEndToEnd | app/page.tsx:68-117 | Page, address, route and search together: missing dates show the failed-fetch message. Otherwise the page shows what the search found for the typed period, the selected codes and the non-blank title, or the message and the old list. |
| SearchPage.SelectLaw | app/page.tsx:119-123 | Selecting a law opens the dialog for it with no revisions loaded. The list, the error, the chips, the loading flag, the date range and the law-name filter are unchanged. |
| SearchPage.Rows | app/page.tsx:225-228 | Row i has id i and shows the i-th record. |
| SearchPage.SelectRows | app/page.tsx:230-235 | An empty selection changes nothing. Otherwise the dialog opens with no revisions, the list and the error stay, and the selected law is the record at the first selected index. An index outside the list selects nothing (`undefined`). |
| SearchPage.SelectRowShowsItsAmendment | app/page.tsx:225-235 | Selecting a row opens the record that the row shows. |
| SearchPage.FetchRevisions | app/page.tsx:129-160 | Without a selected law nothing happens. Otherwise loading ends, and the error is cleared exactly when the response was ok. An ok response shows its revisions, or none when the body has no list. A failed or thrown request leaves no revisions shown. The selected law and the list stay. |
| SearchPage.StepKeepsConsistent | app/page.tsx:44-235 | Every handler keeps the page consistent between events: nothing is loading, revisions appear only for a selected law, and no chip is selected twice. |
| SearchPage.RunKeepsConsistent | app/page.tsx:44-235 | Any sequence of user events from a consistent state keeps it consistent. |
| SearchPage.InitialConsistent | app/page.tsx:44-55 | The initial page state is consistent. |
| AccessGate.Gate | middleware.ts:4-62 | The answer is 403 exactly when the address check fails, and 401 with the missing-header message exactly when authentication is on and no header was sent. A 401 or a decoding fault happens only when both a user and a password are configured as non-empty settings. An allowed request under authentication carried a header whose decoded token matches the configured user and password. Without authentication, a request whose address passes is allowed. With authentication and a header, a token that does not decode gives the fault. A decoded token is allowed exactly when it matches, and otherwise gets 401 with the failed-authentication message. |
| AccessGate.ClientIp | middleware.ts:6 | The client address is the first non-empty of `request.ip`, `x-forwarded-for` and `x-real-ip`, and is absent when all three are empty. |
| AccessGate.AllowList | middleware.ts:7 | The allow-list has one trimmed entry per comma-separated part of the setting, and is empty exactly when there is no setting. |
| AccessGate.TruncDiv8 | middleware.ts:16 | `parseInt(bits) / 8` used as a `slice` end is truncated toward zero: the whole quotient lies between 0 and the exact quotient. |
| AccessGate.SliceTo | middleware.ts:16 | `slice(0, end)` gives a prefix of the list. A non-negative end keeps exactly `end` elements, or the whole list when `end` is past its length. A negative end leaves out exactly `-end` elements at the back, or everything when `-end` exceeds the length. |
| AccessGate.AnyAdmits | middleware.ts:11-20 | The address passes exactly when some entry of the list admits it. |
| AccessGate.CidrPrefixOf | middleware.ts:13-17 | The entry `network/b` stands for the first `b / 8` dot-separated parts of the network, or all of them when there are fewer. |
| AccessGate.ZeroBitsAdmitsAll | middleware.ts:13-17 | An entry with `/0` admits every address. |
| AccessGate.PrefixMatchIsTextual | middleware.ts:13-17 | The match is a plain string prefix: `192.168.1.0/24` admits `192.168.10.5`. |
| AccessGate.AddressRefusalPrecedesAuth | middleware.ts:10-27 | A refused address gets 403 whatever the authorization header and the decoder. |
| AccessGate.EmptySettingRefusesKnownAddresses | middleware.ts:7-27 | An empty `ALLOWED_IPS` gives the list `[""]`, so every request with a known address is refused. |
| AccessGate.ColonInPasswordNeverAdmits | middleware.ts:49-51 | A configured password containing `:` can never be matched, so no request is allowed. |
| AccessGate.CredentialsAccepted | middleware.ts:48-51 | The decoded text `user:password` matches when neither part contains a colon. |
| AccessGate.ExtraFieldsIgnored | middleware.ts:49-51 | Text after a second colon is ignored: `user:password:extra` also matches. |
| AccessGate.CredentialsMatchShape | middleware.ts:49-51 | A matching decoded text is `user:password`, followed by nothing or by a colon and more. |
| AccessGate.Token | middleware.ts:48 | The token is the text after the first space of the header, up to the next space or the end. A header without a space gives `undefined`, which `atob` then receives as a string. |
| AccessGate.CredentialsMatch | middleware.ts:49-51 | A match needs at least two colon-separated fields, the first equal to the user and the second equal to the password. So a user or password containing `:` never matches. |
| AccessGate.CorrectCredentialsPass | middleware.ts:38-61 | From an allowed address, a `Basic` header whose token decodes to the configured `user:password` is let through. |
| AccessGate.UnconfiguredGateAllows | middleware.ts:10-61 | With neither an allow-list nor a password configured, every request passes. |
| Strings.Trim | app/page.tsx:87 | `trim` removes exactly the leading and trailing whitespace: the result is empty exactly when the input is all whitespace. |
| Strings.JoinSplit | app/api/laws/route.ts:30 | Splitting at a separator and joining again gives the string back. |
| Decimal.ParseInt | middleware.ts:16 | `parseInt` gives `NaN` exactly when no digit follows the leading whitespace and the optional sign. |
| Decimal.ParseIntReads | middleware.ts:16 | Any whitespace, then an optional `+` or `-`, then a run of digits, then text not starting with a digit: `parseInt` gives the value of the digit run, negated after `-`. Leading zeros are allowed. |
| Decimal.ParseIntToString | middleware.ts:16 | `parseInt` reads the decimal spelling of any integer back as that integer. |
| LexOrder.IsoDateOrder | lib/egov-client.ts:188-199 | On `YYYY-MM-DD` strings, string order is chronological order (year, then month, then day). |
| LexOrder.LexLeTransitive | lib/egov-client.ts:188-199 | String comparison is transitive. |

## Left out

- Rendering, styling and the progress bar of the page are left out: they compute nothing that the search depends on.
- The HTTP transport, JSON parsing and `response.json()` are left out. The registry is a function parameter (`Upstream`), and the page's fetch is given as its outcome.
- Console logging and the timings taken from `Date.now()` are left out: they do not affect any result.
- `getLawRevisions` and `getLawData` (lib/egov-client.ts:59-109), and the routes built on them, are left out. The page's revisions fetch is modelled only through its outcome.
- `handleViewLawData`, the logout button and the sign-in pages are left out: they are outside the search core.
- Percent-encoding and decoding are left out. `encodeURIComponent` is an abstract `Encoder`, the route reads the query string without decoding, and round trips are stated for values without `&`.
- `atob` is an abstract `Decoder`. Its throw on malformed input becomes the `Fault` decision, which stands for the unhandled exception of the middleware.
- The matcher configuration (middleware.ts:65-75) is left out. The model assumes the middleware runs for the request.
- Asynchrony and the interleaving of two searches are left out: each handler is one atomic state transition from its start to its `finally`.
- `parseInt` is modelled in radix 10 for a decimal prefix after optional whitespace and sign. The `0x` prefix and exponent forms are not modelled, and neither is precision loss for very large numbers.
- String comparison is modelled on code points, not UTF-16 code units. The two agree on the ASCII dates and codes the model compares.
- The JavaScript prototype keys of the label maps (`constructor`, `toString` and so on) are not modelled. The maps are treated as holding only their listed keys.
- EGovClient.FetchAllPages: termination is proved only for sources whose successful pages all report a `total_count` of at most a fixed bound, which is a ghost parameter. A registry that keeps raising its total, with pages never empty, would keep the loop running, and that case is not modelled.
- SearchPage.HandleSearch: a 200 response without `amendments` throws a `TypeError` in the source. Its message is modelled as a fixed constant.
- The thrown `Error` of `getLaws` is modelled by its message only.

## Where the code is followed

- Each stop rule of the paging loop is taken from the code: an empty page, or `offset + limit >= total_count`. A missing `laws` counts as an empty page, and a missing `total_count` as 0.
- Category codes are passed on as a sequence in selection order, joined with commas, exactly as the page and the client build them. They are not passed as a set.
- The address check compares prefixes as text, without regard to dot boundaries, as the code does (see `AccessGate.PrefixMatchIsTextual`). An empty `ALLOWED_IPS` refuses every request with a known address (see `AccessGate.EmptySettingRefusesKnownAddresses`).
