# ZealyScrapping, modelled in Dafny

ZealyScrapping collects the social links of Zealy communities. A user gives a list
of community slugs or `https://zealy.io/cw/<slug>/...` URLs. For each slug a scraper
opens the community's info dialog and collects the external links. It drops links
back to zealy.io and keeps the first occurrence of each link. It then fills one
record per slug: `website`, `discord`, `twitter`, `telegram`, and an `error` on
failure. The same pipeline exists in several entry points:

- the Python command-line scraper `zealy_socials.py`;
- the Express browser service `browser-service/server.js` and its variant
  `browser-service/test-improved.js`;
- two Netlify functions: `netlify/functions/scrape.ts` scans fetched HTML with regular
  expressions, and `deployment/netlify/functions/scrape.js` drives a headless browser;
- the React front end (`src/App.tsx`, `src/utils.ts`), which normalises the slug list
  and exports the table as CSV or as tab-separated text.

The model follows that structure, one module per file:

| module | file | what it holds |
|---|---|---|
| `Common` | common.dfy | `Option`, the outcome of a foreign call (`Attempt`), a thrown JavaScript value (`Thrown`) |
| `Text` | text.dfy | Python and JavaScript whitespace trimming, ASCII lower-casing, substring tests, `split`/`join`, `splitlines` |
| `Unique` | unique.dfy | the order-preserving de-duplication every entry point uses, and its laws |
| `Links` | links.dfy | the row type, link classification (a left fold, proved against a first-match reference), the `seen`-set loop and the classification loop as methods |
| `Slugs` | slugs.dfy | the four copies of the slug normaliser, with a model of the URL path they read |
| `Requests` | requests.dfy | the request rules shared by the three HTTP endpoints |
| `ZealySocials` | zealy_socials.dfy | `zealy_socials.py` |
| `Server` | server.dfy | `browser-service/server.js` |
| `TestImproved` | test_improved.dfy | `browser-service/test-improved.js` |
| `NetlifyScrape` | netlify_scrape.dfy | `netlify/functions/scrape.ts`, including its regular-expression scanner |
| `DeploymentScrape` | deployment_scrape.dfy | `deployment/netlify/functions/scrape.js` |
| `Export` | export.dfy | the CSV and tab-separated exports of `src/utils.ts`, with a CSV reader that follows section 2 of RFC 4180 |
| `App` | app.dfy | the slug list `handleCollect` in `src/App.tsx` sends |

Browsers, the network and page contents are not modelled. What each browser or
`fetch` call returned or threw is an input value of the model, indexed by the
slug's position in the batch. Loops in the source are methods with loop invariants.
Each method is proved equal to a specification function, and the properties are
proved about that function.

## Model

| member | source | states |
|---|---|---|
| Text.Trim | zealy_socials.py:14 | the result is the slice of the input left between a whitespace prefix and a whitespace suffix; it is empty exactly when every character is whitespace, and otherwise starts and ends with a non-space |
| Text.TrimAgrees | src/utils.ts:4 | Python `strip` and JavaScript `trim` give the same string when the two whitespace sets agree on every character of the input |
| Text.SplitLines | zealy_socials.py:61 | `splitlines` yields lines that hold no line-break character |
| Text.SplitLinesOnNewline | zealy_socials.py:61 | a text whose only line break is `\n` and that does not end in one splits into exactly the pieces between its `\n`s, and joining them with `\n` gives the text back |
| Text.DropEmpty | zealy_socials.py:63 | keeps exactly the non-empty strings of the list |
| Unique.Dedup | zealy_socials.py:64 | the result has exactly the input's values, has no duplicate, and is no longer than the input |
| Unique.DedupOrder | zealy_socials.py:64 | the kept values are in the order of their first occurrence in the input |
| Unique.DedupOfNoDup | browser-service/server.js:163 | a duplicate-free list is unchanged by de-duplication |
| Unique.DedupPrefix | netlify/functions/scrape.ts:54-83 | de-duplicating `a + b` keeps the de-duplicated `a` as a prefix; everything after it comes from `b` and is not in `a` |
| Unique.DedupAppend | netlify/functions/scrape.ts:75-83 | de-duplicating `a`, appending `b` and de-duplicating again gives the same list as de-duplicating `a + b` once |
| Unique.DedupAbsorbs | netlify/functions/scrape.ts:49-65 | appending values already present changes nothing |
| Links.DropZealy | zealy_socials.py:33 | keeps exactly the links whose lower-cased text does not contain `zealy.io` |
| Links.FirstOfKind | zealy_socials.py:44-55 | the reference definition of a slot: empty exactly when no link is eligible, otherwise an eligible link of the list |
| Links.Fold | zealy_socials.py:44-55 | the classification loop only ever writes slots: the record's slug and error stay as they were |
| Links.Classify | zealy_socials.py:42-57 | the record starts from the slug with empty slots and no error, and classification keeps that slug and sets no error |
| Links.StepSlot | zealy_socials.py:47-55 | one loop iteration: a filled slot keeps its link; an empty slot takes the link only if the link's first matching kind is that slot |
| Links.ClassifyFirstMatch | zealy_socials.py:42-57 | every slot of the classified record is the first link eligible for it (discord before twitter before telegram, website only for a link matching no social pattern); the slug is kept and there is no error |
| Links.NeverOverwritten | zealy_socials.py:49-50 | once a prefix of the links has filled a slot, the full list leaves that slot unchanged |
| Links.ClassifySound | zealy_socials.py:47-55 | every filled slot holds one of the links, of that slot's kind; no links give the all-empty record |
| Links.FirstOfKindDedup | zealy_socials.py:35-39 | de-duplicating before classifying does not change the first eligible link of any slot |
| Links.GrabbedRowFirstMatch | zealy_socials.py:33-57 | the filter, de-duplicate, classify pipeline fills each slot with the first non-zealy.io href eligible for it; no zealy.io link is ever classified |
| Links.DedupKeepFirst | zealy_socials.py:36-39 | the `seen`-set loop returns the order-preserving de-duplication |
| Links.ClassifyLinks | zealy_socials.py:42-55 | the nested classification loop returns the classified record |
| Links.LenientTwitterMatch | zealy_socials.py:7-11 | the patterns are plain substring tests: any link holding `x.com` in any case (such as `box.com`) and no discord domain is classified as a twitter link |
| Slugs.Segments | zealy_socials.py:18 | the non-empty pieces of a path split on `/`: none is empty and none holds `/` |
| Slugs.CwSlug | zealy_socials.py:19 | the result is empty or is one of the path's segments, and never holds `/` |
| Slugs.SlugFrom | zealy_socials.py:13-20 | a line not starting with `http` after stripping gives the stripped line (empty for a blank line); an `http` line gives a string without `/` |
| Slugs.NormalizeSlug | src/utils.ts:3-19 | the same rules with JavaScript trimming, where a URL the parser rejects gives `''` |
| Slugs.SlugFromJs | browser-service/server.js:26-35 | the Node copies (also browser-service/test-improved.js:13-23) throw only `Invalid URL`, and only for an `http` line |
| Slugs.NormalizeSlugCatches | src/utils.ts:9-15 | `normalizeSlug` is `slugFrom` with the throw caught and turned into `''` |
| Slugs.StripTabs | zealy_socials.py:18 | both URL parsers (`urlparse` here, `new URL` at src/utils.ts:10) delete every tab, line feed and carriage return: the result holds none, holds only characters of the input, and is the input when it had none |
| Slugs.SplitParams | zealy_socials.py:18 | `urlparse` cuts the path before a `;` that has no `/` after it, and leaves a path without `;` alone |
| Slugs.SpecialPath | src/utils.ts:10 | the pathname `new URL` gives an http or https URL starts with `/` and holds no `\` |
| Slugs.SpecialPathSplit | src/utils.ts:10 | after any run of `/` and `\`, the authority runs to the first `/`, `\`, `?` or `#`; `new URL` fails exactly when that authority is not valid, and otherwise the pathname depends only on what follows the authority |
| Slugs.SpecialTail | src/utils.ts:10-11 | the pathname read after the authority starts with `/` and holds no `\` |
| Slugs.AfterLast | src/utils.ts:10 | the host and port of an authority are the suffix after its last `@`: a suffix of the input holding no `@`, preceded by `@` when shorter, and the whole input when there is no `@` |
| Slugs.HostPortAuthority | src/utils.ts:10 | a non-empty host without `:` or `@` is a valid authority, and `<host>:<port>` is valid exactly when the port is ASCII digits (possibly none) of value at most 65535 |
| Slugs.MissingHost | src/utils.ts:10 | an empty host makes the authority invalid: `<userinfo>@`, `<userinfo>@:<port>` and `:<port>` |
| Slugs.SpecialPathRejects | src/utils.ts:10-14 | `//` followed by an invalid authority makes `new URL` fail, whatever path follows |
| Slugs.NonSpecialPath | src/utils.ts:10-11 | for a scheme other than http and https, `new URL` fails exactly when `//` is followed by an authority that is neither empty nor valid, and otherwise gives the path `urlparse` reads |
| Slugs.NonSpecialPathSplit | src/utils.ts:10-14 | for such a scheme, `//<authority><rest>` fails exactly when the authority is non-empty and not valid (an empty host after `@` or before `:`, or a bad port); otherwise the pathname is what follows the authority up to `?` or `#` |
| Slugs.UrlLineSlug | src/utils.ts:7-12 | a line `<scheme>://<host><path>` whose authority is valid, optionally followed by `?...` or `#...`, gives the slug its path names (`cw` then `<id>`, else `''`) in all three copies (also zealy_socials.py:16-19 and browser-service/server.js:30-32) |
| Slugs.SlugFromNonCwUrl | zealy_socials.py:19 | such a line whose path has fewer than two segments, or a first segment other than `cw`, gives `''` in Python and TypeScript and `''` without a throw in the Node copies |
| Slugs.BadAuthorityLine | src/utils.ts:9-15 | a line `<scheme>://<host><path>` with any scheme starting with `http` (http, https or another such as `httpx`) and an invalid authority (such as `zealy.io:abc`, `zealy.io:99999`, `u@` or `:80`) still gives the slug its path names in Python, which never checks the port, but `''` in TypeScript, and makes the Node copies (browser-service/server.js:30) throw `Invalid URL` |
| Slugs.HttpxBadLine | src/utils.ts:9-15 | `httpx://<host>/cw/<id>` with an invalid authority gives `<id>` in Python, `''` in TypeScript, and makes the Node copies (browser-service/server.js:30) throw `Invalid URL`: a scheme other than http and https is checked too |
| Slugs.HttpxMissingHost | src/utils.ts:9-15 | so does `httpx://<userinfo>@/cw/<id>`, whose host after the userinfo is empty (such as `httpx://u@/cw/x`) |
| Slugs.HttpxBadPort | src/utils.ts:9-15 | so does `httpx://<host>:<port>/cw/<id>` with a port that is not digits or exceeds 65535 (such as `httpx://h:abc/cw/x`) |
| Slugs.SingleSlashCwUrl | src/utils.ts:10-11 | `http:/cw/<id>` (one slash) gives `<id>` in Python but `''` in TypeScript and the Node copies, where `new URL` reads `cw` as the host |
| Slugs.BareHttpLine | zealy_socials.py:16-19 | a line starting with `http` but without a URL scheme (a bare slug such as `httpcoin`) gives `''` in Python and TypeScript and makes the Node copies throw |
| Slugs.SlugFromAgrees | zealy_socials.py:13-20 | where the whitespace sets agree, the line holds no `\` and no `;`, an http or https scheme is followed by `//` and a valid authority (a non-empty host after any userinfo, and a port of ASCII digits at most 65535 if any), and another scheme's authority, if any, is empty or valid, the Python and TypeScript normalisers return the same slug |
| Slugs.SlugFromCwUrl | src/utils.ts:7-12 | `<scheme>://<host>/cw/<id>` with a valid authority, optionally followed by `/...`, `?...` or `#...`, gives `<id>` in all three copies |
| Requests.CheckSlugs | netlify/functions/scrape.ts:157-172 | accepted exactly when `slugs` is an array of 1 to 50 items, which pass on unchanged; too many gives the 50-limit message; missing, non-array or empty gives the `slugs array is required` message |
| Requests.MethodGate | netlify/functions/scrape.ts:136-151 | only `POST` goes on; `OPTIONS` is answered 200 with an empty body; any other method gets 405 `Method not allowed` |
| ZealySocials.GrabLinks | zealy_socials.py:22-57 | `grab_links` from the dialog's hrefs returns the pipeline's record |
| ZealySocials.CollectSlugs | zealy_socials.py:60-64 | the line loop plus `dict.fromkeys` returns the de-duplicated non-empty slugs of the lines |
| ZealySocials.InputSlugsSound | zealy_socials.py:60-64 | the slug list has no duplicate and no empty slug; every slug is `slug_from` of some line; the slugs keep first-occurrence order |
| ZealySocials.RowFor | zealy_socials.py:72-75 | a row keeps its slug and the error convention; an exception gives the all-empty row with `str(e)` |
| ZealySocials.ScrapeRows | zealy_socials.py:66-76 | one row per slug, in slug order |
| ZealySocials.Run | zealy_socials.py:59-76 | `main` yields one row per distinct input slug, in order |
| Server.ProcessSlugRailway | browser-service/server.js:38-206 | returns the row the three strategies and the classification give |
| Server.RailwayRowSound | browser-service/server.js:100-206 | classified links come from one of the three extraction calls and are not zealy.io links; the row keeps its slug; it has an error exactly when setup threw; filled slots hold classified links |
| Server.SocialSearchOnlyWhenEmpty | browser-service/server.js:144-160 | the social-link search cannot change the row when the dialog stage found links |
| Server.NothingFoundRow | browser-service/server.js:162-195 | with no dialog link and no social link, the row is all empty with no error |
| Server.RailwayRows | browser-service/server.js:264-288 | the route's loop builds one row per slug, in order |
| Server.RailwayRowsPerSlug | browser-service/server.js:264-291 | those rows satisfy the one-row-per-slug rule |
| Server.Scrape | browser-service/server.js:247-299 | a rejected body gives 400 with the check's message; otherwise 200 with one row per slug |
| TestImproved.FirstCounted | browser-service/test-improved.js:55-77 | strategy 2 picks the first selector with a positive count; it picks nothing when every count is 0 or a count call throws first |
| TestImproved.SelectDialog | browser-service/test-improved.js:64-73 | the selector loop returns that choice |
| TestImproved.ImprovedRow | browser-service/test-improved.js:203-212 | a failed navigation or initial pause gives the error row with its message |
| TestImproved.GrabLinks | browser-service/test-improved.js:26-214 | the three strategies, the modal extraction and the error rows give the specified row |
| TestImproved.ImprovedRowWellFormed | browser-service/test-improved.js:26-214 | every row keeps its slug and the error convention |
| TestImproved.PageLinksClassified | browser-service/test-improved.js:79-137 | with no dialog and some page links, the row is the pipeline's record, with no error; it is all empty when every link is a zealy.io link |
| TestImproved.NoDialogRowExactly | browser-service/test-improved.js:192-201 | the "no dialog" error arises exactly when no strategy found a dialog and the page showed no `http` link (or that call threw) |
| DeploymentScrape.VisitRow | deployment/netlify/functions/scrape.js:9-77 | a row keeps its slug and the error convention; a thrown value gives the error row with its message or `Unknown error`; a visit that reached the dialog gives no error |
| DeploymentScrape.VisitRowFirstMatch | deployment/netlify/functions/scrape.js:25-64 | a visit that reached the dialog fills each slot with the first eligible href that is not a zealy.io link, and only with such an href |
| DeploymentScrape.GrabLinks | deployment/netlify/functions/scrape.js:9-77 | the filter, `seen` loop and classification loop return that row |
| DeploymentScrape.VisitRows | deployment/netlify/functions/scrape.js:133-137 | one row per slug, in order |
| DeploymentScrape.Handler | deployment/netlify/functions/scrape.js:79-158 | gives the method gate; 500 for an unreadable body; 400 for a rejected one; 500 when the browser launch or close throws; otherwise 200 with one row per slug |
| NetlifyScrape.MatchAt | netlify/functions/scrape.ts:49-52 | a match at a position ends after it, inside the text, and captures a non-empty link |
| NetlifyScrape.Exec | netlify/functions/scrape.ts:59 | a match `exec` finds from `lastIndex` ends after `lastIndex`, inside the text, and captures a non-empty link, so the loop ends |
| NetlifyScrape.MatchAtShape | netlify/functions/scrape.ts:68-73 | every capture has its pattern's shape: `http(s)://` (with the host for social patterns), at least one more character, and no character that ends the capture |
| NetlifyScrape.AllMatchesShape | netlify/functions/scrape.ts:57-83 | every link an `exec` loop sees has its pattern's shape |
| NetlifyScrape.CollectHrefs | netlify/functions/scrape.ts:58-64 | one `href` loop appends the new non-zealy.io matches, first occurrences only |
| NetlifyScrape.CollectSocial | netlify/functions/scrape.ts:76-82 | one social loop appends the new matches, first occurrences only |
| NetlifyScrape.SecondHrefPassAddsNothing | netlify/functions/scrape.ts:49-52 | the second, identical `href` pattern adds no link |
| NetlifyScrape.CollectAllHrefs | netlify/functions/scrape.ts:57-65 | the `linkPatterns` loop returns the de-duplicated non-zealy.io `href` links |
| NetlifyScrape.CollectAllSocial | netlify/functions/scrape.ts:75-83 | the `socialPatterns` loop appends each pattern's matches, de-duplicated |
| NetlifyScrape.ExtractLinks | netlify/functions/scrape.ts:49-83 | the scanning returns the specified link list |
| NetlifyScrape.ScrapedLinksSound | netlify/functions/scrape.ts:54-83 | the list has no duplicate; the `href` links come first, have the URL shape and are not zealy.io links; the rest are social matches, and every social match is kept |
| NetlifyScrape.FetchRow | netlify/functions/scrape.ts:26-126 | a row keeps its slug and the error convention; a throw gives its message or `Unknown error`; a non-2xx response gives `HTTP <status>: <statusText>` |
| NetlifyScrape.GrabLinks | netlify/functions/scrape.ts:26-126 | `grabLinks` returns that row |
| NetlifyScrape.FetchRows | netlify/functions/scrape.ts:174-185 | one row per slug, in order |
| NetlifyScrape.Handler | netlify/functions/scrape.ts:128-203 | gives the method gate; 500 for an unreadable body; 400 for a rejected one; otherwise 200 with one row per slug |
| Export.Fields | src/utils.ts:22-27 | the six values in header order, with a missing `error` as `''` |
| Export.DoubleQuotes | src/utils.ts:29 | doubling quotes keeps commas, line feeds and quotes present exactly when they were, and leaves a quote-free value unchanged |
| Export.EscapeField | src/utils.ts:27-32 | a value with no comma, line feed or quote is written unchanged; any other is quoted with its quotes doubled |
| Export.QuotedRestDoubled | src/utils.ts:29-31 | the RFC 4180 reader reads a doubled-quote body back to the original value |
| Export.ReadFieldEscaped | src/utils.ts:27-32 | reading an escaped field gives back the value and stops at the following separator |
| Export.ReadRecordLine | src/utils.ts:26-33 | a comma-joined line of escaped values reads back as those values |
| Export.ReadCsvLines | src/utils.ts:23-35 | the line-feed-joined lines of a table read back as the table |
| Export.HeaderLinePlain | src/utils.ts:22-24 | the unescaped header line is the CSV line of the header names |
| Export.CsvRoundTrip | src/utils.ts:21-35 | the saved CSV reads back, under rules 5-7 of RFC 4180 section 2, as the header record followed by each row's six values in order, whatever the values hold |
| Export.CsvTextShape | src/utils.ts:22-34 | an empty table gives the comma-joined header names alone; otherwise the header line is followed by a line feed and the rows' lines |
| Export.TsvTextShape | src/utils.ts:49-58 | an empty table gives the tab-joined header names alone; otherwise the header line is followed by a line feed and each row's values joined by tabs, verbatim |
| Export.TsvRoundTrip | src/utils.ts:48-59 | when no value holds a tab or a line feed, splitting the clipboard text on line feeds and tabs gives back the header and every row's values |
| App.KeepFirstStep | src/App.tsx:22 | the filter keeps an element exactly when no equal element comes before it |
| App.KeepFirstByIndexIsDedup | src/App.tsx:22 | the `indexOf(slug) === index` filter is the order-preserving de-duplication |
| App.SlugListIsDedup | src/App.tsx:18-22 | the slug list is the de-duplication of the non-empty normalised lines |
| App.Collect | src/App.tsx:12-27 | a blank text box alerts `Please enter some slugs or URLs`; a non-blank one with no slug alerts `No valid slugs found`; otherwise the request carries the non-empty slug list |
| App.SlugListDistinct | src/App.tsx:18-22 | the slugs sent have no duplicate, and every non-empty normalised line is among them |
| App.SlugListFromLines | src/App.tsx:18-21 | every slug sent is non-empty and is `normalizeSlug` of some line |
| App.SlugListOrder | src/App.tsx:22 | the slugs keep the order of their first occurrence |
| App.NoSlugsNoRequest | src/App.tsx:24-27 | when every line normalises to `''`, no request is sent |

## Left out

- Browser automation is not modelled: navigation, waits and their timeouts, the pauses between slugs, page, context and browser cleanup, and the `Promise.race` timeouts. Each call's result or thrown message is an input. A timeout is one more way for a call to throw.
- The network is not modelled: `fetch` headers, response bodies other than the HTML text, and the CORS headers of every response. Responses keep only the status and body.
- Express routing and middleware are not modelled. The route sees an already parsed body, because `express.json()` rejects malformed JSON before the route runs. The `/health` and `/` endpoints, request logging and signal handling are also left out.
- JSON parsing is reduced to its outcome. The body either cannot be read (with the thrown message) or has a `slugs` member: falsy, non-array, or an array. An array element that is not a string is not modelled.
- The URL parsers are modelled to what the slug rules read. Both delete tabs and newlines, then read the scheme, the authority, the path, and `?` or `#`. `urlparse` cuts off `;` parameters. For every scheme, `new URL` checks the authority: the userinfo ends at the last `@`, the host must not be empty after `@` or before `:`, and a port must be ASCII digits of value at most 65535. Only an http or https URL needs a host at all; another scheme may have an empty authority after `//`. For http and https, `new URL` also skips any run of `/` and `\` after the `:` and reads `\` as `/`; other schemes read an authority only after `//`. `urlparse` checks none of this. Python's `ValueError` on unbalanced brackets is not modelled.
- Slugs.SpecialPath, Slugs.NormalizeSlug, Slugs.SlugFromJs, Slugs.UrlLineSlug, Slugs.SlugFromCwUrl, Slugs.SlugFromNonCwUrl, Slugs.SingleSlashCwUrl, Slugs.SlugFromAgrees: the rest of WHATWG URL parsing is not modelled, so these hold of the model and not of `new URL` in the following cases:
  - percent-encoding of spaces, `"`, `<`, `>`, `` ` ``, `{`, `}`, control and non-ASCII characters in the path;
  - dot segments (`.` and `..`);
  - host validation and IDNA, which make `new URL` throw on some hosts;
  - bracketed IPv6 hosts, whose `:` the model reads as the start of a port;
  - stripping of leading and trailing C0 control characters other than whitespace;
  - the special schemes that cannot start with `http` (ftp, ws, wss, file).
- Case folding is ASCII only. This is exact for the JavaScript patterns, which lack the `u` flag. Python's `re.I` also equates a few non-ASCII letters with ASCII ones; that is not modelled.
- Output I/O is not modelled: the pandas CSV file of `zealy_socials.py`, the Blob download, and the clipboard write with its `true`/`false` result.
- React state, rendering, the request `handleCollect` sends and how its response is handled, and the `No data to download` guard of `handleDownloadCSV` are UI and not modelled.
- `ZealySocials.Run`: a failure to launch the browser is not modelled; in the source it aborts `main`.
- `testImprovedScraping` in browser-service/test-improved.js, which runs `grabLinks` once for a fixed slug, is not modelled.
- deployment-netlify/netlify/functions/scrape.ts and browser-service/debug-test.js are not part of this model.
- The console logging of every entry point is not modelled.
- The CSV reader takes a line feed as the record break, because that is what the writer emits. RFC 4180 section 2 rule 1 specifies CRLF. A bare carriage return in a value is neither quoted by the writer nor treated specially by the reader.
- `NetlifyScrape.MatchAt`: the regular-expression engine is modelled only for the two pattern shapes the function uses. Matching is leftmost and greedy; `lastIndex` is reset after a failed `exec`.
- `TestImproved.NoDialogRowExactly` assumes that no modal extraction throws the very message of the "no dialog" row. Without that assumption the two error rows cannot be told apart.
