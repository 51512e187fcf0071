# Crawl engine of email-scan, in Dafny

This project models `crawlDomain` from the email-scan backend, together with the URL check of the `POST /crawl` handler that guards it. `crawlDomain` is a bounded breadth-first crawl of one site. It keeps:

- a FIFO frontier `toVisit`, with `shift` and `push`;
- a `visited` set, added to only after a page fully succeeded;
- a literal `startsWith(startUrl)` scope test;
- a page budget `maxPages`, 5 by default.

The crawl also collects two things:

- the email-shaped tokens of every page text it reads;
- every request URL that the substring tracker classifier flags.

The headless browser is an oracle `render(n, url)`. It answers with the outcome of the n-th navigation of the session:

- `Loaded(text, hrefs, requests)`: text and links were read;
- `LinksFailed(text, requests)`: the text was read, so its emails are recorded, but the link evaluation threw;
- `Failed(requests)`: navigation or reading the text threw.

The requests of every navigation reach the request listener, whatever its outcome. The answer depends on the navigation number, so a URL that failed may load when it is rediscovered later.

Layout:

- `strings.dfy` (module `Strings`): `startsWith` and `includes`.
- `sequences.dfy` (module `Sequences`): `filter` and the subsequence order.
- `ordered_sets.dfy` (module `OrderedSets`): a JavaScript `Set` of strings as a duplicate-free sequence in insertion order. This is what `Array.from` returns.
- `email_extractor.dfy` (module `EmailExtractor`): the global match of `[a-zA-Z0-9._%+-]+@[a-zA-Z0-9.-]+\.[a-zA-Z]{2,}`. It is computed as a deterministic leftmost, greedy scan. For this pattern that scan is what the backtracking engine does:
  - the local run must be followed by `@`;
  - the greedy domain run gives back characters until the last `.` that is followed by two letters.
- `tracker_classifier.dfy` (module `TrackerClassifier`): the `google` / `facebook` / `doubleclick` substring test.
- `crawler.dfy` (module `Crawler`):
  - the pure step `Next` and the whole loop `Run`, whose termination measure is `(maxPages - |visited|, |toVisit|)`;
  - the navigation log `Attempts`;
  - the imperative `CrawlDomain`, proved to compute `Run` from the initial session.
- `crawl_properties.dfy` (module `CrawlProperties`): what a whole crawl guarantees, stated against its navigation log.
- `crawl_api.dfy` (module `CrawlApi`): the `/crawl` URL check, the default budget and the 400 answer.
- `crawl_scenario.dfy` (module `CrawlScenario`): a two-page site crawled end to end.

Two points where the behaviour is easy to misread:

- The frontier does not suppress duplicates on insert: the code tests only `visited` before pushing (backend/server.js:61). A link already waiting, or listed twice on one page, is therefore pushed again, and duplicates are dropped only when dequeued (backend/server.js:45). See `Crawler.Enqueue` and `Crawler.WaitingLinkIsQueuedAgain`.
- A page's emails are added (backend/server.js:53) before its links are evaluated (backend/server.js:55-59). A page whose link evaluation throws therefore contributes emails but is not marked visited. This is the `LinksFailed` outcome.

## Model

| member | source | states |
|---|---|---|
| Strings.Contains | backend/server.js:37 | `includes` is true exactly when the marker occurs as a contiguous piece of the URL |
| TrackerClassifier.IsTracker | backend/server.js:37 | a request URL is a tracker exactly when one of `google`, `facebook`, `doubleclick` occurs in it |
| TrackerClassifier.MarkerAnywhereIsTracker | backend/server.js:37 | the test is position-blind: any URL with a marker anywhere, path or query included, is a tracker |
| TrackerClassifier.WithoutMarkerInitialsNotTracker | backend/server.js:37 | a URL containing none of the letters g, f, d is never classified as a tracker |
| EmailExtractor.MatchAt | backend/server.js:51 | soundness: a match starting at a position is non-empty, stays inside the text and is email-shaped: local part, `@`, domain, `.`, two or more letters |
| EmailExtractor.MatchAtComplete | backend/server.js:51 | completeness: when an email-shaped token starts at a position, a match starts there and reaches at least as far, so with soundness the match is the longest email-shaped token from that position |
| EmailExtractor.ScanFindsTokenAt | backend/server.js:51-52 | when the global search reaches a position where an email-shaped token starts, its next reported match starts there and covers at least that token |
| EmailExtractor.ExtractEmails | backend/server.js:51-52 | soundness of `text.match(pattern)` with its empty fallback: every token is email-shaped and occurs in the text |
| EmailExtractor.ScanSkipsStretchWithoutAt | backend/server.js:51-52 | no match starts inside a stretch with no `@` that ends in a character which cannot continue a local part |
| EmailExtractor.LastTldDotIsLastDot | backend/server.js:51 | the backtracking domain match stops at the last dot followed by two letters when only letters follow it |
| EmailExtractor.MatchesWholeSuffix | backend/server.js:51-52 | an email-shaped tail of the text is matched whole and is the only match from its start |
| EmailExtractor.ExtractsWholeEmail | backend/server.js:51-52 | completeness: a text that is exactly one email-shaped token yields exactly that token |
| EmailExtractor.ExtractsEmailAfterSeparator | backend/server.js:51-52 | an email after a separator stretch with no `@` (such as `contact me: `) is the one and only match |
| OrderedSets.Add | backend/server.js:38 | `Set.add`: the old contents stay as a prefix, the element is present afterwards, nothing else is added, an existing element changes nothing, and no duplicate arises |
| OrderedSets.AddAll | backend/server.js:53 | `forEach(add)`: the result holds exactly the old elements and the added ones, old order kept as a prefix, duplicate-free |
| OrderedSets.AddAllKeepsFirstInsertionOrder | backend/server.js:72 | the elements new to the set follow the order of their first occurrence in the added sequence, which is the order `Array.from` reports |
| Sequences.Filter | backend/server.js:58 | `filter` keeps exactly the elements satisfying the predicate, each as many times as it occurs, and never grows the sequence |
| Sequences.FilterIsSubsequence | backend/server.js:58 | `filter` keeps the relative order of what it keeps |
| Crawler.HttpLinks | backend/server.js:55-59 | the page's links are exactly its anchors that start with `http`, each as many times as the page lists it |
| Crawler.TrackerRequests | backend/server.js:35-39 | the listener flags exactly the request URLs the classifier accepts |
| Crawler.Enqueue | backend/server.js:60-64 | the old queue stays as a prefix, and a URL is queued afterwards iff it was queued already or is a link in scope and not visited; every occurrence of such a link is pushed, so a link listed twice or already waiting is queued once more per listing |
| Crawler.PushedInPageOrder | backend/server.js:56-64 | links are pushed in the order the page lists them, and the `http` links follow the anchor order |
| Strings.StartsWith | backend/server.js:61 | `startsWith` holds iff the prefix is no longer than the string and agrees with it character by character |
| Crawler.InScope | backend/server.js:61 | a link is in scope iff it is the start URL with something appended; the host is not compared, so `https://example.com2` is in scope of `https://example.com` |
| Crawler.Visit | backend/server.js:48-65 | the body for a new URL: one navigation; its requests' trackers are added whatever the outcome; its emails are added once the text was read; its in-scope unvisited links are pushed and the URL becomes visited only when the links were read too |
| Crawler.Next | backend/server.js:43-68 | one iteration drops an already-visited head with no other effect; visited grows by at most the dequeued URL; the measure decreases; emails and trackers only grow with order kept; scope soundness is preserved |
| Crawler.NextNavigates | backend/server.js:44-68 | a new URL uses one navigation; it becomes visited iff that navigation fully loaded; a failed navigation adds no email |
| Crawler.NextQueues | backend/server.js:44-64 | the rest of the queue keeps its order; a loaded new page appends its unvisited in-scope links; any other outcome appends nothing |
| Crawler.SelfLinkIsQueuedAgain | backend/server.js:60-65 | a page linking to itself ends the iteration both visited and queued again, since `visited.add` runs after the pushes |
| Crawler.WaitingLinkIsQueuedAgain | backend/server.js:61-62 | an in-scope link already waiting in the queue is appended once more behind the rest |
| Crawler.NextKeepsResultsWellFormed | backend/server.js:35-53 | an iteration adds only email-shaped tokens and tracker URLs, each at most once |
| Crawler.Run | backend/server.js:43-69 | the loop terminates within the budget; at exit the frontier is empty or exactly `maxPages` URLs are visited; everything visited or queued is in scope; visited, emails and trackers only grow |
| Crawler.RunHaltsExactlyWhenConditionFails | backend/server.js:43 | the loop condition `toVisit.length && visited.size < maxPages`: while it holds the loop makes progress (a new visit or a shorter queue), and the loop returns the session unchanged iff it fails |
| Crawler.RunKeepsResultsWellFormed | backend/server.js:31-53 | over the whole loop the email and tracker sets stay duplicate-free and hold only email-shaped tokens and tracker URLs |
| Crawler.AddEach | backend/server.js:53 | adding one element at a time in a loop builds the same set as `AddAll` |
| Crawler.ObserveRequests | backend/server.js:35-41 | the listener's additions over one navigation's requests add exactly the flagged URLs to the tracker set |
| Crawler.PushLinks | backend/server.js:60-64 | the push loop produces the same queue as `Enqueue` |
| Crawler.VisitPage | backend/server.js:48-65 | the imperative body for a new URL updates the four variables as the pure step does |
| Crawler.CrawlDomain | backend/server.js:26-73 | the imperative loop returns what the pure loop computes from `[startUrl]`; both result lists are duplicate-free, every email is email-shaped and every tracker passes the classifier |
| CrawlProperties.AttemptsNumbered | backend/server.js:43-49 | the log lists the run's navigations in order: its i-th entry is the session's navigation number `navigations + i` |
| CrawlProperties.AttemptsAreFreshRenders | backend/server.js:44-49 | every navigation goes to an in-scope URL not visited when the run started, and its outcome is the browser's answer to the entry's navigation number |
| CrawlProperties.LoadedUrlNeverRetried | backend/server.js:45-65 | no entry of the log goes to a URL that an earlier entry loaded, compared by log position and by navigation number |
| CrawlProperties.RunVisitedExactly | backend/server.js:48-68 | a URL ends up visited iff it was visited before or one of the crawl's navigations to it loaded |
| CrawlProperties.RunTrackersExactly | backend/server.js:35-41 | the tracker set ends up holding exactly the flagged request URLs of all navigations, failed ones included, besides what it held |
| CrawlProperties.RunEmailsExactly | backend/server.js:50-53 | the email set ends up holding exactly the matches in the text of every navigation whose text was read, besides what it held |
| CrawlProperties.DrainedCrawlTriedFrontier | backend/server.js:43-45 | when the crawl stops with an empty queue, every URL that was waiting was either visited or navigated to |
| CrawlProperties.DrainedCrawlTriedEveryLink | backend/server.js:55-64 | when the crawl stops with an empty queue, every in-scope link of every loaded page was visited or navigated to |
| OrderedSets.AddAllConcat | backend/server.js:53 | two successive `forEach(add)` calls build the same set as one call over the concatenation |
| CrawlProperties.RunEmailsInOrder | backend/server.js:43-53 | the whole loop adds to the email set exactly as one `forEach(add)` over the emails of the navigations whose text was read, in navigation order |
| CrawlProperties.RunTrackersInOrder | backend/server.js:35-43 | the whole loop adds to the tracker set exactly as one `forEach(add)` over the flagged requests of every navigation, in navigation order |
| CrawlProperties.CrawlResultOrder | backend/server.js:31-72 | the returned email and tracker lists hold each item once, in the order the crawl first met it across all navigations |
| CrawlProperties.CrawlGuarantees | backend/server.js:26-73 | from `[startUrl]`: budget bound and exit condition, scope of every navigation and visit, visited iff loaded, emails sound and complete against the log, trackers exact |
| CrawlApi.AcceptsUrl | backend/server.js:77 | the emptiness test is subsumed: a URL passes the check iff it is present and starts with `http` |
| CrawlApi.HandleCrawl | backend/server.js:75-82 | the answer is 400 with `Valid URL required` iff the URL is missing or does not start with `http`; otherwise it is the crawl with budget 5 |
| CrawlApi.AcceptedCrawlStaysHttp | backend/server.js:77-82 | a crawl started by the handler visits at most 5 pages and navigates only to URLs starting with `http` |
| CrawlScenario.ExampleCrawl | backend/server.js:26-73 | on a two-page site with budget 2, both pages are visited, both addresses are found in page order, and the off-site link is never visited |

## Left out

- Launching Puppeteer, opening the page, request interception, `request.continue()`, `networkidle2` waiting, the 30 s timeout and the DOM evaluations (backend/server.js:27-28, 34, 40, 49-50, 55-59). These are foreign browser calls, replaced by the `render` oracle. Its links are absolute and its `requests` list stands for what the listener saw.
- The asynchronous delivery of `request` events. Each navigation's requests are handled in full before its text is read; late or interleaved events are not modelled.
- `browser.close()` (backend/server.js:71): releasing the browser has no effect on the result.
- Logging through `console.log` / `console.error` (backend/server.js:47, 67).
- Express routing, body parsing, CORS and the listener (backend/server.js:1-9, 113-118). Only the URL check at :77, the default budget at :82 and the 400 answer are modelled.
- The SQLite table, the insert of a finished crawl, the JSON round trip of stored rows, `GET /crawls` and the 500 answer when a crawl throws (backend/server.js:11-24, 83-111). These are I/O; the model's crawl does not throw.
- A `url` field that is present but not a string. The model's field is an optional string.
- `maxPages` is a natural number. JavaScript would also accept negative or fractional values; a negative budget behaves like 0.
- client/src/App.js is not part of this model (user interface only).
- crawl.js duplicates the extractor for one page and returns an empty set on error. Its extraction is `ExtractEmails`.
- EmailExtractor.ExtractEmails: its own contract states soundness only. Completeness is stated per position: `MatchAtComplete` at every position, `ScanFindsTokenAt` at every position the search reaches. Which positions the search reaches after earlier matches is not characterised in general. The scan is argued to equal the JavaScript engine for this pattern but is not proved equal to a general regular-expression semantics.
- Unicode: strings are sequences of code points. Case folding and normalisation do not happen in the source either.
