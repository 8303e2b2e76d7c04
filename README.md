# go-crawler core in Dafny

A model of the crawler package of `go-crawler` (`crawler/crawler.go`). A `Creeper` is given a
base URL and a depth. It works in four stages:

1. It validates and normalises its input (`inputCheck`, `checkURL`).
2. It crawls the site from the base URL. Every page it fetches is recorded in the site map
   with the same-site links found on it (`process`, `extractLinks`, `regexSetup`).
3. It stops at the configured depth.
4. It renders the site map as an indented tree (`display`, `createOffset`, `displayPageMap`).

The project has seven modules:

- `Common`: Go's `int8`, `Option` and `Result`, `strings.Contains`.
- `Config`: `inputCheck` and `checkURL` as pure functions. The URL pattern is a hand-written
  character-class predicate. `ParseBase` stands for `url.ParseRequestURI` on format-valid input.
- `Links`:
  - the shape of a capture of the link pattern built by `regexSetup`;
  - the detection of absolute URLs;
  - the resolution of relative links against the base URL;
  - the post-processing of `extractLinks`: drop `redirect` links, resolve, deduplicate in
    first-occurrence order.
- `Crawl`: the crawl rule of `process` as a pure specification:
  - `Step` is one call of `process`. `Bfs` is a worklist run in breadth-first order.
  - The fetcher is a map from URL to the captures on that page. A missing key is a failed fetch.
  - `SiteLinks` holds the links extracted from every page the fetcher returns.
- `Scenario`: the link graph used by the crawl tests, crawled to depths 0, 1, 2 and 8:
  - for any six distinct pages of that shape;
  - for the test's own URLs under `https://mmmmm.com`.
- `Render`:
  - `createOffset` as a method with a loop, together with its `int8` form as written;
  - `displayPageMap` as functions producing abstract output lines;
  - a `Renderer` class whose `displayedPages` set and `output` are updated in place by the
    recursive `DisplayPageMap` method.
- `Crawler`: the `Creeper` class. It keeps the fields `baseUrl`, `depth`, `baseUrlParsed` and
  `seenLinks`, and its methods update them in place:
  - `InputCheck`, `ExtractLinks` (the loop with its `seen` set), `Process`, `Crawl` (the
    worklist loop), `Display` and `Run`;
  - each method is proved equal to the specification functions above.

Concurrency is not modelled. The goroutines that `process` spawns are run one after another
from a first-in first-out queue. The collector goroutine's write to `seenLinks` happens when a
page is processed. This breadth-first schedule is the one under which the test expectations
hold (`crawler/crawler_test.go:293-366`). Under depth-first order, `/about` would first be
reached at depth 2 through `/faq`, and at depth 2 `/careers` would be missing.

The rendering follows the code in one respect that is easy to misread. Before following a
link, `displayPageMap` checks whether the page being walked has been displayed, not whether
the linked page has. A page is added to `displayedPages` only after its own loop. So a page
that is reached again while its walk is still in progress is expanded again, down to the
depth limit. `Render.CyclicPageIsShownAgain` proves this on two pages that link to each other.

## Model

| member | source | states |
|---|---|---|
| Common.ContainedCharsOccur | crawler/crawler.go:247 | a string that contains `p` contains each character of `p` (so a link without `d` never contains `redirect`) |
| Config.TrimLeftSpacesIsSuffix | crawler/crawler.go:110 | left trimming removes a prefix made only of spaces, and the result does not start with a space |
| Config.TrimRightSpacesIsPrefix | crawler/crawler.go:110 | right trimming removes a suffix made only of spaces, and the result does not end with a space |
| Config.TrimSpacesSpec | crawler/crawler.go:110 | `strings.Trim(s, " ")` is a slice of `s`: only spaces are removed on either side, and the result neither starts nor ends with a space |
| Config.ParseBase | crawler/crawler.go:118-122 | parsing a format-valid URL succeeds, yields an http/https scheme, a host of the allowed characters and an empty or `/` path, and prints back to the same string |
| Config.UrlStringParses | crawler/crawler.go:118-122 | conversely, every well-formed base URL prints to a format-valid string that parses back to it |
| Config.ClampDepth | crawler/crawler.go:124-127 | a depth above 10 becomes exactly 10; any other depth, negative ones included, is unchanged |
| Config.CheckInputErrors | crawler/crawler.go:106-117 | both directions: the error is `NoUrlProvided` exactly when the raw URL is empty, and `IncorrectUrlFormat` exactly when it is non-empty and its trimmed form fails the format |
| Config.CheckInputSuccess | crawler/crawler.go:106-130 | on success the stored URL is the trimmed URL, it matches the format, it parses to a well-formed base that prints back to it, and the depth is clamped to at most 10 |
| Config.BlankUrlIsMalformed | crawler/crawler.go:107-117 | a URL of spaces is not "missing": the empty check runs before trimming, so it fails the format |
| Config.WrongSchemesAreMalformed | crawler/crawler_test.go:216-231 | `htttp://aaa.com` and `aaa.com` fail with `IncorrectUrlFormat` |
| Config.PathPortQueryAreMalformed | crawler/crawler.go:132-139 | a base URL with a path, a port or a query fails the format |
| Config.DepthIsCapped | crawler/crawler_test.go:234-244 | `https://aaa.com` with depth 15 succeeds with the URL kept and depth 10 |
| Config.SpacesAndSlashAreTrimmed | crawler/crawler.go:110-112 | ` https://aaa.com/ ` is stored as `https://aaa.com` |
| Links.CaptureStartsWithBaseOrSlash | crawler/crawler.go:158-161 | every capture starts with the base URL and `/`, or with `/` |
| Links.CaptureHasNoDotAfterPrefix | crawler/crawler.go:158-161 | after the optional base prefix, a capture contains no `.` |
| Links.OtherHostNotCaptured | crawler/crawler_test.go:42 | a link to another host is not a capture |
| Links.HttpVariantNotCaptured | crawler/crawler_test.go:73-78 | the `http` variant of an `https` base is not a capture |
| Links.FaviconNotCaptured | crawler/crawler_test.go:43 | a link to `favicon.png` under the base is not a capture |
| Links.LettersThenColon | crawler/crawler.go:251 | a run of letters ending in a `:` that is not the first character makes the string absolute in Go's `IsAbs` sense |
| Links.CaptureAbsoluteIffPrefixed | crawler/crawler.go:251-253 | both directions: a capture is absolute exactly when it starts with the base URL and `/` |
| Links.ResolveSpec | crawler/crawler.go:251-253 | an absolute capture resolves to itself; a root-relative one not starting with `//` resolves to the base's origin followed by the capture, which is the base URL followed by the capture when the base has no path |
| Links.ResolveNonEmpty | crawler/crawler.go:251-253 | no capture resolves to the empty string |
| Links.Candidates | crawler/crawler.go:239-253 | the surviving resolved captures are at most as many as the captures |
| Links.Dedup | crawler/crawler.go:255-259 | deduplication never lengthens a sequence |
| Links.DedupElements | crawler/crawler.go:255-259 | deduplication keeps exactly the elements of its input |
| Links.DedupNoDuplicates | crawler/crawler.go:255-259 | deduplication leaves no element twice |
| Links.DedupOrder | crawler/crawler.go:255-259 | deduplication keeps first-occurrence order |
| Links.DedupOfDistinct | crawler/crawler.go:255-259 | a sequence without duplicates is its own deduplication |
| Links.DedupIdempotent | crawler/crawler.go:255-259 | deduplicating twice is deduplicating once |
| Links.CandidatesSpec | crawler/crawler.go:239-253 | both directions: a string is a candidate exactly when it is the resolution of some capture without `redirect` |
| Links.ExtractSpec | crawler/crawler.go:234-261 | at most 30 links, no duplicates, each the resolution of some capture without `redirect` (and every such resolution is present), in first-occurrence order |
| Links.ExtractPrefixStep | crawler/crawler.go:239-260 | one round of the loop: a capture appends its resolution unless it contains `redirect` or its resolution was found before |
| Links.ExtractNonEmpty | crawler/crawler.go:234-261 | no extracted link is empty |
| Links.ExtractOfPlainAbsolute | crawler/crawler.go:234-261 | distinct absolute captures without `redirect` are extracted unchanged and in order |
| Crawl.SiteLinksSpec | crawler/crawler.go:181-186 | every page the fetcher answers is in the link map, with at most 30 links, none twice, and a link present exactly when it resolves one of that page's captures without `redirect` |
| Crawl.SiteLinksNonEmpty | crawler/crawler.go:169-172 | no page links to the empty URL |
| Crawl.Step | crawler/crawler.go:165-212 | a call of `process` either leaves the site map alone and dispatches nothing, or records one new page that the fetcher answers |
| Crawl.DispatchSpec | crawler/crawler.go:193-211 | both directions: a task is dispatched exactly for each link that is neither in the site map nor the page itself, always at depth + 1 |
| Crawl.DispatchPrefixStep | crawler/crawler.go:194-211 | one round of the dispatch loop: a link adds a task unless it is in the site map or is the page itself |
| Crawl.StepGuards | crawler/crawler.go:166-185 | in order: a depth beyond the limit does nothing; an empty URL fails; a URL already recorded is not fetched; a failed fetch records nothing and dispatches nothing |
| Crawl.StepRecords | crawler/crawler.go:186-211 | a successful fetch records exactly `url ↦ extractLinks(body)` and dispatches, one level deeper, only links that are new and not the page itself |
| Crawl.BfsKeepsEntries | crawler/crawler.go:174-190 | a recorded entry is never changed by the rest of the crawl |
| Crawl.BfsRecordsExtraction | crawler/crawler.go:181-191 | every entry the crawl adds maps a page the fetcher answers to the links extracted from it |
| Crawl.BfsBeyondDepth | crawler/crawler.go:166-168 | tasks all deeper than the limit change nothing |
| Crawl.BfsFetches | crawler/crawler.go:181-211 | a task within depth for a new page that the fetcher answers records it and queues its dispatched children |
| Crawl.BfsSkips | crawler/crawler.go:166-185 | a task beyond the depth, or for a recorded or unanswered URL, is dropped |
| Crawl.DepthZeroRecordsOnlyBase | crawler/crawler_test.go:353-366 | with depth 0 the site map holds the base page alone, when the fetcher answers it, and nothing otherwise |
| Crawl.StepChildrenNonEmpty | crawler/crawler.go:169-172 | no dispatched task has an empty URL |
| Crawl.BfsNeverFails | crawler/crawler.go:169-172 | a crawl whose queue holds no empty URL never signals a failure |
| Crawl.CrawlNeverFails | crawler/crawler.go:169-172 | a crawl from a non-empty base URL never signals a failure |
| Crawl.BfsStaysWithinDepth | crawler/crawler.go:166-211 | every page recorded is reachable along extracted links in at most the depth limit's number of steps |
| Crawl.CrawlStaysWithinDepth | crawler/crawler.go:166-211 | the crawl from the base URL records only pages reachable from it within the depth |
| Scenario.SiteLinksOfSite | crawler/crawler_test.go:304-349 | on the test's link graph, extraction returns each page's links unchanged |
| Scenario.CrawlDepthZero | crawler/crawler_test.go:353-366 | depth 0: only the base page is recorded |
| Scenario.CrawlDepthOne | crawler/crawler_test.go:293-309 | depth 1: the base page, `faq` and `about`, each with its links |
| Scenario.CrawlDepthTwo | crawler/crawler_test.go:311-329 | depth 2: also `info` and `careers` |
| Scenario.CrawlDeep | crawler/crawler_test.go:331-349 | depth 3 and beyond: every page of the site with its links |
| Scenario.ShapedSiteCrawls | crawler/crawler_test.go:293-366 | for any six distinct pages of the test's shape: the three site maps above and the full one at the deep depth |
| Scenario.TestSiteIsShaped | crawler/crawler_test.go:12 | the test's own URLs under `https://mmmmm.com` have that shape |
| Scenario.TestSiteCrawls | crawler/crawler_test.go:331-349 | the test's own site crawled to depth 8 gives the expected map of six pages |
| Render.OffsetLength | crawler/crawler.go:274-282 | `n` copies of the offset are `n` times its length |
| Render.OffsetAdd | crawler/crawler.go:286-287 | `m + n` copies are `m` copies followed by `n` copies (the link offset is one more copy than the header offset) |
| Render.CreateOffset | crawler/crawler.go:274-282 | `createOffset(o, d)` is `o` repeated `d + 1` times (none for a negative depth) |
| Render.WrapInc | crawler/crawler.go:279 | Go's `int8` increment is addition modulo 256 into the range -128..127, so 127 wraps to -128 |
| Render.CreateOffsetNeverEndsAt127 | crawler/crawler.go:274-282 | as written, at depth 127 the loop is still running after any number of rounds |
| Render.CreateOffsetAsWrittenBelow127 | crawler/crawler.go:274-282 | for a depth from 0 to 126, the loop as written, resumed at any counter from 0 to `d + 1`, stops with one copy per remaining round |
| Render.CreateOffsetAsWritten | crawler/crawler.go:274-282 | for every depth below 127, negative ones included, the loop as written started from 0 stops with `d + 1` copies (none for a negative depth), agreeing with `CreateOffset` |
| Render.PageLinesSpec | crawler/crawler.go:285-313 | a page's output opens with its separator, header, link count and rule; with the next depth past the limit that is all, and nothing is marked displayed; every header lies between the page's depth and the limit, indented once per level; the displayed set only grows and holds the page after its loop; once the page was displayed, no page is entered and the set is unchanged |
| Render.LinkLinesSpec | crawler/crawler.go:300-310 | the loop over a page's links keeps the same header bounds, only grows the displayed set, and enters no page when the page being walked was displayed before |
| Render.LinkLinesListsLinks | crawler/crawler.go:300-301 | every link from the loop's index on is listed with its index |
| Render.PageLinesListsLinks | crawler/crawler.go:296-301 | a page walked within the limit lists every one of its links, with its index and at the link offset |
| Render.ReportSpec | crawler/crawler.go:265-272 | the display opens with the base page's header at depth 0; all headers lie within the crawl depth; at depth 0 only the base page's four lines are shown |
| Render.ReportNegativeDepth | crawler/crawler.go:285-298 | with a negative depth limit, which `inputCheck` keeps, the display is the base page's four header lines and nothing else |
| Render.ListSelfLink | crawler/crawler.go:301-304 | a link back to the page being walked is listed and not followed |
| Render.ListDisplayedLink | crawler/crawler.go:305-308 | when the page being walked was displayed before, the link is listed with a "displayed before" note and not followed |
| Render.ListFollowedLink | crawler/crawler.go:309 | otherwise the linked page is displayed one level deeper, and the loop resumes with the displayed set it leaves |
| Render.CyclicPageIsShownAgain | crawler/crawler.go:305-311 | on two pages that link to each other, the walk from one to depth 2 shows that page a second time at depth 2 |
| Render.Renderer.constructor | crawler/crawler.go:268 | a renderer starts with nothing displayed and no output |
| Render.Renderer.DisplayPageMap | crawler/crawler.go:285-313 | appends exactly the lines `PageLines` gives and leaves the displayed set as `PageLines` says |
| Render.Renderer.ListLinks | crawler/crawler.go:300-310 | the loop appends exactly the lines `LinkLines` gives and leaves its displayed set |
| Crawler.Creeper.constructor | crawler/crawler.go:32-45 | a crawler holds the given URL and depth, with nothing parsed and an empty site map |
| Crawler.Creeper.InputCheck | crawler/crawler.go:106-130 | the outcome is `CheckInput`'s: the error leaves the depth and parsed URL alone, and success stores the trimmed URL, its parse and the clamped depth; the trimmed URL is stored even when the format is refused; the site map is untouched |
| Crawler.Creeper.ExtractLinks | crawler/crawler.go:234-261 | the loop with its `seen` set returns exactly `Extract` of the captures |
| Crawler.Creeper.Process | crawler/crawler.go:165-212 | signals failure exactly when `Step` fails, and then leaves the site map untouched and dispatches nothing; otherwise the new site map and the dispatched tasks are `Step`'s |
| Crawler.Creeper.DispatchLinks | crawler/crawler.go:193-211 | every dispatched task list is exactly `Dispatch` of the links against the site map |
| Crawler.Creeper.Crawl | crawler/crawler.go:89-96 | aborts exactly when the breadth-first specification fails, and otherwise leaves the site map it describes |
| Crawler.Creeper.Display | crawler/crawler.go:265-272 | the output is `Report` of the site map to the crawl depth from the base URL; the depth argument is ignored and the site map is not changed |
| Crawler.Creeper.Run | crawler/crawler.go:52-130 | an input error is returned as is; otherwise the crawl from the trimmed URL to the clamped depth succeeds, the site map is `CrawlFrom`'s, and the outcome is the display of it with a three-space offset; the stored URL is the trimmed one even on a format error, on success the depth is clamped and the parsed URL stored, and on an input error the depth, parsed URL and site map are unchanged |

## Left out

- Concurrency: goroutines, the `seen`, `fail`, `done` and `sig` channels, the wait group, the mutex, signal handling, `os.Exit` and timing are not modelled. The crawl runs as one breadth-first schedule of the goroutines.
- Crawl.Step: the race in which two goroutines both find a URL unrecorded and both fetch it is not represented. The model records a page before its children are dispatched.
- Crawler.Creeper.Crawl: the model runs the goroutines one after another from a queue. Other interleavings of the concurrent crawl can reach a page first at a different depth and so record a different site map.
- HTTP fetching (`fetch`, crawler/crawler.go:215-231) is the `FetchMap` parameter. A URL missing from it is a fetch error.
- The regular-expression scan (`FindAllStringSubmatch`) is not executed. Its result, at most 30 captures of the shape `regexSetup` defines, is an input that `WellFormedCaptures` describes. The base URL is spliced into the pattern unescaped, so there `.` matches any character. The model treats the base prefix literally.
- `url.Parse` on a capture, and `url.ParseRequestURI` on a format-valid base URL, are treated as total. Their error paths (crawler/crawler.go:118-121, 242-246) cannot be taken on such inputs, and the Go parser is not modelled.
- Crawl.Bfs and Render.PageLines require a depth limit below 127. `inputCheck` caps the depth at 10, so every call reaches them with at most 10.
- Crawler.Creeper.Run: requires the fetcher's captures to be well formed for the base URL that `inputCheck` produces, since the scanner is not executed.
- Console formatting (separators, emoji, the exact `Printf` layout, the timing line) is abstracted to `Line` records.
- The diagnostic output is dropped: the "Capping at 10" notice of `inputCheck` (crawler/crawler.go:125) and the `log.Printf` lines for failed fetches and unparsable links (crawler/crawler.go:183, 244). None of them changes any state.
- `crawlerInit` and `pageScannerSetup` (crawler/crawler.go:141-156): apart from the reset of the site map, which `Run` performs, they only create channels and the compiled pattern.
- `crawler/mock.go` and `main.go` are not part of this model. The mock's link graph is the one in `Scenario`. The `int8(depth)` truncation of the command-line value in `main.go` is outside the crawler package.

## Findings

| source | as written | input that shows it | evidently intended | confidence | as-written member | corrected member |
|---|---|---|---|---|---|---|
| crawler/crawler.go:274-282 | the `int8` counter `i` runs while `i <= depth`, and `i++` wraps from 127 to -128 | `createOffset(o, 127)`: every `int8` is `<= 127`, so the loop never ends | `depth + 1` copies of the offset for every depth | not executed; latent, since `inputCheck` caps the depth at 10 | Render.CreateOffsetNeverEndsAt127 | Render.CreateOffset |
