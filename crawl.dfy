/**
 * The crawl rule of Go's `process`, as one sequential, breadth-first schedule of its
 * goroutines. A task is a depth and a URL. Processing a task: a task deeper than the
 * configured depth does nothing; an empty URL is a fatal failure; a URL already in the site
 * map is not fetched again; a failed fetch adds nothing; otherwise the page's links are
 * recorded under its URL, and a task one level deeper is dispatched for each link that is
 * neither in the site map nor the page itself. Dispatched tasks join the back of the
 * worklist, so pages are processed level by level.
 */
module Crawl {
  import opened Common
  import opened Config
  import opened Links

  /** The aggregated map from a page's URL to the links extracted from it. */
  type SiteMap = map<string, seq<string>>

  /** The fetcher: a URL maps to the scanner's captures of the page's body; a URL that is
      not a key is one whose fetch failed. */
  type FetchMap = map<string, seq<string>>

  datatype Task = Task(depth: int8, url: string)

  datatype CrawlError = InvalidTarget

  datatype StepResult = Continue(seen: SiteMap, children: seq<Task>) | Fatal

  /** Every page the fetcher returns scans to well-formed captures for this base. */
  predicate WellFormedFetch(b: BaseUrl, fetch: FetchMap) {
    ValidBase(b) && forall u :: u in fetch ==> WellFormedCaptures(UrlString(b), fetch[u])
  }

  /** The pages the crawl can reach: the URL of each page whose fetch succeeds, with the
      links `extractLinks` finds on it. The fetcher is deterministic, so extracting every
      page up front gives the links `process` extracts whenever it fetches that page. */
  type LinkMap = map<string, seq<string>>

  /** The links extracted from every page the fetcher returns. */
  function SiteLinks(b: BaseUrl, fetch: FetchMap): LinkMap
    requires WellFormedFetch(b, fetch)
  {
    map u | u in fetch :: Extract(b, fetch[u])
  }

  /** What `extractLinks` promises, for every page the fetcher returns: at most 30 links,
      none twice, and a link is present exactly when it is the resolution of one of the
      page's captures that does not contain `redirect`. */
  lemma SiteLinksSpec(b: BaseUrl, fetch: FetchMap, u: string)
    requires WellFormedFetch(b, fetch) && u in fetch
    ensures u in SiteLinks(b, fetch)
    ensures |SiteLinks(b, fetch)[u]| <= MaxMatches
    ensures NoDuplicates(SiteLinks(b, fetch)[u])
    ensures forall l :: l in SiteLinks(b, fetch)[u] <==>
              exists i :: 0 <= i < |fetch[u]| && !Contains(fetch[u][i], "redirect") && l == Resolve(b, fetch[u][i])
  {
    ExtractSpec(b, fetch[u]);
  }

  /** No page links to the empty URL. */
  predicate NoEmptyLinks(pages: LinkMap) {
    forall u :: u in pages ==> "" !in pages[u]
  }

  /** Extracted links are never empty: every one is a resolved capture. */
  lemma SiteLinksNonEmpty(b: BaseUrl, fetch: FetchMap)
    requires WellFormedFetch(b, fetch)
    ensures NoEmptyLinks(SiteLinks(b, fetch))
  {
    forall u | u in fetch ensures "" !in SiteLinks(b, fetch)[u] {
      ExtractNonEmpty(b, fetch[u]);
    }
  }

  /** The tasks the loop at the end of `process` dispatches, at depth `depth`. */
  function Dispatch(links: seq<string>, seen: SiteMap, url: string, depth: int8): seq<Task> {
    if links == [] then []
    else
      var l := links[|links| - 1];
      Dispatch(links[..|links| - 1], seen, url, depth) +
      (if l in seen || l == url then [] else [Task(depth, l)])
  }

  /** One call of `process(t.depth, t.url, fetch)` against the site map `seen`. */
  function Step(pages: LinkMap, maxDepth: int8, t: Task, seen: SiteMap): (r: StepResult)
    requires maxDepth < 127
    ensures r.Continue? ==>
              (r.seen == seen && r.children == []) ||
              (t.url in pages && t.url !in seen && r.seen.Keys == seen.Keys + {t.url})
  {
    if t.depth > maxDepth then Continue(seen, [])
    else if t.url == "" then Fatal
    else if t.url in seen then Continue(seen, [])
    else if t.url !in pages then Continue(seen, [])
    else
      var links := pages[t.url];
      var seen' := seen[t.url := links];
      Continue(seen', Dispatch(links, seen', t.url, t.depth + 1))
  }

  /** The site map the crawl ends with when it works through `queue` from `seen`. */
  function Bfs(pages: LinkMap, maxDepth: int8, queue: seq<Task>, seen: SiteMap): Result<SiteMap, CrawlError>
    requires maxDepth < 127
    decreases pages.Keys - seen.Keys, |queue|
  {
    if queue == [] then Success(seen)
    else
      match Step(pages, maxDepth, queue[0], seen)
      case Fatal => Failure(InvalidTarget)
      case Continue(seen', children) => Bfs(pages, maxDepth, queue[1..] + children, seen')
  }

  /** A crawl from the base URL at depth 0 with an empty site map, as `Run` starts it. */
  function CrawlFrom(pages: LinkMap, maxDepth: int8, start: string): Result<SiteMap, CrawlError>
    requires maxDepth < 127
  {
    Bfs(pages, maxDepth, [Task(0, start)], map[])
  }

  // ---------------------------------------------------------------- the step

  /** Dispatch, both directions: a task is dispatched, at the given depth, for exactly the
      links that are neither in the site map nor the page's own URL. */
  lemma {:induction false} DispatchSpec(links: seq<string>, seen: SiteMap, url: string, depth: int8)
    ensures forall t :: t in Dispatch(links, seen, url, depth) ==>
              t.depth == depth && t.url in links && t.url !in seen && t.url != url
    ensures forall l :: l in links && l !in seen && l != url ==> Task(depth, l) in Dispatch(links, seen, url, depth)
    ensures |Dispatch(links, seen, url, depth)| <= |links|
  {
    if links != [] {
      var p := links[..|links| - 1];
      DispatchSpec(p, seen, url, depth);
      assert links == p + [links[|links| - 1]];
    }
  }

  /** Dispatch one link at a time, as the loop of `process` does it. */
  lemma DispatchPrefixStep(links: seq<string>, seen: SiteMap, url: string, depth: int8, i: nat)
    requires i < |links|
    ensures Dispatch(links[..i + 1], seen, url, depth) ==
      Dispatch(links[..i], seen, url, depth) + (if links[i] in seen || links[i] == url then [] else [Task(depth, links[i])])
  {
    var p := links[..i + 1];
    assert p[..|p| - 1] == links[..i] && p[|p| - 1] == links[i];
  }

  /** The guards of `process`, in the order it applies them. */
  lemma StepGuards(pages: LinkMap, maxDepth: int8, t: Task, seen: SiteMap)
    requires maxDepth < 127
    ensures t.depth > maxDepth ==> Step(pages, maxDepth, t, seen) == Continue(seen, [])
    ensures t.depth <= maxDepth && t.url == "" ==> Step(pages, maxDepth, t, seen) == Fatal
    ensures t.depth <= maxDepth && t.url != "" && t.url in seen ==> Step(pages, maxDepth, t, seen) == Continue(seen, [])
    ensures t.depth <= maxDepth && t.url != "" && t.url !in pages ==> Step(pages, maxDepth, t, seen) == Continue(seen, [])
  {
  }

  /** A successful fetch records exactly `url ↦ extractLinks(body)`, changes no other entry,
      and dispatches one level deeper only links that are new and not the page itself. */
  lemma StepRecords(pages: LinkMap, maxDepth: int8, t: Task, seen: SiteMap)
    requires maxDepth < 127
    requires t.depth <= maxDepth && t.url != "" && t.url !in seen && t.url in pages
    ensures var r := Step(pages, maxDepth, t, seen);
      && r.Continue?
      && r.seen == seen[t.url := pages[t.url]]
      && (forall c :: c in r.children ==>
            c.depth == t.depth + 1 && c.url in pages[t.url] && c.url !in r.seen && c.url != t.url)
  {
    var links := pages[t.url];
    DispatchSpec(links, seen[t.url := links], t.url, t.depth + 1);
  }

  // ---------------------------------------------------------------- the whole crawl

  /** Entries already in the site map are never changed. */
  lemma {:induction false} BfsKeepsEntries(pages: LinkMap, maxDepth: int8, queue: seq<Task>, seen: SiteMap)
    requires maxDepth < 127
    requires Bfs(pages, maxDepth, queue, seen).Success?
    ensures var m := Bfs(pages, maxDepth, queue, seen).value;
      forall k :: k in seen ==> k in m && m[k] == seen[k]
    decreases pages.Keys - seen.Keys, |queue|
  {
    if queue != [] {
      var r := Step(pages, maxDepth, queue[0], seen);
      BfsKeepsEntries(pages, maxDepth, queue[1..] + r.children, r.seen);
    }
  }

  /** Every new entry is a page whose fetch succeeded, recorded with exactly the links
      extracted from it. So a failed fetch never adds an entry. */
  lemma {:induction false} BfsRecordsExtraction(pages: LinkMap, maxDepth: int8, queue: seq<Task>, seen: SiteMap)
    requires maxDepth < 127
    requires Bfs(pages, maxDepth, queue, seen).Success?
    ensures var m := Bfs(pages, maxDepth, queue, seen).value;
      forall k :: k in m ==> k in seen || (k in pages && m[k] == pages[k])
    decreases pages.Keys - seen.Keys, |queue|
  {
    if queue != [] {
      var r := Step(pages, maxDepth, queue[0], seen);
      BfsRecordsExtraction(pages, maxDepth, queue[1..] + r.children, r.seen);
      BfsKeepsEntries(pages, maxDepth, queue[1..] + r.children, r.seen);
    }
  }

  /** Tasks all deeper than the limit change nothing. */
  lemma {:induction false} BfsBeyondDepth(pages: LinkMap, maxDepth: int8, queue: seq<Task>, seen: SiteMap)
    requires maxDepth < 127
    requires forall i :: 0 <= i < |queue| ==> queue[i].depth > maxDepth
    ensures Bfs(pages, maxDepth, queue, seen) == Success(seen)
    decreases |queue|
  {
    if queue != [] {
      assert queue[1..] + [] == queue[1..];
      BfsBeyondDepth(pages, maxDepth, queue[1..], seen);
    }
  }

  /** One round of the worklist on a page that is fetched: its entry is recorded and its
      dispatched links join the back of the queue. */
  lemma BfsFetches(pages: LinkMap, maxDepth: int8, t: Task, rest: seq<Task>, seen: SiteMap)
    requires maxDepth < 127
    requires t.depth <= maxDepth && t.url != "" && t.url !in seen && t.url in pages
    ensures var links := pages[t.url];
      var seen' := seen[t.url := links];
      Bfs(pages, maxDepth, [t] + rest, seen) ==
      Bfs(pages, maxDepth, rest + Dispatch(links, seen', t.url, t.depth + 1), seen')
  {
    assert ([t] + rest)[1..] == rest;
  }

  /** One round of the worklist on a task that is too deep, already seen or not fetched:
      nothing changes and that task is dropped. */
  lemma BfsSkips(pages: LinkMap, maxDepth: int8, t: Task, rest: seq<Task>, seen: SiteMap)
    requires maxDepth < 127
    requires t.depth > maxDepth || (t.url != "" && (t.url in seen || t.url !in pages))
    ensures Bfs(pages, maxDepth, [t] + rest, seen) == Bfs(pages, maxDepth, rest, seen)
  {
    assert ([t] + rest)[1..] + [] == rest;
  }

  /** With depth 0 only the base page is fetched: the site map ends with the base entry
      alone, or empty when the base page's fetch fails. */
  lemma DepthZeroRecordsOnlyBase(pages: LinkMap, start: string)
    requires start != ""
    ensures start in pages ==> CrawlFrom(pages, 0, start) == Success(map[start := pages[start]])
    ensures start !in pages ==> CrawlFrom(pages, 0, start) == Success(map[])
  {
    var r := Step(pages, 0, Task(0, start), map[]);
    if start in pages {
      StepRecords(pages, 0, Task(0, start), map[]);
      BfsBeyondDepth(pages, 0, r.children, r.seen);
      assert [Task(0, start)][1..] + r.children == r.children;
    } else {
      assert [Task(0, start)][1..] + r.children == [];
      assert Bfs(pages, 0, [], map[]) == Success(map[]);
    }
  }

  /** No dispatched task has an empty URL: every link is a resolved capture. */
  lemma StepChildrenNonEmpty(pages: LinkMap, maxDepth: int8, t: Task, seen: SiteMap)
    requires maxDepth < 127 && NoEmptyLinks(pages)
    requires Step(pages, maxDepth, t, seen).Continue?
    ensures forall c :: c in Step(pages, maxDepth, t, seen).children ==> c.url != ""
  {
    var r := Step(pages, maxDepth, t, seen);
    if r.children != [] {
      DispatchSpec(pages[t.url], r.seen, t.url, t.depth + 1);
    }
  }

  /** A crawl whose worklist holds no empty URL never fails. */
  lemma {:induction false} BfsNeverFails(pages: LinkMap, maxDepth: int8, queue: seq<Task>, seen: SiteMap)
    requires maxDepth < 127 && NoEmptyLinks(pages)
    requires forall i :: 0 <= i < |queue| ==> queue[i].url != ""
    ensures Bfs(pages, maxDepth, queue, seen).Success?
    decreases pages.Keys - seen.Keys, |queue|
  {
    if queue != [] {
      var r := Step(pages, maxDepth, queue[0], seen);
      assert r.Continue?;
      StepChildrenNonEmpty(pages, maxDepth, queue[0], seen);
      var q := queue[1..] + r.children;
      assert forall i :: 0 <= i < |q| ==> q[i] in queue[1..] || q[i] in r.children;
      BfsNeverFails(pages, maxDepth, q, r.seen);
    }
  }

  /** A crawl of the links extracted from any well-formed fetcher, from a non-empty base
      URL, never reports an invalid target. */
  lemma CrawlNeverFails(b: BaseUrl, fetch: FetchMap, maxDepth: int8, start: string)
    requires WellFormedFetch(b, fetch) && maxDepth < 127 && start != ""
    ensures CrawlFrom(SiteLinks(b, fetch), maxDepth, start).Success?
  {
    SiteLinksNonEmpty(b, fetch);
    BfsNeverFails(SiteLinks(b, fetch), maxDepth, [Task(0, start)], map[]);
  }

  // ---------------------------------------------------------------- reachability

  /** `path` is a chain of links in the fetched pages: each page on it but the last was
      fetched and links to the next. */
  ghost predicate IsLinkPath(pages: LinkMap, path: seq<string>)
  {
    |path| > 0 &&
    forall i :: 0 <= i < |path| - 1 ==> path[i] in pages && path[i + 1] in pages[path[i]]
  }

  /** `u` is at most `d` link hops from `start`. */
  ghost predicate ReachableWithin(pages: LinkMap, start: string, u: string, d: int)
  {
    exists path :: IsLinkPath(pages, path) && path[0] == start && path[|path| - 1] == u && |path| <= d + 1
  }

  lemma ExtendPath(pages: LinkMap, start: string, u: string, d: int, l: string)
    requires ReachableWithin(pages, start, u, d) && u in pages && l in pages[u]
    ensures ReachableWithin(pages, start, l, d + 1)
  {
    var path :| IsLinkPath(pages, path) && path[0] == start && path[|path| - 1] == u && |path| <= d + 1;
    var path' := path + [l];
    assert IsLinkPath(pages, path');
  }

  /** Every page the crawl adds is at most `maxDepth` link hops from where it started, given
      that every queued task is at most its own depth away. */
  lemma {:induction false} BfsStaysWithinDepth(pages: LinkMap, maxDepth: int8, start: string, queue: seq<Task>, seen: SiteMap)
    requires maxDepth < 127
    requires forall i :: 0 <= i < |queue| ==> ReachableWithin(pages, start, queue[i].url, queue[i].depth as int)
    requires Bfs(pages, maxDepth, queue, seen).Success?
    ensures var m := Bfs(pages, maxDepth, queue, seen).value;
      forall k :: k in m ==> k in seen || ReachableWithin(pages, start, k, maxDepth as int)
    decreases pages.Keys - seen.Keys, |queue|
  {
    if queue != [] {
      var t := queue[0];
      var r := Step(pages, maxDepth, t, seen);
      if r.Continue? && r.seen != seen {
        var links := pages[t.url];
        StepRecords(pages, maxDepth, t, seen);
        forall c | c in r.children ensures ReachableWithin(pages, start, c.url, c.depth as int) {
          ExtendPath(pages, start, t.url, t.depth as int, c.url);
        }
        var path :| IsLinkPath(pages, path) && path[0] == start && path[|path| - 1] == t.url && |path| <= t.depth as int + 1;
        assert ReachableWithin(pages, start, t.url, maxDepth as int);
      }
      var q := queue[1..] + r.children;
      assert forall i :: 0 <= i < |q| ==> q[i] in queue[1..] || q[i] in r.children;
      BfsStaysWithinDepth(pages, maxDepth, start, q, r.seen);
    }
  }

  /** A crawl from `start` records only pages within `maxDepth` link hops of it. */
  lemma CrawlStaysWithinDepth(pages: LinkMap, maxDepth: int8, start: string)
    requires maxDepth < 127
    requires CrawlFrom(pages, maxDepth, start).Success?
    ensures forall k :: k in CrawlFrom(pages, maxDepth, start).value ==>
              ReachableWithin(pages, start, k, maxDepth as int)
  {
    assert IsLinkPath(pages, [start]);
    BfsStaysWithinDepth(pages, maxDepth, start, [Task(0, start)], map[]);
  }
}
