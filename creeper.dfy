/**
 * The `Creeper`: the crawler object whose methods update its fields in place. Its base
 * URL and depth are normalised by `InputCheck`, its site map is filled by `Process`
 * during `Crawl`, and `Display` renders the site map. Each method is proved against the
 * specification functions of `Config`, `Links`, `Crawl` and `Render`.
 */
module Crawler {
  import opened Common
  import opened Config
  import opened Links
  import opened Crawl
  import opened Render

  /** How `Run` ends: an input error, or the lines of the site map display. */
  datatype Outcome = InputError(error: ConfigError) | Completed(lines: seq<Line>)

  /** The indentation `Run` hands to `display`. */
  const DisplayOffset := "   "

  class Creeper {
    var baseUrl: string
    var depth: int8
    var baseUrlParsed: Option<BaseUrl>
    var seenLinks: SiteMap

    /** A crawler as a caller configures it: the base URL and depth, nothing parsed and
        nothing seen yet. */
    constructor (baseUrl: string, depth: int8)
      ensures this.baseUrl == baseUrl && this.depth == depth
      ensures baseUrlParsed == None && seenLinks == map[]
    {
      this.baseUrl := baseUrl;
      this.depth := depth;
      baseUrlParsed := None;
      seenLinks := map[];
    }

    /** The parsed base URL once `InputCheck` has succeeded. */
    predicate Checked()
      reads this
    {
      baseUrlParsed.Some? && ValidBase(baseUrlParsed.value) && UrlString(baseUrlParsed.value) == baseUrl
    }

    /** `inputCheck`: refuses an empty URL before touching anything, otherwise stores the
        trimmed URL (even when it is then refused), refuses a URL of the wrong format, and
        on success stores the parsed URL and caps the depth at 10. */
    method InputCheck() returns (err: Option<ConfigError>)
      modifies this
      ensures seenLinks == old(seenLinks)
      ensures match CheckInput(old(baseUrl), old(depth))
        case Failure(e) => err == Some(e) && depth == old(depth) && baseUrlParsed == old(baseUrlParsed)
        case Success(settings) =>
          err == None && baseUrl == settings.baseUrl && depth == settings.depth
          && baseUrlParsed == Some(settings.parsed)
      ensures baseUrl == (if old(baseUrl) == "" then "" else Normalise(old(baseUrl)))
      ensures err == None ==> Checked() && depth <= MaxCrawlDepth
    {
      if baseUrl == "" {
        return Some(NoUrlProvided);
      }
      baseUrl := Normalise(baseUrl);
      if !MatchesUrlFormat(baseUrl) {
        return Some(IncorrectUrlFormat);
      }
      baseUrlParsed := Some(ParseBase(baseUrl));
      if depth > MaxCrawlDepth {
        depth := MaxCrawlDepth;
      }
      err := None;
    }

    /** `extractLinks` on the captures of one page: drops `redirect` links, resolves
        relative ones against the base URL and keeps the first occurrence of each. */
    method ExtractLinks(captures: seq<string>) returns (links: seq<string>)
      requires Checked() && WellFormedCaptures(baseUrl, captures)
      ensures links == Extract(baseUrlParsed.value, captures)
    {
      var b := baseUrlParsed.value;
      links := [];
      var seen: set<string> := {};
      var i := 0;
      while i < |captures|
        invariant 0 <= i <= |captures|
        invariant links == Extract(b, captures[..i])
        invariant forall x :: x in seen <==> x in links
      {
        var l := captures[i];
        ExtractPrefixStep(b, captures, i);
        if !Contains(l, "redirect") {
          if !IsAbsolute(l) {
            l := Resolve(b, l);
          }
          if l !in seen {
            seen := seen + {l};
            links := links + [l];
          }
        }
        i := i + 1;
      }
      assert captures[..i] == captures;
    }

    /** `process(t.depth, t.url, fetch)`: the guards in the source's order, then the page's
        links recorded in the site map and a task one level deeper for each link that is
        neither recorded nor the page itself. `failed` is the send on the failure channel. */
    method Process(t: Task, fetch: FetchMap) returns (children: seq<Task>, failed: bool)
      requires Checked() && WellFormedFetch(baseUrlParsed.value, fetch) && depth < 127
      modifies this
      ensures baseUrl == old(baseUrl) && depth == old(depth) && baseUrlParsed == old(baseUrlParsed)
      ensures var r := Step(SiteLinks(baseUrlParsed.value, fetch), depth, t, old(seenLinks));
        (failed <==> r.Fatal?) && (!failed ==> seenLinks == r.seen && children == r.children)
      ensures failed ==> seenLinks == old(seenLinks) && children == []
    {
      children := [];
      failed := false;
      if t.depth > depth {
        return;
      }
      if t.url == "" {
        failed := true;
        return;
      }
      if t.url in seenLinks {
        return;
      }
      if t.url !in fetch {
        return;
      }
      var links := ExtractLinks(fetch[t.url]);
      seenLinks := seenLinks[t.url := links];
      children := DispatchLinks(links, t.url, t.depth + 1);
    }

    /** The loop at the end of `process`: a task at depth `next` for each link that is
        neither in the site map nor the page's own URL, in the order of the links. */
    method DispatchLinks(links: seq<string>, url: string, next: int8) returns (children: seq<Task>)
      ensures children == Dispatch(links, seenLinks, url, next)
    {
      children := [];
      var i := 0;
      while i < |links|
        invariant 0 <= i <= |links|
        invariant children == Dispatch(links[..i], seenLinks, url, next)
      {
        DispatchPrefixStep(links, seenLinks, url, next, i);
        var link := links[i];
        if link !in seenLinks && link != url {
          children := children + [Task(next, link)];
        }
        i := i + 1;
      }
      assert links[..i] == links;
    }

    /** The crawl `Run` starts with `process(0, BaseURL, fetch)`, with the goroutines it
        spawns run one after another from a queue: the site map it leaves is the one
        `CrawlFrom` describes, and it aborts exactly when the specification fails. */
    method Crawl(fetch: FetchMap) returns (ok: bool)
      requires Checked() && WellFormedFetch(baseUrlParsed.value, fetch) && depth < 127
      modifies this
      ensures baseUrl == old(baseUrl) && depth == old(depth) && baseUrlParsed == old(baseUrlParsed)
      ensures var r := Bfs(SiteLinks(baseUrlParsed.value, fetch), depth, [Task(0, baseUrl)], old(seenLinks));
        (ok <==> r.Success?) && (ok ==> seenLinks == r.value)
    {
      ghost var pages := SiteLinks(baseUrlParsed.value, fetch);
      ghost var outcome := Bfs(pages, depth, [Task(0, baseUrl)], seenLinks);
      var queue := [Task(0, baseUrl)];
      while queue != []
        invariant Checked() && baseUrl == old(baseUrl) && depth == old(depth) && baseUrlParsed == old(baseUrlParsed)
        invariant Bfs(pages, depth, queue, seenLinks) == outcome
        decreases pages.Keys - seenLinks.Keys, |queue|
      {
        ghost var before := seenLinks;
        var children, failed := Process(queue[0], fetch);
        if failed {
          return false;
        }
        assert seenLinks == before || (queue[0].url in pages && queue[0].url !in before && seenLinks.Keys == before.Keys + {queue[0].url});
        queue := queue[1..] + children;
      }
      ok := true;
    }

    /** `display`: the rendering of the site map from the base URL down to the crawl depth.
        The depth argument is accepted and, as in the source, not used. */
    method Display(ignoredDepth: int8, offset: string) returns (lines: seq<Line>)
      requires depth < 127
      ensures lines == Report(seenLinks, depth, offset, baseUrl)
    {
      var renderer := new Renderer();
      renderer.DisplayPageMap(seenLinks, depth, offset, 0, baseUrl);
      lines := renderer.output;
    }

    /** `Run`: an input error is returned as it is; otherwise the site map is reset, the
        crawl runs to completion (it cannot abort, since the base URL is not empty and no
        extracted link is) and the display of the site map is the outcome. */
    method Run(fetch: FetchMap) returns (outcome: Outcome)
      requires CheckInput(baseUrl, depth).Success? ==> WellFormedFetch(CheckInput(baseUrl, depth).value.parsed, fetch)
      modifies this
      ensures match CheckInput(old(baseUrl), old(depth))
        case Failure(e) => outcome == InputError(e)
        case Success(settings) =>
          var pages := SiteLinks(settings.parsed, fetch);
          var r := CrawlFrom(pages, settings.depth, settings.baseUrl);
          r.Success? && seenLinks == r.value
          && outcome == Completed(Report(r.value, settings.depth, DisplayOffset, settings.baseUrl))
      ensures baseUrl == (if old(baseUrl) == "" then "" else Normalise(old(baseUrl)))
      ensures match CheckInput(old(baseUrl), old(depth))
        case Failure(_) => depth == old(depth) && baseUrlParsed == old(baseUrlParsed) && seenLinks == old(seenLinks)
        case Success(settings) => depth == settings.depth && baseUrlParsed == Some(settings.parsed)
    {
      var err := InputCheck();
      if err.Some? {
        return InputError(err.value);
      }
      seenLinks := map[];
      CrawlNeverFails(baseUrlParsed.value, fetch, depth, baseUrl);
      var ok := Crawl(fetch);
      if !ok {
        // the failure channel: the crawl from a non-empty base URL never sends on it
        assert false;
      }
      var lines := Display(depth, DisplayOffset);
      outcome := Completed(lines);
    }
  }
}
