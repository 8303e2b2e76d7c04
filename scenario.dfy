/**
 * The link graph of the crawler's own test site and the site maps a crawl of it ends with at
 * depths 0, 1, 2 and 8. The site is a base page and five pages:
 *
 *   base -> faq, about      faq -> about, info      about -> careers, faq
 *   info -> about, generic  careers -> generic      generic -> (none)
 *
 * The crawl results are proved for every site of this shape, whatever its URLs, and then
 * instantiated for the test's own `https://mmmmm.com`.
 */
module Scenario {
  import opened Common
  import opened Config
  import opened Links
  import opened Crawl

  /** A base URL and the five other pages of a site shaped like the test site. */
  datatype Site = Site(base: BaseUrl, faq: string, about: string, info: string, careers: string, generic: string)

  function Home(s: Site): string {
    UrlString(s.base)
  }

  /** A link the page scanner captures for base `b`, that is absolute and does not contain
      `redirect`: extraction keeps it unchanged. */
  predicate PlainLink(b: BaseUrl, c: string) {
    IsCapture(UrlString(b), c) && IsAbsolute(c) && !Contains(c, "redirect")
  }

  /** The six pages are distinct and the five links are plain links of the base. */
  predicate Shaped(s: Site) {
    ValidBase(s.base) &&
    PlainLink(s.base, s.faq) && PlainLink(s.base, s.about) && PlainLink(s.base, s.info) &&
    PlainLink(s.base, s.careers) && PlainLink(s.base, s.generic) &&
    NoDuplicates([Home(s), s.faq, s.about, s.info, s.careers, s.generic])
  }

  /** What the test fetcher returns: the captures of each page, in page order. */
  function SiteFetch(s: Site): FetchMap {
    map[Home(s) := [s.faq, s.about], s.faq := [s.about, s.info], s.about := [s.careers, s.faq],
        s.info := [s.about, s.generic], s.careers := [s.generic], s.generic := []]
  }

  /** The six pages of a shaped site, pairwise distinct. */
  lemma SiteDistinct(s: Site)
    requires Shaped(s)
    ensures Home(s) !in {s.faq, s.about, s.info, s.careers, s.generic}
    ensures s.faq !in {s.about, s.info, s.careers, s.generic}
    ensures s.about !in {s.info, s.careers, s.generic}
    ensures s.info !in {s.careers, s.generic} && s.careers != s.generic
  {
    var p := [Home(s), s.faq, s.about, s.info, s.careers, s.generic];
    assert p[0] != p[1] && p[0] != p[2] && p[0] != p[3] && p[0] != p[4] && p[0] != p[5];
    assert p[1] != p[2] && p[1] != p[3] && p[1] != p[4] && p[1] != p[5];
    assert p[2] != p[3] && p[2] != p[4] && p[2] != p[5];
    assert p[3] != p[4] && p[3] != p[5] && p[4] != p[5];
  }

  /** The fetcher of a shaped site returns each page's captures and nothing else. */
  lemma SiteFetchPages(s: Site)
    requires Shaped(s)
    ensures SiteFetch(s).Keys == {Home(s), s.faq, s.about, s.info, s.careers, s.generic}
    ensures SiteFetch(s)[Home(s)] == [s.faq, s.about]
    ensures SiteFetch(s)[s.faq] == [s.about, s.info]
    ensures SiteFetch(s)[s.about] == [s.careers, s.faq]
    ensures SiteFetch(s)[s.info] == [s.about, s.generic]
    ensures SiteFetch(s)[s.careers] == [s.generic]
    ensures SiteFetch(s)[s.generic] == []
  {
    SiteDistinct(s);
  }

  /** Every fetched page holds only plain links, and no more than the scanner's limit. */
  lemma SiteFetchWellFormed(s: Site)
    requires Shaped(s)
    ensures WellFormedFetch(s.base, SiteFetch(s))
  {
    SiteFetchPages(s);
    var b, f := s.base, SiteFetch(s);
    forall u | u in f
      ensures WellFormedCaptures(UrlString(b), f[u])
    {
      assert forall c :: c in f[u] ==> PlainLink(b, c);
    }
  }

  /** A page of distinct plain links is extracted unchanged. */
  lemma PlainPage(b: BaseUrl, caps: seq<string>)
    requires ValidBase(b) && NoDuplicates(caps)
    requires forall i :: 0 <= i < |caps| ==> PlainLink(b, caps[i])
    ensures forall i :: 0 <= i < |caps| ==> IsCapture(UrlString(b), caps[i])
    ensures Extract(b, caps) == caps
  {
    assert forall i :: 0 <= i < |caps| ==> PlainLink(b, caps[i]) ==> IsCapture(UrlString(b), caps[i]);
    ExtractOfPlainAbsolute(b, caps);
  }

  /** Each page's links come out of extraction exactly as they appear on the page. */
  lemma SitePageLinks(s: Site, u: string)
    requires Shaped(s) && u in SiteFetch(s)
    ensures WellFormedFetch(s.base, SiteFetch(s))
    ensures Extract(s.base, SiteFetch(s)[u]) == SiteFetch(s)[u]
  {
    SiteDistinct(s);
    SiteFetchPages(s);
    SiteFetchWellFormed(s);
    var caps := SiteFetch(s)[u];
    assert |caps| == 2 ==> caps[0] != caps[1];
    PlainPage(s.base, caps);
  }

  /** The links extracted from the whole site are the pages' links as written. */
  lemma SiteLinksOfSite(s: Site)
    requires Shaped(s)
    ensures WellFormedFetch(s.base, SiteFetch(s))
    ensures SiteLinks(s.base, SiteFetch(s)) == SiteFetch(s)
  {
    SiteFetchWellFormed(s);
    forall u | u in SiteFetch(s) ensures SiteLinks(s.base, SiteFetch(s))[u] == SiteFetch(s)[u] {
      SitePageLinks(s, u);
    }
  }

  /** Dispatch of a page with one or two links, written out. */
  lemma DispatchOne(x: string, seen: SiteMap, url: string, depth: int8)
    ensures Dispatch([x], seen, url, depth) == (if x in seen || x == url then [] else [Task(depth, x)])
  {
    assert [x][..0] == [];
  }

  lemma DispatchTwo(x: string, y: string, seen: SiteMap, url: string, depth: int8)
    ensures Dispatch([x, y], seen, url, depth) ==
            (if x in seen || x == url then [] else [Task(depth, x)]) +
            (if y in seen || y == url then [] else [Task(depth, y)])
  {
    assert [x, y][..1] == [x];
    DispatchOne(x, seen, url, depth);
  }

  /** What the rounds of a crawl of a shaped site rely on, about its link map `f`: its
      pages, their links, and that the pages are distinct. */
  predicate Facts(s: Site, f: LinkMap) {
    f.Keys == {Home(s), s.faq, s.about, s.info, s.careers, s.generic} &&
    f[Home(s)] == [s.faq, s.about] && f[s.faq] == [s.about, s.info] &&
    f[s.about] == [s.careers, s.faq] && f[s.info] == [s.about, s.generic] &&
    f[s.careers] == [s.generic] && f[s.generic] == [] &&
    "" !in f &&
    Home(s) !in {s.faq, s.about, s.info, s.careers, s.generic} &&
    s.faq !in {s.about, s.info, s.careers, s.generic} &&
    s.about !in {s.info, s.careers, s.generic} &&
    s.info !in {s.careers, s.generic} && s.careers != s.generic
  }

  lemma FactsOfFetch(s: Site)
    requires Shaped(s)
    ensures Facts(s, SiteFetch(s))
  {
    SiteDistinct(s);
    SiteFetchPages(s);
  }

  lemma FactsHold(s: Site)
    requires Shaped(s)
    ensures WellFormedFetch(s.base, SiteFetch(s))
    ensures Facts(s, SiteLinks(s.base, SiteFetch(s)))
  {
    SiteLinksOfSite(s);
    FactsOfFetch(s);
  }

  /** One round of the crawl on a page that is fetched for the first time. */
  lemma FetchRound(s: Site, f: LinkMap, d: int8, t: Task, rest: seq<Task>, seen: SiteMap)
    requires Facts(s, f) && t.depth <= d < 127 && t.url in f && t.url !in seen
    ensures var seen' := seen[t.url := f[t.url]];
      Bfs(f, d, [t] + rest, seen) == Bfs(f, d, rest + Dispatch(f[t.url], seen', t.url, t.depth + 1), seen')
  {
    BfsFetches(f, d, t, rest, seen);
  }

  // The site map after each page is fetched, in the order a breadth-first crawl fetches them.

  function Seen1(s: Site): SiteMap { map[Home(s) := [s.faq, s.about]] }
  function Seen2(s: Site): SiteMap { Seen1(s)[s.faq := [s.about, s.info]] }
  function Seen3(s: Site): SiteMap { Seen2(s)[s.about := [s.careers, s.faq]] }
  function Seen4(s: Site): SiteMap { Seen3(s)[s.info := [s.about, s.generic]] }
  function Seen5(s: Site): SiteMap { Seen4(s)[s.careers := [s.generic]] }

  /** Round 1 (any depth): the base page is fetched and both its links dispatched. */
  lemma Round1(s: Site, f: LinkMap, d: int8)
    requires Facts(s, f) && 0 <= d < 127
    ensures Bfs(f, d, [Task(0, Home(s))], map[]) ==
            Bfs(f, d, [Task(1, s.faq), Task(1, s.about)], Seen1(s))
  {
    FetchRound(s, f, d, Task(0, Home(s)), [], map[]);
    DispatchTwo(s.faq, s.about, Seen1(s), Home(s), 1);
    assert Dispatch([s.faq, s.about], Seen1(s), Home(s), 1) == [Task(1, s.faq), Task(1, s.about)];
    assert [Task(0, Home(s))] + [] == [Task(0, Home(s))];
  }

  /** Round 2 (depth from 1): `faq` is fetched; `about` and `info` are dispatched. */
  lemma Round2(s: Site, f: LinkMap, d: int8)
    requires Facts(s, f) && 1 <= d < 127
    ensures Bfs(f, d, [Task(1, s.faq), Task(1, s.about)], Seen1(s)) ==
            Bfs(f, d, [Task(1, s.about), Task(2, s.about), Task(2, s.info)], Seen2(s))
  {
    FetchRound(s, f, d, Task(1, s.faq), [Task(1, s.about)], Seen1(s));
    assert Seen1(s)[s.faq := f[s.faq]] == Seen2(s);
    DispatchTwo(s.about, s.info, Seen2(s), s.faq, 2);
    assert Dispatch([s.about, s.info], Seen2(s), s.faq, 2) == [Task(2, s.about), Task(2, s.info)];
    assert [Task(1, s.faq), Task(1, s.about)] == [Task(1, s.faq)] + [Task(1, s.about)];
    assert [Task(1, s.about)] + [Task(2, s.about), Task(2, s.info)] ==
           [Task(1, s.about), Task(2, s.about), Task(2, s.info)];
  }

  /** Round 3 (depth from 1): `about` is fetched; only `careers` is new. */
  lemma Round3(s: Site, f: LinkMap, d: int8)
    requires Facts(s, f) && 1 <= d < 127
    ensures Bfs(f, d, [Task(1, s.about), Task(2, s.about), Task(2, s.info)], Seen2(s)) ==
            Bfs(f, d, [Task(2, s.about), Task(2, s.info), Task(2, s.careers)], Seen3(s))
  {
    FetchRound(s, f, d, Task(1, s.about), [Task(2, s.about), Task(2, s.info)], Seen2(s));
    assert Seen2(s)[s.about := f[s.about]] == Seen3(s);
    DispatchTwo(s.careers, s.faq, Seen3(s), s.about, 2);
    assert Dispatch([s.careers, s.faq], Seen3(s), s.about, 2) == [Task(2, s.careers)];
    assert [Task(1, s.about), Task(2, s.about), Task(2, s.info)] ==
           [Task(1, s.about)] + [Task(2, s.about), Task(2, s.info)];
    assert [Task(2, s.about), Task(2, s.info)] + [Task(2, s.careers)] ==
           [Task(2, s.about), Task(2, s.info), Task(2, s.careers)];
  }

  /** Round 4 (depth from 2): the second `about` task finds the page already seen. */
  lemma Round4(s: Site, f: LinkMap, d: int8)
    requires Facts(s, f) && 2 <= d < 127
    ensures Bfs(f, d, [Task(2, s.about), Task(2, s.info), Task(2, s.careers)], Seen3(s)) ==
            Bfs(f, d, [Task(2, s.info), Task(2, s.careers)], Seen3(s))
  {
    BfsSkips(f, d, Task(2, s.about), [Task(2, s.info), Task(2, s.careers)], Seen3(s));
    assert [Task(2, s.about), Task(2, s.info), Task(2, s.careers)] ==
           [Task(2, s.about)] + [Task(2, s.info), Task(2, s.careers)];
  }

  /** Round 5 (depth from 2): `info` is fetched and `generic` dispatched. */
  lemma Round5(s: Site, f: LinkMap, d: int8)
    requires Facts(s, f) && 2 <= d < 127
    ensures Bfs(f, d, [Task(2, s.info), Task(2, s.careers)], Seen3(s)) ==
            Bfs(f, d, [Task(2, s.careers), Task(3, s.generic)], Seen4(s))
  {
    FetchRound(s, f, d, Task(2, s.info), [Task(2, s.careers)], Seen3(s));
    assert Seen3(s)[s.info := f[s.info]] == Seen4(s);
    DispatchTwo(s.about, s.generic, Seen4(s), s.info, 3);
    assert Dispatch([s.about, s.generic], Seen4(s), s.info, 3) == [Task(3, s.generic)];
    assert [Task(2, s.info), Task(2, s.careers)] == [Task(2, s.info)] + [Task(2, s.careers)];
  }

  /** Round 6 (depth from 2): `careers` is fetched and `generic` dispatched a second time. */
  lemma Round6(s: Site, f: LinkMap, d: int8)
    requires Facts(s, f) && 2 <= d < 127
    ensures Bfs(f, d, [Task(2, s.careers), Task(3, s.generic)], Seen4(s)) ==
            Bfs(f, d, [Task(3, s.generic), Task(3, s.generic)], Seen5(s))
  {
    FetchRound(s, f, d, Task(2, s.careers), [Task(3, s.generic)], Seen4(s));
    assert Seen4(s)[s.careers := f[s.careers]] == Seen5(s);
    DispatchOne(s.generic, Seen5(s), s.careers, 3);
    assert Dispatch([s.generic], Seen5(s), s.careers, 3) == [Task(3, s.generic)];
    assert [Task(2, s.careers), Task(3, s.generic)] == [Task(2, s.careers)] + [Task(3, s.generic)];
  }

  /** Rounds 7 and 8 (depth from 3): `generic` is fetched, has no links, and its second
      task finds it seen; the queue is empty and every page is in the site map. */
  lemma Round8(s: Site, f: LinkMap, d: int8)
    requires Facts(s, f) && 3 <= d < 127
    ensures Bfs(f, d, [Task(3, s.generic), Task(3, s.generic)], Seen5(s)) == Success(f)
  {
    var s6 := Seen5(s)[s.generic := f[s.generic]];
    FetchRound(s, f, d, Task(3, s.generic), [Task(3, s.generic)], Seen5(s));
    assert Dispatch([], s6, s.generic, 4) == [];
    assert [Task(3, s.generic), Task(3, s.generic)] == [Task(3, s.generic)] + [Task(3, s.generic)];
    BfsSkips(f, d, Task(3, s.generic), [], s6);
    assert [Task(3, s.generic)] + [] == [Task(3, s.generic)];
    assert s6 == f;
  }

  /** Depth 0: the site map holds the base page alone. */
  lemma CrawlDepthZero(s: Site, f: LinkMap)
    requires Facts(s, f)
    ensures CrawlFrom(f, 0, Home(s)) == Success(Seen1(s))
  {
    DepthZeroRecordsOnlyBase(f, Home(s));
  }

  /** Depth 1: the base page and the two pages it links to. */
  lemma CrawlDepthOne(s: Site, f: LinkMap)
    requires Facts(s, f)
    ensures CrawlFrom(f, 1, Home(s)) == Success(Seen3(s))
  {
    Round1(s, f, 1);
    Round2(s, f, 1);
    Round3(s, f, 1);
    BfsBeyondDepth(f, 1, [Task(2, s.about), Task(2, s.info), Task(2, s.careers)], Seen3(s));
  }

  /** Depth 2: adds `info` and `careers`, the pages two links away. */
  lemma CrawlDepthTwo(s: Site, f: LinkMap)
    requires Facts(s, f)
    ensures CrawlFrom(f, 2, Home(s)) == Success(Seen5(s))
  {
    Round1(s, f, 2);
    Round2(s, f, 2);
    Round3(s, f, 2);
    Round4(s, f, 2);
    Round5(s, f, 2);
    Round6(s, f, 2);
    BfsBeyondDepth(f, 2, [Task(3, s.generic), Task(3, s.generic)], Seen5(s));
  }

  /** Depth 3 and beyond (the test uses 8): every page of the site, each with its links. */
  lemma CrawlDeep(s: Site, f: LinkMap, d: int8)
    requires Facts(s, f) && 3 <= d < 127
    ensures CrawlFrom(f, d, Home(s)) == Success(f)
  {
    Round1(s, f, d);
    Round2(s, f, d);
    Round3(s, f, d);
    Round4(s, f, d);
    Round5(s, f, d);
    Round6(s, f, d);
    Round8(s, f, d);
  }

  /** The site maps a crawl of a shaped site ends with, as the crawler's tests expect them:
      at depth 0 the base page; at depth 1 also `faq` and `about`; at depth 2 also `info`
      and `careers`; from depth 3 every page. Each page is recorded with its links. */
  lemma ShapedSiteCrawls(s: Site, d: int8)
    requires Shaped(s) && 3 <= d < 127
    ensures WellFormedFetch(s.base, SiteFetch(s))
    ensures var f := SiteLinks(s.base, SiteFetch(s));
      && CrawlFrom(f, 0, Home(s)) == Success(map[Home(s) := [s.faq, s.about]])
      && CrawlFrom(f, 1, Home(s)) ==
         Success(map[Home(s) := [s.faq, s.about], s.faq := [s.about, s.info], s.about := [s.careers, s.faq]])
      && CrawlFrom(f, 2, Home(s)) ==
         Success(map[Home(s) := [s.faq, s.about], s.faq := [s.about, s.info], s.about := [s.careers, s.faq],
                     s.info := [s.about, s.generic], s.careers := [s.generic]])
      && CrawlFrom(f, d, Home(s)) == Success(SiteFetch(s))
  {
    FactsHold(s);
    SiteLinksOfSite(s);
    var f := SiteLinks(s.base, SiteFetch(s));
    CrawlDepthZero(s, f);
    CrawlDepthOne(s, f);
    CrawlDepthTwo(s, f);
    CrawlDeep(s, f, d);
  }

  // ---------------------------------------------------------------- the test's own site

  const TestHome := "https://mmmmm.com"
  const TestFaq := "https://mmmmm.com/faq"
  const TestAbout := "https://mmmmm.com/about"
  const TestInfo := "https://mmmmm.com/info"
  const TestCareers := "https://mmmmm.com/careers"
  const TestGeneric := "https://mmmmm.com/generic"

  function TestSite(): Site {
    Site(BaseUrl("https", "mmmmm.com", ""), TestFaq, TestAbout, TestInfo, TestCareers, TestGeneric)
  }

  lemma NoRedirect(c: string)
    requires 'd' !in c
    ensures !Contains(c, "redirect")
  {
    if Contains(c, "redirect") {
      ContainedCharsOccur(c, "redirect", 2);
    }
  }

  /** `TestHome/tail` is a capture of the test base when the tail is made of link characters. */
  lemma TestCapture(b: BaseUrl, c: string, tail: string)
    requires b == TestSite().base && c == TestHome + "/" + tail && IsHrefTail(tail)
    ensures IsCapture(UrlString(b), c)
  {
    assert UrlString(b) == TestHome;
    assert c[..|TestHome| + 1] == TestHome + "/";
    assert c[|TestHome| + 1..] == tail;
  }

  /** `TestHome/tail` starts with the scheme `https:`. */
  lemma TestAbsolute(c: string, tail: string)
    requires c == TestHome + "/" + tail
    ensures IsAbsolute(c)
  {
    assert c[..5] == "https" && c[5] == ':';
    LettersThenColon(c, 0, 5);
  }

  /** `TestHome/tail` has no `redirect` in it when the tail has no `d`. */
  lemma TestNoRedirect(c: string, tail: string)
    requires c == TestHome + "/" + tail && 'd' !in tail
    ensures !Contains(c, "redirect")
  {
    assert 'd' !in TestHome + "/";
    NoRedirect(c);
  }

  /** `TestHome/tail` is a plain link of the test base when the tail is made of link
      characters and has no `d` (so it cannot contain `redirect`). */
  lemma TestPlainLink(b: BaseUrl, c: string, tail: string)
    requires b == TestSite().base && c == TestHome + "/" + tail
    requires IsHrefTail(tail) && 'd' !in tail
    ensures PlainLink(b, c)
  {
    TestCapture(b, c, tail);
    TestAbsolute(c, tail);
    TestNoRedirect(c, tail);
  }

  lemma TestFaqIsPlain(s: Site) requires s == TestSite() ensures PlainLink(s.base, s.faq) {
    TestPlainLink(s.base, s.faq, "faq");
  }

  lemma TestAboutIsPlain(s: Site) requires s == TestSite() ensures PlainLink(s.base, s.about) {
    TestPlainLink(s.base, s.about, "about");
  }

  lemma TestInfoIsPlain(s: Site) requires s == TestSite() ensures PlainLink(s.base, s.info) {
    TestPlainLink(s.base, s.info, "info");
  }

  lemma TestCareersIsPlain(s: Site) requires s == TestSite() ensures PlainLink(s.base, s.careers) {
    TestPlainLink(s.base, s.careers, "careers");
  }

  lemma TestGenericIsPlain(s: Site) requires s == TestSite() ensures PlainLink(s.base, s.generic) {
    TestPlainLink(s.base, s.generic, "generic");
  }

  /** The test site's six URLs are distinct. */
  lemma TestPagesDistinct(s: Site)
    requires s == TestSite()
    ensures NoDuplicates([Home(s), s.faq, s.about, s.info, s.careers, s.generic])
  {
    assert Home(s) == TestHome;
    assert TestCareers[18] != TestGeneric[18];
  }

  lemma TestLinksArePlain(s: Site)
    requires s == TestSite()
    ensures PlainLink(s.base, s.faq) && PlainLink(s.base, s.about) && PlainLink(s.base, s.info)
    ensures PlainLink(s.base, s.careers) && PlainLink(s.base, s.generic)
  {
    TestFaqIsPlain(s);
    TestAboutIsPlain(s);
    TestInfoIsPlain(s);
    TestCareersIsPlain(s);
    TestGenericIsPlain(s);
  }

  lemma TestBaseIsValid(s: Site)
    requires s == TestSite()
    ensures ValidBase(s.base) && Home(s) == TestHome
  {
    assert Home(s) == TestHome;
  }

  /** The crawler's test site has the shape above. */
  lemma TestSiteIsShaped(s: Site)
    requires s == TestSite()
    ensures Shaped(s) && Home(s) == TestHome
  {
    TestLinksArePlain(s);
    TestBaseIsValid(s);
    TestPagesDistinct(s);
  }

  /** So its crawls end as `ShapedSiteCrawls` states: at depth 8 with all six pages. */
  lemma TestSiteCrawls(s: Site)
    requires s == TestSite()
    ensures WellFormedFetch(s.base, SiteFetch(s))
    ensures CrawlFrom(SiteLinks(s.base, SiteFetch(s)), 8, TestHome) == Success(SiteFetch(s))
  {
    TestSiteIsShaped(s);
    ShapedSiteCrawls(s, 8);
  }
}
