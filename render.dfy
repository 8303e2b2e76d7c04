/**
 * The site-map report of Go's `display`, `displayPageMap` and `createOffset`: a depth-first
 * walk from the base URL over the aggregated site map. Each page gets a block of header
 * lines indented by its depth; unless the next depth is beyond the limit, each of its links
 * is listed, and a link is followed into its own block unless it is the page itself or the
 * page's links were displayed before. A page joins the displayed set once its links have
 * all been walked.
 *
 * The console text itself (`fmt` formatting, the banner lines) is not modelled: a report is
 * a sequence of `Line` values that carry what each printed line shows.
 */
module Render {
  import opened Common
  import opened Crawl

  datatype Line =
    | Separator                                            // the `====` line
    | Header(indent: string, url: string, depth: int8)     // `* url (depth d)`
    | LinkCount(indent: string, count: nat)               // `number of links = n`
    | Rule                                                 // the `----` line
    | LinkLine(indent: string, index: nat, link: string)   // `- i - [link]`
    | DisplayedBefore(indent: string)                      // `(links displayed before)`

  /** A report and the set of pages whose links it has displayed. */
  datatype Rendered = Rendered(lines: seq<Line>, displayed: set<string>)

  // ---------------------------------------------------------------- indentation

  /** `offset` repeated `n` times. */
  function Offset(offset: string, n: nat): string {
    if n == 0 then "" else Offset(offset, n - 1) + offset
  }

  /** The number of copies of the offset `createOffset` puts before a page at `depth`:
      one per value `0, 1, ..., depth`. */
  function Copies(depth: int8): nat {
    if depth < 0 then 0 else depth as nat + 1
  }

  /** `n` copies of the offset are `n` times as long. */
  lemma {:induction false} OffsetLength(offset: string, n: nat)
    ensures |Offset(offset, n)| == n * |offset|
  {
    if n > 0 {
      OffsetLength(offset, n - 1);
    }
  }

  /** Copies concatenate: `m + n` copies are `m` copies followed by `n` copies. So the
      indentation of a deeper page extends that of a shallower one. */
  lemma {:induction false} OffsetAdd(offset: string, m: nat, n: nat)
    ensures Offset(offset, m + n) == Offset(offset, m) + Offset(offset, n)
  {
    if n > 0 {
      OffsetAdd(offset, m, n - 1);
    }
  }

  /** `createOffset`, with a counter that cannot wrap: one copy of the offset for each
      of `0, 1, ..., depth`. */
  method CreateOffset(offset: string, depth: int8) returns (off: string)
    ensures off == Offset(offset, Copies(depth))
    ensures |off| == Copies(depth) * |offset|
  {
    var i: int := 0;
    off := "";
    while i <= depth as int
      invariant 0 <= i <= Copies(depth) && off == Offset(offset, i)
      decreases depth as int + 1 - i
    {
      off := off + offset;
      i := i + 1;
    }
    OffsetLength(offset, Copies(depth));
  }

  /** Go's `i++` on an `int8`: 127 wraps to -128. */
  function WrapInc(i: int8): (r: int8)
    ensures r as int == (i as int + 129) % 256 - 128
  {
    if i == 127 then -128 else i + 1
  }

  /** The loop of `createOffset` as written, on its `int8` counter, run for at most `fuel`
      rounds: `None` when it has not stopped by then. */
  function OffsetLoopAsWritten(offset: string, depth: int8, i: int8, off: string, fuel: nat): Option<string>
    decreases fuel
  {
    if fuel == 0 then None
    else if i <= depth then OffsetLoopAsWritten(offset, depth, WrapInc(i), off + offset, fuel - 1)
    else Some(off)
  }

  /** As written, `createOffset(offset, 127)` never returns: every `int8` is `<= 127`, so
      however many rounds it is given the loop is still running. */
  lemma {:induction false} CreateOffsetNeverEndsAt127(offset: string, i: int8, off: string, fuel: nat)
    ensures OffsetLoopAsWritten(offset, 127, i, off, fuel) == None
    decreases fuel
  {
    if fuel > 0 {
      CreateOffsetNeverEndsAt127(offset, WrapInc(i), off + offset, fuel - 1);
    }
  }

  /** Below 127 the loop as written agrees with `CreateOffset`: started from 0 it stops
      after `depth + 1` rounds with `depth + 1` copies. */
  lemma {:induction false} CreateOffsetAsWrittenBelow127(offset: string, depth: int8, i: int8, off: string, fuel: nat)
    requires depth < 127 && 0 <= i as int <= depth as int + 1 && fuel >= depth as int + 2 - i as int
    ensures OffsetLoopAsWritten(offset, depth, i, off, fuel) == Some(off + Offset(offset, depth as int + 1 - i as int))
    decreases depth as int + 1 - i as int
  {
    if i <= depth {
      CreateOffsetAsWrittenBelow127(offset, depth, WrapInc(i), off + offset, fuel - 1);
      var n := depth as int - i as int;
      OffsetAdd(offset, 1, n);
      assert Offset(offset, 1) == offset;
      assert (off + offset) + Offset(offset, n) == off + Offset(offset, 1 + n);
    } else {
      assert Offset(offset, 0) == "";
      assert off + "" == off;
    }
  }

  /** The whole of `createOffset` as written, for every depth below 127: started from 0,
      the loop stops with one copy per value `0, 1, ..., depth`, and at once with no copy
      for a negative depth, as `CreateOffset` computes. */
  lemma CreateOffsetAsWritten(offset: string, depth: int8, fuel: nat)
    requires depth < 127 && fuel >= Copies(depth) + 1
    ensures OffsetLoopAsWritten(offset, depth, 0, "", fuel) == Some(Offset(offset, Copies(depth)))
  {
    if depth < 0 {
      assert Offset(offset, 0) == "";
    } else {
      CreateOffsetAsWrittenBelow127(offset, depth, 0, "", fuel);
      assert "" + Offset(offset, Copies(depth)) == Offset(offset, Copies(depth));
    }
  }

  // ---------------------------------------------------------------- the walk

  /** The links recorded for `url`; a page missing from the map has none. */
  function LinksOf(pages: SiteMap, url: string): seq<string> {
    if url in pages then pages[url] else []
  }

  /** The four lines printed for every page, whatever its depth. */
  function HeaderLines(pages: SiteMap, offset: string, depth: int8, url: string): seq<Line> {
    var urlOfs := Offset(offset, Copies(depth));
    [Separator, Header(urlOfs, url, depth), LinkCount(urlOfs + offset, |LinksOf(pages, url)|), Rule]
  }

  /** `displayPageMap(pages, maxDepth, displayed, offset, depth, url)`. */
  function PageLines(pages: SiteMap, maxDepth: int8, offset: string, displayed: set<string>, depth: int8, url: string): Rendered
    requires 0 <= depth < 127 && maxDepth < 127
    decreases maxDepth as int - depth as int, 1, 0
  {
    var head := HeaderLines(pages, offset, depth, url);
    if depth + 1 > maxDepth then Rendered(head, displayed)
    else
      var linkOfs := Offset(offset, Copies(depth)) + offset;
      var r := LinkLines(pages, maxDepth, offset, displayed, depth + 1, url, linkOfs, LinksOf(pages, url), 0);
      Rendered(head + r.lines + [Rule], r.displayed + {url})
  }

  /** The loop of `displayPageMap` over the links of `url` from index `i`, with `next` the
      depth of the pages it recurses into. */
  function LinkLines(pages: SiteMap, maxDepth: int8, offset: string, displayed: set<string>,
                     next: int8, url: string, linkOfs: string, links: seq<string>, i: nat): Rendered
    requires 0 < next <= maxDepth < 127 && i <= |links|
    decreases maxDepth as int - next as int + 1, 0, |links| - i
  {
    if i == |links| then Rendered([], displayed)
    else
      var l := links[i];
      var line := LinkLine(linkOfs, i, l);
      if l == url then
        var rest := LinkLines(pages, maxDepth, offset, displayed, next, url, linkOfs, links, i + 1);
        Rendered([line] + rest.lines, rest.displayed)
      else if url in displayed then
        var rest := LinkLines(pages, maxDepth, offset, displayed, next, url, linkOfs, links, i + 1);
        Rendered([line, DisplayedBefore(linkOfs)] + rest.lines, rest.displayed)
      else
        var sub := PageLines(pages, maxDepth, offset, displayed, next, l);
        var rest := LinkLines(pages, maxDepth, offset, sub.displayed, next, url, linkOfs, links, i + 1);
        Rendered([line] + sub.lines + rest.lines, rest.displayed)
  }

  /** `display`: the walk from the base URL at depth 0 with nothing displayed yet. */
  function Report(pages: SiteMap, maxDepth: int8, offset: string, baseUrl: string): seq<Line>
    requires maxDepth < 127
  {
    PageLines(pages, maxDepth, offset, {}, 0, baseUrl).lines
  }

  // ---------------------------------------------------------------- properties of the walk

  /** Every page header in `lines` is at a depth in `lo..hi` and indented by one offset per
      level from 0 to that depth. */
  predicate HeadersWithin(lines: seq<Line>, lo: int8, hi: int8, offset: string) {
    forall k :: 0 <= k < |lines| && lines[k].Header? ==>
      lo <= lines[k].depth <= hi && lines[k].indent == Offset(offset, Copies(lines[k].depth))
  }

  /** `lines` holds no page header. */
  predicate NoHeaders(lines: seq<Line>) {
    forall k :: 0 <= k < |lines| ==> !lines[k].Header?
  }

  /** What the walk of one page guarantees: it begins with the page's header lines; when
      the next depth is beyond the limit it is those lines alone and displays nothing more;
      every header in it lies between the page's depth and the limit, correctly indented;
      the displayed set only grows, and holds the page once its links are walked; and if
      the page's links were displayed before, no other page is entered and the displayed
      set is unchanged. */
  lemma {:induction false} PageLinesSpec(pages: SiteMap, maxDepth: int8, offset: string, displayed: set<string>, depth: int8, url: string)
    requires 0 <= depth < 127 && maxDepth < 127
    ensures var r := PageLines(pages, maxDepth, offset, displayed, depth, url);
      && |r.lines| >= 4 && r.lines[..4] == HeaderLines(pages, offset, depth, url)
      && (depth + 1 > maxDepth ==> r.lines == HeaderLines(pages, offset, depth, url) && r.displayed == displayed)
      && (depth <= maxDepth ==> HeadersWithin(r.lines, depth, maxDepth, offset))
      && displayed <= r.displayed
      && (depth + 1 <= maxDepth ==> url in r.displayed)
      && (url in displayed ==> r.displayed == displayed && NoHeaders(r.lines[2..]))
    decreases maxDepth as int - depth as int, 1, 0
  {
    var r := PageLines(pages, maxDepth, offset, displayed, depth, url);
    var head := HeaderLines(pages, offset, depth, url);
    if depth + 1 <= maxDepth {
      var linkOfs := Offset(offset, Copies(depth)) + offset;
      var links := LinksOf(pages, url);
      var rest := LinkLines(pages, maxDepth, offset, displayed, depth + 1, url, linkOfs, links, 0);
      LinkLinesSpec(pages, maxDepth, offset, displayed, depth + 1, url, linkOfs, links, 0);
      assert r.lines == head + rest.lines + [Rule];
      assert r.lines[..4] == head;
      forall k | 0 <= k < |r.lines| && r.lines[k].Header?
        ensures depth <= r.lines[k].depth <= maxDepth && r.lines[k].indent == Offset(offset, Copies(r.lines[k].depth))
      {
        if k >= 4 {
          assert r.lines[k] == rest.lines[k - 4];
        }
      }
      if url in displayed {
        forall k | 0 <= k < |r.lines[2..]|
          ensures !r.lines[2..][k].Header?
        {
          if k + 2 >= 4 && k + 2 < 4 + |rest.lines| {
            assert r.lines[2..][k] == rest.lines[k + 2 - 4];
          }
        }
      }
    }
  }

  /** The same guarantees for the loop over the links of `url` from index `i`: headers lie
      between `next` and the limit, the displayed set only grows, and when `url` was
      displayed before no page is entered and the set is unchanged. */
  lemma {:induction false} LinkLinesSpec(pages: SiteMap, maxDepth: int8, offset: string, displayed: set<string>,
                                         next: int8, url: string, linkOfs: string, links: seq<string>, i: nat)
    requires 0 < next <= maxDepth < 127 && i <= |links|
    ensures var r := LinkLines(pages, maxDepth, offset, displayed, next, url, linkOfs, links, i);
      && HeadersWithin(r.lines, next, maxDepth, offset)
      && displayed <= r.displayed
      && (url in displayed ==> r.displayed == displayed && NoHeaders(r.lines))
    decreases maxDepth as int - next as int + 1, 0, |links| - i
  {
    if i < |links| {
      var l := links[i];
      var line := LinkLine(linkOfs, i, l);
      var r := LinkLines(pages, maxDepth, offset, displayed, next, url, linkOfs, links, i);
      if l == url || url in displayed {
        var rest := LinkLines(pages, maxDepth, offset, displayed, next, url, linkOfs, links, i + 1);
        LinkLinesSpec(pages, maxDepth, offset, displayed, next, url, linkOfs, links, i + 1);
        var pre := if l == url then [line] else [line, DisplayedBefore(linkOfs)];
        assert r.lines == pre + rest.lines;
        forall k | 0 <= k < |r.lines| && r.lines[k].Header?
          ensures next <= r.lines[k].depth <= maxDepth && r.lines[k].indent == Offset(offset, Copies(r.lines[k].depth))
        {
          assert r.lines[k] == rest.lines[k - |pre|];
        }
        if url in displayed {
          forall k | 0 <= k < |r.lines| ensures !r.lines[k].Header? {
            if k >= |pre| {
              assert r.lines[k] == rest.lines[k - |pre|];
            }
          }
        }
      } else {
        var sub := PageLines(pages, maxDepth, offset, displayed, next, l);
        var rest := LinkLines(pages, maxDepth, offset, sub.displayed, next, url, linkOfs, links, i + 1);
        PageLinesSpec(pages, maxDepth, offset, displayed, next, l);
        LinkLinesSpec(pages, maxDepth, offset, sub.displayed, next, url, linkOfs, links, i + 1);
        assert r.lines == [line] + sub.lines + rest.lines;
        forall k | 0 <= k < |r.lines| && r.lines[k].Header?
          ensures next <= r.lines[k].depth <= maxDepth && r.lines[k].indent == Offset(offset, Copies(r.lines[k].depth))
        {
          if k <= |sub.lines| {
            assert r.lines[k] == sub.lines[k - 1];
          } else {
            assert r.lines[k] == rest.lines[k - 1 - |sub.lines|];
          }
        }
      }
    }
  }

  /** Every link from index `i` on is listed, with its index, whatever else is shown. */
  lemma {:induction false} LinkLinesListsLinks(pages: SiteMap, maxDepth: int8, offset: string, displayed: set<string>,
                                               next: int8, url: string, linkOfs: string, links: seq<string>, i: nat)
    requires 0 < next <= maxDepth < 127 && i <= |links|
    ensures var r := LinkLines(pages, maxDepth, offset, displayed, next, url, linkOfs, links, i);
      forall k :: i <= k < |links| ==> LinkLine(linkOfs, k, links[k]) in r.lines
    decreases |links| - i
  {
    if i < |links| {
      var r := LinkLines(pages, maxDepth, offset, displayed, next, url, linkOfs, links, i);
      var l := links[i];
      var line := LinkLine(linkOfs, i, l);
      var seen': set<string>;
      var mid: seq<Line>;
      if l == url {
        ListSelfLink(pages, maxDepth, offset, displayed, next, url, linkOfs, links, i, []);
        seen', mid := displayed, [];
      } else if url in displayed {
        ListDisplayedLink(pages, maxDepth, offset, displayed, next, url, linkOfs, links, i, []);
        seen', mid := displayed, [DisplayedBefore(linkOfs)];
      } else {
        ListFollowedLink(pages, maxDepth, offset, displayed, next, url, linkOfs, links, i, []);
        var sub := PageLines(pages, maxDepth, offset, displayed, next, l);
        seen', mid := sub.displayed, sub.lines;
      }
      var rest := LinkLines(pages, maxDepth, offset, seen', next, url, linkOfs, links, i + 1);
      assert r.lines == [line] + mid + rest.lines;
      LinkLinesListsLinks(pages, maxDepth, offset, seen', next, url, linkOfs, links, i + 1);
      forall k | i < k < |links| ensures LinkLine(linkOfs, k, links[k]) in r.lines {
        var j :| 0 <= j < |rest.lines| && rest.lines[j] == LinkLine(linkOfs, k, links[k]);
        assert r.lines[1 + |mid| + j] == rest.lines[j];
      }
    }
  }

  /** A page whose links are walked lists every one of them, in order of index, one level
      of offset deeper than its header. */
  lemma PageLinesListsLinks(pages: SiteMap, maxDepth: int8, offset: string, displayed: set<string>, depth: int8, url: string)
    requires 0 <= depth < 127 && maxDepth < 127 && depth + 1 <= maxDepth
    ensures var r := PageLines(pages, maxDepth, offset, displayed, depth, url);
      var links := LinksOf(pages, url);
      forall k :: 0 <= k < |links| ==> LinkLine(Offset(offset, Copies(depth)) + offset, k, links[k]) in r.lines
  {
    var linkOfs := Offset(offset, Copies(depth)) + offset;
    var links := LinksOf(pages, url);
    var rest := LinkLines(pages, maxDepth, offset, displayed, depth + 1, url, linkOfs, links, 0);
    LinkLinesListsLinks(pages, maxDepth, offset, displayed, depth + 1, url, linkOfs, links, 0);
    var r := PageLines(pages, maxDepth, offset, displayed, depth, url);
    assert r.lines == HeaderLines(pages, offset, depth, url) + rest.lines + [Rule];
    forall k | 0 <= k < |links| ensures LinkLine(linkOfs, k, links[k]) in r.lines {
      var j :| 0 <= j < |rest.lines| && rest.lines[j] == LinkLine(linkOfs, k, links[k]);
      assert r.lines[4 + j] == rest.lines[j];
    }
  }

  /** `display` from the base URL: the report opens with the base page's header at depth
      0, and every page header in it lies within the crawl depth, indented once per level. */
  lemma ReportSpec(pages: SiteMap, maxDepth: int8, offset: string, baseUrl: string)
    requires 0 <= maxDepth < 127
    ensures var lines := Report(pages, maxDepth, offset, baseUrl);
      && lines[..4] == [Separator, Header(offset, baseUrl, 0), LinkCount(offset + offset, |LinksOf(pages, baseUrl)|), Rule]
      && HeadersWithin(lines, 0, maxDepth, offset)
      && (maxDepth == 0 ==> |lines| == 4)
  {
    PageLinesSpec(pages, maxDepth, offset, {}, 0, baseUrl);
    assert Offset(offset, 0) == "";
    assert Offset(offset, 1) == "" + offset == offset;
  }

  /** With a negative depth limit, which `inputCheck` leaves as it is, the display is the
      base page's header block alone: the next depth is already beyond the limit. */
  lemma ReportNegativeDepth(pages: SiteMap, maxDepth: int8, offset: string, baseUrl: string)
    requires maxDepth < 0
    ensures Report(pages, maxDepth, offset, baseUrl) ==
      [Separator, Header(offset, baseUrl, 0), LinkCount(offset + offset, |LinksOf(pages, baseUrl)|), Rule]
  {
    assert Offset(offset, 0) == "";
    assert Offset(offset, 1) == "" + offset == offset;
  }

  /** One round of the loop over the links of `url` when the link leads back to `url`:
      it is listed and not followed. */
  lemma ListSelfLink(pages: SiteMap, maxDepth: int8, offset: string, displayed: set<string>,
                     next: int8, url: string, linkOfs: string, links: seq<string>, i: nat, before: seq<Line>)
    requires 0 < next <= maxDepth < 127 && i < |links| && links[i] == url
    ensures var here := LinkLines(pages, maxDepth, offset, displayed, next, url, linkOfs, links, i);
      var after := LinkLines(pages, maxDepth, offset, displayed, next, url, linkOfs, links, i + 1);
      before + [LinkLine(linkOfs, i, url)] + after.lines == before + here.lines && here.displayed == after.displayed
  {
  }

  /** One round when `url` has been displayed before: the link is listed with a note and
      not followed. */
  lemma ListDisplayedLink(pages: SiteMap, maxDepth: int8, offset: string, displayed: set<string>,
                          next: int8, url: string, linkOfs: string, links: seq<string>, i: nat, before: seq<Line>)
    requires 0 < next <= maxDepth < 127 && i < |links| && links[i] != url && url in displayed
    ensures var here := LinkLines(pages, maxDepth, offset, displayed, next, url, linkOfs, links, i);
      var after := LinkLines(pages, maxDepth, offset, displayed, next, url, linkOfs, links, i + 1);
      before + [LinkLine(linkOfs, i, links[i]), DisplayedBefore(linkOfs)] + after.lines == before + here.lines
      && here.displayed == after.displayed
  {
  }

  /** One round that follows the link: it is listed and its page is displayed one level
      deeper. */
  lemma ListFollowedLink(pages: SiteMap, maxDepth: int8, offset: string, displayed: set<string>,
                         next: int8, url: string, linkOfs: string, links: seq<string>, i: nat, before: seq<Line>)
    requires 0 < next <= maxDepth < 127 && i < |links| && links[i] != url && url !in displayed
    ensures var here := LinkLines(pages, maxDepth, offset, displayed, next, url, linkOfs, links, i);
      var sub := PageLines(pages, maxDepth, offset, displayed, next, links[i]);
      var after := LinkLines(pages, maxDepth, offset, sub.displayed, next, url, linkOfs, links, i + 1);
      before + [LinkLine(linkOfs, i, links[i])] + sub.lines + after.lines == before + here.lines
      && here.displayed == after.displayed
  {
    var sub := PageLines(pages, maxDepth, offset, displayed, next, links[i]);
    var after := LinkLines(pages, maxDepth, offset, sub.displayed, next, url, linkOfs, links, i + 1);
    assert LinkLines(pages, maxDepth, offset, displayed, next, url, linkOfs, links, i).lines
        == [LinkLine(linkOfs, i, links[i])] + sub.lines + after.lines;
  }

  /** The displayed set is consulted for the page being walked, not for the link: on two
      pages that link to each other, walked to depth 2 from `a`, the walk enters `b` and
      then `a` again, so `a` gets a second header at depth 2. */
  lemma CyclicPageIsShownAgain(a: string, b: string, offset: string)
    requires a != b
    ensures var lines := Report(map[a := [b], b := [a]], 2, offset, a);
      lines[1] == Header(Offset(offset, 1), a, 0) && Header(Offset(offset, 3), a, 2) in lines
  {
    var pages := map[a := [b], b := [a]];
    var ofs1 := Offset(offset, 1) + offset;
    var ofs2 := Offset(offset, 2) + offset;
    var inner := PageLines(pages, 2, offset, {}, 2, a);
    assert inner.lines == HeaderLines(pages, offset, 2, a) && inner.displayed == {};
    var middle := PageLines(pages, 2, offset, {}, 1, b);
    var middleLinks := LinkLines(pages, 2, offset, {}, 2, b, ofs2, [a], 0);
    assert [a][0] == a && |[a]| == 1;
    assert LinkLines(pages, 2, offset, inner.displayed, 2, b, ofs2, [a], 1) == Rendered([], {});
    assert middleLinks.lines == [LinkLine(ofs2, 0, a)] + inner.lines + [];
    assert middle.lines == HeaderLines(pages, offset, 1, b) + middleLinks.lines + [Rule];
    var outerLinks := LinkLines(pages, 2, offset, {}, 1, a, ofs1, [b], 0);
    assert outerLinks.lines == [LinkLine(ofs1, 0, b)] + middle.lines + LinkLines(pages, 2, offset, middle.displayed, 1, a, ofs1, [b], 1).lines;
    var lines := Report(pages, 2, offset, a);
    assert lines == HeaderLines(pages, offset, 0, a) + outerLinks.lines + [Rule];
    assert lines[4 + 1 + 4 + 1 + 1] == Header(Offset(offset, 3), a, 2);
  }

  /** The state `displayPageMap` shares between its recursive calls: the set of pages
      whose links have been listed, and the lines written so far. */
  class Renderer {
    var displayedPages: set<string>
    var output: seq<Line>

    constructor ()
      ensures displayedPages == {} && output == []
    {
      displayedPages := {};
      output := [];
    }

    /** `displayPageMap`: appends the lines of `PageLines` for `url` at `depth` and leaves
        the displayed set as `PageLines` says. */
    method DisplayPageMap(pages: SiteMap, maxDepth: int8, offset: string, depth: int8, url: string)
      requires 0 <= depth < 127 && maxDepth < 127
      modifies this
      ensures var r := PageLines(pages, maxDepth, offset, old(displayedPages), depth, url);
        output == old(output) + r.lines && displayedPages == r.displayed
      decreases maxDepth as int - depth as int, 1
    {
      var urlOfs := CreateOffset(offset, depth);
      var linkOfs := urlOfs + offset;
      var links := LinksOf(pages, url);
      var head := [Separator, Header(urlOfs, url, depth), LinkCount(linkOfs, |links|), Rule];
      assert head == HeaderLines(pages, offset, depth, url);
      output := output + head;
      if depth + 1 > maxDepth {
        return;
      }
      ghost var total := LinkLines(pages, maxDepth, offset, displayedPages, depth + 1, url, linkOfs, links, 0);
      ListLinks(pages, maxDepth, offset, depth + 1, url, linkOfs, links);
      displayedPages := displayedPages + {url};
      output := output + [Rule];
      assert output == old(output) + (head + total.lines + [Rule]);
    }

    /** The loop of `displayPageMap` over the links of `url`: each link is listed; a link
        back to `url` is not followed, and once `url` has been displayed no link is. */
    method ListLinks(pages: SiteMap, maxDepth: int8, offset: string, next: int8, url: string,
                     linkOfs: string, links: seq<string>)
      requires 0 < next <= maxDepth < 127
      modifies this
      ensures var r := LinkLines(pages, maxDepth, offset, old(displayedPages), next, url, linkOfs, links, 0);
        output == old(output) + r.lines && displayedPages == r.displayed
      decreases maxDepth as int - next as int + 1, 0
    {
      ghost var total := LinkLines(pages, maxDepth, offset, displayedPages, next, url, linkOfs, links, 0);
      var i := 0;
      while i < |links|
        invariant 0 <= i <= |links|
        invariant var rest := LinkLines(pages, maxDepth, offset, displayedPages, next, url, linkOfs, links, i);
          old(output) + total.lines == output + rest.lines && total.displayed == rest.displayed
      {
        var l := links[i];
        ghost var before := output;
        output := output + [LinkLine(linkOfs, i, l)];
        if l == url {
          // a page's link to itself is listed but not followed
          ListSelfLink(pages, maxDepth, offset, displayedPages, next, url, linkOfs, links, i, before);
        } else if url in displayedPages {
          output := output + [DisplayedBefore(linkOfs)];
          ListDisplayedLink(pages, maxDepth, offset, displayedPages, next, url, linkOfs, links, i, before);
        } else {
          ListFollowedLink(pages, maxDepth, offset, displayedPages, next, url, linkOfs, links, i, before);
          DisplayPageMap(pages, maxDepth, offset, next, l);
        }
        i := i + 1;
      }
    }
  }
}
