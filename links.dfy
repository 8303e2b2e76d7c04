/**
 * Link extraction (Go's `regexSetup` and `extractLinks`).
 *
 * The page scanner is a regular expression built from the base URL; what it hands to the
 * post-processing is at most 30 captured `href` values, each the base URL followed by `/…`
 * or a bare `/…`, where `…` is one or more of `[a-zA-Z_0-9\-/&?]`. The scanner itself is not
 * modelled: its captures are the input here and their shape is `WellFormedCaptures`.
 * Post-processing drops captures containing `redirect`, resolves non-absolute ones against
 * the base URL and removes duplicates, keeping the first occurrence.
 */
module Links {
  import opened Common
  import opened Config

  /** The `n` argument of `FindAllStringSubmatch`: at most this many matches per page. */
  const MaxMatches := 30

  // ---------------------------------------------------------------- capture shape

  /** `[a-zA-Z_0-9\-/&?]` */
  predicate IsHrefChar(c: char) {
    ('a' <= c <= 'z') || ('A' <= c <= 'Z') || ('0' <= c <= '9') ||
    c == '_' || c == '-' || c == '/' || c == '&' || c == '?'
  }

  /** `[a-zA-Z_0-9\-/&?]+` */
  predicate IsHrefTail(t: string) {
    |t| > 0 && forall i :: 0 <= i < |t| ==> IsHrefChar(t[i])
  }

  /** One capture of `((?:BASE)?/[a-zA-Z_0-9\-/&?]+)`, with BASE taken literally. */
  predicate IsCapture(baseUrl: string, c: string) {
    (baseUrl + "/" <= c && IsHrefTail(c[|baseUrl| + 1..])) ||
    (|c| > 0 && c[0] == '/' && IsHrefTail(c[1..]))
  }

  /** What the scanner hands over for one page. */
  predicate WellFormedCaptures(baseUrl: string, caps: seq<string>) {
    |caps| <= MaxMatches && forall i :: 0 <= i < |caps| ==> IsCapture(baseUrl, caps[i])
  }

  /** Every capture starts either with the base URL and a slash or with a slash. So a link
      to another host, or an `http` link under an `https` base, is never captured. */
  lemma CaptureStartsWithBaseOrSlash(baseUrl: string, c: string)
    requires IsCapture(baseUrl, c)
    ensures baseUrl + "/" <= c || c[0] == '/'
  {
  }

  /** A `.` after the base prefix stops the scan, so a link such as `…/favicon.png` is never
      captured whole. */
  lemma CaptureHasNoDotAfterPrefix(b: BaseUrl, c: string)
    requires ValidBase(b) && IsCapture(UrlString(b), c)
    ensures UrlString(b) + "/" <= c ==> '.' !in c[|UrlString(b)| + 1..]
    ensures c[0] == '/' ==> '.' !in c
  {
    var u := UrlString(b);
    assert u[0] == 'h';
    if u + "/" <= c {
      assert c[0] == 'h';
      assert IsHrefTail(c[|u| + 1..]);
    } else {
      assert IsHrefTail(c[1..]);
      assert c == [c[0]] + c[1..];
    }
  }

  /** The test page's link to another host is not a capture. */
  lemma OtherHostNotCaptured()
    ensures !IsCapture("https://mmmmm.com", "https://notthisone.com/about")
  {
    var c := "https://notthisone.com/about";
    assert c[8] != ("https://mmmmm.com" + "/")[8];
    assert c[0] != '/';
  }

  /** The `http` variant of a link under the `https` base is not a capture. */
  lemma HttpVariantNotCaptured()
    ensures !IsCapture("https://mmmmm.com", "http://mmmmm.com/about")
  {
    var c := "http://mmmmm.com/about";
    assert c[4] != ("https://mmmmm.com" + "/")[4];
    assert c[0] != '/';
  }

  /** The favicon link of the test page is not a capture. */
  lemma FaviconNotCaptured()
    ensures !IsCapture("https://mmmmm.com", "https://mmmmm.com/static/images/favicon.png")
  {
    var c := "https://mmmmm.com/static/images/favicon.png";
    var t := c[18..];
    assert t[21] == '.' && !IsHrefChar(t[21]);
    assert c[0] != '/';
  }

  // ---------------------------------------------------------------- absolute or relative

  predicate IsLetter(c: char) {
    ('a' <= c <= 'z') || ('A' <= c <= 'Z')
  }

  /** Go's `getScheme` from index `i` on: letters, then letters, digits, `+`, `-` or `.`,
      up to a `:` that is not the first character. */
  predicate SchemeFrom(s: string, i: nat)
    decreases |s| - i
  {
    if i >= |s| then false
    else if IsLetter(s[i]) then SchemeFrom(s, i + 1)
    else if ('0' <= s[i] <= '9') || s[i] == '+' || s[i] == '-' || s[i] == '.' then
      i > 0 && SchemeFrom(s, i + 1)
    else s[i] == ':' && i > 0
  }

  /** Go's `(*url.URL).IsAbs()` on the parse of `s`: `s` carries a scheme. */
  predicate IsAbsolute(s: string) {
    SchemeFrom(s, 0)
  }

  lemma {:induction false} LettersThenColon(s: string, i: nat, k: nat)
    requires i <= k < |s| && k > 0 && s[k] == ':'
    requires forall j :: i <= j < k ==> IsLetter(s[j])
    ensures SchemeFrom(s, i)
    decreases k - i
  {
    if i < k {
      LettersThenColon(s, i + 1, k);
    }
  }

  /** A capture is absolute exactly when it carries the base-URL prefix. */
  lemma CaptureAbsoluteIffPrefixed(b: BaseUrl, c: string)
    requires ValidBase(b) && IsCapture(UrlString(b), c)
    ensures IsAbsolute(c) <==> c[0] != '/'
    ensures IsAbsolute(c) <==> UrlString(b) + "/" <= c
  {
    var u := UrlString(b);
    if u + "/" <= c {
      assert c[..|b.scheme| + 1] == b.scheme + ":";
      assert forall j :: 0 <= j < |b.scheme| ==> IsLetter(c[j]);
      LettersThenColon(c, 0, |b.scheme|);
      assert c[0] == 'h';
    } else {
      assert c[0] == '/';
    }
  }

  // ---------------------------------------------------------------- resolution

  /**
   * Go's `baseURLParsed.ResolveReference(url.Parse(href)).String()` for a capture, or the
   * capture itself when it is absolute. A root-relative `/…` (and `///…`, which Go does not
   * read as an authority) is appended to `scheme://host`; `//host…` takes the base's scheme;
   * `//` with nothing or only a query after it keeps the base's path.
   */
  function Resolve(b: BaseUrl, href: string): (r: string)
    requires ValidBase(b) && IsCapture(UrlString(b), href)
  {
    if IsAbsolute(href) then href
    else if |href| >= 2 && href[1] == '/' && !(|href| >= 3 && href[2] == '/') then
      if |href| == 2 || href[2] == '?' then Origin(b) + b.path + href[2..]
      else b.scheme + ":" + href
    else Origin(b) + href
  }

  /** An absolute capture is returned unchanged; a root-relative one that does not start
      with `//` becomes the base URL followed by the capture. */
  lemma ResolveSpec(b: BaseUrl, href: string)
    requires ValidBase(b) && IsCapture(UrlString(b), href)
    ensures UrlString(b) + "/" <= href ==> Resolve(b, href) == href
    ensures href[0] == '/' && !(|href| >= 2 && href[1] == '/') ==>
              Resolve(b, href) == Origin(b) + href
    ensures href[0] == '/' && !(|href| >= 2 && href[1] == '/') && b.path == "" ==>
              Resolve(b, href) == UrlString(b) + href
  {
    CaptureAbsoluteIffPrefixed(b, href);
  }

  /** No capture resolves to the empty string. */
  lemma ResolveNonEmpty(b: BaseUrl, href: string)
    requires ValidBase(b) && IsCapture(UrlString(b), href)
    ensures Resolve(b, href) != ""
  {
  }

  // ---------------------------------------------------------------- post-processing

  /** The resolved captures that survive the `redirect` filter, in scan order. */
  function Candidates(b: BaseUrl, caps: seq<string>): (r: seq<string>)
    requires ValidBase(b) && forall i :: 0 <= i < |caps| ==> IsCapture(UrlString(b), caps[i])
    ensures |r| <= |caps|
  {
    if caps == [] then []
    else
      var c := caps[|caps| - 1];
      Candidates(b, caps[..|caps| - 1]) + (if Contains(c, "redirect") then [] else [Resolve(b, c)])
  }

  /** The elements of `s` without repeats, each at its first occurrence. */
  function Dedup<T(==)>(s: seq<T>): (r: seq<T>)
    ensures |r| <= |s|
  {
    if s == [] then []
    else
      var p := s[..|s| - 1];
      Dedup(p) + (if s[|s| - 1] in p then [] else [s[|s| - 1]])
  }

  /** Index of the first occurrence of `x` in `s`. */
  function FirstIndex<T(==)>(s: seq<T>, x: T): (k: nat)
    requires x in s
    ensures k < |s| && s[k] == x && x !in s[..k]
  {
    var p := s[..|s| - 1];
    if x in p then FirstIndex(p, x) else |s| - 1
  }

  /** Go's `extractLinks` after the scan. */
  function Extract(b: BaseUrl, caps: seq<string>): seq<string>
    requires ValidBase(b) && forall i :: 0 <= i < |caps| ==> IsCapture(UrlString(b), caps[i])
  {
    Dedup(Candidates(b, caps))
  }

  // ---------------------------------------------------------------- properties

  lemma {:induction false} DedupElements<T>(s: seq<T>)
    ensures forall x :: x in Dedup(s) <==> x in s
  {
    if s != [] {
      var p := s[..|s| - 1];
      DedupElements(p);
      assert s == p + [s[|s| - 1]];
    }
  }

  lemma {:induction false} DedupNoDuplicates<T>(s: seq<T>)
    ensures NoDuplicates(Dedup(s))
  {
    if s != [] {
      var p := s[..|s| - 1];
      DedupNoDuplicates(p);
      DedupElements(p);
    }
  }

  /** `Dedup` keeps first-occurrence order: earlier entries of the result first occur
      earlier in the input. */
  lemma {:induction false} DedupOrder<T>(s: seq<T>)
    ensures forall x :: x in Dedup(s) ==> x in s
    ensures forall i, j :: 0 <= i < j < |Dedup(s)| ==>
              FirstIndex(s, Dedup(s)[i]) < FirstIndex(s, Dedup(s)[j])
  {
    DedupElements(s);
    if s != [] {
      var p := s[..|s| - 1];
      var x := s[|s| - 1];
      DedupOrder(p);
      DedupElements(p);
      var r := Dedup(s);
      forall i, j | 0 <= i < j < |r|
        ensures FirstIndex(s, r[i]) < FirstIndex(s, r[j])
      {
        assert r[i] in Dedup(p);
        assert s[..|s| - 1] == p;
        if j < |Dedup(p)| {
          assert r[j] in p;
        } else {
          assert r[j] == x && x !in p;
        }
      }
    }
  }

  /** A duplicate-free sequence is its own `Dedup`. */
  lemma {:induction false} DedupOfDistinct<T>(s: seq<T>)
    requires NoDuplicates(s)
    ensures Dedup(s) == s
  {
    if s != [] {
      var p := s[..|s| - 1];
      DedupOfDistinct(p);
      assert s[|s| - 1] !in p;
      assert s == p + [s[|s| - 1]];
    }
  }

  /** `Dedup` is idempotent. */
  lemma DedupIdempotent<T>(s: seq<T>)
    ensures Dedup(Dedup(s)) == Dedup(s)
  {
    DedupNoDuplicates(s);
    DedupOfDistinct(Dedup(s));
  }

  /** Every candidate is the resolution of a capture without `redirect`, and every such
      capture's resolution is a candidate. */
  lemma {:induction false} CandidatesSpec(b: BaseUrl, caps: seq<string>)
    requires ValidBase(b) && forall i :: 0 <= i < |caps| ==> IsCapture(UrlString(b), caps[i])
    ensures forall l :: l in Candidates(b, caps) ==>
              exists i :: 0 <= i < |caps| && !Contains(caps[i], "redirect") && l == Resolve(b, caps[i])
    ensures forall i :: 0 <= i < |caps| && !Contains(caps[i], "redirect") ==>
              Resolve(b, caps[i]) in Candidates(b, caps)
  {
    if caps != [] {
      var p := caps[..|caps| - 1];
      CandidatesSpec(b, p);
      forall l | l in Candidates(b, caps)
        ensures exists i :: 0 <= i < |caps| && !Contains(caps[i], "redirect") && l == Resolve(b, caps[i])
      {
        if l in Candidates(b, p) {
          var i :| 0 <= i < |p| && !Contains(p[i], "redirect") && l == Resolve(b, p[i]);
          assert caps[i] == p[i];
        } else {
          assert l == Resolve(b, caps[|caps| - 1]);
        }
      }
      forall i | 0 <= i < |caps| && !Contains(caps[i], "redirect")
        ensures Resolve(b, caps[i]) in Candidates(b, caps)
      {
        if i < |p| {
          assert caps[i] == p[i];
        }
      }
    }
  }

  /**
   * What `extractLinks` returns: at most as many links as captures (so at most 30), no link
   * twice, exactly the resolutions of the captures that do not contain `redirect`, in the
   * order of their first occurrence among those resolutions.
   */
  lemma ExtractSpec(b: BaseUrl, caps: seq<string>)
    requires ValidBase(b) && WellFormedCaptures(UrlString(b), caps)
    ensures |Extract(b, caps)| <= |caps| <= MaxMatches
    ensures NoDuplicates(Extract(b, caps))
    ensures forall l :: l in Extract(b, caps) ==> l in Candidates(b, caps)
    ensures forall l :: l in Extract(b, caps) <==>
              exists i :: 0 <= i < |caps| && !Contains(caps[i], "redirect") && l == Resolve(b, caps[i])
    ensures forall i, j :: 0 <= i < j < |Extract(b, caps)| ==>
              FirstIndex(Candidates(b, caps), Extract(b, caps)[i]) <
              FirstIndex(Candidates(b, caps), Extract(b, caps)[j])
  {
    var cands := Candidates(b, caps);
    DedupNoDuplicates(cands);
    DedupElements(cands);
    DedupOrder(cands);
    CandidatesSpec(b, caps);
  }

  /** Extraction one capture at a time, as the loop of `extractLinks` does it: a capture
      adds its resolution at the end unless it names a redirect or was already found. */
  lemma ExtractPrefixStep(b: BaseUrl, caps: seq<string>, i: nat)
    requires ValidBase(b) && forall k :: 0 <= k < |caps| ==> IsCapture(UrlString(b), caps[k])
    requires i < |caps|
    ensures var found := Extract(b, caps[..i]);
      Extract(b, caps[..i + 1]) ==
        found + (if Contains(caps[i], "redirect") || Resolve(b, caps[i]) in found then [] else [Resolve(b, caps[i])])
  {
    var s := caps[..i + 1];
    assert s[..|s| - 1] == caps[..i] && s[|s| - 1] == caps[i];
    var cands := Candidates(b, caps[..i]);
    DedupElements(cands);
    if Contains(caps[i], "redirect") {
      assert Candidates(b, s) == cands;
    } else {
      var c := cands + [Resolve(b, caps[i])];
      assert Candidates(b, s) == c;
      assert c[..|c| - 1] == cands;
    }
  }

  /** No extracted link is empty. */
  lemma ExtractNonEmpty(b: BaseUrl, caps: seq<string>)
    requires ValidBase(b) && forall i :: 0 <= i < |caps| ==> IsCapture(UrlString(b), caps[i])
    ensures forall l :: l in Extract(b, caps) ==> l != ""
  {
    CandidatesNonEmpty(b, caps);
    DedupElements(Candidates(b, caps));
  }

  lemma {:induction false} CandidatesNonEmpty(b: BaseUrl, caps: seq<string>)
    requires ValidBase(b) && forall i :: 0 <= i < |caps| ==> IsCapture(UrlString(b), caps[i])
    ensures forall l :: l in Candidates(b, caps) ==> l != ""
  {
    if caps != [] {
      CandidatesNonEmpty(b, caps[..|caps| - 1]);
      ResolveNonEmpty(b, caps[|caps| - 1]);
    }
  }

  /** Absolute, redirect-free, distinct captures come out exactly as scanned. */
  lemma {:induction false} ExtractOfPlainAbsolute(b: BaseUrl, caps: seq<string>)
    requires ValidBase(b) && forall i :: 0 <= i < |caps| ==> IsCapture(UrlString(b), caps[i])
    requires forall i :: 0 <= i < |caps| ==> IsAbsolute(caps[i]) && !Contains(caps[i], "redirect")
    requires NoDuplicates(caps)
    ensures Extract(b, caps) == caps
  {
    CandidatesOfPlainAbsolute(b, caps);
    DedupOfDistinct(caps);
  }

  lemma {:induction false} CandidatesOfPlainAbsolute(b: BaseUrl, caps: seq<string>)
    requires ValidBase(b) && forall i :: 0 <= i < |caps| ==> IsCapture(UrlString(b), caps[i])
    requires forall i :: 0 <= i < |caps| ==> IsAbsolute(caps[i]) && !Contains(caps[i], "redirect")
    ensures Candidates(b, caps) == caps
  {
    if caps != [] {
      var p := caps[..|caps| - 1];
      var c := caps[|caps| - 1];
      CandidatesOfPlainAbsolute(b, p);
      assert caps == p + [c];
    }
  }
}
