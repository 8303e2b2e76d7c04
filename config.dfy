/**
 * Validation and normalisation of the crawler's settings (Go's `inputCheck` and `checkURL`):
 * the base URL must be given, is trimmed of surrounding spaces and one trailing slash, and
 * must then be `http` or `https`, `://`, a host of letters, digits, `-`, `_` and `.`, and at
 * most one trailing slash; the depth is capped at 10.
 */
module Config {
  import opened Common

  datatype ConfigError = NoUrlProvided | IncorrectUrlFormat

  /** The deepest crawl the tool allows. */
  const MaxCrawlDepth: int8 := 10

  /** The structural form of a validated base URL (Go's `*url.URL` from `ParseRequestURI`). */
  datatype BaseUrl = BaseUrl(scheme: string, host: string, path: string)

  /** A validated crawl configuration. */
  datatype Settings = Settings(baseUrl: string, depth: int8, parsed: BaseUrl)

  // ---------------------------------------------------------------- trimming

  predicate OnlySpaces(s: string) {
    forall i :: 0 <= i < |s| ==> s[i] == ' '
  }

  function TrimLeftSpaces(s: string): string {
    if |s| > 0 && s[0] == ' ' then TrimLeftSpaces(s[1..]) else s
  }

  function TrimRightSpaces(s: string): string {
    if |s| > 0 && s[|s| - 1] == ' ' then TrimRightSpaces(s[..|s| - 1]) else s
  }

  /** Go's `strings.Trim(s, " ")`. */
  function TrimSpaces(s: string): string {
    TrimRightSpaces(TrimLeftSpaces(s))
  }

  /** Go's `strings.TrimSuffix(s, "/")`: at most one slash goes. */
  function TrimSlash(s: string): string {
    if |s| > 0 && s[|s| - 1] == '/' then s[..|s| - 1] else s
  }

  /** The normalisation `inputCheck` applies before checking the format. */
  function Normalise(s: string): string {
    TrimSlash(TrimSpaces(s))
  }

  lemma {:induction false} TrimLeftSpacesIsSuffix(s: string) returns (k: nat)
    ensures k <= |s| && TrimLeftSpaces(s) == s[k..] && OnlySpaces(s[..k])
    ensures TrimLeftSpaces(s) == [] || TrimLeftSpaces(s)[0] != ' '
  {
    if |s| > 0 && s[0] == ' ' {
      var k' := TrimLeftSpacesIsSuffix(s[1..]);
      k := k' + 1;
      assert s[1..][k'..] == s[k..];
      assert forall i :: 0 < i < k ==> s[..k][i] == s[1..][..k'][i - 1];
    } else {
      k := 0;
    }
  }

  lemma {:induction false} TrimRightSpacesIsPrefix(s: string) returns (k: nat)
    ensures k <= |s| && TrimRightSpaces(s) == s[..k] && OnlySpaces(s[k..])
    ensures TrimRightSpaces(s) == [] || TrimRightSpaces(s)[|TrimRightSpaces(s)| - 1] != ' '
    decreases |s|
  {
    if |s| > 0 && s[|s| - 1] == ' ' {
      var p := s[..|s| - 1];
      k := TrimRightSpacesIsPrefix(p);
      assert p[..k] == s[..k];
      assert forall i :: k <= i < |s| - 1 ==> s[i] == p[k..][i - k];
    } else {
      k := |s|;
    }
  }

  /**
   * `strings.Trim(s, " ")` removes exactly the spaces around `s`: the result is a slice of
   * `s` with only spaces on either side, and neither begins nor ends with a space.
   */
  lemma TrimSpacesSpec(s: string) returns (i: nat, j: nat)
    ensures i <= j <= |s| && TrimSpaces(s) == s[i..j]
    ensures OnlySpaces(s[..i]) && OnlySpaces(s[j..])
    ensures TrimSpaces(s) == [] || (TrimSpaces(s)[0] != ' ' && TrimSpaces(s)[|TrimSpaces(s)| - 1] != ' ')
  {
    i := TrimLeftSpacesIsSuffix(s);
    var t := s[i..];
    var k := TrimRightSpacesIsPrefix(t);
    j := i + k;
    assert t[..k] == s[i..j];
    assert t[k..] == s[j..];
    if TrimSpaces(s) != [] {
      assert TrimSpaces(s)[0] == t[0];
    }
  }

  // ---------------------------------------------------------------- the URL format

  predicate IsHostChar(c: char) {
    ('a' <= c <= 'z') || ('A' <= c <= 'Z') || ('0' <= c <= '9') || c == '-' || c == '_' || c == '.'
  }

  /** `[a-zA-Z0-9\-_.]+` */
  predicate IsHost(h: string) {
    |h| > 0 && forall i :: 0 <= i < |h| ==> IsHostChar(h[i])
  }

  /** Length of the `http(s)?://` prefix of `s`, or 0 when there is none. */
  function SchemePrefixLength(s: string): nat {
    if "https://" <= s then 8 else if "http://" <= s then 7 else 0
  }

  /** Go's `checkURL`: `s` matches `^http(s)?://[a-zA-Z0-9\-_.]+/?$`. */
  predicate MatchesUrlFormat(s: string) {
    var n := SchemePrefixLength(s);
    n > 0 &&
    (IsHost(s[n..]) || (|s| > n + 1 && s[|s| - 1] == '/' && IsHost(s[n..|s| - 1])))
  }

  /** What a `BaseUrl` produced from a format-valid string looks like. */
  predicate ValidBase(b: BaseUrl) {
    (b.scheme == "http" || b.scheme == "https") && IsHost(b.host) && (b.path == "" || b.path == "/")
  }

  /** `scheme://host`, the part of the base every root-relative link is appended to. */
  function Origin(b: BaseUrl): string {
    b.scheme + "://" + b.host
  }

  /** The string form of a base URL (Go's `(*url.URL).String`). */
  function UrlString(b: BaseUrl): string {
    Origin(b) + b.path
  }

  /** Go's `url.ParseRequestURI` on a format-valid URL: it cannot fail and loses nothing. */
  function ParseBase(s: string): (b: BaseUrl)
    requires MatchesUrlFormat(s)
    ensures ValidBase(b) && UrlString(b) == s
  {
    var n := SchemePrefixLength(s);
    var scheme := if n == 8 then "https" else "http";
    assert s[..n] == scheme + "://";
    if IsHost(s[n..]) then
      assert s == s[..n] + s[n..];
      BaseUrl(scheme, s[n..], "")
    else
      assert |s| > n + 1 && s[|s| - 1] == '/';
      assert s == s[..|s| - 1] + [s[|s| - 1]];
      assert s[..|s| - 1] == s[..n] + s[n..|s| - 1];
      BaseUrl(scheme, s[n..|s| - 1], "/")
  }

  /** The converse round trip: every well-formed base URL prints to a format-valid string
      that parses back to it. With `ParseBase`'s contract, format-valid strings and
      well-formed `BaseUrl`s are in one-to-one correspondence. */
  lemma UrlStringParses(b: BaseUrl)
    requires ValidBase(b)
    ensures MatchesUrlFormat(UrlString(b)) && ParseBase(UrlString(b)) == b
  {
    var s := UrlString(b);
    var n := |b.scheme| + 3;
    assert s[..n] == b.scheme + "://";
    if b.scheme == "http" {
      assert s[4] == ':';
      assert !("https://" <= s);
    }
    assert SchemePrefixLength(s) == n;
    assert s[n..] == b.host + b.path;
    if b.path == "" {
      assert s[n..] == b.host;
    } else {
      assert s[n..|s| - 1] == b.host;
      assert !IsHostChar('/');
      assert !IsHost(s[n..]) by {
        assert s[n..][|s[n..]| - 1] == '/';
      }
    }
  }

  // ---------------------------------------------------------------- inputCheck

  /** `Depth > 10` becomes 10; anything else, negative values included, is kept. */
  function ClampDepth(d: int8): (r: int8)
    ensures r <= MaxCrawlDepth
    ensures d <= MaxCrawlDepth ==> r == d
    ensures d > MaxCrawlDepth ==> r == MaxCrawlDepth
  {
    if d > MaxCrawlDepth then MaxCrawlDepth else d
  }

  /** The outcome of Go's `inputCheck` on a raw URL and depth. */
  function CheckInput(raw: string, depth: int8): Result<Settings, ConfigError> {
    if raw == "" then Failure(NoUrlProvided)
    else
      var url := Normalise(raw);
      if !MatchesUrlFormat(url) then Failure(IncorrectUrlFormat)
      else Success(Settings(url, ClampDepth(depth), ParseBase(url)))
  }

  /** The error cases of `inputCheck`, both directions: an empty URL, and only that, is
      missing; a non-empty one fails exactly when its normalised form has the wrong format. */
  lemma CheckInputErrors(raw: string, depth: int8)
    ensures CheckInput(raw, depth) == Failure(NoUrlProvided) <==> raw == ""
    ensures CheckInput(raw, depth) == Failure(IncorrectUrlFormat) <==>
              raw != "" && !MatchesUrlFormat(Normalise(raw))
  {
  }

  /** On success the settings hold the normalised URL, which matches the format and whose
      parsed form prints back to it, and the capped depth. */
  lemma CheckInputSuccess(raw: string, depth: int8)
    requires CheckInput(raw, depth).Success?
    ensures var cfg := CheckInput(raw, depth).value;
      && cfg.baseUrl == Normalise(raw) && MatchesUrlFormat(cfg.baseUrl)
      && ValidBase(cfg.parsed) && UrlString(cfg.parsed) == cfg.baseUrl
      && cfg.depth == ClampDepth(depth) && cfg.depth <= MaxCrawlDepth
  {
  }

  /** The empty check runs before trimming: a URL of spaces is not "missing" but malformed. */
  lemma BlankUrlIsMalformed(depth: int8)
    ensures CheckInput("  ", depth) == Failure(IncorrectUrlFormat)
  {
    assert Normalise("  ") == "";
  }

  /** A wrong scheme and a missing scheme are both format errors. */
  lemma WrongSchemesAreMalformed(depth: int8)
    ensures CheckInput("htttp://aaa.com", depth) == Failure(IncorrectUrlFormat)
    ensures CheckInput("aaa.com", depth) == Failure(IncorrectUrlFormat)
  {
    assert Normalise("htttp://aaa.com") == "htttp://aaa.com";
    assert "htttp://aaa.com"[3] == 't';
    assert SchemePrefixLength("htttp://aaa.com") == 0;
    assert Normalise("aaa.com") == "aaa.com";
  }

  /** A path, a port or a query in the base URL is refused. */
  lemma PathPortQueryAreMalformed(depth: int8)
    ensures CheckInput("https://aaa.com/about", depth) == Failure(IncorrectUrlFormat)
    ensures CheckInput("https://aaa.com:8080", depth) == Failure(IncorrectUrlFormat)
    ensures CheckInput("https://aaa.com?x", depth) == Failure(IncorrectUrlFormat)
  {
    var s1 := "https://aaa.com/about";
    assert Normalise(s1) == s1;
    assert !IsHostChar(s1[15]);
    var s2 := "https://aaa.com:8080";
    assert Normalise(s2) == s2;
    assert !IsHostChar(s2[15]);
    var s3 := "https://aaa.com?x";
    assert Normalise(s3) == s3;
    assert !IsHostChar(s3[15]);
  }

  /** `https://aaa.com` is already normal, has the right format and parses to its parts. */
  lemma PlainHostIsWellFormed(u: string)
    requires u == "https://aaa.com"
    ensures Normalise(u) == u && MatchesUrlFormat(u) && ParseBase(u) == BaseUrl("https", "aaa.com", "")
  {
    assert SchemePrefixLength(u) == 8;
    assert IsHost(u[8..]);
  }

  /** Depth 15 is capped to 10 without error, and the URL is kept. */
  lemma DepthIsCapped()
    ensures CheckInput("https://aaa.com", 15).Success?
    ensures CheckInput("https://aaa.com", 15).value.baseUrl == "https://aaa.com"
    ensures CheckInput("https://aaa.com", 15).value.depth == 10
  {
    PlainHostIsWellFormed("https://aaa.com");
  }

  /** The two trims on a padded URL with a trailing slash. */
  lemma PaddedUrlNormalises(s: string)
    requires s == " https://aaa.com/ "
    ensures Normalise(s) == "https://aaa.com"
  {
    var inner := s[1..];
    assert TrimLeftSpaces(s) == TrimLeftSpaces(inner) == inner;
    var core := inner[..|inner| - 1];
    assert TrimRightSpaces(inner) == TrimRightSpaces(core) == core;
    assert TrimSlash(core) == core[..|core| - 1] == "https://aaa.com";
  }

  /** Surrounding spaces and one trailing slash are removed before the check. */
  lemma SpacesAndSlashAreTrimmed()
    ensures CheckInput(" https://aaa.com/ ", 3) == Success(Settings("https://aaa.com", 3, BaseUrl("https", "aaa.com", "")))
  {
    PaddedUrlNormalises(" https://aaa.com/ ");
    PlainHostIsWellFormed("https://aaa.com");
  }
}
