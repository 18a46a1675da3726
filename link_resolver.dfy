/**
 * The affiliate link resolver of the Amazon affiliate hub page: finding the
 * 10-character product code (ASIN) in a product URL, rebuilding the canonical
 * `/dp/` affiliate link, and the textual tag appender behind the Generate
 * button.
 *
 * The browser's `new URL(...)` and `encodeURIComponent` are not modelled;
 * every operation that uses them takes them as function parameters.
 */
module LinkResolver {
  import opened Wrappers
  import opened Text

  /** The parts of a parsed URL that the page reads (`protocol` keeps its trailing ':'). */
  datatype Url = Url(protocol: string, hostname: string, pathname: string)

  /** `new URL(s)`: `None` where the constructor throws. */
  type UrlParser = string -> Option<Url>

  /** `encodeURIComponent`. */
  type Encoder = string -> string

  /** Length of a product code. */
  const AsinLength: nat := 10

  /** A product code as the patterns capture it: ten ASCII letters or digits, in either case. */
  predicate IsAsin(s: string) {
    |s| == AsinLength && AllAlnum(s)
  }

  /**
   * One of the page's path patterns, all matched case-insensitively.
   * `Prefixed(lit)` is `lit([A-Z0-9]{10})`; `BareSegment` is
   * `\/([A-Z0-9]{10})(?:[/?]|$)`.
   */
  datatype Pattern = Prefixed(lit: string) | BareSegment

  /** The patterns in the order they are tried. */
  const Patterns: seq<Pattern> :=
    [Prefixed("/dp/"), Prefixed("/gp/product/"), Prefixed("/gp/aw/d/"), Prefixed("/product/"), BareSegment]

  /** Where, relative to the start of a match, the captured code begins. */
  function CodeOffset(pat: Pattern): nat {
    match pat
    case Prefixed(lit) => |lit|
    case BareSegment => 1
  }

  /** The pattern matches `p` starting at index `i`. */
  predicate MatchesAt(p: string, pat: Pattern, i: nat) {
    var c := i + CodeOffset(pat);
    && c + AsinLength <= |p|
    && AllAlnum(p[c..c + AsinLength])
    && match pat
       case Prefixed(lit) => EqualsIgnoreCase(p[i..c], lit)
       case BareSegment =>
         p[i] == '/' && (c + AsinLength == |p| || p[c + AsinLength] == '/' || p[c + AsinLength] == '?')
  }

  /** The capture group of a match at `i`, exactly as it appears in `p`. */
  function Capture(p: string, pat: Pattern, i: nat): (code: string)
    requires MatchesAt(p, pat, i)
    ensures IsAsin(code)
  {
    p[i + CodeOffset(pat)..i + CodeOffset(pat) + AsinLength]
  }

  /**
   * The second pattern is contained in the fourth: a `/gp/product/` match at
   * `i` is a `/product/` match at `i + 3` with the same code. The second
   * pattern decides only because it is tried first.
   */
  lemma GpProductIsProduct(p: string, i: nat)
    requires MatchesAt(p, Patterns[1], i)
    ensures MatchesAt(p, Patterns[3], i + 3)
    ensures Capture(p, Patterns[3], i + 3) == Capture(p, Patterns[1], i)
  {
    var lit := "/gp/product/";
    assert EqualsIgnoreCase(p[i..i + 12], lit);
    forall j | 0 <= j < 9 ensures FoldCase(p[i + 3..i + 12][j]) == FoldCase("/product/"[j]) {
      assert p[i + 3..i + 12][j] == p[i..i + 12][j + 3];
      assert "/product/"[j] == lit[j + 3];
    }
  }

  /** The pattern matches nowhere in `p`. */
  ghost predicate NoMatch(p: string, pat: Pattern) {
    forall j :: 0 <= j <= |p| ==> !MatchesAt(p, pat, j)
  }

  /** `i` is where `p.match(pat)` finds its match: the leftmost start index. */
  ghost predicate Leftmost(p: string, pat: Pattern, i: nat) {
    MatchesAt(p, pat, i) && forall j :: 0 <= j < i ==> !MatchesAt(p, pat, j)
  }

  /**
   * The first pattern of `Patterns` that matches anywhere in `p` is the one
   * at `k`, and its leftmost match starts at `i`.
   */
  ghost predicate Winner(p: string, k: nat, i: nat) {
    && k < |Patterns|
    && (forall j :: 0 <= j < k ==> NoMatch(p, Patterns[j]))
    && Leftmost(p, Patterns[k], i)
  }

  /** The regular expression search: the leftmost match at or after `from`. */
  function Search(p: string, pat: Pattern, from: nat): (r: Option<nat>)
    requires from <= |p|
    decreases |p| - from
    ensures r.Some? ==> from <= r.value <= |p| && MatchesAt(p, pat, r.value)
    ensures r.Some? ==> forall j :: from <= j < r.value ==> !MatchesAt(p, pat, j)
    ensures r.None? ==> forall j :: from <= j <= |p| ==> !MatchesAt(p, pat, j)
  {
    if MatchesAt(p, pat, from) then Some(from)
    else if from == |p| then None
    else Search(p, pat, from + 1)
  }

  /**
   * The loop over the patterns with its early return: the index of the first
   * pattern of `pats` from `k` on that matches, and where its match starts.
   */
  function FirstMatch(p: string, pats: seq<Pattern>, k: nat): (r: Option<(nat, nat)>)
    requires k <= |pats|
    decreases |pats| - k
    ensures r.Some? ==> k <= r.value.0 < |pats| && Leftmost(p, pats[r.value.0], r.value.1)
    ensures r.Some? ==> forall j :: k <= j < r.value.0 ==> NoMatch(p, pats[j])
    ensures r.None? ==> forall j :: k <= j < |pats| ==> NoMatch(p, pats[j])
  {
    if k == |pats| then None
    else match Search(p, pats[k], 0)
      case Some(i) => Some((k, i))
      case None => FirstMatch(p, pats, k + 1)
  }

  /**
   * `extractASIN(raw)`: parse the trimmed input and return the code captured by
   * the first pattern that matches its path, or `None` when the input does not
   * parse or no pattern matches.
   */
  function ExtractAsin(raw: string, parse: UrlParser): (r: Option<string>)
    ensures parse(Trim(raw)).None? ==> r.None?
    ensures r.Some? ==> IsAsin(r.value)
  {
    match parse(Trim(raw))
    case None => None
    case Some(url) =>
      match FirstMatch(url.pathname, Patterns, 0)
      case None => None
      case Some((k, i)) => Some(Capture(url.pathname, Patterns[k], i))
  }

  /** There is at most one winning pattern and one winning position. */
  lemma WinnerUnique(p: string, k1: nat, i1: nat, k2: nat, i2: nat)
    requires Winner(p, k1, i1) && Winner(p, k2, i2)
    ensures k1 == k2 && i1 == i2
  {
    assert MatchesAt(p, Patterns[k1], i1) && i1 <= |p|;
    assert MatchesAt(p, Patterns[k2], i2) && i2 <= |p|;
  }

  /** When some pattern wins, `extractASIN` returns its capture, as written in the path. */
  lemma ExtractAsinReturnsWinner(raw: string, parse: UrlParser, k: nat, i: nat)
    requires parse(Trim(raw)).Some?
    requires Winner(parse(Trim(raw)).value.pathname, k, i)
    ensures ExtractAsin(raw, parse) == Some(Capture(parse(Trim(raw)).value.pathname, Patterns[k], i))
  {
    var p := parse(Trim(raw)).value.pathname;
    var r := FirstMatch(p, Patterns, 0);
    assert MatchesAt(p, Patterns[k], i) && i <= |p|;
    if r.Some? {
      WinnerUnique(p, k, i, r.value.0, r.value.1);
    }
  }

  /** A parsed input yields no code exactly when no pattern matches its path. */
  lemma ExtractAsinNoneIffNoMatch(raw: string, parse: UrlParser)
    requires parse(Trim(raw)).Some?
    ensures ExtractAsin(raw, parse).None?
        <==> forall k :: 0 <= k < |Patterns| ==> NoMatch(parse(Trim(raw)).value.pathname, Patterns[k])
  {
    var p := parse(Trim(raw)).value.pathname;
    var r := FirstMatch(p, Patterns, 0);
    if r.Some? {
      assert !NoMatch(p, Patterns[r.value.0]);
    }
  }

  /**
   * A later pattern is never used when an earlier one matches: if pattern `k`
   * matches anywhere, the winner is `k` or a pattern before it.
   */
  lemma EarlierPatternWins(p: string, k: nat, i: nat)
    requires k < |Patterns| && MatchesAt(p, Patterns[k], i)
    ensures FirstMatch(p, Patterns, 0).Some? && FirstMatch(p, Patterns, 0).value.0 <= k
  {
    assert i <= |p|;
  }

  /**
   * `/dp/` wins from any position: when the text before a `/dp/<code>` has no
   * letter `d` in either case, the first pattern matches there first, whatever
   * the later patterns would have found earlier in the path.
   */
  lemma DpAfterPlainPrefix(pre: string, code: string, rest: string)
    requires forall i :: 0 <= i < |pre| ==> FoldCase(pre[i]) != 'd'
    requires IsAsin(code)
    ensures Winner(pre + "/dp/" + code + rest, 0, |pre|)
  {
    var p := pre + "/dp/" + code + rest;
    var n := |pre|;
    assert p[n..n + 4] == "/dp/";
    assert p[n + 4..n + 14] == code;
    forall j | 0 <= j < n ensures !MatchesAt(p, Patterns[0], j) {
      assert FoldCase(p[j + 1]) != FoldCase("/dp/"[1]) by {
        if j + 1 < n { assert p[j + 1] == pre[j + 1]; } else { assert p[j + 1] == '/'; }
      }
      assert p[j..j + 4][1] == p[j + 1];
    }
  }

  /**
   * A path with `/dp/<code>` preceded by text without the letter `d` yields
   * that code, in whatever case it is written; a longer alphanumeric run after
   * `/dp/` yields its first ten characters.
   */
  lemma DpPathYieldsCode(raw: string, parse: UrlParser, pre: string, code: string, rest: string)
    requires parse(Trim(raw)).Some? && parse(Trim(raw)).value.pathname == pre + "/dp/" + code + rest
    requires forall i :: 0 <= i < |pre| ==> FoldCase(pre[i]) != 'd'
    requires IsAsin(code)
    ensures ExtractAsin(raw, parse) == Some(code)
  {
    var p := pre + "/dp/" + code + rest;
    DpAfterPlainPrefix(pre, code, rest);
    assert p[|pre| + 4..|pre| + 14] == code;
    ExtractAsinReturnsWinner(raw, parse, 0, |pre|);
  }

  /**
   * Priority over position: in `/<bare>/dp/<code>` the bare-segment pattern
   * matches at the very start, yet the `/dp/` code is returned (for a first
   * segment without the letter `d`, such as `/B0AAAAAAAA/dp/B0FGVQBNSB`).
   */
  lemma DpBeatsEarlierBareSegment(raw: string, parse: UrlParser, bare: string, code: string)
    requires parse(Trim(raw)).Some? && parse(Trim(raw)).value.pathname == "/" + bare + "/dp/" + code
    requires IsAsin(bare) && IsAsin(code)
    ensures MatchesAt(parse(Trim(raw)).value.pathname, BareSegment, 0)
    ensures ExtractAsin(raw, parse) == Some(code)
  {
    var p := parse(Trim(raw)).value.pathname;
    assert p == "/" + bare + ("/dp/" + code);
    BareSegmentAtStart(bare, "/dp/" + code);
    assert p[11..15] == "/dp/" && p[15..25] == code;
    assert MatchesAt(p, Patterns[0], 11);
    forall j | 0 <= j < 11 ensures !MatchesAt(p, Patterns[0], j) {
      NoDpInsideBare(p, bare, j);
    }
    ExtractAsinReturnsWinner(raw, parse, 0, 11);
  }

  /** `/dp/` needs a `/` at its first and its fourth character; inside `/<bare>` one of them is a letter or digit. */
  lemma NoDpInsideBare(p: string, bare: string, j: nat)
    requires IsAsin(bare) && |p| >= 11 && p[..11] == "/" + bare && j < 11
    ensures !MatchesAt(p, Patterns[0], j)
  {
    var m := if j == 0 then 3 else j;
    assert p[m] == p[..11][m] == bare[m - 1];
    assert IsAlnum(FoldCase(p[m])) && "/dp/"[m - j] == '/';
  }

  /** A path that is `/<code>` followed by `/`, `?` or nothing matches the bare-segment pattern at 0. */
  lemma BareSegmentAtStart(code: string, rest: string)
    requires IsAsin(code)
    requires rest == [] || rest[0] == '/' || rest[0] == '?'
    ensures MatchesAt("/" + code + rest, BareSegment, 0)
  {
    var p := "/" + code + rest;
    assert p[1..11] == code;
    assert rest != [] ==> p[11] == rest[0];
  }

  /** The language of the canonical link: `en_IN` for hosts ending in `.in`, `en_US` for all others. */
  function Language(hostname: string): (lang: string)
    ensures lang == "en_IN" <==> EndsWith(hostname, ".in")
    ensures lang == "en_US" <==> !EndsWith(hostname, ".in")
  {
    if EndsWith(hostname, ".in") then "en_IN" else "en_US"
  }

  /** The canonical affiliate link for a host. */
  function CanonicalLink(url: Url, asin: string, encodedTag: string): string {
    url.protocol + "//" + url.hostname + "/dp/" + asin + "/?tag=" + encodedTag
      + "&linkCode=ll1&language=" + Language(url.hostname) + "&ref_=as_li_ss_tl"
  }

  /**
   * `getAffiliateLinkFromAsin(rawUrl, asin)` with the page's current store id:
   * `None` when the trimmed URL does not parse, otherwise the canonical link on
   * the URL's protocol and host name.
   */
  function GetAffiliateLinkFromAsin(rawUrl: string, asin: string, storeId: string, parse: UrlParser, enc: Encoder)
    : (r: Option<string>)
    ensures r.None? <==> parse(Trim(rawUrl)).None?
    ensures r.Some? ==> r.value == CanonicalLink(parse(Trim(rawUrl)).value, asin, enc(storeId))
  {
    match parse(Trim(rawUrl))
    case None => None
    case Some(url) =>
      var base := url.protocol + "//" + url.hostname;
      var clean := base + "/dp/" + asin;
      Some(clean + "/?tag=" + enc(storeId) + "&linkCode=ll1&language=" + Language(url.hostname) + "&ref_=as_li_ss_tl")
  }

  /**
   * The canonical link forgets the original path and query: two URLs with the
   * same protocol and host name give the same link.
   */
  lemma AffiliateLinkIgnoresPathAndQuery(a: string, b: string, asin: string, storeId: string, parse: UrlParser, enc: Encoder)
    requires parse(Trim(a)).Some? && parse(Trim(b)).Some?
    requires parse(Trim(a)).value.protocol == parse(Trim(b)).value.protocol
    requires parse(Trim(a)).value.hostname == parse(Trim(b)).value.hostname
    ensures GetAffiliateLinkFromAsin(a, asin, storeId, parse, enc) == GetAffiliateLinkFromAsin(b, asin, storeId, parse, enc)
  {
  }

  /** A path the URL parser keeps as written: a `/`, then only ASCII letters, digits and `/`. */
  predicate PlainPath(path: string) {
    path != [] && path[0] == '/' && forall i :: 0 <= i < |path| ==> IsAlnum(path[i]) || path[i] == '/'
  }

  /**
   * What the link round trip needs of the URL parser: rebuilding a parsed
   * URL's origin with a plain path and any query gives back that origin with
   * that path.
   */
  ghost predicate ReadsPlainPath(parse: UrlParser, u: Url) {
    forall path: string, query: string :: PlainPath(path) ==>
      parse(u.protocol + "//" + u.hostname + path + "?" + query) == Some(Url(u.protocol, u.hostname, path))
  }

  /**
   * The canonical link carries the code it was built from: for a parser that
   * reads plain paths back, extracting from the link gives the code back.
   */
  lemma AffiliateLinkRoundTrip(rawUrl: string, asin: string, storeId: string, parse: UrlParser, enc: Encoder, link: string)
    requires IsAsin(asin)
    requires GetAffiliateLinkFromAsin(rawUrl, asin, storeId, parse, enc) == Some(link)
    requires parse(Trim(rawUrl)).Some?
    requires parse(Trim(rawUrl)).value.protocol != [] && !IsJsSpace(parse(Trim(rawUrl)).value.protocol[0])
    requires ReadsPlainPath(parse, parse(Trim(rawUrl)).value)
    ensures ExtractAsin(link, parse) == Some(asin)
  {
    var u := parse(Trim(rawUrl)).value;
    var query := CanonicalLinkSplits(u, asin, enc(storeId));
    CanonicalLinkTrimmed(u, asin, enc(storeId));
    DpPathIsPlain(asin);
    assert parse(Trim(link)) == Some(Url(u.protocol, u.hostname, "/dp/" + asin + "/"));
    CanonicalPathYieldsCode(link, parse, asin);
  }

  /** The canonical link is the origin, the path `/dp/<asin>/`, a `?` and the query. */
  lemma CanonicalLinkSplits(u: Url, asin: string, encodedTag: string) returns (query: string)
    ensures CanonicalLink(u, asin, encodedTag) == u.protocol + "//" + u.hostname + ("/dp/" + asin + "/") + "?" + query
    ensures query == "tag=" + encodedTag + "&linkCode=ll1&language=" + Language(u.hostname) + "&ref_=as_li_ss_tl"
  {
    query := "tag=" + encodedTag + "&linkCode=ll1&language=" + Language(u.hostname) + "&ref_=as_li_ss_tl";
  }

  /** The canonical link of a protocol that starts with a non-space character is already trimmed. */
  lemma CanonicalLinkTrimmed(u: Url, asin: string, encodedTag: string)
    requires u.protocol != [] && !IsJsSpace(u.protocol[0])
    ensures Trim(CanonicalLink(u, asin, encodedTag)) == CanonicalLink(u, asin, encodedTag)
  {
    var link := CanonicalLink(u, asin, encodedTag);
    var tail := "&ref_=as_li_ss_tl";
    assert link == (u.protocol + "//" + u.hostname + "/dp/" + asin + "/?tag=" + encodedTag
      + "&linkCode=ll1&language=" + Language(u.hostname)) + tail;
    assert link[0] == u.protocol[0];
    assert link[|link| - 1] == tail[|tail| - 1] == 'l';
    TrimOfTrimmed(link);
  }

  /** The path of the canonical link is plain. */
  lemma DpPathIsPlain(asin: string)
    requires IsAsin(asin)
    ensures PlainPath("/dp/" + asin + "/")
  {
    var path := "/dp/" + asin + "/";
    forall i | 0 <= i < |path| ensures IsAlnum(path[i]) || path[i] == '/' {
      if 4 <= i < 14 { assert path[i] == asin[i - 4]; }
    }
  }

  /** A URL whose path is exactly `/dp/<asin>/` yields `asin`. */
  lemma CanonicalPathYieldsCode(link: string, parse: UrlParser, asin: string)
    requires IsAsin(asin)
    requires parse(Trim(link)).Some? && parse(Trim(link)).value.pathname == "/dp/" + asin + "/"
    ensures ExtractAsin(link, parse) == Some(asin)
  {
    var p := parse(Trim(link)).value.pathname;
    assert p[0..4] == "/dp/" && p[4..14] == asin;
    assert MatchesAt(p, Patterns[0], 0);
    ExtractAsinReturnsWinner(link, parse, 0, 0);
  }

  /**
   * The tag appender of `generate`: the URL followed by `&tag=` when it already
   * contains a `?`, by `?tag=` otherwise, and then the encoded store id. No URL
   * parsing is involved.
   */
  function TaggedUrl(url: string, encodedTag: string): (r: string)
    ensures |r| == |url| + 5 + |encodedTag| && r[..|url|] == url
    ensures r[|url|] == '&' <==> '?' in url
    ensures r[|url|] == '?' <==> '?' !in url
    ensures r[|url| + 1..] == "tag=" + encodedTag
  {
    if '?' in url then url + "&tag=" + encodedTag else url + "?tag=" + encodedTag
  }

  /** The text of `s` before its first `c`, or all of `s` when it has none. */
  function Before(s: string, c: char): (r: string)
    ensures c !in r
    ensures c !in s ==> r == s
  {
    if s == [] then ""
    else if s[0] == c then ""
    else [s[0]] + Before(s[1..], c)
  }

  /** The text of `s` after its first `c`, or `""` when it has none. */
  function After(s: string, c: char): (r: string)
    ensures c !in s ==> r == ""
    ensures |r| <= |s|
  {
    if s == [] then ""
    else if s[0] == c then s[1..]
    else After(s[1..], c)
  }

  /** The text before the first `c` of a concatenation lies in the first part when that has a `c`. */
  lemma {:induction false} BeforeAppend(u: string, v: string, c: char)
    ensures Before(u + v, c) == if c in u then Before(u, c) else u + Before(v, c)
  {
    if u == [] {
      assert u + v == v;
    } else {
      assert (u + v)[0] == u[0] && (u + v)[1..] == u[1..] + v;
      BeforeAppend(u[1..], v, c);
      if u[0] != c && c !in u[1..] {
        assert [u[0]] + (u[1..] + Before(v, c)) == u + Before(v, c);
      }
    }
  }

  /** The text after the first `c` of a concatenation runs on into the second part when the first has a `c`. */
  lemma {:induction false} AfterAppend(u: string, v: string, c: char)
    ensures After(u + v, c) == if c in u then After(u, c) + v else After(v, c)
  {
    if u == [] {
      assert u + v == v;
    } else {
      assert (u + v)[0] == u[0] && (u + v)[1..] == u[1..] + v;
      AfterAppend(u[1..], v, c);
    }
  }

  /**
   * The query of a URL string as a URL parser reads it: the text after the
   * first `?` that comes before any `#`; `""` when there is none.
   */
  function QueryOf(s: string): string {
    After(Before(s, '#'), '?')
  }

  /** The fragment of a URL string: the text after the first `#`; `""` when there is none. */
  function FragmentOf(s: string): string {
    After(s, '#')
  }

  /** The text `generate` adds after the URL: the separator, `tag=` and the encoded id. */
  lemma TaggedUrlSplits(url: string, encodedTag: string, sep: char)
    requires sep == if '?' in url then '&' else '?'
    ensures TaggedUrl(url, encodedTag) == url + ([sep] + ("tag=" + encodedTag))
  {
    var r := TaggedUrl(url, encodedTag);
    assert r[|url|..] == [sep] + ("tag=" + encodedTag);
    assert r == r[..|url|] + r[|url|..];
  }

  /**
   * For a URL without a fragment, the generated link keeps the input's query
   * and adds `tag=<encodedTag>` as its last parameter; an input without a
   * query gets exactly that one. (`encodeURIComponent` never yields `#`.)
   */
  lemma TaggedUrlQuery(url: string, encodedTag: string)
    requires '#' !in url && '#' !in encodedTag
    ensures QueryOf(TaggedUrl(url, encodedTag))
         == (if '?' in url then QueryOf(url) + "&" else "") + "tag=" + encodedTag
    ensures FragmentOf(TaggedUrl(url, encodedTag)) == ""
  {
    var sep := if '?' in url then '&' else '?';
    var tail := "tag=" + encodedTag;
    TaggedUrlSplits(url, encodedTag, sep);
    assert '#' !in tail;
    QueryAfterSeparator(url, sep, tail);
    var pre := if '?' in url then QueryOf(url) + "&" else "";
    assert pre + tail == pre + "tag=" + encodedTag;
  }

  /** The query of a fragment-free URL followed by the separator `generate` picks and more text. */
  lemma QueryAfterSeparator(url: string, sep: char, tail: string)
    requires '#' !in url && '#' !in tail
    requires sep == if '?' in url then '&' else '?'
    ensures QueryOf(url + ([sep] + tail)) == (if '?' in url then QueryOf(url) + "&" else "") + tail
    ensures FragmentOf(url + ([sep] + tail)) == ""
  {
    var v := [sep] + tail;
    assert v[0] == sep && v[1..] == tail;
    QueryOfAppendNoFragment(url, v);
    if '?' in url {
      assert QueryOf(url) + v == QueryOf(url) + "&" + tail;
    } else {
      assert After(v, '?') == tail;
    }
  }

  /** Without a `#` anywhere, appending text extends the query, or starts it at the appended text's first `?`. */
  lemma QueryOfAppendNoFragment(u: string, v: string)
    requires '#' !in u && '#' !in v
    ensures QueryOf(u + v) == if '?' in u then QueryOf(u) + v else After(v, '?')
    ensures FragmentOf(u + v) == ""
  {
    BeforeAppend(u, v, '#');
    AfterAppend(u, v, '?');
    AfterAppend(u, v, '#');
  }

  /**
   * For a URL with a fragment, the tag is appended after the fragment: the
   * query is left as it was and the tag becomes part of the fragment, which
   * is not sent to the server. A `?` inside the fragment alone also makes the
   * separator `&`.
   */
  lemma TaggedUrlIntoFragment(url: string, encodedTag: string)
    requires '#' in url
    ensures QueryOf(TaggedUrl(url, encodedTag)) == QueryOf(url)
    ensures FragmentOf(TaggedUrl(url, encodedTag))
         == FragmentOf(url) + (if '?' in url then "&" else "?") + "tag=" + encodedTag
  {
    var sep := if '?' in url then '&' else '?';
    var v := [sep] + ("tag=" + encodedTag);
    TaggedUrlSplits(url, encodedTag, sep);
    BeforeAppend(url, v, '#');
    AfterAppend(url, v, '#');
    assert [sep] + ("tag=" + encodedTag) == (if '?' in url then "&" else "?") + "tag=" + encodedTag;
  }

  /**
   * Text that is not a URL is tagged all the same: `not a url` becomes
   * `not a url?tag=<encodedTag>`.
   */
  lemma TaggedUrlNeedsNoParsing(encodedTag: string)
    ensures TaggedUrl("not a url", encodedTag) == "not a url?tag=" + encodedTag
  {
    assert '?' !in "not a url";
  }

  /** `www.amazon.in` is served in `en_IN`, `www.amazon.com` and `amazon.in.example.com` in `en_US`. */
  lemma LanguageExamples()
    ensures Language("www.amazon.in") == "en_IN"
    ensures Language("www.amazon.com") == "en_US"
    ensures Language("amazon.in.example.com") == "en_US"
  {
    assert EndsWith("www.amazon.in", ".in");
    assert "www.amazon.com"[12] == 'o';
    assert "amazon.in.example.com"[19] == 'o';
  }
}
