/**
 * Pagination through the web-linking `Link` response header (RFC 8288,
 * section 3): a comma-separated list of `<url>; rel="name"` entries.
 * `GetNextLink` and `GetTotalPages` are the two readers the fetch stage uses;
 * both scan the entries with a loop, which `FindEntry` carries.
 */
module LinkHeader {
  import opened Outcomes
  import opened GoStrings

  /** `http.Header`: a header name maps to its list of values. */
  type Header = map<string, seq<string>>

  /** A Go `uint32`. */
  type uint32 = x: int | 0 <= x < 0x1_0000_0000

  const LinkKey: string := "Link"
  const EntrySep: Sep := ", "
  const ParamSep: Sep := "; "
  const NextSuffix: string := Quoted("next")
  const LastSuffix: string := Quoted("last")

  /** A relation name between double quotes, as it ends an entry. */
  function Quoted(name: string): string {
    "\"" + name + "\""
  }

  /** The index of the first entry that ends with `suffix`. */
  function FirstWithSuffix(entries: seq<string>, suffix: string): (r: Option<nat>)
    ensures r.Some? ==> r.value < |entries| && HasSuffix(entries[r.value], suffix)
    ensures r.Some? ==> forall k :: 0 <= k < r.value ==> !HasSuffix(entries[k], suffix)
    ensures r.None? <==> forall k :: 0 <= k < |entries| ==> !HasSuffix(entries[k], suffix)
  {
    if |entries| == 0 then None
    else if HasSuffix(entries[0], suffix) then Some(0)
    else
      match FirstWithSuffix(entries[1..], suffix)
      case None => None
      case Some(k) => Some(k + 1)
  }

  /**
   * The first entry of the first `Link` value that ends with `suffix`: `None`
   * when there is no `Link` header or no such entry, `Panic` when the header
   * is present with no value (`val[0]` out of range).
   */
  function FindLink(h: Header, suffix: string): Outcome<Option<string>> {
    if LinkKey !in h then Ok(None)
    else if |h[LinkKey]| == 0 then Panic
    else
      var entries := Split(h[LinkKey][0], EntrySep);
      match FirstWithSuffix(entries, suffix)
      case None => Ok(None)
      case Some(k) => Ok(Some(entries[k]))
  }

  /** The scan both readers share: the loop over the split `Link` value. */
  method FindEntry(h: Header, suffix: string) returns (r: Outcome<Option<string>>)
    ensures r == FindLink(h, suffix)
  {
    if LinkKey !in h {
      return Ok(None);
    }
    var val := h[LinkKey];
    if |val| == 0 {
      return Panic;
    }
    var linkHeader := Split(val[0], EntrySep);
    for i := 0 to |linkHeader|
      invariant forall k :: 0 <= k < i ==> !HasSuffix(linkHeader[k], suffix)
    {
      if HasSuffix(linkHeader[i], suffix) {
        return Ok(Some(linkHeader[i]));
      }
    }
    return Ok(None);
  }

  /** The part of an entry before its first `"; "`: the bracketed URL. */
  function UrlPart(entry: string): string {
    Split(entry, ParamSep)[0]
  }

  /** `u[1 : len(u)-1]`, which panics on a string shorter than two characters. */
  function StripBrackets(u: string): (r: Outcome<string>)
    ensures r.Ok? <==> |u| >= 2
    ensures r.Ok? ==> u == [u[0]] + r.value + [u[|u| - 1]]
  {
    if |u| < 2 then Panic else Ok(u[1..|u| - 1])
  }

  /** What `get_next_link` finds: the URL of the first entry ending in `"next"`. */
  function NextLink(h: Header): Outcome<Option<string>> {
    match FindLink(h, NextSuffix)
    case Panic => Panic
    case Ok(None) => Ok(None)
    case Ok(Some(entry)) =>
      match StripBrackets(UrlPart(entry))
      case Panic => Panic
      case Ok(u) => Ok(Some(u))
  }

  /**
   * `get_next_link(header, &next_url)`: `found` is the returned bool and
   * `nextUrl'` the value left in `*next_url`, which is untouched when no
   * "next" entry exists.
   */
  method GetNextLink(h: Header, nextUrl: string) returns (found: Outcome<bool>, nextUrl': string)
    ensures NextLink(h) == Panic ==> found == Panic
    ensures NextLink(h) == Ok(None) ==> found == Ok(false) && nextUrl' == nextUrl
    ensures NextLink(h).Ok? && NextLink(h).value.Some? ==>
      found == Ok(true) && nextUrl' == NextLink(h).value.value
  {
    var entry := FindEntry(h, NextSuffix);
    match entry
    case Panic =>
      return Panic, nextUrl;
    case Ok(None) =>
      return Ok(false), nextUrl;
    case Ok(Some(value)) =>
      var u := UrlPart(value);
      if |u| < 2 {
        return Panic, u;
      }
      return Ok(true), u[1..|u| - 1];
  }

  predicate IsDigit(c: char) {
    '0' <= c <= '9'
  }

  function DigitValue(c: char): (d: nat)
    requires IsDigit(c)
    ensures d < 10
  {
    (c as int) - ('0' as int)
  }

  /**
   * The page count as the source reads it from the bracketed URL of the
   * "last" entry: `strconv.ParseUint(url[len(url)-2 : len(url)-1], 10, 32)`,
   * the one character before the closing `>`. Slicing panics on a URL
   * shorter than two characters and the explicit `panic(err)` fires on a
   * character that is not a decimal digit.
   */
  function LastCharPages(url: string): (r: Outcome<uint32>)
    ensures r.Ok? ==> r.value < 10
  {
    if |url| < 2 then Panic
    else if IsDigit(url[|url| - 2]) then Ok(DigitValue(url[|url| - 2]))
    else Panic
  }

  /**
   * The value `get_total_pages` leaves in `*total_pages` (as written): kept
   * once it is positive; 1 when there is no `Link` header or no "last" entry;
   * otherwise the single digit read by `LastCharPages`.
   */
  function TotalPages(h: Header, current: uint32): (r: Outcome<uint32>)
    ensures current > 0 ==> r == Ok(current)
    ensures current == 0 && r.Ok? ==> r.value < 10
    ensures current == 0 && FindLink(h, LastSuffix) == Ok(None) ==> r == Ok(1)
  {
    if current > 0 then Ok(current)
    else
      match FindLink(h, LastSuffix)
      case Panic => Panic
      case Ok(None) => Ok(1)
      case Ok(Some(entry)) => LastCharPages(UrlPart(entry))
  }

  /** `get_total_pages(header, &total_pages)` as written; the result is the new `*total_pages`. */
  method GetTotalPages(h: Header, totalPages: uint32) returns (r: Outcome<uint32>)
    ensures r == TotalPages(h, totalPages)
  {
    if totalPages > 0 {
      return Ok(totalPages);
    }
    var entry := FindEntry(h, LastSuffix);
    match entry
    case Panic =>
      return Panic;
    case Ok(None) =>
      return Ok(1);
    case Ok(Some(value)) =>
      var url := UrlPart(value);
      if |url| < 2 {
        return Panic;
      }
      var digit := url[|url| - 2];
      if !IsDigit(digit) {
        return Panic;
      }
      return Ok(DigitValue(digit));
  }

  // ---------------------------------------------------------------------------
  // Decimal numbers, for the corrected page count.

  predicate AllDigits(s: string) {
    forall i :: 0 <= i < |s| ==> IsDigit(s[i])
  }

  /** The decimal spelling of `n`, without leading zeros. */
  function Decimal(n: nat): (s: string)
    ensures |s| >= 1 && AllDigits(s)
  {
    var d := ['0' + ((n % 10) as char)];
    if n < 10 then d else Decimal(n / 10) + d
  }

  /** The value of a string of decimal digits (`strconv.ParseUint` base 10, without the range check). */
  function ParseDecimal(s: string): nat
    requires AllDigits(s)
  {
    if |s| == 0 then 0
    else ParseDecimal(s[..|s| - 1]) * 10 + DigitValue(s[|s| - 1])
  }

  /** The index of the first `c` in `s`, or `|s|` when there is none. */
  function IndexOfChar(s: string, c: char): (i: nat)
    ensures i <= |s| && (i < |s| ==> s[i] == c)
    ensures forall j :: 0 <= j < i ==> s[j] != c
  {
    if |s| == 0 || s[0] == c then 0 else 1 + IndexOfChar(s[1..], c)
  }

  /** In `a + b`, with no `c` in `a` and `b` empty or starting with `c`, the first `c` is at `|a|`. */
  lemma IndexOfCharConcat(a: string, b: string, c: char)
    requires c !in a && (b == "" || b[0] == c)
    ensures IndexOfChar(a + b, c) == |a|
  {
    var s := a + b;
    assert forall j :: 0 <= j < |a| ==> s[j] == a[j];
    if b != "" {
      assert s[|a|] == b[0];
    }
  }

  predicate HasPrefix(s: string, p: string) {
    |p| <= |s| && s[..|p|] == p
  }

  /** The query of a URL: the text after its first `?`, if it has one. */
  function QueryOf(u: string): (q: Option<string>)
    ensures q.None? <==> '?' !in u
  {
    var i := IndexOfChar(u, '?');
    if i == |u| then None else Some(u[i + 1..])
  }

  /**
   * The value of the first parameter `name=value` of the query `q`, whose
   * parameters are separated by `&` (`url.Values.Get`, without
   * percent-decoding); `None` when no parameter has that name.
   */
  function ParamValue(q: string, name: string): Option<string>
    decreases |q|
  {
    var i := IndexOfChar(q, '&');
    var key := name + "=";
    if HasPrefix(q[..i], key) then Some(q[|key|..i])
    else if i == |q| then None
    else ParamValue(q[i + 1..], name)
  }

  const PageName: string := "page"

  /** The `page` parameter of a URL's query. */
  function PageParam(u: string): Option<string> {
    match QueryOf(u)
    case None => None
    case Some(q) => ParamValue(q, PageName)
  }

  lemma {:induction false} ParseDecimalOfDecimal(n: nat)
    ensures ParseDecimal(Decimal(n)) == n
  {
    var s := Decimal(n);
    if n >= 10 {
      ParseDecimalOfDecimal(n / 10);
      assert s[..|s| - 1] == Decimal(n / 10);
    }
  }

  /**
   * The page count the "last" URL actually carries: the value of its `page`
   * query parameter, parsed as `strconv.ParseUint(_, 10, 32)` does. A URL
   * shorter than its brackets, a missing parameter and a value that is not
   * a decimal number below 2^32 all panic, as a failed parse does in the
   * source.
   */
  function QueryPages(url: string): (r: Outcome<uint32>)
    ensures r.Ok? ==> |url| >= 2 && PageParam(url[1..|url| - 1]).Some?
    ensures r.Ok? ==> var v := PageParam(url[1..|url| - 1]).value;
      |v| >= 1 && AllDigits(v) && r.value == ParseDecimal(v)
    ensures |url| >= 2 && PageParam(url[1..|url| - 1]).Some? ==>
      var v := PageParam(url[1..|url| - 1]).value;
      |v| >= 1 && AllDigits(v) && ParseDecimal(v) < 0x1_0000_0000 ==> r.Ok?
  {
    if |url| < 2 then Panic
    else
      match PageParam(url[1..|url| - 1])
      case None => Panic
      case Some(v) =>
        if |v| == 0 || !AllDigits(v) then Panic
        else
          var n := ParseDecimal(v);
          if n < 0x1_0000_0000 then Ok(n) else Panic
  }

  /** `get_total_pages` with the page count read from the `page` parameter. */
  function TotalPagesFixed(h: Header, current: uint32): (r: Outcome<uint32>)
    ensures current > 0 ==> r == Ok(current)
    ensures current == 0 && FindLink(h, LastSuffix) == Ok(None) ==> r == Ok(1)
  {
    if current > 0 then Ok(current)
    else
      match FindLink(h, LastSuffix)
      case Panic => Panic
      case Ok(None) => Ok(1)
      case Ok(Some(entry)) => QueryPages(UrlPart(entry))
  }

  method GetTotalPagesFixed(h: Header, totalPages: uint32) returns (r: Outcome<uint32>)
    ensures r == TotalPagesFixed(h, totalPages)
  {
    if totalPages > 0 {
      return Ok(totalPages);
    }
    var entry := FindEntry(h, LastSuffix);
    match entry
    case Panic =>
      return Panic;
    case Ok(None) =>
      return Ok(1);
    case Ok(Some(value)) =>
      var url := UrlPart(value);
      if |url| < 2 {
        return Panic;
      }
      var param := PageParam(url[1..|url| - 1]);
      if param.None? || |param.value| == 0 || !AllDigits(param.value) {
        return Panic;
      }
      var n := ParseDecimal(param.value);
      if n >= 0x1_0000_0000 {
        return Panic;
      }
      return Ok(n);
  }

  // ---------------------------------------------------------------------------
  // Headers as a server writes them.

  /** One `<url>; rel="rel"` entry. */
  datatype Link = Link(url: string, rel: string)

  /**
   * A link that survives the textual format: its URL has no `,` (which would
   * start an entry separator) and no `;` (a parameter separator), and its
   * relation name has no `,` and no `"`.
   */
  predicate WellFormed(l: Link) {
    ',' !in l.url && ';' !in l.url && ',' !in l.rel && '"' !in l.rel
  }

  function FormatEntry(l: Link): string {
    "<" + l.url + ">" + ParamSep + "rel=\"" + l.rel + "\""
  }

  function FormatEntries(ls: seq<Link>): (r: seq<string>)
    ensures |r| == |ls| && forall k :: 0 <= k < |ls| ==> r[k] == FormatEntry(ls[k])
  {
    if |ls| == 0 then [] else [FormatEntry(ls[0])] + FormatEntries(ls[1..])
  }

  /** The `Link` value a server sends for `ls`. */
  function FormatLinks(ls: seq<Link>): string {
    Join(FormatEntries(ls), EntrySep)
  }

  /** The index of the first link whose relation is `rel`. */
  function FirstWithRel(ls: seq<Link>, rel: string): (r: Option<nat>)
    ensures r.Some? ==> r.value < |ls| && ls[r.value].rel == rel
    ensures r.Some? ==> forall k :: 0 <= k < r.value ==> ls[k].rel != rel
    ensures r.None? <==> forall k :: 0 <= k < |ls| ==> ls[k].rel != rel
  {
    if |ls| == 0 then None
    else if ls[0].rel == rel then Some(0)
    else
      match FirstWithRel(ls[1..], rel)
      case None => None
      case Some(k) => Some(k + 1)
  }

  /** Splitting a formatted `Link` value at `", "` gives back its entries. */
  lemma {:induction false} SplitFormatted(ls: seq<Link>)
    requires |ls| >= 1 && forall k :: 0 <= k < |ls| ==> WellFormed(ls[k])
    ensures Split(FormatLinks(ls), EntrySep) == FormatEntries(ls)
  {
    var e := FormatEntry(ls[0]);
    assert ',' !in e by {
      assert e == "<" + ls[0].url + ">; rel=\"" + ls[0].rel + "\"";
    }
    if |ls| == 1 {
      SplitWhole(e, EntrySep);
    } else {
      SplitFormatted(ls[1..]);
      assert FormatEntries(ls) == [e] + FormatEntries(ls[1..]);
      SplitAfter(e, EntrySep, FormatLinks(ls[1..]));
    }
  }

  /** The bracketed URL of a formatted entry is `<url>`. */
  lemma UrlPartFormatted(l: Link)
    requires WellFormed(l)
    ensures UrlPart(FormatEntry(l)) == "<" + l.url + ">"
    ensures StripBrackets(UrlPart(FormatEntry(l))) == Ok(l.url)
  {
    var a := "<" + l.url + ">";
    assert FormatEntry(l) == a + ParamSep + ("rel=\"" + l.rel + "\"");
    assert ';' !in a;
    SplitAfter(a, ParamSep, "rel=\"" + l.rel + "\"");
    assert a[1..|a| - 1] == l.url;
  }

  /**
   * A formatted entry ends with `"name"` exactly when its relation is `name`,
   * for any relation name free of `"`.
   */
  lemma SuffixIffRel(l: Link, name: string)
    requires WellFormed(l) && '"' !in name
    ensures HasSuffix(FormatEntry(l), Quoted(name)) <==> l.rel == name
  {
    var e := FormatEntry(l);
    var q := "\"" + l.rel + "\"";
    var p := "<" + l.url + ">" + ParamSep + "rel=";
    var t := Quoted(name);
    assert e == p + q;
    if HasSuffix(e, t) {
      var n, r := |name|, |l.rel|;
      // Both `"` + rel + `"` and `"` + name + `"` end `e`, and neither name has a quote inside.
      assert e[|e| - r - 2] == '"';
      assert forall i :: |e| - r - 1 <= i < |e| - 1 ==> e[i] == l.rel[i - (|e| - r - 1)];
      assert e[|e| - n - 2] == t[0] == '"';
      assert forall i :: |e| - n - 1 <= i < |e| - 1 ==> e[i] == t[i - (|e| - n - 2)];
      assert n == r;
      assert e[|e| - |t|..] == q;
      assert name == t[1..n + 1] == q[1..r + 1] == l.rel;
    }
  }

  /** The first entry ending in `"name"` is the first link whose relation is `name`. */
  lemma FirstSuffixIsFirstRel(ls: seq<Link>, name: string)
    requires forall k :: 0 <= k < |ls| ==> WellFormed(ls[k])
    requires '"' !in name
    ensures FirstWithSuffix(FormatEntries(ls), Quoted(name)) == FirstWithRel(ls, name)
  {
    var es, t := FormatEntries(ls), Quoted(name);
    forall k | 0 <= k < |ls| ensures HasSuffix(es[k], t) <==> ls[k].rel == name {
      SuffixIffRel(ls[k], name);
    }
    var a, b := FirstWithSuffix(es, t), FirstWithRel(ls, name);
    if a.Some? && b.Some? {
      assert !(a.value < b.value) && !(b.value < a.value);
    }
  }

  /** The URL of the first link whose relation is `name`, if any. */
  function Target(ls: seq<Link>, name: string): Option<string> {
    match FirstWithRel(ls, name)
    case None => None
    case Some(k) => Some(ls[k].url)
  }

  /** The formatted entry of the first link whose relation is `name`, if any. */
  function TargetEntry(ls: seq<Link>, name: string): Option<string> {
    match FirstWithRel(ls, name)
    case None => None
    case Some(k) => Some(FormatEntry(ls[k]))
  }

  /** A response header whose first `Link` value is `ls`, formatted. */
  predicate CarriesLinks(h: Header, ls: seq<Link>) {
    LinkKey in h && |h[LinkKey]| >= 1 && h[LinkKey][0] == FormatLinks(ls)
  }

  /** A response header whose first `Link` value splits into the entries of `ls`. */
  predicate SplitsInto(h: Header, ls: seq<Link>) {
    LinkKey in h && |h[LinkKey]| >= 1 && Split(h[LinkKey][0], EntrySep) == FormatEntries(ls)
  }

  lemma CarriesSplits(h: Header, ls: seq<Link>)
    requires CarriesLinks(h, ls) && |ls| >= 1
    requires forall k :: 0 <= k < |ls| ==> WellFormed(ls[k])
    ensures SplitsInto(h, ls)
  {
    SplitFormatted(ls);
  }

  /** The entry found for a relation name is the entry of the first link with that relation. */
  lemma FindLinkOfEntries(h: Header, ls: seq<Link>, name: string)
    requires SplitsInto(h, ls) && '"' !in name
    requires forall k :: 0 <= k < |ls| ==> WellFormed(ls[k])
    ensures FindLink(h, Quoted(name)) == Ok(TargetEntry(ls, name))
  {
    FirstSuffixIsFirstRel(ls, name);
  }

  lemma NextLinkOfFound(h: Header, ls: seq<Link>)
    requires forall k :: 0 <= k < |ls| ==> WellFormed(ls[k])
    requires FindLink(h, NextSuffix) == Ok(TargetEntry(ls, "next"))
    ensures NextLink(h) == Ok(Target(ls, "next"))
  {
    match FirstWithRel(ls, "next")
    case None =>
    case Some(k) =>
      UrlPartFormatted(ls[k]);
  }

  /**
   * Round trip: `get_next_link` on a header carrying well-formed links finds
   * exactly the URL of the first link whose relation is "next", and finds
   * nothing when there is none.
   */
  lemma NextLinkOfFormatted(h: Header, ls: seq<Link>)
    requires CarriesLinks(h, ls) && |ls| >= 1
    requires forall k :: 0 <= k < |ls| ==> WellFormed(ls[k])
    ensures NextLink(h) == Ok(Target(ls, "next"))
  {
    CarriesSplits(h, ls);
    FindLinkOfEntries(h, ls, "next");
    NextLinkOfFound(h, ls);
  }

  /** The "last" entry `get_total_pages` reads from a header carrying well-formed links. */
  lemma LastEntryOfFormatted(h: Header, ls: seq<Link>)
    requires CarriesLinks(h, ls) && |ls| >= 1
    requires forall k :: 0 <= k < |ls| ==> WellFormed(ls[k])
    ensures FindLink(h, LastSuffix) == Ok(TargetEntry(ls, "last"))
  {
    CarriesSplits(h, ls);
    FindLinkOfEntries(h, ls, "last");
  }

  /**
   * As written, the page count depends on the final character of the "last"
   * URL alone: its digit value, or a panic when it is not a digit.
   */
  lemma TotalPagesOfEntry(h: Header, l: Link, prefix: string, c: char)
    requires WellFormed(l) && l.url == prefix + [c]
    requires FindLink(h, LastSuffix) == Ok(Some(FormatEntry(l)))
    ensures TotalPages(h, 0) == if IsDigit(c) then Ok(DigitValue(c)) else Panic
  {
    UrlPartFormatted(l);
    var url := "<" + l.url + ">";
    assert url[|url| - 2] == c;
  }

  /** The last character of `Decimal(n)` is the digit `n % 10`. */
  lemma DecimalLastDigit(n: nat)
    ensures var d := Decimal(n);
      d == d[..|d| - 1] + [d[|d| - 1]] && DigitValue(d[|d| - 1]) == n % 10
  {
    var d := Decimal(n);
    var c := '0' + ((n % 10) as char);
    if n >= 10 {
      assert d == Decimal(n / 10) + [c];
    }
    assert d[|d| - 1] == c;
  }

  /** The parameters `ps[0]&ps[1]&...&` that come before the one read. */
  function ParamsBefore(ps: seq<string>): string {
    if |ps| == 0 then "" else ps[0] + "&" + ParamsBefore(ps[1..])
  }

  /** A query parameter that is not the `page` parameter. */
  predicate OtherParam(p: string) {
    '&' !in p && !HasPrefix(p, PageName + "=")
  }

  /** A URL whose query carries `page=N` after other parameters and before more. */
  function PageUrl(path: string, ps: seq<string>, n: nat, rest: string): string {
    path + "?" + (ParamsBefore(ps) + "page=" + Decimal(n) + rest)
  }

  /** A query that starts with `page=v` has `page` value `v`. */
  lemma ParamValueHere(v: string, rest: string)
    requires '&' !in v
    requires rest == "" || rest[0] == '&'
    ensures ParamValue("page=" + v + rest, PageName) == Some(v)
  {
    var q := "page=" + v + rest;
    assert '&' !in "page=" + v;
    IndexOfCharConcat("page=" + v, rest, '&');
    assert q[..5 + |v|] == "page=" + v;
  }

  /** The `page` value is found past any other parameters and up to the next `&`. */
  lemma {:induction false} ParamValueAfter(ps: seq<string>, v: string, rest: string)
    requires forall k :: 0 <= k < |ps| ==> OtherParam(ps[k])
    requires '&' !in v
    requires rest == "" || rest[0] == '&'
    ensures ParamValue(ParamsBefore(ps) + "page=" + v + rest, PageName) == Some(v)
  {
    if |ps| == 0 {
      assert ParamsBefore(ps) == "";
      assert ParamsBefore(ps) + "page=" + v + rest == "page=" + v + rest;
      ParamValueHere(v, rest);
    } else {
      var tail := ParamsBefore(ps[1..]) + "page=" + v + rest;
      assert ParamsBefore(ps) + "page=" + v + rest == ps[0] + ("&" + tail);
      ParamValueSkip(ps[0], tail);
      ParamValueAfter(ps[1..], v, rest);
    }
  }

  /** A leading parameter other than `page` is passed over. */
  lemma ParamValueSkip(p: string, tail: string)
    requires OtherParam(p)
    ensures ParamValue(p + ("&" + tail), PageName) == ParamValue(tail, PageName)
  {
    var q := p + ("&" + tail);
    IndexOfCharConcat(p, "&" + tail, '&');
    assert q[..|p|] == p;
    assert q[|p| + 1..] == tail;
  }

  /** A URL `path?q`, with no `?` in `path`, has the query `q`. */
  lemma QueryOfUrl(path: string, q: string)
    requires '?' !in path
    ensures QueryOf(path + ("?" + q)) == Some(q)
  {
    IndexOfCharConcat(path, "?" + q, '?');
    assert (path + ("?" + q))[|path| + 1..] == q;
  }

  /** The corrected reader recovers `N` from the bracketed URL `<path?...page=N...>`. */
  lemma QueryPagesOfNumber(path: string, ps: seq<string>, n: nat, rest: string)
    requires '?' !in path
    requires forall k :: 0 <= k < |ps| ==> OtherParam(ps[k])
    requires rest == "" || rest[0] == '&'
    requires n < 0x1_0000_0000
    ensures QueryPages("<" + PageUrl(path, ps, n, rest) + ">") == Ok(n)
  {
    var q := ParamsBefore(ps) + "page=" + Decimal(n) + rest;
    var url := "<" + PageUrl(path, ps, n, rest) + ">";
    assert url[1..|url| - 1] == path + ("?" + q);
    QueryOfUrl(path, q);
    assert '&' !in Decimal(n) by {
      assert !IsDigit('&');
    }
    ParamValueAfter(ps, Decimal(n), rest);
    ParseDecimalOfDecimal(n);
  }

  lemma TotalPagesFixedOfEntry(h: Header, l: Link, path: string, ps: seq<string>, n: nat, rest: string)
    requires WellFormed(l) && l.url == PageUrl(path, ps, n, rest)
    requires '?' !in path
    requires forall k :: 0 <= k < |ps| ==> OtherParam(ps[k])
    requires rest == "" || rest[0] == '&'
    requires n < 0x1_0000_0000
    requires FindLink(h, LastSuffix) == Ok(Some(FormatEntry(l)))
    ensures TotalPagesFixed(h, 0) == Ok(n)
  {
    UrlPartFormatted(l);
    QueryPagesOfNumber(path, ps, n, rest);
  }

  /**
   * As written, a "last" URL `base + N` yields only the final digit of `N`:
   * the page count is `N % 10`, which is wrong from ten pages on.
   */
  lemma TotalPagesReadsLastDigit(h: Header, ls: seq<Link>, base: string, n: nat)
    requires CarriesLinks(h, ls) && |ls| >= 1
    requires forall j :: 0 <= j < |ls| ==> WellFormed(ls[j])
    requires Target(ls, "last") == Some(base + Decimal(n))
    ensures TotalPages(h, 0) == Ok(n % 10)
  {
    LastEntryOfFormatted(h, ls);
    var k := FirstWithRel(ls, "last").value;
    var d := Decimal(n);
    DecimalLastDigit(n);
    assert ls[k].url == (base + d[..|d| - 1]) + [d[|d| - 1]];
    TotalPagesOfEntry(h, ls[k], base + d[..|d| - 1], d[|d| - 1]);
  }

  /**
   * Corrected: a "last" URL whose query has the parameter `page=N`, after
   * any number of other parameters and before more (GitHub writes both
   * `?per_page=100&page=N` and `?page=N&per_page=100`), yields the page
   * count `N` itself.
   */
  lemma TotalPagesFixedReadsNumber(h: Header, ls: seq<Link>, path: string, ps: seq<string>, n: nat, rest: string)
    requires CarriesLinks(h, ls) && |ls| >= 1
    requires forall j :: 0 <= j < |ls| ==> WellFormed(ls[j])
    requires Target(ls, "last") == Some(PageUrl(path, ps, n, rest))
    requires '?' !in path
    requires forall k :: 0 <= k < |ps| ==> OtherParam(ps[k])
    requires rest == "" || rest[0] == '&'
    requires n < 0x1_0000_0000
    ensures TotalPagesFixed(h, 0) == Ok(n)
  {
    LastEntryOfFormatted(h, ls);
    var k := FirstWithRel(ls, "last").value;
    TotalPagesFixedOfEntry(h, ls[k], path, ps, n, rest);
  }

  lemma TwelveInDecimal()
    ensures Decimal(12) == "12"
  {
    assert Decimal(12) == Decimal(1) + ['2'];
  }

  /**
   * The discrepancy on a concrete input, as written: a listing whose "last"
   * link ends in page 12 reports 2 pages.
   */
  lemma TwelvePagesAsWritten(h: Header, ls: seq<Link>, base: string)
    requires CarriesLinks(h, ls) && |ls| >= 1
    requires forall j :: 0 <= j < |ls| ==> WellFormed(ls[j])
    requires Target(ls, "last") == Some(base + "12")
    ensures TotalPages(h, 0) == Ok(2)
  {
    LastEntryOfFormatted(h, ls);
    var k := FirstWithRel(ls, "last").value;
    assert ls[k].url == (base + "1") + ['2'];
    TotalPagesOfEntry(h, ls[k], base + "1", '2');
  }

  /**
   * The model reads characters where the source slices bytes: in the URL
   * part `<x5é` the character before the last is `5`, while in Go's five
   * bytes of it the byte before the last is the first byte of `é`.
   */
  lemma MultiByteLastChar()
    ensures LastCharPages("<x5é") == Ok(5)
  {
    assert IsDigit("<x5é"[2]);
  }

  /** The listing `path?page=12`, read by the corrected reader, reports 12 pages. */
  lemma TwelvePagesCorrected(h: Header, ls: seq<Link>, path: string)
    requires CarriesLinks(h, ls) && |ls| >= 1
    requires forall j :: 0 <= j < |ls| ==> WellFormed(ls[j])
    requires Target(ls, "last") == Some(path + "?page=12")
    requires '?' !in path
    ensures TotalPagesFixed(h, 0) == Ok(12)
  {
    TwelveInDecimal();
    TwelveSpelling(path);
    TotalPagesFixedReadsNumber(h, ls, path, [], 12, "");
  }

  /** `path?page=12` as `PageUrl` builds it. */
  lemma TwelveSpelling(path: string)
    ensures path + "?page=12" == path + "?" + (ParamsBefore([]) + "page=" + "12" + "")
  {
    assert ParamsBefore([]) == "";
  }

  /** `path?page=12&per_page=100` as `PageUrl` builds it. */
  lemma PerPageSpelling(path: string)
    ensures path + "?page=12&per_page=100" == path + "?" + (ParamsBefore([]) + "page=" + "12" + "&per_page=100")
  {
    assert ParamsBefore([]) == "";
  }

  /** `path?page=12&per_page=100` as a prefix followed by the number 100. */
  lemma PerPageEndsInHundred(path: string)
    ensures path + "?page=12&per_page=100" == (path + "?page=12&per_page=") + "100"
  {
  }

  lemma HundredInDecimal()
    ensures Decimal(100) == "100"
  {
    assert Decimal(100) == Decimal(10) + ['0'];
    assert Decimal(10) == Decimal(1) + ['0'];
  }

  /**
   * A "last" URL with a parameter after the page number, as written: the
   * listing `path?page=12&per_page=100` reports 0 pages, the final digit of
   * the page size.
   */
  lemma PerPageAsWritten(h: Header, ls: seq<Link>, path: string)
    requires CarriesLinks(h, ls) && |ls| >= 1
    requires forall j :: 0 <= j < |ls| ==> WellFormed(ls[j])
    requires Target(ls, "last") == Some(path + "?page=12&per_page=100")
    ensures TotalPages(h, 0) == Ok(0)
  {
    PerPageEndsInHundred(path);
    EndsInHundredAsWritten(h, ls, path + "?page=12&per_page=");
  }

  /** A "last" URL ending in `100` reads as zero pages. */
  lemma EndsInHundredAsWritten(h: Header, ls: seq<Link>, base: string)
    requires CarriesLinks(h, ls) && |ls| >= 1
    requires forall j :: 0 <= j < |ls| ==> WellFormed(ls[j])
    requires Target(ls, "last") == Some(base + "100")
    ensures TotalPages(h, 0) == Ok(0)
  {
    HundredInDecimal();
    TotalPagesReadsLastDigit(h, ls, base, 100);
  }

  /** The same listing, read by the corrected reader, reports 12 pages. */
  lemma PerPageCorrected(h: Header, ls: seq<Link>, path: string)
    requires CarriesLinks(h, ls) && |ls| >= 1
    requires forall j :: 0 <= j < |ls| ==> WellFormed(ls[j])
    requires Target(ls, "last") == Some(path + "?page=12&per_page=100")
    requires '?' !in path
    ensures TotalPagesFixed(h, 0) == Ok(12)
  {
    TwelveInDecimal();
    PerPageSpelling(path);
    TotalPagesFixedReadsNumber(h, ls, path, [], 12, "&per_page=100");
  }
}
