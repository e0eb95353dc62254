/**
 * Stage 1, the pagination walk of `get_repos_from_github`, as a sequential
 * loop. The server is an abstract function: `server(url, i)` is the answer to
 * the `i`-th attempt (from 0) at `url`. It depends on nothing else, so a URL
 * that a cycle of "next" links makes the walk request again gets the same
 * answers as the first time; a server whose replies change between visits is
 * not modelled. The walk in the source is unbounded;
 * here it is given a page budget, and running out of it is an outcome of its
 * own. The walk takes the two header readers it uses as parameters, so that
 * its lemmas hold for any readers: the source's loop uses `TotalPages` (the
 * reader as written) and `NextLink`, and `TotalPagesFixed` can be passed in
 * their place.
 */
module Fetcher {
  import opened Outcomes
  import opened LinkHeader
  import opened Retry

  /** The answer to one attempt: a transport error, or a response. */
  datatype Reply<B> = NetError | Response(header: Header, body: B)

  /** A reader of the page count: the header and the count recorded so far give the new count. */
  type PageReader = (Header, uint32) -> Outcome<uint32>

  /** A reader of the "next" link. */
  type LinkReader = Header -> Outcome<Option<string>>

  /** How the walk ended. */
  datatype End =
    | LastPage     // a page without a "next" link
    | FetchFailed  // four failed attempts at one URL
    | Panicked     // a header reader panicked
    | OutOfBudget  // the page budget was used up (not in the source)

  /** The URLs requested, the bodies forwarded, how the walk ended and the page count recorded. */
  datatype Walk<B> = Walk(urls: seq<string>, bodies: seq<B>, end: End, totalPages: uint32)

  /** The first of the four attempts at `url` that gets a response. */
  function FirstResponse<B>(server: (string, nat) -> Reply<B>, url: string): (r: Option<nat>)
    ensures r.Some? ==> r.value < MaxAttempts && server(url, r.value).Response?
    ensures r.Some? ==> forall i :: 0 <= i < r.value ==> server(url, i).NetError?
    ensures r.None? ==> forall i :: 0 <= i < MaxAttempts ==> server(url, i).NetError?
  {
    if server(url, 0).Response? then Some(0)
    else if server(url, 1).Response? then Some(1)
    else if server(url, 2).Response? then Some(2)
    else if server(url, 3).Response? then Some(3)
    else None
  }

  /** The attempt the retry loop stops at is the first that gets a response. */
  lemma FirstResponseAt<B>(server: (string, nat) -> Reply<B>, url: string, k: nat)
    requires k < MaxAttempts && server(url, k).Response?
    requires forall i :: 0 <= i < k ==> server(url, i).NetError?
    ensures FirstResponse(server, url) == Some(k)
  {
    if k > 0 { assert server(url, 0).NetError?; }
    if k > 1 { assert server(url, 1).NetError?; }
    if k > 2 { assert server(url, 2).NetError?; }
  }

  /** The response that answered the requests to `url`, if any of the four attempts got one. */
  function ReplyAt<B>(server: (string, nat) -> Reply<B>, url: string): Reply<B> {
    match FirstResponse(server, url)
    case None => NetError
    case Some(i) => server(url, i)
  }

  /**
   * The response the walk uses is the answer to one of the four attempts,
   * and there is none only when all four attempts fail.
   */
  lemma ReplyAtIsSomeAttempt<B>(server: (string, nat) -> Reply<B>, url: string)
    ensures ReplyAt(server, url).NetError? <==> forall i :: 0 <= i < MaxAttempts ==> server(url, i).NetError?
    ensures ReplyAt(server, url).Response? ==>
      exists i :: 0 <= i < MaxAttempts && server(url, i) == ReplyAt(server, url)
  {
    match FirstResponse(server, url)
    case None =>
    case Some(i) =>
  }

  /** What one visit to a page produces. */
  datatype Visit<B> =
    | Failed                                         // no response in four attempts
    | PanickedBefore                                 // the page-count reader panicked
    | PanickedAfter(body: B, total: uint32)          // the next-link reader panicked
    | Final(body: B, total: uint32)                  // no "next" link
    | Continue(body: B, total: uint32, next: string) // a "next" link to follow

  /**
   * One visit to `url` with `total` the page count recorded so far: fetch
   * (with retries), record the page count, forward the body, then read the
   * "next" link.
   */
  function VisitPage<B>(server: (string, nat) -> Reply<B>, pages: PageReader, next: LinkReader,
                        url: string, total: uint32): (v: Visit<B>)
    ensures v.Failed? <==> ReplyAt(server, url).NetError?
    ensures !v.Failed? ==> pages(ReplyAt(server, url).header, total).Ok? == !v.PanickedBefore?
    ensures (v.PanickedAfter? || v.Final? || v.Continue?) ==>
      && v.body == ReplyAt(server, url).body
      && v.total == pages(ReplyAt(server, url).header, total).value
    ensures v.PanickedAfter? ==> next(ReplyAt(server, url).header).Panic?
    ensures v.Final? ==> next(ReplyAt(server, url).header) == Ok(None)
    ensures v.Continue? ==> next(ReplyAt(server, url).header) == Ok(Some(v.next))
  {
    match ReplyAt(server, url)
    case NetError => Failed
    case Response(header, body) =>
      match pages(header, total)
      case Panic => PanickedBefore
      case Ok(t) =>
        match next(header)
        case Panic => PanickedAfter(body, t)
        case Ok(None) => Final(body, t)
        case Ok(Some(u)) => Continue(body, t, u)
  }

  /** The walk that ends at a visit that does not continue. */
  function Stop<B>(url: string, v: Visit<B>, total: uint32): Walk<B>
    requires !v.Continue?
  {
    match v
    case Failed => Walk([url], [], FetchFailed, total)
    case PanickedBefore => Walk([url], [], Panicked, total)
    case PanickedAfter(body, t) => Walk([url], [body], Panicked, t)
    case Final(body, t) => Walk([url], [body], LastPage, t)
  }

  /**
   * The walk from `url` with `budget` pages left and `total` the page count
   * recorded so far: visit the page, then follow the "next" link or stop.
   */
  function WalkFrom<B>(server: (string, nat) -> Reply<B>, pages: PageReader, next: LinkReader,
                       url: string, budget: nat, total: uint32): Walk<B>
    decreases budget
  {
    if budget == 0 then Walk([], [], OutOfBudget, total)
    else
      var v := VisitPage(server, pages, next, url, total);
      if v.Continue? then
        var rest := WalkFrom(server, pages, next, v.next, budget - 1, v.total);
        Walk([url] + rest.urls, [v.body] + rest.bodies, rest.end, rest.totalPages)
      else Stop(url, v, total)
  }

  /** Each forwarded body is the body of the response to the URL requested at that step. */
  ghost predicate BodiesMatch<B>(server: (string, nat) -> Reply<B>, urls: seq<string>, bodies: seq<B>) {
    |bodies| <= |urls|
    && forall k :: 0 <= k < |bodies| ==>
         ReplyAt(server, urls[k]).Response? && bodies[k] == ReplyAt(server, urls[k]).body
  }

  /** Each requested URL but the last is the "next" link of the page before it. */
  predicate Chained<B>(server: (string, nat) -> Reply<B>, next: LinkReader, urls: seq<string>) {
    forall k :: 0 <= k < |urls| - 1 ==>
      ReplyAt(server, urls[k]).Response?
      && next(ReplyAt(server, urls[k]).header) == Ok(Some(urls[k + 1]))
  }

  lemma BodiesMatchCons<B>(server: (string, nat) -> Reply<B>, url: string, body: B, urls: seq<string>, bodies: seq<B>)
    requires ReplyAt(server, url).Response? && body == ReplyAt(server, url).body
    requires BodiesMatch(server, urls, bodies)
    ensures BodiesMatch(server, [url] + urls, [body] + bodies)
  {
    var us, bs := [url] + urls, [body] + bodies;
    forall k | 1 <= k < |bs|
      ensures ReplyAt(server, us[k]).Response? && bs[k] == ReplyAt(server, us[k]).body
    {
      assert us[k] == urls[k - 1] && bs[k] == bodies[k - 1];
    }
  }

  lemma ChainedCons<B>(server: (string, nat) -> Reply<B>, next: LinkReader, url: string, urls: seq<string>)
    requires |urls| >= 1 && ReplyAt(server, url).Response?
    requires next(ReplyAt(server, url).header) == Ok(Some(urls[0]))
    requires Chained(server, next, urls)
    ensures Chained(server, next, [url] + urls)
  {
    var us := [url] + urls;
    forall k | 1 <= k < |us| - 1
      ensures ReplyAt(server, us[k]).Response?
           && next(ReplyAt(server, us[k]).header) == Ok(Some(us[k + 1]))
    {
      assert us[k] == urls[k - 1] && us[k + 1] == urls[k];
    }
  }

  /**
   * The walk requests at most one URL per page of budget, starting at `url`;
   * it forwards one body per page fetched, in order; each page but the last
   * links to the next one requested; and a walk that ends at `LastPage`
   * forwarded every page and ends on a page with no "next" link.
   */
  lemma {:induction false} WalkFollowsLinks<B>(server: (string, nat) -> Reply<B>, pages: PageReader, next: LinkReader,
                                               url: string, budget: nat, total: uint32)
    ensures var w := WalkFrom(server, pages, next, url, budget, total);
      && |w.urls| <= budget
      && (budget > 0 ==> |w.urls| >= 1 && w.urls[0] == url)
      && BodiesMatch(server, w.urls, w.bodies)
      && Chained(server, next, w.urls)
      && (w.end == LastPage ==>
            && |w.bodies| == |w.urls| >= 1
            && ReplyAt(server, w.urls[|w.urls| - 1]).Response?
            && next(ReplyAt(server, w.urls[|w.urls| - 1]).header) == Ok(None))
    decreases budget
  {
    if budget > 0 {
      var v := VisitPage(server, pages, next, url, total);
      if v.Continue? {
        WalkFollowsLinks(server, pages, next, v.next, budget - 1, v.total);
        var rest := WalkFrom(server, pages, next, v.next, budget - 1, v.total);
        assert WalkFrom(server, pages, next, url, budget, total)
            == Walk([url] + rest.urls, [v.body] + rest.bodies, rest.end, rest.totalPages);
        BodiesMatchCons(server, url, v.body, rest.urls, rest.bodies);
        if |rest.urls| >= 1 {
          ChainedCons(server, next, url, rest.urls);
        }
        var us := [url] + rest.urls;
        assert us[|us| - 1] == if |rest.urls| == 0 then url else rest.urls[|rest.urls| - 1];
      }
    }
  }

  /**
   * How the walk ends: after a fetch whose four attempts all failed, with
   * nothing forwarded for that page; after a reader panicked on the last
   * page (the page-count reader before its body is forwarded, or the link
   * reader after); or with the budget spent on pages that all continued.
   */
  lemma {:induction false} WalkEnds<B>(server: (string, nat) -> Reply<B>, pages: PageReader, next: LinkReader,
                                       url: string, budget: nat, total: uint32)
    ensures var w := WalkFrom(server, pages, next, url, budget, total);
      && (w.end == FetchFailed ==>
            && |w.urls| >= 1 && |w.bodies| == |w.urls| - 1
            && ReplyAt(server, w.urls[|w.urls| - 1]).NetError?)
      && (w.end == Panicked ==>
            && |w.urls| >= 1 && ReplyAt(server, w.urls[|w.urls| - 1]).Response?
            && ((|w.bodies| == |w.urls| - 1 && pages(ReplyAt(server, w.urls[|w.urls| - 1]).header, w.totalPages).Panic?)
                || (|w.bodies| == |w.urls| && next(ReplyAt(server, w.urls[|w.urls| - 1]).header).Panic?)))
      && (w.end == OutOfBudget ==> |w.urls| == |w.bodies| == budget)
    decreases budget
  {
    if budget > 0 {
      var v := VisitPage(server, pages, next, url, total);
      if v.Continue? {
        WalkEnds(server, pages, next, v.next, budget - 1, v.total);
        var rest := WalkFrom(server, pages, next, v.next, budget - 1, v.total);
        var us := [url] + rest.urls;
        if |rest.urls| >= 1 {
          assert us[|us| - 1] == rest.urls[|rest.urls| - 1];
        }
      }
    }
  }

  /** A page-count reader that keeps a positive count, as `get_total_pages` does. */
  ghost predicate KeepsPositive(pages: PageReader) {
    forall h, c: uint32 :: c > 0 ==> pages(h, c) == Ok(c)
  }

  lemma TotalPagesKeepsPositive()
    ensures KeepsPositive(TotalPages)
  {
  }

  lemma TotalPagesFixedKeepsPositive()
    ensures KeepsPositive(TotalPagesFixed)
  {
  }

  /**
   * Once a positive page count is recorded, later pages do not change it:
   * the walk ends with the count it had.
   */
  lemma {:induction false} TotalPagesSticky<B>(server: (string, nat) -> Reply<B>, pages: PageReader, next: LinkReader,
                                               url: string, budget: nat, total: uint32)
    requires KeepsPositive(pages) && total > 0
    ensures WalkFrom(server, pages, next, url, budget, total).totalPages == total
    decreases budget
  {
    if budget > 0 {
      var v := VisitPage(server, pages, next, url, total);
      if !v.Failed? {
        assert pages(ReplyAt(server, url).header, total) == Ok(total);
      }
      if v.Continue? {
        TotalPagesSticky(server, pages, next, v.next, budget - 1, total);
      }
    }
  }

  /**
   * One request with its retries (`c.Do(req)` inside the fetch loop): the
   * first response among four attempts, or the transport error of the fourth.
   */
  method Fetch<B>(server: (string, nat) -> Reply<B>, url: string) returns (reply: Reply<B>)
    ensures reply == ReplyAt(server, url)
  {
    var succeeds := (i: nat) => server(url, i).Response?;
    var ok, attempts := FetchAttempts(succeeds);
    forall i | 0 <= i < attempts - 1 || (!ok && i == attempts - 1)
      ensures server(url, i).NetError?
    {
      assert !succeeds(i);
    }
    if !ok {
      return NetError;
    }
    assert succeeds(attempts - 1);
    FirstResponseAt(server, url, attempts - 1);
    return server(url, attempts - 1);
  }

  /**
   * One pass of the fetch loop's body: the request with its retries, then
   * the two header readers.
   */
  method VisitOnce<B>(server: (string, nat) -> Reply<B>, pages: PageReader, next: LinkReader,
                  url: string, total: uint32) returns (v: Visit<B>)
    ensures v == VisitPage(server, pages, next, url, total)
  {
    var reply := Fetch(server, url);
    if reply.NetError? {
      return Failed;
    }
    var t := pages(reply.header, total);
    if t.Panic? {
      return PanickedBefore;
    }
    var link := next(reply.header);
    if link.Panic? {
      return PanickedAfter(reply.body, t.value);
    }
    if link.value.None? {
      return Final(reply.body, t.value);
    }
    return Continue(reply.body, t.value, link.value.value);
  }

  /**
   * `get_repos_from_github` as a sequential loop: the bodies it pushes onto
   * the output queue, how it stopped and the last page count it stored.
   * The header readers are parameters: the source uses `get_total_pages`
   * (`TotalPages`, or `TotalPagesFixed` once corrected) and `get_next_link`
   * (`NextLink`).
   */
  method FetchPages<B>(server: (string, nat) -> Reply<B>, pages: PageReader, next: LinkReader,
                       seed: string, maxPages: nat)
    returns (bodies: seq<B>, end: End, totalPages: uint32)
    ensures var w := WalkFrom(server, pages, next, seed, maxPages, 0);
      bodies == w.bodies && end == w.end && totalPages == w.totalPages
  {
    var url := seed;
    var budget := maxPages;
    totalPages := 0;
    bodies := [];
    ghost var w := WalkFrom(server, pages, next, seed, maxPages, 0);
    while true
      invariant var rest := WalkFrom(server, pages, next, url, budget, totalPages);
        w.bodies == bodies + rest.bodies && w.end == rest.end && w.totalPages == rest.totalPages
      decreases budget
    {
      if budget == 0 {
        return bodies, OutOfBudget, totalPages;
      }
      var v := VisitOnce(server, pages, next, url, totalPages);
      if !v.Continue? {
        var stop := Stop(url, v, totalPages);
        return bodies + stop.bodies, stop.end, stop.totalPages;
      }
      ghost var rest := WalkFrom(server, pages, next, v.next, budget - 1, v.total);
      assert (bodies + [v.body]) + rest.bodies == bodies + ([v.body] + rest.bodies);
      bodies := bodies + [v.body];
      totalPages := v.total;
      url := v.next;
      budget := budget - 1;
    }
  }
}
