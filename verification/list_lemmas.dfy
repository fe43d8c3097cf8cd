/**
  What a pagination walk does when the server answers with a chain of list
  pages: one GET per page, following each `next` link in turn, the pages'
  elements concatenated in order; and how an error status on any page stops
  the walk at once.
*/
module ListLemmas {
  import opened Results
  import opened JsonValues
  import opened ApiTypes
  import opened ApiClient
  import opened ApiList

  /** `reply` is a successful list page that decodes to `page`. */
  predicate ServedPage(reply: Reply, page: Page)
  {
    reply.Response? && IsSuccess(reply.status) && DecodePage(reply.body) == Some(page)
  }

  /** Replies `n`, `n + 1`, ... serve `pages`, each of which links to a next page. */
  predicate LinkedPages(server: Server, parse: UrlParser, n: nat, pages: seq<Page>)
    decreases |pages|
  {
    |pages| == 0
    || (ServedPage(server(n), pages[0]) && NextPath(pages[0], parse).Some? && LinkedPages(server, parse, n + 1, pages[1..]))
  }

  /** The elements of all `pages`, page by page. */
  function FlattenAll(pages: seq<Page>): seq<Json>
  {
    if |pages| == 0 then [] else Flatten(pages[0].data) + FlattenAll(pages[1..])
  }

  /**
    The requests that fetch `pages` starting at `path`, one GET per page
    along the `next` links, and the path the last link leads to (a page
    without a link, which a linked chain never holds, leaves the path as it is).
  */
  function Visits(path: string, pages: seq<Page>, parse: UrlParser): (v: (seq<Request>, string))
    ensures |v.0| == |pages| && AllGets(v.0)
    ensures |pages| > 0 ==> v.0[0] == PageRequest(path)
    ensures |pages| == 0 ==> v.1 == path
    decreases |pages|
  {
    if |pages| == 0 then ([], path)
    else
      var next := if NextPath(pages[0], parse).Some? then NextPath(pages[0], parse).value else path;
      var rest := Visits(next, pages[1..], parse);
      ([PageRequest(path)] + rest.0, rest.1)
  }

  /** The requests of a walk over `pages` that then makes one more request, where the last link leads. */
  function ChainTrace(path: string, pages: seq<Page>, parse: UrlParser): (t: seq<Request>)
    ensures |t| == |pages| + 1 && t[0] == PageRequest(path)
  {
    Visits(path, pages, parse).0 + [PageRequest(Visits(path, pages, parse).1)]
  }

  /** A run preceded by the requests `reqs`, none of which slept. */
  function Prefixed(reqs: seq<Request>, r: Option<Run>): Option<Run>
  {
    match r
    case None => None
    case Some(x) => Some(Run(x.outcome, reqs + x.trace, x.slept))
  }

  /** One linked page: one request, its elements appended, the walk resumes at the link. */
  lemma WalkStep(path: string, items: seq<Json>, n: nat, fuel: nat, server: Server,
                 parse: UrlParser, target: Target, page: Page)
    requires ServedPage(server(n), page) && NextPath(page, parse).Some?
    requires fuel >= 1
    ensures Walk(path, items, n, fuel, server, parse, target)
         == Prefixed([PageRequest(path)],
                     Walk(NextPath(page, parse).value, items + Flatten(page.data), n + 1, fuel - 1, server, parse, target))
  {
  }

  /** A linked page in front of a walk that ends: one more request in front, the same outcome. */
  lemma WalkPrefix(path: string, items: seq<Json>, n: nat, fuel: nat, server: Server,
                   parse: UrlParser, target: Target, page: Page,
                   outcome: Result<Option<Json>, Error>, trace: seq<Request>)
    requires ServedPage(server(n), page) && NextPath(page, parse).Some?
    requires fuel >= 1
    requires Walk(NextPath(page, parse).value, items + Flatten(page.data), n + 1, fuel - 1, server, parse, target)
          == Some(Run(outcome, trace, 0))
    ensures Walk(path, items, n, fuel, server, parse, target) == Some(Run(outcome, [PageRequest(path)] + trace, 0))
  {
    WalkStep(path, items, n, fuel, server, parse, target, page);
  }

  /** Fetching a chain then one more page: the first request, then the rest of the chain's. */
  lemma VisitsThenOne(path: string, pages: seq<Page>, parse: UrlParser)
    requires |pages| > 0 && NextPath(pages[0], parse).Some?
    ensures var rest := Visits(NextPath(pages[0], parse).value, pages[1..], parse);
      Visits(path, pages, parse).0 + [PageRequest(Visits(path, pages, parse).1)]
      == [PageRequest(path)] + (rest.0 + [PageRequest(rest.1)])
  {
    var rest := Visits(NextPath(pages[0], parse).value, pages[1..], parse);
    assert Visits(path, pages, parse) == ([PageRequest(path)] + rest.0, rest.1);
    assert [PageRequest(path)] + (rest.0 + [PageRequest(rest.1)]) == ([PageRequest(path)] + rest.0) + [PageRequest(rest.1)];
  }

  /** A linked first page in front of a walk over the rest of a chain. */
  lemma ChainStep(path: string, items: seq<Json>, n: nat, fuel: nat, server: Server,
                  parse: UrlParser, target: Target, pages: seq<Page>, outcome: Result<Option<Json>, Error>)
    requires |pages| > 0 && ServedPage(server(n), pages[0]) && NextPath(pages[0], parse).Some?
    requires fuel >= 1
    requires Walk(NextPath(pages[0], parse).value, items + Flatten(pages[0].data), n + 1, fuel - 1, server, parse, target)
          == Some(Run(outcome, ChainTrace(NextPath(pages[0], parse).value, pages[1..], parse), 0))
    ensures Walk(path, items, n, fuel, server, parse, target) == Some(Run(outcome, ChainTrace(path, pages, parse), 0))
  {
    var next := NextPath(pages[0], parse).value;
    WalkPrefix(path, items, n, fuel, server, parse, target, pages[0], outcome, ChainTrace(next, pages[1..], parse));
    VisitsThenOne(path, pages, parse);
  }

  /** Concatenation of element lists regroups freely. */
  lemma ConcatRegroup(a: seq<Json>, b: seq<Json>, c: seq<Json>)
    ensures a + b + c == a + (b + c)
  {
  }

  /** The elements of a chain then one more page: the first page's, then the rest's. */
  lemma FlattenThenLast(items: seq<Json>, pages: seq<Page>, last: Page)
    requires |pages| > 0
    ensures items + Flatten(pages[0].data) + FlattenAll(pages[1..] + [last]) == items + FlattenAll(pages + [last])
  {
    var all := pages + [last];
    assert all[0] == pages[0];
    assert all[1..] == pages[1..] + [last];
    assert FlattenAll(all) == Flatten(pages[0].data) + FlattenAll(pages[1..] + [last]);
    ConcatRegroup(items, Flatten(pages[0].data), FlattenAll(pages[1..] + [last]));
  }

  /** The last page: one request, and the collected elements are decoded into the target. */
  lemma WalkLastPage(path: string, items: seq<Json>, n: nat, fuel: nat, server: Server,
                     parse: UrlParser, target: Target, last: Page)
    requires ServedPage(server(n), last) && NextPath(last, parse).None?
    requires fuel >= 1
    ensures Walk(path, items, n, fuel, server, parse, target)
         == Some(Run(Combine(items + Flatten(last.data), target), [PageRequest(path)], 0))
  {
  }

  /** A stopping reply: one request, and the walk ends with that reply's error. */
  lemma WalkStopPage(path: string, items: seq<Json>, n: nat, fuel: nat, server: Server,
                     parse: UrlParser, target: Target)
    requires PageError(server(n)).Some?
    requires fuel >= 1
    ensures Walk(path, items, n, fuel, server, parse, target)
         == Some(Run(Err(PageError(server(n)).value), [PageRequest(path)], 0))
  {
  }

  /** A chain without pages makes only the request for its last page. */
  lemma EmptyChainTrace(path: string, parse: UrlParser)
    ensures ChainTrace(path, [], parse) == [PageRequest(path)]
  {
    var none: seq<Page> := [];
    var v := Visits(path, none, parse);
    assert v.0 == [] && v.1 == path;
    assert ChainTrace(path, none, parse) == v.0 + [PageRequest(v.1)];
  }

  /** The chain of no linked pages: the last page alone, as a chain. */
  lemma WalkCollectsLast(path: string, items: seq<Json>, n: nat, fuel: nat, server: Server,
                         parse: UrlParser, target: Target, last: Page)
    requires ServedPage(server(n), last) && NextPath(last, parse).None?
    requires fuel >= 1
    ensures Walk(path, items, n, fuel, server, parse, target)
         == Some(Run(Combine(items + FlattenAll([] + [last]), target), ChainTrace(path, [], parse), 0))
  {
    WalkLastPage(path, items, n, fuel, server, parse, target, last);
    assert [] + [last] == [last] && [last][1..] == [];
    assert FlattenAll([last]) == Flatten(last.data) + [] == Flatten(last.data);
    assert FlattenAll([] + [last]) == Flatten(last.data);
    EmptyChainTrace(path, parse);
  }

  /**
    A chain of linked pages ending in a page without a usable `next` link: the
    walk makes exactly one request per page and decodes the concatenation of
    all pages' elements, in page order, into the target.
  */
  lemma {:induction false} WalkCollects(path: string, items: seq<Json>, n: nat, fuel: nat, server: Server,
                                         parse: UrlParser, target: Target, pages: seq<Page>, last: Page, end: nat)
    requires LinkedPages(server, parse, n, pages) && end == n + |pages|
    requires ServedPage(server(end), last) && NextPath(last, parse).None?
    requires fuel > |pages|
    ensures Walk(path, items, n, fuel, server, parse, target)
         == Some(Run(Combine(items + FlattenAll(pages + [last]), target), ChainTrace(path, pages, parse), 0))
    decreases |pages|
  {
    if |pages| == 0 {
      WalkCollectsLast(path, items, n, fuel, server, parse, target, last);
    } else {
      var next := NextPath(pages[0], parse).value;
      var collected := items + Flatten(pages[0].data);
      var tail := pages[1..];
      WalkCollects(next, collected, n + 1, fuel - 1, server, parse, target, tail, last, end);
      FlattenThenLast(items, pages, last);
      ChainStep(path, items, n, fuel, server, parse, target, pages, Combine(items + FlattenAll(pages + [last]), target));
    }
  }

  /**
    A reply that stops the walk, on any page of a chain, ends it there without
    a retry and with that reply's error: a transport failure, a 429, another
    error status, or a body that is not a page.
  */
  lemma {:induction false} WalkStopsEarly(path: string, items: seq<Json>, n: nat, fuel: nat, server: Server,
                                          parse: UrlParser, target: Target, pages: seq<Page>, end: nat)
    requires LinkedPages(server, parse, n, pages) && end == n + |pages|
    requires PageError(server(end)).Some?
    requires fuel > |pages|
    ensures Walk(path, items, n, fuel, server, parse, target)
      == Some(Run(Err(PageError(server(end)).value), ChainTrace(path, pages, parse), 0))
    decreases |pages|
  {
    if |pages| == 0 {
      WalkStopPage(path, items, n, fuel, server, parse, target);
      EmptyChainTrace(path, parse);
    } else {
      var next := NextPath(pages[0], parse).value;
      var tail := pages[1..];
      WalkStopsEarly(next, items + Flatten(pages[0].data), n + 1, fuel - 1, server, parse, target, tail, end);
      ChainStep(path, items, n, fuel, server, parse, target, pages, Err(PageError(server(end)).value));
    }
  }

  /** A 2xx reply whose body is not a page envelope ends the walk with "parse page". */
  lemma WalkParsePage(path: string, items: seq<Json>, n: nat, fuel: nat, server: Server,
                      parse: UrlParser, target: Target, pages: seq<Page>)
    requires LinkedPages(server, parse, n, pages)
    requires server(n + |pages|).Response? && IsSuccess(server(n + |pages|).status)
    requires DecodePage(server(n + |pages|).body).None?
    requires fuel > |pages|
    ensures Walk(path, items, n, fuel, server, parse, target).Some?
    ensures Walk(path, items, n, fuel, server, parse, target).value.outcome == Err(ParsePage)
    ensures |Walk(path, items, n, fuel, server, parse, target).value.trace| == |pages| + 1
  {
    WalkStopsEarly(path, items, n, fuel, server, parse, target, pages, n + |pages|);
  }

  /** A transport failure on any page ends the walk with that failure, unwrapped. */
  lemma WalkTransportFailure(path: string, items: seq<Json>, n: nat, fuel: nat, server: Server,
                             parse: UrlParser, target: Target, pages: seq<Page>)
    requires LinkedPages(server, parse, n, pages)
    requires server(n + |pages|).Failed?
    requires fuel > |pages|
    ensures Walk(path, items, n, fuel, server, parse, target).Some?
    ensures Walk(path, items, n, fuel, server, parse, target).value.outcome
      == Err(RequestFailed(server(n + |pages|).complaint))
    ensures |Walk(path, items, n, fuel, server, parse, target).value.trace| == |pages| + 1
  {
    WalkStopsEarly(path, items, n, fuel, server, parse, target, pages, n + |pages|);
  }

  /**
    `ListAll` over a chain of pages: the first request goes to the path with
    the caller's parameters, `limit` defaulted, as its query; there is one
    request per page; and the result is every page's elements in order
    (`null` when there are none).
  */
  lemma ListAllCollects(path: string, params: Values, encode: QueryEncoder, parse: UrlParser, target: Target,
                        server: Server, fuel: nat, pages: seq<Page>, last: Page)
    requires LinkedPages(server, parse, 0, pages)
    requires ServedPage(server(|pages|), last) && NextPath(last, parse).None?
    requires fuel > |pages|
    ensures ListAll(path, params, encode, parse, target, server, fuel)
      == Some(Run(Combine(FlattenAll(pages + [last]), target),
                  ChainTrace(FirstPagePath(path, params, encode), pages, parse), 0))
  {
    var all := FlattenAll(pages + [last]);
    assert [] + all == all;
    WalkCollects(FirstPagePath(path, params, encode), [], 0, fuel, server, parse, target, pages, last, |pages|);
  }

  /**
    The two-page walk: a first page with elements `a`, `b` linking on, and a
    second page holding the single element `c`, give `[a, b, c]` after two
    requests, the second one to the link's path and query.
  */
  lemma TwoPageWalk(path: string, server: Server, parse: UrlParser, accepts: Json -> bool,
                    a: Json, b: Json, c: Json, link: string, u: Url)
    requires parse(link) == Some(u) && link != ""
    requires ServedPage(server(0), Page(Some(JArray([a, b])), Some(Paging(link, "", "", ""))))
    requires ServedPage(server(1), Page(Some(JArray([c])), None))
    requires accepts(JArray([a, b, c]))
    ensures Walk(path, [], 0, 2, server, parse, Into(accepts))
         == Some(Run(Ok(Some(JArray([a, b, c]))), [PageRequest(path), PageRequest(u.path + "?" + u.rawQuery)], 0))
  {
    var p1 := Page(Some(JArray([a, b])), Some(Paging(link, "", "", "")));
    var p2 := Page(Some(JArray([c])), None);
    assert NextPath(p1, parse) == Some(u.path + "?" + u.rawQuery);
    assert LinkedPages(server, parse, 0, [p1]);
    WalkCollects(path, [], 0, 2, server, parse, Into(accepts), [p1], p2, 1);
    assert [p1] + [p2] == [p1, p2];
    assert FlattenAll([p1, p2]) == [a, b, c] by {
      assert [p1, p2][1..] == [p2];
      assert [p2][1..] == [];
      assert FlattenAll([p2]) == [c] + [];
      assert FlattenAll([p1, p2]) == [a, b] + FlattenAll([p2]);
    }
    assert [] + [a, b, c] == [a, b, c];
    var next := u.path + "?" + u.rawQuery;
    assert [p1][1..] == [];
    assert Visits(next, [], parse) == ([], next);
    assert Visits(path, [p1], parse) == ([PageRequest(path)] + [], next);
    assert ([PageRequest(path)] + []) + [PageRequest(next)] == [PageRequest(path), PageRequest(next)];
    assert Combine([a, b, c], Into(accepts)) == Ok(Some(JArray([a, b, c])));
  }

  /** A page whose `data` is a single object or `null` contributes exactly that one value. */
  lemma NonArrayDataIsOneElement(v: Json)
    requires !v.JArray?
    ensures Flatten(Some(v)) == [v]
  {
  }

  /** Of the paging block only `next` decides where the walk goes. */
  lemma NextPathOnlyNext(page: Page, other: Page, parse: UrlParser)
    requires page.paging.Some? <==> other.paging.Some?
    requires page.paging.Some? ==> page.paging.value.next == other.paging.value.next
    ensures NextPath(page, parse) == NextPath(other, parse)
  {
  }

  /** Defaulting the limit a second time changes nothing. */
  lemma DefaultLimitIdempotent(v: Values)
    ensures WithDefaultLimit(WithDefaultLimit(v)) == WithDefaultLimit(v)
  {
  }
}
