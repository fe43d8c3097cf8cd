/**
  The pagination walker `ListAll` of pkg/api/client.go: it fetches pages by
  GET without retrying, flattens each page's `data`, follows `paging.next`,
  and decodes the concatenation into the caller's target.

  A walk that keeps receiving `next` links never ends in the source; here it
  is given a page budget (`fuel`) and reports `None` when the budget runs out.
*/
module ApiList {
  import opened Results
  import opened Text
  import opened JsonValues
  import opened ApiTypes
  import opened ApiClient

  const LimitKey := "limit"
  const DefaultLimit := "100"

  /** Query parameters, as Go's url.Values: each key maps to its list of values. */
  type Values = map<string, seq<string>>

  /** `url.Values.Get`: the first value of `key`, or "" when there is none. */
  function GetParam(v: Values, key: string): string
  {
    if key in v && |v[key]| > 0 then v[key][0] else ""
  }

  /**
    The page-size default: `limit=100` is set only when the caller gave no
    (non-empty) limit; every other parameter is left alone.
  */
  function WithDefaultLimit(v: Values): (r: Values)
    ensures GetParam(r, LimitKey) == if GetParam(v, LimitKey) == "" then DefaultLimit else GetParam(v, LimitKey)
    ensures GetParam(v, LimitKey) != "" ==> r == v
    ensures forall k | k != LimitKey :: (k in r <==> k in v) && (k in v ==> r[k] == v[k])
  {
    if GetParam(v, LimitKey) == "" then v[LimitKey := [DefaultLimit]] else v
  }

  /** What `url.Parse` keeps of a `next` link: the path and the raw query. */
  datatype Url = Url(path: string, rawQuery: string)

  /** `url.Parse`, None for a link it rejects. */
  type UrlParser = string -> Option<Url>

  /** `url.Values.Encode`. */
  type QueryEncoder = Values -> string

  /** One decoded page: the raw `data` member if present, and the paging block if any. */
  datatype Page = Page(data: Option<Json>, paging: Option<Paging>)

  /**
    Decoding a page envelope `{data, paging}`: `null` is an empty page, an
    object is read member by member, anything else fails ("parse page").
    A `data` member is kept whatever its value, `null` included.
  */
  function DecodePage(b: Body): (r: Option<Page>)
    ensures r.Some? ==> Decoded(b).Some?
    ensures r.Some? && r.value.data.Some? ==>
      Decoded(b).value.JObject? && "data" in Decoded(b).value.members
      && r.value.data.value == Decoded(b).value.members["data"]
  {
    match Decoded(b)
    case Some(JNull) => Some(Page(None, None))
    case Some(JObject(m)) =>
      (match DecodePaging(m)
       case None => None
       case Some(p) => Some(Page(if "data" in m then Some(m["data"]) else None, p)))
    case _ => None
  }

  /**
    How the envelope is read: `null` is the empty page; an object decodes
    exactly when its `paging` member does, its paging block is that member's,
    and its `data` is present exactly when the object has a `data` member;
    an empty, malformed or other body is no page.
  */
  lemma DecodePageMembers(b: Body)
    ensures Decoded(b) == Some(JNull) ==> DecodePage(b) == Some(Page(None, None))
    ensures Decoded(b).Some? && Decoded(b).value.JObject? ==>
      var m := Decoded(b).value.members;
      (DecodePage(b).Some? <==> DecodePaging(m).Some?)
      && (DecodePage(b).Some? ==>
            DecodePage(b).value.paging == DecodePaging(m).value
            && (DecodePage(b).value.data.Some? <==> "data" in m))
    ensures (Decoded(b).None? || (!Decoded(b).value.JObject? && !Decoded(b).value.JNull?)) ==> DecodePage(b).None?
  {
  }

  /** A page's contribution: an array gives its elements, any other value itself, an absent member nothing. */
  function Flatten(data: Option<Json>): (r: seq<Json>)
    ensures data.None? ==> r == []
    ensures data.Some? && data.value.JArray? ==> r == data.value.items
    ensures data.Some? && !data.value.JArray? ==> r == [data.value]
  {
    match data
    case None => []
    case Some(JArray(items)) => items
    case Some(v) => [v]
  }

  /**
    The path and query of the next page, or None when the walk ends: no paging
    block, an empty `next`, or a `next` that does not parse.
  */
  function NextPath(page: Page, parse: UrlParser): (r: Option<string>)
    ensures r.Some? ==> page.paging.Some? && page.paging.value.next != "" && parse(page.paging.value.next).Some?
    ensures r.Some? ==> r.value == parse(page.paging.value.next).value.path + "?" + parse(page.paging.value.next).value.rawQuery
    ensures page.paging.Some? && page.paging.value.next != "" && parse(page.paging.value.next).Some? ==> r.Some?
  {
    match page.paging
    case None => None
    case Some(p) =>
      if p.next == "" then None
      else match parse(p.next)
        case None => None
        case Some(u) => Some(u.path + "?" + u.rawQuery)
  }

  /** The collected elements as one JSON value: `null` when nothing was collected (a nil slice). */
  function Combined(items: seq<Json>): Json
  {
    if |items| == 0 then JNull else JArray(items)
  }

  /** The final decode of the combined elements; a nil target cannot be decoded into. */
  function Combine(items: seq<Json>, target: Target): (r: Result<Option<Json>, Error>)
    ensures r.Ok? <==> target.Into? && target.accepts(Combined(items))
    ensures r.Ok? ==> r.value == Some(Combined(items))
    ensures r.Err? ==> r.error == DecodeCombined
  {
    match target
    case Discard => Err(DecodeCombined)
    case Into(accepts) => if accepts(Combined(items)) then Ok(Some(Combined(items))) else Err(DecodeCombined)
  }

  /**
    The error with which a page reply ends the walk, None for a 2xx page that
    decodes: a transport failure is returned as it is, a 429 reports rate
    limiting, any other non-2xx status is parsed as an API error, and a 2xx
    body that is not a page envelope is "parse page".
  */
  function PageError(reply: Reply): (e: Option<Error>)
    ensures e.None? <==> reply.Response? && IsSuccess(reply.status) && DecodePage(reply.body).Some?
    ensures reply.Failed? ==> e == Some(RequestFailed(reply.complaint))
    ensures e == Some(RateLimitedDuringPagination) <==> IsRateLimitedReply(reply)
    ensures (reply.Response? && !IsSuccess(reply.status) && reply.status != StatusTooManyRequests) ==>
      e == Some(ParseErrorResponse(reply.status, reply.body))
    ensures (reply.Response? && IsSuccess(reply.status) && DecodePage(reply.body).None?) ==> e == Some(ParsePage)
  {
    match reply
    case Failed(c) => Some(RequestFailed(c))
    case Response(status, b) =>
      if status == StatusTooManyRequests then Some(RateLimitedDuringPagination)
      else if !IsSuccess(status) then Some(ParseErrorResponse(status, b))
      else if DecodePage(b).None? then Some(ParsePage)
      else None
  }

  function PageRequest(path: string): Request { Request(GET, path, NoPayload) }

  /** Every request is a bodiless GET. */
  predicate AllGets(trace: seq<Request>)
  {
    forall i | 0 <= i < |trace| :: trace[i].verb == GET && trace[i].payload == NoPayload
  }

  /**
    The loop of `ListAll` from page request `path` on, having collected
    `items` and consumed `n` replies.
  */
  function Walk(path: string, items: seq<Json>, n: nat, fuel: nat, server: Server, parse: UrlParser, target: Target): (r: Option<Run>)
    ensures r.Some? ==> 1 <= |r.value.trace| <= fuel && r.value.trace[0] == PageRequest(path)
    ensures r.Some? ==> AllGets(r.value.trace) && r.value.slept == 0
    ensures r.Some? && r.value.outcome == Err(RateLimitedDuringPagination) ==>
      IsRateLimitedReply(server(n + |r.value.trace| - 1))
    decreases fuel, 1
  {
    if fuel == 0 then None
    else
      match PageError(server(n))
      case Some(e) => Some(Run(Err(e), [PageRequest(path)], 0))
      case None => FromPage(path, DecodePage(server(n).body).value, items, n, fuel, server, parse, target)
  }

  /**
    The rest of the loop once reply `n` served `page`: its elements are
    collected, and the walk ends there or follows the page's `next` link.
  */
  function FromPage(path: string, page: Page, items: seq<Json>, n: nat, fuel: nat, server: Server,
                    parse: UrlParser, target: Target): (r: Option<Run>)
    requires fuel >= 1
    ensures r.Some? ==> 1 <= |r.value.trace| <= fuel && r.value.trace[0] == PageRequest(path)
    ensures r.Some? ==> AllGets(r.value.trace) && r.value.slept == 0
    ensures r.Some? && r.value.outcome == Err(RateLimitedDuringPagination) ==>
      IsRateLimitedReply(server(n + |r.value.trace| - 1))
    decreases fuel, 0
  {
    var req := PageRequest(path);
    var collected := items + Flatten(page.data);
    match NextPath(page, parse)
    case None => Some(Run(Combine(collected, target), [req], 0))
    case Some(next) =>
      match Walk(next, collected, n + 1, fuel - 1, server, parse, target)
      case None => None
      case Some(rest) =>
        ThenKeepsLastReply(server, n, req, rest);
        Some(Then(0, req, rest))
  }

  /** A request in front of a run that ended on reply `n + 1 + k` leaves it ending on reply `n + 1 + k`. */
  lemma ThenKeepsLastReply(server: Server, n: nat, req: Request, rest: Run)
    requires |rest.trace| >= 1
    requires rest.outcome == Err(RateLimitedDuringPagination) ==> IsRateLimitedReply(server((n + 1) + |rest.trace| - 1))
    ensures Then(0, req, rest).outcome == Err(RateLimitedDuringPagination) ==>
      IsRateLimitedReply(server(n + |Then(0, req, rest).trace| - 1))
  {
    assert n + |Then(0, req, rest).trace| - 1 == (n + 1) + |rest.trace| - 1;
  }

  /** The first page request: the path with the encoded parameters, `limit` defaulted. */
  function FirstPagePath(path: string, params: Values, encode: QueryEncoder): string
  {
    path + "?" + encode(WithDefaultLimit(params))
  }

  /** `ListAll` with a budget of `fuel` pages. */
  function ListAll(path: string, params: Values, encode: QueryEncoder, parse: UrlParser, target: Target, server: Server, fuel: nat): (r: Option<Run>)
    ensures r.Some? ==> 1 <= |r.value.trace| <= fuel && r.value.trace[0] == PageRequest(FirstPagePath(path, params, encode))
  {
    Walk(FirstPagePath(path, params, encode), [], 0, fuel, server, parse, target)
  }
}
