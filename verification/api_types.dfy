/** The API's error record and paging block (pkg/api/types.go). */
module ApiTypes {
  import opened Results
  import opened Text
  import opened JsonValues

  /** An error reported by the API: a message and the HTTP status it came with. */
  datatype ErrorResponse = ErrorResponse(message: string, code: int)

  const RenderPrefix := "OpsGenie API error "

  /** The text of `ErrorResponse.Error()`: prefix, decimal code, ": ", message. */
  function Render(e: ErrorResponse): string
  {
    RenderPrefix + Decimal(e.code) + ": " + e.message
  }

  /** Reads a rendered error back: the code runs up to the first ':', the message follows ": ". */
  function ParseRendered(s: string): Option<ErrorResponse>
  {
    if |s| < |RenderPrefix| || s[..|RenderPrefix|] != RenderPrefix then None
    else
      var rest := s[|RenderPrefix|..];
      match FirstIndex(rest, ':')
      case None => None
      case Some(i) =>
        if i + 1 < |rest| && rest[i + 1] == ' ' then
          match ParseDecimal(rest[..i])
          case None => None
          case Some(c) => Some(ErrorResponse(rest[i + 2..], c))
        else None
  }

  /** The rendering loses nothing: code and message can be read back from it. */
  lemma RenderRoundTrip(e: ErrorResponse)
    ensures ParseRendered(Render(e)) == Some(e)
  {
    var d := Decimal(e.code);
    var s := Render(e);
    var rest := d + ": " + e.message;
    assert s == RenderPrefix + rest;
    assert s[|RenderPrefix|..] == rest;
    assert ':' !in d by {
      forall k | 0 <= k < |d| ensures d[k] != ':' {
        assert IsDigit(d[k]) || d[k] == '-';
      }
    }
    assert rest[..|d|] == d;
    FirstIndexAt(rest, ':', |d|);
    DecimalRoundTrip(e.code);
    assert rest[|d| + 2..] == e.message;
  }

  /** Two errors render alike exactly when they have the same code and message. */
  lemma RenderInjective(e1: ErrorResponse, e2: ErrorResponse)
    ensures Render(e1) == Render(e2) <==> e1 == e2
  {
    RenderRoundTrip(e1);
    RenderRoundTrip(e2);
  }

  /** The rendering mentions both the numeric code and the message. */
  lemma RenderMentions(e: ErrorResponse)
    ensures Contains(Render(e), Decimal(e.code))
    ensures Contains(Render(e), e.message)
  {
    ContainsMiddle(RenderPrefix, Decimal(e.code), ": " + e.message);
    assert Render(e) == RenderPrefix + Decimal(e.code) + (": " + e.message);
    ContainsMiddle(RenderPrefix + Decimal(e.code) + ": ", e.message, "");
    assert Render(e) == RenderPrefix + Decimal(e.code) + ": " + e.message + "";
  }

  /**
    Decoding a JSON body into `ErrorResponse` the way encoding/json does:
    `null` leaves both fields zero, an object fills them (a mistyped field is an
    error), any other value is an error.
  */
  function DecodeErrorResponse(v: Json): (r: Option<ErrorResponse>)
    ensures v.JObject? && r.Some? ==>
      StringMember(v.members, "message") == Some(r.value.message)
      && IntMember(v.members, "code") == Some(r.value.code)
    ensures v.JObject? && StringMember(v.members, "message").Some? && IntMember(v.members, "code").Some? ==>
      r == Some(ErrorResponse(StringMember(v.members, "message").value, IntMember(v.members, "code").value))
    ensures v.JNull? ==> r == Some(ErrorResponse("", 0))
    ensures !v.JObject? && !v.JNull? ==> r.None?
  {
    match v
    case JNull => Some(ErrorResponse("", 0))
    case JObject(m) =>
      (match (StringMember(m, "message"), IntMember(m, "code"))
       case (Some(msg), Some(c)) => Some(ErrorResponse(msg, c))
       case _ => None)
    case _ => None
  }

  /** Pagination links of a list page; only `next` is ever followed. */
  datatype Paging = Paging(next: string, prev: string, first: string, last: string)

  /**
    Decoding the `paging` member into a `*Paging`: absent or `null` leave the
    pointer nil (`Some(None)`), an object with string (or null) links fills it,
    anything else is a type error (`None`).
  */
  function DecodePaging(m: map<string, Json>): (r: Option<Option<Paging>>)
    ensures "paging" !in m || m["paging"].JNull? ==> r == Some(None)
    ensures r.Some? && r.value.Some? ==>
      "paging" in m && m["paging"].JObject?
      && StringMember(m["paging"].members, "next") == Some(r.value.value.next)
    ensures "paging" in m && !m["paging"].JObject? && !m["paging"].JNull? ==> r.None?
  {
    if "paging" !in m then Some(None)
    else match m["paging"]
      case JNull => Some(None)
      case JObject(p) =>
        (match (StringMember(p, "next"), StringMember(p, "prev"), StringMember(p, "first"), StringMember(p, "last"))
         case (Some(n), Some(pr), Some(f), Some(l)) => Some(Some(Paging(n, pr, f, l)))
         case _ => None)
      case _ => None
  }

  /**
    A paging object decodes exactly when each of its four links is a string
    or `null`, and then every link is the member's text.
  */
  lemma DecodePagingLinks(m: map<string, Json>)
    requires "paging" in m && m["paging"].JObject?
    ensures var p := m["paging"].members;
      (DecodePaging(m).Some? <==> StringMember(p, "next").Some? && StringMember(p, "prev").Some?
                                  && StringMember(p, "first").Some? && StringMember(p, "last").Some?)
    ensures var p := m["paging"].members;
      DecodePaging(m).Some? ==>
        DecodePaging(m).value == Some(Paging(StringMember(p, "next").value, StringMember(p, "prev").value,
                                             StringMember(p, "first").value, StringMember(p, "last").value))
  {
  }
}
