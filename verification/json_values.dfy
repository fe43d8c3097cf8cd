/**
  Generic JSON values, the shape Go's encoding/json produces when it decodes
  into `interface{}`, and the rules by which it fills a typed struct field.
*/
module JsonValues {
  import opened Results
  import opened Text

  /**
    A JSON value. Numbers keep the literal text they were written with, which
    decides whether they decode into a Go `int`; objects are maps, so a key
    occurs at most once.
  */
  datatype Json =
    | JNull
    | JBool(b: bool)
    | JNumber(literal: string)
    | JString(s: string)
    | JArray(items: seq<Json>)
    | JObject(members: map<string, Json>)

  /** Go's int is 64 bits wide on the platforms the client targets. */
  const MinInt64: int := -0x8000_0000_0000_0000
  const MaxInt64: int := 0x7FFF_FFFF_FFFF_FFFF

  /**
    Decoding member `key` of an object into a Go `string` field: an absent key
    or `null` leaves the zero value "", a string is taken, anything else is a
    type error (None).
  */
  function StringMember(m: map<string, Json>, key: string): (r: Option<string>)
    ensures key !in m ==> r == Some("")
    ensures key in m && m[key].JString? ==> r == Some(m[key].s)
    ensures r.None? <==> key in m && !m[key].JString? && !m[key].JNull?
  {
    if key !in m then Some("")
    else match m[key]
      case JNull => Some("")
      case JString(s) => Some(s)
      case _ => None
  }

  /** Decoding member `key` into a Go `bool` field, with the same zero-value rules. */
  function BoolMember(m: map<string, Json>, key: string): (r: Option<bool>)
    ensures key !in m ==> r == Some(false)
    ensures key in m && m[key].JBool? ==> r == Some(m[key].b)
    ensures key in m && m[key].JNull? ==> r == Some(false)
    ensures r.None? <==> key in m && !m[key].JBool? && !m[key].JNull?
  {
    if key !in m then Some(false)
    else match m[key]
      case JNull => Some(false)
      case JBool(b) => Some(b)
      case _ => None
  }

  /** A JSON number literal that fits a Go `int`: an integer numeral within 64 bits. */
  predicate FitsInt(lit: string)
  {
    ParseDecimal(lit).Some? && MinInt64 <= ParseDecimal(lit).value <= MaxInt64
  }

  /**
    Decoding member `key` into a Go `int` field: the number's literal must be an
    integer numeral (no fraction or exponent) within 64 bits.
  */
  function IntMember(m: map<string, Json>, key: string): (r: Option<int>)
    ensures r.Some? ==> MinInt64 <= r.value <= MaxInt64
    ensures key !in m ==> r == Some(0)
    ensures key in m && m[key].JNull? ==> r == Some(0)
    ensures key in m && m[key].JNumber? && FitsInt(m[key].literal) ==> r == ParseDecimal(m[key].literal)
    ensures r.None? <==> key in m && !m[key].JNull? && !(m[key].JNumber? && FitsInt(m[key].literal))
  {
    if key !in m then Some(0)
    else match m[key]
      case JNull => Some(0)
      case JNumber(lit) =>
        (match ParseDecimal(lit)
         case Some(i) => if MinInt64 <= i <= MaxInt64 then Some(i) else None
         case None => None)
      case _ => None
  }

  /**
    A number written the way Go's `%d` writes an integer decodes into an `int`
    field exactly when it fits 64 bits, and then to that integer.
  */
  lemma IntMemberDecimal(key: string, i: int)
    ensures MinInt64 <= i <= MaxInt64 ==> IntMember(map[key := JNumber(Decimal(i))], key) == Some(i)
    ensures !(MinInt64 <= i <= MaxInt64) ==> IntMember(map[key := JNumber(Decimal(i))], key).None?
  {
    DecimalRoundTrip(i);
  }

  /** A fraction or an exponent does not decode into an `int` field. */
  lemma IntMemberRejectsFractions(key: string)
    ensures IntMember(map[key := JNumber("1.5")], key).None?
    ensures IntMember(map[key := JNumber("1e2")], key).None?
  {
    assert "1.5"[1] == '.' && !IsDigit('.');
    assert "1e2"[1] == 'e' && !IsDigit('e');
  }
}
