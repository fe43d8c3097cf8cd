/**
  The list helpers of cmd/alerts.go: `splitAndTrim` for comma-separated flag
  values, and `parseResponders`, which reads `type:name` pairs.
*/
module CmdAlerts {
  import opened Results
  import opened Text
  import opened CmdRoot

  /** Go's unicode.IsSpace, the characters strings.TrimSpace removes. */
  predicate IsGoSpace(c: char)
  {
    var n := c as int;
    || (0x09 <= n <= 0x0D) || n == 0x20 || n == 0x85 || n == 0xA0 || n == 0x1680
    || (0x2000 <= n <= 0x200A) || n == 0x2028 || n == 0x2029 || n == 0x202F || n == 0x205F || n == 0x3000
  }

  /** `splitAndTrim`: the comma-separated items, trimmed of white space, empty ones dropped. */
  function SplitAndTrim(s: string): (items: seq<string>)
    ensures forall k | 0 <= k < |items| :: items[k] != ""
    ensures forall k | 0 <= k < |items| :: !IsGoSpace(items[k][0]) && !IsGoSpace(items[k][|items[k]| - 1])
    ensures |items| <= Count(s, ',') + 1
  {
    SplitTrimmed(s, IsGoSpace)
  }

  /** Empty text, or text of commas and white space only, gives no items. */
  lemma SplitAndTrimBlank(s: string)
    requires forall j | 0 <= j < |s| :: s[j] == ',' || IsGoSpace(s[j])
    ensures SplitAndTrim(s) == []
  {
    SplitTrimmedBlank(s, IsGoSpace);
  }

  /** Trimmed, non-empty, comma-free items written with commas are read back as they were. */
  lemma SplitAndTrimRoundTrip(items: seq<string>)
    requires forall k | 0 <= k < |items| :: items[k] != "" && ',' !in items[k]
    requires forall k | 0 <= k < |items| :: !IsGoSpace(items[k][0]) && !IsGoSpace(items[k][|items[k]| - 1])
    ensures SplitAndTrim(Join(items, ",")) == items
  {
    SplitTrimmedRoundTrip(items, IsGoSpace);
  }

  /** A responder as `parseResponders` builds it: the "name" and "type" entries of its map. */
  datatype Responder = Responder(name: string, kind: string)

  const DefaultResponderType := "team"

  /** One item: without ':' it names a team; otherwise the type precedes the first ':' and the name follows it. */
  function ParseResponder(p: string): (r: Responder)
    ensures ':' !in p ==> r == Responder(p, DefaultResponderType)
    ensures ':' in p ==> ':' !in r.kind && p == r.kind + ":" + r.name
  {
    match FirstIndex(p, ':')
    case None => Responder(p, DefaultResponderType)
    case Some(i) =>
      assert p == p[..i] + ":" + p[i + 1..];
      Responder(p[i + 1..], p[..i])
  }

  /** `parseResponders`: one responder per item, in order. */
  function ParseResponders(s: string): (rs: seq<Responder>)
    ensures |rs| == |SplitAndTrim(s)|
    ensures forall k | 0 <= k < |rs| :: rs[k] == ParseResponder(SplitAndTrim(s)[k])
  {
    var items := SplitAndTrim(s);
    seq(|items|, k requires 0 <= k < |items| => ParseResponder(items[k]))
  }

  /** The `type:name` text of a responder. */
  function Written(r: Responder): string
  {
    r.kind + ":" + r.name
  }

  /** The type is cut at the first ':', so a name may itself hold colons. */
  lemma ParseResponderRoundTrip(r: Responder)
    requires ':' !in r.kind
    ensures ParseResponder(Written(r)) == r
  {
    var w := Written(r);
    assert w[|r.kind|] == ':' && w[..|r.kind|] == r.kind;
    FirstIndexAt(w, ':', |r.kind|);
    assert w[|r.kind| + 1..] == r.name;
  }

  /**
    Responders written as `type:name` and joined with commas are parsed back
    as they were, provided the items survive splitting and trimming.
  */
  lemma ParseRespondersRoundTrip(rs: seq<Responder>)
    requires forall k | 0 <= k < |rs| :: ':' !in rs[k].kind && ',' !in rs[k].kind && ',' !in rs[k].name
    requires forall k | 0 <= k < |rs| :: !IsGoSpace(Written(rs[k])[0]) && !IsGoSpace(Written(rs[k])[|Written(rs[k])| - 1])
    ensures ParseResponders(Join(seq(|rs|, k requires 0 <= k < |rs| => Written(rs[k])), ",")) == rs
  {
    var items := seq(|rs|, k requires 0 <= k < |rs| => Written(rs[k]));
    forall k | 0 <= k < |items| ensures items[k] != "" && ',' !in items[k] {
      assert items[k][|rs[k].kind|] == ':';
      assert items[k] == rs[k].kind + (":" + rs[k].name);
    }
    SplitAndTrimRoundTrip(items);
    forall k | 0 <= k < |rs| ensures ParseResponder(items[k]) == rs[k] {
      ParseResponderRoundTrip(rs[k]);
    }
  }
}
