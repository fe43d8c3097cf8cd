/**
  The table-cell helpers that read loosely typed JSON members:
  `stringVal` (cmd/maintenance.go), `nestedStringVal`
  (cmd/forwarding_rules.go) and `joinStrings` (cmd/custom_roles.go). Each
  renders a value with Go's `%v` verb; numbers and objects are rendered by
  a parameter, since their text depends on float64 and map-key formatting.
*/
module CmdValues {
  import opened Text
  import opened JsonValues

  /** `%v` of a float64 or a `map[string]interface{}`. */
  type Shower = Json -> string

  const NilText := "<nil>"

  /**
    `%v` of a decoded JSON value: a string is its own text, nil is `<nil>`,
    a bool is `true` or `false`, a slice is its elements' `%v` separated by
    spaces inside brackets; numbers and objects go to `show`.
  */
  function FormatV(v: Json, show: Shower): string
    decreases v
  {
    match v
    case JString(s) => s
    case JNull => NilText
    case JBool(b) => if b then "true" else "false"
    case JArray(items) => "[" + Join(seq(|items|, k requires 0 <= k < |items| => FormatV(items[k], show)), " ") + "]"
    case _ => show(v)
  }

  /**
    `stringVal`: a missing key gives "", a string member its text, anything
    else its `%v`. The string shortcut agrees with `%v`, so a present member
    always reads as its `%v`.
  */
  function StringVal(m: map<string, Json>, key: string, show: Shower): (r: string)
    ensures key !in m ==> r == ""
    ensures key in m ==> r == FormatV(m[key], show)
  {
    if key in m then
      match m[key]
      case JString(s) => s
      case _ => FormatV(m[key], show)
    else ""
  }

  /**
    A present `null` reads as `<nil>`, unlike a missing key, and a present
    empty string reads like a missing key.
  */
  lemma NullIsNotMissing(m: map<string, Json>, key: string, show: Shower)
    ensures StringVal(m[key := JNull], key, show) == "<nil>" != StringVal(m - {key}, key, show)
    ensures StringVal(m[key := JString("")], key, show) == StringVal(m - {key}, key, show)
  {
  }

  /** Only the member under `key` matters: maps that agree on it read the same. */
  lemma StringValLocal(m: map<string, Json>, n: map<string, Json>, key: string, show: Shower)
    requires key in m <==> key in n
    requires key in m ==> m[key] == n[key]
    ensures StringVal(m, key, show) == StringVal(n, key, show)
  {
  }

  /**
    `nestedStringVal`: `stringVal` of the inner key when the outer member is
    an object, "" when it is missing or anything else.
  */
  function NestedStringVal(m: map<string, Json>, outer: string, inner: string, show: Shower): (r: string)
    ensures outer !in m || !m[outer].JObject? ==> r == ""
    ensures outer in m && m[outer].JObject? && inner in m[outer].members ==> r == FormatV(m[outer].members[inner], show)
    ensures outer in m && m[outer].JObject? && inner !in m[outer].members ==> r == ""
  {
    if outer in m then
      match m[outer]
      case JObject(members) => StringVal(members, inner, show)
      case _ => ""
    else ""
  }

  /**
    A `null` or scalar outer member, a missing outer member and a missing
    inner key are indistinguishable; a `null` inner member is not.
  */
  lemma NestedMissingConflated(m: map<string, Json>, outer: string, inner: string, show: Shower)
    ensures NestedStringVal(m[outer := JNull], outer, inner, show) == NestedStringVal(m - {outer}, outer, inner, show) == ""
    ensures NestedStringVal(m[outer := JObject(map[])], outer, inner, show) == ""
    ensures NestedStringVal(m[outer := JObject(map[inner := JNull])], outer, inner, show) == "<nil>"
  {
  }

  /**
    `joinStrings`: the `%v` of each element of an array, joined by `sep`;
    "" for anything that is not an array.
  */
  function JoinStrings(v: Json, sep: string, show: Shower): (r: string)
    ensures !v.JArray? ==> r == ""
    ensures v.JArray? && |v.items| == 1 ==> r == FormatV(v.items[0], show)
  {
    match v
    case JArray(items) => Join(seq(|items|, k requires 0 <= k < |items| => FormatV(items[k], show)), sep)
    case _ => ""
  }

  /** The array of the given strings. */
  function Strings(names: seq<string>): (v: Json)
    ensures v.JArray? && |v.items| == |names|
  {
    JArray(seq(|names|, k requires 0 <= k < |names| => JString(names[k])))
  }

  /** An array of strings gives the strings themselves, in order, separated by `sep`. */
  lemma JoinStringsOfStrings(names: seq<string>, sep: string, show: Shower)
    ensures JoinStrings(Strings(names), sep, show) == Join(names, sep)
  {
    var items := Strings(names).items;
    var parts := seq(|items|, k requires 0 <= k < |items| => FormatV(items[k], show));
    assert parts == names;
  }

  /**
    An array of strings free of a one-character separator is recovered by
    splitting its joined text on that separator.
  */
  lemma JoinStringsRoundTrip(names: seq<string>, sep: char, show: Shower)
    requires |names| >= 1
    requires forall k | 0 <= k < |names| :: sep !in names[k]
    ensures SplitOn(JoinStrings(Strings(names), [sep], show), sep) == names
  {
    var items := Strings(names).items;
    var parts := seq(|items|, k requires 0 <= k < |items| => FormatV(items[k], show));
    assert parts == names;
    SplitJoin(names, sep);
  }

  /** The empty array and the array holding one empty string both give "". */
  lemma JoinStringsConflates(sep: string, show: Shower)
    ensures JoinStrings(Strings([]), sep, show) == JoinStrings(Strings([""]), sep, show) == ""
  {
  }

  /** A nil element reads as `<nil>`, a bool as its name. */
  lemma JoinStringsScalars(sep: string, show: Shower)
    ensures JoinStrings(JArray([JNull, JBool(true)]), sep, show) == "<nil>" + sep + "true"
  {
    var items := [JNull, JBool(true)];
    var parts := seq(|items|, k requires 0 <= k < |items| => FormatV(items[k], show));
    assert parts == ["<nil>", "true"];
    assert Join(parts, sep) == "<nil>" + sep + Join(["true"], sep);
  }
}
