/**
  Field filtering of JSON output (pkg/output/fields.go): a value is first
  normalised to plain JSON, then an object keeps only the requested keys and
  an array has each element filtered that way.
*/
module OutputFields {
  import opened Results
  import opened JsonValues

  /**
    A value handed to the renderer. `Plain` is already made of maps, slices,
    strings, float64s, bools and nil; `Custom` is any other Go value (a
    struct, a typed slice, an int), known by the outcome of `json.Marshal`
    on it: the JSON it encodes to, or the marshal error's text.
  */
  datatype GoValue = Plain(v: Json) | Custom(encoding: Result<Json, string>)

  /**
    `toJSONValue`: plain values pass through untouched, anything else is
    encoded and decoded back; a marshal failure is reported with its text.
  */
  function ToJsonValue(d: GoValue): (r: Result<Json, string>)
    ensures d.Plain? ==> r == Ok(d.v)
    ensures r.Err? <==> d.Custom? && d.encoding.Err?
    ensures d.Custom? && d.encoding.Ok? ==> r == Ok(d.encoding.value)
  {
    match d
    case Plain(v) => Ok(v)
    case Custom(Ok(v)) => Ok(v)
    case Custom(Err(complaint)) => Err("marshal: " + complaint)
  }

  /**
    `applyFieldFilter`: an object keeps exactly the requested keys it has,
    with their values untouched; an array is filtered element by element;
    everything else is returned as it is.
  */
  function ApplyFieldFilter(data: Json, fields: seq<string>): (r: Json)
    ensures data.JObject? ==> r.JObject?
    ensures data.JObject? ==> forall k :: k in r.members <==> k in data.members && k in fields
    ensures data.JObject? ==> forall k | k in r.members :: r.members[k] == data.members[k]
    ensures data.JArray? ==> r.JArray? && |r.items| == |data.items|
    ensures !data.JObject? && !data.JArray? ==> r == data
    decreases data
  {
    match data
    case JObject(m) => JObject(map k | k in m && k in fields :: m[k])
    case JArray(items) => JArray(seq(|items|, i requires 0 <= i < |items| => ApplyFieldFilter(items[i], fields)))
    case _ => data
  }

  /** Element `i` of a filtered array is element `i` of the input, filtered. */
  lemma FilterArrayElement(items: seq<Json>, fields: seq<string>, i: nat)
    requires i < |items|
    ensures ApplyFieldFilter(JArray(items), fields).items[i] == ApplyFieldFilter(items[i], fields)
  {
  }

  /** `filterFields`: nothing requested leaves the value alone, normalised or not. */
  function FilterFields(data: GoValue, fields: seq<string>): (r: Result<GoValue, string>)
    ensures |fields| == 0 ==> r == Ok(data)
    ensures |fields| > 0 ==> (r.Ok? <==> ToJsonValue(data).Ok?)
    ensures |fields| > 0 && r.Ok? ==> r.value.Plain? && r.value.v == ApplyFieldFilter(ToJsonValue(data).value, fields)
    ensures |fields| > 0 && r.Err? ==> r.error == "normalize for field filter: " + ToJsonValue(data).error
  {
    if |fields| == 0 then Ok(data)
    else match ToJsonValue(data)
      case Err(e) => Err("normalize for field filter: " + e)
      case Ok(v) => Ok(Plain(ApplyFieldFilter(v, fields)))
  }

  /**
    Filtering twice with the same fields is filtering once: the kept members
    are all requested ones, and the second pass reaches exactly the values
    the first one produced.
  */
  lemma {:induction false} FilterIdempotent(data: Json, fields: seq<string>)
    ensures ApplyFieldFilter(ApplyFieldFilter(data, fields), fields) == ApplyFieldFilter(data, fields)
    decreases data
  {
    match data
    case JObject(m) =>
      var once := ApplyFieldFilter(data, fields);
      assert once.members.Keys == ApplyFieldFilter(once, fields).members.Keys;
    case JArray(items) =>
      var once := ApplyFieldFilter(data, fields);
      var twice := ApplyFieldFilter(once, fields);
      forall i | 0 <= i < |items| ensures twice.items[i] == once.items[i] {
        FilterArrayElement(items, fields, i);
        FilterArrayElement(once.items, fields, i);
        FilterIdempotent(items[i], fields);
      }
    case _ =>
  }

  /** Only which fields are requested matters, not their order or repetition. */
  lemma {:induction false} FilterUsesFieldSet(data: Json, f: seq<string>, g: seq<string>)
    requires forall k :: k in f <==> k in g
    ensures ApplyFieldFilter(data, f) == ApplyFieldFilter(data, g)
    decreases data
  {
    match data
    case JObject(m) =>
    case JArray(items) =>
      forall i | 0 <= i < |items| ensures ApplyFieldFilter(data, f).items[i] == ApplyFieldFilter(data, g).items[i] {
        FilterArrayElement(items, f, i);
        FilterArrayElement(items, g, i);
        FilterUsesFieldSet(items[i], f, g);
      }
    case _ =>
  }

  /**
    The filter is applied one level deep: members kept from an object are not
    filtered themselves, so a nested object keeps all of its keys.
  */
  lemma KeptValuesUnfiltered(m: map<string, Json>, fields: seq<string>, k: string)
    requires k in m && k in fields
    ensures k in ApplyFieldFilter(JObject(m), fields).members
    ensures ApplyFieldFilter(JObject(m), fields).members[k] == m[k]
  {
  }

  /** Filtering an array of objects keeps, in each object, only requested keys. */
  lemma ArrayOfObjectsFiltered(items: seq<Json>, fields: seq<string>, i: nat, k: string)
    requires i < |items| && items[i].JObject?
    ensures ApplyFieldFilter(JArray(items), fields).items[i].JObject?
    ensures k in ApplyFieldFilter(JArray(items), fields).items[i].members <==> k in items[i].members && k in fields
  {
    FilterArrayElement(items, fields, i);
  }
}
