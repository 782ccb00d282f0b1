/**
  Claim values as they sit in a token body. A claim set maps claim names to
  JSON values; the external-roles claim is written as a JSON array of strings.
 */
module Claims {
  import opened Wrappers

  /** The JSON shapes a claim value can take. */
  datatype Json =
    | JNull
    | JBool(b: bool)
    | JNumber(n: int)
    | JString(s: string)
    | JArray(items: seq<Json>)
    | JObject(fields: map<string, Json>)

  /** A claim set: `token.getOtherClaims()`, or the claims of a decoded token. */
  type ClaimSet = map<string, Json>

  /** How a `List<String>` is written into a token: one JSON string per element, in order. */
  function StringList(xs: seq<string>): (v: Json)
    ensures v.JArray? && |v.items| == |xs|
    ensures forall i :: 0 <= i < |xs| ==> v.items[i] == JString(xs[i])
  {
    if xs == [] then JArray([]) else JArray([JString(xs[0])] + StringList(xs[1..]).items)
  }

  /** The strings of a list whose every element is a string; None for any other list. */
  function StringItems(items: seq<Json>): (r: Option<seq<string>>)
    ensures r.Some? <==> forall i :: 0 <= i < |items| ==> items[i].JString?
    ensures r.Some? ==> |r.value| == |items| && forall i :: 0 <= i < |items| ==> items[i] == JString(r.value[i])
  {
    if items == [] then Some([])
    else if !items[0].JString? then None
    else match StringItems(items[1..])
      case None => None
      case Some(rest) => Some([items[0].s] + rest)
  }

  /** Reads a claim value back as a list of strings: only an array of strings is one. */
  function AsStrings(v: Json): Option<seq<string>> {
    if v.JArray? then StringItems(v.items) else None
  }

  /** Reading back what `StringList` wrote gives the same list. */
  lemma StringListRoundTrip(xs: seq<string>)
    ensures AsStrings(StringList(xs)) == Some(xs)
  {
    var v := StringList(xs);
    var r := StringItems(v.items);
    assert r.value == xs;
  }

  /** Any value that reads as a list of strings is the encoding of that list. */
  lemma AsStringsInverse(v: Json)
    requires AsStrings(v).Some?
    ensures StringList(AsStrings(v).value) == v
  {
    assert StringList(AsStrings(v).value).items == v.items;
  }
}
