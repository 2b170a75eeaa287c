/**
 * The Java objects the generators hand to the JSON serializer: boxed
 * numbers, booleans, strings, null, lists and insertion-ordered maps
 * (`LinkedHashMap`). The serializer's text output is not part of this model.
 */
module JsonValue {
  import opened JavaText

  datatype JValue =
    | JNull
    | JInt(i: int)
    | JLong(l: int)
    | JDouble(d: string)
    | JFloat(f: string)
    | JBool(b: bool)
    | JString(s: string)
    | JArray(items: seq<JValue>)
    | JObject(entries: seq<Entry>)

  datatype Entry = Entry(key: JValue, value: JValue)

  /** The keys of an insertion-ordered map, in order. */
  function Keys(es: seq<Entry>): (ks: seq<JValue>)
    ensures |ks| == |es|
    ensures forall i :: 0 <= i < |es| ==> ks[i] == es[i].key
  {
    if es == [] then [] else [es[0].key] + Keys(es[1..])
  }

  /** `get`: the value under key `k`, or None when `k` is absent. */
  function Lookup(es: seq<Entry>, k: JValue): (r: Option<JValue>)
    ensures r.Some? <==> k in Keys(es)
  {
    if es == [] then None
    else if es[0].key == k then Some(es[0].value)
    else Lookup(es[1..], k)
  }

  /**
   * `LinkedHashMap.put`: a present key keeps its position and takes the new
   * value; an absent key is appended last. Every other key keeps its value.
   */
  function Put(es: seq<Entry>, k: JValue, v: JValue): (r: seq<Entry>)
    ensures Keys(r) == if k in Keys(es) then Keys(es) else Keys(es) + [k]
    ensures Lookup(r, k) == Some(v)
  {
    if es == [] then [Entry(k, v)]
    else if es[0].key == k then [Entry(k, v)] + es[1..]
    else
      var rest := Put(es[1..], k, v);
      assert Keys([es[0]] + rest) == [es[0].key] + Keys(rest);
      [es[0]] + rest
  }

  /** A put leaves every other key's value alone. */
  lemma {:induction false} PutOthers(es: seq<Entry>, k: JValue, v: JValue, other: JValue)
    requires other != k
    ensures Lookup(Put(es, k, v), other) == Lookup(es, other)
  {
    if es != [] && es[0].key != k {
      var rest := Put(es[1..], k, v);
      assert Put(es, k, v) == [es[0]] + rest;
      assert ([es[0]] + rest)[1..] == rest;
      PutOthers(es[1..], k, v, other);
    }
  }
}
