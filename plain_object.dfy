/**
 * `toPlainObject`, defined identically in the three services: a recursive
 * normaliser that replaces every database Timestamp by its ISO-8601 text and
 * rebuilds arrays and objects around the converted children.
 */
module PlainObject {
  import opened Types

  /**
   * The JSON-like values documents are made of. `JTimestamp` is the
   * database's Timestamp class; `JIsoString(at)` is the string holding the
   * ISO-8601 text of `at`, which `toDate().toISOString()` produces. An
   * object is its list of (key, value) pairs in `for...in` order.
   */
  datatype Json =
    | JNull
    | JBool(b: bool)
    | JNumber(n: int)
    | JString(s: string)
    | JIsoString(at: Instant)
    | JTimestamp(at: Instant)
    | JArray(items: seq<Json>)
    | JObject(fields: seq<(string, Json)>)

  predicate HasTimestamp(v: Json)
  {
    match v
    case JTimestamp(_) => true
    case JArray(items) => exists i :: 0 <= i < |items| && HasTimestamp(items[i])
    case JObject(fields) => exists i :: 0 <= i < |fields| && HasTimestamp(fields[i].1)
    case _ => false
  }

  /** The keys of an object in order; no keys for any other value. */
  function Keys(v: Json): seq<string>
  {
    if v.JObject? then seq(|v.fields|, i requires 0 <= i < |v.fields| => v.fields[i].0) else []
  }

  /** The value `toPlainObject` returns, as a specification. */
  function Plain(v: Json): Json
  {
    match v
    case JTimestamp(at) => JIsoString(at)
    case JArray(items) => JArray(seq(|items|, i requires 0 <= i < |items| => Plain(items[i])))
    case JObject(fields) =>
      JObject(seq(|fields|, i requires 0 <= i < |fields| => (fields[i].0, Plain(fields[i].1))))
    case _ => v
  }

  /** The output holds no Timestamp anywhere. */
  lemma {:induction false} PlainHasNoTimestamp(v: Json)
    ensures !HasTimestamp(Plain(v))
  {
    match v
    case JArray(items) =>
      forall i | 0 <= i < |items| ensures !HasTimestamp(Plain(items[i])) {
        PlainHasNoTimestamp(items[i]);
      }
    case JObject(fields) =>
      forall i | 0 <= i < |fields| ensures !HasTimestamp(Plain(fields[i].1)) {
        PlainHasNoTimestamp(fields[i].1);
      }
    case _ =>
  }

  /** Arrays keep their length and order, objects their keys and key order, and a
      Timestamp is the only kind of value that changes kind. */
  lemma PlainKeepsShape(v: Json)
    ensures v.JArray? ==>
              && Plain(v).JArray? && |Plain(v).items| == |v.items|
              && forall i :: 0 <= i < |v.items| ==> Plain(v).items[i] == Plain(v.items[i])
    ensures Keys(Plain(v)) == Keys(v)
    ensures v.JTimestamp? ==> Plain(v) == JIsoString(v.at)
    ensures !v.JTimestamp? && !v.JArray? && !v.JObject? ==> Plain(v) == v
  {
  }

  /** A value with no Timestamp inside comes back unchanged. */
  lemma {:induction false} PlainIsIdentityWithoutTimestamps(v: Json)
    requires !HasTimestamp(v)
    ensures Plain(v) == v
  {
    match v
    case JArray(items) =>
      forall i | 0 <= i < |items| ensures Plain(items[i]) == items[i] {
        PlainIsIdentityWithoutTimestamps(items[i]);
      }
      assert Plain(v).items == items;
    case JObject(fields) =>
      forall i | 0 <= i < |fields| ensures (fields[i].0, Plain(fields[i].1)) == fields[i] {
        PlainIsIdentityWithoutTimestamps(fields[i].1);
      }
      assert Plain(v).fields == fields;
    case _ =>
  }

  /** Normalising twice is normalising once. */
  lemma PlainIdempotent(v: Json)
    ensures Plain(Plain(v)) == Plain(v)
  {
    PlainHasNoTimestamp(v);
    PlainIsIdentityWithoutTimestamps(Plain(v));
  }

  /** `toPlainObject(obj)`: arrays by `map`, objects by a `for...in` loop filling `res`. */
  method ToPlainObject(v: Json) returns (r: Json)
    ensures r == Plain(v)
    decreases v
  {
    match v {
      case JTimestamp(at) =>
        r := JIsoString(at);
      case JArray(items) =>
        var out: seq<Json> := [];
        var i := 0;
        while i < |items|
          invariant 0 <= i <= |items|
          invariant |out| == i
          invariant forall k :: 0 <= k < i ==> out[k] == Plain(items[k])
        {
          var item := ToPlainObject(items[i]);
          out := out + [item];
          i := i + 1;
        }
        r := JArray(out);
      case JObject(fields) =>
        var res: seq<(string, Json)> := [];
        var i := 0;
        while i < |fields|
          invariant 0 <= i <= |fields|
          invariant |res| == i
          invariant forall k :: 0 <= k < i ==> res[k] == (fields[k].0, Plain(fields[k].1))
        {
          assert fields[i] in fields;
          var value := ToPlainObject(fields[i].1);
          res := res + [(fields[i].0, value)];
          i := i + 1;
        }
        r := JObject(res);
      case _ =>
        r := v;
    }
  }
}
