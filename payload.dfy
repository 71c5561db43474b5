/**
 * The decoded JSON body of a webhook request, and the three Python
 * operations the receiver applies to it: truth testing (`if not payload`),
 * key lookup (`payload['a']['b']`) and `str(...)`.
 */
module Payload {
  import opened Wrappers
  import opened Decimal

  /** A JSON value. Numbers are integers; objects map keys to values. */
  datatype Json =
    | JNull
    | JBool(b: bool)
    | JInt(i: int)
    | JString(s: string)
    | JArray(items: seq<Json>)
    | JObject(fields: map<string, Json>)

  /** Python truth testing of the decoded value: None, False, 0 and empty containers are false. */
  predicate Truthy(v: Json) {
    match v
    case JNull => false
    case JBool(b) => b
    case JInt(i) => i != 0
    case JString(s) => |s| > 0
    case JArray(items) => |items| > 0
    case JObject(fields) => |fields| > 0
  }

  /**
   * `v[path[0]][path[1]]...`: `None` where Python would raise, because a key
   * is missing (KeyError) or a value on the way is not an object (TypeError).
   */
  function Lookup(v: Json, path: seq<string>): (r: Option<Json>)
    ensures |path| == 0 ==> r == Some(v)
    ensures (|path| > 0 && r.Some?) ==> v.JObject? && path[0] in v.fields
    decreases |path|
  {
    if |path| == 0 then Some(v)
    else if v.JObject? && path[0] in v.fields then Lookup(v.fields[path[0]], path[1..])
    else None
  }

  /** A string found at `path`: `None` if it is missing or not a string. */
  function TextAt(v: Json, path: seq<string>): (r: Option<string>)
    ensures r.Some? <==> Lookup(v, path).Some? && Lookup(v, path).value.JString?
    ensures r.Some? ==> Lookup(v, path) == Some(JString(r.value))
  {
    match Lookup(v, path)
    case Some(JString(s)) => Some(s)
    case _ => None
  }

  /** Python's `str(x)` of a decoded JSON scalar; arrays and objects are not rendered. */
  function PyStr(v: Json): (r: Option<string>)
    ensures v.JInt? ==> r.Some? && ParseInt(r.value) == Some(v.i)
    ensures v.JString? ==> r == Some(v.s)
    ensures (v.JArray? || v.JObject?) <==> r.None?
  {
    match v
    case JNull => Some("None")
    case JBool(b) => Some(if b then "True" else "False")
    case JInt(i) =>
      IntRoundTrips(i, "");
      Some(IntToString(i))
    case JString(s) => Some(s)
    case _ => None
  }

  /** A value found at any path makes the whole payload true. */
  lemma LookupMakesTruthy(v: Json, path: seq<string>)
    requires |path| > 0 && Lookup(v, path).Some?
    ensures Truthy(v)
  {
    assert path[0] in v.fields;
  }

  /**
   * Indexing along `a + b` is indexing along `a`, then along `b` from the
   * value found; it fails exactly when either stage fails.
   */
  lemma {:induction false} LookupAppend(v: Json, a: seq<string>, b: seq<string>)
    ensures Lookup(v, a + b) == (match Lookup(v, a)
                                 case Some(w) => Lookup(w, b)
                                 case None => None)
    decreases |a|
  {
    if |a| == 0 {
      assert a + b == b;
    } else {
      assert (a + b)[0] == a[0];
      assert (a + b)[1..] == a[1..] + b;
      if v.JObject? && a[0] in v.fields {
        LookupAppend(v.fields[a[0]], a[1..], b);
      }
    }
  }

  /** A path reaches a value exactly when each key in turn is a field of the object reached so far. */
  lemma {:induction false} LookupStep(v: Json, path: seq<string>)
    requires |path| > 0
    ensures Lookup(v, path).Some? <==>
              Lookup(v, path[..|path| - 1]).Some? &&
              Lookup(v, path[..|path| - 1]).value.JObject? &&
              path[|path| - 1] in Lookup(v, path[..|path| - 1]).value.fields
    ensures Lookup(v, path).Some? ==>
              Lookup(v, path).value == Lookup(v, path[..|path| - 1]).value.fields[path[|path| - 1]]
  {
    var init, last := path[..|path| - 1], path[|path| - 1];
    assert path == init + [last];
    LookupAppend(v, init, [last]);
    if Lookup(v, init).Some? {
      var w := Lookup(v, init).value;
      assert [last][1..] == [];
      if w.JObject? && last in w.fields {
        assert Lookup(w, [last]) == Some(w.fields[last]);
      }
    }
  }
}
