/** Event payloads as decoded JSON, and the values a read-model column stores. */
module JsonValues {
  import opened Basics
  import opened Binary64
  import opened Paths

  datatype Json =
    | Null
    | Bool(b: bool)
    | Num(d: Double)
    | Str(s: string)
    | Arr(items: seq<Json>)
    | Obj(fields: map<string, Json>)

  type Payload = map<string, Json>

  /** A stored column value. `JsonText` is the text an array or object marshals to,
      kept as the tree it encodes. */
  datatype Value = NullValue | Number(n: real) | Text(s: string) | JsonText(j: Json)

  function Lookup(j: Json, segments: seq<string>): Option<Json> {
    if segments == [] then Some(j)
    else if j.Obj? && segments[0] in j.fields then Lookup(j.fields[segments[0]], segments[1..])
    else None
  }

  function AtPath(payload: Payload, path: string): Option<Json> { Lookup(Obj(payload), Segments(path)) }

  /** The fold's own walk: one segment at a time, giving up at the first that is missing. */
  method PayloadPath(payload: Payload, path: string) returns (found: Option<Json>)
    ensures found == AtPath(payload, path)
  {
    var keys := Segments(path);
    var cur := Obj(payload);
    for i := 0 to |keys|
      invariant AtPath(payload, path) == Lookup(cur, keys[i..])
    {
      if !cur.Obj? || keys[i] !in cur.fields {
        return None;
      }
      cur := cur.fields[keys[i]];
      assert keys[i..][1..] == keys[i + 1..];
    }
    return Some(cur);
  }

  /** Absent and null are different facts: a path is found exactly when every step of it
      lands on a field, whatever that field holds. */
  lemma {:induction false} LookupAppend(j: Json, a: seq<string>, b: seq<string>)
    ensures Lookup(j, a + b) == match Lookup(j, a) case None => None case Some(mid) => Lookup(mid, b)
  {
    if a == [] {
      assert a + b == b;
    } else {
      assert (a + b)[0] == a[0] && (a + b)[1..] == a[1..] + b;
      if j.Obj? && a[0] in j.fields {
        LookupAppend(j.fields[a[0]], a[1..], b);
      }
    }
  }
}
