/**
 * The part of the `json` crate's `JsonValue` that the core uses: indexing by
 * key and by position, `len`, `push`, `as_str`, `remove` and `array_remove`,
 * with the crate's behaviour on values of the wrong shape (a missing key or an
 * out-of-range index reads as null, `push` on a non-array does nothing).
 */
module Json {
  import opened Wrappers

  /** A JSON value; objects are keyed maps (the crate's key order is not modelled). */
  datatype Json =
    | Null
    | Bool(b: bool)
    | Number(n: int)
    | Str(s: string)
    | Arr(items: seq<Json>)
    | Obj(fields: map<string, Json>)

  /** `j.as_str()`. */
  function AsStr(j: Json): Option<string> {
    if j.Str? then Some(j.s) else None
  }

  /** `j[key]`: the field of an object, null for a missing key or a non-object. */
  function Get(j: Json, key: string): Json {
    if j.Obj? && key in j.fields then j.fields[key] else Null
  }

  /** `j.len()`: entries of an array or object, 0 for anything else. */
  function Len(j: Json): nat {
    match j
    case Arr(items) => |items|
    case Obj(fields) => |fields|
    case _ => 0
  }

  /** `j[i]`: an array element, null out of range and for every non-array. */
  function At(j: Json, i: nat): Json {
    if j.Arr? && i < |j.items| then j.items[i] else Null
  }

  /** What a `for i in 0..j.len() { j[i] }` loop visits. */
  function Items(j: Json): (r: seq<Json>)
    ensures |r| == Len(j)
    ensures j.Arr? ==> r == j.items
    ensures !j.Arr? ==> forall i :: 0 <= i < |r| ==> r[i] == Null
  {
    seq(Len(j), i requires 0 <= i < Len(j) => At(j, i))
  }

  /** `let _ = j.push(v)`: appends to an array; on anything else the error is dropped. */
  function Push(j: Json, v: Json): Json {
    if j.Arr? then Arr(j.items + [v]) else j
  }

  /** The source's repeated "`array![v]` if null, else push" step. */
  function AppendOrCreate(j: Json, v: Json): (r: Json)
    ensures j.Null? || j.Arr? ==> r.Arr? && Items(r) == Items(j) + [v]
    ensures !(j.Null? || j.Arr?) ==> r == j
  {
    if j.Null? then Arr([v]) else Push(j, v)
  }

  /** `j[key] = v` on an object (other shapes are left as they are). */
  function Set(j: Json, key: string, v: Json): (r: Json)
    ensures j.Obj? ==> r.Obj? && Get(r, key) == v
    ensures forall k :: k != key ==> Get(r, k) == Get(j, k)
  {
    if j.Obj? then Obj(j.fields[key := v]) else j
  }

  /** `j.remove(key)` on an object. */
  function RemoveKey(j: Json, key: string): (r: Json)
    ensures Get(r, key) == Null
    ensures forall k :: k != key ==> Get(r, k) == Get(j, k)
    ensures !j.Obj? ==> r == j
  {
    if j.Obj? then Obj(j.fields - {key}) else j
  }

  /** `j.array_remove(i)` for an in-range index: the array without element `i`. */
  function RemoveAt(j: Json, i: nat): (r: Json)
    requires j.Arr? && i < |j.items|
    ensures r.Arr? && |r.items| == |j.items| - 1
    ensures r.items == j.items[..i] + j.items[i + 1..]
  {
    Arr(j.items[..i] + j.items[i + 1..])
  }
}
