/**
 * The Python values the emulator code handles: what `json.loads` produces from
 * the manager tool's output (objects, strings, integers, booleans, null), the
 * exceptions the code lets escape when that output is not shaped as it expects,
 * and the dictionary operations it applies (`d.get(k)`, `d[k]`, `d[k] = v`).
 */
module Values {
  import opened Wrappers

  /** A decoded value. A `Dict` keeps its entries in insertion order. */
  datatype Value =
    | Null
    | Bool(b: bool)
    | Int(i: int)
    | Str(s: string)
    | Dict(items: seq<(string, Value)>)

  /** The Python exceptions the modelled code can raise. */
  datatype PyError =
    | KeyError(key: string)
    | TypeError
    | AttributeError
    | ValueError

  /** The result of a Python expression or call: a value, or an escaping exception. */
  datatype Outcome<+T> = Ok(value: T) | Raised(error: PyError)

  /** The binding of `key` in a dictionary's entries: the value of its last entry, the value `json.loads` keeps when an object repeats a key. */
  function Find(items: seq<(string, Value)>, key: string): (r: Option<Value>)
    ensures r.Some? <==> exists i :: 0 <= i < |items| && items[i].0 == key
    ensures r.Some? ==> exists i :: 0 <= i < |items| && items[i] == (key, r.value)
  {
    if |items| == 0 then None
    else if items[|items| - 1].0 == key then Some(items[|items| - 1].1)
    else
      var r := Find(items[..|items| - 1], key);
      assert forall i :: 0 <= i < |items| - 1 ==> items[..|items| - 1][i] == items[i];
      r
  }

  predicate HasKey(items: seq<(string, Value)>, key: string) {
    Find(items, key).Some?
  }

  /** `v.get(key)`: only a dictionary has `get`. */
  function Get(v: Value, key: string): (r: Outcome<Option<Value>>)
    ensures r.Ok? <==> v.Dict?
    ensures r.Ok? ==> r.value == Find(v.items, key)
  {
    if v.Dict? then Ok(Find(v.items, key)) else Raised(AttributeError)
  }

  /** `v[key]` with a string key: a missing key raises `KeyError`, a non-dictionary `TypeError`. */
  function Subscript(v: Value, key: string): (r: Outcome<Value>)
    ensures r.Ok? <==> v.Dict? && HasKey(v.items, key)
    ensures r.Ok? ==> Find(v.items, key) == Some(r.value)
    ensures r.Raised? && v.Dict? ==> r.error == KeyError(key)
    ensures !v.Dict? ==> r == Raised(TypeError)
  {
    if !v.Dict? then Raised(TypeError)
    else match Find(v.items, key)
      case None => Raised(KeyError(key))
      case Some(x) => Ok(x)
  }

  /** Rebinds every entry of `key` in place, keeping the order of the entries. */
  function Replace(items: seq<(string, Value)>, key: string, val: Value): (r: seq<(string, Value)>)
    ensures |r| == |items|
    ensures forall i :: 0 <= i < |r| ==> r[i].0 == items[i].0
    ensures forall i :: 0 <= i < |r| ==> r[i].1 == if items[i].0 == key then val else items[i].1
  {
    if |items| == 0 then []
    else
      var last := items[|items| - 1];
      Replace(items[..|items| - 1], key, val) + [if last.0 == key then (key, val) else last]
  }

  lemma {:induction false} FindReplace(items: seq<(string, Value)>, key: string, val: Value, k: string)
    ensures Find(Replace(items, key, val), k) ==
      if k == key && HasKey(items, key) then Some(val) else Find(items, k)
  {
    if |items| > 0 {
      var r := Replace(items, key, val);
      assert r[..|r| - 1] == Replace(items[..|items| - 1], key, val);
      FindReplace(items[..|items| - 1], key, val, k);
    }
  }

  lemma {:induction false} FindAppend(items: seq<(string, Value)>, key: string, val: Value, k: string)
    ensures Find(items + [(key, val)], k) == if k == key then Some(val) else Find(items, k)
  {
    assert (items + [(key, val)])[..|items|] == items;
  }

  /** `d[key] = val` on a dictionary: an existing key keeps its place, a new key goes last. */
  function Put(items: seq<(string, Value)>, key: string, val: Value): (r: seq<(string, Value)>)
    ensures Find(r, key) == Some(val)
    ensures forall k :: k != key ==> Find(r, k) == Find(items, k)
  {
    if HasKey(items, key) then
      FindReplace(items, key, val, key);
      assert forall k :: k != key ==> Find(Replace(items, key, val), k) == Find(items, k) by {
        forall k | k != key { FindReplace(items, key, val, k); }
      }
      Replace(items, key, val)
    else
      FindAppend(items, key, val, key);
      assert forall k :: k != key ==> Find(items + [(key, val)], k) == Find(items, k) by {
        forall k | k != key { FindAppend(items, key, val, k); }
      }
      items + [(key, val)]
  }
}
