/**
 * JSON-like values as the browser holds them after `JSON.parse`.
 *
 * An object is an ordered association list: its order is the order in which
 * `Object.keys`, `Object.values` and `for..in` enumerate it. Lookup returns the
 * first entry with the key; assignment replaces that entry in place or, for a
 * key not yet present, appends a new entry, as assigning a new property does.
 */
module Json {
  import opened Wrappers

  /** A JSON value; numbers are integers in this model. `Undefined` is what a
      property holds after `obj[k] = undefined`. */
  datatype Value =
    | Undefined
    | Null
    | Bool(b: bool)
    | Num(n: int)
    | Str(s: string)
    | Arr(items: seq<Value>)
    | Obj(entries: seq<(string, Value)>)

  /** A JSON object with values of type V, in enumeration order. */
  type Fields<V> = seq<(string, V)>

  function Keys<V>(f: Fields<V>): (ks: seq<string>)
    ensures |ks| == |f|
    ensures forall i :: 0 <= i < |f| ==> ks[i] == f[i].0
  {
    if |f| == 0 then [] else [f[0].0] + Keys(f[1..])
  }

  /** `obj[k]`: the value of the first entry named k, if any. */
  function Get<V>(f: Fields<V>, k: string): Option<V>
  {
    if |f| == 0 then None
    else if f[0].0 == k then Some(f[0].1)
    else Get(f[1..], k)
  }

  /** Position of the first entry named k. */
  function IndexOf<V>(f: Fields<V>, k: string): (p: nat)
    requires k in Keys(f)
    ensures p < |f| && f[p].0 == k
    ensures forall j :: 0 <= j < p ==> f[j].0 != k
  {
    if f[0].0 == k then 0
    else 1 + IndexOf(f[1..], k)
  }

  /** `obj[k] = v`. */
  function Put<V>(f: Fields<V>, k: string, v: V): Fields<V>
  {
    if |f| == 0 then [(k, v)]
    else if f[0].0 == k then [(k, v)] + f[1..]
    else [f[0]] + Put(f[1..], k, v)
  }

  /** A key is present exactly when lookup finds it, and then lookup
      finds the first entry with that key. */
  lemma {:induction false} GetFindsFirst<V>(f: Fields<V>, k: string)
    ensures Get(f, k).Some? <==> k in Keys(f)
    ensures k in Keys(f) ==> Get(f, k) == Some(f[IndexOf(f, k)].1)
  {
    if |f| > 0 {
      if f[0].0 != k {
        GetFindsFirst(f[1..], k);
      }
    }
  }

  /** After `obj[k] = v`, reading k gives v and every other key reads as before. */
  lemma {:induction false} GetPut<V>(f: Fields<V>, k: string, v: V, k': string)
    ensures Get(Put(f, k, v), k') == if k' == k then Some(v) else Get(f, k')
  {
    if |f| > 0 && f[0].0 != k {
      GetPut(f[1..], k, v, k');
    }
  }

  /** Assigning an existing key replaces its first entry and nothing else;
      assigning a new key appends one entry at the end. */
  lemma {:induction false} PutShape<V>(f: Fields<V>, k: string, v: V)
    ensures k in Keys(f) ==> Put(f, k, v) == f[IndexOf(f, k) := (k, v)]
    ensures k !in Keys(f) ==> Put(f, k, v) == f + [(k, v)]
  {
    if |f| > 0 && f[0].0 != k {
      PutShape(f[1..], k, v);
      var rest := Put(f[1..], k, v);
      assert Put(f, k, v) == [f[0]] + rest;
      assert Keys(f) == [f[0].0] + Keys(f[1..]);
      assert k in Keys(f) <==> k in Keys(f[1..]);
      if k in Keys(f) {
        var p := IndexOf(f[1..], k);
        assert IndexOf(f, k) == p + 1;
        assert rest == f[1..][p := (k, v)];
        var lhs, rhs := [f[0]] + f[1..][p := (k, v)], f[p + 1 := (k, v)];
        assert |lhs| == |rhs|;
        forall i | 0 <= i < |lhs| ensures lhs[i] == rhs[i] {
          if i > 0 { assert lhs[i] == f[1..][p := (k, v)][i - 1]; }
        }
      } else {
        assert [f[0]] + (f[1..] + [(k, v)]) == f + [(k, v)];
      }
    }
  }

  /** Assignment keeps the key order, adding the key at the end when it is new. */
  lemma KeysPut<V>(f: Fields<V>, k: string, v: V)
    ensures Keys(Put(f, k, v)) == if k in Keys(f) then Keys(f) else Keys(f) + [k]
  {
    PutShape(f, k, v);
  }
}
