/** Decoded JSON values and the pieces of Python semantics the client applies
    to them: truthiness, `==`, `in`, `x[key]` and iteration. */
module Json {

  /** What `response.json()` yields. Numbers are integers; objects keep the
      insertion order of a Python dict. */
  datatype Json =
    | JNull
    | JBool(b: bool)
    | JInt(i: int)
    | JStr(s: string)
    | JArr(items: seq<Json>)
    | JObj(fields: seq<(string, Json)>)

  /** A Python dict with string keys, in insertion order. */
  type Dict = seq<(string, Json)>

  /** The Python exceptions the modelled code can raise. */
  datatype Exception =
    | ValueError(message: string)
    | KeyError(key: string)
    | TypeError
    | UnboundLocalError

  datatype Option<T> = None | Some(value: T)

  datatype Result<T> = Success(value: T) | Failure(error: Exception)

  function Keys(d: Dict): set<string>
  {
    set i | 0 <= i < |d| :: d[i].0
  }

  /** A real dict never holds a key twice. */
  predicate DistinctKeys(d: Dict)
  {
    forall i, j :: 0 <= i < j < |d| ==> d[i].0 != d[j].0
  }

  /** `d.get(k)`: the value stored under `k`, if any. */
  function Get(d: Dict, k: string): (r: Option<Json>)
    ensures r.Some? <==> k in Keys(d)
    ensures r.Some? ==> (k, r.value) in d
  {
    if d == [] then None
    else if d[0].0 == k then Some(d[0].1)
    else
      KeysCons(d);
      Get(d[1..], k)
  }

  /** In a dict without repeated keys, each entry is what its key looks up. */
  lemma {:induction false} GetEntry(d: Dict, i: nat)
    requires DistinctKeys(d)
    requires i < |d|
    ensures Get(d, d[i].0) == Some(d[i].1)
    decreases |d|
  {
    if i > 0 && d[0].0 != d[i].0 {
      var tail := d[1..];
      assert tail[i - 1] == d[i];
      assert DistinctKeys(tail) by {
        forall a, b | 0 <= a < b < |tail| ensures tail[a].0 != tail[b].0 {
          assert tail[a] == d[a + 1] && tail[b] == d[b + 1];
        }
      }
      GetEntry(tail, i - 1);
    }
  }

  lemma KeysCons(d: Dict)
    requires d != []
    ensures Keys(d) == {d[0].0} + Keys(d[1..])
  {
    forall x | x in Keys(d) ensures x in {d[0].0} + Keys(d[1..]) {
      var i :| 0 <= i < |d| && d[i].0 == x;
      if i > 0 { assert d[1..][i - 1].0 == x; }
    }
    forall x | x in Keys(d[1..]) ensures x in Keys(d) {
      var i :| 0 <= i < |d[1..]| && d[1..][i].0 == x;
      assert d[i + 1].0 == x;
    }
  }

  /** `d[k] = v`: an existing key keeps its position and takes the new value,
      a new key goes at the end. */
  function Set(d: Dict, k: string, v: Json): (r: Dict)
    ensures Get(r, k) == Some(v)
    ensures forall k' :: k' != k ==> Get(r, k') == Get(d, k')
    ensures Keys(r) == Keys(d) + {k}
    ensures k !in Keys(d) ==> r == d + [(k, v)]
    decreases |d|
  {
    if d == [] then
      KeysCons([(k, v)]);
      assert Keys([(k, v)][1..]) == {};
      [(k, v)]
    else
      KeysCons(d);
      if d[0].0 == k then
        var r := [(k, v)] + d[1..];
        KeysCons(r);
        assert r[1..] == d[1..];
        assert forall k' :: k' != k ==> Get(r, k') == Get(r[1..], k');
        r
      else
        var t := Set(d[1..], k, v);
        var r := [d[0]] + t;
        KeysCons(r);
        assert r[1..] == t;
        assert Keys(r) == {d[0].0} + Keys(t);
        forall k' | k' != k ensures Get(r, k') == Get(d, k') {
          if k' != d[0].0 {
            assert Get(r, k') == Get(t, k');
          }
        }
        assert k !in Keys(d) ==> r == d + [(k, v)] by {
          assert d == [d[0]] + d[1..];
        }
        r
  }

  lemma KeysConcat(a: Dict, b: Dict)
    ensures Keys(a + b) == Keys(a) + Keys(b)
  {
    forall x | x in Keys(a + b) ensures x in Keys(a) + Keys(b) {
      var i :| 0 <= i < |a + b| && (a + b)[i].0 == x;
      if i >= |a| { assert b[i - |a|].0 == x; }
    }
    forall x | x in Keys(a) + Keys(b) ensures x in Keys(a + b) {
      if x in Keys(a) {
        var i :| 0 <= i < |a| && a[i].0 == x;
        assert (a + b)[i].0 == x;
      } else {
        var i :| 0 <= i < |b| && b[i].0 == x;
        assert (a + b)[|a| + i].0 == x;
      }
    }
  }

  /** Looking up in a dict with one more entry at the end. */
  lemma {:induction false} GetAppend(d: Dict, k: string, v: Json, key: string)
    ensures Get(d + [(k, v)], key) ==
      if key in Keys(d) then Get(d, key) else if key == k then Some(v) else None
  {
    if d != [] {
      KeysCons(d);
      assert (d + [(k, v)])[1..] == d[1..] + [(k, v)];
      GetAppend(d[1..], k, v, key);
    }
  }

  /** Assigning into a dict never duplicates a key. */
  lemma {:induction false} SetDistinct(d: Dict, k: string, v: Json)
    requires DistinctKeys(d)
    ensures DistinctKeys(Set(d, k, v))
    decreases |d|
  {
    if d != [] && d[0].0 != k {
      var tail := d[1..];
      assert DistinctKeys(tail) by {
        forall i, j | 0 <= i < j < |tail| ensures tail[i].0 != tail[j].0 {
          assert tail[i] == d[i + 1] && tail[j] == d[j + 1];
        }
      }
      assert d[0].0 !in Keys(tail) by {
        forall j | 0 <= j < |tail| ensures tail[j].0 != d[0].0 {
          assert tail[j] == d[j + 1];
        }
      }
      var t := Set(tail, k, v);
      SetDistinct(tail, k, v);
      var r := Set(d, k, v);
      assert r == [d[0]] + t;
      forall i, j | 0 <= i < j < |r| ensures r[i].0 != r[j].0 {
        assert r[j] == t[j - 1];
        assert t[j - 1].0 in Keys(t);
        if i > 0 {
          assert r[i] == t[i - 1];
        }
      }
    }
  }

  /** Python truthiness: `None`, `False`, `0`, `""`, `[]` and `{}` are falsy. */
  predicate Truthy(v: Json)
  {
    match v
    case JNull => false
    case JBool(b) => b
    case JInt(i) => i != 0
    case JStr(s) => s != ""
    case JArr(items) => items != []
    case JObj(fields) => fields != []
  }

  /** The only falsy decoded values are the six Python treats as false. */
  lemma FalsyValues(v: Json)
    ensures !Truthy(v) <==>
      v == JNull || v == JBool(false) || v == JInt(0) || v == JStr("") || v == JArr([]) || v == JObj([])
  {
  }

  function BoolAsInt(b: bool): int
  {
    if b then 1 else 0
  }

  /** What a JSON decoder produces: no object holds a key twice. */
  predicate WellFormed(a: Json)
    decreases a
  {
    match a
    case JArr(xs) => forall k :: 0 <= k < |xs| ==> WellFormed(xs[k])
    case JObj(f) => DistinctKeys(f) && forall k :: 0 <= k < |f| ==> WellFormed(f[k].1)
    case _ => true
  }

  /** Python `a == b` on decoded JSON. `bool` is a subclass of `int`, so
      `True == 1` and `False == 0`; dicts compare as unordered mappings. */
  predicate PyEq(a: Json, b: Json)
    decreases a
  {
    match a
    case JNull => b.JNull?
    case JBool(x) => (b.JBool? && b.b == x) || (b.JInt? && b.i == BoolAsInt(x))
    case JInt(i) => (b.JInt? && b.i == i) || (b.JBool? && BoolAsInt(b.b) == i)
    case JStr(s) => b.JStr? && b.s == s
    case JArr(xs) =>
      b.JArr? && |xs| == |b.items| &&
      forall k :: 0 <= k < |xs| ==> PyEq(xs[k], b.items[k])
    case JObj(f) =>
      b.JObj? && |f| == |b.fields| &&
      forall k :: 0 <= k < |f| ==>
        Get(b.fields, f[k].0).Some? && PyEq(f[k].1, Get(b.fields, f[k].0).value)
  }

  /** Every decoded value equals itself under Python `==` (there are no
      floats, so no NaN). */
  lemma {:induction false} PyEqReflexive(a: Json)
    requires WellFormed(a)
    ensures PyEq(a, a)
    decreases a
  {
    match a
    case JArr(xs) =>
      forall k | 0 <= k < |xs| ensures PyEq(xs[k], xs[k]) {
        PyEqReflexive(xs[k]);
      }
    case JObj(f) =>
      forall k | 0 <= k < |f| ensures Get(f, f[k].0) == Some(f[k].1) && PyEq(f[k].1, f[k].1) {
        GetEntry(f, k);
        PyEqReflexive(f[k].1);
      }
    case _ =>
  }

  /** A string equals only the very same string. */
  lemma PyEqString(a: Json, s: string)
    ensures PyEq(a, JStr(s)) <==> a == JStr(s)
  {
  }

  /** Python `v in xs` for a list `xs`. */
  predicate Member(xs: seq<Json>, v: Json)
  {
    exists k :: 0 <= k < |xs| && PyEq(xs[k], v)
  }

  /** `needle` occurs in `hay` starting at position `k`. */
  predicate OccursAt(needle: string, hay: string, k: nat)
  {
    k + |needle| <= |hay| && hay[k..k + |needle|] == needle
  }

  predicate IsSubstring(needle: string, hay: string)
  {
    exists k: nat :: k <= |hay| && OccursAt(needle, hay, k)
  }

  /** Python `key in x` for a string `key`: a dict tests its keys, a list its
      elements, a string its substrings; anything else is not iterable. */
  function Contains(x: Json, key: string): (r: Result<bool>)
    ensures r.Failure? <==> x.JNull? || x.JBool? || x.JInt?
    ensures r.Failure? ==> r.error == TypeError
    ensures x.JObj? ==> r == Success(key in Keys(x.fields))
    ensures x.JArr? ==> r == Success(JStr(key) in x.items)
  {
    match x
    case JObj(f) => Success(Get(f, key).Some?)
    case JArr(items) => Success(Member(items, JStr(key)))
    case JStr(s) => Success(IsSubstring(key, s))
    case _ => Failure(TypeError)
  }

  /** Python `x[key]` for a string `key`: a dict looks the key up, every other
      value refuses a string index. */
  function GetItem(x: Json, key: string): (r: Result<Json>)
    ensures r.Success? <==> x.JObj? && key in Keys(x.fields)
    ensures r.Success? ==> (key, r.value) in x.fields
    ensures r.Failure? ==> r.error == if x.JObj? then KeyError(key) else TypeError
  {
    if !x.JObj? then Failure(TypeError)
    else if Get(x.fields, key).Some? then Success(Get(x.fields, key).value)
    else Failure(KeyError(key))
  }

  /** The elements `for e in x` visits: a list's items, a dict's keys, a
      string's one-character strings. */
  function Iterate(x: Json): (r: Result<seq<Json>>)
    ensures r.Failure? <==> x.JNull? || x.JBool? || x.JInt?
    ensures x.JArr? ==> r == Success(x.items)
    ensures x.JObj? ==> (r.Success? && |r.value| == |x.fields| &&
      forall k :: 0 <= k < |x.fields| ==> r.value[k] == JStr(x.fields[k].0))
    ensures x.JStr? ==> (r.Success? && |r.value| == |x.s| &&
      forall k :: 0 <= k < |x.s| ==> r.value[k] == JStr([x.s[k]]))
  {
    match x
    case JArr(items) => Success(items)
    case JObj(f) => Success(seq(|f|, k requires 0 <= k < |f| => JStr(f[k].0)))
    case JStr(s) => Success(seq(|s|, k requires 0 <= k < |s| => JStr([s[k]])))
    case _ => Failure(TypeError)
  }
}
