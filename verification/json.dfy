/** JSON values as Python's `json` module produces them, with Python truthiness
    and the `dict` operations the tester uses (`get`, `keys`, `update`, iteration). */
module Json {
  import opened Wrappers

  /** An object is an ordered sequence of members, in insertion order, as a Python
      `dict` keeps them. Numbers are reals: only whether a number is zero matters here. */
  datatype Json =
    | Null
    | Bool(b: bool)
    | Num(n: real)
    | Str(s: string)
    | Arr(elems: seq<Json>)
    | Obj(members: seq<(string, Json)>)

  type Members = seq<(string, Json)>

  /** Python truthiness: `None`, `False`, `0`, `""`, `[]` and `{}` are falsy. */
  predicate Truthy(j: Json): (b: bool)
    ensures !b <==> j in {Null, Bool(false), Num(0.0), Str(""), Arr([]), Obj([])}
  {
    match j
    case Null => false
    case Bool(b) => b
    case Num(n) => n != 0.0
    case Str(s) => s != ""
    case Arr(es) => es != []
    case Obj(ms) => ms != []
  }

  /** The key set of an object, `set(d.keys())`. */
  function Keys(ms: Members): (ks: set<string>)
    ensures forall i :: 0 <= i < |ms| ==> ms[i].0 in ks
    ensures forall k :: k in ks ==> exists i :: 0 <= i < |ms| && ms[i].0 == k
  {
    set i | 0 <= i < |ms| :: ms[i].0
  }

  /** A Python `dict` never holds a key twice. */
  predicate DistinctKeys(ms: Members) {
    forall i, j :: 0 <= i < j < |ms| ==> ms[i].0 != ms[j].0
  }

  /** The keys of a non-empty object: its first key and the keys of the rest. */
  lemma KeysCons(ms: Members)
    requires |ms| > 0
    ensures Keys(ms) == {ms[0].0} + Keys(ms[1..])
  {
  }

  /** `d.get(k)`: the value stored under `k`, if any. */
  function Get(ms: Members, k: string): (r: Option<Json>)
    ensures r.None? <==> k !in Keys(ms)
    ensures r.Some? ==> exists i :: 0 <= i < |ms| && ms[i] == (k, r.value)
  {
    if |ms| == 0 then None
    else if ms[0].0 == k then Some(ms[0].1)
    else
      KeysCons(ms);
      var r := Get(ms[1..], k);
      assert r.Some? ==> exists i :: 0 <= i < |ms| && ms[i] == (k, r.value) by {
        if r.Some? {
          var i :| 0 <= i < |ms[1..]| && ms[1..][i] == (k, r.value);
          assert ms[i + 1] == (k, r.value);
        }
      }
      r
  }

  /** `d.get(k)` with Python's default: `None` when the key is absent. */
  function Field(ms: Members, k: string): (r: Json)
    ensures k !in Keys(ms) ==> r == Null
    ensures k in Keys(ms) ==> Get(ms, k) == Some(r)
  {
    Get(ms, k).GetOr(Null)
  }

  /** `d.update({k: v})`: an existing key keeps its position and takes the new
      value; a new key is appended at the end. */
  function Update(ms: Members, k: string, v: Json): (r: Members)
    ensures Get(r, k) == Some(v)
    ensures forall k' :: k' != k ==> Get(r, k') == Get(ms, k')
  {
    if |ms| == 0 then [(k, v)]
    else if ms[0].0 == k then
      var r := [(k, v)] + ms[1..];
      assert r[1..] == ms[1..];
      assert forall k' :: k' != k ==> Get(r, k') == Get(ms[1..], k') == Get(ms, k');
      r
    else
      var rest := Update(ms[1..], k, v);
      var r := [ms[0]] + rest;
      assert r[1..] == rest;
      assert r[0] == ms[0];
      assert forall k' :: k' != k && k' != ms[0].0 ==> Get(r, k') == Get(rest, k');
      r
  }

  /** `update` adds its key to the key set and removes none. */
  lemma UpdateKeys(ms: Members, k: string, v: Json)
    ensures Keys(Update(ms, k, v)) == Keys(ms) + {k}
  {
    var r := Update(ms, k, v);
    forall x ensures x in Keys(r) <==> x in Keys(ms) + {k} {
      if x == k {
        assert Get(r, x).Some?;
      } else {
        assert Get(r, x) == Get(ms, x);
      }
    }
  }

  /** A new key goes at the end. */
  lemma {:induction false} UpdateAppends(ms: Members, k: string, v: Json)
    requires k !in Keys(ms)
    ensures Update(ms, k, v) == ms + [(k, v)]
  {
    if |ms| > 0 {
      KeysCons(ms);
      assert ms[0].0 != k;
      UpdateAppends(ms[1..], k, v);
      calc {
        Update(ms, k, v);
        [ms[0]] + Update(ms[1..], k, v);
        [ms[0]] + (ms[1..] + [(k, v)]);
        { assert ms == [ms[0]] + ms[1..]; }
        ms + [(k, v)];
      }
    }
  }

  /** Updating an existing key leaves every position's key where it was and
      touches no member stored under another key. */
  lemma {:induction false} UpdateInPlace(ms: Members, k: string, v: Json)
    requires k in Keys(ms)
    ensures |Update(ms, k, v)| == |ms|
    ensures forall i :: 0 <= i < |ms| ==> Update(ms, k, v)[i].0 == ms[i].0
    ensures forall i :: 0 <= i < |ms| && ms[i].0 != k ==> Update(ms, k, v)[i] == ms[i]
  {
    KeysCons(ms);
    var r := Update(ms, k, v);
    if ms[0].0 == k {
      assert r == [(k, v)] + ms[1..];
      forall i | 0 <= i < |ms| ensures r[i].0 == ms[i].0 && (ms[i].0 != k ==> r[i] == ms[i]) {
        if i > 0 { assert r[i] == ms[1..][i - 1] == ms[i]; }
      }
    } else {
      var rest := Update(ms[1..], k, v);
      UpdateInPlace(ms[1..], k, v);
      assert r == [ms[0]] + rest;
      forall i | 0 <= i < |ms| ensures r[i].0 == ms[i].0 && (ms[i].0 != k ==> r[i] == ms[i]) {
        if i > 0 { assert r[i] == rest[i - 1]; assert ms[i] == ms[1..][i - 1]; }
      }
    }
  }

  /** `update` keeps a dict a dict: no key appears twice afterwards. */
  lemma UpdateKeepsKeysDistinct(ms: Members, k: string, v: Json)
    requires DistinctKeys(ms)
    ensures DistinctKeys(Update(ms, k, v))
  {
    if k in Keys(ms) {
      UpdateInPlace(ms, k, v);
    } else {
      UpdateAppends(ms, k, v);
    }
  }

  /** What `for x in j` yields: the elements of a list, the one-character strings
      of a string, the keys of an object; `None` when `iter(j)` raises `TypeError`. */
  function Iterate(j: Json): (r: Option<seq<Json>>)
    ensures r.None? <==> j.Null? || j.Bool? || j.Num?
    ensures j.Arr? ==> r == Some(j.elems)
    ensures j.Str? ==> r.Some? && |r.value| == |j.s| && forall i :: 0 <= i < |j.s| ==> r.value[i] == Str([j.s[i]])
    ensures j.Obj? ==> r.Some? && |r.value| == |j.members| && forall i :: 0 <= i < |j.members| ==> r.value[i] == Str(j.members[i].0)
  {
    match j
    case Null => None
    case Bool(_) => None
    case Num(_) => None
    case Str(s) => Some(seq(|s|, i requires 0 <= i < |s| => Str([s[i]])))
    case Arr(es) => Some(es)
    case Obj(ms) => Some(seq(|ms|, i requires 0 <= i < |ms| => Str(ms[i].0)))
  }
}
