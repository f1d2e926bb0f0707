/** A Python dict as an association list in insertion order. Lookup,
    assignment (`d[k] = v`, last write wins and keeps the key's position) and
    `setdefault` (first write wins) are the three operations the plugins use. */
module Dicts {
  import opened Base

  type Dict<K, V> = seq<(K, V)>

  /** The keys in insertion order. */
  function Keys<K, V>(d: Dict<K, V>): (ks: seq<K>)
    ensures |ks| == |d|
    ensures forall i :: 0 <= i < |d| ==> ks[i] == d[i].0
  {
    if d == [] then [] else [d[0].0] + Keys(d[1..])
  }

  /** The values in insertion order. */
  function Values<K, V>(d: Dict<K, V>): (vs: seq<V>)
    ensures |vs| == |d|
    ensures forall i :: 0 <= i < |d| ==> vs[i] == d[i].1
  {
    if d == [] then [] else [d[0].1] + Values(d[1..])
  }

  /** No key occurs twice, as in every Python dict. */
  predicate DistinctKeys<K(==), V>(d: Dict<K, V>) {
    forall i, j :: 0 <= i < j < |d| ==> d[i].0 != d[j].0
  }

  /** `d.get(k)`. */
  function Get<K(==), V>(d: Dict<K, V>, k: K): Option<V> {
    if d == [] then None else if d[0].0 == k then Some(d[0].1) else Get(d[1..], k)
  }

  /** A key is found exactly when it is one of the keys, and then with a
      value stored under it. */
  lemma {:induction false} GetKeys<K, V>(d: Dict<K, V>, k: K)
    ensures Get(d, k).Some? <==> k in Keys(d)
    ensures Get(d, k).Some? ==> (k, Get(d, k).value) in d
  {
    if d != [] {
      GetKeys(d[1..], k);
      assert Keys(d) == [d[0].0] + Keys(d[1..]);
    }
  }

  /** `d.get(k, default)`. */
  function GetOr<K(==), V>(d: Dict<K, V>, k: K, default: V): V {
    match Get(d, k)
    case Some(v) => v
    case None => default
  }

  /** `d[k] = v`: the key maps to the new value and every other key keeps its
      value. */
  function Set<K(==, !new), V>(d: Dict<K, V>, k: K, v: V): (r: Dict<K, V>)
    ensures forall k' :: Get(r, k') == if k' == k then Some(v) else Get(d, k')
  {
    if d == [] then [(k, v)]
    else if d[0].0 == k then [(k, v)] + d[1..]
    else [d[0]] + Set(d[1..], k, v)
  }

  /** A present key keeps its position under `d[k] = v`, a new key goes to
      the end. */
  lemma {:induction false} SetKeys<K(!new), V>(d: Dict<K, V>, k: K, v: V)
    ensures Keys(Set(d, k, v)) == if Get(d, k).Some? then Keys(d) else Keys(d) + [k]
  {
    if d != [] && d[0].0 != k {
      SetKeys(d[1..], k, v);
    }
  }

  /** `d.setdefault(k, v)`: only a missing key is inserted, at the end. */
  function SetDefault<K(==), V>(d: Dict<K, V>, k: K, v: V): Dict<K, V> {
    if Get(d, k).Some? then d else d + [(k, v)]
  }

  lemma {:induction false} GetAppend<K, V>(d: Dict<K, V>, k: K, v: V, k': K)
    ensures Get(d + [(k, v)], k') == if Get(d, k').Some? then Get(d, k') else if k' == k then Some(v) else None
  {
    if d != [] {
      assert (d + [(k, v)])[1..] == d[1..] + [(k, v)];
      GetAppend(d[1..], k, v, k');
    }
  }

  /** `setdefault` never changes a present key and fills only a missing one. */
  lemma SetDefaultGet<K, V>(d: Dict<K, V>, k: K, v: V, k': K)
    ensures Get(SetDefault(d, k, v), k') == if k' == k && Get(d, k).None? then Some(v) else Get(d, k')
  {
    if Get(d, k).None? {
      GetAppend(d, k, v, k');
    }
  }

  /** `setdefault` for every key at once. */
  lemma SetDefaultGetAll<K, V>(d: Dict<K, V>, k: K, v: V)
    ensures forall k' :: Get(SetDefault(d, k, v), k') == if k' == k && Get(d, k).None? then Some(v) else Get(d, k')
  {
    forall k' {
      SetDefaultGet(d, k, v, k');
    }
  }

  /** Both writes keep the keys of a dict distinct. */
  lemma SetKeepsDistinct<K(!new), V>(d: Dict<K, V>, k: K, v: V)
    requires DistinctKeys(d)
    ensures DistinctKeys(Set(d, k, v)) && DistinctKeys(SetDefault(d, k, v))
  {
    var r := Set(d, k, v);
    SetKeys(d, k, v);
    GetKeys(d, k);
    assert forall i :: 0 <= i < |r| ==> r[i].0 == Keys(r)[i];
    assert forall i :: 0 <= i < |d| ==> d[i].0 == Keys(d)[i];
  }

  /** Lookup in a dict split into its entries but the last and its last entry. */
  lemma GetLast<K, V>(d: Dict<K, V>, k: K)
    requires d != []
    ensures Get(d, k) == if Get(d[..|d| - 1], k).Some? then Get(d[..|d| - 1], k)
                         else if d[|d| - 1].0 == k then Some(d[|d| - 1].1) else None
  {
    assert d == d[..|d| - 1] + [d[|d| - 1]];
    GetAppend(d[..|d| - 1], d[|d| - 1].0, d[|d| - 1].1, k);
  }

  /** `dict(pairs)`: a later pair overwrites an earlier one with the same key. */
  function FromPairs<K(==, !new), V>(ps: seq<(K, V)>): Dict<K, V> {
    if ps == [] then [] else Set(FromPairs(ps[..|ps| - 1]), ps[|ps| - 1].0, ps[|ps| - 1].1)
  }

  /** A key is present exactly when some pair carries it. */
  lemma {:induction false} FromPairsKeys<K(!new), V>(ps: seq<(K, V)>, k: K)
    ensures Get(FromPairs(ps), k).None? <==> forall i :: 0 <= i < |ps| ==> ps[i].0 != k
  {
    if ps != [] {
      var p := ps[..|ps| - 1];
      FromPairsKeys(p, k);
      assert Get(FromPairs(ps), k) == if ps[|ps| - 1].0 == k then Some(ps[|ps| - 1].1) else Get(FromPairs(p), k);
      assert forall i :: 0 <= i < |p| ==> p[i] == ps[i];
    }
  }

  /** A key maps to the value of its last pair. */
  lemma {:induction false} FromPairsLastWins<K(!new), V>(ps: seq<(K, V)>, i: nat)
    requires i < |ps| && forall j :: i < j < |ps| ==> ps[j].0 != ps[i].0
    ensures Get(FromPairs(ps), ps[i].0) == Some(ps[i].1)
  {
    if i < |ps| - 1 {
      var p := ps[..|ps| - 1];
      assert forall j :: i < j < |p| ==> p[j] == ps[j];
      FromPairsLastWins(p, i);
    }
  }

  /** `dict(pairs)` has distinct keys. */
  lemma {:induction false} FromPairsDistinct<K(!new), V>(ps: seq<(K, V)>)
    ensures DistinctKeys(FromPairs(ps))
  {
    if ps != [] {
      FromPairsDistinct(ps[..|ps| - 1]);
      SetKeepsDistinct(FromPairs(ps[..|ps| - 1]), ps[|ps| - 1].0, ps[|ps| - 1].1);
    }
  }

  /** `d.setdefault(k1, {}).setdefault(k2, v)` on a dict of dicts. */
  function SetDefaultIn<K1(==, !new), K2(==), V>(d: Dict<K1, Dict<K2, V>>, k1: K1, k2: K2, v: V): Dict<K1, Dict<K2, V>> {
    Set(d, k1, SetDefault(GetOr(d, k1, []), k2, v))
  }

  /** In a dict with distinct keys, every pair is what a lookup finds. */
  lemma {:induction false} GetOfDistinct<K, V>(d: Dict<K, V>, k: K, v: V)
    requires DistinctKeys(d) && (k, v) in d
    ensures Get(d, k) == Some(v)
  {
    if d[0] != (k, v) {
      assert DistinctKeys(d[1..]);
      assert (k, v) in d[1..];
      GetOfDistinct(d[1..], k, v);
      assert d[0].0 != k by {
        var j :| 0 <= j < |d| && d[j] == (k, v);
      }
    }
  }

  /** The values of rows that all succeeded. */
  function OkValues<T>(rows: seq<Result<T>>): (r: seq<T>)
    requires forall i :: 0 <= i < |rows| ==> rows[i].Ok?
    ensures |r| == |rows| && forall i :: 0 <= i < |rows| ==> r[i] == rows[i].value
  {
    if rows == [] then [] else OkValues(rows[..|rows| - 1]) + [rows[|rows| - 1].value]
  }

  /** A list comprehension whose element expression may raise: the values
      in order, or the error of the first element that raised. */
  function Collect<T>(rows: seq<Result<T>>): (r: Result<seq<T>>)
    ensures r.Ok? <==> forall i :: 0 <= i < |rows| ==> rows[i].Ok?
    ensures r.Ok? ==> r.value == OkValues(rows)
    ensures r.Raised? ==>
      exists k :: 0 <= k < |rows| && rows[k] == Raised(r.error) && forall j :: 0 <= j < k ==> rows[j].Ok?
  {
    if rows == [] then Ok([])
    else
      var init := rows[..|rows| - 1];
      assert forall i :: 0 <= i < |init| ==> init[i] == rows[i];
      match Collect(init)
      case Raised(e) => Raised(e)
      case Ok(vs) =>
        match rows[|rows| - 1]
        case Raised(e) => Raised(e)
        case Ok(v) => Ok(vs + [v])
  }

  /** A loop `d[k] = v` over rows computed one by one, where computing a row
      may raise: the first row that raised is the outcome. */
  function AssignAll<K(==, !new), V>(rows: seq<Result<(K, V)>>): Result<Dict<K, V>> {
    if rows == [] then Ok([])
    else
      match AssignAll(rows[..|rows| - 1])
      case Raised(e) => Raised(e)
      case Ok(d) =>
        match rows[|rows| - 1]
        case Raised(e) => Raised(e)
        case Ok(kv) => Ok(Set(d, kv.0, kv.1))
  }

  /** Without a raising row the loop builds `dict(pairs)`; with one it raises. */
  lemma {:induction false} AssignAllOk<K(!new), V>(rows: seq<Result<(K, V)>>)
    ensures AssignAll(rows).Ok? <==> forall i :: 0 <= i < |rows| ==> rows[i].Ok?
    ensures AssignAll(rows).Ok? ==> AssignAll(rows).value == FromPairs(OkValues(rows))
  {
    if rows != [] {
      var p := rows[..|rows| - 1];
      AssignAllOk(p);
      assert forall i :: 0 <= i < |p| ==> p[i] == rows[i];
      if AssignAll(rows).Ok? {
        assert OkValues(rows)[..|rows| - 1] == OkValues(p);
      }
    }
  }

  /** One more row of the loop: its assignment, or its error. */
  lemma AssignAllNext<K(!new), V>(rows: seq<Result<(K, V)>>, i: nat)
    requires i < |rows| && AssignAll(rows[..i]).Ok?
    ensures rows[i].Ok? ==> AssignAll(rows[..i + 1]) == Ok(Set(AssignAll(rows[..i]).value, rows[i].value.0, rows[i].value.1))
    ensures rows[i].Raised? ==> AssignAll(rows[..i + 1]) == Raised(rows[i].error)
  {
    assert rows[..i + 1][..i] == rows[..i];
  }

  /** Once raised, later rows do not matter. */
  lemma {:induction false} AssignAllRaisedStays<K(!new), V>(rows: seq<Result<(K, V)>>, k: nat)
    requires k <= |rows| && AssignAll(rows[..k]).Raised?
    ensures AssignAll(rows) == AssignAll(rows[..k])
  {
    if k < |rows| {
      var p := rows[..|rows| - 1];
      assert p[..k] == rows[..k];
      AssignAllRaisedStays(p, k);
    } else {
      assert rows[..k] == rows;
    }
  }
}
