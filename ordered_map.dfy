/**
 * An insertion-ordered dictionary: the sequence of (key, value) entries with pairwise distinct keys.
 * It stands for a JavaScript `Map` and for a .NET `Dictionary`: `set` on a present key
 * overwrites the value where it stands, `set` on an absent key appends, `delete` drops the
 * entry and keeps the order of the others, `size` is the number of entries, and iteration
 * visits the entries in order.
 */
module OrderedMap {
  import opened Wrappers

  predicate DistinctKeys<K(==), V>(s: seq<(K, V)>) {
    forall i, j | 0 <= i < j < |s| :: s[i].0 != s[j].0
  }

  type OMap<K(==), V> = s: seq<(K, V)> | DistinctKeys(s) witness []

  function Keys<K, V>(m: seq<(K, V)>): (ks: seq<K>)
    ensures |ks| == |m|
    ensures forall i | 0 <= i < |m| :: ks[i] == m[i].0
  {
    seq(|m|, i requires 0 <= i < |m| => m[i].0)
  }

  function Values<K, V>(m: seq<(K, V)>): (vs: seq<V>)
    ensures |vs| == |m|
    ensures forall i | 0 <= i < |m| :: vs[i] == m[i].1
  {
    seq(|m|, i requires 0 <= i < |m| => m[i].1)
  }

  /** The position of the first entry with key `k`. */
  function IndexOf<K(==), V>(m: seq<(K, V)>, k: K): (r: Option<nat>)
    ensures r.None? <==> k !in Keys(m)
    ensures r.Some? ==> r.value < |m| && m[r.value].0 == k
    ensures r.Some? ==> forall j | 0 <= j < r.value :: m[j].0 != k
    decreases |m|
  {
    if m == [] then None
    else
      var n := |m| - 1;
      assert forall j | 0 <= j < n :: m[..n][j] == m[j];
      match IndexOf(m[..n], k)
      case Some(i) => Some(i)
      case None => if m[n].0 == k then Some(n) else None
  }

  /** The value stored under `k`, `None` when the key is absent (`Map.get`, `TryGetValue`). */
  function Get<K(==), V>(m: OMap<K, V>, k: K): (r: Option<V>)
    ensures r.Some? <==> k in Keys(m)
  {
    match IndexOf(m, k)
    case Some(i) => Some(m[i].1)
    case None => None
  }

  predicate Has<K(==), V>(m: OMap<K, V>, k: K) {
    k in Keys(m)
  }

  /** `map.set(k, v)` / `dictionary[k] = v`. */
  function Set<K(==,!new), V>(m: OMap<K, V>, k: K, v: V): (r: OMap<K, V>)
    ensures Get(r, k) == Some(v)
    ensures forall x | x != k :: Get(r, x) == Get(m, x)
    ensures Keys(r) == if k in Keys(m) then Keys(m) else Keys(m) + [k]
    ensures k !in Keys(m) ==> r == m + [(k, v)]
  {
    match IndexOf(m, k)
    case Some(i) =>
      var r := m[i := (k, v)];
      assert Keys(r) == Keys(m);
      IndexOfSameKeys(r, m, k);
      forall x | x != k ensures IndexOf(r, x) == IndexOf(m, x) {
        IndexOfSameKeys(r, m, x);
      }
      r
    case None =>
      var r := m + [(k, v)];
      assert Keys(r) == Keys(m) + [k];
      SnocDistinct(m, (k, v));
      forall x ensures IndexOf(r, x) == if x in Keys(m) then IndexOf(m, x) else if x == k then Some(|m|) else None {
        IndexOfSnoc(m, (k, v), x);
      }
      r
  }

  /** `map.delete(k)` / `dictionary.Remove(k)`: no effect when the key is absent. */
  function Delete<K(==,!new), V>(m: OMap<K, V>, k: K): (r: OMap<K, V>)
    ensures Get(r, k) == None
    ensures forall x | x != k :: Get(r, x) == Get(m, x)
    ensures forall x :: x in Keys(r) <==> x in Keys(m) && x != k
    ensures k !in Keys(m) ==> r == m
    ensures |r| == if k in Keys(m) then |m| - 1 else |m|
  {
    match IndexOf(m, k)
    case None => m
    case Some(i) =>
      RemoveAtFacts(m, i);
      m[..i] + m[i + 1..]
  }

  /** Looking up the key of an entry finds that entry. */
  lemma {:induction false} GetEntry<K, V>(m: OMap<K, V>, i: nat)
    requires i < |m|
    ensures IndexOf(m, m[i].0) == Some(i)
    ensures Get(m, m[i].0) == Some(m[i].1)
  {
    var r := IndexOf(m, m[i].0);
    assert r.Some? by { assert Keys(m)[i] == m[i].0; }
  }

  /** A key is stored with a value exactly when that entry is in the dictionary. */
  lemma {:induction false} GetMembers<K, V>(m: OMap<K, V>, k: K, v: V)
    ensures Get(m, k) == Some(v) <==> (k, v) in m
  {
    if Get(m, k) == Some(v) {
      var i := IndexOf(m, k).value;
      assert m[i] == (k, v);
    }
    if (k, v) in m {
      var i :| 0 <= i < |m| && m[i] == (k, v);
      GetEntry(m, i);
    }
  }

  /** A value is listed by `Values` exactly when some key is stored with it. */
  lemma {:induction false} ValuesGet<K, V>(m: OMap<K, V>, v: V)
    ensures (exists i | 0 <= i < |m| :: Values(m)[i] == v) <==> exists k :: Get(m, k) == Some(v)
  {
    var vs := Values(m);
    if i :| 0 <= i < |m| && vs[i] == v {
      GetEntry(m, i);
    }
    if k :| Get(m, k) == Some(v) {
      var i := IndexOf(m, k).value;
      assert vs[i] == v;
    }
  }

  /** Filtering a dictionary keeps the value of a key exactly when that value is kept. */
  lemma {:induction false} FilterValuesGet<K, V>(m: OMap<K, V>, keep: V -> bool, k: K)
    ensures Get(FilterValues(m, keep), k) == if Get(m, k).Some? && keep(Get(m, k).value) then Get(m, k) else None
  {
    var r := FilterValues(m, keep);
    if Get(r, k).Some? {
      var w := Get(r, k).value;
      GetMembers(r, k, w);
      FilterMembers(m, keep, (k, w));
      GetMembers(m, k, w);
    }
    if Get(m, k).Some? && keep(Get(m, k).value) {
      var v := Get(m, k).value;
      GetMembers(m, k, v);
      FilterMembers(m, keep, (k, v));
      GetMembers(r, k, v);
    }
  }

  /** Deleting the key of an entry drops exactly that entry and keeps the others in order. */
  lemma {:induction false} DeleteAt<K(!new), V>(m: OMap<K, V>, i: nat)
    requires i < |m|
    ensures Delete(m, m[i].0) == m[..i] + m[i + 1..]
  {
    GetEntry(m, i);
  }

  /** Setting a key twice is setting it once to the second value, at the position of the first. */
  lemma {:induction false} SetTwice<K(!new), V>(m: OMap<K, V>, k: K, v1: V, v2: V)
    ensures Set(Set(m, k, v1), k, v2) == Set(m, k, v2)
  {
    var r := Set(m, k, v1);
    match IndexOf(m, k)
    case Some(i) =>
      assert r == m[i := (k, v1)];
      IndexOfSameKeys(r, m, k);
    case None =>
      assert r == m + [(k, v1)];
      IndexOfSnoc(m, (k, v1), k);
      assert r[|m| := (k, v2)] == m + [(k, v2)];
  }

  /** Every entry after `Set` is the new one or was there before. */
  lemma {:induction false} SetMembers<K(!new), V>(m: OMap<K, V>, k: K, v: V, e: (K, V))
    requires e in Set(m, k, v)
    ensures e in m || e == (k, v)
  {
    var r := Set(m, k, v);
    var p :| 0 <= p < |r| && r[p] == e;
    if e != (k, v) {
      match IndexOf(m, k)
      case Some(i) =>
        assert r == m[i := (k, v)];
        assert p != i && r[p] == m[p];
      case None =>
        assert r == m + [(k, v)];
        assert r[p] == m[p];
    }
  }

  /** Every entry after `Delete` was there before. */
  lemma {:induction false} DeleteMembers<K(!new), V>(m: OMap<K, V>, k: K, e: (K, V))
    requires e in Delete(m, k)
    ensures e in m
  {
    match IndexOf(m, k)
    case None =>
    case Some(i) =>
      var r := m[..i] + m[i + 1..];
      assert Delete(m, k) == r;
      var p :| 0 <= p < |r| && r[p] == e;
      assert r[p] == if p < i then m[p] else m[p + 1];
  }

  /** Keeps the entries whose value satisfies `keep`, in order. */
  function Filter<K, V>(s: seq<(K, V)>, keep: V -> bool): (r: seq<(K, V)>)
    decreases |s|
  {
    if s == [] then []
    else
      var n := |s| - 1;
      var front := Filter(s[..n], keep);
      if keep(s[n].1) then front + [s[n]] else front
  }

  /** `Filter` of a dictionary is a dictionary. */
  function FilterValues<K(==), V>(m: OMap<K, V>, keep: V -> bool): (r: OMap<K, V>)
  {
    FilterKeys(m, keep);
    Filter(m, keep)
  }

  lemma {:induction false} FilterKeys<K, V>(s: seq<(K, V)>, keep: V -> bool)
    ensures forall x | x in Keys(Filter(s, keep)) :: x in Keys(s)
    ensures DistinctKeys(s) ==> DistinctKeys(Filter(s, keep))
    decreases |s|
  {
    if s != [] {
      var n := |s| - 1;
      var front := Filter(s[..n], keep);
      FilterKeys(s[..n], keep);
      assert forall x | x in Keys(s[..n]) :: x in Keys(s) by {
        forall x | x in Keys(s[..n]) ensures x in Keys(s) {
          var j :| 0 <= j < n && Keys(s[..n])[j] == x;
          assert Keys(s)[j] == x;
        }
      }
      if keep(s[n].1) {
        assert Keys(front + [s[n]]) == Keys(front) + [s[n].0];
        assert s[n].0 in Keys(s) by { assert Keys(s)[n] == s[n].0; }
        if DistinctKeys(s) {
          assert s[n].0 !in Keys(s[..n]) by {
            forall j | 0 <= j < n ensures Keys(s[..n])[j] != s[n].0 {
              assert s[..n][j] == s[j];
            }
          }
          SnocDistinct(front, s[n]);
        }
      }
    }
  }

  lemma {:induction false} FilterMembers<K, V>(s: seq<(K, V)>, keep: V -> bool, e: (K, V))
    ensures e in Filter(s, keep) <==> e in s && keep(e.1)
    decreases |s|
  {
    if s != [] {
      var n := |s| - 1;
      FilterMembers(s[..n], keep, e);
      assert s == s[..n] + [s[n]];
    }
  }

  /** Nothing is kept when no value satisfies `keep`. */
  lemma {:induction false} FilterNone<K, V>(s: seq<(K, V)>, keep: V -> bool)
    requires forall k | 0 <= k < |s| :: !keep(s[k].1)
    ensures Filter(s, keep) == []
    decreases |s|
  {
    if s != [] {
      var n := |s| - 1;
      assert forall k | 0 <= k < n :: s[..n][k] == s[k];
      FilterNone(s[..n], keep);
    }
  }

  /** Filtering one entry more extends the filtered prefix by that entry when it is kept. */
  lemma {:induction false} FilterSnoc<K, V>(s: seq<(K, V)>, e: (K, V), keep: V -> bool)
    ensures Filter(s + [e], keep) == if keep(e.1) then Filter(s, keep) + [e] else Filter(s, keep)
  {
    assert (s + [e])[..|s|] == s;
  }

  // Helper facts about positions.

  lemma {:induction false} IndexOfSameKeys<K, V>(a: seq<(K, V)>, b: seq<(K, V)>, x: K)
    requires Keys(a) == Keys(b)
    ensures IndexOf(a, x) == IndexOf(b, x)
  {
  }

  lemma {:induction false} IndexOfSnoc<K, V>(m: seq<(K, V)>, e: (K, V), x: K)
    ensures IndexOf(m + [e], x) == if x in Keys(m) then IndexOf(m, x) else if x == e.0 then Some(|m|) else None
  {
    assert (m + [e])[..|m|] == m;
  }

  /** Removing the entry at position `i` keeps every other key and its value. */
  lemma {:induction false} RemoveAtFacts<K(!new), V>(m: OMap<K, V>, i: nat)
    requires i < |m|
    ensures DistinctKeys(m[..i] + m[i + 1..])
    ensures var r: OMap<K, V> := m[..i] + m[i + 1..];
      && Get(r, m[i].0) == None
      && (forall x | x != m[i].0 :: Get(r, x) == Get(m, x))
      && (forall x :: x in Keys(r) <==> x in Keys(m) && x != m[i].0)
  {
    RemoveAtDistinct(m, i);
    var r: OMap<K, V> := m[..i] + m[i + 1..];
    forall x ensures x in Keys(r) <==> x in Keys(m) && x != m[i].0 {
      RemoveAtKeys(m, i, x);
    }
    forall x | x != m[i].0 && x in Keys(m) ensures Get(r, x) == Get(m, x) {
      RemoveAtGet(m, i, x);
    }
  }

  lemma {:induction false} RemoveAtDistinct<K, V>(m: OMap<K, V>, i: nat)
    requires i < |m|
    ensures DistinctKeys(m[..i] + m[i + 1..])
  {
    var r := m[..i] + m[i + 1..];
    forall p, q | 0 <= p < q < |r| ensures r[p].0 != r[q].0 {
      var p' := if p < i then p else p + 1;
      var q' := if q < i then q else q + 1;
      assert r[p] == m[p'] && r[q] == m[q'] && p' < q';
    }
  }

  lemma {:induction false} RemoveAtKeys<K, V>(m: seq<(K, V)>, i: nat, x: K)
    requires i < |m|
    requires DistinctKeys(m)
    ensures x in Keys(m[..i] + m[i + 1..]) <==> x in Keys(m) && x != m[i].0
  {
    var r := m[..i] + m[i + 1..];
    assert x in Keys(r) ==> x in Keys(m) && x != m[i].0 by {
      if x in Keys(r) {
        var p :| 0 <= p < |r| && Keys(r)[p] == x;
        var p' := if p < i then p else p + 1;
        assert r[p] == m[p'];
        assert Keys(m)[p'] == x && p' != i;
      }
    }
    assert x in Keys(m) && x != m[i].0 ==> x in Keys(r) by {
      if x in Keys(m) && x != m[i].0 {
        var p' :| 0 <= p' < |m| && Keys(m)[p'] == x;
        var p := if p' < i then p' else p' - 1;
        assert r[p] == m[p'];
        assert Keys(r)[p] == x;
      }
    }
  }

  lemma {:induction false} RemoveAtGet<K, V>(m: OMap<K, V>, i: nat, x: K)
    requires i < |m| && x != m[i].0 && x in Keys(m)
    requires DistinctKeys(m[..i] + m[i + 1..])
    ensures Get(m[..i] + m[i + 1..], x) == Get(m, x)
  {
    var r: OMap<K, V> := m[..i] + m[i + 1..];
    var j := IndexOf(m, x).value;
    var p := if j < i then j else j - 1;
    assert r[p] == m[j];
    GetEntry(m, j);
    GetEntry(r, p);
  }

  lemma {:induction false} SnocDistinct<K, V>(s: seq<(K, V)>, e: (K, V))
    ensures DistinctKeys(s) && e.0 !in Keys(s) ==> DistinctKeys(s + [e])
  {
    if DistinctKeys(s) && e.0 !in Keys(s) {
      var r := s + [e];
      forall i, j | 0 <= i < j < |r| ensures r[i].0 != r[j].0 {
        if j == |s| {
          assert r[i].0 == Keys(s)[i];
        } else {
          assert r[i] == s[i] && r[j] == s[j];
        }
      }
    }
  }
}
