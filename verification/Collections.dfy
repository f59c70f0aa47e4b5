/** Sequences of pairs as maps, and the few facts about map updates the models share. */
module Collections {

  function RemoveAt<T>(s: seq<T>, i: nat): (r: seq<T>)
    requires i < |s|
    ensures |r| == |s| - 1
  {
    s[..i] + s[i + 1..]
  }

  ghost predicate DistinctKeys<K, V>(pairs: seq<(K, V)>) {
    forall i, j | 0 <= i < j < |pairs| :: pairs[i].0 != pairs[j].0
  }

  /** The map with exactly these pairs. */
  ghost function Assoc<K, V>(pairs: seq<(K, V)>): (m: map<K, V>)
    requires DistinctKeys(pairs)
    ensures forall i | 0 <= i < |pairs| :: pairs[i].0 in m && m[pairs[i].0] == pairs[i].1
    ensures forall k | k in m :: exists i :: 0 <= i < |pairs| && pairs[i].0 == k
  {
    if pairs == [] then map[]
    else Assoc(pairs[..|pairs| - 1])[pairs[|pairs| - 1].0 := pairs[|pairs| - 1].1]
  }

  lemma {:induction false} AssocExtend<K, V>(pairs: seq<(K, V)>, k: K, v: V)
    requires DistinctKeys(pairs + [(k, v)])
    ensures DistinctKeys(pairs)
    ensures k !in Assoc(pairs)
    ensures Assoc(pairs + [(k, v)]) == Assoc(pairs)[k := v]
  {
    var longer := pairs + [(k, v)];
    assert forall i | 0 <= i < |pairs| :: longer[i] == pairs[i];
    assert longer[..|longer| - 1] == pairs;
    forall i | 0 <= i < |pairs| ensures pairs[i].0 != k {
      assert longer[i].0 != longer[|pairs|].0;
    }
  }

  lemma DistinctWithout<K, V>(pairs: seq<(K, V)>, i: nat)
    requires DistinctKeys(pairs) && i < |pairs|
    ensures DistinctKeys(RemoveAt(pairs, i))
    ensures forall p | p in RemoveAt(pairs, i) :: p in pairs && p.0 != pairs[i].0
    ensures forall p | p in pairs && p != pairs[i] :: p in RemoveAt(pairs, i)
  {
    var r := RemoveAt(pairs, i);
    forall p | p in pairs && p != pairs[i] ensures p in r {
      var j :| 0 <= j < |pairs| && pairs[j] == p;
      assert r[if j < i then j else j - 1] == p;
    }
  }

  lemma {:induction false} AssocWithout<K, V>(pairs: seq<(K, V)>, i: nat)
    requires DistinctKeys(pairs) && i < |pairs|
    ensures DistinctKeys(RemoveAt(pairs, i))
    ensures Assoc(RemoveAt(pairs, i)) == Assoc(pairs) - {pairs[i].0}
  {
    DistinctWithout(pairs, i);
    DropPair(pairs, RemoveAt(pairs, i), pairs[i].0, Assoc(pairs), Assoc(RemoveAt(pairs, i)));
  }

  lemma DropPair<K, V>(pairs: seq<(K, V)>, r: seq<(K, V)>, key: K, m: map<K, V>, m': map<K, V>)
    requires forall i | 0 <= i < |pairs| :: pairs[i].0 in m && m[pairs[i].0] == pairs[i].1
    requires forall k | k in m :: exists i :: 0 <= i < |pairs| && pairs[i].0 == k
    requires forall i | 0 <= i < |r| :: r[i].0 in m' && m'[r[i].0] == r[i].1
    requires forall k | k in m' :: exists i :: 0 <= i < |r| && r[i].0 == k
    requires forall p | p in r :: p in pairs && p.0 != key
    requires forall p | p in pairs && p.0 != key :: p in r
    ensures m' == m - {key}
  {
    forall k | k in m' ensures k in m && k != key && m'[k] == m[k] {
      var j :| 0 <= j < |r| && r[j].0 == k;
      assert r[j] in r && r[j] in pairs;
    }
    forall k | k in m && k != key ensures k in m' {
      var j :| 0 <= j < |pairs| && pairs[j].0 == k;
      assert pairs[j] in r;
    }
  }

  ghost predicate Injective<K, V>(m: map<K, V>) {
    forall a, b :: a in m && b in m && m[a] == m[b] ==> a == b
  }

  lemma {:induction false} UpdateRight<K, V>(l: map<K, V>, r: map<K, V>, k: K, v: V)
    ensures (l + r)[k := v] == l + r[k := v]
  {
  }

  lemma UpdateLeft<K, V>(l: map<K, V>, r: map<K, V>, k: K, v: V)
    requires k !in r
    ensures (l + r)[k := v] == l[k := v] + r
  {
  }

  lemma UpdateHeld<K, V>(l: map<K, V>, r: map<K, V>, k: K, v: V)
    requires k in l && l[k] == v && k !in r
    ensures l + r[k := v] == l + r
  {
  }

  lemma {:induction false} UpdateCommutes<K, V>(m: map<K, V>, k: K, v: V, k': K, v': V)
    requires k != k'
    ensures m[k := v][k' := v'] == m[k' := v'][k := v]
  {
  }

  lemma {:induction false} RemoveRight<K, V>(l: map<K, V>, r: map<K, V>, k: K)
    requires k !in l
    ensures (l + r) - {k} == l + (r - {k})
  {
  }
}
