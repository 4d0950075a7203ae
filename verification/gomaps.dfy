/** Go's built-in `map[K]V`, modelled as an association list with distinct
    keys. Assigning `m[k] = v` replaces the value of an existing key in place
    and appends a new key at the end; the list order stands for Go's
    unspecified iteration order, so every property that Go guarantees is
    stated without reference to that order. */
module GoMaps {
  import opened Wrappers

  type GoMap<K, V> = seq<(K, V)>

  /** The keys, in list order. */
  function Keys<K, V>(m: GoMap<K, V>): (ks: seq<K>)
    ensures |ks| == |m|
    ensures forall i :: 0 <= i < |m| ==> ks[i] == m[i].0
  {
    seq(|m|, i requires 0 <= i < |m| => m[i].0)
  }

  /** The key set of the map. */
  function Domain<K, V>(m: GoMap<K, V>): set<K> {
    set i | 0 <= i < |m| :: m[i].0
  }

  /** The representation invariant: no key occurs twice. */
  predicate DistinctKeys<K(==), V>(m: GoMap<K, V>) {
    forall i, j :: 0 <= i < j < |m| ==> m[i].0 != m[j].0
  }

  /** The tail of a map with distinct keys has distinct keys and lacks the
      head's key. */
  lemma DistinctCons<K, V>(m: GoMap<K, V>)
    requires |m| > 0 && DistinctKeys(m)
    ensures DistinctKeys(m[1..]) && m[0].0 !in Domain(m[1..])
  {
    forall i, j | 0 <= i < j < |m[1..]| ensures m[1..][i].0 != m[1..][j].0 {
      assert m[1..][i] == m[i + 1] && m[1..][j] == m[j + 1];
    }
  }

  /** Position of the first entry for `k`, if any. */
  /** The keys of a non-empty list: its first key and the rest's. */
  lemma DomainCons<K, V>(m: GoMap<K, V>)
    requires |m| > 0
    ensures Domain(m) == {m[0].0} + Domain(m[1..])
  {
    forall x | x in Domain(m) ensures x in {m[0].0} + Domain(m[1..]) {
      var i :| 0 <= i < |m| && m[i].0 == x;
      if i > 0 { assert m[1..][i - 1].0 == x; }
    }
  }

  function FindKey<K(==), V>(m: GoMap<K, V>, k: K): (r: Option<nat>)
    ensures r.Some? ==> r.value < |m| && m[r.value].0 == k
    ensures r.Some? ==> forall j :: 0 <= j < r.value ==> m[j].0 != k
    ensures r.None? <==> k !in Domain(m)
  {
    if |m| == 0 then None
    else if m[0].0 == k then Some(0)
    else
      match FindKey(m[1..], k)
      case None =>
        assert Domain(m) == {m[0].0} + Domain(m[1..]) by {
          forall x | x in Domain(m) ensures x in {m[0].0} + Domain(m[1..]) {
            var i :| 0 <= i < |m| && m[i].0 == x;
            if i > 0 { assert m[1..][i - 1].0 == x; }
          }
          forall x | x in Domain(m[1..]) ensures x in Domain(m) {
            var i :| 0 <= i < |m[1..]| && m[1..][i].0 == x;
            assert m[i + 1].0 == x;
          }
        }
        None
      case Some(i) => Some(i + 1)
  }

  /** `v, ok := m[k]`, with the zero value replaced by `None`. */
  function Lookup<K(==), V>(m: GoMap<K, V>, k: K): (r: Option<V>)
    ensures r.Some? <==> k in Domain(m)
  {
    match FindKey(m, k)
    case Some(i) => Some(m[i].1)
    case None => None
  }

  /** `m[k] = v`. */
  function Put<K(==), V>(m: GoMap<K, V>, k: K, v: V): (r: GoMap<K, V>)
    ensures Lookup(r, k) == Some(v)
    ensures Domain(r) == Domain(m) + {k}
    ensures k in Domain(m) ==> Keys(r) == Keys(m)
    ensures k !in Domain(m) ==> r == m + [(k, v)]
  {
    match FindKey(m, k)
    case Some(i) =>
      var r := m[i := (k, v)];
      assert Keys(r) == Keys(m);
      assert FindKey(r, k) == Some(i) by { FindKeyUnique(r, k, i); }
      assert Domain(r) == Domain(m) by {
        forall x | x in Domain(r) ensures x in Domain(m) {
          var j :| 0 <= j < |r| && r[j].0 == x;
          assert m[j].0 == x;
        }
        forall x | x in Domain(m) ensures x in Domain(r) {
          var j :| 0 <= j < |m| && m[j].0 == x;
          assert r[j].0 == x;
        }
      }
      r
    case None =>
      var r := m + [(k, v)];
      assert FindKey(r, k) == Some(|m|) by { FindKeyUnique(r, k, |m|); }
      assert Domain(r) == Domain(m) + {k} by {
        forall x | x in Domain(r) ensures x in Domain(m) + {k} {
          var j :| 0 <= j < |r| && r[j].0 == x;
          if j < |m| { assert m[j].0 == x; }
        }
        forall x | x in Domain(m) ensures x in Domain(r) {
          var j :| 0 <= j < |m| && m[j].0 == x;
          assert r[j].0 == x;
        }
        assert r[|m|].0 == k;
      }
      r
  }

  /** Every entry after an assignment is the assigned one or one that was
      already there at that position. */
  lemma PutEntries<K, V>(m: GoMap<K, V>, k: K, v: V)
    ensures forall i :: 0 <= i < |Put(m, k, v)| ==> Put(m, k, v)[i] == (k, v) || (i < |m| && Put(m, k, v)[i] == m[i])
  {
    match FindKey(m, k)
    case Some(i) =>
      assert Put(m, k, v) == m[i := (k, v)];
    case None =>
  }

  /** The first entry for a key is the one whose earlier entries all differ. */
  lemma {:induction false} FindKeyUnique<K, V>(m: GoMap<K, V>, k: K, i: nat)
    requires i < |m| && m[i].0 == k
    requires forall j :: 0 <= j < i ==> m[j].0 != k
    ensures FindKey(m, k) == Some(i)
    decreases i
  {
    if i > 0 {
      assert m[0].0 != k;
      FindKeyUnique(m[1..], k, i - 1);
    }
  }

  /** In a map with distinct keys, the entry at `i` is found at `i`. */
  lemma FindKeyDistinct<K, V>(m: GoMap<K, V>, i: nat)
    requires DistinctKeys(m)
    requires i < |m|
    ensures FindKey(m, m[i].0) == Some(i)
  {
    FindKeyUnique(m, m[i].0, i);
  }

  /** Assignment keeps the other keys' values and the invariant. */
  lemma {:induction false} PutFrame<K, V>(m: GoMap<K, V>, k: K, v: V, k': K)
    requires k' != k
    ensures Lookup(Put(m, k, v), k') == Lookup(m, k')
  {
    var r := Put(m, k, v);
    match FindKey(m, k')
    case None =>
      assert k' !in Domain(r);
    case Some(j) =>
      assert r[j] == m[j];
      FindKeyUnique(r, k', j);
  }

  lemma {:induction false} PutDistinct<K, V>(m: GoMap<K, V>, k: K, v: V)
    requires DistinctKeys(m)
    ensures DistinctKeys(Put(m, k, v))
  {
    var r := Put(m, k, v);
    if k !in Domain(m) {
      forall i | 0 <= i < |m| ensures m[i].0 != k {
        assert m[i].0 in Domain(m);
      }
    } else {
      assert Keys(r) == Keys(m);
      forall i, j | 0 <= i < j < |r| ensures r[i].0 != r[j].0 {
        assert Keys(r)[i] == Keys(m)[i] && Keys(r)[j] == Keys(m)[j];
      }
    }
  }

  /** Assigning every entry of `entries` in order (`for k, v := range src { m[k] = v }`). */
  function PutAll<K(==), V>(m: GoMap<K, V>, entries: seq<(K, V)>): (r: GoMap<K, V>)
    ensures Domain(r) == Domain(m) + Domain(entries)
    decreases |entries|
  {
    if |entries| == 0 then m
    else
      var r := PutAll(Put(m, entries[0].0, entries[0].1), entries[1..]);
      assert Domain(entries) == {entries[0].0} + Domain(entries[1..]) by {
        forall x | x in Domain(entries) ensures x in {entries[0].0} + Domain(entries[1..]) {
          var i :| 0 <= i < |entries| && entries[i].0 == x;
          if i > 0 { assert entries[1..][i - 1].0 == x; }
        }
        forall x | x in Domain(entries[1..]) ensures x in Domain(entries) {
          var i :| 0 <= i < |entries[1..]| && entries[1..][i].0 == x;
          assert entries[i + 1].0 == x;
        }
      }
      r
  }

  /** Entry `i` is the last entry for key `k`. */
  predicate IsLastFor<K(==), V>(entries: seq<(K, V)>, i: int, k: K) {
    0 <= i < |entries| && entries[i].0 == k && forall j :: i < j < |entries| ==> entries[j].0 != k
  }

  /** After assigning a list of entries, a key holds the value of its last
      entry in the list; a key the list does not mention keeps its value. */
  lemma {:induction false} PutAllLookup<K, V>(m: GoMap<K, V>, entries: seq<(K, V)>, k: K)
    ensures k !in Domain(entries) ==> Lookup(PutAll(m, entries), k) == Lookup(m, k)
    ensures forall i | IsLastFor(entries, i, k) :: Lookup(PutAll(m, entries), k) == Some(entries[i].1)
    decreases |entries|
  {
    if |entries| > 0 {
      var m' := Put(m, entries[0].0, entries[0].1);
      PutAllLookup(m', entries[1..], k);
      if k != entries[0].0 {
        PutFrame(m, entries[0].0, entries[0].1, k);
      }
      forall i | IsLastFor(entries, i, k)
        ensures Lookup(PutAll(m, entries), k) == Some(entries[i].1)
      {
        if i > 0 {
          assert entries[1..][i - 1] == entries[i];
          assert IsLastFor(entries[1..], i - 1, k) by {
            forall j | i - 1 < j < |entries[1..]| ensures entries[1..][j].0 != k {
              assert entries[1..][j] == entries[j + 1];
            }
          }
        } else {
          assert k !in Domain(entries[1..]) by {
            forall j | 0 <= j < |entries[1..]| ensures entries[1..][j].0 != k {
              assert entries[1..][j] == entries[j + 1];
            }
          }
        }
      }
      if k !in Domain(entries) {
        assert entries[0].0 in Domain(entries);
        assert k !in Domain(entries[1..]) by {
          forall j | 0 <= j < |entries[1..]| ensures entries[1..][j].0 != k {
            assert entries[1..][j] == entries[j + 1];
            assert entries[j + 1].0 in Domain(entries);
          }
        }
      }
    }
  }

  /** Assigning the same value twice is assigning it once. */
  lemma PutIdempotent<K, V>(m: GoMap<K, V>, k: K, v: V)
    ensures Put(Put(m, k, v), k, v) == Put(m, k, v)
  {
    var r := Put(m, k, v);
    match FindKey(m, k)
    case Some(i) =>
      assert r == m[i := (k, v)];
      FindKeyUnique(r, k, i);
      assert r[i := (k, v)] == r;
    case None =>
      FindKeyUnique(r, k, |m|);
      assert r[|m| := (k, v)] == r;
  }

  /** Copying a Go map (whose keys are distinct) into another: a key of the
      source takes the source's value, any other key keeps its value. */
  lemma PutAllOverrides<K, V>(m: GoMap<K, V>, src: GoMap<K, V>, k: K)
    requires DistinctKeys(src)
    ensures Lookup(PutAll(m, src), k) == if k in Domain(src) then Lookup(src, k) else Lookup(m, k)
  {
    PutAllLookup(m, src, k);
    if k in Domain(src) {
      var i := FindKey(src, k).value;
      assert IsLastFor(src, i, k);
    }
  }
}
