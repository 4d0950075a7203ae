/** `OrderedMap[K, V]` of internal/openapi/orderedmap.go: a map that
    remembers first-insertion order, backed by an index map `unique`
    (key to position) and two parallel slices `keys` and `values`. It backs
    the OpenAPI `Paths` object. */
module OrderedMaps {
  import opened Wrappers
  import opened Text
  import GoMaps
  import Iteration

  datatype OrderedMap<K, V> = OrderedMap(unique: map<K, nat>, keys: seq<K>, values: seq<V>)
  {
    /** The index invariant: `unique[keys[i]] == i` for every position and
        every indexed key sits at its position, with parallel slices. */
    predicate Valid() {
      && |keys| == |values|
      && (forall k | k in unique :: unique[k] < |keys| && keys[unique[k]] == k)
      && (forall i | 0 <= i < |keys| :: keys[i] in unique && unique[keys[i]] == i)
    }

    /** The contents as an association list, in insertion order. */
    function Pairs(): (ps: GoMaps.GoMap<K, V>)
      requires |keys| == |values|
      ensures |ps| == |keys|
      ensures forall i :: 0 <= i < |keys| ==> ps[i] == (keys[i], values[i])
    {
      seq(|keys|, i requires 0 <= i < |keys| => (keys[i], values[i]))
    }
  }

  /** The zero value `OrderedMap[K, V]{}`: a nil index and nil slices. */
  function Empty<K, V>(): (m: OrderedMap<K, V>)
    ensures m.Valid() && m.Pairs() == []
  {
    OrderedMap(map[], [], [])
  }

  /** `Get`: the value stored for `k` and true, or Go's zero value (passed in
      as `zero`) and false when `k` was never set. */
  function Get<K, V>(m: OrderedMap<K, V>, k: K, zero: V): (r: (V, bool))
    requires m.Valid()
    ensures r.1 <==> k in m.keys
    ensures r.1 ==> GoMaps.Lookup(m.Pairs(), k) == Some(r.0)
    ensures !r.1 ==> r.0 == zero
  {
    if k in m.unique then
      var i := m.unique[k];
      assert GoMaps.FindKey(m.Pairs(), k) == Some(i) by {
        GoMaps.FindKeyUnique(m.Pairs(), k, i);
      }
      (m.values[i], true)
    else
      (zero, false)
  }

  /** `Set`: replaces the value of an existing key in place, or appends a new
      key and value at the end. */
  function Set<K, V>(m: OrderedMap<K, V>, k: K, v: V): (r: OrderedMap<K, V>)
    requires m.Valid()
    ensures r.Valid()
    ensures k !in m.keys ==> r.keys == m.keys + [k] && r.values == m.values + [v]
    ensures k in m.keys ==> r.keys == m.keys && |r.values| == |m.values|
    ensures k in m.keys ==> r.values == m.values[m.unique[k] := v]
  {
    if k !in m.unique then
      var r := OrderedMap(m.unique[k := |m.keys|], m.keys + [k], m.values + [v]);
      assert k !in m.keys;
      r
    else
      var i := m.unique[k];
      OrderedMap(m.unique, m.keys[i := k], m.values[i := v])
  }

  /** `Len`: the size of the index map. */
  function Len<K, V>(m: OrderedMap<K, V>): (n: nat)
    requires m.Valid()
    ensures n == |m.keys|
  {
    KeysDistinct(m);
    IndexIsKeySet(m);
    DistinctCard(m.keys);
    |m.unique|
  }

  /** `Iterate`: the pairs handed to a consumer, which may stop early. */
  function Iterate<K, V>(m: OrderedMap<K, V>, keepGoing: (nat, (K, V)) -> bool): (d: seq<(K, V)>)
    requires m.Valid()
    ensures |d| <= |m.keys| && d == m.Pairs()[..|d|]
  {
    Iteration.Deliver(m.Pairs(), keepGoing)
  }

  predicate Distinct<T(==)>(s: seq<T>) {
    forall i, j :: 0 <= i < j < |s| ==> s[i] != s[j]
  }

  lemma KeysDistinct<K, V>(m: OrderedMap<K, V>)
    requires m.Valid()
    ensures Distinct(m.keys)
    ensures GoMaps.DistinctKeys(m.Pairs())
  {
  }

  lemma IndexIsKeySet<K, V>(m: OrderedMap<K, V>)
    requires m.Valid()
    ensures m.unique.Keys == set i | 0 <= i < |m.keys| :: m.keys[i]
  {
    forall k | k in m.unique ensures k in set i | 0 <= i < |m.keys| :: m.keys[i] {
      assert m.keys[m.unique[k]] == k;
    }
  }

  /** A sequence without repetitions has as many distinct elements as positions. */
  lemma {:induction false} DistinctCard<T>(s: seq<T>)
    requires Distinct(s)
    ensures |set i | 0 <= i < |s| :: s[i]| == |s|
    decreases |s|
  {
    if |s| > 0 {
      var init := s[..|s| - 1];
      DistinctCard(init);
      var a := set i | 0 <= i < |init| :: init[i];
      var b := set i | 0 <= i < |s| :: s[i];
      assert b == a + {s[|s| - 1]} by {
        forall x | x in b ensures x in a + {s[|s| - 1]} {
          var i :| 0 <= i < |s| && s[i] == x;
          if i < |s| - 1 { assert init[i] == x; }
        }
        forall x | x in a ensures x in b {
          var i :| 0 <= i < |init| && init[i] == x;
          assert s[i] == x;
        }
      }
      assert s[|s| - 1] !in a by {
        forall i | 0 <= i < |init| ensures init[i] != s[|s| - 1] {
          assert init[i] == s[i];
        }
      }
    }
  }

  /** Refinement: `Set` on the ordered map is Go map assignment on its pairs. */
  lemma SetRefinesPut<K, V>(m: OrderedMap<K, V>, k: K, v: V)
    requires m.Valid()
    ensures Set(m, k, v).Pairs() == GoMaps.Put(m.Pairs(), k, v)
  {
    var ps := m.Pairs();
    if k in m.unique {
      var i := m.unique[k];
      GoMaps.FindKeyUnique(ps, k, i);
    } else {
      assert GoMaps.FindKey(ps, k) == None by {
        assert k !in GoMaps.Domain(ps) by {
          forall j | 0 <= j < |ps| ensures ps[j].0 != k {
            assert m.keys[j] in m.unique;
          }
        }
      }
    }
  }

  /** Get after Set: the key just set yields the new value; every other key
      yields what it yielded before. */
  lemma GetAfterSet<K, V>(m: OrderedMap<K, V>, k: K, v: V, k': K, zero: V)
    requires m.Valid()
    ensures Get(Set(m, k, v), k, zero) == (v, true)
    ensures k' != k ==> Get(Set(m, k, v), k', zero) == Get(m, k', zero)
  {
  }

  /** Setting a new key grows the map by one; setting an existing key keeps
      its size and its key order. */
  lemma SetLen<K, V>(m: OrderedMap<K, V>, k: K, v: V)
    requires m.Valid()
    ensures k !in m.keys ==> Len(Set(m, k, v)) == Len(m) + 1
    ensures k in m.keys ==> Len(Set(m, k, v)) == Len(m) && Set(m, k, v).keys == m.keys
  {
  }

  /** Iteration with a consumer that never stops yields exactly the pairs:
      each key once, in first-insertion order, with its current value; there
      are `Len` of them. */
  lemma IterateAll<K, V>(m: OrderedMap<K, V>)
    requires m.Valid()
    ensures Iterate(m, (i: nat, p: (K, V)) => true) == m.Pairs()
    ensures |Iterate(m, (i: nat, p: (K, V)) => true)| == Len(m)
    ensures forall i :: 0 <= i < |m.keys| ==>
      Get(m, m.keys[i], m.values[i]) == (m.values[i], true)
  {
  }

  /** The same keys in the same order, each value transformed by `f`. */
  function MapValues<K, V, W>(m: OrderedMap<K, V>, f: V -> W): (r: OrderedMap<K, W>)
    requires m.Valid()
    ensures r.Valid() && r.keys == m.keys
    ensures forall i :: 0 <= i < |m.keys| ==> r.values[i] == f(m.values[i])
  {
    OrderedMap(m.unique, m.keys, seq(|m.values|, i requires 0 <= i < |m.values| => f(m.values[i])))
  }

  /** `MarshalJSON`'s reference shape: `{`, the `key:value` members in
      iteration order separated by commas, `}`. Encoding errors of the first
      failing key or value are returned. */
  function MembersJson<K, V>(ps: seq<(K, V)>, encKey: K -> Result<string>, encValue: V -> Result<string>): (r: Result<seq<string>>)
    ensures r.Ok? ==> |r.value| == |ps|
  {
    if |ps| == 0 then Ok([])
    else
      match encKey(ps[0].0)
      case Fail(e) => Fail(e)
      case Ok(key) =>
        match encValue(ps[0].1)
        case Fail(e) => Fail(e)
        case Ok(val) =>
          match MembersJson(ps[1..], encKey, encValue)
          case Fail(e) => Fail(e)
          case Ok(rest) => Ok([key + ":" + val] + rest)
  }

  lemma {:induction false} MembersAppend<K, V>(a: seq<(K, V)>, b: seq<(K, V)>, encKey: K -> Result<string>, encValue: V -> Result<string>)
    ensures MembersJson(a + b, encKey, encValue) ==
      match MembersJson(a, encKey, encValue)
      case Fail(e) => Fail(e)
      case Ok(x) =>
        match MembersJson(b, encKey, encValue)
        case Fail(e) => Fail(e)
        case Ok(y) => Ok(x + y)
    decreases |a|
  {
    if |a| == 0 {
      assert a + b == b;
      match MembersJson(b, encKey, encValue)
      case Fail(_) =>
      case Ok(y) => assert [] + y == y;
    } else {
      assert (a + b)[0] == a[0];
      assert (a + b)[1..] == a[1..] + b;
      MembersAppend(a[1..], b, encKey, encValue);
      match encKey(a[0].0)
      case Fail(_) =>
      case Ok(key) =>
        match encValue(a[0].1)
        case Fail(_) =>
        case Ok(val) =>
          match MembersJson(a[1..], encKey, encValue)
          case Fail(_) =>
          case Ok(x) =>
            match MembersJson(b, encKey, encValue)
            case Fail(_) =>
            case Ok(y) =>
              assert [key + ":" + val] + (x + y) == ([key + ":" + val] + x) + y;
    }
  }

  /** After the members of a prefix, a failing key or value of the next
      pair is the failure of the whole list. */
  lemma MembersNextFail<K, V>(ps: seq<(K, V)>, i: nat, members: seq<string>, encKey: K -> Result<string>, encValue: V -> Result<string>)
    requires i < |ps| && MembersJson(ps[..i], encKey, encValue) == Ok(members)
    ensures encKey(ps[i].0).Fail? ==> MembersJson(ps, encKey, encValue) == Fail(encKey(ps[i].0).error)
    ensures encKey(ps[i].0).Ok? && encValue(ps[i].1).Fail? ==> MembersJson(ps, encKey, encValue) == Fail(encValue(ps[i].1).error)
  {
    assert ps == ps[..i] + ps[i..];
    MembersAppend(ps[..i], ps[i..], encKey, encValue);
    assert ps[i..][0] == ps[i];
  }

  /** After the members of a prefix, an encoded next pair is one more
      member. */
  lemma MembersNextOk<K, V>(ps: seq<(K, V)>, i: nat, members: seq<string>, encKey: K -> Result<string>, encValue: V -> Result<string>)
    requires i < |ps| && MembersJson(ps[..i], encKey, encValue) == Ok(members)
    requires encKey(ps[i].0).Ok? && encValue(ps[i].1).Ok?
    ensures MembersJson(ps[..i + 1], encKey, encValue) == Ok(members + [encKey(ps[i].0).value + ":" + encValue(ps[i].1).value])
  {
    assert ps[..i + 1] == ps[..i] + [ps[i]];
    MembersAppend(ps[..i], [ps[i]], encKey, encValue);
    assert [ps[i]][1..] == [];
    var m := encKey(ps[i].0).value + ":" + encValue(ps[i].1).value;
    assert MembersJson([ps[i]], encKey, encValue) == Ok([m] + []);
    assert [m] + [] == [m];
  }

  /** `MarshalJSON`: writes `{`, then for each pair a comma (except before
      the first), the encoded key, `:` and the encoded value, then `}`. The
      JSON encoders for keys and values are parameters. */
  method MarshalJson<K, V>(m: OrderedMap<K, V>, encKey: K -> Result<string>, encValue: V -> Result<string>)
    returns (r: Result<string>)
    requires m.Valid()
    ensures MembersJson(m.Pairs(), encKey, encValue).Fail? <==> r.Fail?
    ensures r.Fail? ==> r.error == MembersJson(m.Pairs(), encKey, encValue).error
    ensures r.Ok? ==> r.value == "{" + Join(MembersJson(m.Pairs(), encKey, encValue).value, ",") + "}"
  {
    var ps := m.Pairs();
    var buf := "{";
    var members: seq<string> := [];
    var i := 0;
    while i < |ps|
      invariant 0 <= i <= |ps|
      invariant MembersJson(ps[..i], encKey, encValue) == Ok(members)
      invariant buf == "{" + Join(members, ",")
    {
      MembersNextFail(ps, i, members, encKey, encValue);
      if i != 0 {
        buf := buf + ",";
      }
      var key := encKey(ps[i].0);
      if key.Fail? {
        return Fail(key.error);
      }
      buf := buf + key.value;
      buf := buf + ":";
      var val := encValue(ps[i].1);
      if val.Fail? {
        return Fail(val.error);
      }
      buf := buf + val.value;
      MembersNextOk(ps, i, members, encKey, encValue);
      JoinAppend(members, key.value + ":" + val.value, ",");
      members := members + [key.value + ":" + val.value];
      i := i + 1;
    }
    assert ps[..i] == ps;
    buf := buf + "}";
    return Ok(buf);
  }
}
