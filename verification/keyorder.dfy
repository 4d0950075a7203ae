/** The order in which `encoding/json` writes the members of a map with
    string keys: sorted by key, the keys compared as `strings.Compare`
    compares them. That comparison is byte-wise on the UTF-8 encoding, and
    UTF-8 keeps the order of code points, so the model compares characters.
    The sort itself is an insertion sort over positions; for distinct keys
    every sort yields the same order. */
module KeyOrder {

  /** `a` sorts strictly before `b`: `a` is a proper prefix of `b`, or is
      smaller at the first character where they differ. */
  predicate Less(a: string, b: string)
    decreases |a|
  {
    if |a| == 0 then |b| > 0
    else |b| > 0 && (a[0] < b[0] || (a[0] == b[0] && Less(a[1..], b[1..])))
  }

  lemma {:induction false} LessIrreflexive(a: string)
    ensures !Less(a, a)
    decreases |a|
  {
    if |a| > 0 {
      LessIrreflexive(a[1..]);
    }
  }

  lemma {:induction false} LessAsymmetric(a: string, b: string)
    ensures !(Less(a, b) && Less(b, a))
    decreases |a|
  {
    if |a| > 0 && |b| > 0 {
      LessAsymmetric(a[1..], b[1..]);
    }
  }

  lemma {:induction false} LessTransitive(a: string, b: string, c: string)
    requires Less(a, b) && Less(b, c)
    ensures Less(a, c)
    decreases |a|
  {
    if |a| > 0 && a[0] == b[0] && b[0] == c[0] {
      LessTransitive(a[1..], b[1..], c[1..]);
    }
  }

  lemma {:induction false} LessTotal(a: string, b: string)
    ensures a == b || Less(a, b) || Less(b, a)
    decreases |a|
  {
    if |a| > 0 && |b| > 0 && a[0] == b[0] {
      LessTotal(a[1..], b[1..]);
      if a[1..] == b[1..] {
        assert a == [a[0]] + a[1..] && b == [b[0]] + b[1..];
      }
    }
  }

  /** `Less` is a strict total order: two keys that differ are ordered one
      way exactly, and "at or before" chains. */
  lemma StrictTotalOrder(a: string, b: string, c: string)
    ensures !Less(a, a)
    ensures a != b ==> (Less(a, b) <==> !Less(b, a))
    ensures Less(a, b) && Less(b, c) ==> Less(a, c)
    ensures !Less(b, a) && !Less(c, b) ==> !Less(c, a)
  {
    LessIrreflexive(a);
    LessAsymmetric(a, b);
    LessTotal(a, b);
    if Less(a, b) && Less(b, c) {
      LessTransitive(a, b, c);
    }
    if !Less(b, a) && !Less(c, b) {
      NotAfterTransitive(a, b, c);
    }
  }

  /** "At or before" is transitive. */
  lemma NotAfterTransitive(a: string, b: string, c: string)
    requires !Less(b, a) && !Less(c, b)
    ensures !Less(c, a)
  {
    LessTotal(a, b);
    LessTotal(b, c);
    if a != b && b != c {
      LessTransitive(a, b, c);
      LessAsymmetric(a, c);
    }
  }

  /** No position occurs twice. */
  predicate Distinct(s: seq<nat>) {
    forall i, j :: 0 <= i < j < |s| ==> s[i] != s[j]
  }

  /** The positions `idx` list keys in order: no later key sorts before an
      earlier one. */
  predicate SortedBy(keys: seq<string>, idx: seq<nat>) {
    && (forall i :: 0 <= i < |idx| ==> idx[i] < |keys|)
    && (forall i, j :: 0 <= i < j < |idx| ==> !Less(keys[idx[j]], keys[idx[i]]))
  }

  /** Inserting position `x` into a sorted run keeps it sorted, adds `x`
      and nothing else, and keeps the positions distinct. */
  function Insert(keys: seq<string>, x: nat, s: seq<nat>): (r: seq<nat>)
    requires x < |keys| && SortedBy(keys, s)
    ensures |r| == |s| + 1
    ensures forall y :: y in r <==> y == x || y in s
    ensures x !in s && Distinct(s) ==> Distinct(r)
    ensures SortedBy(keys, r)
    decreases |s|
  {
    if |s| == 0 then [x]
    else if Less(keys[s[0]], keys[x]) then
      var rest := Insert(keys, x, s[1..]);
      assert forall y :: y in s[1..] ==> y in s;
      InsertAfterHead(keys, x, s, rest);
      assert x !in s && Distinct(s) ==> Distinct([s[0]] + rest) by {
        if x !in s && Distinct(s) {
          assert Distinct(s[1..]) by {
            forall i, j | 0 <= i < j < |s[1..]| ensures s[1..][i] != s[1..][j] {
              assert s[1..][i] == s[i + 1] && s[1..][j] == s[j + 1];
            }
          }
          assert s[0] !in s[1..] by {
            forall k | 0 <= k < |s[1..]| ensures s[1..][k] != s[0] {
              assert s[1..][k] == s[k + 1];
            }
          }
          var r := [s[0]] + rest;
          forall i, j | 0 <= i < j < |r| ensures r[i] != r[j] {
            assert r[j] == rest[j - 1];
            if i > 0 {
              assert r[i] == rest[i - 1];
            } else {
              assert r[j] in rest;
            }
          }
        }
      }
      [s[0]] + rest
    else
      InsertBeforeHead(keys, x, s);
      [x] + s
  }

  /** The step of `Insert` that keeps the head and inserts into the tail. */
  lemma InsertAfterHead(keys: seq<string>, x: nat, s: seq<nat>, rest: seq<nat>)
    requires x < |keys| && SortedBy(keys, s) && |s| > 0
    requires Less(keys[s[0]], keys[x])
    requires SortedBy(keys, rest) && forall y :: y in rest <==> y == x || y in s[1..]
    ensures SortedBy(keys, [s[0]] + rest)
  {
    var r := [s[0]] + rest;
    LessAsymmetric(keys[s[0]], keys[x]);
    forall i, j | 0 <= i < j < |r| ensures !Less(keys[r[j]], keys[r[i]]) {
      if i == 0 {
        assert r[j] == rest[j - 1];
        assert r[j] in rest;
        if r[j] != x {
          var k :| 0 <= k < |s[1..]| && s[1..][k] == r[j];
          assert s[k + 1] == r[j];
        }
      } else {
        assert r[i] == rest[i - 1] && r[j] == rest[j - 1];
      }
    }
  }

  /** The step of `Insert` that puts `x` in front. */
  lemma InsertBeforeHead(keys: seq<string>, x: nat, s: seq<nat>)
    requires x < |keys| && SortedBy(keys, s) && |s| > 0
    requires !Less(keys[s[0]], keys[x])
    ensures SortedBy(keys, [x] + s)
  {
    var r := [x] + s;
    forall i, j | 0 <= i < j < |r| ensures !Less(keys[r[j]], keys[r[i]]) {
      if i == 0 {
        assert r[j] == s[j - 1];
        if j > 1 {
          NotAfterTransitive(keys[x], keys[s[0]], keys[s[j - 1]]);
        }
      } else {
        assert r[i] == s[i - 1] && r[j] == s[j - 1];
      }
    }
  }

  /** The first `n` positions of `keys`, sorted by key. */
  function OrderFirst(keys: seq<string>, n: nat): (idx: seq<nat>)
    requires n <= |keys|
    ensures |idx| == n
    ensures forall p: nat :: p in idx <==> p < n
    ensures Distinct(idx)
    ensures SortedBy(keys, idx)
  {
    if n == 0 then []
    else Insert(keys, n - 1, OrderFirst(keys, n - 1))
  }

  /** The order `encoding/json` writes a map's members in, as positions of
      the map's keys. */
  function Order(keys: seq<string>): (idx: seq<nat>)
    ensures |idx| == |keys|
    ensures SortedBy(keys, idx)
  {
    OrderFirst(keys, |keys|)
  }

  /** `Order` is a permutation of the positions, and keys that are
      distinct come out strictly increasing. */
  lemma {:induction false} OrderPermutes(keys: seq<string>)
    ensures forall p: nat :: p in Order(keys) <==> p < |keys|
    ensures Distinct(Order(keys))
    ensures (forall i, j :: 0 <= i < j < |keys| ==> keys[i] != keys[j]) ==>
      forall i, j :: 0 <= i < j < |keys| ==> Less(keys[Order(keys)[i]], keys[Order(keys)[j]])
  {
    var idx := Order(keys);
    assert idx == OrderFirst(keys, |keys|);
    if forall i, j :: 0 <= i < j < |keys| ==> keys[i] != keys[j] {
      forall i, j | 0 <= i < j < |keys| ensures Less(keys[idx[i]], keys[idx[j]]) {
        var a, b := idx[i], idx[j];
        assert a != b;
        assert keys[a] != keys[b] by {
          if a < b {
            assert keys[a] != keys[b];
          } else {
            assert keys[b] != keys[a];
          }
        }
        LessTotal(keys[a], keys[b]);
      }
    }
  }

  /** Two keys: the first stays first exactly when it sorts before the
      second. */
  lemma OrderTwo(a: string, b: string)
    ensures Order([a, b]) == if Less(a, b) then [0, 1] else [1, 0]
  {
    var keys := [a, b];
    assert OrderFirst(keys, 0) == [];
    assert OrderFirst(keys, 1) == Insert(keys, 0, []) == [0];
    assert keys[0] == a && keys[1] == b;
    assert Order(keys) == Insert(keys, 1, [0]);
    if Less(a, b) {
      assert Insert(keys, 1, [0]) == [0] + Insert(keys, 1, []);
    }
  }

  /** Every position is listed: the member for entry `p` sits at some
      position `k` of the order. */
  lemma OrderPosition(keys: seq<string>, p: nat) returns (k: nat)
    requires p < |keys|
    ensures k < |keys| && Order(keys)[k] == p
  {
    OrderPermutes(keys);
    assert p in Order(keys);
    k :| 0 <= k < |Order(keys)| && Order(keys)[k] == p;
  }
}
