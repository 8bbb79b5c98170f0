/** PHP's scalar values and its ordered associative arrays with string keys,
    as used for an entry's fields, its dirty fields and the rows a query
    returns. An array is a list of (key, value) pairs with distinct keys, in
    insertion order. */
module PhpArrays {
  import opened Wrappers
  import opened PhpStrings

  /** A scalar PHP value as PDO binds it or returns it. */
  datatype Value = Null | Bool(b: bool) | Int(i: int) | Str(s: string)

  predicate DistinctKeys<V>(a: seq<(string, V)>) {
    forall i, j :: 0 <= i < j < |a| ==> a[i].0 != a[j].0
  }

  /** A PHP array with string keys. */
  type Dict<V> = a: seq<(string, V)> | DistinctKeys(a) witness []

  /** `array_keys($a)`, in order. */
  function KeysOf<V>(a: seq<(string, V)>): (ks: seq<string>)
    ensures |ks| == |a| && forall i :: 0 <= i < |a| ==> ks[i] == a[i].0
  {
    seq(|a|, i requires 0 <= i < |a| => a[i].0)
  }

  /** `array_values($a)`, in order. */
  function ValuesOf<V>(a: seq<(string, V)>): (vs: seq<V>)
    ensures |vs| == |a| && forall i :: 0 <= i < |a| ==> vs[i] == a[i].1
  {
    seq(|a|, i requires 0 <= i < |a| => a[i].1)
  }

  function KeySet<V>(a: seq<(string, V)>): set<string> {
    set i | 0 <= i < |a| :: a[i].0
  }

  /** The keys of `keys` that are in `keep`, in their order. */
  function FilterKeys(keys: seq<string>, keep: set<string>): seq<string>
    decreases |keys|
  {
    if |keys| == 0 then [] else (if keys[0] in keep then [keys[0]] else []) + FilterKeys(keys[1..], keep)
  }

  /** Filtering by two sets that agree on the keys at hand gives the same keys. */
  lemma {:induction false} FilterKeysAgree(keys: seq<string>, keep: set<string>, keep': set<string>)
    requires forall i :: 0 <= i < |keys| ==> (keys[i] in keep <==> keys[i] in keep')
    ensures FilterKeys(keys, keep) == FilterKeys(keys, keep')
    decreases |keys|
  {
    if |keys| > 0 {
      FilterKeysAgree(keys[1..], keep, keep');
    }
  }

  /** The keys of the pairs after the first, in order. */
  lemma KeysOfTail<V>(a: seq<(string, V)>)
    requires |a| > 0
    ensures KeysOf(a[1..]) == KeysOf(a)[1..] && KeysOf(a)[0] == a[0].0
  {
  }

  /** The keys of a pair put in front of a list. */
  lemma KeysOfCons<V>(x: (string, V), t: seq<(string, V)>)
    ensures KeysOf([x] + t) == [x.0] + KeysOf(t)
  {
  }

  /** `$a[$k]` when `array_key_exists($k, $a)`, and None otherwise. */
  function Lookup<V>(a: seq<(string, V)>, k: string): (r: Option<V>)
    ensures r.None? <==> k !in KeySet(a)
    ensures DistinctKeys(a) ==> forall i :: 0 <= i < |a| && a[i].0 == k ==> r == Some(a[i].1)
    decreases |a|
  {
    if |a| == 0 then None
    else if a[0].0 == k then Some(a[0].1)
    else
      var r := Lookup(a[1..], k);
      KeySetCons(a[0], a[1..]);
      assert [a[0]] + a[1..] == a;
      r
  }

  lemma KeySetCons<V>(x: (string, V), t: seq<(string, V)>)
    ensures KeySet([x] + t) == {x.0} + KeySet(t)
  {
    var a := [x] + t;
    forall y | y in KeySet(a) ensures y in {x.0} + KeySet(t) {
      var i :| 0 <= i < |a| && a[i].0 == y;
      if i > 0 { assert t[i - 1] == a[i]; }
    }
    forall y | y in KeySet(t) ensures y in KeySet(a) {
      var i :| 0 <= i < |t| && t[i].0 == y;
      assert a[i + 1] == t[i];
    }
    assert a[0] == x;
  }

  lemma LookupCons<V>(x: (string, V), t: seq<(string, V)>)
    ensures forall k :: Lookup([x] + t, k) == if x.0 == k then Some(x.1) else Lookup(t, k)
  {
    assert ([x] + t)[1..] == t;
  }

  lemma FirstKeyNotInRest<V>(a: Dict<V>)
    requires |a| > 0
    ensures a[0].0 !in KeySet(a[1..])
  {
    forall i | 0 <= i < |a[1..]| ensures a[1..][i].0 != a[0].0 {
      assert a[1..][i] == a[i + 1];
    }
  }

  /** `isset($a[$k])`: the key is present and its value is not null. */
  predicate IsSet(a: seq<(string, Value)>, k: string) {
    Lookup(a, k).Some? && Lookup(a, k).value != Null
  }

  /** The position of a present key. */
  function IndexOf<V>(a: seq<(string, V)>, k: string): (i: nat)
    requires k in KeySet(a)
    ensures i < |a| && a[i].0 == k
    decreases |a|
  {
    KeySetCons(a[0], a[1..]);
    assert [a[0]] + a[1..] == a;
    if a[0].0 == k then 0 else IndexOf(a[1..], k) + 1
  }

  /** `$a[$k] = $v`: an existing key keeps its position, a new key goes last. */
  function Put<V>(a: Dict<V>, k: string, v: V): (r: Dict<V>)
    ensures KeysOf(r) == if k in KeySet(a) then KeysOf(a) else KeysOf(a) + [k]
    ensures KeySet(r) == KeySet(a) + {k}
    ensures Lookup(r, k) == Some(v)
    ensures forall k' :: k' != k ==> Lookup(r, k') == Lookup(a, k')
  {
    if k in KeySet(a) then
      var i := IndexOf(a, k);
      var r := a[i := (k, v)];
      assert KeysOf(r) == KeysOf(a);
      assert KeySet(r) == KeySet(a) by {
        forall x ensures x in KeySet(r) <==> x in KeySet(a) {
          if x in KeySet(a) {
            var j :| 0 <= j < |a| && a[j].0 == x;
            assert r[j].0 == x;
          }
          if x in KeySet(r) {
            var j :| 0 <= j < |r| && r[j].0 == x;
            assert a[j].0 == x;
          }
        }
      }
      assert DistinctKeys(r);
      LookupOthers(a, r, k);
      r
    else
      var r := a + [(k, v)];
      assert DistinctKeys(r) by {
        forall j | 0 <= j < |a| ensures a[j].0 != k {
          assert a[j].0 in KeySet(a);
        }
      }
      assert KeySet(r) == KeySet(a) + {k} by {
        forall x ensures x in KeySet(r) <==> x in KeySet(a) + {k} {
          if x in KeySet(a) {
            var j :| 0 <= j < |a| && a[j].0 == x;
            assert r[j].0 == x;
          }
          if x in KeySet(r) {
            var j :| 0 <= j < |r| && r[j].0 == x;
            if j < |a| { assert a[j].0 == x; }
          }
        }
        assert r[|a|].0 == k;
      }
      assert r[|a|] == (k, v);
      LookupOthers(a, r, k);
      r
  }

  /** Two arrays that agree on every pair whose key is not `k` agree on every lookup but `k`. */
  lemma LookupOthers<V>(a: Dict<V>, r: Dict<V>, k: string)
    requires KeySet(r) - {k} == KeySet(a) - {k}
    requires forall j :: 0 <= j < |a| && a[j].0 != k ==> j < |r| && r[j] == a[j]
    ensures forall k' :: k' != k ==> Lookup(r, k') == Lookup(a, k')
  {
    forall k' | k' != k ensures Lookup(r, k') == Lookup(a, k') {
      LookupOther(a, r, k, k');
    }
  }

  lemma LookupOther<V>(a: Dict<V>, r: Dict<V>, k: string, k': string)
    requires k' != k
    requires KeySet(r) - {k} == KeySet(a) - {k}
    requires forall j :: 0 <= j < |a| && a[j].0 != k ==> j < |r| && r[j] == a[j]
    ensures Lookup(r, k') == Lookup(a, k')
  {
    if k' in KeySet(a) {
      var j := IndexOf(a, k');
      assert r[j] == a[j];
    } else {
      assert k' !in KeySet(r) - {k};
    }
  }

  /** `unset($a[$k])`: the key is gone, the rest keeps its order. */
  function Remove<V>(a: Dict<V>, k: string): (r: Dict<V>)
    ensures KeySet(r) == KeySet(a) - {k}
    ensures Lookup(r, k) == None
    ensures forall k' :: k' != k ==> Lookup(r, k') == Lookup(a, k')
    ensures KeysOf(r) == FilterKeys(KeysOf(a), KeySet(a) - {k})
    ensures |r| <= |a|
    decreases |a|
  {
    if |a| == 0 then a
    else
      var t := Remove(a[1..], k);
      KeySetCons(a[0], a[1..]);
      assert [a[0]] + a[1..] == a;
      KeysOfTail(a);
      FilterKeysAgree(KeysOf(a[1..]), KeySet(a) - {k}, KeySet(a[1..]) - {k});
      if a[0].0 == k then
        FirstKeyNotInRest(a);
        t
      else
        var r := [a[0]] + t;
        KeySetCons(a[0], t);
        KeysOfCons(a[0], t);
        FirstKeyNotInRest(a);
        assert DistinctKeys(r) by {
          forall i, j | 0 <= i < j < |r| ensures r[i].0 != r[j].0 {
            if i == 0 {
              assert r[j].0 in KeySet(t);
            }
          }
        }
        assert Lookup(r, a[0].0) == Some(a[0].1);
        r
  }

  /** `array_intersect_key($a, array_flip($ks))`: the pairs of `a` whose key is in
      `ks`, in the order of `a`. */
  function IntersectKeys<V>(a: Dict<V>, ks: set<string>): (r: Dict<V>)
    ensures KeySet(r) == KeySet(a) * ks
    ensures forall k :: Lookup(r, k) == if k in ks then Lookup(a, k) else None
    ensures forall i :: 0 <= i < |r| ==> r[i] in a
    decreases |a|
  {
    if |a| == 0 then a
    else
      var t := IntersectKeys(a[1..], ks);
      KeySetCons(a[0], a[1..]);
      assert [a[0]] + a[1..] == a;
      FirstKeyNotInRest(a);
      if a[0].0 in ks then
        var r := [a[0]] + t;
        KeySetCons(a[0], t);
        assert DistinctKeys(r) by {
          forall i, j | 0 <= i < j < |r| ensures r[i].0 != r[j].0 {
            if i == 0 {
              assert r[j].0 in KeySet(t);
            }
          }
        }
        assert Lookup(r, a[0].0) == Some(a[0].1);
        r
      else
        t
  }

  /** `array_intersect_key` keeps the kept keys in the order of `a`. */
  lemma {:induction false} IntersectKeysOrder<V>(a: Dict<V>, ks: set<string>)
    ensures KeysOf(IntersectKeys(a, ks)) == FilterKeys(KeysOf(a), ks)
    decreases |a|
  {
    if |a| > 0 {
      IntersectKeysOrder(a[1..], ks);
      KeysOfTail(a);
      if a[0].0 in ks {
        KeysOfCons(a[0], IntersectKeys(a[1..], ks));
      }
    }
  }

  /** The PHP `(int)` cast of a scalar. */
  function IntCast(v: Value): int {
    match v
    case Null => 0
    case Bool(b) => if b then 1 else 0
    case Int(i) => i
    case Str(s) => StringToInt(s)
  }
}
