/** The insertion-ordered map the repository's bookkeeping tables are built from:
    setting a present key keeps its place, a new key goes last, and the FIFO cap
    drops keys from the front. */
module Dicts {
  import opened Ids

  datatype Dict<V> = Dict(keys: seq<Id>, at: map<Id, V>) {

    ghost predicate Valid() {
      Distinct(keys) && Elements(keys) == at.Keys
    }

    function Set(k: Id, v: V): Dict<V> {
      Dict(if k in at then keys else keys + [k], at[k := v])
    }

    function Delete(k: Id): Dict<V> {
      Dict(Without(keys, k), at - {k})
    }

    // Only the n most recently added keys survive.
    function Newest(n: nat): Dict<V> {
      if |keys| <= n then this else
        var kept := keys[|keys| - n..];
        Dict(kept, map k | k in at && k in kept :: at[k])
    }
  }

  function Empty<V>(): Dict<V> { Dict([], map[]) }

  function Without(s: seq<Id>, k: Id): seq<Id> {
    if s == [] then [] else (if s[0] == k then [] else [s[0]]) + Without(s[1..], k)
  }

  lemma {:induction false} WithoutKeeps(s: seq<Id>, k: Id)
    ensures Elements(Without(s, k)) == Elements(s) - {k}
    ensures Distinct(s) ==> Distinct(Without(s, k))
    ensures k !in s ==> Without(s, k) == s
  {
    if s != [] {
      var rest := Without(s[1..], k);
      WithoutKeeps(s[1..], k);
      ElementsFirst(s);
      assert s == [s[0]] + s[1..];
      if s[0] == k {
        assert Without(s, k) == rest;
      } else {
        ElementsFirst(Without(s, k));
        assert Without(s, k)[1..] == rest;
        assert s[0] in Elements(rest) <==> s[0] in Elements(s[1..]);
      }
    }
  }

  lemma {:induction false} WithoutNotLonger(s: seq<Id>, k: Id)
    ensures |Without(s, k)| <= |s| && (k in s ==> |Without(s, k)| < |s|)
  {
    if s != [] { WithoutNotLonger(s[1..], k); }
  }

  lemma ElementsFirst(s: seq<Id>)
    requires s != []
    ensures Elements(s) == {s[0]} + Elements(s[1..])
  {}

  lemma {:induction false} AppendDistinct(s: seq<Id>, k: Id)
    requires Distinct(s)
    ensures Distinct(s + [k]) <==> k !in s
    ensures Elements(s + [k]) == Elements(s) + {k}
  {
    if s != [] {
      AppendDistinct(s[1..], k);
      assert (s + [k])[1..] == s[1..] + [k];
    }
  }

  lemma {:induction false} SuffixDistinct(s: seq<Id>, i: nat)
    requires Distinct(s) && i <= |s|
    ensures Distinct(s[i..])
  {
    if i > 0 {
      SuffixDistinct(s[1..], i - 1);
      assert s[i..] == s[1..][i - 1..];
    }
  }

  lemma SetValid<V>(d: Dict<V>, k: Id, v: V)
    requires d.Valid()
    ensures d.Set(k, v).Valid()
  {
    AppendDistinct(d.keys, k);
    assert k in d.keys <==> k in Elements(d.keys);
  }

  lemma DeleteValid<V>(d: Dict<V>, k: Id)
    requires d.Valid()
    ensures d.Delete(k).Valid()
    ensures k !in d.at ==> d.Delete(k) == d
  {
    WithoutKeeps(d.keys, k);
    assert k in d.keys <==> k in Elements(d.keys);
    assert k !in d.at ==> d.at - {k} == d.at;
  }

  lemma NewestValid<V>(d: Dict<V>, n: nat)
    requires d.Valid()
    ensures d.Newest(n).Valid() && |d.Newest(n).keys| <= n
    ensures d.Newest(n).at.Keys <= d.at.Keys
    ensures forall k | k in d.Newest(n).at :: d.Newest(n).at[k] == d.at[k]
  {
    if |d.keys| > n {
      SuffixDistinct(d.keys, |d.keys| - n);
      assert forall k | k in d.Newest(n).keys :: k in Elements(d.keys);
    }
  }

  // The number of keys is the size of the map, so a table whose keys come from a
  // set of at most n ids is never capped at n.
  lemma KeysBounded<V>(d: Dict<V>, universe: set<Id>, n: nat)
    requires d.Valid() && d.at.Keys <= universe && |universe| <= n
    ensures |d.keys| <= n && d.Newest(n) == d
  {
    ElementsSize(d.keys);
    SubsetSize(d.at.Keys, universe);
  }

  /** capMap: delete the first key while the map is larger than the cap. */
  method CapFifo<V>(d: Dict<V>, cap: nat) returns (r: Dict<V>)
    requires d.Valid()
    ensures r.Valid() && r == d.Newest(cap)
  {
    r := d;
    ghost var dropped := 0;
    while |r.keys| > cap
      invariant 0 <= dropped <= |d.keys| && (dropped > 0 ==> |d.keys| - dropped >= cap)
      invariant r.Valid() && r.keys == d.keys[dropped..]
      invariant dropped == 0 ==> r == d
      invariant forall k | k in r.at :: k in d.at && r.at[k] == d.at[k]
    {
      var first := r.keys[0];
      WithoutKeeps(r.keys[1..], first);
      DeleteValid(r, first);
      r := r.Delete(first);
      dropped := dropped + 1;
    }
    if dropped > 0 {
      assert forall k :: k in r.at <==> k in Elements(r.keys);
      assert r.at == d.Newest(cap).at;
    }
  }
}
