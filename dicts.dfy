/**
  Python's `dict` as the source uses it: a finite map that remembers the order
  in which keys were first inserted. Assigning to an existing key keeps its
  position; assigning a new key appends it. `a | b` (dict union) assigns every
  entry of `b`, in `b`'s order, onto a copy of `a`.
 */
module Dicts {

  datatype Dict<K(==,!new), V> = Dict(keys: seq<K>, m: map<K, V>) {

    /** Keys are distinct and are exactly the domain of the map. */
    ghost predicate Valid() {
      && (forall i, j :: 0 <= i < j < |keys| ==> keys[i] != keys[j])
      && (forall k :: k in m <==> k in keys)
    }

    predicate Has(k: K) {
      k in m
    }

    function Get(k: K): V
      requires k in m
    {
      m[k]
    }

    /** `d[k] = v` */
    function Set(k: K, v: V): (r: Dict<K, V>)
      ensures Valid() ==> r.Valid()
      ensures r.m == m[k := v]
      ensures k in m ==> r.keys == keys
      ensures k !in m ==> r.keys == keys + [k]
    {
      if k in m then Dict(keys, m[k := v]) else Dict(keys + [k], m[k := v])
    }

    /** `self | other` */
    function Union(other: Dict<K, V>): (r: Dict<K, V>)
      requires Valid() && other.Valid()
      ensures r.Valid()
      ensures forall k :: k in r.m <==> k in m || k in other.m
      ensures forall k :: k in other.m ==> r.m[k] == other.m[k]
      ensures forall k :: k in m && k !in other.m ==> r.m[k] == m[k]
      ensures r.keys == keys + Unseen(other.keys, keys)
    {
      KeysAfterDistinct(keys, other.keys);
      SetAll(this, other.keys, other.m)
    }

    /** Assigning the same entry twice is the same as assigning it once. */
    lemma SetTwice(k: K, v: V)
      requires Valid()
      ensures Set(k, v).Set(k, v) == Set(k, v)
    {
    }

    /** The entries in insertion order. */
    function Items(): (r: seq<(K, V)>)
      requires Valid()
      ensures |r| == |keys|
      ensures forall i :: 0 <= i < |r| ==> r[i] == (keys[i], m[keys[i]])
    {
      seq(|keys|, i requires 0 <= i < |keys| => (keys[i], m[keys[i]]))
    }

    /**
      `items()` lists every key exactly once, each with its own value, and
      lists nothing else.
     */
    lemma ItemsFacts()
      requires Valid()
      ensures forall i, j :: 0 <= i < j < |Items()| ==> Items()[i].0 != Items()[j].0
      ensures forall k :: k in m <==> exists i :: 0 <= i < |Items()| && Items()[i].0 == k
      ensures forall p :: p in Items() ==> p.0 in m && m[p.0] == p.1
    {
      var r := Items();
      forall k | k in m ensures exists i :: 0 <= i < |r| && r[i].0 == k {
        var i :| 0 <= i < |keys| && keys[i] == k;
        assert r[i].0 == k;
      }
    }
  }

  function Empty<K(==,!new), V>(): (r: Dict<K, V>)
    ensures r.Valid() && r.keys == [] && r.m == map[]
  {
    Dict([], map[])
  }

  /** Assigns `src[k]` onto `d` for every `k` of `ks`, left to right. */
  function SetAll<K(==,!new), V>(d: Dict<K, V>, ks: seq<K>, src: map<K, V>): (r: Dict<K, V>)
    requires d.Valid()
    requires forall k :: k in ks ==> k in src
    ensures r.Valid()
    ensures forall k :: k in r.m <==> k in d.m || k in ks
    ensures forall k :: k in ks ==> r.m[k] == src[k]
    ensures forall k :: k in d.m && k !in ks ==> r.m[k] == d.m[k]
    ensures r.keys == KeysAfter(d.keys, ks)
    decreases |ks|
  {
    if ks == [] then d
    else
      var d' := d.Set(ks[0], src[ks[0]]);
      var r := SetAll(d', ks[1..], src);
      assert forall k :: k in ks <==> k == ks[0] || k in ks[1..];
      r
  }

  /** The keys `seen` ends with after `ks` are assigned in order: each new one goes last. */
  function KeysAfter<K(==)>(seen: seq<K>, ks: seq<K>): seq<K>
    decreases |ks|
  {
    if ks == [] then seen
    else KeysAfter(if ks[0] in seen then seen else seen + [ks[0]], ks[1..])
  }

  /** The elements of `ks` that are not in `seen`, in their order in `ks`. */
  function Unseen<K(==)>(ks: seq<K>, seen: seq<K>): (r: seq<K>)
    ensures |r| <= |ks|
    decreases |ks|
  {
    if ks == [] then []
    else (if ks[0] in seen then [] else [ks[0]]) + Unseen(ks[1..], seen)
  }

  /** Exactly the elements of `ks` missing from `seen` are unseen. */
  lemma {:induction false} UnseenMembers<K>(ks: seq<K>, seen: seq<K>)
    ensures forall k :: k in Unseen(ks, seen) <==> k in ks && k !in seen
    decreases |ks|
  {
    if ks != [] {
      UnseenMembers(ks[1..], seen);
      assert forall k :: k in ks <==> k == ks[0] || k in ks[1..];
    }
  }

  /** Adding an element `ks` does not hold does not change which of `ks` are unseen. */
  lemma {:induction false} UnseenExtend<K>(ks: seq<K>, seen: seq<K>, k: K)
    requires k !in ks
    ensures Unseen(ks, seen + [k]) == Unseen(ks, seen)
    decreases |ks|
  {
    if ks != [] {
      assert k !in ks[1..];
      UnseenExtend(ks[1..], seen, k);
    }
  }

  /** The tail of a sequence of distinct elements is distinct and lacks the head. */
  lemma DistinctTail<K>(ks: seq<K>)
    requires ks != []
    requires forall i, j :: 0 <= i < j < |ks| ==> ks[i] != ks[j]
    ensures forall i, j :: 0 <= i < j < |ks[1..]| ==> ks[1..][i] != ks[1..][j]
    ensures ks[0] !in ks[1..]
  {
    forall i, j | 0 <= i < j < |ks[1..]| ensures ks[1..][i] != ks[1..][j] {
      assert ks[1..][i] == ks[i + 1] && ks[1..][j] == ks[j + 1];
    }
    forall i | 0 <= i < |ks[1..]| ensures ks[1..][i] != ks[0] {
      assert ks[1..][i] == ks[i + 1];
    }
  }

  /**
    Assigning distinct keys `ks` keeps the keys already there in place and
    appends those of `ks` not yet present, in the order of `ks`.
   */
  lemma {:induction false} KeysAfterDistinct<K>(seen: seq<K>, ks: seq<K>)
    requires forall i, j :: 0 <= i < j < |ks| ==> ks[i] != ks[j]
    ensures KeysAfter(seen, ks) == seen + Unseen(ks, seen)
    decreases |ks|
  {
    if ks != [] {
      DistinctTail(ks);
      if ks[0] in seen {
        KeysAfterDistinct(seen, ks[1..]);
        assert KeysAfter(seen, ks) == KeysAfter(seen, ks[1..]);
        assert Unseen(ks, seen) == [] + Unseen(ks[1..], seen) == Unseen(ks[1..], seen);
      } else {
        KeysAfterDistinct(seen + [ks[0]], ks[1..]);
        UnseenExtend(ks[1..], seen, ks[0]);
        assert KeysAfter(seen, ks) == KeysAfter(seen + [ks[0]], ks[1..]);
        assert Unseen(ks, seen) == [ks[0]] + Unseen(ks[1..], seen);
        assert (seen + [ks[0]]) + Unseen(ks[1..], seen) == seen + ([ks[0]] + Unseen(ks[1..], seen));
      }
    }
  }

  /** A dict literal `{k0: v0, k1: v1, ...}`. */
  function Of<K(==,!new), V>(entries: seq<(K, V)>): (r: Dict<K, V>)
    ensures r.Valid()
    ensures forall k :: k in r.m <==> exists i :: 0 <= i < |entries| && entries[i].0 == k
    decreases |entries|
  {
    if entries == [] then Empty()
    else
      var d := Of(entries[..|entries| - 1]);
      var e := entries[|entries| - 1];
      var r := d.Set(e.0, e.1);
      assert forall i :: 0 <= i < |entries| - 1 ==> entries[..|entries| - 1][i] == entries[i];
      r
  }
}
