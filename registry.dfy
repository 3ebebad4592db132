/** The insertion-ordered root registry both colour maps keep: a Python dict from rounded
    root to class id (robust.py:114-115,131-134,140; test.py:79-80,92-95) together with
    `root_count`. Keys are registered in the order they are first seen, and each new key
    gets the number of keys registered before it. */
module Registry {
  import opened Numbers

  /** A rounded root, the dict key. */
  type Key = Complex

  predicate Distinct(s: seq<Key>)
  {
    forall m, n :: 0 <= m < n < |s| ==> s[m] != s[n]
  }

  /** The distinct elements of s, each once, in the order of first occurrence. */
  function FirstOccurrences(s: seq<Key>): (r: seq<Key>)
    ensures Distinct(r)
    ensures forall k :: k in r <==> k in s
    ensures |r| <= |s|
  {
    if s == [] then []
    else
      var f := FirstOccurrences(s[..|s| - 1]);
      var k := s[|s| - 1];
      assert forall x :: x in s <==> x in s[..|s| - 1] || x == k;
      if k in f then f else f + [k]
  }

  /** The index of k in s, its first one. */
  function Pos(s: seq<Key>, k: Key): (n: nat)
    requires k in s
    ensures n < |s| && s[n] == k
    ensures forall m :: 0 <= m < n ==> s[m] != k
  {
    if s[0] == k then 0 else 1 + Pos(s[1..], k)
  }

  /** In a sequence without repetitions, the index of an element is the one it sits at. */
  lemma PosOfDistinct(s: seq<Key>, n: nat)
    requires Distinct(s) && n < |s|
    ensures Pos(s, s[n]) == n
  {
  }

  lemma FirstOccurrencesSnoc(s: seq<Key>, k: Key)
    ensures FirstOccurrences(s + [k]) == if k in s then FirstOccurrences(s) else FirstOccurrences(s) + [k]
  {
    assert (s + [k])[..|s|] == s;
  }

  /** Scanning more keys only appends to the registry: the keys already there keep their
      places. */
  lemma {:induction false} FirstOccurrencesGrow(s: seq<Key>, t: seq<Key>)
    ensures |FirstOccurrences(s)| <= |FirstOccurrences(s + t)|
    ensures FirstOccurrences(s + t)[..|FirstOccurrences(s)|] == FirstOccurrences(s)
    decreases |t|
  {
    if t != [] {
      var u := t[..|t| - 1];
      FirstOccurrencesGrow(s, u);
      assert s + t == (s + u) + [t[|t| - 1]];
      FirstOccurrencesSnoc(s + u, t[|t| - 1]);
    } else {
      assert s + t == s;
    }
  }

  /** A key's id never changes once it is registered. */
  lemma IdStable(s: seq<Key>, t: seq<Key>, k: Key)
    requires k in s
    ensures Pos(FirstOccurrences(s + t), k) == Pos(FirstOccurrences(s), k)
  {
    FirstOccurrencesGrow(s, t);
    var r, r' := FirstOccurrences(s), FirstOccurrences(s + t);
    var n := Pos(r, k);
    assert r'[n] == k;
    PosOfDistinct(r', n);
  }

  /** A key seen for the first time gets the number of distinct keys seen before it. */
  lemma NewId(s: seq<Key>, k: Key)
    requires k !in s
    ensures Pos(FirstOccurrences(s + [k]), k) == |FirstOccurrences(s)|
  {
    FirstOccurrencesSnoc(s, k);
    var r := FirstOccurrences(s + [k]);
    PosOfDistinct(r, |r| - 1);
  }

  /** The registry lists keys in discovery order: an earlier id belongs to a key first
      seen earlier in the scan. */
  lemma {:induction false} DiscoveryOrder(s: seq<Key>, m: nat, n: nat)
    requires m < n < |FirstOccurrences(s)|
    ensures Pos(s, FirstOccurrences(s)[m]) < Pos(s, FirstOccurrences(s)[n])
    decreases |s|
  {
    var s' := s[..|s| - 1];
    var k := s[|s| - 1];
    var f := FirstOccurrences(s');
    var r := FirstOccurrences(s);
    assert s == s' + [k];
    FirstOccurrencesSnoc(s', k);
    if n < |f| {
      assert r[m] == f[m] && r[n] == f[n];
      DiscoveryOrder(s', m, n);
      PosInPrefix(s', k, f[m]);
      PosInPrefix(s', k, f[n]);
      assert Pos(s, r[m]) == Pos(s', f[m]) && Pos(s, r[n]) == Pos(s', f[n]);
    } else {
      assert r == f + [k] && r[m] == f[m];
      assert r[n] == k && k !in s';
      PosInPrefix(s', k, f[m]);
      assert Pos(s, r[m]) < |s'|;
      assert Pos(s, k) == |s'|;
    }
  }

  lemma PosInPrefix(s: seq<Key>, k: Key, x: Key)
    requires x in s
    ensures Pos(s + [k], x) == Pos(s, x)
  {
    var n := Pos(s, x);
    assert (s + [k])[n] == x;
    assert forall m :: 0 <= m < n ==> (s + [k])[m] == s[m];
  }

  /** Registering one more key keeps the registry equal to the first occurrences of the
      keys scanned so far. */
  lemma RegisterStep(ks: seq<Key>, rs: seq<Key>, k: Key)
    ensures FirstOccurrences(ks + (rs + [k]))
            == if k in FirstOccurrences(ks + rs) then FirstOccurrences(ks + rs) else FirstOccurrences(ks + rs) + [k]
  {
    assert ks + (rs + [k]) == (ks + rs) + [k];
    FirstOccurrencesSnoc(ks + rs, k);
  }

  /** The registry as the colour maps mutate it: the dict `roots` (its keys in insertion
      order and its values) and the counter `root_count`. */
  class RootRegistry {
    var keys: seq<Key>
    var ids: map<Key, int>
    var count: int

    /** The dict's key order lists each key once and exactly its keys. */
    ghost predicate Valid()
      reads this
    {
      Distinct(keys) && (forall k :: k in ids <==> k in keys)
    }

    /** Ids are the positions 0, 1, ... in insertion order and `root_count` is their number. */
    ghost predicate Dense()
      reads this
    {
      Valid() && count == |keys| && forall n :: 0 <= n < |keys| ==> ids[keys[n]] == n
    }

    /** `root_count = 0; roots = {}` */
    constructor ()
      ensures Dense() && keys == []
    {
      keys := [];
      ids := map[];
      count := 0;
    }

    /** `if not root in roots: roots[root] = root_count; root_count += 1`, then the id
        `roots[root]` that the cell is painted with. */
    method Register(key: Key) returns (id: int)
      requires Dense()
      modifies this
      ensures Dense()
      ensures keys == if key in old(keys) then old(keys) else old(keys) + [key]
      ensures key in ids && id == ids[key] && id == Pos(keys, key)
      ensures forall k :: k in old(ids) ==> k in ids && ids[k] == old(ids)[k]
    {
      if key !in ids {
        ids := ids[key := count];
        keys := keys + [key];
        count := count + 1;
        PosOfDistinct(keys, |keys| - 1);
      } else {
        PosOfDistinct(keys, Pos(keys, key));
      }
      id := ids[key];
    }

    /** `roots[root] = root_count`: a dict store, which appends a new key and keeps the
        place of an existing one. */
    method Assign(key: Key, id: int)
      requires Valid()
      modifies this
      ensures Valid()
      ensures keys == if key in old(keys) then old(keys) else old(keys) + [key]
      ensures ids == old(ids)[key := id] && count == old(count)
    {
      if key !in ids {
        keys := keys + [key];
      }
      ids := ids[key := id];
    }
  }
}
