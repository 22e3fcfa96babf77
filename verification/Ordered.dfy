/** Keys in order: what a range scan of an ordered storage engine hands back. */
module Ordered {
  import opened Values

  predicate Ascending(ks: seq<DbKey>)
  {
    forall i, j :: 0 <= i < j < |ks| ==> Less(ks[i], ks[j])
  }

  ghost predicate IsLeast(k: DbKey, keys: set<DbKey>)
  {
    k in keys && forall x :: x in keys ==> Leq(k, x)
  }

  lemma LeastExists(keys: set<DbKey>)
    requires keys != {}
    ensures exists k :: IsLeast(k, keys)
  {
    var k :| k in keys;
    if keys == {k} {
      LeqRefl(k);
      assert IsLeast(k, keys);
    } else {
      assert k in keys && keys - {k} != {};
      LeastExists(keys - {k});
      var m :| IsLeast(m, keys - {k});
      LeqTotal(k, m);
      LeqRefl(k);
      if Leq(m, k) {
        assert IsLeast(m, keys);
      } else {
        forall x | x in keys ensures Leq(k, x) {
          if x != k { LeqTrans(k, m, x); }
        }
        assert IsLeast(k, keys);
      }
    }
  }

  /** The keys of a set in ascending order. */
  ghost function Sorted(keys: set<DbKey>): (ks: seq<DbKey>)
    ensures Ascending(ks)
    ensures forall k :: k in ks <==> k in keys
  {
    if keys == {} then []
    else
      LeastExists(keys);
      var k :| IsLeast(k, keys);
      [k] + Sorted(keys - {k})
  }

  /** An ascending sequence is determined by its elements. */
  lemma {:induction false} AscendingUnique(p: seq<DbKey>, q: seq<DbKey>)
    requires Ascending(p) && Ascending(q)
    requires forall k :: k in p <==> k in q
    ensures p == q
  {
    HasElement(q);
    if p != [] {
      assert p[0] in q;
      assert q[0] in p;
      LeqTotal(p[0], q[0]);
      assert p[0] == q[0];
      forall k ensures k in p[1..] <==> k in q[1..] {
        assert k in p[1..] <==> k in p && k != p[0];
        assert k in q[1..] <==> k in q && k != q[0];
      }
      AscendingUnique(p[1..], q[1..]);
    }
  }

  /** The entries of a map in key order. */
  ghost function Listing<V>(m: map<DbKey, V>): seq<(DbKey, V)>
  {
    var ks := Sorted(m.Keys);
    seq(|ks|, i requires 0 <= i < |ks| => (assert ks[i] in ks; (ks[i], m[ks[i]])))
  }

  /** The entries of a map whose keys lie in a closed range. */
  function Within<V>(m: map<DbKey, V>, lo: DbKey, hi: DbKey): map<DbKey, V>
  {
    map k | k in m && InRange(k, lo, hi) :: m[k]
  }

  function KeysOf<V>(s: seq<(DbKey, V)>): seq<DbKey>
  {
    seq(|s|, i requires 0 <= i < |s| => s[i].0)
  }

  /** A list of entries in key order is the listing of exactly the map it spells out. */
  lemma ListingUnique<V>(s: seq<(DbKey, V)>, m: map<DbKey, V>)
    requires Ascending(KeysOf(s))
    requires forall i :: 0 <= i < |s| ==> s[i].0 in m && m[s[i].0] == s[i].1
    requires forall k :: k in m ==> k in KeysOf(s)
    ensures s == Listing(m)
  {
    forall k ensures k in KeysOf(s) <==> k in m.Keys {
      if k in KeysOf(s) {
        var i :| 0 <= i < |s| && KeysOf(s)[i] == k;
        assert s[i].0 in m;
      }
    }
    AscendingUnique(KeysOf(s), Sorted(m.Keys));
    assert |s| == |KeysOf(s)| == |Listing(m)|;
    forall i | 0 <= i < |s| ensures s[i] == Listing(m)[i] {
      assert KeysOf(s)[i] == s[i].0;
    }
  }

  /** A listing is in key order and holds exactly the entries of the map. */
  lemma ListingFacts<V>(m: map<DbKey, V>)
    ensures Ascending(KeysOf(Listing(m)))
    ensures forall k, v :: (k, v) in Listing(m) <==> k in m && m[k] == v
  {
    var ks := Sorted(m.Keys);
    assert KeysOf(Listing(m)) == ks;
    forall k, v ensures (k, v) in Listing(m) <==> k in m && m[k] == v {
      if (k, v) in Listing(m) {
        var i :| 0 <= i < |ks| && Listing(m)[i] == (k, v);
        assert ks[i] in ks;
      }
      if k in m && m[k] == v {
        var i :| 0 <= i < |ks| && ks[i] == k;
        assert Listing(m)[i] == (k, v);
      }
    }
  }

  /** A range scan of a storage engine: the entries in range, in key order. */
  method FilteredScan<V>(m: map<DbKey, V>, lo: DbKey, hi: DbKey) returns (s: seq<(DbKey, V)>)
    ensures s == Listing(Within(m, lo, hi))
  {
    s := [];
    var todo := Within(m, lo, hi).Keys;
    while todo != {}
      invariant todo <= Within(m, lo, hi).Keys
      invariant Ascending(KeysOf(s))
      invariant forall i, k :: 0 <= i < |s| && k in todo ==> Less(s[i].0, k)
      invariant forall i :: 0 <= i < |s| ==> s[i].0 in Within(m, lo, hi) && m[s[i].0] == s[i].1
      invariant forall k :: k in Within(m, lo, hi) ==> k in todo || k in KeysOf(s)
      decreases todo
    {
      var k := Least(todo);
      ghost var before := s;
      s := s + [(k, m[k])];
      assert KeysOf(s) == KeysOf(before) + [k];
      todo := todo - {k};
    }
    ListingUnique(s, Within(m, lo, hi));
  }

  method Least(keys: set<DbKey>) returns (k: DbKey)
    requires keys != {}
    ensures IsLeast(k, keys)
  {
    k :| k in keys;
    LeqRefl(k);
    var todo := keys - {k};
    while todo != {}
      invariant todo <= keys && k in keys
      invariant forall x :: x in keys - todo ==> Leq(k, x)
      decreases todo
    {
      var x :| x in todo;
      LeqTotal(k, x);
      if Leq(x, k) {
        forall y | y in keys - todo ensures Leq(x, y) { LeqTrans(x, k, y); }
        k := x;
        LeqRefl(k);
      }
      todo := todo - {x};
    }
  }
}
