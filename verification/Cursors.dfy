/** Scan cursors: ascending entries that stand for a map, consumed from the front. */
module Cursors {
  import opened Values
  import opened Ordered

  /** Entries with distinct keys, as a map. */
  function AsMap<V>(s: seq<(DbKey, V)>): map<DbKey, V>
  {
    if s == [] then map[] else AsMap(s[1..])[s[0].0 := s[0].1]
  }

  lemma {:induction false} AsMapKeys<V>(s: seq<(DbKey, V)>)
    ensures forall k :: k in AsMap(s) <==> k in KeysOf(s)
  {
    if s != [] {
      AsMapKeys(s[1..]);
      assert KeysOf(s) == [s[0].0] + KeysOf(s[1..]);
    }
  }

  /** Taking the first entry of a cursor takes the least key out of the map it stands for. */
  lemma AsMapHead<V>(s: seq<(DbKey, V)>)
    requires s != [] && Ascending(KeysOf(s))
    ensures IsLeast(s[0].0, AsMap(s).Keys)
    ensures AsMap(s)[s[0].0] == s[0].1 && AsMap(s[1..]) == AsMap(s) - {s[0].0}
    ensures Ascending(KeysOf(s[1..]))
  {
    AsMapKeys(s);
    AsMapKeys(s[1..]);
    var ks := KeysOf(s);
    assert KeysOf(s[1..]) == ks[1..];
    LeqRefl(ks[0]);
    forall k | k in AsMap(s).Keys ensures Leq(ks[0], k) {
      var i :| 0 <= i < |ks| && ks[i] == k;
    }
    assert ks[0] !in ks[1..];
  }

  lemma {:induction false} AsMapAt<V>(s: seq<(DbKey, V)>, i: nat)
    requires Ascending(KeysOf(s)) && i < |s|
    ensures s[i].0 in AsMap(s) && AsMap(s)[s[i].0] == s[i].1
  {
    if i > 0 {
      assert KeysOf(s[1..]) == KeysOf(s)[1..];
      AsMapAt(s[1..], i - 1);
      assert Less(KeysOf(s)[0], KeysOf(s)[i]);
    }
  }

  lemma ListingAsMap<V>(m: map<DbKey, V>, s: seq<(DbKey, V)>)
    requires s == Listing(m)
    ensures AsMap(s) == m && Ascending(KeysOf(s))
  {
    hide Listing, AsMap;
    ListingFacts(m);
    AsMapKeys(s);
    forall k | k in m ensures k in AsMap(s) && AsMap(s)[k] == m[k] {
      assert (k, m[k]) in s;
      var i :| 0 <= i < |s| && s[i] == (k, m[k]);
      AsMapAt(s, i);
    }
    forall k | k in AsMap(s) ensures k in m {
      var i :| 0 <= i < |s| && KeysOf(s)[i] == k;
      assert s[i] in s;
    }
  }

  lemma EmptyListing<V>()
    ensures Listing<V>(map[]) == []
  {
  }

  /** The listing of a map starts with its least key. */
  lemma ListingHead<V>(m: map<DbKey, V>, k: DbKey)
    requires IsLeast(k, m.Keys)
    ensures Listing(m) == [(k, m[k])] + Listing(m - {k})
  {
    hide Listing;
    var rest := Listing(m - {k});
    ListingFacts(m - {k});
    var s := [(k, m[k])] + rest;
    assert KeysOf(s) == [k] + KeysOf(rest);
    forall i | 0 <= i < |rest| ensures Less(k, KeysOf(rest)[i]) {
      assert rest[i] in rest;
    }
    forall x | x in m ensures x in KeysOf(s) {
      if x != k {
        assert (x, m[x]) in rest;
        var i :| 0 <= i < |rest| && rest[i] == (x, m[x]);
        assert KeysOf(s)[i + 1] == x;
      } else {
        assert KeysOf(s)[0] == k;
      }
    }
    forall i | 0 <= i < |s| ensures s[i].0 in m && m[s[i].0] == s[i].1 {
      if i > 0 { assert rest[i - 1] in rest; }
    }
    ListingUnique(s, m);
  }

  lemma SuffixAscending<V>(s: seq<(DbKey, V)>, n: nat)
    requires Ascending(KeysOf(s)) && n <= |s|
    ensures Ascending(KeysOf(s[n..]))
  {
    assert KeysOf(s[n..]) == KeysOf(s)[n..];
  }

  lemma KeysTail<V>(s: seq<(DbKey, V)>)
    requires s != []
    ensures KeysOf(s) == [s[0].0] + KeysOf(s[1..])
  {
  }
}
