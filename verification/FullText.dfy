/** Evaluating full-text queries on an inverted index with positions. */
module FullText {
  import opened Values
  import opened Indexes
  import opened Ordered
  import opened Queries

  type Interval = (DbKey, DbKey)

  function TokenRange(token: string, lo: DbKey, hi: DbKey): Interval
  {
    (TokenKey(token, lo), TokenKey(token, hi))
  }

  /** Every key of an inverted index is a token followed by a primary key, and stores positions. */
  predicate Inverted(e: Engine)
  {
    forall x :: x in e ==> x == TokenKey(TokenIn(x), PkOf(x)) && e[x].Positions?
  }

  function TokenIn(x: DbKey): string
  {
    if x.KComposite? && x.parts != [] && x.parts[0].KStr? then x.parts[0].s else ""
  }

  // ---------- What an evaluation means, entry by entry ----------

  ghost predicate Posted(e: Engine, token: string, pk: DbKey, lo: DbKey, hi: DbKey)
  {
    InRange(pk, lo, hi) && TokenKey(token, pk) in e
  }

  function PostedAt(e: Engine, token: string, pk: DbKey): seq<nat>
  {
    var x := TokenKey(token, pk);
    if x in e && e[x].Positions? then e[x].at else []
  }

  /** Some position of the first token is followed, step by step, by the others. */
  ghost predicate Follows(e: Engine, phrase: seq<string>, pk: DbKey, start: nat)
  {
    forall i :: 0 <= i < |phrase| ==> start + i in PostedAt(e, phrase[i], pk)
  }

  ghost predicate PhraseSatisfied(e: Engine, p: seq<string>, pk: DbKey, lo: DbKey, hi: DbKey)
  {
    p != [] && InRange(pk, lo, hi) && if |p| == 1 then TokenKey(p[0], pk) in e else exists start :: Follows(e, p, pk, start)
  }

  ghost predicate IndexSatisfies(e: Engine, q: Query, pk: DbKey, lo: DbKey, hi: DbKey)
  {
    match q
    case Token(t) => Posted(e, t, pk, lo, hi)
    case And(l, r) => IndexSatisfies(e, l, pk, lo, hi) && IndexSatisfies(e, r, pk, lo, hi)
    case Or(l, r) => IndexSatisfies(e, l, pk, lo, hi) || IndexSatisfies(e, r, pk, lo, hi)
    case Phrase(p) => PhraseSatisfied(e, p, pk, lo, hi)
  }

  /** The ranges an evaluation scans, in order. */
  function ScannedRanges(q: Query, lo: DbKey, hi: DbKey): seq<Interval>
  {
    match q
    case Token(t) => [TokenRange(t, lo, hi)]
    case And(l, r) => ScannedRanges(l, lo, hi) + ScannedRanges(r, lo, hi)
    case Or(l, r) => ScannedRanges(l, lo, hi) + ScannedRanges(r, lo, hi)
    case Phrase(p) => seq(|p|, i requires 0 <= i < |p| => TokenRange(p[i], lo, hi))
  }

  // ---------- The evaluator ----------

  /** A token's range holds exactly that token's entries for primary keys in bounds. */
  lemma InTokenRange(token: string, other: string, pk: DbKey, lo: DbKey, hi: DbKey)
    ensures InRange(TokenKey(other, pk), TokenKey(token, lo), TokenKey(token, hi)) <==>
            other == token && InRange(pk, lo, hi)
  {
    PairLeq(KStr(token), lo, KStr(other), pk);
    PairLeq(KStr(other), pk, KStr(token), hi);
    StrTotal(token, other);
  }

  lemma PairLeq(a: DbKey, b: DbKey, c: DbKey, d: DbKey)
    ensures Leq(KComposite([a, b]), KComposite([c, d])) <==> if a == c then Leq(b, d) else Leq(a, c)
  {
    assert [a, b][1..] == [b] && [c, d][1..] == [d];
    assert [b][1..] == [] && [d][1..] == [];
    if b == d {
      LeqRefl(b);
      assert SeqLeq([b], [d]) == SeqLeq([b][1..], [d][1..]);
    }
    assert SeqLeq([b], [d]) == Leq(b, d);
    assert SeqLeq([a, b], [c, d]) == if a == c then SeqLeq([a, b][1..], [c, d][1..]) else Leq(a, c);
  }

  /** The postings of a token: its entries for primary keys in bounds, by primary key. */
  ghost predicate IsPostings(e: Engine, token: string, lo: DbKey, hi: DbKey, m: map<DbKey, seq<nat>>)
  {
    && (forall pk :: pk in m <==> Posted(e, token, pk, lo, hi))
    && (forall pk :: pk in m ==> m[pk] == PostedAt(e, token, pk))
  }

  /** Scans one token's range and reads off primary keys and positions. */
  method ScanToken(e: Engine, token: string, lo: DbKey, hi: DbKey) returns (m: map<DbKey, seq<nat>>)
    requires Inverted(e)
    ensures IsPostings(e, token, lo, hi, m)
  {
    hide Listing, Inverted, TokenIn;
    var (from, to) := TokenRange(token, lo, hi);
    var entries := FilteredScan(e, from, to);
    m := map[];
    for n := 0 to |entries|
      invariant forall pk :: pk in m ==> Posted(e, token, pk, lo, hi) && m[pk] == PostedAt(e, token, pk)
      invariant forall i :: 0 <= i < n ==> PkOf(entries[i].0) in m
    {
      var (x, v) := entries[n];
      ListedEntry(e, token, lo, hi, n);
      m := m[PkOf(x) := v.at];
    }
    forall pk | Posted(e, token, pk, lo, hi) ensures pk in m {
      PostedListed(e, token, lo, hi, pk);
      var i :| 0 <= i < |entries| && entries[i].0 == TokenKey(token, pk);
    }
  }

  lemma ListedEntry(e: Engine, token: string, lo: DbKey, hi: DbKey, n: nat)
    requires Inverted(e)
    requires n < |Listing(Within(e, TokenKey(token, lo), TokenKey(token, hi)))|
    ensures var (x, v) := Listing(Within(e, TokenKey(token, lo), TokenKey(token, hi)))[n];
            x == TokenKey(token, PkOf(x)) && Posted(e, token, PkOf(x), lo, hi) && v.Positions? && v.at == PostedAt(e, token, PkOf(x))
  {
    var part := Within(e, TokenKey(token, lo), TokenKey(token, hi));
    var x := Sorted(part.Keys)[n];
    assert x in Sorted(part.Keys);
    InTokenRange(token, TokenIn(x), PkOf(x), lo, hi);
  }

  lemma PostedListed(e: Engine, token: string, lo: DbKey, hi: DbKey, pk: DbKey)
    requires Posted(e, token, pk, lo, hi)
    ensures var s := Listing(Within(e, TokenKey(token, lo), TokenKey(token, hi)));
            exists i :: 0 <= i < |s| && s[i].0 == TokenKey(token, pk)
  {
    var part := Within(e, TokenKey(token, lo), TokenKey(token, hi));
    InTokenRange(token, token, pk, lo, hi);
    assert TokenKey(token, pk) in part;
    var ks := Sorted(part.Keys);
    var i :| 0 <= i < |ks| && ks[i] == TokenKey(token, pk);
    assert Listing(part)[i].0 == ks[i];
  }

  /** Does some position of the first token continue contiguously through all the maps? */
  method Contiguous(maps: seq<map<DbKey, seq<nat>>>, pk: DbKey) returns (found: bool)
    requires maps != [] && forall i :: 0 <= i < |maps| ==> pk in maps[i]
    ensures found <==> exists s :: StartsAt(maps, pk, s)
  {
    var first := maps[0][pk];
    for n := 0 to |first|
      invariant forall j :: 0 <= j < n ==> !StartsAt(maps, pk, first[j])
    {
      var ok := true;
      var i := 1;
      while i < |maps| && ok
        invariant 1 <= i <= |maps|
        invariant ok ==> forall j :: 1 <= j < i ==> first[n] + j in maps[j][pk]
        invariant !ok ==> exists j :: 1 <= j < |maps| && first[n] + j !in maps[j][pk]
        decreases |maps| - i, ok
      {
        if first[n] + i !in maps[i][pk] {
          ok := false;
        } else {
          i := i + 1;
        }
      }
      if ok {
        assert StartsAt(maps, pk, first[n]);
        return true;
      }
    }
    forall s ensures !StartsAt(maps, pk, s) {
      if s in first {
        var j :| 0 <= j < |first| && first[j] == s;
      }
    }
    found := false;
  }

  ghost predicate StartsAt(maps: seq<map<DbKey, seq<nat>>>, pk: DbKey, s: nat)
    requires forall i :: 0 <= i < |maps| ==> pk in maps[i]
  {
    forall i :: 0 <= i < |maps| ==> s + i in maps[i][pk]
  }

  ghost predicate ArePostings(e: Engine, phrase: seq<string>, lo: DbKey, hi: DbKey, maps: seq<map<DbKey, seq<nat>>>)
  {
    |maps| <= |phrase| && forall i :: 0 <= i < |maps| ==> IsPostings(e, phrase[i], lo, hi, maps[i])
  }

  lemma StartsFollow(e: Engine, phrase: seq<string>, lo: DbKey, hi: DbKey, maps: seq<map<DbKey, seq<nat>>>, pk: DbKey)
    requires ArePostings(e, phrase, lo, hi, maps) && |maps| == |phrase|
    requires forall i :: 0 <= i < |maps| ==> pk in maps[i]
    ensures forall s :: StartsAt(maps, pk, s) <==> Follows(e, phrase, pk, s)
  {
    assert forall i :: 0 <= i < |maps| ==> maps[i][pk] == PostedAt(e, phrase[i], pk);
  }

  /** Phrase evaluation: intersect the postings, then look for contiguous positions. */
  method EvalPhrase(e: Engine, phrase: seq<string>, lo: DbKey, hi: DbKey)
    returns (pks: set<DbKey>, ranges: seq<Interval>)
    requires Inverted(e)
    ensures forall pk :: pk in pks <==> PhraseSatisfied(e, phrase, pk, lo, hi)
    ensures ranges == ScannedRanges(Phrase(phrase), lo, hi)
  {
    ShortPhrases(e, phrase, lo, hi);
    hide *;
    if phrase == [] {
      return {}, [];
    }
    if |phrase| == 1 {
      var m := ScanToken(e, phrase[0], lo, hi);
      PostingKeys(e, phrase[0], lo, hi, m);
      return m.Keys, [TokenRange(phrase[0], lo, hi)];
    }
    var maps;
    maps, ranges := ScanPhrase(e, phrase, lo, hi);
    var candidates := Intersect(maps);
    pks := MatchCandidates(e, phrase, lo, hi, maps, candidates);
  }

  /** Nothing satisfies the empty phrase, and a phrase of one token is that token. */
  lemma ShortPhrases(e: Engine, phrase: seq<string>, lo: DbKey, hi: DbKey)
    ensures phrase == [] ==> ScannedRanges(Phrase(phrase), lo, hi) == [] && forall pk :: !PhraseSatisfied(e, phrase, pk, lo, hi)
    ensures |phrase| == 1 ==>
      && ScannedRanges(Phrase(phrase), lo, hi) == [TokenRange(phrase[0], lo, hi)]
      && forall pk :: PhraseSatisfied(e, phrase, pk, lo, hi) <==> Posted(e, phrase[0], pk, lo, hi)
  {
    hide InRange, Follows, TokenKey, TokenRange;
  }

  lemma PostingKeys(e: Engine, token: string, lo: DbKey, hi: DbKey, m: map<DbKey, seq<nat>>)
    requires IsPostings(e, token, lo, hi, m)
    ensures forall pk :: pk in m.Keys <==> Posted(e, token, pk, lo, hi)
  {
    hide Posted;
  }

  /** One posting map per token of the phrase. */
  method ScanPhrase(e: Engine, phrase: seq<string>, lo: DbKey, hi: DbKey)
    returns (maps: seq<map<DbKey, seq<nat>>>, ranges: seq<Interval>)
    requires Inverted(e)
    ensures |maps| == |phrase| && ArePostings(e, phrase, lo, hi, maps)
    ensures ranges == ScannedRanges(Phrase(phrase), lo, hi)
  {
    RangesOfPhrase(phrase, lo, hi);
    hide *;
    maps, ranges := [], [];
    NoPostings(e, phrase, lo, hi);
    for n := 0 to |phrase|
      invariant |maps| == n && ArePostings(e, phrase, lo, hi, maps)
      invariant |ranges| == n && forall i :: 0 <= i < n ==> ranges[i] == TokenRange(phrase[i], lo, hi)
    {
      ranges := ranges + [TokenRange(phrase[n], lo, hi)];
      var m := ScanToken(e, phrase[n], lo, hi);
      MorePostings(e, phrase, lo, hi, maps, m);
      maps := maps + [m];
    }
  }

  lemma RangesOfPhrase(phrase: seq<string>, lo: DbKey, hi: DbKey)
    ensures |ScannedRanges(Phrase(phrase), lo, hi)| == |phrase|
    ensures forall i :: 0 <= i < |phrase| ==> ScannedRanges(Phrase(phrase), lo, hi)[i] == TokenRange(phrase[i], lo, hi)
  {
  }

  lemma NoPostings(e: Engine, phrase: seq<string>, lo: DbKey, hi: DbKey)
    ensures ArePostings(e, phrase, lo, hi, [])
  {
  }

  lemma MorePostings(e: Engine, phrase: seq<string>, lo: DbKey, hi: DbKey, maps: seq<map<DbKey, seq<nat>>>,
      m: map<DbKey, seq<nat>>)
    requires ArePostings(e, phrase, lo, hi, maps) && |maps| < |phrase| && IsPostings(e, phrase[|maps|], lo, hi, m)
    ensures ArePostings(e, phrase, lo, hi, maps + [m])
  {
    hide IsPostings;
  }

  /** The primary keys that every map has. */
  method Intersect(maps: seq<map<DbKey, seq<nat>>>) returns (candidates: set<DbKey>)
    requires maps != []
    ensures forall pk :: pk in candidates <==> forall i :: 0 <= i < |maps| ==> pk in maps[i]
  {
    candidates := maps[0].Keys;
    for n := 1 to |maps|
      invariant forall pk :: pk in candidates <==> forall i :: 0 <= i < n ==> pk in maps[i]
    {
      candidates := set pk | pk in candidates && pk in maps[n];
    }
  }

  method MatchCandidates(ghost e: Engine, ghost phrase: seq<string>, ghost lo: DbKey, ghost hi: DbKey,
      maps: seq<map<DbKey, seq<nat>>>, candidates: set<DbKey>) returns (pks: set<DbKey>)
    requires |maps| == |phrase| >= 2 && ArePostings(e, phrase, lo, hi, maps)
    requires forall pk :: pk in candidates <==> forall i :: 0 <= i < |maps| ==> pk in maps[i]
    ensures forall pk :: pk in pks <==> PhraseSatisfied(e, phrase, pk, lo, hi)
  {
    hide Posted, PostedAt, Follows, PhraseSatisfied;
    pks := {};
    var todo := candidates;
    while todo != {}
      invariant todo <= candidates
      invariant pks <= candidates - todo
      invariant forall pk :: pk in candidates - todo ==> (pk in pks <==> exists s :: Follows(e, phrase, pk, s))
      decreases todo
    {
      var pk :| pk in todo;
      var found := Contiguous(maps, pk);
      StartsFollow(e, phrase, lo, hi, maps, pk);
      if found {
        pks := pks + {pk};
      }
      todo := todo - {pk};
    }
    forall pk ensures PhraseSatisfied(e, phrase, pk, lo, hi) <==> pk in candidates && exists s :: Follows(e, phrase, pk, s) {
      CandidateIff(e, phrase, lo, hi, maps, candidates, pk);
    }
  }

  lemma CandidateIff(e: Engine, phrase: seq<string>, lo: DbKey, hi: DbKey, maps: seq<map<DbKey, seq<nat>>>,
      candidates: set<DbKey>, pk: DbKey)
    requires |maps| == |phrase| >= 2 && ArePostings(e, phrase, lo, hi, maps)
    requires pk in candidates <==> forall i :: 0 <= i < |maps| ==> pk in maps[i]
    ensures PhraseSatisfied(e, phrase, pk, lo, hi) <==> pk in candidates && exists s :: Follows(e, phrase, pk, s)
  {
    hide Follows, InRange, TokenKey;
    if pk in candidates {
      assert IsPostings(e, phrase[0], lo, hi, maps[0]);
      assert Posted(e, phrase[0], pk, lo, hi);
    }
    if PhraseSatisfied(e, phrase, pk, lo, hi) {
      var s :| Follows(e, phrase, pk, s);
      forall i | 0 <= i < |maps| ensures pk in maps[i] {
        FollowsPosted(e, phrase, pk, s, i);
        assert IsPostings(e, phrase[i], lo, hi, maps[i]);
        assert Posted(e, phrase[i], pk, lo, hi);
      }
    }
  }

  lemma FollowsPosted(e: Engine, phrase: seq<string>, pk: DbKey, s: nat, i: nat)
    requires Follows(e, phrase, pk, s) && i < |phrase|
    ensures TokenKey(phrase[i], pk) in e
  {
    hide TokenKey;
    assert s + i in PostedAt(e, phrase[i], pk);
  }

  /** Evaluates a query on the index, recording every range it scans. */
  method EvalQuery(e: Engine, q: Query, lo: DbKey, hi: DbKey) returns (pks: set<DbKey>, ranges: seq<Interval>)
    requires Inverted(e)
    ensures forall pk :: pk in pks <==> IndexSatisfies(e, q, pk, lo, hi)
    ensures ranges == ScannedRanges(q, lo, hi)
    decreases q
  {
    hide Posted, Inverted, IsPostings, PhraseSatisfied, TokenRange;
    match q
    case Token(t) =>
      var m := ScanToken(e, t, lo, hi);
      PostingKeys(e, t, lo, hi, m);
      pks, ranges := m.Keys, [TokenRange(t, lo, hi)];
    case And(l, r) =>
      var left, leftRanges := EvalQuery(e, l, lo, hi);
      var right, rightRanges := EvalQuery(e, r, lo, hi);
      pks, ranges := left * right, leftRanges + rightRanges;
    case Or(l, r) =>
      var left, leftRanges := EvalQuery(e, l, lo, hi);
      var right, rightRanges := EvalQuery(e, r, lo, hi);
      pks, ranges := left + right, leftRanges + rightRanges;
    case Phrase(p) =>
      pks, ranges := EvalPhrase(e, p, lo, hi);
  }

  // ---------- Agreement with row-by-row evaluation ----------

  lemma {:induction false} PositionsMember(tokens: seq<string>, token: string, n: nat, j: nat)
    requires n <= |tokens|
    ensures j in PositionsTo(tokens, token, n) <==> j < n && tokens[j] == token
  {
    if n > 0 {
      PositionsMember(tokens, token, n - 1, j);
    }
  }

  lemma ImageInverted(def: IndexDef, t: Table)
    requires def.FullText?
    ensures Inverted(Image(def, t))
  {
    forall x | x in Image(def, t) ensures x == TokenKey(TokenIn(x), PkOf(x)) && Image(def, t)[x].Positions? {
      assert Lookup(Image(def, t), x) == EntryAt(def, Lookup(t, PkOf(x)), x);
    }
  }

  lemma ImagePosts(def: IndexDef, t: Table, token: string, pk: DbKey)
    requires def.FullText?
    ensures TokenKey(token, pk) in Image(def, t) <==> pk in t && token in TokensOf(def, t[pk])
    ensures forall j :: j in PostedAt(Image(def, t), token, pk) <==>
      pk in t && 0 <= j < |TokensOf(def, t[pk])| && TokensOf(def, t[pk])[j] == token
  {
    var x := TokenKey(token, pk);
    assert PkOf(x) == pk;
    assert Lookup(Image(def, t), x) == EntryAt(def, Lookup(t, pk), x);
    if pk in t {
      var tokens := TokensOf(def, t[pk]);
      var positions := PositionMap(tokens);
      assert x in TokenCells(positions, pk) <==> token in positions;
      forall j: nat ensures j in PositionsOf(tokens, token) <==> j < |tokens| && tokens[j] == token {
        PositionsMember(tokens, token, |tokens|, j);
      }
    }
  }

  lemma FollowsIsOccurs(def: IndexDef, t: Table, phrase: seq<string>, pk: DbKey, i: nat)
    requires def.FullText? && phrase != []
    ensures Follows(Image(def, t), phrase, pk, i) <==> pk in t && OccursAt(TokensOf(def, t[pk]), phrase, i)
  {
    hide Image, TokensOf;
    forall j | 0 <= j < |phrase|
      ensures i + j in PostedAt(Image(def, t), phrase[j], pk) <==>
        pk in t && i + j < |TokensOf(def, t[pk])| && TokensOf(def, t[pk])[i + j] == phrase[j]
    {
      ImagePosts(def, t, phrase[j], pk);
    }
    if Follows(Image(def, t), phrase, pk, i) {
      assert i + (|phrase| - 1) in PostedAt(Image(def, t), phrase[|phrase| - 1], pk);
      assert TokensOf(def, t[pk])[i..i + |phrase|] == phrase;
    }
    if pk in t && OccursAt(TokensOf(def, t[pk]), phrase, i) {
      forall j | 0 <= j < |phrase| ensures TokensOf(def, t[pk])[i + j] == phrase[j] {
        assert TokensOf(def, t[pk])[i..i + |phrase|][j] == phrase[j];
      }
    }
  }

  lemma PhraseAgrees(def: IndexDef, t: Table, phrase: seq<string>, pk: DbKey, lo: DbKey, hi: DbKey)
    requires def.FullText? && phrase != []
    ensures PhraseSatisfied(Image(def, t), phrase, pk, lo, hi) <==>
            InRange(pk, lo, hi) && pk in t && RowSatisfies(def, Phrase(phrase), t[pk])
  {
    if PhraseSatisfied(Image(def, t), phrase, pk, lo, hi) {
      PhraseSound(def, t, phrase, pk, lo, hi);
    }
    if InRange(pk, lo, hi) && pk in t && RowSatisfies(def, Phrase(phrase), t[pk]) {
      PhraseComplete(def, t, phrase, pk, lo, hi);
    }
    hide *;
  }

  lemma PhraseSound(def: IndexDef, t: Table, phrase: seq<string>, pk: DbKey, lo: DbKey, hi: DbKey)
    requires def.FullText? && phrase != [] && PhraseSatisfied(Image(def, t), phrase, pk, lo, hi)
    ensures InRange(pk, lo, hi) && pk in t && RowSatisfies(def, Phrase(phrase), t[pk])
  {
    hide Image, TokensOf, Follows, OccursAt, InRange, TokenKey;
    var i: nat;
    if |phrase| == 1 {
      ImagePosts(def, t, phrase[0], pk);
      var tokens := TokensOf(def, t[pk]);
      i :| 0 <= i < |tokens| && tokens[i] == phrase[0];
      OneOccurs(tokens, phrase, i);
    } else {
      i :| Follows(Image(def, t), phrase, pk, i);
      FollowsIsOccurs(def, t, phrase, pk, i);
    }
    OccursInside(def, t[pk], phrase, i);
  }

  lemma OneOccurs(tokens: seq<string>, phrase: seq<string>, i: nat)
    requires |phrase| == 1 && i < |tokens| && tokens[i] == phrase[0]
    ensures OccursAt(tokens, phrase, i)
  {
  }

  lemma OccursInside(def: IndexDef, row: Row, phrase: seq<string>, i: nat)
    requires def.FullText? && phrase != [] && OccursAt(TokensOf(def, row), phrase, i)
    ensures RowSatisfies(def, Phrase(phrase), row)
  {
  }

  lemma PhraseComplete(def: IndexDef, t: Table, phrase: seq<string>, pk: DbKey, lo: DbKey, hi: DbKey)
    requires def.FullText? && phrase != []
    requires InRange(pk, lo, hi) && pk in t && RowSatisfies(def, Phrase(phrase), t[pk])
    ensures PhraseSatisfied(Image(def, t), phrase, pk, lo, hi)
  {
    hide Image, TokensOf, Follows, InRange, TokenKey;
    var tokens := TokensOf(def, t[pk]);
    var i :| 0 <= i <= |tokens| && OccursAt(tokens, phrase, i);
    if |phrase| == 1 {
      assert tokens[i..i + |phrase|][0] == tokens[i];
      ImagePosts(def, t, phrase[0], pk);
    } else {
      FollowsIsOccurs(def, t, phrase, pk, i);
    }
  }

  /** On the index of a table, a query finds exactly the rows in bounds whose own tokens satisfy it. */
  lemma {:induction false} IndexAgrees(def: IndexDef, t: Table, q: Query, pk: DbKey, lo: DbKey, hi: DbKey)
    requires def.FullText? && NonEmptyPhrases(q)
    ensures IndexSatisfies(Image(def, t), q, pk, lo, hi) <==>
            InRange(pk, lo, hi) && pk in t && RowSatisfies(def, q, t[pk])
    decreases q
  {
    match q
    case Token(token) => ImagePosts(def, t, token, pk);
    case And(l, r) =>
      IndexAgrees(def, t, l, pk, lo, hi);
      IndexAgrees(def, t, r, pk, lo, hi);
    case Or(l, r) =>
      IndexAgrees(def, t, l, pk, lo, hi);
      IndexAgrees(def, t, r, pk, lo, hi);
    case Phrase(p) => PhraseAgrees(def, t, p, pk, lo, hi);
  }

  /** The empty phrase is where the two evaluations part: rows with text satisfy it, the index finds none. */
  lemma EmptyPhraseDiffers(def: IndexDef, t: Table, pk: DbKey, lo: DbKey, hi: DbKey)
    requires def.FullText? && pk in t && InRange(pk, lo, hi)
    ensures (IndexSatisfies(Image(def, t), Phrase([]), pk, lo, hi) <==> RowSatisfies(def, Phrase([]), t[pk])) <==>
            !ValueAt(t[pk], def.column).Str?
  {
    assert OccursAt(TokensOf(def, t[pk]), [], 0);
  }

  /** Two indexes agree on every key of some ranges. */
  ghost predicate Agree(e: Engine, e': Engine, ranges: seq<Interval>)
  {
    forall r, x :: r in ranges && InRange(x, r.0, r.1) ==> Lookup(e, x) == Lookup(e', x)
  }

  lemma AgreeParts(e: Engine, e': Engine, a: seq<Interval>, b: seq<Interval>)
    requires Agree(e, e', a + b)
    ensures Agree(e, e', a) && Agree(e, e', b)
  {
    hide InRange;
    assert forall r :: r in a || r in b ==> r in a + b;
  }

  /** The recorded ranges cover the evaluation: an index that agrees on them gives the same answer. */
  lemma {:induction false} RangesDecide(e: Engine, e': Engine, q: Query, pk: DbKey, lo: DbKey, hi: DbKey)
    requires Agree(e, e', ScannedRanges(q, lo, hi))
    ensures IndexSatisfies(e, q, pk, lo, hi) <==> IndexSatisfies(e', q, pk, lo, hi)
    decreases q
  {
    hide Agree, Posted, PhraseSatisfied, TokenRange, SameCell, InRange;
    match q
    case Token(t) => SamePosting(e, e', q, t, pk, lo, hi);
    case And(l, r) =>
      AgreeParts(e, e', ScannedRanges(l, lo, hi), ScannedRanges(r, lo, hi));
      RangesDecide(e, e', l, pk, lo, hi);
      RangesDecide(e, e', r, pk, lo, hi);
    case Or(l, r) =>
      AgreeParts(e, e', ScannedRanges(l, lo, hi), ScannedRanges(r, lo, hi));
      RangesDecide(e, e', l, pk, lo, hi);
      RangesDecide(e, e', r, pk, lo, hi);
    case Phrase(p) => SamePhrase(e, e', p, pk, lo, hi);
  }

  lemma SamePhrase(e: Engine, e': Engine, p: seq<string>, pk: DbKey, lo: DbKey, hi: DbKey)
    requires Agree(e, e', ScannedRanges(Phrase(p), lo, hi))
    ensures PhraseSatisfied(e, p, pk, lo, hi) <==> PhraseSatisfied(e', p, pk, lo, hi)
  {
    hide *;
    if InRange(pk, lo, hi) {
      forall i | 0 <= i < |p| ensures SameCell(e, e', p[i], pk) && SameCell(e', e, p[i], pk) {
        RangesOfPhrase(p, lo, hi);
        SamePosting(e, e', Phrase(p), p[i], pk, lo, hi);
      }
    }
    PhraseCarries(e, e', p, pk, lo, hi);
    PhraseCarries(e', e, p, pk, lo, hi);
  }

  ghost predicate SameCell(e: Engine, e': Engine, token: string, pk: DbKey)
  {
    Lookup(e, TokenKey(token, pk)) == Lookup(e', TokenKey(token, pk))
  }

  lemma PhraseCarries(e: Engine, e': Engine, p: seq<string>, pk: DbKey, lo: DbKey, hi: DbKey)
    requires InRange(pk, lo, hi) ==> forall i :: 0 <= i < |p| ==> SameCell(e, e', p[i], pk)
    ensures PhraseSatisfied(e, p, pk, lo, hi) ==> PhraseSatisfied(e', p, pk, lo, hi)
  {
    hide InRange, Follows, TokenKey;
    if PhraseSatisfied(e, p, pk, lo, hi) {
      if |p| == 1 {
        assert SameCell(e, e', p[0], pk);
      } else {
        var start :| Follows(e, p, pk, start);
        FollowsCarries(e, e', p, pk, start);
      }
    }
  }

  lemma FollowsCarries(e: Engine, e': Engine, p: seq<string>, pk: DbKey, start: nat)
    requires Follows(e, p, pk, start) && forall i :: 0 <= i < |p| ==> SameCell(e, e', p[i], pk)
    ensures Follows(e', p, pk, start)
  {
    forall i | 0 <= i < |p| ensures PostedAt(e', p[i], pk) == PostedAt(e, p[i], pk) {
      assert SameCell(e, e', p[i], pk);
      CellPosted(e, e', p[i], pk);
    }
    hide PostedAt, SameCell;
  }

  lemma CellPosted(e: Engine, e': Engine, token: string, pk: DbKey)
    requires SameCell(e, e', token, pk)
    ensures PostedAt(e', token, pk) == PostedAt(e, token, pk)
  {
  }

  lemma SamePosting(e: Engine, e': Engine, q: Query, token: string, pk: DbKey, lo: DbKey, hi: DbKey)
    requires TokenRange(token, lo, hi) in ScannedRanges(q, lo, hi) && Agree(e, e', ScannedRanges(q, lo, hi))
    ensures Posted(e, token, pk, lo, hi) <==> Posted(e', token, pk, lo, hi)
    ensures InRange(pk, lo, hi) ==> SameCell(e, e', token, pk) && SameCell(e', e, token, pk)
  {
    hide ScannedRanges, InRange, TokenKey, Agree;
    InTokenRange(token, token, pk, lo, hi);
    var r, x := TokenRange(token, lo, hi), TokenKey(token, pk);
    if InRange(pk, lo, hi) {
      AgreeAt(e, e', ScannedRanges(q, lo, hi), r, x);
    }
  }

  lemma AgreeAt(e: Engine, e': Engine, ranges: seq<Interval>, r: Interval, x: DbKey)
    requires Agree(e, e', ranges) && r in ranges && InRange(x, r.0, r.1)
    ensures Lookup(e, x) == Lookup(e', x)
  {
    hide InRange;
  }
}
