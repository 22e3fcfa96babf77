/** Accelerating LIKE with a trigram index: the planned tokens are necessary, so no match is dropped. */
module LikePlan {
  import opened Values
  import opened Indexes
  import opened Queries
  import TextScan

  // ---------- LIKE ----------

  predicate IsWildcard(c: char)
  {
    c == '%' || c == '_'
  }

  /** % stands for any string, _ for any one character; there is no escape. */
  ghost predicate Like(s: string, p: string)
    decreases |p|
  {
    if p == [] then s == []
    else if p[0] == '%' then exists k :: 0 <= k <= |s| && Like(s[k..], p[1..])
    else if p[0] == '_' then s != [] && Like(s[1..], p[1..])
    else s != [] && s[0] == p[0] && Like(s[1..], p[1..])
  }

  predicate Literal(p: string)
  {
    forall i :: 0 <= i < |p| ==> !IsWildcard(p[i])
  }

  lemma {:induction false} LiteralPrefix(s: string, p: string, n: nat)
    requires Like(s, p) && n <= |p| && Literal(p[..n])
    ensures n <= |s| && s[..n] == p[..n]
    decreases n
  {
    if n > 0 {
      assert !IsWildcard(p[..n][0]);
      assert p[1..][..n - 1] == p[..n][1..];
      LiteralPrefix(s[1..], p[1..], n - 1);
      assert s[..n] == [s[0]] + s[1..][..n - 1] && p[..n] == [p[0]] + p[1..][..n - 1];
    }
  }

  /** How many characters of a match the first character of the pattern takes. */
  lemma LikeHead(s: string, p: string) returns (m: nat)
    requires Like(s, p) && p != []
    ensures m <= |s| && (p[0] != '%' ==> m == 1 && (p[0] != '_' ==> s[0] == p[0])) && Like(s[m..], p[1..])
  {
    if p[0] == '%' {
      m :| 0 <= m <= |s| && Like(s[m..], p[1..]);
    } else {
      m := 1;
    }
  }

  lemma LikeCons(s: string, p: string, m: nat)
    requires p != [] && m <= |s| && (p[0] != '%' ==> m == 1 && (p[0] != '_' ==> s[0] == p[0])) && Like(s[m..], p[1..])
    ensures Like(s, p)
  {
  }

  lemma SplitHead(s: string, p: string, n: nat, m: nat, k: nat)
    requires 0 < n <= |p| && m + k <= |s|
    requires p[0] != '%' ==> m == 1 && (p[0] != '_' ==> s[0] == p[0])
    requires Like(s[m..][..k], p[1..][..n - 1]) && Like(s[m..][k..], p[1..][n - 1..])
    ensures Like(s[..m + k], p[..n]) && Like(s[m + k..], p[n..])
  {
    hide Like;
    SliceOfSlice(s, m, k);
    SliceOfSlice(p, 1, n - 1);
    LikeCons(s[..m + k], p[..n], m);
  }

  lemma SplitNothing(s: string, p: string)
    requires Like(s, p)
    ensures Like(s[..0], p[..0]) && Like(s[0..], p[0..])
  {
    assert s[0..] == s && p[0..] == p;
  }

  /** A match of a pattern made of two parts is a match of each, one after the other. */
  lemma {:induction false} LikeSplits(s: string, p: string, n: nat) returns (k: nat)
    requires Like(s, p) && n <= |p|
    ensures k <= |s| && Like(s[..k], p[..n]) && Like(s[k..], p[n..])
    decreases n
  {
    hide *;
    if n == 0 {
      k := 0;
      SplitNothing(s, p);
    } else {
      var m := LikeHead(s, p);
      var k' := LikeSplits(s[m..], p[1..], n - 1);
      k := m + k';
      SplitHead(s, p, n, m, k');
    }
  }

  lemma SliceOfSlice(s: string, m: nat, k: nat)
    requires m + k <= |s|
    ensures s[..m + k][m..] == s[m..][..k] && s[m..][k..] == s[m + k..]
  {
  }

  /** In some match of s by p, the stretch of p from a to b stands at o. */
  ghost predicate MatchedAt(s: string, p: string, a: nat, b: nat, o: nat)
  {
    && a <= b <= |p| && o + (b - a) <= |s|
    && Like(s[..o], p[..a]) && s[o..o + (b - a)] == p[a..b] && Like(s[o + (b - a)..], p[b..])
  }

  /** A stretch of the pattern without wildcards stands somewhere in every string that matches. */
  lemma LiteralStands(s: string, p: string, a: nat, b: nat) returns (o: nat)
    requires Like(s, p) && a <= b <= |p| && Literal(p[a..b])
    ensures MatchedAt(s, p, a, b, o)
  {
    hide Like, Literal;
    o := LikeSplits(s, p, a);
    var rest, n := s[o..], b - a;
    assert p[a..][..n] == p[a..b] && p[a..][n..] == p[b..];
    var k := LikeSplits(rest, p[a..], n);
    LikeLiteral(rest[..k], p[a..b]);
    SliceOfRest(s, o, k);
  }

  lemma SliceOfRest(s: string, o: nat, k: nat)
    requires o + k <= |s|
    ensures s[o..][..k] == s[o..o + k] && s[o..][k..] == s[o + k..]
  {
  }

  lemma LikeLiteral(s: string, p: string)
    requires Like(s, p) && Literal(p)
    ensures s == p
  {
    assert p[..|p|] == p;
    LiteralPrefix(s, p, |p|);
    LiteralLength(s, p);
    assert s[..|s|] == s;
  }

  lemma {:induction false} LiteralLength(s: string, p: string)
    requires Like(s, p) && Literal(p)
    ensures |s| == |p|
  {
    if p != [] {
      assert !IsWildcard(p[0]);
      LiteralLength(s[1..], p[1..]);
    }
  }

  // ---------- Lowercasing ----------

  const SIGMA: char := '\U{3A3}'
  const SMALL_SIGMA: char := '\U{3C3}'
  const FINAL_SIGMA: char := '\U{3C2}'

  /** The character tables of lowercasing: what a character becomes on its own, and the two classes
      the final-sigma rule looks at. */
  datatype Casing = Casing(lc: char -> string, ignorable: char -> bool, cased: char -> bool)

  /** The first character met that is not ignorable: cased, not cased, or none in the string. */
  datatype Side = Cased | Uncased | Nothing

  function LeftOf(cs: Casing, s: string, i: nat): Side
    requires i <= |s|
  {
    if i == 0 then Nothing
    else if cs.ignorable(s[i - 1]) then LeftOf(cs, s, i - 1)
    else if cs.cased(s[i - 1]) then Cased else Uncased
  }

  function RightOf(cs: Casing, s: string, i: nat): Side
    requires i <= |s|
    decreases |s| - i
  {
    if i == |s| then Nothing
    else if cs.ignorable(s[i]) then RightOf(cs, s, i + 1)
    else if cs.cased(s[i]) then Cased else Uncased
  }

  /** A capital sigma is final when a cased character is met before it and none after it. */
  function LowerAt(cs: Casing, s: string, i: nat): string
    requires i < |s|
  {
    if s[i] != SIGMA then cs.lc(s[i])
    else if LeftOf(cs, s, i) == Cased && RightOf(cs, s, i + 1) != Cased then [FINAL_SIGMA] else [SMALL_SIGMA]
  }

  function LowerSpan(cs: Casing, s: string, i: nat, j: nat): string
    requires i <= j <= |s|
    decreases j
  {
    if i == j then "" else LowerSpan(cs, s, i, j - 1) + LowerAt(cs, s, j - 1)
  }

  function Lower(cs: Casing, s: string): string
  {
    LowerSpan(cs, s, 0, |s|)
  }

  lemma {:induction false} SpanJoins(cs: Casing, s: string, i: nat, j: nat, k: nat)
    requires i <= j <= k <= |s|
    ensures LowerSpan(cs, s, i, k) == LowerSpan(cs, s, i, j) + LowerSpan(cs, s, j, k)
    decreases k
  {
    if j < k {
      SpanJoins(cs, s, i, j, k - 1);
    }
  }

  lemma {:induction false} SpanAgrees(cs: Casing, s: string, o: nat, r: string, n: nat)
    requires o + n <= |s| && n <= |r| && forall k :: 0 <= k < n ==> LowerAt(cs, s, o + k) == LowerAt(cs, r, k)
    ensures LowerSpan(cs, s, o, o + n) == LowerSpan(cs, r, 0, n)
    decreases n
  {
    if n > 0 {
      SpanAgrees(cs, s, o, r, n - 1);
    }
  }

  lemma {:induction false} LeftInContext(cs: Casing, s: string, o: nat, r: string, j: nat)
    requires o + |r| <= |s| && s[o..o + |r|] == r && j <= |r|
    ensures LeftOf(cs, s, o + j) == if LeftOf(cs, r, j).Nothing? then LeftOf(cs, s, o) else LeftOf(cs, r, j)
    decreases j
  {
    if j > 0 {
      assert s[o + (j - 1)] == s[o..o + |r|][j - 1];
      LeftInContext(cs, s, o, r, j - 1);
    }
  }

  lemma {:induction false} RightInContext(cs: Casing, s: string, o: nat, r: string, j: nat)
    requires o + |r| <= |s| && s[o..o + |r|] == r && j <= |r|
    ensures RightOf(cs, s, o + j) == if RightOf(cs, r, j).Nothing? then RightOf(cs, s, o + |r|) else RightOf(cs, r, j)
    decreases |r| - j
  {
    if j < |r| {
      assert s[o + j] == s[o..o + |r|][j];
      RightInContext(cs, s, o, r, j + 1);
    }
  }

  // ---------- Trigrams ----------

  function Windows(s: string): seq<string>
  {
    if |s| < 3 then [] else seq(|s| - 2, i requires 0 <= i < |s| - 2 => s[i..i + 3])
  }

  /** The overlapping three-character pieces of the lowercased text. */
  function Trigrams(cs: Casing, text: string): seq<string>
  {
    Windows(Lower(cs, text))
  }

  lemma WindowShift(a: string, b: string, c: string, i: nat)
    requires i + 3 <= |b|
    ensures |a| + i < |Windows(a + b + c)| && Windows(a + b + c)[|a| + i] == Windows(b)[i]
  {
    var whole, at := a + b + c, |a| + i;
    assert whole[at..at + 3] == b[i..i + 3];
  }

  lemma WindowsContained(a: string, b: string, c: string)
    ensures forall t :: t in Windows(b) ==> t in Windows(a + b + c)
  {
    forall t | t in Windows(b) ensures t in Windows(a + b + c) {
      var i :| 0 <= i < |Windows(b)| && Windows(b)[i] == t;
      WindowShift(a, b, c, i);
    }
  }

  // ---------- The plan ----------

  /** The tokens of the literal runs of p, the current one having started at start. */
  function RunTokens(cs: Casing, p: string, start: nat, i: nat): seq<string>
    requires start <= i <= |p|
    decreases |p| - i
  {
    if i == |p| then Trigrams(cs, p[start..i])
    else if IsWildcard(p[i]) then Trigrams(cs, p[start..i]) + RunTokens(cs, p, i + 1, i + 1)
    else RunTokens(cs, p, start, i + 1)
  }

  predicate StrictlySorted(ts: seq<string>)
  {
    forall i, j :: 0 <= i < j < |ts| ==> ts[i] != ts[j] && StrLeq(ts[i], ts[j])
  }

  /** Splits the pattern at its wildcards and tokenizes every run. */
  method CollectTokens(cs: Casing, p: string) returns (ts: seq<string>)
    ensures ts == RunTokens(cs, p, 0, 0)
  {
    ts := [];
    var start := 0;
    for i := 0 to |p|
      invariant start <= i
      invariant RunTokens(cs, p, 0, 0) == ts + RunTokens(cs, p, start, i)
    {
      if IsWildcard(p[i]) {
        ts := ts + Trigrams(cs, p[start..i]);
        start := i + 1;
      }
    }
    assert p[start..] == p[start..|p|];
    ts := ts + Trigrams(cs, p[start..]);
  }

  /** Adds a token to a sorted list that has each token once. */
  method InsertOnce(ts: seq<string>, t: string) returns (out: seq<string>)
    requires StrictlySorted(ts)
    ensures StrictlySorted(out) && forall x :: x in out <==> x in ts || x == t
  {
    hide StrLeq;
    if t in ts {
      return ts;
    }
    var i := |ts|;
    while i > 0 && !StrLeq(ts[i - 1], t)
      invariant 0 <= i <= |ts|
      invariant forall j :: i <= j < |ts| ==> StrLeq(t, ts[j])
    {
      StrTotal(ts[i - 1], t);
      i := i - 1;
    }
    forall j | 0 <= j < i ensures StrLeq(ts[j], t) {
      if j < i - 1 {
        StrTrans(ts[j], ts[i - 1], t);
      }
    }
    out := ts[..i] + [t] + ts[i..];
    assert ts == ts[..i] + ts[i..];
  }

  method SortDedup(ts: seq<string>) returns (out: seq<string>)
    ensures StrictlySorted(out) && forall x :: x in out <==> x in ts
  {
    out := [];
    for n := 0 to |ts|
      invariant StrictlySorted(out) && forall x :: x in out <==> x in ts[..n]
    {
      assert ts[..n + 1] == ts[..n] + [ts[n]];
      out := InsertOnce(out, ts[n]);
    }
    assert ts[..|ts|] == ts;
  }

  /** The required tokens of a pattern, sorted and each once; None when no run is long enough. */
  method PlanLike(cs: Casing, p: string) returns (required: Option<seq<string>>)
    ensures required.None? <==> RunTokens(cs, p, 0, 0) == []
    ensures required.Some? ==> StrictlySorted(required.value) && required.value != []
    ensures required.Some? ==> forall t :: t in required.value <==> t in RunTokens(cs, p, 0, 0)
  {
    var ts := CollectTokens(cs, p);
    if ts == [] {
      return None;
    }
    var sorted := SortDedup(ts);
    assert ts[0] in sorted;
    required := Some(sorted);
  }

  // ---------- No match is dropped ----------

  /** A stretch between two wildcards, or between a wildcard and an end. */
  predicate Run(p: string, a: nat, b: nat)
  {
    a <= b <= |p| && Literal(p[a..b]) && (a == 0 || IsWildcard(p[a - 1])) && (b == |p| || IsWildcard(p[b]))
  }

  /** The form of the sigma at i is decided beyond its run: a wildcard hides the first character that
      counts. Either the run alone makes it final and what follows may undo that, or the run alone
      does not and what comes before may make it final. */
  predicate Fragile(cs: Casing, p: string, a: nat, b: nat, i: nat)
    requires a <= i < b <= |p|
  {
    var left, right := LeftOf(cs, p[a..b], i - a), RightOf(cs, p[a..b], i - a + 1);
    || (left == Cased && right == Nothing && b < |p|)
    || (left == Nothing && a > 0 && right != Cased)
  }

  /** No run that yields tokens has a sigma that its context may change. */
  predicate Settled(cs: Casing, p: string)
  {
    forall a, b :: 0 <= a <= b <= |p| && Run(p, a, b) && Trigrams(cs, p[a..b]) != [] ==> RunSettled(cs, p, a, b)
  }

  predicate RunSettled(cs: Casing, p: string, a: nat, b: nat)
    requires a <= b <= |p|
  {
    forall i :: a <= i < b && p[i] == SIGMA ==> !Fragile(cs, p, a, b, i)
  }

  /** Wherever the run is matched, its character at i is lowered as it is in the run alone. */
  ghost predicate KeepsForm(cs: Casing, p: string, a: nat, b: nat, i: nat)
    requires a <= i < b <= |p|
  {
    forall s, o: nat :: MatchedAt(s, p, a, b, o) ==> LowerAt(cs, s, o + (i - a)) == LowerAt(cs, p[a..b], i - a)
  }

  lemma MatchedEdges(s: string, p: string, a: nat, b: nat, o: nat)
    requires MatchedAt(s, p, a, b, o)
    ensures a == 0 ==> o == 0
    ensures b == |p| ==> o + (b - a) == |s|
  {
  }

  lemma SettledInPlace(cs: Casing, s: string, p: string, a: nat, b: nat, i: nat, o: nat)
    requires MatchedAt(s, p, a, b, o) && a <= i < b && (p[i] == SIGMA ==> !Fragile(cs, p, a, b, i))
    ensures LowerAt(cs, s, o + (i - a)) == LowerAt(cs, p[a..b], i - a)
  {
    hide Like;
    var r, j := p[a..b], i - a;
    assert s[o + j] == s[o..o + |r|][j];
    MatchedEdges(s, p, a, b, o);
    LeftInContext(cs, s, o, r, j);
    RightInContext(cs, s, o, r, j + 1);
  }

  /** The pattern with its wildcards filled by one character each: left of i, and right of it. */
  function Filled(p: string, i: nat, left: char, right: char): string
  {
    seq(|p|, k requires 0 <= k < |p| => if !IsWildcard(p[k]) then p[k] else if k < i then left else right)
  }

  lemma {:induction false} FilledLike(s: string, p: string)
    requires |s| == |p| && forall k :: 0 <= k < |p| && !IsWildcard(p[k]) ==> s[k] == p[k]
    ensures Like(s, p)
  {
    if p != [] {
      FilledLike(s[1..], p[1..]);
    }
  }

  lemma FilledMatches(p: string, a: nat, b: nat, i: nat, left: char, right: char)
    requires a <= b <= |p| && Literal(p[a..b])
    ensures MatchedAt(Filled(p, i, left, right), p, a, b, a)
  {
    var s := Filled(p, i, left, right);
    FilledLike(s[..a], p[..a]);
    FilledLike(s[b..], p[b..]);
    forall k | 0 <= k < b - a ensures s[a..b][k] == p[a..b][k] {
      assert !IsWildcard(p[a..b][k]);
    }
  }

  /** A cased and an uncased character, neither ignorable. */
  predicate Fillers(cs: Casing, cased: char, uncased: char)
  {
    !cs.ignorable(cased) && cs.cased(cased) && !cs.ignorable(uncased) && !cs.cased(uncased)
  }

  /** The match in which a fragile sigma changes: cased characters on the side that decides. */
  function Upset(cs: Casing, p: string, a: nat, b: nat, i: nat, cased: char, uncased: char): string
    requires a <= i < b <= |p|
  {
    Filled(p, i, cased, if LeftOf(cs, p[a..b], i - a) == Cased then cased else uncased)
  }

  lemma UpsetChanges(cs: Casing, p: string, a: nat, b: nat, i: nat, cased: char, uncased: char)
    requires Run(p, a, b) && a <= i < b && p[i] == SIGMA && Fillers(cs, cased, uncased) && Fragile(cs, p, a, b, i)
    ensures MatchedAt(Upset(cs, p, a, b, i, cased, uncased), p, a, b, a)
    ensures LowerAt(cs, Upset(cs, p, a, b, i, cased, uncased), i) != LowerAt(cs, p[a..b], i - a)
  {
    var s, r, j := Upset(cs, p, a, b, i, cased, uncased), p[a..b], i - a;
    FilledMatches(p, a, b, i, cased, if LeftOf(cs, r, j) == Cased then cased else uncased);
    hide Like;
    LeftInContext(cs, s, a, r, j);
    RightInContext(cs, s, a, r, j + 1);
    assert !IsWildcard(r[j]) && s[i] == SIGMA;
  }

  /** Exact, for every pattern: a sigma has one form in all matches just when it is not fragile. */
  lemma FormKeptExactly(cs: Casing, p: string, a: nat, b: nat, i: nat, cased: char, uncased: char)
    requires Run(p, a, b) && a <= i < b && p[i] == SIGMA && Fillers(cs, cased, uncased)
    ensures KeepsForm(cs, p, a, b, i) <==> !Fragile(cs, p, a, b, i)
  {
    hide Like, LowerAt;
    if Fragile(cs, p, a, b, i) {
      UpsetChanges(cs, p, a, b, i, cased, uncased);
      assert LowerAt(cs, Upset(cs, p, a, b, i, cased, uncased), a + (i - a)) != LowerAt(cs, p[a..b], i - a);
    } else {
      forall s, o: nat | MatchedAt(s, p, a, b, o)
        ensures LowerAt(cs, s, o + (i - a)) == LowerAt(cs, p[a..b], i - a)
      {
        SettledInPlace(cs, s, p, a, b, i, o);
      }
    }
  }

  /** A settled run is lowered in place as it is lowered alone, so its trigrams are there. */
  lemma RunTrigrams(cs: Casing, s: string, p: string, a: nat, b: nat, t: string)
    requires Like(s, p) && Run(p, a, b) && RunSettled(cs, p, a, b) && t in Trigrams(cs, p[a..b])
    ensures t in Trigrams(cs, s)
  {
    hide Like, LowerAt, Fragile;
    var o := LiteralStands(s, p, a, b);
    var r, e := p[a..b], o + (b - a);
    forall k | 0 <= k < |r| ensures LowerAt(cs, s, o + k) == LowerAt(cs, r, k) {
      var i := a + k;
      SettledInPlace(cs, s, p, a, b, i, o);
    }
    SpanAgrees(cs, s, o, r, |r|);
    SpanJoins(cs, s, 0, o, e);
    SpanJoins(cs, s, 0, e, |s|);
    WindowsContained(LowerSpan(cs, s, 0, o), Lower(cs, r), LowerSpan(cs, s, e, |s|));
  }

  /** A token of the plan is a trigram of some run. */
  lemma {:induction false} TokenRun(cs: Casing, p: string, start: nat, i: nat, t: string) returns (a: nat, b: nat)
    requires start <= i <= |p| && Literal(p[start..i]) && (start == 0 || IsWildcard(p[start - 1]))
    requires t in RunTokens(cs, p, start, i)
    ensures Run(p, a, b) && t in Trigrams(cs, p[a..b])
    decreases |p| - i
  {
    hide Trigrams;
    if (i == |p| || IsWildcard(p[i])) && t in Trigrams(cs, p[start..i]) {
      a, b := start, i;
    } else if i < |p| && IsWildcard(p[i]) {
      a, b := TokenRun(cs, p, i + 1, i + 1, t);
    } else if i < |p| {
      assert p[start..i + 1] == p[start..i] + [p[i]];
      a, b := TokenRun(cs, p, start, i + 1, t);
    }
  }

  /** Every required token is a trigram of every string that matches the pattern. */
  lemma PlanIsSound(cs: Casing, s: string, p: string)
    requires Settled(cs, p) && Like(s, p)
    ensures forall t :: t in RunTokens(cs, p, 0, 0) ==> t in Trigrams(cs, s)
  {
    forall t | t in RunTokens(cs, p, 0, 0) ensures t in Trigrams(cs, s) {
      var a, b := TokenRun(cs, p, 0, 0, t);
      RunTrigrams(cs, s, p, a, b, t);
    }
  }

  /** A pattern without capital sigmas is settled, whatever the character tables. */
  lemma NoSigmaIsSettled(cs: Casing, p: string)
    requires SIGMA !in p
    ensures Settled(cs, p)
  {
  }

  function TrigramIndex(cs: Casing, column: nat): IndexDef
  {
    FullText(column, s => Trigrams(cs, s))
  }

  ghost predicate RowLike(column: nat, p: string, row: Row)
  {
    ValueAt(row, column).Str? && Like(ValueAt(row, column).s, p)
  }

  /** The intersection of the required tokens, with the pattern re-checked, finds exactly what a full
      scan with the pattern finds: on every table, under every write buffer. */
  lemma LikeScanIsFullScan(cs: Casing, column: nat, p: string, required: seq<string>, stored: Table,
      buf: Changes,
      lo: DbKey, hi: DbKey)
    requires Settled(cs, p) && required != [] && forall t :: t in required ==> t in RunTokens(cs, p, 0, 0)
    requires forall pk :: pk in stored && pk !in buf && RowLike(column, p, stored[pk]) ==> InRange(pk, lo, hi)
    ensures var def, q := TrigramIndex(cs, column), TextScan.AndOfTokens(required).value;
            forall pk, row :: RowLike(column, p, row) ==>
              (TextScan.Returned(def, stored, buf, q, lo, hi, pk, row) <==> Lookup(Patch(stored, buf), pk) == Some(row))
  {
    var def, q := TrigramIndex(cs, column), TextScan.AndOfTokens(required).value;
    forall row | RowLike(column, p, row) ensures RowSatisfies(def, q, row) {
      LikeSatisfies(cs, column, p, required, row);
    }
    forall pk, row | RowLike(column, p, row) && Lookup(Patch(stored, buf), pk) == Some(row)
      ensures TextScan.Returned(def, stored, buf, q, lo, hi, pk, row)
    {
      TextScan.FullText.IndexAgrees(def, stored, q, pk, lo, hi);
    }
  }

  lemma LikeSatisfies(cs: Casing, column: nat, p: string, required: seq<string>, row: Row)
    requires Settled(cs, p) && required != [] && forall t :: t in required ==> t in RunTokens(cs, p, 0, 0)
    requires RowLike(column, p, row)
    ensures RowSatisfies(TrigramIndex(cs, column), TextScan.AndOfTokens(required).value, row)
  {
    var def := TrigramIndex(cs, column);
    PlanIsSound(cs, ValueAt(row, column).s, p);
    TextScan.AndOfTokensMeans(def, required, row);
    forall i | 0 <= i < |required| ensures required[i] in TokensOf(def, row) {
      assert required[i] in required;
    }
  }

  // ---------- One sigma: the plan is sound exactly when it is settled ----------

  ghost predicate Sound(cs: Casing, p: string)
  {
    forall s, t :: Like(s, p) && t in RunTokens(cs, p, 0, 0) ==> t in Trigrams(cs, s)
  }

  predicate SigmaFree(text: string)
  {
    SMALL_SIGMA !in text && FINAL_SIGMA !in text
  }

  /** No literal of the pattern but the one at i lowers to a sigma of either form. */
  predicate OnlySigma(cs: Casing, p: string, i: nat)
  {
    i < |p| && p[i] == SIGMA && forall k :: 0 <= k < |p| && k != i && !IsWildcard(p[k]) ==> p[k] != SIGMA && SigmaFree(cs.lc(p[k]))
  }

  lemma {:induction false} LowerLacks(cs: Casing, s: string, n: nat, c: char)
    requires n <= |s| && forall k :: 0 <= k < n ==> c !in LowerAt(cs, s, k)
    ensures c !in LowerSpan(cs, s, 0, n)
  {
    if n > 0 {
      LowerLacks(cs, s, n - 1, c);
    }
  }

  lemma WindowHas(text: string, i: nat) returns (t: string)
    requires |text| >= 3 && i < |text|
    ensures t in Windows(text) && text[i] in t
  {
    var w := if i + 3 <= |text| then i else |text| - 3;
    t := Windows(text)[w];
    assert t == text[w..w + 3] && t[i - w] == text[i];
  }

  lemma WindowWithin(text: string, t: string, c: char)
    requires t in Windows(text) && c in t
    ensures c in text
  {
    var w :| 0 <= w < |Windows(text)| && Windows(text)[w] == t;
    var k :| 0 <= k < 3 && t[k] == c;
    assert text[w + k] == c;
  }

  /** The trigrams of every run are in the plan. */
  lemma {:induction false} RunPlanned(cs: Casing, p: string, start: nat, i: nat, a: nat, b: nat, t: string)
    requires start <= i <= |p| && Run(p, a, b) && t in Trigrams(cs, p[a..b])
    requires (start == a && a <= i <= b) || i < a
    ensures t in RunTokens(cs, p, start, i)
    decreases |p| - i
  {
    hide Trigrams;
    if start == a && i == b {
    } else if i < a && IsWildcard(p[i]) {
      RunPlanned(cs, p, i + 1, i + 1, a, b, t);
    } else {
      assert a <= i ==> p[a..b][i - a] == p[i];
      RunPlanned(cs, p, start, i + 1, a, b, t);
    }
  }

  lemma LowerHas(cs: Casing, s: string, i: nat, c: char) returns (k: nat)
    requires i < |s| && LowerAt(cs, s, i) == [c]
    ensures k < |Lower(cs, s)| && Lower(cs, s)[k] == c
  {
    hide LowerAt;
    SpanJoins(cs, s, 0, i + 1, |s|);
    k := |LowerSpan(cs, s, 0, i)|;
    assert LowerSpan(cs, s, 0, i + 1)[k] == c;
  }

  /** One of the two forms of the sigma. */
  lemma SigmaForm(cs: Casing, s: string, i: nat)
    requires i < |s| && s[i] == SIGMA
    ensures LowerAt(cs, s, i) == [FINAL_SIGMA] || LowerAt(cs, s, i) == [SMALL_SIGMA]
  {
  }

  lemma OtherForm(cs: Casing, s: string, k: nat, c: char)
    requires k < |s| && s[k] != SIGMA && SigmaFree(cs.lc(s[k])) && (c == FINAL_SIGMA || c == SMALL_SIGMA)
    ensures c !in LowerAt(cs, s, k)
  {
  }

  lemma UpsetAt(cs: Casing, p: string, a: nat, b: nat, i: nat, cased: char, uncased: char, k: nat)
    requires a <= i < b <= |p| && OnlySigma(cs, p, i) && k < |p| && k != i
    requires cased != SIGMA && uncased != SIGMA && SigmaFree(cs.lc(cased)) && SigmaFree(cs.lc(uncased))
    ensures var s := Upset(cs, p, a, b, i, cased, uncased);
            |s| == |p| && s[k] != SIGMA && SigmaFree(cs.lc(s[k]))
  {
    hide LeftOf, SigmaFree;
  }

  /** The match that changes the sigma has nothing of its former form. */
  lemma UpsetLacks(cs: Casing, p: string, a: nat, b: nat, i: nat, cased: char, uncased: char) returns (c: char)
    requires Run(p, a, b) && a <= i < b && OnlySigma(cs, p, i) && Fragile(cs, p, a, b, i)
    requires Fillers(cs, cased, uncased) && cased != SIGMA && uncased != SIGMA && SigmaFree(cs.lc(cased)) && SigmaFree(cs.lc(uncased))
    ensures LowerAt(cs, p[a..b], i - a) == [c]
    ensures c !in Lower(cs, Upset(cs, p, a, b, i, cased, uncased))
  {
    var r, s := p[a..b], Upset(cs, p, a, b, i, cased, uncased);
    UpsetChanges(cs, p, a, b, i, cased, uncased);
    assert r[i - a] == SIGMA && !IsWildcard(r[i - a]) && |s| == |p| && s[i] == SIGMA;
    hide Fragile, Run, Fillers, LowerAt, Upset, MatchedAt;
    SigmaForm(cs, r, i - a);
    SigmaForm(cs, s, i);
    c := LowerAt(cs, r, i - a)[0];
    forall k | 0 <= k < |s| ensures c !in LowerAt(cs, s, k) {
      if k != i {
        UpsetAt(cs, p, a, b, i, cased, uncased, k);
        OtherForm(cs, s, k, c);
      }
    }
    LowerLacks(cs, s, |s|, c);
  }

  /** A token around a fragile sigma is missing from the match that changes the sigma. */
  lemma FragileDrops(cs: Casing, p: string, a: nat, b: nat, i: nat, cased: char, uncased: char) returns (s: string, t: string)
    requires Run(p, a, b) && a <= i < b && OnlySigma(cs, p, i) && Fragile(cs, p, a, b, i) && |Lower(cs, p[a..b])| >= 3
    requires Fillers(cs, cased, uncased) && cased != SIGMA && uncased != SIGMA && SigmaFree(cs.lc(cased)) && SigmaFree(cs.lc(uncased))
    ensures Like(s, p) && t in RunTokens(cs, p, 0, 0) && t !in Trigrams(cs, s)
  {
    var r := p[a..b];
    s := Upset(cs, p, a, b, i, cased, uncased);
    FilledLike(s, p);
    hide *;
    var c := UpsetLacks(cs, p, a, b, i, cased, uncased);
    var k := LowerHas(cs, r, i - a, c);
    t := WindowHas(Lower(cs, r), k);
    TrigramsAre(cs, r);
    TrigramsAre(cs, s);
    RunPlanned(cs, p, 0, 0, a, b, t);
    if t in Windows(Lower(cs, s)) {
      WindowWithin(Lower(cs, s), t, c);
    }
  }

  lemma TrigramsAre(cs: Casing, text: string)
    ensures Trigrams(cs, text) == Windows(Lower(cs, text))
  {
  }

  /** Exact on patterns with one sigma: the plan keeps every match just when the pattern is settled. */
  lemma SoundExactly(cs: Casing, p: string, i: nat, cased: char, uncased: char)
    requires OnlySigma(cs, p, i)
    requires Fillers(cs, cased, uncased) && cased != SIGMA && uncased != SIGMA && SigmaFree(cs.lc(cased)) && SigmaFree(cs.lc(uncased))
    ensures Sound(cs, p) <==> Settled(cs, p)
  {
    if Settled(cs, p) {
      forall s, t | Like(s, p) && t in RunTokens(cs, p, 0, 0) ensures t in Trigrams(cs, s) {
        PlanIsSound(cs, s, p);
      }
    } else {
      var a, b :| 0 <= a <= b <= |p| && Run(p, a, b) && Trigrams(cs, p[a..b]) != [] && !RunSettled(cs, p, a, b);
      var k :| a <= k < b && p[k] == SIGMA && Fragile(cs, p, a, b, k);
      assert !IsWildcard(p[a..b][k - a]) && k == i;
      var s, t := FragileDrops(cs, p, a, b, i, cased, uncased);
    }
  }

  const ALPHA: char := '\U{391}'
  const SMALL_ALPHA: char := '\U{3B1}'

  /** The shortest such loss: the sigma that ends a literal run is lowered to a final sigma, the same
      letter inside the matching word is not. */
  lemma ContextDropsMatch(cs: Casing)
    requires cs.lc(ALPHA) == [SMALL_ALPHA] && cs.cased(ALPHA) && !cs.ignorable(ALPHA)
    ensures var s, p, t := [ALPHA, ALPHA, SIGMA, ALPHA], [ALPHA, ALPHA, SIGMA, '%'], [SMALL_ALPHA, SMALL_ALPHA, FINAL_SIGMA];
            Like(s, p) && t in RunTokens(cs, p, 0, 0) && t !in Trigrams(cs, s)
  {
    var s, p, t := [ALPHA, ALPHA, SIGMA, ALPHA], [ALPHA, ALPHA, SIGMA, '%'], [SMALL_ALPHA, SMALL_ALPHA, FINAL_SIGMA];
    FilledLike(s, p);
    var r := p[0..3];
    assert r == [ALPHA, ALPHA, SIGMA];
    assert Literal(r) && Run(p, 0, 3);
    assert LowerSpan(cs, r, 0, 3) == LowerSpan(cs, r, 0, 2) + [FINAL_SIGMA];
    assert LowerSpan(cs, r, 0, 2) == LowerSpan(cs, r, 0, 1) + [SMALL_ALPHA] == [SMALL_ALPHA, SMALL_ALPHA];
    assert Lower(cs, r) == t;
    assert t[0..3] == t && Windows(t)[0] == t;
    RunPlanned(cs, p, 0, 0, 0, 3, t);
    forall k | 0 <= k < |s| ensures FINAL_SIGMA !in LowerAt(cs, s, k) {
      assert RightOf(cs, s, 3) == Cased;
    }
    LowerLacks(cs, s, |s|, FINAL_SIGMA);
    if t in Trigrams(cs, s) {
      assert t[2] == FINAL_SIGMA;
      WindowWithin(Lower(cs, s), t, FINAL_SIGMA);
    }
  }
}
