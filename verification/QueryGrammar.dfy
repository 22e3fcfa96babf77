/**
 The grammar of queries, and that the recursive-descent parser is exact for it: it accepts what the
 grammar derives, nothing else, and returns the one tree there is.
 */
module QueryGrammar {
  import opened Values
  import opened Queries
  import opened QueryParser

  datatype Level = OrLevel | AndLevel | PrimaryLevel

  function LevelRank(level: Level): nat
  {
    match level
    case OrLevel => 2
    case AndLevel => 1
    case PrimaryLevel => 0
  }

  /** The lexemes stand for the tree. A disjunction is a disjunction, OR and a conjunction; a
      conjunction is a conjunction, an optional AND and a term; a term is a word, a phrase with words
      in it or a disjunction in parentheses. */
  ghost predicate Derives(x: Lexicon, q: Query, ts: seq<Lexeme>, level: Level)
    decreases |ts|, LevelRank(level)
  {
    match level
    case OrLevel =>
      || Derives(x, q, ts, AndLevel)
      || (q.Or? && exists n :: 0 < n < |ts| && ts[n] == OrOp && Derives(x, q.left, ts[..n], OrLevel) && Derives(x, q.right, ts[n + 1..], AndLevel))
    case AndLevel =>
      || Derives(x, q, ts, PrimaryLevel)
      || (q.And? && exists n :: 0 < n < |ts| && Derives(x, q.left, ts[..n], AndLevel) && Derives(x, q.right, ts[n..], PrimaryLevel))
      || (q.And? && exists n :: 0 < n < |ts| && ts[n] == AndOp && Derives(x, q.left, ts[..n], AndLevel) && Derives(x, q.right, ts[n + 1..], PrimaryLevel))
    case PrimaryLevel =>
      || (q.Token? && ts == [Word(q.token)])
      || (q.Phrase? && |ts| == 1 && ts[0].PhraseString? && x.tokenize(ts[0].s) == q.tokens != [])
      || (|ts| >= 2 && ts[0] == LParen && ts[|ts| - 1] == RParen && Derives(x, q, ts[1..|ts| - 1], OrLevel))
  }

  /** What may follow a complete conjunction. */
  predicate Stops(rest: seq<Lexeme>)
  {
    rest == [] || rest[0] == RParen || rest[0] == OrOp
  }

  predicate StartsTerm(ts: seq<Lexeme>)
  {
    ts != [] && (ts[0].Word? || ts[0].PhraseString? || ts[0].LParen?)
  }

  lemma {:induction false} DerivesStarts(x: Lexicon, q: Query, ts: seq<Lexeme>, level: Level)
    requires Derives(x, q, ts, level)
    ensures StartsTerm(ts)
    decreases |ts|, LevelRank(level)
  {
    if level.OrLevel? {
      if Derives(x, q, ts, AndLevel) {
        DerivesStarts(x, q, ts, AndLevel);
      } else {
        var n :| 0 < n < |ts| && ts[n] == OrOp && Derives(x, q.left, ts[..n], OrLevel) && Derives(x, q.right, ts[n + 1..], AndLevel);
        DerivesStarts(x, q.left, ts[..n], OrLevel);
      }
    } else if level.AndLevel? {
      if Derives(x, q, ts, PrimaryLevel) {
        DerivesStarts(x, q, ts, PrimaryLevel);
      } else {
        var n :| 0 < n < |ts| && Derives(x, q.left, ts[..n], AndLevel);
        DerivesStarts(x, q.left, ts[..n], AndLevel);
      }
    }
  }

  // ---------- What the grammar derives is parsed ----------

  lemma {:induction false} PrimaryReads(x: Lexicon, q: Query, ts: seq<Lexeme>, rest: seq<Lexeme>)
    requires Derives(x, q, ts, PrimaryLevel)
    ensures Primary(x, ts + rest) == Some((q, rest))
    decreases |ts|, 0
  {
    var all := ts + rest;
    if |ts| >= 2 {
      var inner, close := ts[1..|ts| - 1], [RParen] + rest;
      assert all[1..] == inner + close;
      OrReads(x, q, inner, close);
      assert close[1..] == rest;
    } else {
      assert all[1..] == rest;
    }
  }

  lemma Joins(a: seq<Lexeme>, b: seq<Lexeme>, c: seq<Lexeme>)
    ensures (a + b) + c == a + (b + c)
  {
  }

  lemma TailTakes(x: Lexicon, l: Query, r: Query, b: seq<Lexeme>, rest: seq<Lexeme>)
    requires Primary(x, b + rest) == Some((r, rest)) && StartsTerm(b)
    ensures AndTail(x, l, b + rest) == AndTail(x, And(l, r), rest)
  {
    assert (b + rest)[0] == b[0];
  }

  lemma TailTakesAnd(x: Lexicon, l: Query, r: Query, b: seq<Lexeme>, rest: seq<Lexeme>)
    requires Primary(x, b + rest) == Some((r, rest))
    ensures AndTail(x, l, [AndOp] + (b + rest)) == AndTail(x, And(l, r), rest)
  {
    hide Primary;
    var ts := [AndOp] + (b + rest);
    assert ts[0] == AndOp && ts[1..] == b + rest;
  }

  lemma TailTakesOr(x: Lexicon, l: Query, r: Query, b: seq<Lexeme>, rest: seq<Lexeme>)
    requires AndExpr(x, b + rest) == AndTail(x, r, rest) && Stops(rest)
    ensures OrTail(x, l, [OrOp] + (b + rest)) == OrTail(x, Or(l, r), rest)
  {
    hide AndExpr;
    var ts := [OrOp] + (b + rest);
    assert ts[0] == OrOp && ts[1..] == b + rest;
  }

  lemma FirstReads(x: Lexicon, q: Query, ts: seq<Lexeme>, rest: seq<Lexeme>)
    requires Primary(x, ts + rest) == Some((q, rest))
    ensures AndExpr(x, ts + rest) == AndTail(x, q, rest)
  {
    hide Primary, AndTail;
  }

  /** How a conjunction splits: its last term starts at m, behind the operator at n if there is one. */
  lemma AndSplits(x: Lexicon, q: Query, ts: seq<Lexeme>) returns (n: nat, m: nat)
    requires Derives(x, q, ts, AndLevel) && !Derives(x, q, ts, PrimaryLevel)
    ensures q.And? && 0 < n < |ts| && (m == n || (m == n + 1 && ts[n] == AndOp)) && m <= |ts|
    ensures Derives(x, q.left, ts[..n], AndLevel) && Derives(x, q.right, ts[m..], PrimaryLevel)
  {
    if k :| 0 < k < |ts| && Derives(x, q.left, ts[..k], AndLevel) && Derives(x, q.right, ts[k..], PrimaryLevel) {
      n, m := k, k;
    } else {
      n :| 0 < n < |ts| && ts[n] == AndOp && Derives(x, q.left, ts[..n], AndLevel) && Derives(x, q.right, ts[n + 1..], PrimaryLevel);
      m := n + 1;
    }
  }

  lemma OrSplits(x: Lexicon, q: Query, ts: seq<Lexeme>) returns (n: nat)
    requires Derives(x, q, ts, OrLevel) && !Derives(x, q, ts, AndLevel)
    ensures q.Or? && 0 < n < |ts| && ts[n] == OrOp
    ensures Derives(x, q.left, ts[..n], OrLevel) && Derives(x, q.right, ts[n + 1..], AndLevel)
  {
    n :| 0 < n < |ts| && ts[n] == OrOp && Derives(x, q.left, ts[..n], OrLevel) && Derives(x, q.right, ts[n + 1..], AndLevel);
  }

  lemma {:induction false} AndReads(x: Lexicon, q: Query, ts: seq<Lexeme>, rest: seq<Lexeme>)
    requires Derives(x, q, ts, AndLevel)
    ensures AndExpr(x, ts + rest) == AndTail(x, q, rest)
    decreases |ts|, 1
  {
    hide *;
    if Derives(x, q, ts, PrimaryLevel) {
      PrimaryReads(x, q, ts, rest);
      FirstReads(x, q, ts, rest);
    } else {
      var n, m := AndSplits(x, q, ts);
      var a, b := ts[..n], ts[m..];
      PrimaryReads(x, q.right, b, rest);
      if m == n {
        AndReads(x, q.left, a, b + rest);
        DerivesStarts(x, q.right, b, PrimaryLevel);
        TailTakes(x, q.left, q.right, b, rest);
        Joins(a, b, rest);
        assert a + b == ts;
      } else {
        AndReads(x, q.left, a, [AndOp] + (b + rest));
        TailTakesAnd(x, q.left, q.right, b, rest);
        JoinsAt(ts, n, rest);
      }
    }
  }

  lemma JoinsAt(ts: seq<Lexeme>, n: nat, rest: seq<Lexeme>)
    requires n < |ts|
    ensures ts + rest == ts[..n] + ([ts[n]] + (ts[n + 1..] + rest))
  {
  }

  lemma OnlyReads(x: Lexicon, q: Query, ts: seq<Lexeme>, rest: seq<Lexeme>)
    requires AndExpr(x, ts + rest) == AndTail(x, q, rest) && Stops(rest)
    ensures OrExpr(x, ts + rest) == OrTail(x, q, rest)
  {
    hide AndExpr, OrTail;
  }

  lemma {:induction false} OrReads(x: Lexicon, q: Query, ts: seq<Lexeme>, rest: seq<Lexeme>)
    requires Derives(x, q, ts, OrLevel) && Stops(rest)
    ensures OrExpr(x, ts + rest) == OrTail(x, q, rest)
    decreases |ts|, 2
  {
    hide *;
    if Derives(x, q, ts, AndLevel) {
      AndReads(x, q, ts, rest);
      OnlyReads(x, q, ts, rest);
    } else {
      var n := OrSplits(x, q, ts);
      var a, b := ts[..n], ts[n + 1..];
      StopsAtOr(b + rest);
      OrReads(x, q.left, a, [OrOp] + (b + rest));
      AndReads(x, q.right, b, rest);
      TailTakesOr(x, q.left, q.right, b, rest);
      JoinsAt(ts, n, rest);
    }
  }

  lemma StopsAtOr(ts: seq<Lexeme>)
    ensures Stops([OrOp] + ts)
  {
  }

  // ---------- What is parsed is derived ----------

  /** The parser consumed the first n lexemes, and they derive the tree it returns. */
  ghost predicate Consumed(x: Lexicon, ts: seq<Lexeme>, r: Parsed, n: nat, level: Level)
  {
    r.Some? && n <= |ts| && r.value.1 == ts[n..] && Derives(x, r.value.0, ts[..n], level)
  }

  lemma {:induction false} PrimaryDerives(x: Lexicon, ts: seq<Lexeme>) returns (n: nat)
    requires Primary(x, ts).Some?
    ensures Consumed(x, ts, Primary(x, ts), n, PrimaryLevel) && n > 0
    decreases |ts|, 0
  {
    if ts[0].LParen? {
      var inner := OrExpr(x, ts[1..]);
      var m := OrDerives(x, ts[1..]);
      n := m + 2;
      assert ts[1..][m..] == ts[m + 1..] && ts[m + 1] == RParen;
      assert ts[..n][1..n - 1] == ts[1..][..m];
    } else {
      n := 1;
    }
  }

  lemma {:induction false} AndTailDerives(x: Lexicon, node: Query, ts: seq<Lexeme>, k: nat) returns (n: nat)
    requires 0 < k <= |ts| && Derives(x, node, ts[..k], AndLevel) && AndTail(x, node, ts[k..]).Some?
    ensures Consumed(x, ts, AndTail(x, node, ts[k..]), n, AndLevel) && n > 0
    decreases |ts| - k, 1
  {
    var rest := ts[k..];
    if rest == [] || rest[0] == OrOp || rest[0] == RParen {
      n := k;
    } else {
      var from := if rest[0] == AndOp then k + 1 else k;
      assert (if rest[0] == AndOp then rest[1..] else rest) == ts[from..];
      var right := Primary(x, ts[from..]);
      var m := PrimaryDerives(x, ts[from..]);
      var next := from + m;
      assert ts[from..][m..] == ts[next..];
      ConjunctDerives(x, node, right.value.0, ts, k, from, next);
      n := AndTailDerives(x, And(node, right.value.0), ts, next);
    }
  }

  lemma ConjunctDerives(x: Lexicon, l: Query, r: Query, ts: seq<Lexeme>, k: nat, from: nat, next: nat)
    requires 0 < k <= from < next <= |ts| && (from == k || (from == k + 1 && ts[k] == AndOp))
    requires Derives(x, l, ts[..k], AndLevel) && Derives(x, r, ts[from..][..next - from], PrimaryLevel)
    ensures Derives(x, And(l, r), ts[..next], AndLevel)
  {
    var all := ts[..next];
    assert all[..k] == ts[..k] && all[from..] == ts[from..][..next - from];
  }

  lemma {:induction false} AndDerives(x: Lexicon, ts: seq<Lexeme>) returns (n: nat)
    requires AndExpr(x, ts).Some?
    ensures Consumed(x, ts, AndExpr(x, ts), n, AndLevel) && n > 0
    decreases |ts|, 2
  {
    var m := PrimaryDerives(x, ts);
    n := AndTailDerives(x, Primary(x, ts).value.0, ts, m);
  }

  lemma {:induction false} OrTailDerives(x: Lexicon, node: Query, ts: seq<Lexeme>, k: nat) returns (n: nat)
    requires 0 < k <= |ts| && Derives(x, node, ts[..k], OrLevel) && OrTail(x, node, ts[k..]).Some?
    ensures Consumed(x, ts, OrTail(x, node, ts[k..]), n, OrLevel) && n > 0
    decreases |ts| - k, 3
  {
    var rest := ts[k..];
    if rest == [] || rest[0] != OrOp {
      n := k;
    } else {
      assert rest[1..] == ts[k + 1..];
      var right := AndExpr(x, ts[k + 1..]);
      var m := AndDerives(x, ts[k + 1..]);
      var next := k + 1 + m;
      assert ts[k + 1..][m..] == ts[next..];
      DisjunctDerives(x, node, right.value.0, ts, k, next);
      n := OrTailDerives(x, Or(node, right.value.0), ts, next);
    }
  }

  lemma DisjunctDerives(x: Lexicon, l: Query, r: Query, ts: seq<Lexeme>, k: nat, next: nat)
    requires 0 < k && k + 1 < next <= |ts| && ts[k] == OrOp
    requires Derives(x, l, ts[..k], OrLevel) && Derives(x, r, ts[k + 1..][..next - k - 1], AndLevel)
    ensures Derives(x, Or(l, r), ts[..next], OrLevel)
  {
    var all := ts[..next];
    assert all[..k] == ts[..k] && all[k + 1..] == ts[k + 1..][..next - k - 1];
  }

  lemma {:induction false} OrDerives(x: Lexicon, ts: seq<Lexeme>) returns (n: nat)
    requires OrExpr(x, ts).Some?
    ensures Consumed(x, ts, OrExpr(x, ts), n, OrLevel) && n > 0
    decreases |ts|, 4
  {
    var m := AndDerives(x, ts);
    n := OrTailDerives(x, AndExpr(x, ts).value.0, ts, m);
  }

  /** The parser is exact: it returns a tree if and only if the lexemes derive that tree. */
  lemma ParsesExactly(x: Lexicon, ts: seq<Lexeme>, q: Query)
    ensures ParseTokens(x, ts) == Some(q) <==> Derives(x, q, ts, OrLevel)
  {
    hide Derives;
    if Derives(x, q, ts, OrLevel) {
      DerivesStarts(x, q, ts, OrLevel);
      OrReads(x, q, ts, []);
      assert ts + [] == ts;
    }
    if ParseTokens(x, ts) == Some(q) {
      var n := OrDerives(x, ts);
      assert |ts[n..]| == 0 && ts[..n] == ts;
    }
  }

  // ---------- Rendering and parsing back ----------

  /** How to write a tree: a text for each phrase, AND or juxtaposition at each conjunction, and
      where to put parentheses that are not needed. */
  datatype Style = Style(quote: seq<string> -> string, writesAnd: Query -> bool, parenthesizes: Query -> bool)

  predicate NeedsParens(q: Query, level: Level)
  {
    (q.Or? && level != OrLevel) || (q.And? && level == PrimaryLevel)
  }

  function Bare(y: Style, q: Query): seq<Lexeme>
    decreases q, 0
  {
    match q
    case Token(w) => [Word(w)]
    case Phrase(p) => [PhraseString(y.quote(p))]
    case And(l, r) => Render(y, l, AndLevel) + (if y.writesAnd(q) then [AndOp] else []) + Render(y, r, PrimaryLevel)
    case Or(l, r) => Render(y, l, OrLevel) + [OrOp] + Render(y, r, AndLevel)
  }

  /** OR binds loosest, then AND; both group to the left; parentheses elsewhere. */
  function Render(y: Style, q: Query, level: Level): seq<Lexeme>
    decreases q, 1
  {
    if NeedsParens(q, level) || y.parenthesizes(q) then [LParen] + Bare(y, q) + [RParen] else Bare(y, q)
  }

  /** The text written for each phrase of the tree tokenizes to that phrase. */
  predicate Quotes(x: Lexicon, y: Style, q: Query)
  {
    match q
    case Token(_) => true
    case Phrase(p) => x.tokenize(y.quote(p)) == p
    case And(l, r) => Quotes(x, y, l) && Quotes(x, y, r)
    case Or(l, r) => Quotes(x, y, l) && Quotes(x, y, r)
  }

  lemma {:induction false} RenderDerives(x: Lexicon, y: Style, q: Query, level: Level)
    requires Quotes(x, y, q) && NonEmptyPhrases(q)
    ensures Derives(x, q, Render(y, q, level), level)
    decreases q, 1
  {
    hide Derives;
    if NeedsParens(q, level) || y.parenthesizes(q) {
      BareDerives(x, y, q, OrLevel);
      ParensDerive(x, q, Bare(y, q), level);
    } else {
      BareDerives(x, y, q, level);
    }
  }

  lemma ParensDerive(x: Lexicon, q: Query, ts: seq<Lexeme>, level: Level)
    requires Derives(x, q, ts, OrLevel)
    ensures Derives(x, q, [LParen] + ts + [RParen], level)
  {
    var all := [LParen] + ts + [RParen];
    assert all[1..|all| - 1] == ts;
    assert Derives(x, q, all, PrimaryLevel);
    assert Derives(x, q, all, AndLevel);
  }

  lemma {:induction false} BareDerives(x: Lexicon, y: Style, q: Query, level: Level)
    requires Quotes(x, y, q) && NonEmptyPhrases(q) && !NeedsParens(q, level)
    ensures Derives(x, q, Bare(y, q), level)
    decreases q, 0
  {
    match q
    case Token(_) => assert Derives(x, q, Bare(y, q), PrimaryLevel) && Derives(x, q, Bare(y, q), AndLevel);
    case Phrase(_) => assert Derives(x, q, Bare(y, q), PrimaryLevel) && Derives(x, q, Bare(y, q), AndLevel);
    case And(l, r) =>
      hide Derives;
      RenderDerives(x, y, l, AndLevel);
      RenderDerives(x, y, r, PrimaryLevel);
      DerivesStarts(x, l, Render(y, l, AndLevel), AndLevel);
      DerivesStarts(x, r, Render(y, r, PrimaryLevel), PrimaryLevel);
      AndBare(x, l, r, Render(y, l, AndLevel), Render(y, r, PrimaryLevel), y.writesAnd(q), level);
    case Or(l, r) =>
      hide Derives;
      RenderDerives(x, y, l, OrLevel);
      RenderDerives(x, y, r, AndLevel);
      DerivesStarts(x, l, Render(y, l, OrLevel), OrLevel);
      DerivesStarts(x, r, Render(y, r, AndLevel), AndLevel);
      OrBare(x, l, r, Render(y, l, OrLevel), Render(y, r, AndLevel));
  }

  lemma AndBare(x: Lexicon, l: Query, r: Query, a: seq<Lexeme>, b: seq<Lexeme>, explicit: bool, level: Level)
    requires Derives(x, l, a, AndLevel) && Derives(x, r, b, PrimaryLevel) && a != [] && b != [] && !level.PrimaryLevel?
    ensures Derives(x, And(l, r), a + (if explicit then [AndOp] else []) + b, level)
  {
    var all := a + (if explicit then [AndOp] else []) + b;
    var n := |a|;
    assert all[..n] == a;
    if explicit {
      assert all[n] == AndOp && all[n + 1..] == b;
    } else {
      assert all[n..] == b;
    }
    assert Derives(x, And(l, r), all, AndLevel);
  }

  lemma OrBare(x: Lexicon, l: Query, r: Query, a: seq<Lexeme>, b: seq<Lexeme>)
    requires Derives(x, l, a, OrLevel) && Derives(x, r, b, AndLevel) && a != [] && b != []
    ensures Derives(x, Or(l, r), a + [OrOp] + b, OrLevel)
  {
    var all := a + [OrOp] + b;
    var n := |a|;
    assert all[..n] == a && all[n] == OrOp && all[n + 1..] == b;
  }

  /** However a tree is written, with explicit or implied AND and any extra parentheses, it parses back. */
  lemma RenderParses(x: Lexicon, y: Style, q: Query)
    requires Quotes(x, y, q) && NonEmptyPhrases(q)
    ensures ParseTokens(x, Render(y, q, OrLevel)) == Some(q)
  {
    RenderDerives(x, y, q, OrLevel);
    ParsesExactly(x, Render(y, q, OrLevel), q);
  }

  // ---------- Everything the parser produces can be written again ----------

  /** Each phrase of the tree is the tokenization of some text. */
  ghost predicate Quotable(x: Lexicon, q: Query)
  {
    match q
    case Token(_) => true
    case Phrase(p) => exists s :: x.tokenize(s) == p
    case And(l, r) => Quotable(x, l) && Quotable(x, r)
    case Or(l, r) => Quotable(x, l) && Quotable(x, r)
  }

  lemma {:induction false} DerivedIsQuotable(x: Lexicon, q: Query, ts: seq<Lexeme>, level: Level)
    requires Derives(x, q, ts, level)
    ensures NonEmptyPhrases(q) && Quotable(x, q)
    decreases |ts|, LevelRank(level)
  {
    if level.OrLevel? {
      if Derives(x, q, ts, AndLevel) {
        DerivedIsQuotable(x, q, ts, AndLevel);
      } else {
        var n :| 0 < n < |ts| && ts[n] == OrOp && Derives(x, q.left, ts[..n], OrLevel) && Derives(x, q.right, ts[n + 1..], AndLevel);
        DerivedIsQuotable(x, q.left, ts[..n], OrLevel);
        DerivedIsQuotable(x, q.right, ts[n + 1..], AndLevel);
      }
    } else if level.AndLevel? {
      if Derives(x, q, ts, PrimaryLevel) {
        DerivedIsQuotable(x, q, ts, PrimaryLevel);
      } else {
        var n, m := AndSplits(x, q, ts);
        DerivedIsQuotable(x, q.left, ts[..n], AndLevel);
        DerivedIsQuotable(x, q.right, ts[m..], PrimaryLevel);
      }
    } else if |ts| >= 2 {
      DerivedIsQuotable(x, q, ts[1..|ts| - 1], OrLevel);
    }
  }

  /** A parsed query never holds an empty phrase, so index and row evaluation agree on it. */
  lemma ParsedQueriesHaveWords(x: Lexicon, ts: seq<Lexeme>)
    ensures ParseTokens(x, ts).Some? ==> NonEmptyPhrases(ParseTokens(x, ts).value) && Quotable(x, ParseTokens(x, ts).value)
  {
    if ParseTokens(x, ts).Some? {
      ParsesExactly(x, ts, ParseTokens(x, ts).value);
      DerivedIsQuotable(x, ParseTokens(x, ts).value, ts, OrLevel);
    }
  }

  /** Some text that tokenizes to p, where there is one. */
  ghost function TextOf(x: Lexicon, p: seq<string>): (s: string)
    ensures (exists t :: x.tokenize(t) == p) ==> x.tokenize(s) == p
  {
    if t :| x.tokenize(t) == p then t else ""
  }

  lemma {:induction false} TextsQuote(x: Lexicon, y: Style, q: Query)
    requires Quotable(x, q) && forall p :: y.quote(p) == TextOf(x, p)
    ensures Quotes(x, y, q)
  {
    match q
    case Token(_) =>
    case Phrase(_) =>
    case And(l, r) =>
      TextsQuote(x, y, l);
      TextsQuote(x, y, r);
    case Or(l, r) =>
      TextsQuote(x, y, l);
      TextsQuote(x, y, r);
  }

  /** For every tokenizer: whatever the parser accepts can be written out again, in any of these
      styles, and parses to the same tree. */
  lemma ParsedQueriesParseBack(x: Lexicon, ts: seq<Lexeme>, writesAnd: Query -> bool, parenthesizes: Query -> bool)
    requires ParseTokens(x, ts).Some?
    ensures exists quote :: ParseTokens(x, Render(Style(quote, writesAnd, parenthesizes), ParseTokens(x, ts).value, OrLevel)) == ParseTokens(x, ts)
  {
    var q := ParseTokens(x, ts).value;
    ghost var quote := (p: seq<string>) => TextOf(x, p);
    var y := Style(quote, writesAnd, parenthesizes);
    ParsedQueriesHaveWords(x, ts);
    TextsQuote(x, y, q);
    RenderParses(x, y, q);
  }
}
