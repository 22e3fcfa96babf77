/** The full-text query language: lexer and recursive-descent parser. */
module QueryParser {
  import opened Values
  import opened Queries

  datatype Lexeme = LParen | RParen | AndOp | OrOp | Word(w: string) | PhraseString(s: string)

  /** What the lexer takes from elsewhere: the tokenizer, and the character tables of Unicode. */
  datatype Lexicon = Lexicon(tokenize: string -> seq<string>, isSpace: char -> bool, upper: string -> string)

  type Parsed = Option<(Query, seq<Lexeme>)>

  // ---------- The grammar ----------

  function Primary(x: Lexicon, ts: seq<Lexeme>): (r: Parsed)
    ensures r.Some? ==> |r.value.1| < |ts|
    decreases |ts|, 2
  {
    if ts == [] then None
    else match ts[0]
      case Word(w) => Some((Token(w), ts[1..]))
      case PhraseString(s) =>
        if x.tokenize(s) == [] then None else Some((Phrase(x.tokenize(s)), ts[1..]))
      case LParen =>
        var inner := OrExpr(x, ts[1..]);
        if inner.Some? && inner.value.1 != [] && inner.value.1[0] == RParen
        then Some((inner.value.0, inner.value.1[1..])) else None
      case _ => None
  }

  function AndExpr(x: Lexicon, ts: seq<Lexeme>): (r: Parsed)
    ensures r.Some? ==> |r.value.1| < |ts|
    decreases |ts|, 4
  {
    var first := Primary(x, ts);
    if first.None? then None else AndTail(x, first.value.0, first.value.1)
  }

  /** Further conjuncts, with or without the operator, grouping to the left. */
  function AndTail(x: Lexicon, node: Query, ts: seq<Lexeme>): (r: Parsed)
    ensures r.Some? ==> |r.value.1| <= |ts|
    decreases |ts|, 3
  {
    if ts == [] then Some((node, ts))
    else match ts[0]
      case AndOp =>
        var right := Primary(x, ts[1..]);
        if right.None? then None else AndTail(x, And(node, right.value.0), right.value.1)
      case OrOp => Some((node, ts))
      case RParen => Some((node, ts))
      case _ =>
        var right := Primary(x, ts);
        if right.None? then None else AndTail(x, And(node, right.value.0), right.value.1)
  }

  function OrExpr(x: Lexicon, ts: seq<Lexeme>): (r: Parsed)
    ensures r.Some? ==> |r.value.1| < |ts|
    decreases |ts|, 6
  {
    var first := AndExpr(x, ts);
    if first.None? then None else OrTail(x, first.value.0, first.value.1)
  }

  function OrTail(x: Lexicon, node: Query, ts: seq<Lexeme>): (r: Parsed)
    ensures r.Some? ==> |r.value.1| <= |ts|
    decreases |ts|, 5
  {
    if ts == [] || ts[0] != OrOp then Some((node, ts))
    else
      var right := AndExpr(x, ts[1..]);
      if right.None? then None else OrTail(x, Or(node, right.value.0), right.value.1)
  }

  /** The whole queue must be one query. */
  function ParseTokens(x: Lexicon, ts: seq<Lexeme>): Option<Query>
  {
    if ts == [] then None
    else
      var r := OrExpr(x, ts);
      if r.Some? && r.value.1 == [] then Some(r.value.0) else None
  }

  // ---------- The parser object ----------

  /** A method took from the queue exactly what the grammar takes, or failed where the grammar fails. */
  predicate Took(expected: Parsed, r: Option<Query>, before: seq<Lexeme>, after: seq<Lexeme>)
  {
    && (r.Some? <==> expected.Some?)
    && (r.Some? ==> expected == Some((r.value, after)))
    && |after| <= |before|
  }

  class Parser {
    const lexicon: Lexicon
    var tokens: seq<Lexeme>

    constructor (lexicon: Lexicon, tokens: seq<Lexeme>)
      ensures this.lexicon == lexicon && this.tokens == tokens
    {
      this.lexicon, this.tokens := lexicon, tokens;
    }

    method NextToken() returns (t: Option<Lexeme>)
      modifies this
      ensures old(tokens) == [] ==> t == None && tokens == []
      ensures old(tokens) != [] ==> t == Some(old(tokens)[0]) && tokens == old(tokens)[1..]
    {
      if tokens == [] {
        return None;
      }
      t := Some(tokens[0]);
      tokens := tokens[1..];
    }

    method ParseOr() returns (r: Option<Query>)
      modifies this
      ensures Took(OrExpr(lexicon, old(tokens)), r, old(tokens), tokens)
      decreases |tokens|, 6
    {
      r := ParseAnd();
      if r.None? {
        return;
      }
      var node := r.value;
      while tokens != [] && tokens[0] == OrOp
        invariant OrExpr(lexicon, old(tokens)) == OrTail(lexicon, node, tokens)
        invariant |tokens| < |old(tokens)|
        decreases |tokens|
      {
        var op := NextToken();
        r := ParseAnd();
        if r.None? {
          return;
        }
        node := Or(node, r.value);
      }
      r := Some(node);
    }

    method ParseAnd() returns (r: Option<Query>)
      modifies this
      ensures Took(AndExpr(lexicon, old(tokens)), r, old(tokens), tokens)
      decreases |tokens|, 4
    {
      r := ParsePrimary();
      if r.None? {
        return;
      }
      var node := r.value;
      while tokens != [] && tokens[0] != OrOp && tokens[0] != RParen
        invariant AndExpr(lexicon, old(tokens)) == AndTail(lexicon, node, tokens)
        invariant |tokens| < |old(tokens)|
        decreases |tokens|
      {
        if tokens[0] == AndOp {
          var op := NextToken();
        }
        r := ParsePrimary();
        if r.None? {
          return;
        }
        node := And(node, r.value);
      }
      r := Some(node);
    }

    method ParsePrimary() returns (r: Option<Query>)
      modifies this
      ensures Took(Primary(lexicon, old(tokens)), r, old(tokens), tokens)
      decreases |tokens|, 2
    {
      var t := NextToken();
      if t.None? {
        return None;
      }
      match t.value
      case Word(w) => r := Some(Token(w));
      case PhraseString(s) =>
        var tokens := lexicon.tokenize(s);
        if tokens == [] {
          return None;
        }
        r := Some(Phrase(tokens));
      case LParen =>
        r := ParseOr();
        if r.Some? {
          var close := NextToken();
          if close != Some(RParen) {
            return None;
          }
        }
      case _ => r := None;
    }
  }

  method ParseQueue(x: Lexicon, ts: seq<Lexeme>) returns (r: Option<Query>)
    ensures r == ParseTokens(x, ts)
  {
    if ts == [] {
      return None;
    }
    var p := new Parser(x, ts);
    r := p.ParseOr();
    if r.Some? && p.tokens != [] {
      r := None;
    }
  }

  // ---------- The lexer ----------

  predicate EndsWord(x: Lexicon, c: char)
  {
    x.isSpace(c) || c == '(' || c == ')' || c == '"'
  }

  /** The end of the word that starts at i. */
  function WordEnd(x: Lexicon, text: string, i: nat): (k: nat)
    requires i <= |text|
    ensures i <= k <= |text| && (k < |text| ==> EndsWord(x, text[k]))
    ensures forall j :: i <= j < k ==> !EndsWord(x, text[j])
    decreases |text| - i
  {
    if i == |text| || EndsWord(x, text[i]) then i else WordEnd(x, text, i + 1)
  }

  /** The next double quote at or after i. */
  function QuoteAt(text: string, i: nat): (k: Option<nat>)
    requires i <= |text|
    ensures k.Some? ==> i <= k.value < |text| && text[k.value] == '"'
    ensures forall j :: i <= j < (if k.Some? then k.value else |text|) ==> text[j] != '"'
    decreases |text| - i
  {
    if i == |text| then None else if text[i] == '"' then Some(i) else QuoteAt(text, i + 1)
  }

  function Words(tokens: seq<string>): seq<Lexeme>
  {
    seq(|tokens|, i requires 0 <= i < |tokens| => Word(tokens[i]))
  }

  function WordLexemes(x: Lexicon, term: string): seq<Lexeme>
  {
    if x.upper(term) == "AND" then [AndOp]
    else if x.upper(term) == "OR" then [OrOp]
    else Words(x.tokenize(term))
  }

  function Joined(front: seq<Lexeme>, more: Option<seq<Lexeme>>): Option<seq<Lexeme>>
  {
    if more.None? then None else Some(front + more.value)
  }

  /** The lexemes of the text from i on; None when a quote is left open. */
  function LexFrom(x: Lexicon, text: string, i: nat): Option<seq<Lexeme>>
    requires i <= |text|
    decreases |text| - i
  {
    if i == |text| then Some([])
    else
      var c := text[i];
      if x.isSpace(c) then LexFrom(x, text, i + 1)
      else if c == '(' then Joined([LParen], LexFrom(x, text, i + 1))
      else if c == ')' then Joined([RParen], LexFrom(x, text, i + 1))
      else if c == '"' then
        var k := QuoteAt(text, i + 1);
        if k.None? then None else Joined([PhraseString(text[i + 1..k.value])], LexFrom(x, text, k.value + 1))
      else
        var k := WordEnd(x, text, i + 1);
        Joined(WordLexemes(x, text[i..k]), LexFrom(x, text, k))
  }

  method LexPhrase(text: string, start: nat) returns (content: string, next: Option<nat>)
    requires start <= |text|
    ensures QuoteAt(text, start).None? ==> next == None
    ensures QuoteAt(text, start).Some? ==> content == text[start..QuoteAt(text, start).value] && next == Some(QuoteAt(text, start).value + 1)
  {
    content := "";
    var i := start;
    while i < |text|
      invariant start <= i <= |text| && content == text[start..i] && QuoteAt(text, start) == QuoteAt(text, i)
    {
      if text[i] == '"' {
        return content, Some(i + 1);
      }
      content := content + [text[i]];
      i := i + 1;
    }
    next := None;
  }

  method LexWord(x: Lexicon, text: string, start: nat) returns (ts: seq<Lexeme>, next: nat)
    requires start < |text| && !EndsWord(x, text[start])
    ensures next == WordEnd(x, text, start + 1) && ts == WordLexemes(x, text[start..next])
  {
    var term := "";
    next := start;
    while next < |text| && !EndsWord(x, text[next])
      invariant start <= next <= |text| && term == text[start..next]
      invariant WordEnd(x, text, start) == WordEnd(x, text, next)
    {
      term := term + [text[next]];
      next := next + 1;
    }
    var upper := x.upper(term);
    if upper == "AND" {
      ts := [AndOp];
    } else if upper == "OR" {
      ts := [OrOp];
    } else {
      var tokens := x.tokenize(term);
      ts := [];
      for n := 0 to |tokens|
        invariant ts == Words(tokens)[..n]
      {
        ts := ts + [Word(tokens[n])];
      }
    }
  }

  method LexQuery(x: Lexicon, text: string) returns (r: Option<seq<Lexeme>>)
    ensures r == LexFrom(x, text, 0)
  {
    var ts: seq<Lexeme> := [];
    var i := 0;
    JoinedNone(LexFrom(x, text, 0));
    while i < |text|
      invariant i <= |text| && LexFrom(x, text, 0) == Joined(ts, LexFrom(x, text, i))
      decreases |text| - i
    {
      var c := text[i];
      if x.isSpace(c) {
        i := i + 1;
      } else if c == '(' {
        JoinedTwice(ts, [LParen], LexFrom(x, text, i + 1));
        ts, i := ts + [LParen], i + 1;
      } else if c == ')' {
        JoinedTwice(ts, [RParen], LexFrom(x, text, i + 1));
        ts, i := ts + [RParen], i + 1;
      } else if c == '"' {
        var content, next := LexPhrase(text, i + 1);
        if next.None? {
          return None;
        }
        JoinedTwice(ts, [PhraseString(content)], LexFrom(x, text, next.value));
        ts, i := ts + [PhraseString(content)], next.value;
      } else {
        var more, next := LexWord(x, text, i);
        JoinedTwice(ts, more, LexFrom(x, text, next));
        ts, i := ts + more, next;
      }
    }
    assert ts + [] == ts;
    r := Some(ts);
  }

  lemma JoinedNone(more: Option<seq<Lexeme>>)
    ensures Joined([], more) == more
  {
    if more.Some? { assert [] + more.value == more.value; }
  }

  lemma JoinedTwice(a: seq<Lexeme>, b: seq<Lexeme>, more: Option<seq<Lexeme>>)
    ensures Joined(a, Joined(b, more)) == Joined(a + b, more)
  {
    if more.Some? { assert a + (b + more.value) == a + b + more.value; }
  }

  /** The text from i on has an odd number of double quotes. */
  predicate OddQuotes(text: string, i: nat)
    requires i <= |text|
    decreases |text| - i
  {
    i < |text| && (text[i] == '"') != OddQuotes(text, i + 1)
  }

  lemma {:induction false} SkipQuotes(text: string, i: nat, k: nat)
    requires i <= k <= |text| && forall j :: i <= j < k ==> text[j] != '"'
    ensures OddQuotes(text, i) == OddQuotes(text, k)
    decreases k - i
  {
    if i < k { SkipQuotes(text, i + 1, k); }
  }

  /** Lexing fails exactly when the text has an odd number of double quotes. */
  lemma {:induction false} LexFailsOnOddQuotes(x: Lexicon, text: string, i: nat)
    requires i <= |text| && !x.isSpace('"')
    ensures LexFrom(x, text, i).None? <==> OddQuotes(text, i)
    decreases |text| - i
  {
    if i < |text| {
      var c := text[i];
      if c == '"' {
        var k := QuoteAt(text, i + 1);
        SkipQuotes(text, i + 1, if k.Some? then k.value else |text|);
        if k.Some? {
          LexFailsOnOddQuotes(x, text, k.value + 1);
        }
      } else if x.isSpace(c) || c == '(' || c == ')' {
        LexFailsOnOddQuotes(x, text, i + 1);
      } else {
        LexWordQuotes(x, text, i);
        LexFailsOnOddQuotes(x, text, WordEnd(x, text, i + 1));
      }
    }
  }

  lemma LexWordQuotes(x: Lexicon, text: string, i: nat)
    requires i < |text| && text[i] != '"'
    ensures OddQuotes(text, i) == OddQuotes(text, WordEnd(x, text, i + 1))
  {
    SkipQuotes(text, i, WordEnd(x, text, i + 1));
  }

  function ParseText(x: Lexicon, text: string): Option<Query>
  {
    var ts := LexFrom(x, text, 0);
    if ts.None? then None else ParseTokens(x, ts.value)
  }
}
