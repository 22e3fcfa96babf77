/**
 Query texts: every text is a row of pieces, the lexer reads each piece for what it means, and a tree
 written in any such way parses back.
 */
module QueryText {
  import opened Values
  import opened Queries
  import opened QueryParser
  import opened QueryGrammar

  // ---------- Pieces of a text ----------

  datatype Piece = Gap(c: char) | Open | Close | Quoted(s: string) | Term(w: string)

  function Spelled(p: Piece): string
  {
    match p
    case Gap(c) => [c]
    case Open => "("
    case Close => ")"
    case Quoted(s) => ['"'] + s + ['"']
    case Term(w) => w
  }

  function Text(ps: seq<Piece>): string
  {
    if ps == [] then "" else Spelled(ps[0]) + Text(ps[1..])
  }

  /** A term is an operator in any letter case, or else stands for the tokens in it. */
  function Means(x: Lexicon, p: Piece): seq<Lexeme>
  {
    match p
    case Gap(_) => []
    case Open => [LParen]
    case Close => [RParen]
    case Quoted(s) => [PhraseString(s)]
    case Term(w) =>
      if x.upper(w) == "AND" then [AndOp]
      else if x.upper(w) == "OR" then [OrOp]
      else seq(|x.tokenize(w)|, i requires 0 <= i < |x.tokenize(w)| => Word(x.tokenize(w)[i]))
  }

  function Meaning(x: Lexicon, ps: seq<Piece>): seq<Lexeme>
  {
    if ps == [] then [] else Means(x, ps[0]) + Meaning(x, ps[1..])
  }

  /** White space, the three signs, quoted text without quotes, and words without any of these. */
  predicate Proper(x: Lexicon, p: Piece)
  {
    match p
    case Gap(c) => x.isSpace(c)
    case Open => !x.isSpace('(')
    case Close => !x.isSpace(')')
    case Quoted(s) => !x.isSpace('"') && '"' !in s
    case Term(w) => w != [] && forall i :: 0 <= i < |w| ==> !x.isSpace(w[i]) && w[i] != '(' && w[i] != ')' && w[i] != '"'
  }

  /** Terms do not touch. */
  predicate WellFormed(x: Lexicon, ps: seq<Piece>)
  {
    ps == [] || (Proper(x, ps[0]) && WellFormed(x, ps[1..]) && (ps[0].Term? && |ps| > 1 ==> !ps[1].Term?))
  }

  // ---------- The lexer does not look back ----------

  lemma {:induction false} WordEndIs(x: Lexicon, text: string, i: nat, k: nat)
    requires i <= k <= |text| && (forall j :: i <= j < k ==> !EndsWord(x, text[j])) && (k == |text| || EndsWord(x, text[k]))
    ensures WordEnd(x, text, i) == k
    decreases k - i
  {
    if i < k { WordEndIs(x, text, i + 1, k); }
  }

  lemma {:induction false} QuoteAtIs(text: string, i: nat, k: nat)
    requires i <= k < |text| && (forall j :: i <= j < k ==> text[j] != '"') && text[k] == '"'
    ensures QuoteAt(text, i) == Some(k)
    decreases k - i
  {
    if i < k { QuoteAtIs(text, i + 1, k); }
  }

  lemma {:induction false} QuoteShift(a: string, text: string, i: nat)
    requires i <= |text|
    ensures QuoteAt(a + text, |a| + i) == if QuoteAt(text, i).None? then None else Some(|a| + QuoteAt(text, i).value)
    decreases |text| - i
  {
    if i < |text| && text[i] != '"' {
      QuoteShift(a, text, i + 1);
    }
  }

  lemma WordEndShift(x: Lexicon, a: string, text: string, i: nat)
    requires i <= |text|
    ensures WordEnd(x, a + text, |a| + i) == |a| + WordEnd(x, text, i)
  {
    var k := WordEnd(x, text, i);
    forall j | |a| + i <= j < |a| + k ensures !EndsWord(x, (a + text)[j]) {
      assert (a + text)[j] == text[j - |a|];
    }
    WordEndIs(x, a + text, |a| + i, |a| + k);
  }

  function PhraseThen(text: string, i: nat, k: nat, more: Option<seq<Lexeme>>): Option<seq<Lexeme>>
    requires i < k <= |text|
  {
    Joined([PhraseString(text[i + 1..k])], more)
  }

  lemma LexPhraseAt(x: Lexicon, text: string, i: nat)
    requires i < |text| && text[i] == '"' && !x.isSpace('"')
    ensures var k := QuoteAt(text, i + 1);
            LexFrom(x, text, i) == if k.None? then None else PhraseThen(text, i, k.value, LexFrom(x, text, k.value + 1))
  {
  }

  lemma PhraseShift(x: Lexicon, a: string, text: string, i: nat)
    requires i < |text| && text[i] == '"' && !x.isSpace('"')
    requires forall k :: i < k <= |text| ==> LexFrom(x, a + text, |a| + k) == LexFrom(x, text, k)
    ensures LexFrom(x, a + text, |a| + i) == LexFrom(x, text, i)
  {
    hide LexFrom;
    LexPhraseAt(x, text, i);
    LexPhraseAt(x, a + text, |a| + i);
    QuoteShift(a, text, i + 1);
    var k := QuoteAt(text, i + 1);
    if k.Some? {
      var whole, end := a + text, |a| + k.value;
      assert LexFrom(x, whole, |a| + (k.value + 1)) == LexFrom(x, text, k.value + 1);
      assert whole[|a| + i + 1..end] == text[i + 1..k.value];
    }
  }

  lemma LexWordAt(x: Lexicon, text: string, i: nat)
    requires i < |text| && !EndsWord(x, text[i])
    ensures LexFrom(x, text, i) == Joined(WordLexemes(x, text[i..WordEnd(x, text, i + 1)]), LexFrom(x, text, WordEnd(x, text, i + 1)))
  {
  }

  lemma WordShift(x: Lexicon, a: string, text: string, i: nat)
    requires i < |text| && !EndsWord(x, text[i])
    requires forall k :: i < k <= |text| ==> LexFrom(x, a + text, |a| + k) == LexFrom(x, text, k)
    ensures LexFrom(x, a + text, |a| + i) == LexFrom(x, text, i)
  {
    hide LexFrom, WordLexemes, EndsWord;
    LexWordAt(x, text, i);
    LexWordAt(x, a + text, |a| + i);
    WordEndShift(x, a, text, i + 1);
    var k := WordEnd(x, text, i + 1);
    var whole, end := a + text, |a| + k;
    assert LexFrom(x, whole, end) == LexFrom(x, text, k);
    assert whole[|a| + i..end] == text[i..k];
  }

  lemma SignShift(x: Lexicon, a: string, text: string, i: nat)
    requires i < |text| && (x.isSpace(text[i]) || text[i] == '(' || text[i] == ')')
    requires LexFrom(x, a + text, |a| + i + 1) == LexFrom(x, text, i + 1)
    ensures LexFrom(x, a + text, |a| + i) == LexFrom(x, text, i)
  {
    assert (a + text)[|a| + i] == text[i];
  }

  /** What the lexer makes of the rest of a text does not depend on what came before it. */
  lemma {:induction false} LexShift(x: Lexicon, a: string, text: string, i: nat)
    requires i <= |text|
    ensures LexFrom(x, a + text, |a| + i) == LexFrom(x, text, i)
    decreases |text| - i
  {
    if i < |text| {
      hide LexFrom;
      forall k | i < k <= |text| ensures LexFrom(x, a + text, |a| + k) == LexFrom(x, text, k) {
        LexShift(x, a, text, k);
      }
      if x.isSpace(text[i]) || text[i] == '(' || text[i] == ')' {
        var next := i + 1;
        assert LexFrom(x, a + text, |a| + next) == LexFrom(x, text, next);
        SignShift(x, a, text, i);
      } else if text[i] == '"' {
        PhraseShift(x, a, text, i);
      } else {
        WordShift(x, a, text, i);
      }
    }
  }

  // ---------- Every piece is read for what it means ----------

  lemma NoWordFirst(x: Lexicon, ps: seq<Piece>)
    requires WellFormed(x, ps) && (ps != [] ==> !ps[0].Term?)
    ensures Text(ps) == [] || EndsWord(x, Text(ps)[0])
  {
  }

  lemma TermEnds(x: Lexicon, w: string, rest: string)
    requires Proper(x, Term(w)) && (rest == [] || EndsWord(x, rest[0]))
    ensures LexFrom(x, w + rest, 0) == Joined(Means(x, Term(w)), LexFrom(x, rest, 0))
  {
    var text := w + rest;
    forall j | 0 <= j < |w| ensures !EndsWord(x, text[j]) {
      assert text[j] == w[j];
    }
    WordEndIs(x, text, 1, |w|);
    LexShift(x, w, rest, 0);
    assert text[0..|w|] == w;
    assert Means(x, Term(w)) == WordLexemes(x, w);
    LexWordAt(x, text, 0);
  }

  lemma QuotedEnds(x: Lexicon, s: string, rest: string)
    requires Proper(x, Quoted(s))
    ensures LexFrom(x, Spelled(Quoted(s)) + rest, 0) == Joined([PhraseString(s)], LexFrom(x, rest, 0))
  {
    var text := Spelled(Quoted(s)) + rest;
    var end := |s| + 1;
    assert text[end] == '"' && forall j :: 1 <= j < end ==> text[j] == s[j - 1];
    QuoteAtIs(text, 1, end);
    LexShift(x, Spelled(Quoted(s)), rest, 0);
    assert text[1..end] == s;
    LexPhraseAt(x, text, 0);
  }

  lemma SignEnds(x: Lexicon, p: Piece, rest: string)
    requires Proper(x, p) && (p.Gap? || p.Open? || p.Close?)
    ensures LexFrom(x, Spelled(p) + rest, 0) == Joined(Means(x, p), LexFrom(x, rest, 0))
  {
    var text := Spelled(p) + rest;
    assert text[0] == Spelled(p)[0];
    LexShift(x, Spelled(p), rest, 0);
    if p.Gap? && LexFrom(x, rest, 0).Some? {
      assert [] + LexFrom(x, rest, 0).value == LexFrom(x, rest, 0).value;
    }
  }

  lemma PieceEnds(x: Lexicon, ps: seq<Piece>)
    requires WellFormed(x, ps) && ps != []
    ensures LexFrom(x, Text(ps), 0) == Joined(Means(x, ps[0]), LexFrom(x, Text(ps[1..]), 0))
  {
    hide LexFrom, Means;
    match ps[0]
    case Term(w) =>
      NoWordFirst(x, ps[1..]);
      TermEnds(x, w, Text(ps[1..]));
    case Quoted(s) =>
      QuotedEnds(x, s, Text(ps[1..]));
      MeansQuoted(x, s);
    case _ => SignEnds(x, ps[0], Text(ps[1..]));
  }

  lemma MeansQuoted(x: Lexicon, s: string)
    ensures Means(x, Quoted(s)) == [PhraseString(s)]
  {
  }

  /** Lexing a text gives the lexemes that its pieces mean. */
  lemma {:induction false} LexReadsText(x: Lexicon, ps: seq<Piece>)
    requires WellFormed(x, ps)
    ensures LexFrom(x, Text(ps), 0) == Some(Meaning(x, ps))
  {
    if ps != [] {
      LexReadsText(x, ps[1..]);
      PieceEnds(x, ps);
    }
  }

  /** The piece at a position, and where the next one starts. */
  ghost predicate Starts(x: Lexicon, text: string, i: nat, p: Piece, next: nat)
  {
    && i < next <= |text| && Proper(x, p) && Spelled(p) == text[i..next] && LexFrom(x, text, next).Some?
    && (p.Term? ==> !EndsWord(x, text[i]) && (next == |text| || EndsWord(x, text[next])))
  }

  lemma QuoteStarts(x: Lexicon, text: string, i: nat) returns (p: Piece, next: nat)
    requires i < |text| && text[i] == '"' && !x.isSpace('"') && LexFrom(x, text, i).Some?
    ensures Starts(x, text, i, p, next)
  {
    LexPhraseAt(x, text, i);
    var k := QuoteAt(text, i + 1).value;
    p, next := Quoted(text[i + 1..k]), k + 1;
    assert forall j :: 0 <= j < |p.s| ==> p.s[j] == text[i + 1 + j];
    assert Spelled(p) == text[i..next];
  }

  lemma TermStarts(x: Lexicon, text: string, i: nat) returns (p: Piece, next: nat)
    requires i < |text| && !EndsWord(x, text[i]) && LexFrom(x, text, i).Some?
    ensures Starts(x, text, i, p, next)
  {
    LexWordAt(x, text, i);
    next := WordEnd(x, text, i + 1);
    p := Term(text[i..next]);
    forall j | 0 <= j < |p.w| ensures !EndsWord(x, p.w[j]) {
      assert p.w[j] == text[i + j];
    }
  }

  lemma FirstPiece(x: Lexicon, text: string, i: nat) returns (p: Piece, next: nat)
    requires i < |text| && LexFrom(x, text, i).Some?
    ensures Starts(x, text, i, p, next)
  {
    var c := text[i];
    if !EndsWord(x, c) {
      p, next := TermStarts(x, text, i);
    } else if !x.isSpace(c) && c == '"' {
      p, next := QuoteStarts(x, text, i);
    } else {
      p, next := if x.isSpace(c) then Gap(c) else if c == '(' then Open else Close, i + 1;
      assert text[i..next] == [c];
    }
  }

  lemma PiecesJoin(x: Lexicon, text: string, i: nat, p: Piece, next: nat, rest: seq<Piece>)
    requires Starts(x, text, i, p, next) && WellFormed(x, rest) && Text(rest) == text[next..]
    requires rest != [] && rest[0].Term? ==> next < |text| && !EndsWord(x, text[next])
    ensures WellFormed(x, [p] + rest) && Text([p] + rest) == text[i..]
  {
    hide LexFrom, Proper, EndsWord, Spelled;
    var ps := [p] + rest;
    assert ps[1..] == rest && (|ps| > 1 ==> ps[1] == rest[0]);
    assert text[i..next] + text[next..] == text[i..];
  }

  /** Conversely, whatever the lexer accepts is such a text. */
  lemma {:induction false} TextHasPieces(x: Lexicon, text: string, i: nat) returns (ps: seq<Piece>)
    requires i <= |text| && LexFrom(x, text, i).Some?
    ensures WellFormed(x, ps) && Text(ps) == text[i..]
    ensures ps != [] && ps[0].Term? ==> i < |text| && !EndsWord(x, text[i])
    decreases |text| - i
  {
    if i == |text| {
      ps := [];
    } else {
      hide LexFrom, Proper, EndsWord, Spelled, Text, WellFormed;
      var p, next := FirstPiece(x, text, i);
      var rest := TextHasPieces(x, text, next);
      PiecesJoin(x, text, i, p, next, rest);
      ps := [p] + rest;
    }
  }

  /** The lexer on every text: it fails on an open quote, and otherwise gives what the pieces mean. */
  lemma EveryTextIsRead(x: Lexicon, text: string)
    ensures LexFrom(x, text, 0).Some? <==> exists ps :: WellFormed(x, ps) && Text(ps) == text
    ensures forall ps :: WellFormed(x, ps) && Text(ps) == text ==> LexFrom(x, text, 0) == Some(Meaning(x, ps))
  {
    forall ps | WellFormed(x, ps) && Text(ps) == text ensures LexFrom(x, text, 0) == Some(Meaning(x, ps)) {
      LexReadsText(x, ps);
    }
    if LexFrom(x, text, 0).Some? {
      var ps := TextHasPieces(x, text, 0);
      assert text[0..] == text;
    }
  }

  // ---------- Trees and texts ----------

  /** Some way to cut the text into pieces means lexemes that derive the tree. */
  ghost predicate StandsFor(x: Lexicon, text: string, q: Query)
  {
    exists ps :: WellFormed(x, ps) && Text(ps) == text && Derives(x, q, Meaning(x, ps), OrLevel)
  }

  /** The parser on every text: it returns a tree if and only if the text stands for that tree. */
  lemma EveryTextParsesExactly(x: Lexicon, text: string, q: Query)
    ensures ParseText(x, text) == Some(q) <==> StandsFor(x, text, q)
  {
    hide Derives;
    EveryTextIsRead(x, text);
    if LexFrom(x, text, 0).Some? {
      ParsesExactly(x, LexFrom(x, text, 0).value, q);
    }
  }

  /** Parsing a query text. */
  method Parse(x: Lexicon, text: string) returns (r: Option<Query>)
    ensures r == ParseText(x, text)
    ensures r.Some? ==> StandsFor(x, text, r.value) && NonEmptyPhrases(r.value)
    ensures r.None? ==> forall q :: !StandsFor(x, text, q)
  {
    hide StandsFor;
    var ts := LexQuery(x, text);
    r := None;
    if ts.Some? {
      r := ParseQueue(x, ts.value);
      ParsedQueriesHaveWords(x, ts.value);
    }
    forall q ensures r == Some(q) <==> StandsFor(x, text, q) {
      EveryTextParsesExactly(x, text, q);
    }
  }

  /** From tree to text and back: however the tree is written, the parser returns it. */
  lemma TextParses(x: Lexicon, y: Style, q: Query, ps: seq<Piece>)
    requires Quotes(x, y, q) && NonEmptyPhrases(q) && WellFormed(x, ps) && Meaning(x, ps) == Render(y, q, OrLevel)
    ensures ParseText(x, Text(ps)) == Some(q)
  {
    LexReadsText(x, ps);
    RenderParses(x, y, q);
  }

  /** A lexeme that one piece stands for. */
  function PieceOf(t: Lexeme): Piece
  {
    match t
    case LParen => Open
    case RParen => Close
    case AndOp => Term("AND")
    case OrOp => Term("OR")
    case Word(w) => Term(w)
    case PhraseString(s) => Quoted(s)
  }

  /** Lexemes one by one with a space behind each. */
  function Spaced(ts: seq<Lexeme>): seq<Piece>
  {
    if ts == [] then [] else [PieceOf(ts[0]), Gap(' ')] + Spaced(ts[1..])
  }

  predicate Writable(x: Lexicon, t: Lexeme)
  {
    Proper(x, PieceOf(t)) && Means(x, PieceOf(t)) == [t]
  }

  lemma {:induction false} SpacedMeans(x: Lexicon, ts: seq<Lexeme>)
    requires x.isSpace(' ') && forall t :: t in ts ==> Writable(x, t)
    ensures WellFormed(x, Spaced(ts)) && Meaning(x, Spaced(ts)) == ts
  {
    hide Proper, Means, PieceOf;
    if ts != [] {
      SpacedMeans(x, ts[1..]);
      assert Writable(x, ts[0]);
      SpacedStep(x, PieceOf(ts[0]), Spaced(ts[1..]));
      assert [ts[0]] + ts[1..] == ts;
    }
  }

  lemma SpacedStep(x: Lexicon, p: Piece, rest: seq<Piece>)
    requires x.isSpace(' ') && Proper(x, p) && WellFormed(x, rest)
    ensures WellFormed(x, [p, Gap(' ')] + rest) && Meaning(x, [p, Gap(' ')] + rest) == Means(x, p) + Meaning(x, rest)
  {
    hide Proper, Means;
    GapIs(x);
    var ps, tail := [p, Gap(' ')] + rest, [Gap(' ')] + rest;
    assert ps[1..] == tail && tail[1..] == rest;
    assert Meaning(x, tail) == Meaning(x, rest);
  }

  lemma GapIs(x: Lexicon)
    requires x.isSpace(' ')
    ensures Proper(x, Gap(' ')) && Means(x, Gap(' ')) == []
  {
  }

  /** Every word of the tree can be written as a term, and every phrase between quotes. */
  predicate WritableQuery(x: Lexicon, y: Style, q: Query)
  {
    match q
    case Token(w) => Writable(x, Word(w))
    case Phrase(p) => Writable(x, PhraseString(y.quote(p)))
    case And(l, r) => WritableQuery(x, y, l) && WritableQuery(x, y, r)
    case Or(l, r) => WritableQuery(x, y, l) && WritableQuery(x, y, r)
  }

  lemma {:induction false} RenderWritable(x: Lexicon, y: Style, q: Query, level: Level)
    requires WritableQuery(x, y, q) && Writable(x, LParen) && Writable(x, RParen) && Writable(x, AndOp) && Writable(x, OrOp)
    ensures forall t :: t in Render(y, q, level) ==> Writable(x, t)
    decreases q
  {
    hide Writable;
    match q
    case Token(_) =>
    case Phrase(_) =>
    case And(l, r) =>
      RenderWritable(x, y, l, AndLevel);
      RenderWritable(x, y, r, PrimaryLevel);
    case Or(l, r) =>
      RenderWritable(x, y, l, OrLevel);
      RenderWritable(x, y, r, AndLevel);
  }

  /** Such a tree has a text that parses to it: its lexemes with spaces between them. */
  lemma WrittenParses(x: Lexicon, y: Style, q: Query)
    requires Quotes(x, y, q) && NonEmptyPhrases(q) && WritableQuery(x, y, q) && x.isSpace(' ')
    requires Writable(x, LParen) && Writable(x, RParen) && Writable(x, AndOp) && Writable(x, OrOp)
    ensures ParseText(x, Text(Spaced(Render(y, q, OrLevel)))) == Some(q)
  {
    RenderWritable(x, y, q, OrLevel);
    SpacedMeans(x, Render(y, q, OrLevel));
    TextParses(x, y, q, Spaced(Render(y, q, OrLevel)));
  }
}
