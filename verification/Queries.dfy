/** Full-text queries and what it means for the text of one row to satisfy them. */
module Queries {
  import opened Values
  import opened Indexes

  datatype Query =
    | Token(token: string)
    | And(left: Query, right: Query)
    | Or(left: Query, right: Query)
    | Phrase(tokens: seq<string>)

  predicate OccursAt(tokens: seq<string>, phrase: seq<string>, i: nat)
  {
    i + |phrase| <= |tokens| && tokens[i..i + |phrase|] == phrase
  }

  /** Row-by-row evaluation. A row without text satisfies nothing, not even the empty phrase. */
  predicate RowSatisfies(def: IndexDef, q: Query, row: Row)
    requires def.FullText?
  {
    match q
    case Token(t) => t in TokensOf(def, row)
    case And(l, r) => RowSatisfies(def, l, row) && RowSatisfies(def, r, row)
    case Or(l, r) => RowSatisfies(def, l, row) || RowSatisfies(def, r, row)
    case Phrase(p) =>
      var tokens := TokensOf(def, row);
      ValueAt(row, def.column).Str? && exists i :: 0 <= i <= |tokens| && OccursAt(tokens, p, i)
  }

  predicate NonEmptyPhrases(q: Query)
  {
    match q
    case Token(_) => true
    case And(l, r) => NonEmptyPhrases(l) && NonEmptyPhrases(r)
    case Or(l, r) => NonEmptyPhrases(l) && NonEmptyPhrases(r)
    case Phrase(p) => p != []
  }
}
