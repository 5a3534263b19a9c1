/** The abstract syntax of queries. */
module Ast {

  datatype Occur = Should | Must | MustNot

  /** A clause restricts a term to a field; the empty field is the default field. */
  datatype Clause = Clause(occur: Occur, field: string, term: Node)

  datatype Node =
    | Nil                                  // an absent node
    | Term(value: string, wildcard: bool, prefix: bool)
    | Phrase(value: string)
    | Range(low: string, high: string, inclusiveLow: bool, inclusiveHigh: bool)
    | Group(query: Node)
    | Single(clause: Clause)               // a clause standing alone as a query
    | Boolean(clauses: seq<Clause>)

  predicate IsLeaf(n: Node) {
    n.Term? || n.Phrase? || n.Range?
  }

  /** The clauses of a query, a lone node being one clause without prefix or field. */
  function Clauses(n: Node): (cs: seq<Clause>) {
    match n
    case Boolean(cs) => cs
    case Single(c) => [c]
    case _ => [Clause(Should, "", n)]
  }
}
