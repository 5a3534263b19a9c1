/** Which trees print to text that reads back as the same tree. */
module CanonicalForm {
  import opened Text
  import opened Ast
  import opened Grammar
  import opened Printer
  import opened Conservation

  // ---------- leaves ----------

  predicate AllPlain(v: string) {
    forall i :: 0 <= i < |v| ==> IsPlain(v[i])
  }

  /** The leaf prints without adding quotes or escapes of its own. */
  predicate PlainLeaf(n: Node) {
    match n
    case Term(v, wildcard, _) => wildcard || !NeedsQuote(v)
    case Phrase(v) => AllPlain(v)
    case _ => true
  }

  predicate PlainNode(n: Node)
    decreases n, 0
  {
    match n
    case Group(q) => PlainNode(q)
    case Single(c) => PlainNode(c.term)
    case Boolean(cs) => PlainClauses(cs)
    case _ => PlainLeaf(n)
  }

  predicate PlainClauses(cs: seq<Clause>)
    decreases cs, 0
  {
    cs == [] || (PlainNode(cs[0].term) && PlainClauses(cs[1..]))
  }

  // ---------- neighbours ----------

  /** The word ends in a backslash that protects no byte. */
  predicate EndsEscaped(v: string, escaped: bool := false) {
    if v == "" then escaped else EndsEscaped(v[1..], !escaped && v[0] == '\\')
  }

  /** An escaped colon that a reader looking for a field name takes for the end of one. */
  predicate ReadsAsField(v: string) {
    FieldLen(v) < |v| && v[FieldLen(v)] == ':'
  }

  /** A clause without a field whose pattern would be read as naming one. */
  predicate HidesField(c: Clause) {
    c.field == "" && c.term.Term? && c.term.wildcard && ReadsAsField(c.term.value)
  }

  /** The bare word NOT, which negates whatever clause comes next. */
  predicate IsNotWord(c: Clause) {
    c.occur == Should && c.field == "" && c.term.Term? && EqualFold(c.term.value, "NOT")
  }

  /** The printed clause begins with the letters of an operator. */
  predicate StartsWithOperator(c: Clause) {
    HasPrefixFold(PrintClause(c), "AND") || HasPrefixFold(PrintClause(c), "OR")
  }

  /** Printed terms keep apart from what follows them; only the end of the text may follow
      a dangling backslash. */
  predicate JoinsTerm(n: Node, last: bool)
    decreases WeighNode(n, AllBytes), 0
  {
    match n
    case Term(v, wildcard, _) => wildcard && EndsEscaped(v) ==> last
    case Group(q) => JoinsQuery(q, false)
    case _ => true
  }

  predicate JoinsClause(c: Clause, last: bool)
    decreases WeighClause(c, AllBytes), 1
  {
    JoinsTerm(c.term, last) && !HidesField(c)
  }

  predicate JoinsClauses(cs: seq<Clause>, last: bool)
    decreases WeighClauses(cs, AllBytes), 2, |cs|
  {
    cs == [] ||
    (|cs| == 1 && assert cs[1..] == []; JoinsClause(cs[0], last)) ||
    (|cs| > 1 && JoinsClause(cs[0], false) && !IsNotWord(cs[0]) && !StartsWithOperator(cs[1]) &&
     JoinsClauses(cs[1..], last))
  }

  predicate JoinsQuery(q: Node, last: bool)
    decreases WeighNode(q, AllBytes), 3
  {
    ClausesWeigh(q, AllBytes);
    JoinsClauses(Clauses(q), last)
  }

  lemma ClausesWeigh(q: Node, k: Tally)
    ensures WeighClauses(Clauses(q), k) == WeighNode(q, k)
  {
    var cs := Clauses(q);
    if !q.Boolean? {
      assert cs[1..] == [];
    }
  }

  /** Every leaf prints as itself and no neighbours run together. */
  predicate Canonical(n: Node) {
    PlainNode(n) && JoinsQuery(n, true)
  }

  // ---------- what the printed text means ----------

  /** A leaf that needs quotes becomes a phrase, and a phrase is escaped once more. */
  function Requote(n: Node): Node
    decreases n, 0
  {
    match n
    case Term(v, wildcard, _) => if PlainLeaf(n) then n else Phrase(Escape(v))
    case Phrase(v) => Phrase(Escape(v))
    case Group(q) => Group(Requote(q))
    case Single(c) => Single(RequoteClause(c))
    case Boolean(cs) => Boolean(RequoteClauses(cs))
    case _ => n
  }

  function RequoteClause(c: Clause): Clause
    decreases c, 0
  {
    c.(term := Requote(c.term))
  }

  function RequoteClauses(cs: seq<Clause>): (r: seq<Clause>)
    ensures |r| == |cs|
    decreases cs, 0
  {
    if cs == [] then [] else [RequoteClause(cs[0])] + RequoteClauses(cs[1..])
  }

  /** Escaping leaves exactly the plain strings alone. */
  lemma {:induction false} EscapeFix(v: string)
    ensures |Escape(v)| >= |v|
    ensures AllPlain(v) <==> Escape(v) == v
    ensures AllPlain(v) <==> |Escape(v)| == |v|
  {
    if v != "" {
      EscapeFix(v[1..]);
      assert v == [v[0]] + v[1..];
      assert AllPlain(v) <==> IsPlain(v[0]) && AllPlain(v[1..]);
      if IsPlain(v[0]) {
        assert Escape(v) == [v[0]] + Escape(v[1..]);
      }
    }
  }

  /** Printing and reading loses nothing exactly when every leaf prints as itself. */
  lemma {:induction false} RequoteFix(n: Node)
    ensures PlainNode(n) <==> Requote(n) == n
    decreases n, 0
  {
    match n
    case Phrase(v) => EscapeFix(v);
    case Group(q) => RequoteFix(q);
    case Single(c) => RequoteFix(c.term);
    case Boolean(cs) => RequoteClausesFix(cs);
    case _ =>
  }

  lemma {:induction false} RequoteClausesFix(cs: seq<Clause>)
    ensures PlainClauses(cs) <==> RequoteClauses(cs) == cs
    decreases cs, 0
  {
    if cs != [] {
      RequoteFix(cs[0].term);
      RequoteClausesFix(cs[1..]);
      assert cs == [cs[0]] + cs[1..];
      assert RequoteClauses(cs)[1..] == RequoteClauses(cs[1..]);
    }
  }
}
