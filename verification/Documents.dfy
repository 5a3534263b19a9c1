/** What a query means: the documents it matches. */
module Documents {
  import opened Ast
  import opened DateMath

  /** A document is known by the times in its date fields and by a test for every other leaf
      on a field. */
  datatype Doc = Doc(times: map<string, int>, holds: (string, Node) -> bool)

  /** What is fixed while queries are matched: the date fields, the time, the date layouts. */
  datatype Setting = Setting(dateFields: seq<string>, now: int, layouts: Layouts)

  /** The time lies between the ends of the window; a missing end does not bound. */
  predicate Within(t: int, w: Window, r: Node)
    requires r.Range?
  {
    (w.low == 0 || w.low < t || (r.inclusiveLow && w.low == t)) &&
    (w.high == 0 || t < w.high || (r.inclusiveHigh && t == w.high))
  }

  predicate LeafMatches(n: Node, field: string, d: Doc, s: Setting) {
    (IsWindow(n, field, s) && field in d.times &&
     Within(d.times[field], ParseWindow(n.low, n.high, s.now, s.layouts).value, n)) ||
    (!IsWindow(n, field, s) && d.holds(field, n))
  }

  /** A range on a date field whose bounds can be read. */
  predicate IsWindow(n: Node, field: string, s: Setting) {
    n.Range? && field in s.dateFields && ParseWindow(n.low, n.high, s.now, s.layouts).Some?
  }

  /** A clause without a field searches the field it is nested in. */
  function Scope(c: Clause, field: string): string {
    if c.field == "" then field else c.field
  }

  /** Every required clause matches, no excluded one does; and where nothing is required, one of
      the optional clauses matches if there are any. */
  predicate Matches(n: Node, field: string, d: Doc, s: Setting)
    decreases n, 0
  {
    match n
    case Nil => false
    case Group(q) => Matches(q, field, d, s)
    case Single(c) => Matches(c.term, Scope(c, field), d, s) == (c.occur != MustNot)
    case Boolean(cs) =>
      (forall i :: 0 <= i < |cs| && cs[i].occur == Must ==> TermMatches(cs[i], field, d, s)) &&
      (forall i :: 0 <= i < |cs| && cs[i].occur == MustNot ==> !TermMatches(cs[i], field, d, s)) &&
      ((exists i :: 0 <= i < |cs| && cs[i].occur == Must) ||
       (forall i :: 0 <= i < |cs| ==> cs[i].occur != Should) ||
       (exists i :: 0 <= i < |cs| && cs[i].occur == Should && TermMatches(cs[i], field, d, s)))
    case _ => LeafMatches(n, field, d, s)
  }

  predicate TermMatches(c: Clause, field: string, d: Doc, s: Setting)
    decreases c, 0
  {
    Matches(c.term, Scope(c, field), d, s)
  }

  // ---------- windows on the way to every match ----------

  /** The range r on field f is reached from n through required clauses and groups alone. */
  predicate Required(n: Node, field: string, r: Node, f: string)
    decreases n, 0
  {
    match n
    case Range(_, _, _, _) => n == r && field == f
    case Group(q) => Required(q, field, r, f)
    case Single(c) => c.occur != MustNot && Required(c.term, Scope(c, field), r, f)
    case Boolean(cs) => exists i :: 0 <= i < |cs| && cs[i].occur == Must && RequiredIn(cs[i], field, r, f)
    case _ => false
  }

  predicate RequiredIn(c: Clause, field: string, r: Node, f: string)
    decreases c, 0
  {
    Required(c.term, Scope(c, field), r, f)
  }

  /** Every document that matches a query matches each range the query requires. */
  lemma {:induction false} RequiredMatches(n: Node, field: string, r: Node, f: string, d: Doc, s: Setting)
    requires Required(n, field, r, f) && Matches(n, field, d, s)
    ensures r.Range? && LeafMatches(r, f, d, s)
    decreases n, 0
  {
    match n
    case Group(q) => RequiredMatches(q, field, r, f, d, s);
    case Single(c) => RequiredMatches(c.term, Scope(c, field), r, f, d, s);
    case Boolean(cs) =>
      var i :| 0 <= i < |cs| && cs[i].occur == Must && RequiredIn(cs[i], field, r, f);
      assert TermMatches(cs[i], field, d, s);
      RequiredMatches(cs[i].term, Scope(cs[i], field), r, f, d, s);
    case _ =>
  }

  // ---------- edges and inherited fields ----------

  /** A range in square brackets matches the times at its ends, one in braces does not. */
  lemma {:induction false} EdgeMatches(low: string, high: string, inclusive: bool, field: string, d: Doc, s: Setting)
    requires field in s.dateFields && field in d.times && ParseWindow(low, high, s.now, s.layouts).Some?
    requires
      var w := ParseWindow(low, high, s.now, s.layouts).value;
      w.low != 0 && w.high != 0 && w.low < w.high
    ensures
      var w := ParseWindow(low, high, s.now, s.layouts).value;
      var t := d.times[field];
      Matches(Range(low, high, inclusive, inclusive), field, d, s) <==>
      w.low < t < w.high || (inclusive && (t == w.low || t == w.high))
  {
  }

  /** A missing end does not bound. */
  lemma {:induction false} OpenEndMatches(bound: string, inclusive: bool, field: string, d: Doc, s: Setting)
    requires field in s.dateFields && field in d.times && ParseEnd(bound, s.now, s.layouts).Some?
    requires ParseEnd(bound, s.now, s.layouts) != Some(0)
    ensures
      var (e, t) := (ParseEnd(bound, s.now, s.layouts).value, d.times[field]);
      (Matches(Range("*", bound, inclusive, inclusive), field, d, s) <==> t < e || (inclusive && t == e)) &&
      (Matches(Range(bound, "*", inclusive, inclusive), field, d, s) <==> e < t || (inclusive && t == e))
  {
  }

  /** In a group on a field, a clause that names none matches as if it named that field. */
  lemma {:induction false} FieldInherited(o: Occur, t: Node, f: string, d: Doc, s: Setting)
    ensures TermMatches(Clause(o, "", t), f, d, s) <==> TermMatches(Clause(o, f, t), "", d, s)
  {
  }

  /** An absent node matches nothing, a query of no clause everything. */
  lemma NothingMatches(field: string, d: Doc, s: Setting)
    ensures !Matches(Nil, field, d, s) && Matches(Boolean([]), field, d, s)
  {
  }
}
