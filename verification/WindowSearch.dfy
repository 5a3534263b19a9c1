/** The window search is a scan of the ranges of a tree from left to right. */
module WindowSearch {
  import opened Ast
  import opened DateMath
  import opened Rules

  /** A range, the field its clause names, and whether that is a date field. */
  datatype Listed = Listed(low: string, high: string, range: Node, field: string, onDateField: bool)

  /** The ranges of a tree from left to right, with whether a date field names them. */
  function Flatten(n: Node, fields: seq<string>): seq<Listed>
    decreases n, 0
  {
    match n
    case Range(low, high, _, _) => [Listed(low, high, n, "", false)]
    case Single(c) => FlattenClause(c, fields)
    case Boolean(cs) => FlattenClauses(cs, fields)
    case Group(q) => Flatten(q, fields)
    case _ => []
  }

  function FlattenClause(c: Clause, fields: seq<string>): seq<Listed>
    decreases c, 0
  {
    if c.field in fields && c.term.Range? then [Listed(c.term.low, c.term.high, c.term, c.field, true)]
    else Flatten(c.term, fields)
  }

  function FlattenClauses(cs: seq<Clause>, fields: seq<string>): seq<Listed>
    decreases cs, 0
  {
    if cs == [] then [] else FlattenClause(cs[0], fields) + FlattenClauses(cs[1..], fields)
  }

  /** The first range whose bounds cannot be read stops the scan with a failure; otherwise the
      first range on a date field is the window. */
  function Scan(rs: seq<Listed>, now: int, layouts: Layouts): Search {
    if rs == [] then NOTHING else
    match ParseWindow(rs[0].low, rs[0].high, now, layouts)
    case None => FAILURE
    case Some(w) => if rs[0].onDateField then Search(w, true, false) else Scan(rs[1..], now, layouts)
  }

  /** The range whose window a scan finds. */
  function Winner(rs: seq<Listed>, now: int, layouts: Layouts): Option<Listed> {
    if rs == [] || ParseWindow(rs[0].low, rs[0].high, now, layouts).None? then None
    else if rs[0].onDateField then Some(rs[0])
    else Winner(rs[1..], now, layouts)
  }

  /** Same failure; and without failure the same window, if any. */
  predicate SameSearch(a: Search, b: Search) {
    Result(a) == Result(b)
  }

  /** What matters of a search: nothing of one that failed, and the window of one that found any. */
  function Result(s: Search): Option<Option<Window>> {
    if s.failed then None else Some(if s.found then Some(s.window) else None)
  }

  lemma {:induction false} ScanConcat(a: seq<Listed>, b: seq<Listed>, now: int, layouts: Layouts)
    ensures
      var s := Scan(a, now, layouts);
      Scan(a + b, now, layouts) == if s.failed || s.found then s else Scan(b, now, layouts)
  {
    if a == [] {
      assert a + b == b;
    } else {
      assert (a + b)[1..] == a[1..] + b;
      ScanConcat(a[1..], b, now, layouts);
    }
  }

  /** The recursive search with its early exits finds what a scan of all ranges finds. */
  lemma {:induction false} SearchIsScan(n: Node, fields: seq<string>, now: int, layouts: Layouts)
    ensures SameSearch(FindWindow(n, fields, now, layouts), Scan(Flatten(n, fields), now, layouts))
    decreases n, 0
  {
    match n
    case Single(c) => ClauseIsScan(c, fields, now, layouts);
    case Boolean(cs) => ClausesIsScan(cs, fields, now, layouts);
    case Group(q) => SearchIsScan(q, fields, now, layouts);
    case _ =>
  }

  lemma {:induction false} ClauseIsScan(c: Clause, fields: seq<string>, now: int, layouts: Layouts)
    ensures SameSearch(FindInClause(c, fields, now, layouts), Scan(FlattenClause(c, fields), now, layouts))
    decreases c, 0
  {
    SearchIsScan(c.term, fields, now, layouts);
  }

  lemma {:induction false} ClausesIsScan(cs: seq<Clause>, fields: seq<string>, now: int, layouts: Layouts)
    ensures SameSearch(FindInClauses(cs, fields, now, layouts), Scan(FlattenClauses(cs, fields), now, layouts))
    decreases cs, 0
  {
    if cs != [] {
      ClauseIsScan(cs[0], fields, now, layouts);
      ClausesIsScan(cs[1..], fields, now, layouts);
      ScanConcat(FlattenClause(cs[0], fields), FlattenClauses(cs[1..], fields), now, layouts);
    }
  }

  lemma {:induction false} ScanHasWinner(rs: seq<Listed>, now: int, layouts: Layouts)
    ensures
      var (s, w) := (Scan(rs, now, layouts), Winner(rs, now, layouts));
      (!s.failed && s.found <==> w.Some?) &&
      (w.Some? ==> w.value in rs && w.value.onDateField &&
                   ParseWindow(w.value.low, w.value.high, now, layouts) == Some(s.window))
  {
    if rs != [] {
      ScanHasWinner(rs[1..], now, layouts);
    }
  }

  /** A listed range on a date field is one of the tree's clauses. */
  predicate FromClause(l: Listed, fields: seq<string>) {
    l.onDateField ==>
      l.field in fields && l.range.Range? && l.low == l.range.low && l.high == l.range.high
  }

  lemma {:induction false} ListedFromClauses(n: Node, fields: seq<string>)
    ensures forall l :: l in Flatten(n, fields) ==> FromClause(l, fields)
    decreases n, 0
  {
    match n
    case Single(c) => ListedFromClauses(c.term, fields);
    case Boolean(cs) => ListedFromAll(cs, fields);
    case Group(q) => ListedFromClauses(q, fields);
    case _ =>
  }

  lemma {:induction false} ListedFromAll(cs: seq<Clause>, fields: seq<string>)
    ensures forall l :: l in FlattenClauses(cs, fields) ==> FromClause(l, fields)
    decreases cs, 0
  {
    if cs != [] {
      ListedFromClauses(cs[0].term, fields);
      ListedFromAll(cs[1..], fields);
    }
  }

  lemma {:induction false} ScanAtAnyTime(rs: seq<Listed>, now: int, later: int, layouts: Layouts)
    ensures
      var (a, b) := (Scan(rs, now, layouts), Scan(rs, later, layouts));
      a.failed == b.failed && a.found == b.found
  {
    if rs != [] {
      ReadableAtAnyTime(rs[0].low, rs[0].high, now, later, layouts);
      ScanAtAnyTime(rs[1..], now, later, layouts);
    }
  }

  /** Whether the search fails, and whether it finds a window, does not depend on when it is
      made, so the rule and the injection agree about the same query. */
  lemma {:induction false} SearchAtAnyTime(n: Node, fields: seq<string>, now: int, later: int, layouts: Layouts)
    ensures
      var (a, b) := (FindWindow(n, fields, now, layouts), FindWindow(n, fields, later, layouts));
      a.failed == b.failed && (!a.failed ==> a.found == b.found)
  {
    SearchIsScan(n, fields, now, layouts);
    SearchIsScan(n, fields, later, layouts);
    ScanAtAnyTime(Flatten(n, fields), now, later, layouts);
  }

  // ---------- failures ----------

  /** The query is one range on a date field, in whatever groups. */
  predicate IsDated(n: Node, fields: seq<string>)
    decreases n, 0
  {
    match n
    case Single(c) => (c.field in fields && c.term.Range?) || IsDated(c.term, fields)
    case Group(q) => IsDated(q, fields)
    case _ => false
  }

  /** Where a bound cannot be read the search says that it found something in such a query alone. */
  lemma {:induction false} FailureFound(n: Node, fields: seq<string>, now: int, layouts: Layouts)
    requires FindWindow(n, fields, now, layouts).failed
    ensures FindWindow(n, fields, now, layouts).found <==> IsDated(n, fields)
    decreases n, 0
  {
    match n
    case Single(c) =>
      if !(c.field in fields && c.term.Range?) {
        FailureFound(c.term, fields, now, layouts);
      }
    case Group(q) => FailureFound(q, fields, now, layouts);
    case Boolean(cs) => ClausesFail(cs, fields, now, layouts);
    case _ =>
  }

  lemma {:induction false} ClausesFail(cs: seq<Clause>, fields: seq<string>, now: int, layouts: Layouts)
    ensures FindInClauses(cs, fields, now, layouts).failed ==> FindInClauses(cs, fields, now, layouts) == FAILURE
    decreases cs, 0
  {
    if cs != [] {
      ClausesFail(cs[1..], fields, now, layouts);
    }
  }
}
