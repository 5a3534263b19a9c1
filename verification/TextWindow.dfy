/** The window a reader of a printed text finds. The ranges of the text are those of the tree, in
    their order, whatever else is read differently; only which of them stands first on a date
    field can change. */
module TextWindow {
  import opened Text
  import opened Ast
  import opened Grammar
  import opened Printer
  import opened NormalForm
  import opened CanonicalForm
  import opened RoundTrip
  import opened Brackets
  import opened DateMath
  import opened Rules
  import opened WindowSearch
  import opened InjectionLaws

  /** Whatever operators, fields and signs the text is read with, it has the ranges of the tree. */
  lemma {:induction false} RangesSurvive(n: Node)
    requires WfQuery(n) && Parse(Print(n)).Done?
    ensures RangesOf(Parse(Print(n)).value) == RangesOf(n)
  {
    hide PassOver, RangesOf, Print, Parse, QueryAt;
    var s := Print(n);
    QueryAlone(n);
    QueryCloses(s, 0);
    var rest := QueryAt(s).rest;
    CloseSkip(rest, 0);
    PrintedCloses(n, "", 0);
    assert s + "" == s && Next("") == "";
    NothingPassed(0);
    NothingPassed(Lost(n));
    assert RangesOf(QueryAt(s).value) + [] == RangesOf(QueryAt(s).value);
    assert RangesOf(n) + [] == RangesOf(n);
  }

  lemma NothingPassed(d: nat)
    ensures PassOver("", d) == Passed([], "")
  {
  }

  // ---------- the first range on a date field ----------

  /** How many ranges stand before the first on a date field. */
  function BeforeDate(rs: seq<Listed>): nat {
    if rs == [] || rs[0].onDateField then 0 else 1 + BeforeDate(rs[1..])
  }

  function FirstDate(n: Node, fields: seq<string>): nat {
    BeforeDate(Flatten(n, fields))
  }

  function BoundsOf(rs: seq<Listed>): (bs: seq<(string, string)>)
    ensures |bs| == |rs|
  {
    if rs == [] then [] else [(rs[0].low, rs[0].high)] + BoundsOf(rs[1..])
  }

  lemma {:induction false} BoundsConcat(a: seq<Listed>, b: seq<Listed>)
    ensures BoundsOf(a + b) == BoundsOf(a) + BoundsOf(b)
  {
    if a == [] {
      assert a + b == b;
    } else {
      assert (a + b)[1..] == a[1..] + b;
      BoundsConcat(a[1..], b);
    }
  }

  lemma {:induction false} FlattenBounds(n: Node, fields: seq<string>)
    ensures BoundsOf(Flatten(n, fields)) == RangesOf(n)
    decreases n, 0
  {
    match n
    case Single(c) => FlattenClauseBounds(c, fields);
    case Boolean(cs) => FlattenAllBounds(cs, fields);
    case Group(q) => FlattenBounds(q, fields);
    case _ =>
  }

  lemma {:induction false} FlattenClauseBounds(c: Clause, fields: seq<string>)
    ensures BoundsOf(FlattenClause(c, fields)) == RangesOf(c.term)
    decreases c, 0
  {
    FlattenBounds(c.term, fields);
  }

  lemma {:induction false} FlattenAllBounds(cs: seq<Clause>, fields: seq<string>)
    ensures BoundsOf(FlattenClauses(cs, fields)) == RangesOfAll(cs)
    decreases cs, 0
  {
    if cs != [] {
      FlattenClauseBounds(cs[0], fields);
      FlattenAllBounds(cs[1..], fields);
      BoundsConcat(FlattenClause(cs[0], fields), FlattenClauses(cs[1..], fields));
    }
  }

  lemma {:induction false} ScanByBounds(a: seq<Listed>, b: seq<Listed>, now: int, layouts: Layouts)
    requires BoundsOf(a) == BoundsOf(b) && BeforeDate(a) == BeforeDate(b)
    ensures Scan(a, now, layouts) == Scan(b, now, layouts)
  {
    if a != [] {
      assert BoundsOf(a)[0] == BoundsOf(b)[0] && BoundsOf(a)[1..] == BoundsOf(b)[1..];
      if !a[0].onDateField && !b[0].onDateField {
        ScanByBounds(a[1..], b[1..], now, layouts);
      }
    }
  }

  /** The text of a tree has the window of the tree, unless it puts another range first on a date
      field. */
  lemma {:induction false} WindowThroughText(n: Node, fields: seq<string>, now: int, layouts: Layouts)
    requires WfQuery(n) && Parse(Print(n)).Done?
    requires FirstDate(Parse(Print(n)).value, fields) == FirstDate(n, fields)
    ensures SameSearch(FindWindow(Parse(Print(n)).value, fields, now, layouts), FindWindow(n, fields, now, layouts))
  {
    hide Parse, Print, Flatten, RangesOf, FindWindow, Scan;
    var m := Parse(Print(n)).value;
    RangesSurvive(n);
    FlattenBounds(m, fields);
    FlattenBounds(n, fields);
    ScanByBounds(Flatten(m, fields), Flatten(n, fields), now, layouts);
    SearchIsScan(m, fields, now, layouts);
    SearchIsScan(n, fields, now, layouts);
  }

  // ---------- neighbours that keep apart ----------

  /** Quoting moves no range. */
  lemma {:induction false} RequoteKeepsDates(n: Node, fields: seq<string>)
    ensures Flatten(Requote(n), fields) == Flatten(n, fields)
    decreases n, 0
  {
    match n
    case Group(q) => RequoteKeepsDates(q, fields);
    case Single(c) => RequoteKeepsDates(c.term, fields);
    case Boolean(cs) => RequoteKeepsAll(cs, fields);
    case _ =>
  }

  lemma {:induction false} RequoteKeepsAll(cs: seq<Clause>, fields: seq<string>)
    ensures FlattenClauses(RequoteClauses(cs), fields) == FlattenClauses(cs, fields)
    decreases cs, 0
  {
    if cs != [] {
      RequoteKeepsDates(cs[0].term, fields);
      RequoteKeepsAll(cs[1..], fields);
      assert RequoteClauses(cs)[1..] == RequoteClauses(cs[1..]);
    }
  }

  /** Where neighbours keep apart, no other range comes first. */
  lemma {:induction false} ApartKeepsDates(n: Node, fields: seq<string>)
    requires WfQuery(n) && JoinsQuery(n, true)
    ensures Parse(Print(n)).Done? && FirstDate(Parse(Print(n)).value, fields) == FirstDate(n, fields)
  {
    hide Parse, Print, Requote, Flatten;
    ReadPrinted(n);
    RequoteKeepsDates(n, fields);
  }
}
