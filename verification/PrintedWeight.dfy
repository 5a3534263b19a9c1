/** What a printed tree weighs: printing never loses a quote or backslash, adds none to plain
    leaves alone, keeps every letter and writes no NUL. */
module PrintedWeight {
  import opened Text
  import opened Ast
  import opened Grammar
  import opened Printer
  import opened NormalForm
  import opened Conservation
  import opened CanonicalForm
  import opened RoundTrip

  // ---------- what printing adds ----------

  lemma {:induction false} EscapeWeighs(v: string)
    ensures Weigh(Escape(v), Escapes) >= Weigh(v, Escapes)
    ensures Weigh(Escape(v), Escapes) == Weigh(v, Escapes) <==> AllPlain(v)
  {
    if v != "" {
      EscapeWeighs(v[1..]);
      WeighConcat(EscapeByte(v[0]), Escape(v[1..]), Escapes);
      EscapeByteWeighs(v[0]);
      assert AllPlain(v) <==> IsPlain(v[0]) && AllPlain(v[1..]);
    }
  }

  lemma {:induction false} EscapeByteWeighs(c: char)
    ensures IsPlain(c) ==> Weigh(EscapeByte(c), Escapes) == Weight(c, Escapes)
    ensures !IsPlain(c) ==> Weigh(EscapeByte(c), Escapes) > Weight(c, Escapes)
  {
    var e := EscapeByte(c);
    if |e| > 1 {
      assert Weigh(e, Escapes) == 1 + Weigh(e[1..], Escapes);
      assert Weigh(e[1..], Escapes) >= Weight(e[1], Escapes);
    }
  }

  lemma {:induction false} QuoteWeighs(v: string)
    ensures Weigh(Quote(v), Escapes) == Weigh(Escape(v), Escapes) + 2
  {
    WeighConcat("\"" + Escape(v), "\"", Escapes);
  }

  lemma {:induction false} RangePrintWeighs(n: Node, k: Tally)
    requires n.Range? && WfTerm(n) && k != AllBytes
    ensures Weigh(Print(n), k) == WeighNode(n, k)
  {
    var open := if n.inclusiveLow then "[" else "{";
    var close := if n.inclusiveHigh then "]" else "}";
    WeighConcat(open + n.low + " TO " + n.high, close, k);
    WeighConcat(open + n.low + " TO ", n.high, k);
    WeighConcat(open + n.low, " TO ", k);
    WeighConcat(open, n.low, k);
    WeighTo(k);
  }

  lemma {:induction false} WeighTo(k: Tally)
    requires k != AllBytes
    ensures Weigh(" TO ", k) == 0
  {
    assert " TO "[1..] == "TO " && "TO "[1..] == "O " && "O "[1..] == " " && " "[1..] == "";
    assert Weigh(" ", k) == 0;
    assert Weigh("O ", k) == 0;
    assert Weigh("TO ", k) == 0;
  }

  lemma {:induction false} ClausePrintWeighs(c: Clause, k: Tally)
    ensures k != AllBytes ==> Weigh(PrintClause(c), k) == Weigh(c.field, k) + Weigh(Print(c.term), k)
  {
    if k != AllBytes {
      WeighConcat(Sign(c.occur) + FieldText(c.field), Print(c.term), k);
      WeighConcat(Sign(c.occur), FieldText(c.field), k);
      WeighConcat(c.field, ":", k);
      assert Weigh(":", k) == 0 && Weigh(Sign(c.occur), k) == 0;
    }
  }

  lemma {:induction false} ClausesPrintWeigh(cs: seq<Clause>, k: Tally)
    ensures |cs| > 1 && k != AllBytes ==>
      Weigh(PrintClauses(cs), k) == Weigh(PrintClause(cs[0]), k) + Weigh(PrintClauses(cs[1..]), k)
  {
    if |cs| > 1 && k != AllBytes {
      WeighConcat(PrintClause(cs[0]) + " ", PrintClauses(cs[1..]), k);
      WeighConcat(PrintClause(cs[0]), " ", k);
      assert Weigh(" ", k) == 0;
    }
  }

  /** Printing never loses a quote or backslash, and adds none only to plain leaves. */
  lemma {:induction false} PrintEscapes(n: Node)
    requires WfQuery(n)
    ensures Weigh(Print(n), Escapes) >= WeighNode(n, Escapes)
    ensures Weigh(Print(n), Escapes) == WeighNode(n, Escapes) ==> Requote(n) == n
    decreases n, 0
  {
    match n
    case Term(v, _, _) =>
      PrefixIsWildcard(v);
      EscapeWeighs(v);
      QuoteWeighs(v);
    case Phrase(v) =>
      EscapeFix(v);
      EscapeWeighs(v);
      QuoteWeighs(v);
    case Range(_, _, _, _) => RangePrintWeighs(n, Escapes);
    case Group(q) =>
      PrintEscapes(q);
      WeighConcat("(" + Print(q), ")", Escapes);
    case Single(c) =>
      TermIsQuery(c.term);
      PrintEscapes(c.term);
      ClausePrintWeighs(c, Escapes);
    case Boolean(cs) => PrintClausesEscapes(cs);
  }

  lemma {:induction false} PrintClausesEscapes(cs: seq<Clause>)
    requires WfClauses(cs)
    ensures Weigh(PrintClauses(cs), Escapes) >= WeighClauses(cs, Escapes)
    ensures Weigh(PrintClauses(cs), Escapes) == WeighClauses(cs, Escapes) ==> RequoteClauses(cs) == cs
    decreases cs, 0
  {
    if |cs| > 0 {
      hide PrintClause, Requote, IsField, Weigh, WeighNode;
      TermIsQuery(cs[0].term);
      PrintEscapes(cs[0].term);
      ClausePrintWeighs(cs[0], Escapes);
      PrintClausesEscapes(cs[1..]);
      assert RequoteClauses(cs)[1..] == RequoteClauses(cs[1..]) && cs == [cs[0]] + cs[1..];
      if |cs| > 1 {
        ClausesPrintWeigh(cs, Escapes);
      }
    }
  }

  /** With its quoting applied, a tree weighs as much as its text, spacing and signs apart. */
  lemma {:induction false} PrintWeighs(n: Node, k: Tally)
    requires WfQuery(n) && k != AllBytes
    ensures Weigh(Print(n), k) == WeighNode(Requote(n), k)
    decreases n, 0
  {
    match n
    case Group(q) =>
      PrintWeighs(q, k);
      GroupPrintWeighs(q, k);
    case Single(c) =>
      hide Weigh, PrintClause, IsField;
      TermIsQuery(c.term);
      PrintWeighs(c.term, k);
      ClausePrintWeighs(c, k);
    case Boolean(cs) => PrintClausesWeigh(cs, k);
    case _ => LeafPrintWeighs(n, k);
  }

  lemma {:induction false} GroupPrintWeighs(q: Node, k: Tally)
    requires k != AllBytes
    ensures Weigh(Print(Group(q)), k) == Weigh(Print(q), k)
    ensures WeighNode(Requote(Group(q)), k) == WeighNode(Requote(q), k)
  {
    WeighConcat("(" + Print(q), ")", k);
    WeighConcat("(", Print(q), k);
    assert Weigh("(", k) == 0 && Weigh(")", k) == 0;
  }

  lemma {:induction false} LeafPrintWeighs(n: Node, k: Tally)
    requires WfTerm(n) && IsLeaf(n) && k != AllBytes
    ensures Weigh(Print(n), k) == WeighNode(Requote(n), k)
  {
    hide Weigh, Quote, NeedsQuote;
    match n
    case Term(v, _, _) =>
      PrefixIsWildcard(v);
      QuotePrintWeighs(v, k);
    case Phrase(v) => QuotePrintWeighs(v, k);
    case Range(_, _, _, _) => RangePrintWeighs(n, k);
  }

  lemma {:induction false} QuotePrintWeighs(v: string, k: Tally)
    ensures Weigh(Quote(v), k) == WeighNode(Phrase(Escape(v)), k)
  {
    WeighConcat("\"" + Escape(v), "\"", k);
  }

  lemma {:induction false} PrintClausesWeigh(cs: seq<Clause>, k: Tally)
    requires WfClauses(cs) && k != AllBytes
    ensures Weigh(PrintClauses(cs), k) == WeighClauses(RequoteClauses(cs), k)
    decreases cs, 0
  {
    if |cs| > 0 {
      TermIsQuery(cs[0].term);
      PrintWeighs(cs[0].term, k);
      ClausePrintWeighs(cs[0], k);
      PrintClausesWeigh(cs[1..], k);
      assert RequoteClauses(cs)[1..] == RequoteClauses(cs[1..]);
      if |cs| > 1 {
        ClausesPrintWeigh(cs, k);
      }
    }
  }

  // ---------- no NUL in printed text ----------

  lemma {:induction false} NoNuls(v: string)
    requires forall i :: 0 <= i < |v| ==> v[i] != EOF
    ensures Weigh(v, Nuls) == 0
  {
    if v != "" {
      NoNuls(v[1..]);
    }
  }

  lemma {:induction false} WordNoNuls(v: string, escaped: bool)
    ensures WordLen(v, escaped) == |v| ==> Weigh(v, Nuls) == 0
  {
    if WordLen(v, escaped) == |v| > 0 {
      WordNoNuls(v[1..], !escaped && v[0] == '\\');
    }
  }

  lemma {:induction false} FieldNoNuls(v: string)
    ensures IsField(v) ==> Weigh(v, Nuls) == 0
  {
    if IsField(v) && v != "" {
      FieldNoNuls(v[1..]);
    }
  }

  lemma {:induction false} EscapeNoNuls(v: string)
    ensures Weigh(Escape(v), Nuls) == 0
  {
    if v != "" {
      var e := EscapeByte(v[0]);
      EscapeNoNuls(v[1..]);
      WeighConcat(e, Escape(v[1..]), Nuls);
      NoNuls(e);
    }
  }

  lemma {:induction false} LeafNoNuls(n: Node)
    requires WfTerm(n) && IsLeaf(n)
    ensures Weigh(Print(n), Nuls) == 0
  {
    match n
    case Range(low, high, _, _) =>
      RangePrintWeighs(n, Nuls);
      NoNuls(low);
      NoNuls(high);
    case Term(v, _, _) =>
      WordNoNuls(v, false);
      EscapeNoNuls(v);
      WeighConcat("\"" + Escape(v), "\"", Nuls);
    case Phrase(v) =>
      EscapeNoNuls(v);
      WeighConcat("\"" + Escape(v), "\"", Nuls);
  }

  /** Printed text carries no NUL, even where a phrase does. */
  lemma {:induction false} PrintNoNuls(n: Node)
    requires WfQuery(n)
    ensures Weigh(Print(n), Nuls) == 0
    decreases n, 0
  {
    match n
    case Group(q) =>
      PrintNoNuls(q);
      WeighConcat("(" + Print(q), ")", Nuls);
    case Single(c) => ClauseNoNuls(c);
    case Boolean(cs) => ClausesNoNuls(cs);
    case _ => LeafNoNuls(n);
  }

  lemma {:induction false} ClauseNoNuls(c: Clause)
    requires WfClause(c)
    ensures Weigh(PrintClause(c), Nuls) == 0
    decreases c, 0
  {
    ClausePrintWeighs(c, Nuls);
    FieldNoNuls(c.field);
    TermIsQuery(c.term);
    PrintNoNuls(c.term);
  }

  lemma {:induction false} ClausesNoNuls(cs: seq<Clause>)
    requires WfClauses(cs)
    ensures Weigh(PrintClauses(cs), Nuls) == 0
    decreases cs, 0
  {
    if cs != [] {
      ClauseNoNuls(cs[0]);
      if |cs| > 1 {
        ClausesNoNuls(cs[1..]);
        ClausesPrintWeigh(cs, Nuls);
      }
    }
  }
}
