/** Only trees whose neighbours keep apart come back from their text with their shape, and only
    canonical ones unchanged. The argument weighs text: a printed tree that comes back can have
    lost no letter to an operator, so its clauses kept apart; and if it comes back unchanged it
    has gained no quote or backslash, so its leaves are plain. */
module ExactRoundTrip {
  import opened Text
  import opened Ast
  import opened Grammar
  import opened Printer
  import opened NormalForm
  import opened Conservation
  import opened CanonicalForm
  import opened RoundTrip
  import opened PrintedWeight

  // ---------- what comes back unchanged kept apart ----------

  /** All operator letters of the text read from s to rest went into something of weight w. */
  predicate Lossless(s: string, rest: string, w: nat) {
    Weigh(s, OpLetters) == Weigh(rest, OpLetters) + w
  }

  /** A dangling backslash takes the next byte into the word. */
  lemma {:induction false} WordRunsOn(v: string, r: string, escaped: bool)
    requires WordLen(v, escaped) == |v| && EndsEscaped(v, escaped) && Peek(r) != EOF
    ensures WordLen(v + r, escaped) > |v|
  {
    if v == "" {
      assert v + r == r;
    } else {
      assert (v + r)[1..] == v[1..] + r;
      WordRunsOn(v[1..], r, !escaped && v[0] == '\\');
    }
  }

  lemma {:induction false} WordBack(v: string, r: string, last: bool)
    requires IsWord(v) && Follows(r, last) && TermAt(v + r).Ok? && TermAt(v + r).value == MakeTerm(v)
    ensures EndsEscaped(v) ==> last
    ensures TermAt(v + r).rest == r
  {
    assert TermAt(v + r) == WordAt(v + r);
    if EndsEscaped(v) && !last {
      WordRunsOn(v, r, false);
    } else {
      WordRead(v, r, last);
    }
  }

  lemma {:induction false} TermBack(n: Node, r: string, last: bool)
    requires WfTerm(n) && Follows(r, last)
    requires
      var p := TermAt(Print(n) + r);
      p.Ok? && p.value == Requote(n) && Lossless(Print(n) + r, p.rest, WeighNode(p.value, OpLetters))
    ensures JoinsTerm(n, last)
    ensures TermAt(Print(n) + r).rest == r
    decreases WeighNode(n, AllBytes), 0
  {
    match n
    case Term(v, _, _) =>
      PrefixIsWildcard(v);
      if PlainLeaf(n) {
        WordBack(v, r, last);
      } else {
        QuoteRead(v, r);
      }
    case Phrase(v) => QuoteRead(v, r);
    case Range(_, _, _, _) => RangeRead(n, r);
    case Group(q) => GroupBack(q, r);
  }

  lemma {:induction false} GroupBack(q: Node, r: string)
    requires WfQuery(q)
    requires
      var s := Print(Group(q)) + r;
      var p := TermAt(s);
      p.Ok? && p.value == Group(Requote(q)) && Lossless(s, p.rest, WeighNode(p.value, OpLetters))
    ensures JoinsQuery(q, false) && TermAt(Print(Group(q)) + r).rest == r
    decreases WeighNode(q, AllBytes), 4
  {
    hide WfQuery, JoinsQuery, Requote, Weigh;
    var s := Print(q) + (")" + r);
    assert Print(Group(q)) + r == "(" + s;
    GroupOpens(s);
    hide TermAt, QueryAt, Print;
    var p := QueryAt(s);
    QueryWeighs(s, OpLetters);
    WeighSkip(p.rest, OpLetters);
    GroupWeight(s, SkipSpace(p.rest));
    QueryBack(q, ")" + r, false);
    assert (")" + r)[1..] == r;
  }

  lemma {:induction false} GroupOpens(s: string)
    requires TermAt("(" + s).Ok?
    ensures
      var p := QueryAt(s);
      p.Ok? && Peek(SkipSpace(p.rest)) == ')' &&
      TermAt("(" + s) == Ok(Group(p.value), SkipSpace(p.rest)[1..])
  {
    hide QueryAt;
    assert ("(" + s)[1..] == s;
  }

  /** Parentheses are no letters of an operator. */
  lemma {:induction false} GroupWeight(s: string, t: string)
    ensures Weigh("(" + s, OpLetters) == Weigh(s, OpLetters)
    ensures Peek(t) == ')' ==> Weigh(t[1..], OpLetters) == Weigh(t, OpLetters)
  {
    assert ("(" + s)[1..] == s;
  }

  lemma {:induction false} ClauseBack(c: Clause, r: string, last: bool)
    requires WfClause(c) && Follows(r, last)
    requires ClauseCameBack(c, PrintClause(c) + r)
    ensures JoinsClause(c, last) && ClauseAt(PrintClause(c) + r).rest == r
    ensures !(IsNotWord(c) && Peek(r) == ' ')
    decreases WeighClause(c, AllBytes), 1
  {
    var s := PrintClause(c) + r;
    ClauseBegins(c);
    assert SkipSpace(s) == s;
    PrefixWeighs(s, OpLetters);
    FieldWeighs(PrefixAt(s).1, OpLetters);
    TermWeighs(Field(PrefixAt(s).1).1, OpLetters);
    PrefixBack(c, r);
    FieldBack(c, r);
    FieldRead(c, r, last);
    TermBack(c.term, r, last);
  }

  /** When no NOT is read, the sign is read and nothing else. */
  lemma {:induction false} PrefixBack(c: Clause, r: string)
    requires WfClause(c)
    requires
      var s := PrintClause(c) + r;
      Peek(s) == '+' || Peek(s) == '-' || PrefixAt(s).0 == Should
    ensures PrefixAt(PrintClause(c) + r) == (c.occur, FieldText(c.field) + Print(c.term) + r)
    ensures !(IsNotWord(c) && Peek(r) == ' ')
  {
    var s := PrintClause(c) + r;
    var body := FieldText(c.field) + Print(c.term) + r;
    ClauseBegins(c);
    if c.occur == Should {
      TermBegins(c.term);
      assert s == body;
      if IsNotWord(c) && Peek(r) == ' ' {
        NotWordNegates(c, r);
      }
    } else {
      assert s[1..] == body;
    }
  }

  lemma {:induction false} NotWordNegates(c: Clause, r: string)
    requires WfClause(c) && IsNotWord(c) && Peek(r) == ' '
    ensures HasPrefixFold(PrintClause(c) + r, "NOT ")
  {
    var v := c.term.value;
    assert forall i | 0 <= i < 3 :: ToUpper(v[i]) == "NOT"[i];
    PrefixIsWildcard(v);
    assert PrintClause(c) + r == v + r;
  }

  lemma {:induction false} FieldBack(c: Clause, r: string)
    requires WfClause(c)
    requires Field(FieldText(c.field) + Print(c.term) + r).0 == c.field
    ensures !HidesField(c)
  {
    if HidesField(c) {
      var v := c.term.value;
      PrefixIsWildcard(v);
      TermBegins(c.term);
      assert v[0] != ':';
      assert FieldText(c.field) + Print(c.term) + r == v + r;
      FieldThen(v, r);
    }
  }

  predicate ClauseCameBack(c: Clause, s: string) {
    var p := ClauseAt(s);
    p.Ok? && p.value.field == c.field && p.value.term == Requote(c.term) &&
    Lossless(s, p.rest, WeighClause(p.value, OpLetters))
  }

  /** The clauses came back from their text, and no letter was lost. */
  predicate CameBackFrom(cs: seq<Clause>, s: string) {
    var p := ItemsAt(s, false);
    p.Ok? && SameTerms(p.value, RequoteClauses(cs)) && Lossless(s, p.rest, WeighItems(p.value, OpLetters))
  }

  lemma {:induction false} ItemsBack(cs: seq<Clause>, r: string, last: bool)
    requires WfClauses(cs) && Follows(r, last) && AtEnd(r)
    requires CameBackFrom(cs, PrintClauses(cs) + r)
    ensures JoinsClauses(cs, last)
    ensures ItemsAt(PrintClauses(cs) + r, false).rest == r
    decreases WeighClauses(cs, AllBytes), 2, |cs|
  {
    if |cs| == 0 {
      assert PrintClauses(cs) + r == r;
    } else if |cs| == 1 {
      LastBack(cs, r, last);
    } else {
      NextBack(cs, r);
      ItemsBack(cs[1..], r, last);
    }
  }

  lemma {:induction false} LastBack(cs: seq<Clause>, r: string, last: bool)
    requires |cs| == 1 && WfClauses(cs) && Follows(r, last) && AtEnd(r)
    requires CameBackFrom(cs, PrintClauses(cs) + r)
    ensures JoinsClauses(cs, last)
    ensures ItemsAt(PrintClauses(cs) + r, false).rest == r
    decreases WeighClauses(cs, AllBytes), 2, 0
  {
    ClauseBegins(cs[0]);
    assert cs[1..] == [];
    var s2 := FirstItem(cs, PrintClauses(cs) + r);
    ClauseBack(cs[0], r, last);
  }

  lemma {:induction false} NextBack(cs: seq<Clause>, r: string)
    requires |cs| > 1 && WfClauses(cs)
    requires CameBackFrom(cs, PrintClauses(cs) + r)
    ensures JoinsClause(cs[0], false) && !IsNotWord(cs[0]) && !StartsWithOperator(cs[1])
    ensures CameBackFrom(cs[1..], PrintClauses(cs[1..]) + r)
    ensures ItemsAt(PrintClauses(cs) + r, false).rest == ItemsAt(PrintClauses(cs[1..]) + r, false).rest
    decreases WeighClauses(cs, AllBytes), 2, 0
  {
    hide ItemsAt, ClauseAt, Operator, PrintClause, WfClause, JoinsClause, WeighClause;
    var tail := PrintClauses(cs[1..]) + r;
    var s := PrintClause(cs[0]) + (" " + tail);
    assert PrintClauses(cs) + r == s;
    ClauseBegins(cs[0]);
    var s2 := FirstItem(cs, s);
    ClauseBack(cs[0], " " + tail, false);
    assert (" " + tail)[1..] == tail;
    ClausesBegin(cs[1..]);
    assert SkipSpace(" " + tail) == tail;
    OperatorBack(cs[1..], r);
  }

  /** No letter lost: the first clause lost none, no operator was read after it, and the
      other clauses lost none. */
  lemma {:induction false} FirstItem(cs: seq<Clause>, s: string) returns (s2: string)
    requires cs != [] && CameBackFrom(cs, s)
    requires s != "" && !IsBlank(s[0]) && !AtEnd(s)
    ensures ClauseCameBack(cs[0], s) && s2 == SkipSpace(ClauseAt(s).rest)
    ensures |cs| == 1 ==> AtEnd(s2) && ItemsAt(s, false).rest == s2
    ensures |cs| > 1 ==>
              Operator(s2) == (false, s2) && CameBackFrom(cs[1..], s2) &&
              ItemsAt(s2, false).rest == ItemsAt(s, false).rest
  {
    hide ClauseAt, Operator, Weigh, WeighNode, Requote;
    assert RequoteClauses(cs)[0] == RequoteClause(cs[0]);
    assert RequoteClauses(cs)[1..] == RequoteClauses(cs[1..]);
    var s1 := ClauseAt(s).rest;
    s2 := SkipSpace(s1);
    ClauseWeighs(s, OpLetters);
    WeighSkip(s1, OpLetters);
    var items := ItemsAt(s, false).value;
    assert items[0] == Item(false, ClauseAt(s).value);
    assert WeighItems(items, OpLetters) ==
           WeighClause(items[0].clause, OpLetters) + WeighItems(items[1..], OpLetters);
    if AtEnd(s2) {
      assert items == [Item(false, ClauseAt(s).value)];
      assert items[1..] == [];
    } else {
      var (and, s3) := Operator(s2);
      OperatorWeighs(s2, OpLetters);
      ItemsWeigh(s3, and, OpLetters);
      assert items[1..] == ItemsAt(s3, and).value;
      assert (and, s3) == (false, s2);
      assert SkipSpace(s2) == s2;
    }
  }

  lemma {:induction false} OperatorBack(cs: seq<Clause>, r: string)
    requires cs != [] && WfClauses(cs)
    requires Operator(PrintClauses(cs) + r) == (false, PrintClauses(cs) + r)
    ensures !StartsWithOperator(cs[0])
  {
    var a := PrintClause(cs[0]);
    var s := PrintClauses(cs) + r;
    assert a <= s;
    assert forall i | 0 <= i < |a| :: a[i] == s[i];
  }

  /** The items carry the fields and terms of the clauses. */
  predicate SameTerms(items: seq<Item>, cs: seq<Clause>) {
    |items| == |cs| &&
    forall i :: 0 <= i < |cs| ==>
      items[i].clause.field == cs[i].field && items[i].clause.term == cs[i].term
  }

  lemma {:induction false} QueryBack(q: Node, r: string, last: bool)
    requires WfQuery(q) && Follows(r, last) && AtEnd(r)
    requires
      var p := QueryAt(Print(q) + r);
      p.Ok? && p.value == Requote(q) && Lossless(Print(q) + r, p.rest, WeighNode(p.value, OpLetters))
    ensures JoinsQuery(q, last) && QueryAt(Print(q) + r).rest == r
    decreases WeighNode(q, AllBytes), 3
  {
    var cs := Clauses(q);
    PrintAsClauses(q);
    ClausesForm(q);
    ClausesWeigh(q, AllBytes);
    ClausesWeigh(Requote(q), OpLetters);
    var s := PrintClauses(cs) + r;
    var items := ItemsAt(s, false).value;
    ItemsForm(s, false);
    CollapsedTerms(items, Requote(q));
    RequoteAsClauses(q);
    ResolveWeighs(items, RequoteClauses(cs), OpLetters);
    ItemsBack(cs, r, last);
  }

  lemma {:induction false} CollapsedTerms(items: seq<Item>, q: Node)
    requires WfItems(items) && q == Collapse(Resolve(items))
    ensures SameTerms(items, Clauses(q))
  {
    if |items| == 1 {
      var c := Resolve(items)[0];
      TermIsQuery(items[0].clause.term);
      assert c.field == items[0].clause.field && c.term == items[0].clause.term;
      assert Clauses(q) == [c] || Clauses(q) == [Clause(Should, "", c.term)];
    }
  }

  lemma {:induction false} RequoteAsClauses(q: Node)
    ensures WfQuery(q) ==> Clauses(Requote(q)) == RequoteClauses(Clauses(q))
  {
  }

  /** A tree that comes back from its printed text, its quoting applied, kept apart. */
  lemma {:induction false} CameBack(n: Node)
    requires WfQuery(n) && Parse(Print(n)) == Done(Requote(n))
    ensures JoinsQuery(n, true)
  {
    var s := Print(n);
    PrintAsClauses(n);
    ClausesForm(n);
    if Clauses(n) != [] {
      ClausesBegin(Clauses(n));
      var rest := QueryAt(s).rest;
      PrintNoNuls(n);
      AllRead(s);
      PrintWeighs(n, OpLetters);
      WeighSkip(rest, OpLetters);
      assert s + "" == s;
      QueryBack(n, "", true);
    }
  }

  /** For every tree the parser can return: its printed text reads back with the same clauses,
      signs, fields and groups, only its quoting changed, if and only if its neighbours keep
      apart. */
  lemma {:induction false} ShapeExactly(n: Node)
    requires WfQuery(n)
    ensures Parse(Print(n)) == Done(Requote(n)) <==> JoinsQuery(n, true)
  {
    if JoinsQuery(n, true) {
      ReadPrinted(n);
    }
    if Parse(Print(n)) == Done(Requote(n)) {
      CameBack(n);
    }
  }

  /** A tree that comes back unchanged has nothing to quote: quotes and backslashes are all kept. */
  lemma {:induction false} UnchangedIsPlain(n: Node)
    ensures WfQuery(n) && Parse(Print(n)) == Done(n) ==> Requote(n) == n
  {
    if WfQuery(n) && Parse(Print(n)) == Done(n) {
      PrintNoNuls(n);
      ParseKeepsEscapes(Print(n));
      PrintEscapes(n);
    }
  }

  /** For every tree the parser can return: its printed text reads back as the same tree if
      and only if the tree is canonical. */
  lemma {:induction false} RoundTripExactly(n: Node)
    requires WfQuery(n)
    ensures Parse(Print(n)) == Done(n) <==> Canonical(n)
  {
    RequoteFix(n);
    ShapeExactly(n);
    if Parse(Print(n)) == Done(n) {
      UnchangedIsPlain(n);
    }
  }
}
