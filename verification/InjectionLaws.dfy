/** The date window the gate injects: what its text means, whatever the query beside it holds. */
module InjectionLaws {
  import opened Text
  import opened Ast
  import opened Grammar
  import opened Printer
  import opened NormalForm
  import opened Conservation
  import opened CanonicalForm
  import opened RoundTrip
  import opened PrintedWeight
  import opened ExactRoundTrip
  import opened Brackets
  import opened Embedding
  import opened Samples
  import opened DateMath
  import opened Rules
  import opened WindowSearch
  import opened Documents
  import opened Gate

  // ---------- plan windows ----------

  /** The plan's window can be read as a duration, and after now- too. */
  predicate GoodWindow(cfg: Config, plan: string) {
    ParseDurationHuman(PlanWindow(cfg, plan)).Some? && AmountFirst(PlanWindow(cfg, plan))
  }

  function PlanLength(cfg: Config, plan: string): int
    requires ParseDurationHuman(PlanWindow(cfg, plan)).Some?
  {
    ParseDurationHuman(PlanWindow(cfg, plan)).value
  }

  /** The window injected for a plan is as long as the rule allows that plan. */
  lemma {:induction false} PlanWindowsAgree(cfg: Config, plan: string)
    requires ParseDurationHuman(PlanWindow(cfg, plan)).Some?
    ensures PlanLength(cfg, plan) == WindowLimit(cfg, plan)
  {
    ThirtyDays();
  }

  lemma {:induction false} ThirtyDays()
    ensures ParseDurationHuman("30d") == Some(DEFAULT_WINDOW) && ParseDurationHuman("") == None
  {
    var s := "30d";
    assert NoSpace(s);
    TrimNothing(s);
    hide TrimSpace, NoSpace;
    assert s[1..] == "0d" && "0d"[1..] == "d" && s[2..] == "d" && s[..2] == "30";
    assert DigitsLen("d") == 0 && DigitsLen("0d") == 1 && DigitsLen(s) == 2;
    assert AmountLen(s) == 2;
    DecimalThirty();
  }

  // ---------- the injected text ----------

  /** The date field and the relative bound can be written in a query. */
  predicate Writable(cfg: Config, plan: string) {
    IsField(InjectedField(cfg)) && IsBound("now-" + PlanWindow(cfg, plan))
  }

  lemma {:induction false} InjectedForm(n: Node, cfg: Config, plan: string)
    requires WfQuery(n) && Writable(cfg, plan)
    ensures WfQuery(Injected(n, cfg, plan))
  {
    var cs := Injected(n, cfg, plan).clauses;
    assert WfClause(cs[0]) && WfClause(cs[1]);
  }

  /** The bound of a readable window can be written down exactly when the window has no white
      space. */
  lemma {:induction false} WindowIsBound(cfg: Config, plan: string)
    requires ParseDurationHuman(PlanWindow(cfg, plan)).Some?
    ensures IsBound("now-" + PlanWindow(cfg, plan)) <==> NoSpace(PlanWindow(cfg, plan))
  {
    var w := PlanWindow(cfg, plan);
    assert MatchSpan(TrimSpace(w)).Some?;
    hide ParseDurationHuman, PlanWindow;
    var b := "now-" + w;
    assert forall i :: 0 <= i < |b| ==> b[i] == (if i < 4 then "now-"[i] else w[i - 4]);
    if NoSpace(w) {
      TrimNothing(w);
      SpanIsBound(w);
    }
    if IsBound(b) {
      forall i | 0 <= i < |w|
        ensures !IsSpace(w[i])
      {
        assert b[i + 4] == w[i] && InBound(b[i + 4]);
      }
    }
  }

  lemma {:induction false} SpanIsBound(s: string)
    requires MatchSpan(s).Some? && NoSpace(s)
    ensures forall i :: 0 <= i < |s| ==> InBound(s[i])
  {
    var k := AmountLen(s);
    TrimNothing(s[k..]);
    assert |s[k..]| == 1;
    forall i | 0 <= i < |s|
      ensures InBound(s[i])
    {
      assert i == k ==> s[i] == s[k..][0];
    }
  }

  lemma {:induction false} InjectedJoins(n: Node, cfg: Config, plan: string)
    ensures JoinsQuery(Injected(n, cfg, plan), true) <==> JoinsQuery(n, false)
  {
    var q := Injected(n, cfg, plan);
    var cs := q.clauses;
    assert cs[1..] == [cs[1]] && cs[1..][1..] == [];
    assert JoinsClauses(cs[1..], true);
    assert JoinsTerm(cs[0].term, false) == JoinsQuery(n, false);
    assert JoinsClause(cs[0], false) == JoinsTerm(cs[0].term, false);
    assert PrintClause(cs[1])[0] == '+';
    assert JoinsQuery(q, true) == JoinsClauses(cs, true);
  }

  lemma {:induction false} InjectedCanonical(n: Node, cfg: Config, plan: string)
    ensures Canonical(Injected(n, cfg, plan)) <==> PlainNode(n) && JoinsQuery(n, false)
  {
    var q := Injected(n, cfg, plan);
    var cs := q.clauses;
    assert cs[1..] == [cs[1]] && cs[1..][1..] == [];
    assert PlainNode(cs[1..][0].term) && PlainClauses(cs[1..][1..]);
    assert PlainClauses(cs[1..]);
    assert PlainNode(cs[0].term) == PlainNode(n);
    assert PlainNode(q) == (PlainNode(cs[0].term) && PlainClauses(cs[1..]));
    InjectedJoins(n, cfg, plan);
  }

  /** The injected text reads back as exactly the query and the window, both required, if and
      only if the date field and the window can be written down and the query survives printing
      inside parentheses. */
  lemma {:induction false} InjectedTextReadsBack(n: Node, cfg: Config, plan: string)
    requires WfQuery(n)
    ensures Parse(Print(Injected(n, cfg, plan))) == Done(Injected(n, cfg, plan)) <==>
            Writable(cfg, plan) && PlainNode(n) && JoinsQuery(n, false)
  {
    var q := Injected(n, cfg, plan);
    if Parse(Print(q)) == Done(q) {
      ParseForm(Print(q));
      assert WfClause(q.clauses[1]) && q.clauses[1] == DateClause(cfg, plan);
      assert WfTerm(DateClause(cfg, plan).term);
    }
    if Writable(cfg, plan) {
      InjectedForm(n, cfg, plan);
      RoundTripExactly(q);
      InjectedCanonical(n, cfg, plan);
    }
  }

  /** The injected text reads as the judged query, its quoting applied, in a group beside the
      window, both required, if and only if the query's neighbours keep apart. */
  lemma {:induction false} InjectedShape(n: Node, cfg: Config, plan: string)
    requires WfQuery(n) && Writable(cfg, plan)
    ensures Parse(Print(Injected(n, cfg, plan))) == Done(Injected(Requote(n), cfg, plan)) <==>
            JoinsQuery(n, false)
  {
    var q := Injected(n, cfg, plan);
    InjectedForm(n, cfg, plan);
    InjectedJoins(n, cfg, plan);
    ShapeExactly(q);
    RequoteInjected(n, cfg, plan);
  }

  lemma {:induction false} RequoteInjected(n: Node, cfg: Config, plan: string)
    ensures Requote(Injected(n, cfg, plan)) == Injected(Requote(n), cfg, plan)
  {
    hide PlanWindow;
    var a, b := Clause(Must, "", Group(n)), DateClause(cfg, plan);
    var cs := [a, b];
    assert cs[1..] == [b] && cs[1..][1..] == [];
    assert RequoteClause(a) == Clause(Must, "", Group(Requote(n))) && RequoteClause(b) == b;
    assert RequoteClauses(cs[1..]) == [b];
    assert RequoteClauses(cs) == [RequoteClause(a)] + RequoteClauses(cs[1..]);
  }

  // ---------- any query stays inside its group ----------

  /** No backslash of the query's text protects a closing parenthesis or the end of the text. */
  predicate KeepsParens(n: Node) {
    !Dangles(n) && Lost(n) == 0
  }

  /** The text behind the query. */
  function Behind(cfg: Config, plan: string): string {
    ") " + PrintClause(DateClause(cfg, plan))
  }

  lemma RequiredGroupText(n: Node)
    ensures PrintClause(Clause(Must, "", Group(n))) == "+" + ("(" + Print(n) + ")")
  {
  }

  lemma {:induction false} InjectedText(n: Node, cfg: Config, plan: string)
    ensures Print(Injected(n, cfg, plan)) == "+(" + Print(n) + Behind(cfg, plan)
  {
    hide PlanWindow, InjectedField, Print, PrintClause;
    var a, b := Clause(Must, "", Group(n)), DateClause(cfg, plan);
    RequiredGroupText(n);
    PairText(a, b);
    Regroup(Print(n), PrintClause(b));
  }

  lemma Regroup(p: string, t: string)
    ensures ("+" + ("(" + p + ")")) + " " + t == "+(" + p + (") " + t)
  {
  }

  lemma {:induction false} DateClauseRead(cfg: Config, plan: string)
    requires Writable(cfg, plan)
    ensures
      var t := PrintClause(DateClause(cfg, plan));
      ItemsAt(t, false) == Ok([Item(false, DateClause(cfg, plan))], "") &&
      SkipSpace(t) == t && !AtEnd(t) && Operator(t) == (false, t)
  {
    hide PlanWindow, InjectedField;
    RequiredRangeRead(DateClause(cfg, plan));
  }

  lemma {:induction false} RequiredRangeRead(c: Clause)
    requires WfClause(c) && c.occur == Must && c.term.Range?
    ensures
      var t := PrintClause(c);
      ItemsAt(t, false) == Ok([Item(false, c)], "") &&
      SkipSpace(t) == t && !AtEnd(t) && Operator(t) == (false, t)
  {
    var t := PrintClause(c);
    assert t + "" == t;
    assert RequoteClause(c) == c;
    assert t[0] == '+' && JoinsTerm(c.term, true) && !HidesField(c);
    hide PrintClause, ClauseAt, RequoteClause, WfClause;
    ClauseRead(c, "", true);
  }

  /** Behind the query only one parenthesis closes. */
  lemma {:induction false} BehindCloses(cfg: Config, plan: string, d: nat)
    requires Writable(cfg, plan)
    ensures
      var r := Behind(cfg, plan);
      Peek(r) == ')' && Close(r, 0) == r && Close(r, d + 1) == "" && Close(r[1..], d) == ""
  {
    hide PrintClause, DateClause, PassOver, ItemsAt, SkipSpace, Operator, AtEnd, Writable, Prepend;
    var t := PrintClause(DateClause(cfg, plan));
    DateClauseRead(cfg, plan);
    ReadCloses(t, d);
    BlankCloses(t, d);
    ParenthesisCloses(" " + t, d);
    assert Behind(cfg, plan) == ")" + (" " + t);
  }

  /** Nothing closes a parenthesis in a text read to its end. */
  lemma {:induction false} ReadCloses(t: string, d: nat)
    requires ItemsAt(t, false).Ok? && ItemsAt(t, false).rest == ""
    ensures Close(t, d) == ""
  {
    ItemsClose(t, false, d);
    assert PassOver("", d).close == "";
    hide ItemsAt, PassOver, ItemClauses, RangesOfAll;
  }

  lemma CloseHere(r: string)
    ensures Peek(r) == ')' ==> Close(r, 0) == r
  {
  }

  lemma ParenthesisCloses(t: string, d: nat)
    ensures Close(")" + t, 0) == ")" + t && Close(")" + t, d + 1) == Close(t, d)
  {
    assert (")" + t)[1..] == t;
    CloserCloses(t, d);
  }

  /** Where the parenthesis in front of the query closes. */
  lemma {:induction false} QueryParenthesis(n: Node, cfg: Config, plan: string)
    requires WfQuery(n) && Writable(cfg, plan)
    ensures Close(Print(n) + Behind(cfg, plan), 0) == if KeepsParens(n) then Behind(cfg, plan) else ""
  {
    hide PassOver, RangesOf, Print, Behind;
    BehindCloses(cfg, plan, Lost(n));
    PrintedCloses(n, Behind(cfg, plan), 0);
    if Lost(n) > 0 {
      BehindCloses(cfg, plan, Lost(n) - 1);
    }
  }

  /** A query in a group, as the first of two required clauses. */
  lemma {:induction false} GroupThenDate(body: string, cfg: Config, plan: string)
    requires Writable(cfg, plan)
    requires QueryAt(body).Ok? && SkipSpace(QueryAt(body).rest) == Behind(cfg, plan)
    ensures Parse("+(" + body) == Done(Injected(QueryAt(body).value, cfg, plan))
  {
    var s, m, t := "+(" + body, QueryAt(body).value, PrintClause(DateClause(cfg, plan));
    var a, b := Clause(Must, "", Group(m)), DateClause(cfg, plan);
    RequiredGroupRead(body, m, " " + t);
    assert Behind(cfg, plan) == ")" + (" " + t);
    DateClauseRead(cfg, plan);
    hide ClauseAt, QueryAt, PrintClause, Operator;
    assert s[0] == '+' && SkipSpace(s) == s;
    ItemStep(s, a, t);
    TwoItems(a, b);
    QueryOf(s, [Item(false, a), Item(false, b)]);
  }

  lemma {:induction false} RequiredGroupRead(body: string, m: Node, after: string)
    requires QueryAt(body).Ok? && QueryAt(body).value == m
    requires SkipSpace(QueryAt(body).rest) == ")" + after
    ensures ClauseAt("+(" + body) == Ok(Clause(Must, "", Group(m)), after)
  {
    hide QueryAt;
    var s := "+(" + body;
    assert s[1..] == "(" + body && s[1..][1..] == body;
    assert (")" + after)[1..] == after;
    assert Field(s[1..]) == ("", s[1..]);
    assert TermAt(s[1..]) == Ok(Group(m), after);
  }

  lemma {:induction false} TwoItems(a: Clause, b: Clause)
    ensures Collapse(Resolve([Item(false, a), Item(false, b)])) == Boolean([a, b])
    ensures [Item(false, a)] + [Item(false, b)] == [Item(false, a), Item(false, b)]
  {
    assert Resolve([Item(false, a), Item(false, b)]) == [a, b];
  }

  lemma {:induction false} QueryOf(s: string, items: seq<Item>)
    ensures ItemsAt(s, false) == Ok(items, "") && SkipSpace(s) == s && Peek(s) != EOF ==>
      Parse(s) == Done(Collapse(Resolve(items)))
  {
    hide ItemsAt, Collapse, Resolve;
  }

  /** What a text that begins with a group reads as, its group reads first. */
  lemma {:induction false} GroupReadFirst(body: string)
    requires Parse("+(" + body).Done?
    ensures QueryAt(body).Ok? && Peek(SkipSpace(QueryAt(body).rest)) == ')'
  {
    hide QueryAt;
    var s := "+(" + body;
    assert SkipSpace(s) == s && s[1..] == "(" + body && s[1..][1..] == body;
    assert Field(s[1..]) == ("", s[1..]);
    assert ClauseAt(s).Ok? by {
      FirstClauseRead(s);
    }
    assert TermAt(s[1..]).Ok?;
  }

  lemma {:induction false} FirstClauseRead(s: string)
    ensures Parse(s).Done? && SkipSpace(s) == s && !AtEnd(s) ==> ClauseAt(s).Ok?
  {
    if Parse(s).Done? && SkipSpace(s) == s && !AtEnd(s) {
      hide ClauseAt;
      assert QueryAt(s).Ok?;
      assert ItemsAt(s, false).Ok?;
    }
  }

  /** The query by itself, read from its own text. */
  lemma {:induction false} QueryAlone(n: Node)
    requires WfQuery(n)
    ensures Parse(Print(n)).Done? <==>
            QueryAt(Print(n)).Ok? && SkipSpace(QueryAt(Print(n)).rest) == ""
    ensures Parse(Print(n)).Done? ==> Parse(Print(n)).value == QueryAt(Print(n)).value
  {
    var s := Print(n);
    hide QueryAt, Print, Weigh;
    PrintNoNuls(n);
    if Clauses(n) != [] {
      QueryStarts(n);
      if QueryAt(s).Ok? && Peek(SkipSpace(QueryAt(s).rest)) == EOF {
        AllRead(s);
      }
    } else {
      NothingPrinted(n);
    }
  }

  lemma {:induction false} QueryStarts(n: Node)
    requires WfQuery(n) && Clauses(n) != []
    ensures SkipSpace(Print(n)) == Print(n) && Peek(Print(n)) != EOF
  {
    hide PrintClause, Print;
    PrintAsClauses(n);
    ClausesForm(n);
    ClausesBegin(Clauses(n));
  }

  lemma {:induction false} NothingPrinted(n: Node)
    ensures Clauses(n) == [] ==> Print(n) == "" && QueryAt("") == Ok(Boolean([]), "")
  {
    if Clauses(n) == [] {
      assert ItemsAt("", false) == Ok([], "");
      assert Resolve([]) == [];
    }
  }

  /** Whatever punctuation and operators a query holds, the injected text reads as the group of
      what the query's own text reads as, and the window, both required; and it can be read at
      all exactly when the query's own text can and no backslash of it takes a parenthesis. */
  lemma {:induction false} QueryStaysInside(n: Node, cfg: Config, plan: string)
    requires WfQuery(n) && Writable(cfg, plan)
    ensures
      var o := Parse(Print(Injected(n, cfg, plan)));
      (o.Done? <==> Parse(Print(n)).Done? && KeepsParens(n)) &&
      (o.Done? ==> o == Done(Injected(Parse(Print(n)).value, cfg, plan)))
  {
    hide PassOver, Print, QueryAt, Parse, Behind, KeepsParens, Injected, Writable;
    var a, r := Print(n), Behind(cfg, plan);
    InjectedText(n, cfg, plan);
    assert "+(" + a + r == "+(" + (a + r);
    QueryParenthesis(n, cfg, plan);
    BehindCloses(cfg, plan, 0);
    QueryAlone(n);
    if Parse("+(" + (a + r)).Done? {
      GroupReadFirst(a + r);
      StopsAtClose(a, r);
    }
    if Parse(a).Done? && KeepsParens(n) {
      QueryOutside(a, r, 0);
      SkipInside(QueryAt(a).rest, r);
      assert "" + r == r;
      GroupThenDate(a + r, cfg, plan);
    }
  }

  /** A query read up to a parenthesis, with r left where it closes, is the query alone. */
  lemma {:induction false} StopsAtClose(a: string, r: string)
    requires QueryAt(a + r).Ok? && Peek(SkipSpace(QueryAt(a + r).rest)) == ')'
    requires Peek(r) == ')' && (Close(a + r, 0) == r || Close(a + r, 0) == "")
    ensures Close(a + r, 0) == r
    ensures QueryAt(a).Ok? && SkipSpace(QueryAt(a).rest) == ""
  {
    hide PassOver, RangesOf, QueryAt;
    var rest := QueryAt(a + r).rest;
    QueryCloses(a + r, 0);
    CloseSkip(rest, 0);
    CloseHere(SkipSpace(rest));
    QueryInside(a, r);
    SkipInside(QueryAt(a).rest, r);
    SameLeft(SkipSpace(QueryAt(a).rest), "", r);
  }

  /** A query that ends in a lone backslash survives printing on its own, but inside the injected
      group its backslash takes the closing parenthesis. */
  lemma {:induction false} DanglingBackslash(cfg: Config, plan: string)
    ensures
      var n := MakeTerm("*\\");
      WfQuery(n) && Parse(Print(n)) == Done(n) &&
      Parse(Print(Injected(n, cfg, plan))) != Done(Injected(n, cfg, plan))
  {
    var v := "*\\";
    var n := MakeTerm(v);
    assert v[1..] == "\\" && "\\"[1..] == "";
    assert WordLen("", true) == 0 && WordLen("\\", false) == 1 && WordLen(v, false) == 2;
    assert IsWildcard(v[0]);
    assert EndsEscaped("", true) && EndsEscaped("\\", false) && EndsEscaped(v);
    assert FieldLen("") == 0 && FieldLen("\\") == 1 && FieldLen(v) == 2;
    var c := Clause(Should, "", n);
    assert [c][1..] == [];
    assert JoinsClause(c, true) && !JoinsClause(c, false);
    RoundTripExactly(n);
    InjectedTextReadsBack(n, cfg, plan);
  }

  /** A window with a space inside is a duration to the rule, but the text injected for it does
      not read back. */
  lemma {:induction false} SpacedWindow(n: Node, cfg: Config, plan: string)
    requires WfQuery(n) && PlanWindow(cfg, plan) == "30 d"
    ensures ParseDurationHuman(PlanWindow(cfg, plan)) == Some(DEFAULT_WINDOW)
    ensures Parse(Print(Injected(n, cfg, plan))) != Done(Injected(n, cfg, plan))
  {
    SpacedThirtyDays();
    InjectedTextReadsBack(n, cfg, plan);
    assert !InBound(("now-" + "30 d")[6]);
  }

  lemma {:induction false} SpacedThirtyDays()
    ensures ParseDurationHuman("30 d") == Some(DEFAULT_WINDOW)
  {
    var s := "30 d";
    assert TrimLeft(s) == s && TrimRight(s) == s;
    assert s[1..] == "0 d" && "0 d"[1..] == " d" && s[2..] == " d" && s[..2] == "30" && " d"[1..] == "d";
    assert DigitsLen(" d") == 0 && DigitsLen("0 d") == 1 && DigitsLen(s) == 2;
    assert SkipPatternSpace("d") == "d" && SkipPatternSpace(" d") == "d";
    assert AmountLen(s) == 2;
    DecimalThirty();
  }

  lemma {:induction false} DecimalThirty()
    ensures Decimal("30") == 30
  {
    assert "30"[..1] == "3" && "3"[..0] == "";
    assert Decimal("3") == 3;
  }

  lemma {:induction false} BothRequired(a: Clause, b: Clause, d: Doc, s: Setting)
    requires a.occur == Must && b.occur == Must
    ensures Matches(Boolean([a, b]), "", d, s) <==> TermMatches(a, "", d, s) && TermMatches(b, "", d, s)
  {
    hide TermMatches;
    var cs := [a, b];
    assert cs[0] == a && cs[1] == b;
  }

  lemma {:induction false} DateClauseMatches(cfg: Config, plan: string, d: Doc, now: int, layouts: Layouts)
    requires GoodWindow(cfg, plan) && InjectedField(cfg) in cfg.dateFields
    requires now != 0 && now - PlanLength(cfg, plan) != 0
    ensures
      var (s, f) := (Setting(cfg.dateFields, now, layouts), InjectedField(cfg));
      TermMatches(DateClause(cfg, plan), "", d, s) <==>
      f in d.times && now - PlanLength(cfg, plan) <= d.times[f] <= now
  {
    RelativeWindow(PlanWindow(cfg, plan), now, layouts);
    hide ParseWindow, ParseDurationHuman, PlanWindow;
    var r := DateClause(cfg, plan).term;
    assert TermMatches(DateClause(cfg, plan), "", d, Setting(cfg.dateFields, now, layouts)) ==
           LeafMatches(r, InjectedField(cfg), d, Setting(cfg.dateFields, now, layouts));
  }

  /** The injected query matches precisely the documents of the query whose time lies in the
      plan's window. */
  lemma {:induction false} InjectedMeans(n: Node, cfg: Config, plan: string, d: Doc, now: int, layouts: Layouts)
    requires GoodWindow(cfg, plan) && InjectedField(cfg) in cfg.dateFields
    requires now != 0 && now - PlanLength(cfg, plan) != 0
    ensures
      var (s, f) := (Setting(cfg.dateFields, now, layouts), InjectedField(cfg));
      Matches(Injected(n, cfg, plan), "", d, s) <==>
      Matches(n, "", d, s) && f in d.times && now - PlanLength(cfg, plan) <= d.times[f] <= now
  {
    hide GoodWindow, PlanLength;
    var s := Setting(cfg.dateFields, now, layouts);
    BothRequired(Clause(Must, "", Group(n)), DateClause(cfg, plan), d, s);
    DateClauseMatches(cfg, plan, d, now, layouts);
    assert TermMatches(Clause(Must, "", Group(n)), "", d, s) == Matches(n, "", d, s);
  }


  /** Every document that matches the injected text, whatever the query, lies in the plan's
      window. */
  lemma {:induction false} InjectedTextInside(n: Node, cfg: Config, plan: string, d: Doc, now: int, layouts: Layouts)
    requires WfQuery(n) && Writable(cfg, plan) && Parse(Print(Injected(n, cfg, plan))).Done?
    requires ParseDurationHuman(PlanWindow(cfg, plan)).Some? && InjectedField(cfg) in cfg.dateFields
    requires now != 0 && now - PlanLength(cfg, plan) != 0
    ensures
      var (m, s, f) := (Parse(Print(n)), Setting(cfg.dateFields, now, layouts), InjectedField(cfg));
      m.Done? &&
      (Matches(Parse(Print(Injected(n, cfg, plan))).value, "", d, s) <==>
       Matches(m.value, "", d, s) && f in d.times && now - PlanLength(cfg, plan) <= d.times[f] <= now)
  {
    hide Matches, Parse, Print, ParseDurationHuman, PlanWindow, Injected;
    QueryStaysInside(n, cfg, plan);
    WritableWindow(cfg, plan);
    InjectedMeans(Parse(Print(n)).value, cfg, plan, d, now, layouts);
  }

  lemma {:induction false} WritableWindow(cfg: Config, plan: string)
    requires Writable(cfg, plan) && ParseDurationHuman(PlanWindow(cfg, plan)).Some?
    ensures GoodWindow(cfg, plan)
  {
    WindowIsBound(cfg, plan);
    hide PlanWindow;
    TrimNothing(PlanWindow(cfg, plan));
  }

  // ---------- injection and the window rule ----------

  /** Quoting moves no window: what the search finds in a tree it finds in what the tree's text
      reads as, when neighbours keep apart. */
  lemma {:induction false} RequoteKeepsWindow(n: Node, fields: seq<string>, now: int, layouts: Layouts)
    ensures FindWindow(Requote(n), fields, now, layouts) == FindWindow(n, fields, now, layouts)
    decreases n, 0
  {
    match n
    case Group(q) => RequoteKeepsWindow(q, fields, now, layouts);
    case Single(c) => RequoteKeepsWindow(c.term, fields, now, layouts);
    case Boolean(cs) => RequoteKeepsFirst(cs, fields, now, layouts);
    case _ =>
  }

  lemma {:induction false} RequoteKeepsFirst(cs: seq<Clause>, fields: seq<string>, now: int, layouts: Layouts)
    ensures FindInClauses(RequoteClauses(cs), fields, now, layouts) == FindInClauses(cs, fields, now, layouts)
    decreases cs, 0
  {
    if cs != [] {
      RequoteKeepsWindow(cs[0].term, fields, now, layouts);
      RequoteKeepsFirst(cs[1..], fields, now, layouts);
      assert RequoteClauses(cs)[1..] == RequoteClauses(cs[1..]);
    }
  }

  lemma {:induction false} SearchSecond(a: Clause, b: Clause, fields: seq<string>, now: int, layouts: Layouts)
    requires var s := FindInClause(a, fields, now, layouts); !s.failed && !s.found
    requires var s := FindInClause(b, fields, now, layouts); !s.failed && s.found
    ensures FindInClauses([a, b], fields, now, layouts) == FindInClause(b, fields, now, layouts)
  {
    hide FindInClause;
    assert [a, b][1..] == [b];
  }

  lemma {:induction false} DateClauseWindow(cfg: Config, plan: string, now: int, layouts: Layouts)
    requires GoodWindow(cfg, plan) && InjectedField(cfg) in cfg.dateFields
    ensures FindInClause(DateClause(cfg, plan), cfg.dateFields, now, layouts) ==
            Search(Window(now - PlanLength(cfg, plan), now), true, false)
  {
    RelativeWindow(PlanWindow(cfg, plan), now, layouts);
    hide ParseWindow, ParseDurationHuman, PlanWindow;
  }

  /** In the injected query, at any time, the search finds a window as long as the plan's. */
  lemma {:induction false} InjectedWindow(n: Node, cfg: Config, plan: string, now: int, layouts: Layouts)
    requires GoodWindow(cfg, plan) && InjectedField(cfg) in cfg.dateFields
    requires var s := FindWindow(n, cfg.dateFields, now, layouts); !s.failed && !s.found
    ensures FindWindow(Injected(n, cfg, plan), cfg.dateFields, now, layouts) ==
            Search(Window(now - PlanLength(cfg, plan), now), true, false)
  {
    hide GoodWindow, PlanLength, FindInClauses, DateClause;
    var group := Clause(Must, "", Group(n));
    assert FindInClause(group, cfg.dateFields, now, layouts) == FindWindow(n, cfg.dateFields, now, layouts);
    DateClauseWindow(cfg, plan, now, layouts);
    SearchSecond(group, DateClause(cfg, plan), cfg.dateFields, now, layouts);
  }

  /** The injected query passes the window rule of its plan with a window exactly as long as
      the rule allows, and nothing is injected again. */
  lemma {:induction false} InjectionSettles(n: Node, cfg: Config, plan: string, now: int, later: int, layouts: Layouts)
    requires GoodWindow(cfg, plan) && InjectedField(cfg) in cfg.dateFields
    requires var s := FindWindow(n, cfg.dateFields, now, layouts); !s.failed && !s.found
    requires later != 0 && later - PlanLength(cfg, plan) != 0
    ensures
      var q := Injected(n, cfg, plan);
      WindowVerdict(WindowRule(cfg), q, plan, later, layouts).Pass? &&
      WindowLength(FindWindow(q, cfg.dateFields, later, layouts).window) == Some(WindowLimit(cfg, plan)) &&
      Forwarded(q, cfg, plan, later, layouts) == q
  {
    hide Print, Injected, FindWindow, Windows, ParseDurationHuman, PlanWindow;
    SearchAtAnyTime(n, cfg.dateFields, now, later, layouts);
    InjectedWindow(n, cfg, plan, later, layouts);
    PlanWindowsAgree(cfg, plan);
  }

  /** The same through the text: what a reader of the forwarded text gets has the plan's window,
      passes its rule, and would be forwarded as it is. */
  lemma {:induction false} InjectionSettlesAsText(n: Node, cfg: Config, plan: string,
                                                  now: int, later: int, layouts: Layouts)
    requires WfQuery(n) && JoinsQuery(n, false) && Writable(cfg, plan) && !cfg.requireWindow
    requires GoodWindow(cfg, plan) && InjectedField(cfg) in cfg.dateFields
    requires var s := FindWindow(n, cfg.dateFields, now, layouts); !s.failed && !s.found
    requires later != 0 && later - PlanLength(cfg, plan) != 0
    ensures
      var text := Print(Forwarded(n, cfg, plan, now, layouts));
      Parse(text) == Done(Injected(Requote(n), cfg, plan)) &&
      WindowVerdict(WindowRule(cfg), Parse(text).value, plan, later, layouts).Pass? &&
      Forwarded(Parse(text).value, cfg, plan, later, layouts) == Parse(text).value
  {
    InjectedShape(n, cfg, plan);
    RequoteKeepsWindow(n, cfg.dateFields, now, layouts);
    InjectionSettles(Requote(n), cfg, plan, now, later, layouts);
  }
}
