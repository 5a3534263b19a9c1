/** What a reader of the forwarded text gets: when it lies inside the plan's limit, and the inputs
    for which it does not. */
module ForwardedText {
  import opened Text
  import opened Ast
  import opened Grammar
  import opened Printer
  import opened NormalForm
  import opened CanonicalForm
  import opened ExactRoundTrip
  import opened Operators
  import opened Samples
  import opened Sequences
  import opened CostModel
  import opened ReportLaws
  import opened DateMath
  import opened DateBounds
  import opened Rules
  import opened RuleLaws
  import opened Documents
  import opened WindowSearch
  import opened Gate
  import opened InjectionLaws
  import opened GateLaws
  import opened TextWindow

  // ---------- the limit, through the text ----------

  /** The forwarded text reads as a query whose window lies inside the plan's limit, unless it puts
      another range first on a date field than the tree that was judged. */
  lemma {:induction false} ForwardedTextInsideLimit(text: string, plan: string, cfg: Config, answer: Validation,
                                                    judged: int, completed: int, layouts: Layouts)
    requires Handle(text, plan, cfg, answer, judged, completed, layouts).Sent?
    requires
      Injects(ResolveQuery(text, cfg, answer).value, cfg, judged, layouts) ==>
        Writable(cfg, plan) && GoodWindow(cfg, plan) && InjectedField(cfg) in cfg.dateFields &&
        judged != 0 && judged - PlanLength(cfg, plan) != 0
    ensures
      var sent := Forwarded(ResolveQuery(text, cfg, answer).value, cfg, plan, completed, layouts);
      var back := Parse(Handle(text, plan, cfg, answer, judged, completed, layouts).text);
      back.Done? && FirstDate(back.value, cfg.dateFields) == FirstDate(sent, cfg.dateFields) ==>
        InsideLimit(back.value, cfg, plan, judged, layouts)
  {
    hide Parse, FindWindow, Print, FirstDate;
    var n := ResolveQuery(text, cfg, answer).value;
    var sent := Forwarded(n, cfg, plan, completed, layouts);
    ForwardedInsideLimit(text, plan, cfg, answer, judged, completed, layouts);
    ResolvedForm(text, cfg, answer);
    if Injects(n, cfg, judged, layouts) {
      InjectedForm(n, cfg, plan);
    }
    if Parse(Print(sent)).Done? && FirstDate(Parse(Print(sent)).value, cfg.dateFields) == FirstDate(sent, cfg.dateFields) {
      WindowThroughText(sent, cfg.dateFields, judged, layouts);
    }
  }

  // ---------- three clauses with an OR between the first two ----------

  function OrFirst(a: Clause, gap: string, b: Clause, c: Clause): seq<Linked> {
    [Linked("", Blank, a), Linked(gap, Or, b), Linked(" ", Blank, c)]
  }

  lemma {:induction false} OrFirstApart(a: Clause, gap: string, b: Clause, c: Clause)
    requires Settled(a) && Settled(b) && Settled(c) && IsGap(Or, gap) && !StartsWithOperator(c)
    ensures KeepApart(OrFirst(a, gap, b, c), "")
  {
    assert gap != "";
    BlankGap();
    var ls := OrFirst(a, gap, b, c);
    hide WfClause, JoinsClause, IsNotWord, RequoteClause, IsGap, StartsWithOperator, PrintClause;
    assert ls[1..] == [ls[1], ls[2]] && ls[1..][1..] == [ls[2]] && [ls[2]][1..] == [];
    assert After([ls[2]], "") == "";
    assert KeepApart([ls[2]], "");
    assert After([ls[1], ls[2]], "") != "" && KeepApart([ls[1], ls[2]], "");
    assert After(ls, "") != "";
  }

  lemma {:induction false} BlankGap()
    ensures IsGap(Blank, " ")
  {
    assert " "[1..] == "" && SkipSpace(" ") == "" && ""[0..] == "";
  }

  lemma {:induction false} OrGap(gap: string)
    requires gap == " OR" || gap == " OR "
    ensures IsGap(Or, gap)
  {
    var w := gap[1..];
    assert SkipSpace(gap) == w;
    assert w[2..] == "" || w[2..] == " ";
    assert " "[1..] == "";
  }

  lemma {:induction false} OrFirstText(a: Clause, gap: string, b: Clause, c: Clause)
    ensures PrintLinked(OrFirst(a, gap, b, c)) ==
            PrintClause(a) + gap + PrintClause(b) + " " + PrintClause(c)
  {
    hide PrintClause;
    var ls := OrFirst(a, gap, b, c);
    assert ls[1..] == [ls[1], ls[2]] && ls[1..][1..] == [ls[2]] && [ls[2]][1..] == [];
    assert PrintLinked([]) == "";
    assert PrintLinked([ls[2]]) == " " + PrintClause(c);
    assert PrintLinked([ls[1], ls[2]]) == gap + PrintClause(b) + PrintLinked([ls[2]]);
    assert PrintLinked(ls) == PrintClause(a) + PrintLinked([ls[1], ls[2]]);
  }

  lemma {:induction false} ThreeText(a: Clause, b: Clause, c: Clause)
    ensures Print(Boolean([a, b, c])) == PrintClause(a) + " " + PrintClause(b) + " " + PrintClause(c)
  {
    var cs := [a, b, c];
    assert Print(Boolean(cs)) == PrintClauses(cs);
    hide PrintClause, Print;
    assert cs[1..] == [b, c] && [b, c][1..] == [c];
    assert PrintClauses([c]) == PrintClause(c);
    assert PrintClauses([b, c]) == PrintClause(b) + " " + PrintClause(c);
  }

  lemma {:induction false} OrFirstRead(a: Clause, gap: string, b: Clause, c: Clause)
    requires Settled(a) && Settled(b) && Settled(c) && IsGap(Or, gap) && !StartsWithOperator(c)
    ensures Parse(PrintClause(a) + gap + PrintClause(b) + " " + PrintClause(c)) == Done(Boolean([a, b, c]))
  {
    var ls := OrFirst(a, gap, b, c);
    OrFirstApart(a, gap, b, c);
    assert SkipSpace("") == "";
    assert [RequoteClause(a), RequoteClause(b), RequoteClause(c)] == [a, b, c];
    hide PrintLinked, KeepApart, Parse, PrintClause, RequoteClause, Settled, IsGap, StartsWithOperator;
    OperatorsRead(ls, "");
    OrFirstText(a, gap, b, c);
    assert PrintLinked(ls) + "" == PrintLinked(ls);
    assert Resolve(LinkedItems(ls)) == [a, b, c];
  }

  // ---------- an operator that eats a field name ----------

  const WORD_X := MakeTerm("x")
  const LONG_RANGE := Range("now-9999d", "now", true, true)
  const DAY_RANGE := Range("now-1d", "now", true, true)
  const OPTIONAL_WORD := Clause(Should, "", WORD_X)

  function LongOn(field: string): Clause {
    Clause(Should, field, LONG_RANGE)
  }

  function DayOn(field: string): Clause {
    Clause(Should, field, DAY_RANGE)
  }

  /** The word x and two ranges, the first of them on the given field. */
  function TwoRanges(field: string): Node {
    Boolean([OPTIONAL_WORD, LongOn(field), DayOn("t")])
  }

  lemma {:induction false} RangesForm()
    ensures WfTerm(LONG_RANGE) && WfTerm(DAY_RANGE)
  {
    var (a, b, c) := ("now-9999d", "now", "now-1d");
    assert forall i :: 0 <= i < |a| ==> InBound(a[i]);
    assert forall i :: 0 <= i < |b| ==> InBound(b[i]);
    assert forall i :: 0 <= i < |c| ==> InBound(c[i]);
  }

  lemma {:induction false} RangesText(l: string, d: string)
    ensures "x" + " OR " + ("ORt" + ":" + l) + " " + ("t" + ":" + d) == "x OR ORt:" + l + " t:" + d
    ensures "x" + " OR" + ("t" + ":" + l) + " " + ("t" + ":" + d) ==
            "x" + " " + ("ORt" + ":" + l) + " " + ("t" + ":" + d)
  {
    assert "x" + " OR " + ("ORt" + ":") == "x OR ORt:" && " " + ("t" + ":") == " t:";
    assert "x" + " OR" + ("t" + ":") == "x" + " " + ("ORt" + ":");
    assert "x" + " OR " + ("ORt" + ":" + l) == "x OR ORt:" + l;
    assert "x" + " OR" + ("t" + ":" + l) == "x" + " " + ("ORt" + ":" + l);
  }

  /** The clauses of the example read back as they are. */
  lemma {:induction false} ExampleSettled()
    ensures Settled(OPTIONAL_WORD) && Settled(LongOn("ORt")) && Settled(LongOn("t")) && Settled(DayOn("t"))
    ensures PrintClause(OPTIONAL_WORD) == "x"
    ensures PrintClause(LongOn("ORt")) == "ORt" + ":" + Print(LONG_RANGE)
    ensures PrintClause(LongOn("t")) == "t" + ":" + Print(LONG_RANGE)
    ensures PrintClause(DayOn("t")) == "t" + ":" + Print(DAY_RANGE) && !StartsWithOperator(DayOn("t"))
  {
    hide Print, Settled, StartsWithOperator, WfTerm;
    WordSettled(Should, "x");
    RangesForm();
    RangeSettled("ORt", LONG_RANGE);
    RangeSettled("t", LONG_RANGE);
    RangeSettled("t", DAY_RANGE);
    hide PrintClause;
    NoOperatorLetters(DayOn("t"));
  }

  /** What the query was read from, and what its text reads as. */
  lemma {:induction false} RangesRead()
    ensures Parse("x OR ORt:" + Print(LONG_RANGE) + " t:" + Print(DAY_RANGE)) == Done(TwoRanges("ORt"))
    ensures Parse(Print(TwoRanges("ORt"))) == Done(TwoRanges("t"))
    ensures WfQuery(TwoRanges("ORt"))
  {
    hide PrintClause, Print, Parse, Settled, StartsWithOperator, IsGap, WfQuery;
    ExampleSettled();
    OrGap(" OR ");
    OrGap(" OR");
    OrFirstRead(OPTIONAL_WORD, " OR ", LongOn("ORt"), DayOn("t"));
    OrFirstRead(OPTIONAL_WORD, " OR", LongOn("t"), DayOn("t"));
    ThreeText(OPTIONAL_WORD, LongOn("ORt"), DayOn("t"));
    ThreeForm(OPTIONAL_WORD, LongOn("ORt"), DayOn("t"));
    hide LongOn, DayOn;
    RangesText(Print(LONG_RANGE), Print(DAY_RANGE));
  }

  lemma ThreeForm(a: Clause, b: Clause, c: Clause)
    ensures Settled(a) && Settled(b) && Settled(c) ==> WfQuery(Boolean([a, b, c]))
  {
  }

  lemma {:induction false} DaysOf(digits: string, n: nat)
    requires digits != "" && (forall i :: 0 <= i < |digits| ==> IsDigit(digits[i])) && Decimal(digits) == n
    ensures MatchSpan(digits + "d") == Some(Span(n as real, 'd'))
    ensures NoSpace(digits + "d")
  {
    var s := digits + "d";
    DigitsThen(digits, "d");
    assert AmountLen(s) == |digits|;
    assert s[|digits|..] == "d" && s[..|digits|] == digits;
    assert SkipPatternSpace("d") == "d";
  }

  lemma {:induction false} DecimalNines()
    ensures Decimal("9999") == 9999 && Decimal("1") == 1
  {
    assert "9999"[..3] == "999" && "999"[..2] == "99" && "99"[..1] == "9" && "9"[..0] == "" && "1"[..0] == "";
    assert Decimal("9") == 9;
    assert Decimal("99") == 99;
    assert Decimal("999") == 999;
  }

  lemma {:induction false} DaysWindow(digits: string, n: nat, now: int, layouts: Layouts)
    requires digits != "" && (forall i :: 0 <= i < |digits| ==> IsDigit(digits[i])) && Decimal(digits) == n
    ensures ParseWindow("now-" + (digits + "d"), "now", now, layouts) == Some(Window(now - n * 24 * HOUR, now))
  {
    hide MatchSpan, TrimSpace, ParseWindow, Length, Decimal;
    var w := digits + "d";
    DaysOf(digits, n);
    TrimNothing(w);
    assert w[0] == digits[0];
    WholeDays(n);
    RelativeWindow(w, now, layouts);
  }

  lemma WholeDays(n: nat)
    ensures Length(Span(n as real, 'd')) == n * 24 * HOUR
  {
    assert (n as real * 24.0).Floor == n * 24;
  }

  lemma {:induction false} RangeWindows(now: int, layouts: Layouts)
    ensures ParseWindow(LONG_RANGE.low, LONG_RANGE.high, now, layouts) == Some(Window(now - 9999 * 24 * HOUR, now))
    ensures ParseWindow(DAY_RANGE.low, DAY_RANGE.high, now, layouts) == Some(Window(now - 24 * HOUR, now))
  {
    hide ParseWindow, Decimal;
    DecimalNines();
    DaysWindow("9999", 9999, now, layouts);
    DaysWindow("1", 1, now, layouts);
    assert "now-" + ("9999" + "d") == "now-9999d" && "now-" + ("1" + "d") == "now-1d";
  }

  lemma {:induction false} RangeClauseWindow(c: Clause, now: int, layouts: Layouts)
    requires c.term == LONG_RANGE || c.term == DAY_RANGE
    ensures FindInClause(c, ["t"], now, layouts) ==
            Search(Window(now - (if c.term == LONG_RANGE then 9999 else 1) * 24 * HOUR, now), c.field == "t", false)
  {
    hide ParseWindow;
    RangeWindows(now, layouts);
    assert c.field in ["t"] <==> c.field == "t";
    assert FindInClause(c, ["t"], now, layouts) ==
           SearchRange(c.term.low, c.term.high, c.field == "t", now, layouts);
  }

  lemma {:induction false} TwoRangesWindow(field: string, now: int, layouts: Layouts)
    ensures FindWindow(TwoRanges(field), ["t"], now, layouts) ==
            Search(Window(now - (if field == "t" then 9999 else 1) * 24 * HOUR, now), true, false)
  {
    hide ParseWindow;
    RangeWindows(now, layouts);
    var cs := TwoRanges(field).clauses;
    assert cs[1..][0] == cs[1] && cs[1..][1..] == cs[2..] && cs[2..][0] == cs[2];
    assert FindInClause(cs[0], ["t"], now, layouts) == NOTHING;
    assert FindInClauses(cs, ["t"], now, layouts) == FindInClauses(cs[1..], ["t"], now, layouts);
    RangeClauseWindow(cs[1], now, layouts);
    RangeClauseWindow(cs[2], now, layouts);
    if field != "t" {
      assert FindInClauses(cs[1..], ["t"], now, layouts) == FindInClauses(cs[2..], ["t"], now, layouts);
    }
  }

  lemma {:induction false} PairLeaves(a: Clause, b: Clause)
    ensures IsLeaf(a.term) && IsLeaf(b.term) ==>
      Leaves(Boolean([a, b]), "") == [Placed(a.term, a.field), Placed(b.term, b.field)]
  {
    if IsLeaf(a.term) && IsLeaf(b.term) {
      var cs := [a, b];
      assert cs[1..] == [b] && cs[1..][1..] == [];
      assert ClauseLeaves(cs[1..][1..]) == [];
      assert ClauseLeaves(cs[1..]) == [Placed(b.term, b.field)];
      assert Leaves(a.term, a.field) == [Placed(a.term, a.field)];
      assert ClauseLeaves(cs) == [Placed(a.term, a.field)] + [Placed(b.term, b.field)];
    }
  }

  lemma {:induction false} ThreeLeaves(a: Clause, b: Clause, c: Clause)
    requires IsLeaf(a.term) && IsLeaf(b.term) && IsLeaf(c.term)
    ensures Leaves(Boolean([a, b, c]), "") == [Placed(a.term, a.field), Placed(b.term, b.field), Placed(c.term, c.field)]
  {
    var cs := [a, b, c];
    assert cs[1..] == [b, c] && [b, c][1..] == [c];
    PairLeaves(b, c);
    assert Leaves(Boolean([b, c]), "") == ClauseLeaves([b, c]);
    assert ClauseLeaves(cs) == [Placed(a.term, a.field)] + ClauseLeaves([b, c]);
  }

  lemma {:induction false} RangesAllowed(cfg: Config, plan: string, now: int, layouts: Layouts)
    requires cfg.dateFields == ["t"] && WindowLimit(cfg, plan) == DEFAULT_WINDOW
    requires now != 0 && now != 24 * HOUR
    ensures InsideLimit(TwoRanges("ORt"), cfg, plan, now, layouts)
    ensures WindowAllowed(TwoRanges("ORt"), cfg, plan, now, layouts)
    ensures !InsideLimit(TwoRanges("t"), cfg, plan, now, layouts)
  {
    hide FindWindow, TwoRanges, WindowLimit;
    TwoRangesWindow("ORt", now, layouts);
    TwoRangesWindow("t", now, layouts);
  }

  lemma {:induction false} RangesClosed()
    ensures !HasStar(TwoRanges("ORt")) && !HasOpenRange(TwoRanges("ORt"))
  {
    ThreeLeaves(OPTIONAL_WORD, LongOn("ORt"), DayOn("t"));
    hide Leaves;
  }

  lemma {:induction false} OtherFirst()
    ensures FirstDate(TwoRanges("ORt"), ["t"]) == 1 && FirstDate(TwoRanges("t"), ["t"]) == 0
  {
    var fields := ["t"];
    assert forall f :: f in fields <==> f == "t";
    forall field | field == "ORt" || field == "t"
      ensures Flatten(TwoRanges(field), fields) ==
              FlattenClause(LongOn(field), fields) + FlattenClause(DayOn("t"), fields)
    {
      var cs := TwoRanges(field).clauses;
      assert cs[1..] == [cs[1], cs[2]] && cs[1..][1..] == [cs[2]] && [cs[2]][1..] == [];
      assert FlattenClause(cs[0], fields) == [];
      assert FlattenClauses([cs[2]], fields) == FlattenClause(cs[2], fields);
      assert FlattenClauses([cs[1], cs[2]], fields) == FlattenClause(cs[1], fields) + FlattenClause(cs[2], fields);
    }
  }

  /** The query x OR ORt:[now-9999d TO now] t:[now-1d TO now], when affordable, passes the gate by
      the window of a day on its date field t; its forwarded text reads as a query on t whose window
      is 9999 days long, because the letters OR in front of the other field are read as an operator
      and put the other range first on a date field. */
  lemma {:induction false} OperatorEatsField(plan: string, cfg: Config, answer: Validation, judged: int,
                                             completed: int, layouts: Layouts)
    requires cfg.dateFields == ["t"] && WindowLimit(cfg, plan) == DEFAULT_WINDOW
    requires cfg.forbidden == ["match_all", "open_range"] && !cfg.remoteValidator
    requires cfg.model.matchAllCost > 0.0 && cfg.model.openRangeCost > 0.0 && PositiveWeights(cfg.model)
    requires SummaryOf(TwoRanges("ORt"), cfg.model).cost <= PlanCost(cfg, plan)
    requires judged != 0 && judged != 24 * HOUR
    ensures
      var text := "x OR ORt:" + Print(LONG_RANGE) + " t:" + Print(DAY_RANGE);
      var n := TwoRanges("ORt");
      Handle(text, plan, cfg, answer, judged, completed, layouts) == Sent(Print(n)) &&
      InsideLimit(n, cfg, plan, judged, layouts) &&
      Parse(Print(n)) == Done(TwoRanges("t")) && !InsideLimit(TwoRanges("t"), cfg, plan, judged, layouts) &&
      FirstDate(TwoRanges("t"), cfg.dateFields) != FirstDate(n, cfg.dateFields)
  {
    RangesRead();
    OtherFirst();
    hide Print, FindWindow, Parse, WfQuery, TwoRanges, FirstDate, SummaryOf, PositiveWeights, HasStar, HasOpenRange;
    hide InsideLimit, WindowAllowed;
    RangesAllowed(cfg, plan, judged, layouts);
    RangesClosed();
    TwoRangesWindow("ORt", completed, layouts);
    ForwardedExactly("x OR ORt:" + Print(LONG_RANGE) + " t:" + Print(DAY_RANGE), plan, cfg, answer, judged, completed, layouts);
  }

  // ---------- windows that bind no document ----------

  /** A Boolean matches by the set of its clauses. */
  lemma {:induction false} MatchesBySet(cs: seq<Clause>, field: string, d: Doc, s: Setting)
    ensures Matches(Boolean(cs), field, d, s) <==>
            (forall c :: c in cs && c.occur == Must ==> TermMatches(c, field, d, s)) &&
            (forall c :: c in cs && c.occur == MustNot ==> !TermMatches(c, field, d, s)) &&
            ((exists c :: c in cs && c.occur == Must) || (forall c :: c in cs ==> c.occur != Should) ||
             (exists c :: c in cs && c.occur == Should && TermMatches(c, field, d, s)))
  {
    hide TermMatches;
  }

  /** A clause that is not required. Beside another clause that is not excluded, an optional clause
      keeps out no document that the other clauses match; and an excluded one keeps out just the
      documents it matches itself, so none that lies outside its window. */
  lemma {:induction false} NotRequired(cs: seq<Clause>, i: nat, field: string, d: Doc, s: Setting)
    requires i < |cs| && cs[i].occur != Must
    ensures cs[i].occur == Should && (exists c :: c in Without(cs, i) && c.occur != MustNot) &&
            Matches(Boolean(Without(cs, i)), field, d, s) ==>
              Matches(Boolean(cs), field, d, s)
    ensures cs[i].occur == MustNot ==>
              (Matches(Boolean(cs), field, d, s) <==>
               Matches(Boolean(Without(cs, i)), field, d, s) && !TermMatches(cs[i], field, d, s))
  {
    WithoutHas(cs, i);
    hide Matches, TermMatches, Without;
    MatchesBySet(cs, field, d, s);
    MatchesBySet(Without(cs, i), field, d, s);
    assert cs[i] in cs;
  }

  const OPTIONAL_DAY := DayOn("@timestamp")

  /** The word x and the last day, both optional. */
  function WordOrDay(): Node {
    Boolean([OPTIONAL_WORD, OPTIONAL_DAY])
  }

  lemma {:induction false} WordOrDayCanonical()
    ensures WfQuery(WordOrDay()) && Canonical(WordOrDay())
  {
    hide MakeTerm, Settled, StartsWithOperator, Print, WfTerm, WfQuery, Canonical;
    WordSettled(Should, "x");
    RangesForm();
    RangeSettled("@timestamp", DAY_RANGE);
    hide PrintClause;
    NoOperatorLetters(OPTIONAL_DAY);
    PairCanonical(OPTIONAL_WORD, OPTIONAL_DAY);
  }

  lemma {:induction false} WordOrDayWindow(now: int, layouts: Layouts)
    ensures FindWindow(WordOrDay(), ["@timestamp"], now, layouts) ==
            Search(Window(now - 24 * HOUR, now), true, false)
  {
    hide ParseWindow;
    RangeWindows(now, layouts);
    var fields := ["@timestamp"];
    assert OPTIONAL_DAY.field == fields[0];
    assert FindInClause(OPTIONAL_WORD, fields, now, layouts) == NOTHING;
    assert FindInClause(OPTIONAL_DAY, fields, now, layouts) ==
           SearchRange(DAY_RANGE.low, DAY_RANGE.high, true, now, layouts);
    hide FindInClause;
    SearchSecond(OPTIONAL_WORD, OPTIONAL_DAY, fields, now, layouts);
  }

  lemma {:induction false} WordOrDayLeaves()
    ensures !HasStar(WordOrDay()) && !HasOpenRange(WordOrDay())
  {
    PairLeaves(OPTIONAL_WORD, OPTIONAL_DAY);
    hide Leaves;
  }

  /** The window of a day is inside the limit. */
  lemma {:induction false} WordOrDayAllowed(cfg: Config, plan: string, now: int, layouts: Layouts)
    requires cfg.dateFields == ["@timestamp"] && WindowLimit(cfg, plan) == DEFAULT_WINDOW
    requires now != 0 && now != 24 * HOUR
    ensures InsideLimit(WordOrDay(), cfg, plan, now, layouts)
    ensures WindowAllowed(WordOrDay(), cfg, plan, now, layouts)
  {
    WordOrDayWindow(now, layouts);
    hide FindWindow;
  }

  /** An affordable query of a word and a window, both optional, lies inside the limit and is
      forwarded as it is; and every document with the word matches it, at whatever time. */
  lemma {:induction false} OptionalWindow(plan: string, cfg: Config, answer: Validation, judged: int,
                                          completed: int, layouts: Layouts, d: Doc)
    requires cfg.dateFields == ["@timestamp"] && WindowLimit(cfg, plan) == DEFAULT_WINDOW
    requires cfg.forbidden == ["match_all", "open_range"] && !cfg.remoteValidator
    requires cfg.model.matchAllCost > 0.0 && cfg.model.openRangeCost > 0.0 && PositiveWeights(cfg.model)
    requires SummaryOf(WordOrDay(), cfg.model).cost <= PlanCost(cfg, plan)
    requires judged != 0 && judged != 24 * HOUR && d.holds("", WORD_X)
    ensures
      var text := Print(WordOrDay());
      Parse(text) == Done(WordOrDay()) &&
      InsideLimit(WordOrDay(), cfg, plan, judged, layouts) &&
      Handle(text, plan, cfg, answer, judged, completed, layouts) == Sent(text) &&
      Matches(Parse(text).value, "", d, Setting(cfg.dateFields, judged, layouts))
  {
    hide Print, Parse, FindWindow, SummaryOf, Matches, HasStar, HasOpenRange, PositiveWeights, WordOrDay;
    hide InsideLimit, WindowAllowed, WfQuery, Canonical;
    var text := Print(WordOrDay());
    WordOrDayCanonical();
    RoundTripExactly(WordOrDay());
    WordOrDayAllowed(cfg, plan, judged, layouts);
    WordOrDayWindow(completed, layouts);
    WordOrDayLeaves();
    WordOrDayMatches(Setting(cfg.dateFields, judged, layouts), d);
    ForwardedExactly(text, plan, cfg, answer, judged, completed, layouts);
  }

  lemma {:induction false} WordOrDayMatches(s: Setting, d: Doc)
    requires d.holds("", WORD_X)
    ensures Matches(WordOrDay(), "", d, s)
  {
    var cs := WordOrDay().clauses;
    assert cs[0].occur == Should && TermMatches(cs[0], "", d, s);
    assert cs[0].occur != Must && cs[1].occur != Must && cs[0].occur != MustNot && cs[1].occur != MustNot;
  }

  // ---------- a lone exclusion ----------

  /** A single excluded clause without a field is read as its term, and unless a window is injected
      beside it that is what is forwarded: the query then matches exactly the documents it was
      written to exclude. */
  lemma {:induction false} LoneExclusionInverted(c: Clause, plan: string, cfg: Config, answer: Validation,
                                                 judged: int, completed: int, layouts: Layouts, d: Doc)
    requires WfClause(c) && c.occur == MustNot && c.field == "" && JoinsClause(c, true)
    requires Handle(PrintClause(c), plan, cfg, answer, judged, completed, layouts).Sent?
    ensures
      var n := Requote(c.term);
      Parse(PrintClause(c)) == Done(n) && ResolveQuery(PrintClause(c), cfg, answer) == Some(n) &&
      (Matches(n, "", d, Setting(cfg.dateFields, judged, layouts)) <==>
       !Matches(Single(RequoteClause(c)), "", d, Setting(cfg.dateFields, judged, layouts)))
  {
    hide Parse, PrintClause, Evaluate, Matches;
    assert SkipSpace("") == "";
    LoneClause(c, "", "");
    assert "" + PrintClause(c) + "" == PrintClause(c);
    ExclusionComplements(RequoteClause(c), d, Setting(cfg.dateFields, judged, layouts));
  }

  lemma ExclusionComplements(c: Clause, d: Doc, s: Setting)
    requires c.occur == MustNot && c.field == ""
    ensures Matches(Single(c), "", d, s) <==> !Matches(c.term, "", d, s)
  {
  }
}
