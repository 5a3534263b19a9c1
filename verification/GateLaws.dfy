/** What holds of every text the gate forwards. */
module GateLaws {
  import opened Ast
  import opened Grammar
  import opened Printer
  import opened NormalForm
  import opened CanonicalForm
  import opened RoundTrip
  import opened Samples
  import opened QuotedReport
  import opened CostModel
  import opened DateMath
  import opened Rules
  import opened WindowSearch
  import opened ReportLaws
  import opened RuleLaws
  import opened Documents
  import opened Gate
  import opened InjectionLaws

  // ---------- the whole gate ----------

  /** At that time, the first window of the tree is bounded at both ends and no longer than the
      plan allows. */
  predicate InsideLimit(n: Node, cfg: Config, plan: string, now: int, layouts: Layouts) {
    var length := FoundLength(FindWindow(n, cfg.dateFields, now, layouts));
    length.Some? && length.value <= WindowLimit(cfg, plan)
  }

  function FoundLength(s: Search): Option<int> {
    if s.failed || !s.found then None else WindowLength(s.window)
  }

  lemma {:induction false} EngineWindow(n: Node, cfg: Config, plan: string, now: int, layouts: Layouts)
    ensures Evaluate(Engine(cfg), n, SummaryOf(n, cfg.model), plan, now, layouts).Pass? ==>
      WindowVerdict(WindowRule(cfg), n, plan, now, layouts).Pass?
  {
    if Evaluate(Engine(cfg), n, SummaryOf(n, cfg.model), plan, now, layouts).Pass? {
      EvaluatePasses(Engine(cfg), n, SummaryOf(n, cfg.model), plan, now, layouts);
      assert Engine(cfg)[2] in Engine(cfg);
      assert RuleVerdict(WindowRule(cfg), n, SummaryOf(n, cfg.model), plan, now, layouts).Pass?;
    }
  }

  /** Everything forwarded is the text of the judged tree, or of that tree with the plan's
      window injected, and in either case has a window inside the plan's limit. */
  lemma {:induction false} ForwardedInsideLimit(text: string, plan: string, cfg: Config, answer: Validation,
                                                judged: int, completed: int, layouts: Layouts)
    requires Handle(text, plan, cfg, answer, judged, completed, layouts).Sent?
    requires Injects(ResolveQuery(text, cfg, answer).value, cfg, judged, layouts) ==>
               GoodWindow(cfg, plan) && InjectedField(cfg) in cfg.dateFields &&
               judged != 0 && judged - PlanLength(cfg, plan) != 0
    ensures
      var n := ResolveQuery(text, cfg, answer).value;
      var sent := Forwarded(n, cfg, plan, completed, layouts);
      Handle(text, plan, cfg, answer, judged, completed, layouts) == Sent(Print(sent)) &&
      sent == (if Injects(n, cfg, judged, layouts) then Injected(n, cfg, plan) else n) &&
      InsideLimit(sent, cfg, plan, judged, layouts)
  {
    var n := ResolveQuery(text, cfg, answer).value;
    EngineWindow(n, cfg, plan, judged, layouts);
    SearchAtAnyTime(n, cfg.dateFields, judged, completed, layouts);
    if Injects(n, cfg, judged, layouts) {
      InjectedWindow(n, cfg, plan, judged, layouts);
      PlanWindowsAgree(cfg, plan);
    }
  }

  /** The window rule's demands on a tree. */
  predicate WindowAllowed(n: Node, cfg: Config, plan: string, now: int, layouts: Layouts) {
    var s := FindWindow(n, cfg.dateFields, now, layouts);
    !s.failed && (s.found || !cfg.requireWindow) &&
    (s.found ==> InsideLimit(n, cfg, plan, now, layouts))
  }

  function PlanCost(cfg: Config, plan: string): real {
    if plan in cfg.plans then cfg.plans[plan].costLimit else DEFAULT_LIMIT
  }

  /** The engine passes a tree exactly when it shows no forbidden feature, costs no more than the
      plan allows, and its window, if any, is readable, bounded and short enough. */
  lemma {:induction false} EnginePasses(n: Node, cfg: Config, plan: string, now: int, layouts: Layouts)
    ensures
      var s := SummaryOf(n, cfg.model);
      Evaluate(Engine(cfg), n, s, plan, now, layouts).Pass? <==>
      (forall f :: f in cfg.forbidden ==> Forbids(f, n, cfg.model).Pass?) &&
      s.cost <= PlanCost(cfg, plan) &&
      WindowAllowed(n, cfg, plan, now, layouts)
  {
    var s := SummaryOf(n, cfg.model);
    hide SummaryOf, FindWindow;
    EvaluatePasses(Engine(cfg), n, s, plan, now, layouts);
    var rules := Engine(cfg);
    assert forall r :: r in rules <==> r == rules[0] || r == rules[1] || r == rules[2];
    assert RuleVerdict(rules[0], n, s, plan, now, layouts) == FeatureVerdict(cfg.forbidden, s.breakdown);
    assert RuleVerdict(rules[1], n, s, plan, now, layouts) ==
           CostVerdict(Limits(cfg), DEFAULT_LIMIT, s.cost, plan);
    assert RuleVerdict(rules[2], n, s, plan, now, layouts) ==
           WindowVerdict(WindowRule(cfg), n, plan, now, layouts);
    hide RuleVerdict, WindowAllowed;
    ForbidsEach(cfg.forbidden, n, cfg.model);
    CostPasses(cfg, plan, s.cost);
    WindowPasses(n, cfg, plan, now, layouts);
  }

  lemma {:induction false} ForbidsEach(features: seq<string>, n: Node, m: Model)
    ensures FeatureVerdict(features, SummaryOf(n, m).breakdown).Pass? <==>
            forall f :: f in features ==> Forbids(f, n, m).Pass?
  {
    var b := SummaryOf(n, m).breakdown;
    hide SummaryOf;
    FeaturePasses(features, b);
    forall f
      ensures Forbids(f, n, m).Pass? <==> !(f in b && b[f] > 0.0)
    {
      FeaturePasses([f], b);
    }
  }

  lemma {:induction false} CostPasses(cfg: Config, plan: string, cost: real)
    ensures CostVerdict(Limits(cfg), DEFAULT_LIMIT, cost, plan).Pass? <==> cost <= PlanCost(cfg, plan)
  {
  }

  lemma {:induction false} WindowPasses(n: Node, cfg: Config, plan: string, now: int, layouts: Layouts)
    ensures WindowVerdict(WindowRule(cfg), n, plan, now, layouts).Pass? <==>
            WindowAllowed(n, cfg, plan, now, layouts)
  {
  }

  /** Under the default features with positive costs: a query is forwarded exactly when it can be
      judged, has no bare star and no range open at both ends, costs no more than the plan
      allows and has an allowed window. */
  lemma {:induction false} ForwardedExactly(text: string, plan: string, cfg: Config, answer: Validation,
                                            judged: int, completed: int, layouts: Layouts)
    requires cfg.forbidden == ["match_all", "open_range"]
    requires cfg.model.matchAllCost > 0.0 && cfg.model.openRangeCost > 0.0 && PositiveWeights(cfg.model)
    ensures Handle(text, plan, cfg, answer, judged, completed, layouts).Sent? <==>
            ResolveQuery(text, cfg, answer).Some? &&
            var n := ResolveQuery(text, cfg, answer).value;
            !HasStar(n) && !HasOpenRange(n) &&
            SummaryOf(n, cfg.model).cost <= PlanCost(cfg, plan) &&
            WindowAllowed(n, cfg, plan, judged, layouts)
  {
    if ResolveQuery(text, cfg, answer).Some? {
      var n := ResolveQuery(text, cfg, answer).value;
      EnginePasses(n, cfg, plan, judged, layouts);
      MatchAllDenied(n, cfg.model);
      OpenRangeDenied(n, cfg.model);
      assert forall f :: f in cfg.forbidden <==> f == "match_all" || f == "open_range";
    }
  }

  /** For a query the local parser understands, a remote validator can do no more than refuse it:
      where it does not, the response is the one given without a validator, whatever explanation
      it returns. */
  lemma {:induction false} ValidatorOnlyRefuses(text: string, plan: string, cfg: Config, answer: Validation,
                                                other: Validation, judged: int, completed: int, layouts: Layouts)
    requires Grammar.Parse(text).Done?
    ensures
      var with := Handle(text, plan, cfg, answer, judged, completed, layouts);
      var without := Handle(text, plan, cfg.(remoteValidator := false), other, judged, completed, layouts);
      if cfg.remoteValidator && !answer.Accepted? then with == Invalid else with == without
  {
    hide Parse, Evaluate, SummaryOf, Forwarded, Engine;
    var cfg' := cfg.(remoteValidator := false);
    SameEngine(cfg, cfg');
    if ResolveQuery(text, cfg, answer).Some? {
      SameForwarded(ResolveQuery(text, cfg, answer).value, cfg, cfg', plan, completed, layouts);
    }
  }

  lemma SameEngine(cfg: Config, cfg': Config)
    ensures cfg' == cfg.(remoteValidator := false) ==> Engine(cfg) == Engine(cfg')
  {
    if cfg' == cfg.(remoteValidator := false) {
      assert Limits(cfg) == Limits(cfg');
      assert Windows(cfg) == Windows(cfg');
    }
  }

  lemma SameForwarded(n: Node, cfg: Config, cfg': Config, plan: string, now: int, layouts: Layouts)
    ensures cfg' == cfg.(remoteValidator := false) ==>
      Forwarded(n, cfg, plan, now, layouts) == Forwarded(n, cfg', plan, now, layouts)
  {
  }

  /** The tree judged is always one the parser returned. */
  lemma {:induction false} ResolvedForm(text: string, cfg: Config, answer: Validation)
    ensures ResolveQuery(text, cfg, answer).Some? ==> WfQuery(ResolveQuery(text, cfg, answer).value)
  {
    if ResolveQuery(text, cfg, answer).Some? {
      if Grammar.Parse(text).Done? {
        ParseForm(text);
      } else {
        ParseForm(answer.explanation);
      }
    }
  }

  lemma {:induction false} SameVerdict(rules: seq<Rule>, a: Node, b: Node, s: Summary, plan: string,
                                       now: int, layouts: Layouts)
    requires forall fields :: FindWindow(a, fields, now, layouts) == FindWindow(b, fields, now, layouts)
    ensures Evaluate(rules, a, s, plan, now, layouts) == Evaluate(rules, b, s, plan, now, layouts)
  {
    if rules != [] {
      if rules[0].QueryWindow? {
        assert FindWindow(a, rules[0].dateFields, now, layouts) == FindWindow(b, rules[0].dateFields, now, layouts);
      }
      SameRuleVerdict(rules[0], a, b, s, plan, now, layouts);
      hide RuleVerdict, FindWindow;
      SameVerdict(rules[1..], a, b, s, plan, now, layouts);
    }
  }

  lemma {:induction false} SameRuleVerdict(r: Rule, a: Node, b: Node, s: Summary, plan: string,
                                           now: int, layouts: Layouts)
    requires r.QueryWindow? ==>
               FindWindow(a, r.dateFields, now, layouts) == FindWindow(b, r.dateFields, now, layouts)
    ensures RuleVerdict(r, a, s, plan, now, layouts) == RuleVerdict(r, b, s, plan, now, layouts)
  {
    hide FindWindow, FeatureVerdict, CostVerdict, WindowLength;
  }

  lemma {:induction false} FeaturesJudged(n: Node, m: Model)
    requires m.matchAllCost > 0.0 && m.openRangeCost > 0.0 && PositiveWeights(m)
    ensures FeatureVerdict(["match_all", "open_range"], SummaryOf(n, m).breakdown) ==
            if HasStar(n) then Deny(Feature("match_all"))
            else if HasOpenRange(n) then Deny(Feature("open_range")) else Pass
  {
    MatchAllDenied(n, m);
    OpenRangeDenied(n, m);
    hide SummaryOf, HasStar, HasOpenRange;
    TwoFeatures("match_all", "open_range", SummaryOf(n, m).breakdown);
  }

  lemma TwoFeatures(a: string, b: string, breakdown: map<string, real>)
    ensures FeatureVerdict([a, b], breakdown) ==
            if FeatureVerdict([a], breakdown).Deny? then Deny(Feature(a))
            else if FeatureVerdict([b], breakdown).Deny? then Deny(Feature(b)) else Pass
  {
    assert [a, b][1..] == [b] && [a][1..] == [] && [b][1..] == [];
  }

  /** The answer to a query with a bare star or a range open at both ends, whatever plan, cost
      and window. */
  lemma {:induction false} FeaturesDenied(text: string, plan: string, cfg: Config, answer: Validation,
                                          judged: int, completed: int, layouts: Layouts)
    requires cfg.forbidden == ["match_all", "open_range"] && ResolveQuery(text, cfg, answer).Some?
    requires cfg.model.matchAllCost > 0.0 && cfg.model.openRangeCost > 0.0 && PositiveWeights(cfg.model)
    ensures
      var n := ResolveQuery(text, cfg, answer).value;
      var response := Handle(text, plan, cfg, answer, judged, completed, layouts);
      (HasStar(n) ==> response == Denied(Feature("match_all"))) &&
      (!HasStar(n) && HasOpenRange(n) ==> response == Denied(Feature("open_range")))
  {
    FeaturesJudged(ResolveQuery(text, cfg, answer).value, cfg.model);
    hide SummaryOf, HasStar, HasOpenRange, FeatureVerdict, WindowVerdict;
  }

  lemma {:induction false} OpenPriceRead()
    ensures Parse("price:[* TO *]") == Done(Single(Clause(Should, "price", Range("*", "*", true, true))))
  {
    var c := Clause(Should, "price", Range("*", "*", true, true));
    RangeSettled("price", c.term);
    LoneRead(c);
    assert PrintClause(c) == "price:[* TO *]";
    hide Parse, PrintClause, Settled;
  }

  lemma {:induction false} OpenPriceDenied(plan: string, cfg: Config, answer: Validation,
                                           judged: int, completed: int, layouts: Layouts)
    requires cfg.forbidden == ["match_all", "open_range"] && !cfg.remoteValidator
    requires cfg.model.matchAllCost > 0.0 && cfg.model.openRangeCost > 0.0 && PositiveWeights(cfg.model)
    ensures Handle("price:[* TO *]", plan, cfg, answer, judged, completed, layouts) == Denied(Feature("open_range"))
  {
    OpenPriceRead();
    var r := Range("*", "*", true, true);
    var n := Single(Clause(Should, "price", r));
    assert Leaves(n, "") == [Placed(r, "price")];
    assert Placed(r, "price") in Leaves(n, "") && IsOpenRange(r);
    assert !HasStar(n) && HasOpenRange(n);
    hide Parse, HasStar, HasOpenRange, Handle;
    FeaturesDenied("price:[* TO *]", plan, cfg, answer, judged, completed, layouts);
  }

  /** When a query is forwarded as it is and its neighbours keep apart, what its text reads as is
      charged as it was judged exactly when no word needs quotes and escaping changes the words of
      no phrase that costs anything; the gate then passes the text again and forwards it as it is. */
  lemma {:induction false} ForwardedIsCosted(text: string, plan: string, cfg: Config, answer: Validation,
                                             judged: int, completed: int, layouts: Layouts)
    requires Handle(text, plan, cfg, answer, judged, completed, layouts).Sent?
    requires
      var n := ResolveQuery(text, cfg, answer).value;
      Forwarded(n, cfg, plan, completed, layouts) == n && JoinsQuery(n, true)
    ensures
      var n := ResolveQuery(text, cfg, answer).value;
      var sent := Handle(text, plan, cfg, answer, judged, completed, layouts).text;
      var back := Parse(sent);
      back == Done(Requote(n)) &&
      (Entries(back.value, cfg.model, "", 0) == Entries(n, cfg.model, "", 0) <==> ChargesKept(n, cfg.model, "")) &&
      (ChargesKept(n, cfg.model, "") ==> SummaryOf(back.value, cfg.model) == SummaryOf(n, cfg.model)) &&
      (ChargesKept(n, cfg.model, "") && !cfg.remoteValidator ==>
        Handle(sent, plan, cfg, answer, judged, completed, layouts) == Sent(Print(back.value)))
  {
    hide Parse, Print, Requote, Entries, Cost, ChargesKept, FindWindow, JoinsQuery, WfQuery;
    var n := ResolveQuery(text, cfg, answer).value;
    ResolvedForm(text, cfg, answer);
    ReadPrinted(n);
    ReportThroughText(n, cfg.model);
    forall fields, now
      ensures FindWindow(Requote(n), fields, now, layouts) == FindWindow(n, fields, now, layouts)
    {
      RequoteKeepsWindow(n, fields, now, layouts);
    }
    SameVerdict(Engine(cfg), Requote(n), n, SummaryOf(n, cfg.model), plan, judged, layouts);
    NotInjected(n, cfg, plan, completed, layouts);
    hide SummaryOf, Evaluate, Engine;
  }

  /** A query is its own forwarded tree only when nothing is injected. */
  lemma {:induction false} NotInjected(n: Node, cfg: Config, plan: string, now: int, layouts: Layouts)
    ensures Forwarded(n, cfg, plan, now, layouts) == n <==> !Injects(n, cfg, now, layouts)
  {
    assert Injected(n, cfg, plan).clauses[0].term.query == n;
  }

  /** The clause whose range is the window of a tree. */
  function WindowClause(n: Node, cfg: Config, now: int, layouts: Layouts): Option<Listed> {
    Winner(Flatten(n, cfg.dateFields), now, layouts)
  }

  /** A tree inside the limit has such a clause; and when it is reached through required
      clauses and groups alone, every document the tree matches lies in its window. */
  lemma {:induction false} MatchesInsideLimit(n: Node, cfg: Config, plan: string, d: Doc, now: int, layouts: Layouts)
    requires InsideLimit(n, cfg, plan, now, layouts)
    ensures WindowClause(n, cfg, now, layouts).Some?
    ensures
      var l := WindowClause(n, cfg, now, layouts).value;
      var w := FindWindow(n, cfg.dateFields, now, layouts).window;
      Required(n, "", l.range, l.field) && Matches(n, "", d, Setting(cfg.dateFields, now, layouts)) ==>
        l.field in d.times && w.low <= d.times[l.field] <= w.high && w.high - w.low <= WindowLimit(cfg, plan)
  {
    var s := Setting(cfg.dateFields, now, layouts);
    SearchIsScan(n, cfg.dateFields, now, layouts);
    ScanHasWinner(Flatten(n, cfg.dateFields), now, layouts);
    ListedFromClauses(n, cfg.dateFields);
    var l := WindowClause(n, cfg, now, layouts).value;
    if Required(n, "", l.range, l.field) && Matches(n, "", d, s) {
      RequiredMatches(n, "", l.range, l.field, d, s);
    }
  }
}
