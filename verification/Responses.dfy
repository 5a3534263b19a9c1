/** The gate's whole answer, and what it takes for granted when a configuration leaves it open. */
module Responses {
  import opened Ast
  import opened Grammar
  import opened Printer
  import opened CostModel
  import opened DateMath
  import opened Rules
  import opened WindowSearch
  import opened RuleLaws
  import opened Gate
  import opened InjectionLaws
  import opened GateLaws

  // ---------- the reason of a denial ----------

  /** What is wrong with the first window of a tree, if anything is. */
  function WindowFault(n: Node, cfg: Config, plan: string, now: int, layouts: Layouts): Option<Reason> {
    var s := Scan(Flatten(n, cfg.dateFields), now, layouts);
    var (low, high) := (s.window.low, s.window.high);
    if s.failed then Some(BadBound)
    else if !s.found && cfg.requireWindow then Some(NoDateWindow)
    else if s.found && (low == 0 || high == 0) then Some(OpenWindow)
    else if s.found && high - low > WindowLimit(cfg, plan) then Some(LongWindow)
    else None
  }

  /** The whole answer under the default features: the first that applies of a bare star, a range
      open at both ends, the cost, and a fault of the window is the reason; otherwise the text of
      the tree, or of that with a window, is sent. */
  lemma {:induction false} ResponseExactly(text: string, plan: string, cfg: Config, answer: Validation,
                                           judged: int, completed: int, layouts: Layouts)
    requires cfg.forbidden == ["match_all", "open_range"] && ResolveQuery(text, cfg, answer).Some?
    requires cfg.model.matchAllCost > 0.0 && cfg.model.openRangeCost > 0.0 && PositiveWeights(cfg.model)
    ensures
      var n := ResolveQuery(text, cfg, answer).value;
      Handle(text, plan, cfg, answer, judged, completed, layouts) ==
      if HasStar(n) then Denied(Feature("match_all"))
      else if HasOpenRange(n) then Denied(Feature("open_range"))
      else if SummaryOf(n, cfg.model).cost > PlanCost(cfg, plan) then Denied(CostLimit)
      else match WindowFault(n, cfg, plan, judged, layouts)
        case Some(reason) => Denied(reason)
        case None => Sent(Print(Forwarded(n, cfg, plan, completed, layouts)))
  {
    var n := ResolveQuery(text, cfg, answer).value;
    FeaturesJudged(n, cfg.model);
    ThreeVerdicts(n, SummaryOf(n, cfg.model), cfg, plan, judged, layouts);
    WindowJudged(n, cfg, plan, judged, layouts);
    hide SummaryOf, HasStar, HasOpenRange, FeatureVerdict, WindowVerdict, WindowFault, ResolveQuery, Forwarded;
    hide Evaluate, Engine, PlanCost, Print;
  }

  lemma {:induction false} ThreeVerdicts(n: Node, s: Summary, cfg: Config, plan: string, now: int, layouts: Layouts)
    ensures
      var feature := FeatureVerdict(cfg.forbidden, s.breakdown);
      Evaluate(Engine(cfg), n, s, plan, now, layouts) ==
      if feature.Deny? then feature
      else if s.cost > PlanCost(cfg, plan) then Deny(CostLimit)
      else WindowVerdict(WindowRule(cfg), n, plan, now, layouts)
  {
    hide FeatureVerdict, WindowVerdict, Windows;
    var e := Engine(cfg);
    assert e[1..] == [e[1], e[2]] && e[1..][1..] == [e[2]] && e[1..][1..][1..] == [];
    assert Evaluate(e[1..][1..], n, s, plan, now, layouts) == WindowVerdict(e[2], n, plan, now, layouts);
  }

  lemma {:induction false} WindowJudged(n: Node, cfg: Config, plan: string, now: int, layouts: Layouts)
    ensures WindowVerdict(WindowRule(cfg), n, plan, now, layouts) ==
            match WindowFault(n, cfg, plan, now, layouts)
            case Some(reason) => Deny(reason)
            case None => Pass
  {
    SearchIsScan(n, cfg.dateFields, now, layouts);
    hide FindWindow, Scan, Windows;
  }

  // ---------- which text is judged ----------

  /** A query the local parser cannot read is answered as the validator's explanation would be, if
      there is one that can be read, and is invalid otherwise. */
  lemma {:induction false} ExplanationJudged(text: string, plan: string, cfg: Config, answer: Validation,
                                             judged: int, completed: int, layouts: Layouts)
    requires Parse(text).Failed?
    ensures
      Handle(text, plan, cfg, answer, judged, completed, layouts) ==
      match answer
      case Accepted(e) =>
        if e == "" || Parse(e).Failed? then Invalid
        else Handle(e, plan, cfg.(remoteValidator := false), answer, judged, completed, layouts)
      case _ => Invalid
  {
    var cfg' := cfg.(remoteValidator := false);
    SameEngine(cfg, cfg');
    if answer.Accepted? && answer.explanation != "" && Parse(answer.explanation).Done? {
      SameForwarded(Parse(answer.explanation).value, cfg, cfg', plan, completed, layouts);
    }
    hide Parse, Evaluate, Engine, SummaryOf, Forwarded, Print;
  }

  /** A query the local parser reads is invalid only if a remote validator does not accept it. */
  lemma ReadQueryValid(text: string, plan: string, cfg: Config, answer: Validation,
                       judged: int, completed: int, layouts: Layouts)
    requires Parse(text).Done?
    ensures Handle(text, plan, cfg, answer, judged, completed, layouts) == Invalid <==>
            cfg.remoteValidator && !answer.Accepted?
  {
    hide Parse, Evaluate, Engine, SummaryOf, Forwarded, Print;
  }

  // ---------- what is taken for granted ----------

  /** A plan that is not configured is one with a limit of 100 and a window of 30 days. */
  lemma {:induction false} UnknownPlan(text: string, plan: string, cfg: Config, answer: Validation,
                                       judged: int, completed: int, layouts: Layouts)
    requires plan !in cfg.plans
    ensures Handle(text, plan, cfg, answer, judged, completed, layouts) ==
            Handle(text, plan, cfg.(plans := cfg.plans[plan := Plan(100.0, "30d")]), answer, judged, completed, layouts)
  {
    var cfg' := cfg.(plans := cfg.plans[plan := Plan(100.0, "30d")]);
    ThirtyDays();
    hide ParseDurationHuman;
    assert plan !in Windows(cfg) && plan in Windows(cfg') && Windows(cfg')[plan] == DEFAULT_WINDOW;
    if ResolveQuery(text, cfg, answer).Some? {
      var n := ResolveQuery(text, cfg, answer).value;
      var s := SummaryOf(n, cfg.model);
      ThreeVerdicts(n, s, cfg, plan, judged, layouts);
      ThreeVerdicts(n, s, cfg', plan, judged, layouts);
      SameWindowVerdict(n, cfg, cfg', plan, judged, layouts);
    }
    hide SummaryOf, Evaluate, Engine, Print, FeatureVerdict, WindowVerdict, WindowRule, Windows;
  }

  lemma SameWindowVerdict(n: Node, cfg: Config, cfg': Config, plan: string, now: int, layouts: Layouts)
    requires cfg'.dateFields == cfg.dateFields && cfg'.requireWindow == cfg.requireWindow
    requires WindowLimit(cfg', plan) == WindowLimit(cfg, plan)
    ensures WindowVerdict(WindowRule(cfg), n, plan, now, layouts) == WindowVerdict(WindowRule(cfg'), n, plan, now, layouts)
  {
    hide Windows, FindWindow;
  }

  /** The injected text, spelled out: the window of the plan, or 30 days, on the configured field,
      or on the time stamp. */
  lemma {:induction false} InjectedSpelled(n: Node, cfg: Config, plan: string)
    ensures
      var field := if cfg.dateField == "" then "@timestamp" else cfg.dateField;
      var window := if plan in cfg.plans && cfg.plans[plan].window != "" then cfg.plans[plan].window else "30d";
      Print(Injected(n, cfg, plan)) == "+(" + Print(n) + ") +" + field + ":[now-" + window + " TO now]"
  {
    InjectedText(n, cfg, plan);
    var (f, w) := (InjectedField(cfg), PlanWindow(cfg, plan));
    assert PrintClause(DateClause(cfg, plan)) == "+" + (f + ":") + ("[" + ("now-" + w) + " TO " + "now" + "]");
    hide Print, PrintClause, DateClause;
    Rejoined(Print(n), f, w);
  }

  lemma Rejoined(q: string, f: string, w: string)
    ensures "+(" + q + (") " + ("+" + (f + ":") + ("[" + ("now-" + w) + " TO " + "now" + "]"))) ==
            "+(" + q + ") +" + f + ":[now-" + w + " TO now]"
  {
  }

  /** Nothing is injected where a window is required. */
  lemma NothingInjected(n: Node, cfg: Config, plan: string, now: int, layouts: Layouts)
    ensures cfg.requireWindow ==> Forwarded(n, cfg, plan, now, layouts) == n
  {
  }
}
