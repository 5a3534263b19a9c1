/** What the injected window adds to the cost that was judged. */
module InjectionCost {
  import opened Ast
  import opened CostModel
  import opened CostLaws
  import opened RemovalLaws
  import opened Gate
  import opened GateLaws

  /** What the range injected on the date field costs. */
  function WindowCost(cfg: Config, m: Model): real {
    m.rangeCost * FieldWeight(m, InjectedField(cfg)) * FieldWeight(m, InjectedField(cfg))
  }

  lemma {:induction false} DateClauseCost(cfg: Config, plan: string, m: Model)
    ensures ClauseCost(DateClause(cfg, plan), m, 0) == WindowCost(cfg, m)
  {
    var c, w := DateClause(cfg, plan), FieldWeight(m, InjectedField(cfg));
    assert InjectedField(cfg) != "";
    assert !IsOpenBound(c.term.low) && !IsOpenBound(c.term.high) by {
      assert c.term.low[0] == 'n' && c.term.high[0] == 'n';
    }
    hide PlanWindow, InjectedField, FieldWeight;
    assert Cost(c.term, m, c.field, 0) == m.rangeCost * w * 1.0;
  }

  /** The injected query costs the dearer of the judged query one level deeper, with the charge for
      its group, and the range of the window. */
  lemma {:induction false} InjectedCost(n: Node, cfg: Config, plan: string, m: Model)
    requires NonNegativeModel(m)
    ensures Cost(Injected(n, cfg, plan), m, "", 0) ==
            Max(Cost(n, m, "", 1) + m.depthCost, WindowCost(cfg, m))
  {
    var a, b := Clause(Must, "", Group(n)), DateClause(cfg, plan);
    var x := Cost(n, m, "", 1);
    CostNonNegative(n, m, "", 1);
    GroupCost(n, m);
    DateClauseCost(cfg, plan, m);
    hide Cost, ClauseCost, WindowCost;
    PairCosts(a, b, m, "", 0);
  }

  lemma {:induction false} GroupCost(n: Node, m: Model)
    ensures ClauseCost(Clause(Must, "", Group(n)), m, 0) == Cost(n, m, "", 1) + m.depthCost
  {
    assert DepthBonus(m, 0) == m.depthCost * 1.0;
  }

  /** A query costs no less deeper down. */
  lemma {:induction false} DeeperCost(n: Node, m: Model, field: string, depth: nat)
    requires NonNegativeModel(m)
    ensures Cost(n, m, field, depth) <= Cost(n, m, field, depth + 1)
    decreases n, 0
  {
    match n
    case Group(q) =>
      DeeperCost(q, m, field, depth + 1);
      MulMonotone((depth + 1) as real, (depth + 2) as real, m.depthCost);
    case Single(c) => DeeperClause(c, m, depth);
    case Boolean(cs) =>
      DeeperParts(cs, m, depth);
      PartsNonNegative(cs, m, depth + 1);
      GrowsTotal(Parts(cs, m, depth), Parts(cs, m, depth + 1), m);
    case _ =>
  }

  lemma {:induction false} DeeperClause(c: Clause, m: Model, depth: nat)
    ensures NonNegativeModel(m) ==> ClauseCost(c, m, depth) <= ClauseCost(c, m, depth + 1)
    decreases c, 0
  {
    if NonNegativeModel(m) {
      DeeperCost(c.term, m, c.field, depth);
      TotalMonotone(Cost(c.term, m, c.field, depth), Cost(c.term, m, c.field, depth + 1), c.occur, c.field, m);
    }
  }

  lemma {:induction false} DeeperParts(cs: seq<Clause>, m: Model, depth: nat)
    requires NonNegativeModel(m)
    ensures Grows(Parts(cs, m, depth), Parts(cs, m, depth + 1))
    decreases cs, 0
  {
    if cs != [] {
      DeeperClause(cs[0], m, depth);
      DeeperParts(cs[1..], m, depth);
      assert Parts(cs, m, depth)[1..] == Parts(cs[1..], m, depth);
      assert Parts(cs, m, depth + 1)[1..] == Parts(cs[1..], m, depth + 1);
    }
  }

  /** Injecting never makes a query cheaper than it was judged, and by the charge for the group at
      least dearer. */
  lemma {:induction false} InjectedDearer(n: Node, cfg: Config, plan: string, m: Model)
    requires NonNegativeModel(m)
    ensures Cost(Injected(n, cfg, plan), m, "", 0) >= Cost(n, m, "", 0) + m.depthCost
    ensures SummaryOf(Injected(n, cfg, plan), m).cost >= SummaryOf(n, m).cost
  {
    InjectedCost(n, cfg, plan, m);
    DeeperCost(n, m, "", 0);
    RoundMonotone(Cost(n, m, "", 0), Cost(Injected(n, cfg, plan), m, "", 0));
  }

  /** Judged again, the injected query passes the cost limit of its plan exactly when the deeper
      query with its group and the window's range do. */
  lemma {:induction false} InjectedPassesCost(n: Node, cfg: Config, plan: string)
    requires NonNegativeModel(cfg.model)
    ensures SummaryOf(Injected(n, cfg, plan), cfg.model).cost <= PlanCost(cfg, plan) <==>
            Round(Cost(n, cfg.model, "", 1) + cfg.model.depthCost) <= PlanCost(cfg, plan) &&
            Round(WindowCost(cfg, cfg.model)) <= PlanCost(cfg, plan)
  {
    var (x, y) := (Cost(n, cfg.model, "", 1) + cfg.model.depthCost, WindowCost(cfg, cfg.model));
    InjectedCost(n, cfg, plan, cfg.model);
    hide Cost, WindowCost, Round;
    if x >= y {
      RoundMonotone(y, x);
    } else {
      RoundMonotone(x, y);
    }
  }

  /** Under the default model the word x costs 2, which a limit of 2 allows; with the window of its
      plan injected it costs 5, which the same limit denies. */
  lemma {:induction false} InjectedThenDenied(cfg: Config, plan: string)
    requires cfg.model == DEFAULT_MODEL && cfg.dateField == "" && PlanCost(cfg, plan) == 2.0
    ensures
      var n := Term("x", false, false);
      SummaryOf(n, cfg.model).cost <= PlanCost(cfg, plan) &&
      Cost(Injected(n, cfg, plan), cfg.model, "", 0) == 5.0 &&
      SummaryOf(Injected(n, cfg, plan), cfg.model).cost > PlanCost(cfg, plan)
  {
    var n, m := Term("x", false, false), DEFAULT_MODEL;
    WordCosts(cfg, m);
    hide Cost, WindowCost, NonNegativeModel, SummaryOf;
    InjectedCost(n, cfg, plan, m);
    WholeCosts(n, m, 2);
    WholeCosts(Injected(n, cfg, plan), m, 5);
  }

  lemma {:induction false} WordCosts(cfg: Config, m: Model)
    requires m == DEFAULT_MODEL && cfg.dateField == ""
    ensures
      var n := Term("x", false, false);
      Cost(n, m, "", 0) == 2.0 && Cost(n, m, "", 1) == 2.0
    ensures WindowCost(cfg, m) == 5.0 && m.depthCost == 1.0 && NonNegativeModel(m)
  {
    WordCost(m);
    DefaultNonNegative();
    hide Cost, NonNegativeModel;
    UnlistedField(m, "@timestamp");
    hide FieldWeight;
    assert InjectedField(cfg) == "@timestamp";
  }

  lemma WordCost(m: Model)
    ensures m.termCost == 1.0 && m.defaultSearchFieldPenalty == 2.0 ==>
      Cost(Term("x", false, false), m, "", 0) == 2.0 && Cost(Term("x", false, false), m, "", 1) == 2.0
  {
  }

  lemma UnlistedField(m: Model, field: string)
    ensures m == DEFAULT_MODEL && |field| > 3 ==> FieldWeight(m, field) == 1.0
  {
    if m == DEFAULT_MODEL && |field| > 3 {
      assert field !in m.fieldWeights;
    }
  }
}
