/** The gate: from a query text to a denial or to the text forwarded. */
module Gate {
  import opened Ast
  import opened Grammar
  import opened Printer
  import opened CostModel
  import opened DateMath
  import opened Rules

  // ---------- configuration ----------

  datatype Plan = Plan(costLimit: real, window: string)

  datatype Config = Config(
    plans: map<string, Plan>,
    model: Model,
    forbidden: seq<string>,
    dateField: string,
    dateFields: seq<string>,
    requireWindow: bool,
    remoteValidator: bool)

  const DEFAULT_LIMIT := 100.0
  const DEFAULT_WINDOW := 30 * 24 * HOUR

  function PlanWindow(cfg: Config, plan: string): string {
    if plan in cfg.plans && cfg.plans[plan].window != "" then cfg.plans[plan].window else "30d"
  }

  function Limits(cfg: Config): map<string, real> {
    map plan | plan in cfg.plans :: cfg.plans[plan].costLimit
  }

  function Windows(cfg: Config): map<string, int> {
    map plan | plan in cfg.plans && ParseDurationHuman(cfg.plans[plan].window).Some? ::
      ParseDurationHuman(cfg.plans[plan].window).value
  }

  function WindowRule(cfg: Config): Rule {
    QueryWindow(cfg.dateFields, Windows(cfg), DEFAULT_WINDOW, cfg.requireWindow)
  }

  function Engine(cfg: Config): seq<Rule> {
    [ForbiddenFeature(cfg.forbidden), PlanLimit(Limits(cfg), DEFAULT_LIMIT), WindowRule(cfg)]
  }

  /** The engine is built by going through the plans once, in any order. */
  method BuildEngine(cfg: Config) returns (rules: seq<Rule>)
    ensures rules == Engine(cfg)
  {
    var windows: map<string, int> := map[];
    var limits: map<string, real> := map[];
    var left := cfg.plans.Keys;
    hide ParseDurationHuman;
    while left != {}
      invariant left <= cfg.plans.Keys
      invariant limits == map plan | plan in cfg.plans.Keys - left :: cfg.plans[plan].costLimit
      invariant windows.Keys == set plan | plan in Windows(cfg) && plan !in left
      invariant forall plan :: plan in windows ==> windows[plan] == Windows(cfg)[plan]
      decreases left
    {
      var plan :| plan in left;
      left := left - {plan};
      limits := limits[plan := cfg.plans[plan].costLimit];
      var d := ParseDurationHuman(cfg.plans[plan].window);
      if d.Some? {
        windows := windows[plan := d.value];
      }
    }
    assert windows == Windows(cfg) && limits == Limits(cfg);
    rules := [
      ForbiddenFeature(cfg.forbidden),
      PlanLimit(limits, DEFAULT_LIMIT),
      QueryWindow(cfg.dateFields, windows, DEFAULT_WINDOW, cfg.requireWindow)
    ];
  }

  /** The longest window the rule allows a plan. */
  function WindowLimit(cfg: Config, plan: string): int {
    if plan in Windows(cfg) then Windows(cfg)[plan] else DEFAULT_WINDOW
  }

  // ---------- injecting the default window ----------

  function InjectedField(cfg: Config): string {
    if cfg.dateField == "" then "@timestamp" else cfg.dateField
  }

  function DateClause(cfg: Config, plan: string): Clause {
    Clause(Must, InjectedField(cfg), Range("now-" + PlanWindow(cfg, plan), "now", true, true))
  }

  /** The query, required together with the plan's window on the date field. */
  function Injected(n: Node, cfg: Config, plan: string): Node {
    Boolean([Clause(Must, "", Group(n)), DateClause(cfg, plan)])
  }

  /** A window is injected where none is required and none is found. */
  predicate Injects(n: Node, cfg: Config, now: int, layouts: Layouts) {
    !cfg.requireWindow && !FindWindow(n, cfg.dateFields, now, layouts).found
  }

  /** The tree whose text is forwarded. */
  function Forwarded(n: Node, cfg: Config, plan: string, now: int, layouts: Layouts): Node {
    if Injects(n, cfg, now, layouts) then Injected(n, cfg, plan) else n
  }

  // ---------- the whole gate ----------

  /** What the remote validator answers; without one it accepts everything. */
  datatype Validation = Unreachable | Rejected | Accepted(explanation: string)

  /** The tree to be judged: that of the query, or of the validator's explanation when only the
      validator understands the query. */
  function ResolveQuery(text: string, cfg: Config, answer: Validation): Option<Node> {
    var parsed := Grammar.Parse(text);
    if parsed.Done? && !cfg.remoteValidator then Some(parsed.value)
    else match answer
      case Unreachable => None
      case Rejected => None
      case Accepted(explanation) =>
        if parsed.Done? then Some(parsed.value)
        else if explanation != "" && Grammar.Parse(explanation).Done?
        then Some(Grammar.Parse(explanation).value)
        else None
  }

  datatype Response =
    | Invalid
    | Denied(reason: Reason)
    | Sent(text: string)

  /** One request under one configuration: judged at one time, completed at a later one. */
  function Handle(text: string, plan: string, cfg: Config, answer: Validation,
                  judged: int, completed: int, layouts: Layouts): Response {
    match ResolveQuery(text, cfg, answer)
    case None => Invalid
    case Some(n) =>
      match Evaluate(Engine(cfg), n, SummaryOf(n, cfg.model), plan, judged, layouts)
      case Deny(reason) => Denied(reason)
      case Pass => Sent(Print(Forwarded(n, cfg, plan, completed, layouts)))
  }
}
