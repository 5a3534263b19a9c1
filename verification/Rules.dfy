/** The rules a query must pass: forbidden features, a cost limit and a time window. */
module Rules {
  import opened Ast
  import opened CostModel
  import opened DateMath

  // ---------- finding a window ----------

  /** The outcome of looking for a date window in a tree. */
  datatype Search = Search(window: Window, found: bool, failed: bool)

  const NOTHING := Search(NO_WINDOW, false, false)
  const FAILURE := Search(NO_WINDOW, false, true)

  function SearchRange(low: string, high: string, onDateField: bool, now: int, layouts: Layouts): Search {
    match ParseWindow(low, high, now, layouts)
    case None => Search(NO_WINDOW, onDateField, true)
    case Some(w) => Search(w, onDateField, false)
  }

  function FindWindow(n: Node, fields: seq<string>, now: int, layouts: Layouts): Search
    decreases n, 0
  {
    match n
    case Range(low, high, _, _) => SearchRange(low, high, false, now, layouts)
    case Single(c) => FindInClause(c, fields, now, layouts)
    case Boolean(cs) => FindInClauses(cs, fields, now, layouts)
    case Group(q) => FindWindow(q, fields, now, layouts)
    case _ => NOTHING
  }

  function FindInClause(c: Clause, fields: seq<string>, now: int, layouts: Layouts): Search
    decreases c, 0
  {
    if c.field in fields && c.term.Range? then
      SearchRange(c.term.low, c.term.high, true, now, layouts)
    else FindWindow(c.term, fields, now, layouts)
  }

  /** The first clause that fails or has a window decides. */
  function FindInClauses(cs: seq<Clause>, fields: seq<string>, now: int, layouts: Layouts): Search
    decreases cs, 0
  {
    if cs == [] then NOTHING else
    var s := FindInClause(cs[0], fields, now, layouts);
    if s.failed then FAILURE
    else if s.found then s
    else FindInClauses(cs[1..], fields, now, layouts)
  }

  // ---------- the rules ----------

  datatype Reason =
    | Feature(name: string)
    | CostLimit
    | NoDateWindow
    | BadBound
    | OpenWindow
    | LongWindow

  datatype Verdict = Pass | Deny(reason: Reason)

  datatype Rule =
    | ForbiddenFeature(features: seq<string>)
    | PlanLimit(limits: map<string, real>, defaultLimit: real)
    | QueryWindow(dateFields: seq<string>, windows: map<string, int>, defaultWindow: int, requireWindow: bool)

  function FeatureVerdict(features: seq<string>, breakdown: map<string, real>): Verdict {
    if features == [] then Pass
    else if features[0] in breakdown && breakdown[features[0]] > 0.0 then Deny(Feature(features[0]))
    else FeatureVerdict(features[1..], breakdown)
  }

  function CostVerdict(limits: map<string, real>, defaultLimit: real, cost: real, plan: string): Verdict {
    var limit := if plan in limits then limits[plan] else defaultLimit;
    if cost > limit then Deny(CostLimit) else Pass
  }

  function WindowVerdict(r: Rule, n: Node, plan: string, now: int, layouts: Layouts): Verdict
    requires r.QueryWindow?
  {
    var limit := if plan in r.windows then r.windows[plan] else r.defaultWindow;
    var s := FindWindow(n, r.dateFields, now, layouts);
    if s.failed then Deny(BadBound)
    else if !s.found then (if r.requireWindow then Deny(NoDateWindow) else Pass)
    else match WindowLength(s.window)
      case None => Deny(OpenWindow)
      case Some(d) => if d > limit then Deny(LongWindow) else Pass
  }

  function RuleVerdict(r: Rule, n: Node, s: Summary, plan: string, now: int, layouts: Layouts): Verdict {
    match r
    case ForbiddenFeature(features) => FeatureVerdict(features, s.breakdown)
    case PlanLimit(limits, defaultLimit) => CostVerdict(limits, defaultLimit, s.cost, plan)
    case QueryWindow(_, _, _, _) => WindowVerdict(r, n, plan, now, layouts)
  }

  /** The first rule that denies decides. */
  function Evaluate(rules: seq<Rule>, n: Node, s: Summary, plan: string, now: int, layouts: Layouts): Verdict {
    if rules == [] then Pass else
    var v := RuleVerdict(rules[0], n, s, plan, now, layouts);
    if v.Deny? then v else Evaluate(rules[1..], n, s, plan, now, layouts)
  }

  /** A query passes exactly when every rule passes it. */
  lemma {:induction false} EvaluatePasses(rules: seq<Rule>, n: Node, s: Summary, plan: string,
                                          now: int, layouts: Layouts)
    ensures Evaluate(rules, n, s, plan, now, layouts).Pass? <==>
            forall r :: r in rules ==> RuleVerdict(r, n, s, plan, now, layouts).Pass?
  {
    if rules != [] {
      EvaluatePasses(rules[1..], n, s, plan, now, layouts);
      assert rules == [rules[0]] + rules[1..];
    }
  }

  lemma {:induction false} FeaturePasses(features: seq<string>, breakdown: map<string, real>)
    ensures FeatureVerdict(features, breakdown).Pass? <==>
            forall f :: f in features && f in breakdown ==> breakdown[f] <= 0.0
  {
    if features != [] {
      FeaturePasses(features[1..], breakdown);
      assert features == [features[0]] + features[1..];
    }
  }
}
