/** The cost of a query is bounded by the length of its text: linearly, plus a quadratic term
    for nested groups. */
module CostByLength {
  import opened Text
  import opened Ast
  import opened Grammar
  import opened NormalForm
  import opened Conservation
  import opened CostModel
  import opened CostLaws
  import opened ReportLaws

  /** The number of bytes a tree takes at least. */
  function Bytes(n: Node): nat {
    WeighNode(n, AllBytes)
  }

  lemma {:induction false} BytesOfString(s: string)
    ensures Weigh(s, AllBytes) == |s|
  {
    if s != "" {
      BytesOfString(s[1..]);
    }
  }

  // ---------- repeated amounts ----------

  /** The amount r taken n times. */
  function Times(n: nat, r: real): real {
    if n == 0 then 0.0 else r + Times(n - 1, r)
  }

  lemma {:induction false} TimesProduct(n: nat, r: real)
    ensures Times(n, r) == n as real * r
  {
    if n > 0 {
      TimesProduct(n - 1, r);
      var x := (n - 1) as real;
      assert n as real == x + 1.0;
      assert (x + 1.0) * r == x * r + r;
    }
  }

  lemma {:induction false} TimesSum(a: nat, b: nat, r: real)
    ensures Times(a + b, r) == Times(a, r) + Times(b, r)
  {
    if a > 0 {
      TimesSum(a - 1, b, r);
    }
  }

  lemma {:induction false} TimesMonotone(a: nat, b: nat, r: real, t: real)
    requires a <= b && 0.0 <= r <= t
    ensures 0.0 <= Times(a, r) <= Times(b, t)
    decreases b
  {
    if a > 0 {
      TimesMonotone(a - 1, b - 1, r, t);
    } else if b > 0 {
      TimesMonotone(0, b - 1, r, t);
    }
  }

  lemma {:induction false} TimesAdd(n: nat, r: real, t: real)
    ensures Times(n, r + t) == Times(n, r) + Times(n, t)
  {
    if n > 0 {
      TimesAdd(n - 1, r, t);
    }
  }

  // ---------- leaves ----------

  function Penalty(m: Model): real {
    Max(1.0, m.defaultSearchFieldPenalty)
  }

  /** A leaf without wildcards on a light field costs at most this. */
  function BaseRate(cost: real, m: Model): real {
    cost * Penalty(m)
  }

  function ScaledUp(cost: real, f: real): real {
    cost * Max(1.0, f)
  }

  function WildRate(base: real, m: Model): real {
    ScaledUp(base, m.wildcardMultiplier) + m.leadingWildcardCost
  }

  function KeywordRate(cost: real, m: Model): real {
    ScaledUp(cost, m.keywordWildcardMultiplier)
  }

  function TermRate(m: Model): real {
    KeywordRate(WildRate(BaseRate(m.termCost, m), m), m)
  }

  /** What a leaf can cost for each of its bytes. */
  function LeafRate(m: Model): real {
    m.matchAllCost + TermRate(m) + BaseRate(m.phraseCost, m) + m.openRangeCost + BaseRate(m.rangeCost, m)
  }

  /** Scaling by a factor or by one. */
  lemma {:induction false} ScaleUp(a: real, b: real, f: real)
    requires 0.0 <= a <= b && f >= 0.0
    ensures b <= ScaledUp(b, f) && 0.0 <= a * f <= ScaledUp(b, f)
  {
    var g := Max(1.0, f);
    MulNonNegative(a, f);
    MulMonotone(a, b, f);
    MulNonNegative(b, g - f);
    MulNonNegative(b, g - 1.0);
    assert b * (g - f) == b * g - b * f && b * (g - 1.0) == b * g - b;
  }

  lemma {:induction false} ThreeFactors(a: real, w: real, p: real, q: real)
    requires a >= 0.0 && 0.0 <= w <= 1.0 && 0.0 <= p <= q
    ensures 0.0 <= a * w <= a && 0.0 <= a * w * p <= a * q
  {
    MulLight(a, w);
    var b := a * w;
    MulNonNegative(b, p);
    MulMonotone(b, a, p);
    MulNonNegative(a, q - p);
    assert a * (q - p) == a * q - a * p;
  }

  lemma {:induction false} BaseBound(a: real, m: Model, field: string)
    requires NonNegativeModel(m) && LightFields(m) && a >= 0.0
    ensures
      var (w, p) := (FieldWeight(m, field), DefaultPenalty(m, field));
      0.0 <= a * w <= a && 0.0 <= a * w * p <= BaseRate(a, m)
  {
    assert 0.0 <= FieldWeight(m, field) <= 1.0 && 0.0 <= DefaultPenalty(m, field) <= Penalty(m);
    hide FieldWeight, DefaultPenalty, Penalty;
    ThreeFactors(a, FieldWeight(m, field), DefaultPenalty(m, field), Penalty(m));
  }

  /** The cost of a term, from what it would cost without wildcards. */
  lemma {:induction false} WildBound(base: real, most: real, leading: bool, m: Model)
    requires NonNegativeModel(m) && 0.0 <= base <= most
    ensures
      var cost := base * m.wildcardMultiplier + (if leading then m.leadingWildcardCost else 0.0);
      var top := KeywordRate(WildRate(most, m), m);
      0.0 <= base <= top && 0.0 <= cost <= top && 0.0 <= cost * m.keywordWildcardMultiplier <= top
  {
    hide ScaledUp, Max;
    ScaleUp(base, most, m.wildcardMultiplier);
    var cost := base * m.wildcardMultiplier + (if leading then m.leadingWildcardCost else 0.0);
    var wild := WildRate(most, m);
    assert most <= wild && 0.0 <= cost <= wild;
    ScaleUp(cost, wild, m.keywordWildcardMultiplier);
    assert wild <= KeywordRate(wild, m);
  }

  lemma {:induction false} TermBound(v: string, wildcard: bool, m: Model, field: string)
    requires NonNegativeModel(m) && LightFields(m)
    ensures TermAmount(v, wildcard, m, field) <= m.matchAllCost + TermRate(m)
    ensures TermRate(m) >= 0.0
  {
    hide ScaledUp, BaseRate, KeywordRate, FieldWeight, DefaultPenalty;
    BaseBound(m.termCost, m, field);
    var base := m.termCost * FieldWeight(m, field) * DefaultPenalty(m, field);
    WildBound(base, BaseRate(m.termCost, m), StartsWithWildcard(v), m);
  }

  lemma {:induction false} WordCountBound(v: string, inWord: bool)
    ensures WordCount(v, inWord) <= |v|
  {
    if v != "" {
      WordCountBound(v[1..], !IsSpace(v[0]));
    }
  }

  lemma {:induction false} PhraseBound(v: string, m: Model, field: string)
    requires NonNegativeModel(m) && LightFields(m)
    ensures PhraseEntry(v, m, field).amount <= Times(|v| + 2, BaseRate(m.phraseCost, m))
  {
    WordCountBound(v, false);
    var (k, r) := (PhraseWords(v), BaseRate(m.phraseCost, m));
    assert k <= |v| + 2;
    hide WordCount, PhraseWords;
    PhraseRate(v, m, field);
    RateNonNegative(m.phraseCost, m);
    hide PhraseEntry, BaseRate, LightFields;
    TimesMonotone(k, |v| + 2, r, r);
  }

  lemma {:induction false} RateNonNegative(a: real, m: Model)
    requires a >= 0.0
    ensures BaseRate(a, m) >= 0.0
  {
    MulNonNegative(a, Penalty(m));
  }

  lemma {:induction false} PhraseRate(v: string, m: Model, field: string)
    requires NonNegativeModel(m) && LightFields(m)
    ensures PhraseEntry(v, m, field).amount <= Times(PhraseWords(v), BaseRate(m.phraseCost, m))
  {
    var x := m.phraseCost * PhraseWords(v) as real;
    var (w, p) := (FieldWeight(m, field), DefaultPenalty(m, field));
    assert PhraseEntry(v, m, field).amount == x * w * p by {
      hide PhraseWords, FieldWeight, DefaultPenalty;
    }
    hide PhraseEntry, PhraseWords, BaseRate, Times;
    MulNonNegative(m.phraseCost, PhraseWords(v) as real);
    assert x * w * p <= BaseRate(x, m) by {
      BaseBound(x, m, field);
      hide FieldWeight, DefaultPenalty;
    }
    hide FieldWeight, DefaultPenalty;
    BaseTimes(m.phraseCost, PhraseWords(v), m);
  }

  lemma {:induction false} BaseTimes(a: real, k: nat, m: Model)
    ensures BaseRate(a * k as real, m) == Times(k, BaseRate(a, m))
  {
    TimesProduct(k, BaseRate(a, m));
    ThreeProduct(a, k as real, Penalty(m));
  }

  lemma ThreeProduct(a: real, b: real, c: real)
    ensures a * b * c == b * (a * c)
  {
  }

  lemma {:induction false} RatesNonNegative(m: Model)
    requires NonNegativeModel(m)
    ensures TermRate(m) >= 0.0 && BaseRate(m.phraseCost, m) >= 0.0 && BaseRate(m.rangeCost, m) >= 0.0
    ensures LeafRate(m) >= 0.0
  {
    MulNonNegative(m.phraseCost, Penalty(m));
    MulNonNegative(m.rangeCost, Penalty(m));
    MulNonNegative(m.termCost, Penalty(m));
    WildBound(0.0, BaseRate(m.termCost, m), false, m);
  }

  lemma {:induction false} RangeBound(low: string, high: string, m: Model, field: string)
    requires NonNegativeModel(m) && LightFields(m)
    ensures RangeEntry(low, high, m, field).amount <= LeafRate(m)
  {
    var w, p := FieldWeight(m, field), DefaultPenalty(m, field);
    var open, closed := m.openRangeCost * w, m.rangeCost * w * p;
    MulLight(m.openRangeCost, w);
    hide FieldWeight, DefaultPenalty;
    var amount := RangeEntry(low, high, m, field).amount;
    assert amount == open || amount == closed;
    hide RangeEntry;
    RangeRates(open, closed, m, field);
  }

  lemma {:induction false} RangeRates(open: real, closed: real, m: Model, field: string)
    requires NonNegativeModel(m) && LightFields(m)
    requires open <= m.openRangeCost
    requires closed == m.rangeCost * FieldWeight(m, field) * DefaultPenalty(m, field)
    ensures open <= LeafRate(m) && closed <= LeafRate(m)
  {
    hide BaseRate, TermRate, FieldWeight, DefaultPenalty;
    RatesNonNegative(m);
    BaseBound(m.rangeCost, m, field);
  }

  lemma {:induction false} LeafHasBytes(n: Node)
    requires IsLeaf(n) && WfTerm(n)
    ensures Bytes(n) >= 1 && (n.Phrase? ==> Bytes(n) == |n.value| + 2)
  {
    match n
    case Range(low, _, _, _) => BytesOfString(low);
    case Term(v, _, _) => BytesOfString(v);
    case Phrase(v) => BytesOfString(v);
  }

  lemma {:induction false} LeafBound(n: Node, m: Model, field: string)
    requires IsLeaf(n) && WfTerm(n) && NonNegativeModel(m) && LightFields(m)
    ensures Bytes(n) >= 1 && LeafEntry(n, m, field).amount <= Times(Bytes(n), LeafRate(m))
  {
    LeafHasBytes(n);
    RatesNonNegative(m);
    OnePart(LeafRate(m), Bytes(n));
    match n
    case Term(v, wildcard, _) => TermBound(v, wildcard, m, field);
    case Phrase(v) =>
      PhraseBound(v, m, field);
      TimesMonotone(|v| + 2, Bytes(n), BaseRate(m.phraseCost, m), LeafRate(m));
    case Range(low, high, _, _) => RangeBound(low, high, m, field);
  }

  lemma {:induction false} OnePart(r: real, n: nat)
    ensures n >= 1 && r >= 0.0 ==> r <= Times(n, r)
  {
    if n >= 1 && r >= 0.0 {
      TimesMonotone(0, n - 1, r, r);
    }
  }

  // ---------- groups ----------

  function Groups(n: Node): nat
    decreases n, 0
  {
    match n
    case Group(q) => 1 + Groups(q)
    case Single(c) => Groups(c.term)
    case Boolean(cs) => ClauseGroups(cs)
    case _ => 0
  }

  function ClauseGroups(cs: seq<Clause>): nat
    decreases cs, 0
  {
    if cs == [] then 0 else Groups(cs[0].term) + ClauseGroups(cs[1..])
  }

  lemma {:induction false} GroupsByBytes(n: Node)
    ensures 2 * Groups(n) <= Bytes(n)
    decreases n, 0
  {
    match n
    case Group(q) => GroupsByBytes(q);
    case Single(c) =>
      GroupsByBytes(c.term);
      assert Bytes(n) == WeighClause(c, AllBytes);
    case Boolean(cs) => ClauseGroupsByBytes(cs);
    case _ =>
  }

  lemma {:induction false} ClauseGroupsByBytes(cs: seq<Clause>)
    ensures 2 * ClauseGroups(cs) <= WeighClauses(cs, AllBytes)
    decreases cs, 0
  {
    if cs != [] {
      GroupsByBytes(cs[0].term);
      ClauseGroupsByBytes(cs[1..]);
    }
  }

  /** The nodes of a tree, clauses included. */
  function Nodes(n: Node): nat
    decreases n, 0
  {
    match n
    case Nil => 0
    case Group(q) => 1 + Nodes(q)
    case Single(c) => 1 + Nodes(c.term)
    case Boolean(cs) => 1 + ClauseNodes(cs)
    case _ => 1
  }

  function ClauseNodes(cs: seq<Clause>): nat
    decreases cs, 0
  {
    if cs == [] then 0 else 1 + Nodes(cs[0].term) + ClauseNodes(cs[1..])
  }

  lemma {:induction false} NodesByBytes(q: Node)
    requires WfQuery(q)
    ensures Nodes(q) <= 2 * Bytes(q) + 1
    ensures WfTerm(q) ==> Nodes(q) + 1 <= 2 * Bytes(q)
    decreases q, 0
  {
    match q
    case Group(inner) => NodesByBytes(inner);
    case Single(c) =>
      TermIsQuery(c.term);
      NodesByBytes(c.term);
      assert Bytes(q) == WeighClause(c, AllBytes);
    case Boolean(cs) => ClauseNodesByBytes(cs);
    case _ => LeafHasBytes(q);
  }

  lemma {:induction false} ClauseNodesByBytes(cs: seq<Clause>)
    requires WfClauses(cs)
    ensures ClauseNodes(cs) <= 2 * WeighClauses(cs, AllBytes)
    decreases cs, 0
  {
    if cs != [] {
      TermIsQuery(cs[0].term);
      NodesByBytes(cs[0].term);
      ClauseNodesByBytes(cs[1..]);
    }
  }

  /** The tree of a text of n bytes has at most 2n + 1 nodes and n / 2 groups. */
  lemma {:induction false} TreeByTextLength(s: string)
    requires Parse(s).Done?
    ensures Nodes(Parse(s).value) <= 2 * |s| + 1 && 2 * Groups(Parse(s).value) <= |s|
  {
    hide Parse, WfQuery, WeighNode, Groups, Nodes;
    ParseForm(s);
    ParseWeighs(s, AllBytes);
    BytesOfString(s);
    NodesByBytes(Parse(s).value);
    GroupsByBytes(Parse(s).value);
  }

  /** The bonuses of g groups nested in one another below depth d. */
  function DepthShare(m: Model, g: nat, d: nat): real
    decreases g
  {
    if g == 0 then 0.0 else DepthBonus(m, d) + DepthShare(m, g - 1, d + 1)
  }

  lemma {:induction false} DeeperCostsMore(m: Model, g: nat, d: nat, e: nat)
    requires NonNegativeModel(m) && d <= e
    ensures 0.0 <= DepthShare(m, g, d) <= DepthShare(m, g, e)
    decreases g
  {
    if g > 0 {
      BonusMonotone(m, d, e);
      DeeperCostsMore(m, g - 1, d + 1, e + 1);
    }
  }

  lemma {:induction false} BonusMonotone(m: Model, d: nat, e: nat)
    requires NonNegativeModel(m) && d <= e
    ensures 0.0 <= DepthBonus(m, d) <= DepthBonus(m, e)
  {
    var x, y := (d + 1) as real, (e + 1) as real;
    MulNonNegative(m.depthCost, x);
    MulNonNegative(m.depthCost, y - x);
    assert m.depthCost * (y - x) == m.depthCost * y - m.depthCost * x;
  }

  /** Groups side by side cost no more than nested. */
  lemma {:induction false} DepthOfList(m: Model, g: nat, h: nat, d: nat)
    requires NonNegativeModel(m)
    ensures DepthShare(m, g, d) + DepthShare(m, h, d) <= DepthShare(m, g + h, d)
    decreases g
  {
    if g > 0 {
      DepthOfList(m, g - 1, h, d + 1);
      DeeperCostsMore(m, h, d, d + 1);
    }
  }

  /** The sum of the depths from d + 1 to d + g. */
  function DepthSum(g: nat, d: nat): nat
    decreases g
  {
    if g == 0 then 0 else d + 1 + DepthSum(g - 1, d + 1)
  }

  lemma {:induction false} DepthShareIs(m: Model, g: nat, d: nat)
    ensures DepthShare(m, g, d) == m.depthCost * DepthSum(g, d) as real
    decreases g
  {
    if g > 0 {
      DepthShareIs(m, g - 1, d + 1);
      var x, y := (d + 1) as real, DepthSum(g - 1, d + 1) as real;
      Distribute(m.depthCost, x, y);
      var z := DepthSum(g, d) as real;
      assert z == x + y;
      assert DepthShare(m, g, d) == m.depthCost * x + m.depthCost * y;
      assert m.depthCost * z == m.depthCost * (x + y);
    }
  }

  lemma Distribute(a: real, x: real, y: real)
    ensures a * (x + y) == a * x + a * y
  {
  }

  lemma {:induction false} DepthSumIs(g: nat, d: nat)
    ensures 2 * DepthSum(g, d) == g * (2 * d + g + 1)
    decreases g
  {
    if g > 0 {
      DepthSumIs(g - 1, d + 1);
      DepthSumStep(g, d);
    }
  }

  lemma DepthSumStep(g: int, d: int)
    ensures (g - 1) * (2 * d + g + 2) + 2 * (d + 1) == g * (2 * d + g + 1)
  {
  }

  // ---------- trees ----------

  /** What a query can cost for each of its bytes: its leaves, and a negation and an OR for
      every clause. */
  function Rate(m: Model): real {
    LeafRate(m) + 2.0 + m.orClauseCost
  }

  function Bound(bytes: nat, groups: nat, m: Model, depth: nat): real {
    Times(bytes, Rate(m)) + DepthShare(m, groups, depth)
  }

  lemma {:induction false} BoundMonotone(a: nat, b: nat, g: nat, m: Model, depth: nat)
    requires a <= b && NonNegativeModel(m)
    ensures Bound(a, g, m, depth) <= Bound(b, g, m, depth)
  {
    RatesNonNegative(m);
    TimesMonotone(a, b, Rate(m), Rate(m));
  }

  /** A term as a clause: with room for a negation and an OR. */
  lemma {:induction false} TermByBytes(n: Node, m: Model, field: string, depth: nat)
    requires WfTerm(n) && NonNegativeModel(m) && LightFields(m)
    ensures Cost(n, m, field, depth) + 2.0 + m.orClauseCost <= Bound(Bytes(n), Groups(n), m, depth)
    decreases n, 0
  {
    if n.Group? {
      QueryByBytes(n.query, m, field, depth + 1);
      RatesNonNegative(m);
      assert Rate(m) >= 2.0 + m.orClauseCost;
      hide LeafRate, Rate, NonNegativeModel, LightFields, WfQuery;
      TimesSum(2, Bytes(n.query), Rate(m));
      assert Times(2, Rate(m)) == Rate(m) + Rate(m);
    } else {
      LeafByBytes(n, m, field, depth);
    }
  }

  lemma {:induction false} LeafByBytes(n: Node, m: Model, field: string, depth: nat)
    requires IsLeaf(n) && WfTerm(n) && NonNegativeModel(m) && LightFields(m)
    ensures Cost(n, m, field, depth) + 2.0 + m.orClauseCost <= Bound(Bytes(n), Groups(n), m, depth)
  {
    LeafBound(n, m, field);
    LeafHasBytes(n);
    var fees := 2.0 + m.orClauseCost;
    assert fees >= 0.0 && Rate(m) == LeafRate(m) + fees && Groups(n) == 0;
    hide LeafRate, Rate, WfTerm, NonNegativeModel, LightFields, LeafEntry;
    OnePart(fees, Bytes(n));
    TimesAdd(Bytes(n), LeafRate(m), fees);
    hide Times;
  }

  lemma {:induction false} ClauseByBytes(c: Clause, m: Model, depth: nat)
    requires WfClause(c) && NonNegativeModel(m) && LightFields(m)
    ensures ClauseCost(c, m, depth) + m.orClauseCost <=
            Bound(WeighClause(c, AllBytes), Groups(c.term), m, depth)
    decreases c, 0
  {
    TermByBytes(c.term, m, c.field, depth);
    CostNonNegative(c.term, m, c.field, depth);
    TotalLight(Cost(c.term, m, c.field, depth), c.occur, c.field, m);
    BoundMonotone(Bytes(c.term), WeighClause(c, AllBytes), Groups(c.term), m, depth);
  }

  lemma {:induction false} PartsByBytes(cs: seq<Clause>, m: Model, depth: nat)
    requires WfClauses(cs) && NonNegativeModel(m) && LightFields(m)
    ensures
      var parts := Parts(cs, m, depth);
      SumCosts(parts) + Times(ShouldCount(parts), m.orClauseCost) <=
      Bound(WeighClauses(cs, AllBytes), ClauseGroups(cs), m, depth)
    decreases cs, 0
  {
    if cs != [] {
      var parts := Parts(cs, m, depth);
      assert parts[1..] == Parts(cs[1..], m, depth);
      ClauseByBytes(cs[0], m, depth);
      PartsByBytes(cs[1..], m, depth);
      DepthOfList(m, Groups(cs[0].term), ClauseGroups(cs[1..]), depth);
      TimesSum(WeighClause(cs[0], AllBytes), WeighClauses(cs[1..], AllBytes), Rate(m));
    }
  }

  lemma {:induction false} OrPenaltyTimes(count: nat, m: Model)
    ensures OrPenalty(count, m) == Times(count, m.orClauseCost)
  {
    TimesProduct(count, m.orClauseCost);
  }

  lemma {:induction false} QueryByBytes(q: Node, m: Model, field: string, depth: nat)
    requires WfQuery(q) && NonNegativeModel(m) && LightFields(m)
    ensures Cost(q, m, field, depth) <= Bound(Bytes(q), Groups(q), m, depth)
    decreases q, 1
  {
    match q
    case Boolean(cs) =>
      var parts := Parts(cs, m, depth);
      PartsNonNegative(cs, m, depth);
      TotalOfParts(parts, m);
      OrPenaltyTimes(ShouldCount(parts), m);
      PartsByBytes(cs, m, depth);
    case Single(c) => ClauseByBytes(c, m, depth);
    case _ => TermByBytes(q, m, field, depth);
  }

  /** The unrounded cost of a query is at most a constant for each byte of its text, and the
      depth cost times an eighth of n(n+2) for a text of n bytes. */
  lemma {:induction false} CostByTextLength(s: string, m: Model)
    requires Parse(s).Done? && NonNegativeModel(m) && LightFields(m)
    ensures
      var n := |s|;
      Cost(Parse(s).value, m, "", 0) <=
      n as real * Rate(m) + m.depthCost * ((n * (n + 2)) as real / 8.0)
  {
    hide Parse, Cost, Rate, WfQuery, WeighNode, Groups;
    var q := Parse(s).value;
    ParseForm(s);
    ParseWeighs(s, AllBytes);
    BytesOfString(s);
    QueryByBytes(q, m, "", 0);
    GroupsByBytes(q);
    BoundMonotone(Bytes(q), |s|, Groups(q), m, 0);
    DepthByBytes(Groups(q), |s|);
    BoundIs(|s|, Groups(q), m, (|s| * (|s| + 2)) as real / 8.0);
  }

  lemma {:induction false} BoundIs(n: nat, g: nat, m: Model, deepest: real)
    requires NonNegativeModel(m) && DepthSum(g, 0) as real <= deepest
    ensures Bound(n, g, m, 0) <= n as real * Rate(m) + m.depthCost * deepest
  {
    hide Times, Rate, DepthShare, DepthSum;
    TimesProduct(n, Rate(m));
    DepthShareIs(m, g, 0);
    ProductMonotone(m.depthCost, DepthSum(g, 0) as real, deepest);
  }

  lemma ProductMonotone(a: real, x: real, y: real)
    ensures a >= 0.0 && x <= y ==> a * x <= a * y
  {
    if a >= 0.0 && x <= y {
      MulNonNegative(a, y - x);
      assert a * (y - x) == a * y - a * x;
    }
  }

  lemma {:induction false} DepthByBytes(g: nat, n: nat)
    ensures 2 * g <= n ==> DepthSum(g, 0) as real <= (n * (n + 2)) as real / 8.0
  {
    if 2 * g <= n {
      DepthSumIs(g, 0);
      assert 4 * (g * (g + 1)) == (2 * g) * (2 * g + 2);
      assert (2 * g) * (2 * g + 2) <= n * (n + 2);
    }
  }
}
