/** Costs under a model without negative amounts: never negative, never lowered by adding to a
    query, and never more than the itemised report shows. */
module CostLaws {
  import opened Ast
  import opened CostModel
  import opened BooleanBounds

  predicate NonNegativeModel(m: Model) {
    m.termCost >= 0.0 && m.phraseCost >= 0.0 && m.wildcardMultiplier >= 0.0 &&
    m.leadingWildcardCost >= 0.0 && m.matchAllCost >= 0.0 && m.rangeCost >= 0.0 &&
    m.openRangeCost >= 0.0 && m.orClauseCost >= 0.0 && m.depthCost >= 0.0 &&
    m.keywordWildcardMultiplier >= 0.0 && m.defaultFieldWeight >= 0.0 &&
    m.defaultSearchFieldPenalty >= 0.0 && forall f :: f in m.fieldWeights ==> m.fieldWeights[f] >= 0.0
  }

  lemma DefaultNonNegative()
    ensures NonNegativeModel(DEFAULT_MODEL)
  {
  }

  /** No field weighs more than the default field does. */
  predicate LightFields(m: Model) {
    m.defaultFieldWeight <= 1.0 && forall f :: f in m.fieldWeights ==> m.fieldWeights[f] <= 1.0
  }

  lemma MulNonNegative(a: real, b: real)
    requires a >= 0.0 && b >= 0.0
    ensures a * b >= 0.0
  {
  }

  lemma MulMonotone(a: real, b: real, w: real)
    ensures a <= b && w >= 0.0 ==> a * w <= b * w
  {
    if a <= b && w >= 0.0 {
      MulNonNegative(b - a, w);
      assert (b - a) * w == b * w - a * w;
    }
  }

  lemma MulLight(a: real, w: real)
    requires a >= 0.0 && 0.0 <= w <= 1.0
    ensures 0.0 <= a * w <= a
  {
    MulNonNegative(a, w);
    MulNonNegative(a, 1.0 - w);
    assert a * (1.0 - w) == a - a * w;
  }

  // ---------- costs are not negative ----------

  lemma {:induction false} ProductNonNegative(a: real, b: real, c: real)
    ensures a >= 0.0 && b >= 0.0 && c >= 0.0 ==> a * b >= 0.0 && a * b * c >= 0.0
  {
    if a >= 0.0 && b >= 0.0 && c >= 0.0 {
      MulNonNegative(a, b);
      MulNonNegative(a * b, c);
    }
  }

  lemma {:induction false} TermNonNegative(v: string, wildcard: bool, m: Model, field: string)
    requires NonNegativeModel(m)
    ensures TermAmount(v, wildcard, m, field) >= 0.0
  {
    var w, p := FieldWeight(m, field), DefaultPenalty(m, field);
    assert w >= 0.0 && p >= 0.0;
    hide FieldWeight, DefaultPenalty;
    ProductNonNegative(m.termCost, w, p);
    var base := m.termCost * w * p;
    MulNonNegative(base, m.wildcardMultiplier);
    MulNonNegative(
      base * m.wildcardMultiplier + (if StartsWithWildcard(v) then m.leadingWildcardCost else 0.0),
      m.keywordWildcardMultiplier);
  }

  lemma {:induction false} LeafNonNegative(n: Node, m: Model, field: string)
    requires IsLeaf(n) && NonNegativeModel(m)
    ensures LeafEntry(n, m, field).amount >= 0.0
  {
    var w, p := FieldWeight(m, field), DefaultPenalty(m, field);
    assert w >= 0.0 && p >= 0.0;
    hide FieldWeight, DefaultPenalty, TermAmount;
    match n
    case Term(v, wildcard, prefix) => TermNonNegative(v, wildcard, m, field);
    case Phrase(v) =>
      MulNonNegative(m.phraseCost, PhraseWords(v) as real);
      ProductNonNegative(m.phraseCost * PhraseWords(v) as real, w, p);
    case Range(_, _, _, _) =>
      MulNonNegative(m.openRangeCost, w);
      ProductNonNegative(m.rangeCost, w, p);
  }

  lemma {:induction false} OrPenaltyNonNegative(count: nat, m: Model)
    ensures NonNegativeModel(m) ==> OrPenalty(count, m) >= 0.0
  {
    if NonNegativeModel(m) {
      MulNonNegative(count as real, m.orClauseCost);
    }
  }

  lemma {:induction false} ShouldSumNonNegative(parts: seq<Part>)
    ensures NonNegative(parts) ==> ShouldSum(parts) >= 0.0
  {
    if NonNegative(parts) && parts != [] {
      ShouldSumNonNegative(parts[1..]);
    }
  }

  lemma {:induction false} CostNonNegative(n: Node, m: Model, field: string, depth: nat)
    requires NonNegativeModel(m)
    ensures Cost(n, m, field, depth) >= 0.0
    decreases n, 0
  {
    match n
    case Nil =>
    case Group(q) =>
      CostNonNegative(q, m, field, depth + 1);
      MulNonNegative(m.depthCost, (depth + 1) as real);
    case Single(c) => ClauseNonNegative(c, m, depth);
    case Boolean(cs) =>
      PartsNonNegative(cs, m, depth);
      var parts := Parts(cs, m, depth);
      MustFromBounds(0.0, parts);
      ShouldSumNonNegative(parts);
      OrPenaltyNonNegative(ShouldCount(parts), m);
    case _ => LeafNonNegative(n, m, field);
  }

  lemma {:induction false} ClauseNonNegative(c: Clause, m: Model, depth: nat)
    requires NonNegativeModel(m)
    ensures ClauseCost(c, m, depth) >= 0.0
    decreases c, 0
  {
    CostNonNegative(c.term, m, c.field, depth);
    MulNonNegative(Cost(c.term, m, c.field, depth), FieldWeight(m, c.field));
  }

  lemma {:induction false} PartsNonNegative(cs: seq<Clause>, m: Model, depth: nat)
    requires NonNegativeModel(m)
    ensures NonNegative(Parts(cs, m, depth))
    decreases cs, 0
  {
    if cs != [] {
      ClauseNonNegative(cs[0], m, depth);
      PartsNonNegative(cs[1..], m, depth);
    }
  }

  // ---------- adding to a query never lowers its cost ----------

  /** b is a with clauses inserted in its Booleans, at any depth, and subtrees replaced by
      others that cost at least as much where they stand. */
  predicate Extends(a: Node, b: Node, m: Model, field: string, depth: nat)
    decreases b, 0
  {
    Cost(a, m, field, depth) <= Cost(b, m, field, depth) ||
    (a.Group? && b.Group? && Extends(a.query, b.query, m, field, depth + 1)) ||
    (a.Single? && b.Single? && ExtendsClause(a.clause, b.clause, m, depth)) ||
    (a.Boolean? && b.Boolean? && ExtendsClauses(a.clauses, b.clauses, m, depth))
  }

  predicate ExtendsClause(a: Clause, b: Clause, m: Model, depth: nat)
    decreases b, 0
  {
    a.occur == b.occur && a.field == b.field && Extends(a.term, b.term, m, a.field, depth)
  }

  predicate ExtendsClauses(a: seq<Clause>, b: seq<Clause>, m: Model, depth: nat)
    decreases b, 0
  {
    if b == [] then a == []
    else
      ExtendsClauses(a, b[1..], m, depth) ||
      (a != [] && ExtendsClause(a[0], b[0], m, depth) && ExtendsClauses(a[1..], b[1..], m, depth))
  }

  /** The parts q are the parts p with more inserted or made dearer. */
  predicate Grows(p: seq<Part>, q: seq<Part>) {
    if q == [] then p == []
    else
      Grows(p, q[1..]) ||
      (p != [] && p[0].occur == q[0].occur && p[0].cost <= q[0].cost && Grows(p[1..], q[1..]))
  }

  lemma {:induction false} GrowsMust(acc: real, acc': real, p: seq<Part>, q: seq<Part>)
    requires acc <= acc' && Grows(p, q) && NonNegative(q)
    ensures MustFrom(acc, p) <= MustFrom(acc', q)
    decreases q
  {
    if q != [] {
      if Grows(p, q[1..]) {
        GrowsMust(acc, MustStep(acc', q[0]), p, q[1..]);
      } else {
        GrowsMust(MustStep(acc, p[0]), MustStep(acc', q[0]), p[1..], q[1..]);
      }
    }
  }

  lemma {:induction false} GrowsShould(p: seq<Part>, q: seq<Part>)
    requires Grows(p, q) && NonNegative(q)
    ensures ShouldSum(p) <= ShouldSum(q) && ShouldCount(p) <= ShouldCount(q)
  {
    if q != [] {
      if Grows(p, q[1..]) {
        GrowsShould(p, q[1..]);
      } else {
        GrowsShould(p[1..], q[1..]);
      }
    }
  }

  lemma {:induction false} GrowsTotal(p: seq<Part>, q: seq<Part>, m: Model)
    requires Grows(p, q) && NonNegative(q) && NonNegativeModel(m)
    ensures BooleanTotal(p, m) <= BooleanTotal(q, m)
  {
    GrowsMust(0.0, 0.0, p, q);
    GrowsShould(p, q);
    OrPenaltyMonotone(ShouldCount(p), ShouldCount(q), m);
  }

  lemma {:induction false} OrPenaltyMonotone(a: nat, b: nat, m: Model)
    requires a <= b && NonNegativeModel(m)
    ensures OrPenalty(a, m) <= OrPenalty(b, m)
  {
    OrPenaltyNonNegative(b, m);
    MulMonotone(a as real, b as real, m.orClauseCost);
  }

  lemma {:induction false} CostMonotone(a: Node, b: Node, m: Model, field: string, depth: nat)
    requires NonNegativeModel(m) && Extends(a, b, m, field, depth)
    ensures Cost(a, m, field, depth) <= Cost(b, m, field, depth)
    decreases b, 0
  {
    if Cost(a, m, field, depth) > Cost(b, m, field, depth) {
      match b
      case Group(q) => CostMonotone(a.query, q, m, field, depth + 1);
      case Single(c) => ClauseMonotone(a.clause, c, m, depth);
      case Boolean(cs) =>
        PartsMonotone(a.clauses, cs, m, depth);
        PartsNonNegative(cs, m, depth);
        GrowsTotal(Parts(a.clauses, m, depth), Parts(cs, m, depth), m);
      case _ =>
    }
  }

  lemma {:induction false} ClauseMonotone(a: Clause, b: Clause, m: Model, depth: nat)
    requires NonNegativeModel(m) && ExtendsClause(a, b, m, depth)
    ensures ClauseCost(a, m, depth) <= ClauseCost(b, m, depth)
    decreases b, 0
  {
    CostMonotone(a.term, b.term, m, a.field, depth);
    TotalMonotone(Cost(a.term, m, a.field, depth), Cost(b.term, m, b.field, depth), a.occur, a.field, m);
  }

  lemma {:induction false} TotalMonotone(x: real, y: real, occur: Occur, field: string, m: Model)
    requires NonNegativeModel(m) && x <= y
    ensures ClauseTotal(x, occur, field, m) <= ClauseTotal(y, occur, field, m)
  {
    MulMonotone(x, y, FieldWeight(m, field));
  }

  lemma {:induction false} PartsMonotone(a: seq<Clause>, b: seq<Clause>, m: Model, depth: nat)
    requires NonNegativeModel(m) && ExtendsClauses(a, b, m, depth)
    ensures Grows(Parts(a, m, depth), Parts(b, m, depth))
    decreases b, 0
  {
    if b != [] {
      assert Parts(b, m, depth)[1..] == Parts(b[1..], m, depth);
      if ExtendsClauses(a, b[1..], m, depth) {
        PartsMonotone(a, b[1..], m, depth);
      } else {
        assert Parts(a, m, depth)[1..] == Parts(a[1..], m, depth);
        ClauseMonotone(a[0], b[0], m, depth);
        PartsMonotone(a[1..], b[1..], m, depth);
      }
    }
  }

  lemma RoundMonotone(x: real, y: real)
    ensures x <= y ==> Round(x) <= Round(y)
  {
    if x <= y {
      var a, b := x * 100.0, y * 100.0;
      assert RoundWhole(a) <= RoundWhole(b);
    }
  }

  /** Extending a query anywhere never lowers the cost reported for it. */
  lemma {:induction false} ReportMonotone(a: Node, b: Node, m: Model)
    requires NonNegativeModel(m) && Extends(a, b, m, "", 0)
    ensures SummaryOf(a, m).cost <= SummaryOf(b, m).cost
  {
    CostMonotone(a, b, m, "", 0);
    RoundMonotone(Cost(a, m, "", 0), Cost(b, m, "", 0));
  }
}
