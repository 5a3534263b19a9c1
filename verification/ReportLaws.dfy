/** What the itemised report of a query says about its cost and its leaves. */
module ReportLaws {
  import opened Ast
  import opened CostModel
  import opened BooleanBounds
  import opened CostLaws

  // ---------- sums of charges ----------

  function Sum(es: seq<Entry>): real {
    if es == [] then 0.0 else es[0].amount + Sum(es[1..])
  }

  function SumOf(es: seq<Entry>, key: string): real {
    if es == [] then 0.0
    else (if es[0].key == key then es[0].amount else 0.0) + SumOf(es[1..], key)
  }

  /** The sum of all amounts of a breakdown. */
  ghost function Total(b: map<string, real>): real {
    if b == map[] then 0.0 else
    var k :| k in b;
    b[k] + Total(b - {k})
  }

  lemma {:induction false} SumConcat(a: seq<Entry>, b: seq<Entry>)
    ensures Sum(a + b) == Sum(a) + Sum(b)
  {
    if a == [] {
      assert a + b == b;
    } else {
      assert (a + b)[1..] == a[1..] + b;
      SumConcat(a[1..], b);
    }
  }

  lemma {:induction false} TotalWithout(b: map<string, real>, key: string)
    requires key in b
    ensures Total(b) == b[key] + Total(b - {key})
    decreases |b|
  {
    var k :| k in b && Total(b) == b[k] + Total(b - {k});
    if k != key {
      TotalWithout(b - {k}, key);
      TotalWithout(b - {key}, k);
      assert b - {k} - {key} == b - {key} - {k};
    }
  }

  lemma {:induction false} TotalPost(b: map<string, real>, e: Entry)
    ensures Total(Post(b, e)) == Total(b) + e.amount
  {
    var b' := Post(b, e);
    TotalWithout(b', e.key);
    assert b' - {e.key} == b - {e.key};
    if e.key in b {
      TotalWithout(b, e.key);
    } else {
      assert b - {e.key} == b;
    }
  }

  lemma {:induction false} TotalPostAll(b: map<string, real>, es: seq<Entry>)
    ensures Total(PostAll(b, es)) == Total(b) + Sum(es)
    decreases es
  {
    if es != [] {
      TotalPost(b, es[0]);
      TotalPostAll(Post(b, es[0]), es[1..]);
    }
  }

  /** Posting charges adds to each key what was charged under it. */
  lemma {:induction false} PostAllAt(b: map<string, real>, es: seq<Entry>, key: string)
    ensures
      var b' := PostAll(b, es);
      (key in b' <==> key in b || key in Keys(es)) &&
      (key in b' ==> b'[key] == (if key in b then b[key] else 0.0) + SumOf(es, key))
    decreases es
  {
    if es != [] {
      PostAllAt(Post(b, es[0]), es[1..], key);
      assert es == [es[0]] + es[1..];
      assert Keys(es) == [es[0].key] + Keys(es[1..]);
    }
  }

  // ---------- the report covers the charge ----------

  lemma {:induction false} CostCovered(n: Node, m: Model, field: string, depth: nat)
    requires NonNegativeModel(m) && LightFields(m)
    ensures Cost(n, m, field, depth) <= Sum(Entries(n, m, field, depth))
    decreases n, 0
  {
    match n
    case Group(q) =>
      CostCovered(q, m, field, depth + 1);
      SumConcat([Entry("depth", DepthBonus(m, depth))], Entries(q, m, field, depth + 1));
    case Single(c) => ClauseCovered(c, m, depth);
    case Boolean(cs) =>
      var parts := Parts(cs, m, depth);
      PartsNonNegative(cs, m, depth);
      TotalOfParts(parts, m);
      PartsCovered(cs, m, depth);
      var count := ShouldCount(parts);
      SumConcat(ClausesEntries(cs, m, depth),
        if count > 0 then [Entry("or_clauses", OrPenalty(count, m))] else []);
    case _ =>
  }

  lemma {:induction false} ClauseCovered(c: Clause, m: Model, depth: nat)
    requires NonNegativeModel(m) && LightFields(m)
    ensures ClauseCost(c, m, depth) <= Sum(ClauseEntries(c, m, depth))
    decreases c, 0
  {
    CostCovered(c.term, m, c.field, depth);
    CostNonNegative(c.term, m, c.field, depth);
    TotalLight(Cost(c.term, m, c.field, depth), c.occur, c.field, m);
    var fee := if c.occur == MustNot then [Entry("must_not", 2.0)] else [];
    SumConcat(Entries(c.term, m, c.field, depth), fee);
    assert Sum(fee) == if c.occur == MustNot then 2.0 else 0.0;
  }

  lemma {:induction false} TotalLight(cost: real, occur: Occur, field: string, m: Model)
    requires NonNegativeModel(m) && LightFields(m) && cost >= 0.0
    ensures ClauseTotal(cost, occur, field, m) <= cost + (if occur == MustNot then 2.0 else 0.0)
  {
    assert 0.0 <= FieldWeight(m, field) <= 1.0;
    hide FieldWeight;
    MulLight(cost, FieldWeight(m, field));
  }

  function SumCosts(parts: seq<Part>): real {
    if parts == [] then 0.0 else parts[0].cost + SumCosts(parts[1..])
  }

  lemma {:induction false} PartsCovered(cs: seq<Clause>, m: Model, depth: nat)
    requires NonNegativeModel(m) && LightFields(m)
    ensures SumCosts(Parts(cs, m, depth)) <= Sum(ClausesEntries(cs, m, depth))
    decreases cs, 0
  {
    if cs != [] {
      ClauseCovered(cs[0], m, depth);
      PartsCovered(cs[1..], m, depth);
      SumConcat(ClauseEntries(cs[0], m, depth), ClausesEntries(cs[1..], m, depth));
      assert Parts(cs, m, depth)[1..] == Parts(cs[1..], m, depth);
    }
  }

  lemma {:induction false} SplitByOccur(parts: seq<Part>)
    ensures NonNegative(parts) ==> Dearest(parts) + Excluded(parts) + ShouldSum(parts) <= SumCosts(parts)
  {
    if NonNegative(parts) && parts != [] {
      SplitByOccur(parts[1..]);
    }
  }

  lemma {:induction false} TotalOfParts(parts: seq<Part>, m: Model)
    ensures NonNegative(parts) ==>
      BooleanTotal(parts, m) <= SumCosts(parts) + OrPenalty(ShouldCount(parts), m)
  {
    if NonNegative(parts) {
      MustBounds(parts);
      SplitByOccur(parts);
    }
  }

  /** When no field weighs more than one, the unrounded cost of a node is at most what the
      breakdown grows by while it is estimated. */
  lemma {:induction false} ReportCovers(n: Node, m: Model, field: string, depth: nat, b: map<string, real>)
    requires NonNegativeModel(m) && LightFields(m)
    ensures Cost(n, m, field, depth) <= Total(PostAll(b, Entries(n, m, field, depth))) - Total(b)
  {
    CostCovered(n, m, field, depth);
    TotalPostAll(b, Entries(n, m, field, depth));
  }

  /** The breakdown names exactly the features the explanation lists. */
  lemma {:induction false} BreakdownExplained(n: Node, m: Model)
    ensures
      var s := SummaryOf(n, m);
      forall key :: key in s.breakdown <==> key in s.explanation
  {
    forall key
      ensures key in SummaryOf(n, m).breakdown <==> key in SummaryOf(n, m).explanation
    {
      PostAllAt(map[], Entries(n, m, "", 0), key);
    }
  }

  // ---------- what the leaves are charged under ----------

  /** A leaf and the field it is searched in. */
  datatype Placed = Placed(leaf: Node, field: string)

  function Leaves(n: Node, field: string): (ls: seq<Placed>)
    ensures forall l :: l in ls ==> IsLeaf(l.leaf)
    decreases n, 0
  {
    match n
    case Nil => []
    case Group(q) => Leaves(q, field)
    case Single(c) => Leaves(c.term, c.field)
    case Boolean(cs) => ClauseLeaves(cs)
    case _ => [Placed(n, field)]
  }

  function ClauseLeaves(cs: seq<Clause>): (ls: seq<Placed>)
    ensures forall l :: l in ls ==> IsLeaf(l.leaf)
    decreases cs, 0
  {
    if cs == [] then [] else Leaves(cs[0].term, cs[0].field) + ClauseLeaves(cs[1..])
  }

  predicate IsLeafKey(key: string) {
    key != "depth" && key != "must_not" && key != "or_clauses"
  }

  predicate Charged(ls: seq<Placed>, m: Model, key: string)
    requires forall l :: l in ls ==> IsLeaf(l.leaf)
  {
    exists l :: l in ls && LeafEntry(l.leaf, m, l.field).key == key
  }

  predicate AllPositive(ls: seq<Placed>, m: Model, key: string)
    requires forall l :: l in ls ==> IsLeaf(l.leaf)
  {
    forall l :: l in ls ==>
      LeafEntry(l.leaf, m, l.field).key == key ==> LeafEntry(l.leaf, m, l.field).amount > 0.0
  }

  predicate SumTells(es: seq<Entry>, ls: seq<Placed>, m: Model, key: string)
    requires forall l :: l in ls ==> IsLeaf(l.leaf)
  {
    (Charged(ls, m, key) && SumOf(es, key) > 0.0) || (!Charged(ls, m, key) && SumOf(es, key) == 0.0)
  }

  lemma {:induction false} SumOfConcat(a: seq<Entry>, b: seq<Entry>, key: string)
    ensures SumOf(a + b, key) == SumOf(a, key) + SumOf(b, key)
  {
    if a == [] {
      assert a + b == b;
    } else {
      assert (a + b)[1..] == a[1..] + b;
      SumOfConcat(a[1..], b, key);
    }
  }

  /** A leaf feature has a positive amount in the report exactly when some leaf, however
      deeply nested and whatever the sign of its clauses, is charged under it. */
  lemma {:induction false} FeatureCharged(n: Node, m: Model, field: string, depth: nat, key: string)
    requires IsLeafKey(key) && AllPositive(Leaves(n, field), m, key)
    ensures SumTells(Entries(n, m, field, depth), Leaves(n, field), m, key)
    decreases n, 0
  {
    match n
    case Nil =>
    case Group(q) =>
      FeatureCharged(q, m, field, depth + 1, key);
      SumOfConcat([Entry("depth", DepthBonus(m, depth))], Entries(q, m, field, depth + 1), key);
    case Single(c) => ClauseFeatureCharged(c, m, depth, key);
    case Boolean(cs) =>
      ClausesFeatureCharged(cs, m, depth, key);
      var count := ShouldCount(Parts(cs, m, depth));
      SumOfConcat(ClausesEntries(cs, m, depth),
        if count > 0 then [Entry("or_clauses", OrPenalty(count, m))] else [], key);
    case _ => assert Placed(n, field) in Leaves(n, field);
  }

  lemma {:induction false} ClauseFeatureCharged(c: Clause, m: Model, depth: nat, key: string)
    requires IsLeafKey(key) && AllPositive(Leaves(c.term, c.field), m, key)
    ensures SumTells(ClauseEntries(c, m, depth), Leaves(c.term, c.field), m, key)
    decreases c, 0
  {
    FeatureCharged(c.term, m, c.field, depth, key);
    SumOfConcat(Entries(c.term, m, c.field, depth),
      if c.occur == MustNot then [Entry("must_not", 2.0)] else [], key);
  }

  lemma {:induction false} ClausesFeatureCharged(cs: seq<Clause>, m: Model, depth: nat, key: string)
    requires IsLeafKey(key) && AllPositive(ClauseLeaves(cs), m, key)
    ensures SumTells(ClausesEntries(cs, m, depth), ClauseLeaves(cs), m, key)
    decreases cs, 0
  {
    if cs != [] {
      var (a, b) := (Leaves(cs[0].term, cs[0].field), ClauseLeaves(cs[1..]));
      assert forall l :: l in a + b <==> l in a || l in b;
      ClauseFeatureCharged(cs[0], m, depth, key);
      ClausesFeatureCharged(cs[1..], m, depth, key);
      SumOfConcat(ClauseEntries(cs[0], m, depth), ClausesEntries(cs[1..], m, depth), key);
    }
  }
}
