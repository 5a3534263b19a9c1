/** The estimator: a walk over the tree that returns a cost and posts its charges to a
    report on the way. Each method is proved to charge what the cost functions say. */
module Estimator {
  import opened Ast
  import opened CostModel

  class Report {
    var cost: real
    var breakdown: map<string, real>
    var explanation: seq<string>

    constructor ()
      ensures cost == 0.0 && breakdown == map[] && explanation == []
    {
      cost, breakdown, explanation := 0.0, map[], [];
    }

    function Value(): Summary
      reads this
    {
      Summary(cost, breakdown, explanation)
    }

    /** Exactly the given charges have been posted on top of an earlier report. */
    ghost predicate Posted(b: map<string, real>, x: seq<string>, es: seq<Entry>)
      reads this
    {
      breakdown == PostAll(b, es) && explanation == x + Keys(es)
    }

    method Add(key: string, amount: real)
      modifies this`breakdown, this`explanation
      ensures breakdown == Post(old(breakdown), Entry(key, amount))
      ensures explanation == old(explanation) + [key]
      ensures Posted(old(breakdown), old(explanation), [Entry(key, amount)])
    {
      breakdown := breakdown[key := (if key in breakdown then breakdown[key] else 0.0) + amount];
      explanation := explanation + [key];
      assert PostAll(old(breakdown), [Entry(key, amount)]) == breakdown;
    }
  }

  method EstimateNode(n: Node, m: Model, field: string, depth: nat, r: Report) returns (cost: real)
    modifies r`breakdown, r`explanation
    ensures cost == Cost(n, m, field, depth)
    ensures r.Posted(old(r.breakdown), old(r.explanation), Entries(n, m, field, depth))
    decreases n, 0
  {
    hide LeafEntry;
    match n {
      case Term(_, _, _) => cost := EstimateTerm(n, m, field, r);
      case Phrase(_) => cost := EstimatePhrase(n, m, field, r);
      case Range(_, _, _, _) => cost := EstimateRange(n, m, field, r);
      case Group(q) =>
        var bonus := m.depthCost * (depth + 1) as real;
        r.Add("depth", bonus);
        var inner := EstimateNode(q, m, field, depth + 1, r);
        PostMore(old(r.breakdown), old(r.explanation), [Entry("depth", bonus)],
          Entries(q, m, field, depth + 1));
        cost := inner + bonus;
      case Boolean(cs) => cost := EstimateBoolean(cs, m, depth, r);
      case Single(c) => cost := EstimateClause(c, m, depth, r);
      case Nil =>
        PostNone(old(r.breakdown), old(r.explanation));
        cost := 0.0;
    }
  }

  method EstimateClause(c: Clause, m: Model, depth: nat, r: Report) returns (child: real)
    modifies r`breakdown, r`explanation
    ensures child == ClauseCost(c, m, depth)
    ensures r.Posted(old(r.breakdown), old(r.explanation), ClauseEntries(c, m, depth))
    decreases c, 0
  {
    hide Cost, Entries, FieldWeight, PostAll;
    var weight := FieldWeight(m, c.field);
    var inner := EstimateNode(c.term, m, c.field, depth, r);
    child := inner * weight;
    ghost var es := Entries(c.term, m, c.field, depth);
    PostMore(old(r.breakdown), old(r.explanation), es, [Entry("must_not", 2.0)]);
    assert es + [] == es;
    if c.occur == MustNot {
      r.Add("must_not", 2.0);
      child := child + 2.0;
    }
  }

  method EstimateBoolean(cs: seq<Clause>, m: Model, depth: nat, r: Report) returns (cost: real)
    modifies r`breakdown, r`explanation
    ensures cost == BooleanTotal(Parts(cs, m, depth), m)
    ensures r.Posted(old(r.breakdown), old(r.explanation), Entries(Boolean(cs), m, "", depth))
    decreases cs, 1
  {
    hide Cost, Entries, ClauseCost, ClauseEntries, ClausesEntries, Parts, PostAll, BooleanTotal, Partial;
    var mustCost, shouldCost, shouldCount := 0.0, 0.0, 0;
    ghost var es: seq<Entry> := [];
    PostNone(old(r.breakdown), old(r.explanation));
    PartialStart(cs, m, depth);
    for i := 0 to |cs|
      invariant r.Posted(old(r.breakdown), old(r.explanation), es)
      invariant Partial(cs, m, depth, cs[i..], es, mustCost, shouldCost, shouldCount)
    {
      var child := EstimateClause(cs[i], m, depth, r);
      PostMore(old(r.breakdown), old(r.explanation), es, ClauseEntries(cs[i], m, depth));
      PartialStep(cs, m, depth, cs[i..], es, mustCost, shouldCost, shouldCount);
      assert cs[i..][1..] == cs[i + 1..];
      es := es + ClauseEntries(cs[i], m, depth);
      match cs[i].occur {
        case Must => mustCost := Max(mustCost, child);
        case Should =>
          shouldCount := shouldCount + 1;
          shouldCost := shouldCost + child;
        case MustNot => mustCost := mustCost + child * 0.1;
      }
    }
    cost := mustCost + shouldCost;
    PartialEnd(cs, m, depth, es, mustCost, shouldCost, shouldCount);
    if shouldCount > 0 {
      var penalty := shouldCount as real * m.orClauseCost;
      r.Add("or_clauses", penalty);
      PostMore(old(r.breakdown), old(r.explanation), es, [Entry("or_clauses", penalty)]);
      cost := cost + penalty;
    }
  }

  /** The totals after all clauses but the last ones, left, have been charged. */
  ghost predicate Partial(cs: seq<Clause>, m: Model, depth: nat, left: seq<Clause>,
                          es: seq<Entry>, must: real, should: real, count: nat) {
    var all, parts := Parts(cs, m, depth), Parts(left, m, depth);
    ClausesEntries(cs, m, depth) == es + ClausesEntries(left, m, depth) &&
    MustFrom(0.0, all) == MustFrom(must, parts) &&
    ShouldSum(all) == should + ShouldSum(parts) &&
    ShouldCount(all) == count + ShouldCount(parts)
  }

  lemma {:induction false} PartialStart(cs: seq<Clause>, m: Model, depth: nat)
    ensures Partial(cs, m, depth, cs[0..], [], 0.0, 0.0, 0)
  {
    assert cs[0..] == cs;
  }

  lemma {:induction false} PartialStep(cs: seq<Clause>, m: Model, depth: nat, left: seq<Clause>,
                                       es: seq<Entry>, must: real, should: real, count: nat)
    requires left != [] && Partial(cs, m, depth, left, es, must, should, count)
    ensures
      var part := Part(left[0].occur, ClauseCost(left[0], m, depth));
      var isShould := part.occur == Should;
      Partial(cs, m, depth, left[1..], es + ClauseEntries(left[0], m, depth), MustStep(must, part),
        if isShould then should + part.cost else should, if isShould then count + 1 else count)
  {
    var parts := Parts(left, m, depth);
    assert parts[1..] == Parts(left[1..], m, depth);
  }

  lemma {:induction false} PartialEnd(cs: seq<Clause>, m: Model, depth: nat,
                                      es: seq<Entry>, must: real, should: real, count: nat)
    requires Partial(cs, m, depth, cs[|cs|..], es, must, should, count)
    ensures Entries(Boolean(cs), m, "", depth) ==
            es + (if count > 0 then [Entry("or_clauses", OrPenalty(count, m))] else [])
    ensures es + [] == es
    ensures BooleanTotal(Parts(cs, m, depth), m) == must + should + OrPenalty(count, m)
    ensures count == ShouldCount(Parts(cs, m, depth))
  {
  }

  method EstimateTerm(n: Node, m: Model, field: string, r: Report) returns (cost: real)
    requires n.Term?
    modifies r`breakdown, r`explanation
    ensures cost == LeafEntry(n, m, field).amount
    ensures r.Posted(old(r.breakdown), old(r.explanation), [LeafEntry(n, m, field)])
  {
    if n.value == "*" {
      r.Add("match_all", m.matchAllCost);
      return m.matchAllCost;
    }
    var base := m.termCost * FieldWeight(m, field);
    if field == "" {
      base := base * m.defaultSearchFieldPenalty;
    }
    if !n.wildcard {
      r.Add("term", base);
      return base;
    }
    cost := base * m.wildcardMultiplier;
    var rationale := "wildcard";
    if StartsWithWildcard(n.value) {
      cost := cost + m.leadingWildcardCost;
      rationale := "leading_wildcard";
    }
    if n.prefix {
      rationale := "prefix_wildcard";
    }
    if IsKeywordField(field) {
      cost := cost * m.keywordWildcardMultiplier;
      rationale := rationale + "_keyword";
    }
    assert rationale + "" == rationale;
    r.Add(rationale, cost);
  }

  method EstimatePhrase(n: Node, m: Model, field: string, r: Report) returns (cost: real)
    requires n.Phrase?
    modifies r`breakdown, r`explanation
    ensures cost == LeafEntry(n, m, field).amount
    ensures r.Posted(old(r.breakdown), old(r.explanation), [LeafEntry(n, m, field)])
  {
    var words := WordCount(n.value) as real;
    if words < 1.0 {
      words := 1.0;
    }
    var base := m.phraseCost * words * FieldWeight(m, field);
    if field == "" {
      base := base * m.defaultSearchFieldPenalty;
    }
    r.Add("phrase", base);
    return base;
  }

  method EstimateRange(n: Node, m: Model, field: string, r: Report) returns (cost: real)
    requires n.Range?
    modifies r`breakdown, r`explanation
    ensures cost == LeafEntry(n, m, field).amount
    ensures r.Posted(old(r.breakdown), old(r.explanation), [LeafEntry(n, m, field)])
  {
    var weight := FieldWeight(m, field);
    if (n.low == "*" || n.low == "") && (n.high == "*" || n.high == "") {
      cost := m.openRangeCost * weight;
      r.Add("open_range", cost);
      return;
    }
    cost := m.rangeCost * weight;
    if field == "" {
      cost := cost * m.defaultSearchFieldPenalty;
    }
    r.Add("range", cost);
  }

  method Estimate(n: Node, m: Model) returns (r: Report)
    ensures fresh(r) && r.Value() == SummaryOf(n, m)
  {
    r := new Report();
    var cost := EstimateNode(n, m, "", 0, r);
    r.cost := Round(cost);
    assert [] + Keys(Entries(n, m, "", 0)) == Keys(Entries(n, m, "", 0));
  }

  lemma {:induction false} PostConcat(b: map<string, real>, es: seq<Entry>, more: seq<Entry>)
    ensures PostAll(b, es + more) == PostAll(PostAll(b, es), more)
    decreases es
  {
    if es == [] {
      assert es + more == more;
    } else {
      assert (es + more)[1..] == es[1..] + more;
      PostConcat(Post(b, es[0]), es[1..], more);
    }
  }

  lemma {:induction false} PostNone(b: map<string, real>, x: seq<string>)
    ensures PostAll(b, []) == b && x + Keys([]) == x
  {
  }

  /** Posting one list of charges after another is posting them joined. */
  lemma {:induction false} PostMore(b: map<string, real>, x: seq<string>, es: seq<Entry>, more: seq<Entry>)
    ensures PostAll(b, es + more) == PostAll(PostAll(b, es), more)
    ensures x + Keys(es + more) == x + Keys(es) + Keys(more)
  {
    PostConcat(b, es, more);
  }
}
