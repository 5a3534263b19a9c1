/** What removing a clause from a query does to its cost. A Boolean left with one clause is no
    Boolean any more: the parser gives such a query as its clause, and often as its mere term. */
module RemovalLaws {
  import opened Ast
  import opened Grammar
  import opened Printer
  import opened NormalForm
  import opened CanonicalForm
  import opened Samples
  import opened Sequences
  import opened CostModel
  import opened CostLaws
  import opened Rules

  // ---------- removing one clause ----------

  /** The query with the clause at the given place removed; a place is the clauses to go
      through on the way down, the last being the one removed. */
  function Remove(n: Node, place: seq<nat>): Node
    decreases n, 0
  {
    match n
    case Group(q) => Group(Remove(q, place))
    case Single(c) => Single(c.(term := Remove(c.term, place)))
    case Boolean(cs) =>
      if place == [] || place[0] >= |cs| then n
      else if |place| == 1 then Collapse(Without(cs, place[0]))
      else
        var c := cs[place[0]];
        Boolean(cs[place[0] := c.(term := Remove(c.term, place[1..]))])
    case _ => n
  }

  /** What is left is again a query the parser can return. */
  lemma {:induction false} RemoveForm(n: Node, place: seq<nat>)
    requires WfQuery(n)
    ensures WfQuery(Remove(n, place))
    ensures WfTerm(n) ==> WfTerm(Remove(n, place))
    decreases n, 0
  {
    match n
    case Group(q) => RemoveForm(q, place);
    case Single(c) =>
      TermIsQuery(c.term);
      RemoveForm(c.term, place);
    case Boolean(cs) =>
      if place != [] && place[0] < |cs| {
        if |place| == 1 {
          CollapseForm(Without(cs, place[0]));
        } else {
          var c := cs[place[0]];
          assert WfClause(c);
          TermIsQuery(c.term);
          RemoveForm(c.term, place[1..]);
          assert WfClause(c.(term := Remove(c.term, place[1..])));
        }
      }
    case _ =>
  }

  // ---------- the last but one clause ----------

  /** The cost of a clause that is left alone. */
  function LoneCost(c: Clause, m: Model, field: string, depth: nat): real {
    if c.field == "" then Cost(c.term, m, field, depth) else ClauseCost(c, m, depth)
  }

  lemma LoneIsCollapsed(c: Clause, m: Model, field: string, depth: nat)
    ensures Cost(Collapse([c]), m, field, depth) == LoneCost(c, m, field, depth)
  {
  }

  /** What two clauses cost together: required ones the dearer of the two, excluded ones a tenth,
      optional ones their sum and a penalty each; an excluded one is added to a required one
      before it, but lost in a dearer one after it. */
  function PairCost(a: Part, b: Part, m: Model): real {
    match (a.occur, b.occur)
    case (Must, Must) => Max(a.cost, b.cost)
    case (Must, MustNot) => a.cost + b.cost * 0.1
    case (MustNot, Must) => Max(a.cost * 0.1, b.cost)
    case (MustNot, MustNot) => a.cost * 0.1 + b.cost * 0.1
    case (Should, Should) => a.cost + b.cost + 2.0 * m.orClauseCost
    case (Should, Must) => a.cost + b.cost + m.orClauseCost
    case (Must, Should) => a.cost + b.cost + m.orClauseCost
    case (Should, MustNot) => a.cost + b.cost * 0.1 + m.orClauseCost
    case (MustNot, Should) => a.cost * 0.1 + b.cost + m.orClauseCost
  }

  lemma {:induction false} PairTotal(a: Part, b: Part, m: Model)
    requires a.cost >= 0.0 && b.cost >= 0.0
    ensures BooleanTotal([a, b], m) == PairCost(a, b, m)
  {
    var ps := [a, b];
    assert ps[1..] == [b] && [b][1..] == [];
    assert MustFrom(0.0, ps) == MustFrom(MustStep(0.0, a), [b]);
    assert MustFrom(MustStep(0.0, a), [b]) == MustStep(MustStep(0.0, a), b);
    assert ShouldSum([b]) == if b.occur == Should then b.cost else 0.0;
    assert ShouldCount([b]) == if b.occur == Should then 1 else 0;
  }

  function PartOf(c: Clause, m: Model, depth: nat): Part {
    Part(c.occur, ClauseCost(c, m, depth))
  }

  lemma {:induction false} PairCosts(a: Clause, b: Clause, m: Model, field: string, depth: nat)
    requires NonNegativeModel(m)
    ensures Cost(Boolean([a, b]), m, field, depth) ==
            PairCost(PartOf(a, m, depth), PartOf(b, m, depth), m)
  {
    var cs := [a, b];
    assert cs[1..] == [b] && [b][1..] == [];
    assert Parts(cs, m, depth) == [PartOf(a, m, depth), PartOf(b, m, depth)];
    ClauseNonNegative(a, m, depth);
    ClauseNonNegative(b, m, depth);
    PairTotal(PartOf(a, m, depth), PartOf(b, m, depth), m);
  }

  /** What a survivor costs alone beyond its share as a clause: a term without a field of its own
      searches the inherited field then, and is no longer charged for being excluded. */
  function Extra(c: Clause, m: Model, field: string, depth: nat): real {
    if c.field != "" then 0.0
    else Cost(c.term, m, field, depth) - Cost(c.term, m, "", depth) - (if c.occur == MustNot then 2.0 else 0.0)
  }

  lemma LoneExtra(c: Clause, m: Model, field: string, depth: nat)
    ensures LoneCost(c, m, field, depth) == ClauseCost(c, m, depth) + Extra(c, m, field, depth)
  {
  }

  /** What the clause y brings to a pair with x: its cost, a tenth of it if excluded, and the
      penalties. Of two required clauses, and of an excluded one before a required one, only the
      dearer share counts, so there y brings its excess over the share of x. */
  function Brings(y: Part, x: Part, first: bool, m: Model): real {
    match (x.occur, y.occur)
    case (Should, Should) => y.cost + 2.0 * m.orClauseCost
    case (Should, MustNot) => 0.1 * y.cost + m.orClauseCost
    case (Must, Must) => Max(0.0, y.cost - x.cost)
    case (Must, MustNot) => if first then 0.1 * y.cost else Max(0.0, 0.1 * y.cost - x.cost)
    case (MustNot, MustNot) => 0.1 * y.cost
    case (MustNot, Must) => if first then Max(0.0, y.cost - 0.1 * x.cost) else y.cost
    case _ => y.cost + m.orClauseCost
  }

  /** What the clause y brings to the pair covers what the survivor x costs more alone, and nine
      tenths of x if it was excluded. */
  predicate Covers(x: Part, y: Part, extra: real, first: bool, m: Model) {
    Brings(y, x, first, m) >=
    extra + (if x.occur == MustNot then 0.9 * x.cost else 0.0)
  }

  lemma {:induction false} CoversPair(a: Part, b: Part, extra: real, m: Model)
    requires a.cost >= 0.0 && b.cost >= 0.0
    ensures a.cost + extra <= PairCost(a, b, m) <==> Covers(a, b, extra, true, m)
    ensures b.cost + extra <= PairCost(a, b, m) <==> Covers(b, a, extra, false, m)
  {
  }

  /** Of a pair, clause i can be removed without making the query dearer. */
  predicate PairAllows(cs: seq<Clause>, i: nat, m: Model, field: string, depth: nat)
    requires |cs| == 2 && i < 2
  {
    var (c, extra) := (cs[1 - i], Extra(cs[1 - i], m, field, depth));
    Covers(PartOf(c, m, depth), PartOf(cs[i], m, depth), extra, i == 1, m)
  }

  /** Removing one of two clauses leaves a query no dearer than before exactly when the pair
      allows it. */
  lemma {:induction false} PairRemoval(cs: seq<Clause>, i: nat, m: Model, field: string, depth: nat)
    requires NonNegativeModel(m) && |cs| == 2 && i < 2
    ensures Cost(Collapse(Without(cs, i)), m, field, depth) <= Cost(Boolean(cs), m, field, depth) <==>
            PairAllows(cs, i, m, field, depth)
  {
    var c := cs[1 - i];
    assert Without(cs, i) == [c] && cs == [cs[0], cs[1]];
    LoneIsCollapsed(c, m, field, depth);
    LoneExtra(c, m, field, depth);
    hide Cost, ClauseCost, Extra, LoneCost, Covers, PairCost, NonNegativeModel;
    PairCosts(cs[0], cs[1], m, field, depth);
    ClauseNonNegative(cs[0], m, depth);
    ClauseNonNegative(cs[1], m, depth);
    CoversPair(PartOf(cs[0], m, depth), PartOf(cs[1], m, depth), Extra(c, m, field, depth), m);
  }

  /** A survivor that is not excluded, and names a field or stands where none is searched, never
      costs more alone. */
  lemma {:induction false} KeptAlone(cs: seq<Clause>, i: nat, m: Model, field: string, depth: nat)
    requires NonNegativeModel(m) && |cs| == 2 && i < 2
    requires cs[1 - i].occur != MustNot && (cs[1 - i].field != "" || field == "")
    ensures PairAllows(cs, i, m, field, depth)
  {
    assert Extra(cs[1 - i], m, field, depth) == 0.0;
    hide Extra, ClauseCost;
    ClauseNonNegative(cs[i], m, depth);
  }

  /** When the survivor is excluded and names a field, what matters is the clause removed: only a
      tenth of the survivor was counted, or nothing beside a dearer required clause after it. */
  lemma {:induction false} ExcludedAlone(cs: seq<Clause>, i: nat, m: Model, field: string, depth: nat)
    requires NonNegativeModel(m) && |cs| == 2 && i < 2
    requires cs[1 - i].occur == MustNot && cs[1 - i].field != ""
    ensures
      var (x, y) := (ClauseCost(cs[1 - i], m, depth), ClauseCost(cs[i], m, depth));
      PairAllows(cs, i, m, field, depth) <==>
      match cs[i].occur
      case Should => 0.9 * x <= y + m.orClauseCost
      case MustNot => 0.9 * x <= 0.1 * y
      case Must => if i == 0 then 0.9 * x <= y else x <= y
  {
    ClauseNonNegative(cs[0], m, depth);
    ClauseNonNegative(cs[1], m, depth);
    hide ClauseCost;
  }

  /** When it names none and none is searched where it stands, x being the cost of its term: a
      tenth of the charge for excluding it was counted besides. */
  lemma {:induction false} BareExcludedAlone(cs: seq<Clause>, i: nat, m: Model, depth: nat)
    requires NonNegativeModel(m) && |cs| == 2 && i < 2
    requires cs[1 - i].occur == MustNot && cs[1 - i].field == ""
    ensures
      var (x, y) := (Cost(cs[1 - i].term, m, "", depth), ClauseCost(cs[i], m, depth));
      PairAllows(cs, i, m, "", depth) <==>
      match cs[i].occur
      case Should => 0.9 * x <= y + m.orClauseCost + 0.2
      case MustNot => 0.9 * x <= 0.1 * y + 0.2
      case Must => if i == 0 then 0.9 * x <= y + 0.2 else x <= y || 9.0 * x <= 2.0
  {
    BareClauseCost(cs[1 - i], m, depth);
    assert Extra(cs[1 - i], m, "", depth) == -2.0;
    hide Cost, ClauseCost, Extra;
  }

  /** A clause without a field costs its term, and two more when it is excluded. */
  lemma BareClauseCost(c: Clause, m: Model, depth: nat)
    ensures c.field == "" ==>
      ClauseCost(c, m, depth) == Cost(c.term, m, "", depth) + (if c.occur == MustNot then 2.0 else 0.0)
  {
  }

  // ---------- leaves under an inherited field ----------

  /** What a leaf costs more on a field than where none is searched: its rate times what the weight
      of the field exceeds the penalty of the default field by. No penalty is put on ranges open at
      both ends, nor either on a bare star; patterns on keyword fields are multiplied once more. */
  function LeafShift(n: Node, m: Model, field: string): real
    requires IsLeaf(n)
  {
    var over := FieldWeight(m, field) - m.defaultSearchFieldPenalty;
    match n
    case Term(v, wildcard, _) =>
      if v == "*" then 0.0
      else if !wildcard then m.termCost * over
      else m.termCost * over * m.wildcardMultiplier +
           (if IsKeywordField(field) then PatternCost(v, m, field) * (m.keywordWildcardMultiplier - 1.0) else 0.0)
    case Phrase(v) => m.phraseCost * PhraseWords(v) as real * over
    case Range(low, high, _, _) =>
      if IsOpenBound(low) && IsOpenBound(high) then m.openRangeCost * (FieldWeight(m, field) - 1.0)
      else m.rangeCost * over
  }

  /** A pattern before the multiplier of keyword fields. */
  function PatternCost(v: string, m: Model, field: string): real {
    m.termCost * FieldWeight(m, field) * m.wildcardMultiplier +
    (if StartsWithWildcard(v) then m.leadingWildcardCost else 0.0)
  }

  lemma SplitDifference(r: real, a: real, b: real)
    ensures r * (a - b) == r * a - r * b
  {
  }

  lemma {:induction false} TermShifts(v: string, wildcard: bool, prefix: bool, m: Model, field: string)
    requires field != ""
    ensures TermAmount(v, wildcard, m, field) ==
            TermAmount(v, wildcard, m, "") + LeafShift(Term(v, wildcard, prefix), m, field)
  {
    var w, p := FieldWeight(m, field), m.defaultSearchFieldPenalty;
    assert DefaultPenalty(m, field) == 1.0 && DefaultPenalty(m, "") == p && FieldWeight(m, "") == 1.0;
    assert !IsKeywordField("");
    hide FieldWeight, DefaultPenalty, IsKeywordField, StartsWithWildcard;
    var (a, b) := (m.termCost * w, m.termCost * p);
    assert m.termCost * w * 1.0 == a && m.termCost * 1.0 * p == b;
    SplitDifference(m.termCost, w, p);
    SplitDifference(m.wildcardMultiplier, a, b);
    if wildcard {
      var pattern := PatternCost(v, m, field);
      SplitDifference(pattern, m.keywordWildcardMultiplier, 1.0);
    }
  }

  lemma {:induction false} LeafShifts(n: Node, m: Model, field: string)
    requires IsLeaf(n) && field != ""
    ensures LeafEntry(n, m, field).amount == LeafEntry(n, m, "").amount + LeafShift(n, m, field)
  {
    var w, p := FieldWeight(m, field), m.defaultSearchFieldPenalty;
    assert DefaultPenalty(m, field) == 1.0 && DefaultPenalty(m, "") == p && FieldWeight(m, "") == 1.0;
    hide FieldWeight, DefaultPenalty, TermAmount, IsKeywordField;
    match n
    case Term(v, wildcard, _) => TermShifts(v, wildcard, n.prefix, m, field);
    case Phrase(v) => SplitDifference(m.phraseCost * PhraseWords(v) as real, w, p);
    case Range(_, _, _, _) =>
      SplitDifference(m.rangeCost, w, p);
      SplitDifference(m.openRangeCost, w, 1.0);
  }

  /** In a group on a field, a leaf that is optional or required and names no field can be left
      alone exactly when the clause removed brought as much as the leaf costs more on the field. */
  lemma {:induction false} LeafAlone(cs: seq<Clause>, i: nat, m: Model, field: string, depth: nat)
    requires |cs| == 2 && i < 2 && field != ""
    requires cs[1 - i].occur != MustNot && cs[1 - i].field == "" && IsLeaf(cs[1 - i].term)
    ensures
      var (c, o, y) := (cs[1 - i], cs[i], ClauseCost(cs[i], m, depth));
      var (x, e) := (LeafEntry(c.term, m, "").amount, LeafShift(c.term, m, field));
      PairAllows(cs, i, m, field, depth) <==>
      match (c.occur, o.occur)
      case (Should, Should) => e <= y + 2.0 * m.orClauseCost
      case (_, Should) => e <= y + m.orClauseCost
      case (Should, Must) => e <= y + m.orClauseCost
      case (Should, MustNot) => e <= 0.1 * y + m.orClauseCost
      case (_, Must) => e <= 0.0 || x + e <= y
      case (_, MustNot) => if i == 1 then e <= 0.1 * y else e <= 0.0 || x + e <= 0.1 * y
  {
    LeafShifts(cs[1 - i].term, m, field);
    BareClauseCost(cs[1 - i], m, depth);
    hide LeafEntry, LeafShift, ClauseCost;
  }

  /** Where the field weighs no more than the default field is penalised, no leaf but a pattern on
      a keyword field or a range open at both ends costs more alone. */
  lemma {:induction false} LightFieldAllows(cs: seq<Clause>, i: nat, m: Model, field: string, depth: nat)
    requires NonNegativeModel(m) && |cs| == 2 && i < 2 && field != ""
    requires cs[1 - i].occur != MustNot && cs[1 - i].field == "" && IsLeaf(cs[1 - i].term)
    requires FieldWeight(m, field) <= m.defaultSearchFieldPenalty
    requires !(cs[1 - i].term.Term? && cs[1 - i].term.wildcard && IsKeywordField(field))
    requires cs[1 - i].term.Range? ==> !(IsOpenBound(cs[1 - i].term.low) && IsOpenBound(cs[1 - i].term.high))
    ensures PairAllows(cs, i, m, field, depth)
  {
    LightShift(cs[1 - i].term, m, field);
    LeafAlone(cs, i, m, field, depth);
    ClauseNonNegative(cs[i], m, depth);
    hide LeafShift, LeafEntry, ClauseCost, PairAllows;
  }

  lemma {:induction false} LightShift(n: Node, m: Model, field: string)
    requires NonNegativeModel(m) && IsLeaf(n) && FieldWeight(m, field) <= m.defaultSearchFieldPenalty
    requires !(n.Term? && n.wildcard && IsKeywordField(field))
    requires n.Range? ==> !(IsOpenBound(n.low) && IsOpenBound(n.high))
    ensures LeafShift(n, m, field) <= 0.0
  {
    var over := FieldWeight(m, field) - m.defaultSearchFieldPenalty;
    hide FieldWeight;
    MulNonNegative(m.termCost, -over);
    MulNonNegative(m.termCost * -over, m.wildcardMultiplier);
    MulNonNegative(m.rangeCost, -over);
    if n.Phrase? {
      MulNonNegative(m.phraseCost, PhraseWords(n.value) as real);
      MulNonNegative(m.phraseCost * PhraseWords(n.value) as real, -over);
    }
  }

  // ---------- anywhere in the query ----------

  /** The Boolean the clause is removed from keeps at least two clauses, or is a pair that allows
      the removal. */
  predicate Allows(n: Node, place: seq<nat>, m: Model, field: string, depth: nat)
    decreases n, 0
  {
    match n
    case Group(q) => Allows(q, place, m, field, depth + 1)
    case Single(c) => Allows(c.term, place, m, c.field, depth)
    case Boolean(cs) =>
      if place == [] || place[0] >= |cs| then true
      else if |place| == 1 then |cs| != 2 || PairAllows(cs, place[0], m, field, depth)
      else Allows(cs[place[0]].term, place[1..], m, cs[place[0]].field, depth)
    case _ => true
  }

  lemma {:induction false} ExtendsSelf(cs: seq<Clause>, m: Model, depth: nat)
    ensures ExtendsClauses(cs, cs, m, depth)
  {
    if cs != [] {
      ExtendsSelf(cs[1..], m, depth);
    }
  }

  lemma {:induction false} ExtendsDropped(cs: seq<Clause>, i: nat, m: Model, depth: nat)
    requires i < |cs|
    ensures ExtendsClauses(Without(cs, i), cs, m, depth)
  {
    var a := Without(cs, i);
    if i == 0 {
      assert a == cs[1..];
      ExtendsSelf(cs[1..], m, depth);
    } else {
      ExtendsDropped(cs[1..], i - 1, m, depth);
      assert a[1..] == Without(cs[1..], i - 1);
    }
  }

  lemma {:induction false} ExtendsReplaced(cs: seq<Clause>, i: nat, c: Clause, m: Model, depth: nat)
    requires i < |cs| && ExtendsClause(c, cs[i], m, depth)
    ensures ExtendsClauses(cs[i := c], cs, m, depth)
  {
    if i == 0 {
      ExtendsSelf(cs[1..], m, depth);
      assert cs[i := c][1..] == cs[1..];
    } else {
      ExtendsReplaced(cs[1..], i - 1, c, m, depth);
      assert cs[i := c][1..] == cs[1..][i - 1 := c];
    }
  }

  lemma {:induction false} DropExtends(cs: seq<Clause>, i: nat, m: Model, field: string, depth: nat)
    requires NonNegativeModel(m) && i < |cs| && |cs| != 1
    requires |cs| == 2 ==> PairAllows(cs, i, m, field, depth)
    ensures Extends(Collapse(Without(cs, i)), Boolean(cs), m, field, depth)
  {
    if |cs| == 2 {
      PairRemoval(cs, i, m, field, depth);
    } else {
      ExtendsDropped(cs, i, m, depth);
    }
  }

  lemma {:induction false} RemoveExtends(n: Node, place: seq<nat>, m: Model, field: string, depth: nat)
    requires WfQuery(n) && NonNegativeModel(m) && Allows(n, place, m, field, depth)
    ensures Extends(Remove(n, place), n, m, field, depth)
    decreases n, 0
  {
    match n
    case Group(q) => RemoveExtends(q, place, m, field, depth + 1);
    case Single(c) =>
      TermIsQuery(c.term);
      RemoveExtends(c.term, place, m, c.field, depth);
    case Boolean(cs) =>
      if place != [] && place[0] < |cs| {
        if |place| == 1 {
          DropExtends(cs, place[0], m, field, depth);
        } else {
          var c := cs[place[0]];
          assert WfClause(c);
          TermIsQuery(c.term);
          RemoveExtends(c.term, place[1..], m, c.field, depth);
          ExtendsReplaced(cs, place[0], c.(term := Remove(c.term, place[1..])), m, depth);
        }
      }
    case _ =>
  }

  /** Removing a clause, however deeply nested, does not raise the cost reported, as long as two
      clauses are left beside each other or the pair allows it. */
  lemma {:induction false} RemoveNeverDearer(n: Node, place: seq<nat>, m: Model)
    requires WfQuery(n) && NonNegativeModel(m) && Allows(n, place, m, "", 0)
    ensures SummaryOf(Remove(n, place), m).cost <= SummaryOf(n, m).cost
  {
    RemoveExtends(n, place, m, "", 0);
    ReportMonotone(Remove(n, place), n, m);
  }

  /** For the clauses of the query itself the condition is exact. */
  lemma {:induction false} RemoveExactly(cs: seq<Clause>, i: nat, m: Model)
    requires WfQuery(Boolean(cs)) && NonNegativeModel(m) && i < |cs|
    ensures Cost(Remove(Boolean(cs), [i]), m, "", 0) <= Cost(Boolean(cs), m, "", 0) <==>
            Allows(Boolean(cs), [i], m, "", 0)
  {
    if |cs| == 2 {
      PairRemoval(cs, i, m, "", 0);
    } else {
      RemoveExtends(Boolean(cs), [i], m, "", 0);
      CostMonotone(Remove(Boolean(cs), [i]), Boolean(cs), m, "", 0);
    }
  }

  // ---------- the cost limit ----------

  function CostRule(limits: map<string, real>, defaultLimit: real, n: Node, m: Model, plan: string): Verdict {
    CostVerdict(limits, defaultLimit, SummaryOf(n, m).cost, plan)
  }

  /** Such a removal never turns a pass of the cost limit into a denial. */
  lemma {:induction false} RemovalStillPasses(limits: map<string, real>, defaultLimit: real,
                                              n: Node, place: seq<nat>, m: Model, plan: string)
    requires WfQuery(n) && NonNegativeModel(m) && Allows(n, place, m, "", 0)
    requires CostRule(limits, defaultLimit, n, m, plan).Pass?
    ensures CostRule(limits, defaultLimit, Remove(n, place), m, plan).Pass?
  {
    RemoveNeverDearer(n, place, m);
  }

  // ---------- removals that make a query dearer ----------

  const LEADING := MakeTerm("*foo")
  const WORD_A := MakeTerm("cheap")

  lemma {:induction false} LimitOf50(n: Node, m: Model)
    ensures
      var v := CostRule(map["free" := 50.0], 100.0, n, m, "free");
      (Cost(n, m, "", 0) <= 49.0 ==> v.Pass?) && (Cost(n, m, "", 0) >= 51.0 ==> v.Deny?)
  {
    hide Cost, Round;
    RoundIsNearest(Cost(n, m, "", 0));
    var limits := map["free" := 50.0];
    assert "free" in limits && limits["free"] == 50.0;
  }

  lemma {:induction false} SampleCosts(m: Model)
    requires m == DEFAULT_MODEL || m == DEFAULT_MODEL.(fieldWeights := map["f" := 20.0])
    ensures Cost(LEADING, m, "", 0) == 70.0
    ensures Cost(WORD_A, m, "", 0) == 2.0 && Cost(WORD_A, m, "", 1) == 2.0
    ensures NonNegativeModel(m)
  {
    WordShapes();
    assert LEADING.value[0] == '*';
    assert TermAmount("*foo", true, m, "") == 70.0;
  }

  lemma {:induction false} WordShapes()
    ensures LEADING == Term("*foo", true, false) && WORD_A == Term("cheap", false, false)
  {
    var v := "*foo";
    assert IsWildcard(v[0]);
    assert forall i :: 0 <= i < |"cheap"| ==> !IsWildcard("cheap"[i]);
  }

  const EXCLUDED := Clause(MustNot, "", LEADING)
  const CHEAP := Clause(Should, "", WORD_A)

  /** The query -*foo cheap. */
  function ExcludedOrCheap(): Node {
    Boolean([EXCLUDED, CHEAP])
  }

  lemma {:induction false} SampleClauses()
    ensures Settled(EXCLUDED) && Settled(CHEAP) && !StartsWithOperator(CHEAP)
    ensures PrintClause(EXCLUDED) == "-*foo" && PrintClause(CHEAP) == "cheap"
  {
    hide MakeTerm, Settled, StartsWithOperator;
    WordSettled(MustNot, "*foo");
    WordSettled(Should, "cheap");
    assert "-" + "*foo" == "-*foo" && "" + "cheap" == "cheap";
    hide PrintClause;
    NoOperatorLetters(CHEAP);
  }

  /** Both queries read as what their texts were written for. */
  lemma {:induction false} SampleTexts()
    ensures Parse("-*foo cheap") == Done(ExcludedOrCheap()) && Parse("-*foo") == Done(LEADING)
  {
    hide PrintClause, Parse, StartsWithOperator, Settled;
    SampleClauses();
    PairRead(EXCLUDED, CHEAP);
    assert "-*foo" + " " + "cheap" == "-*foo cheap";
    LoneRead(EXCLUDED);
  }

  lemma {:induction false} ExcludedOrCheapCosts(m: Model)
    requires NonNegativeModel(m) && m.orClauseCost == 3.0
    requires Cost(LEADING, m, "", 0) == 70.0 && Cost(WORD_A, m, "", 0) == 2.0
    ensures Cost(ExcludedOrCheap(), m, "", 0) == 12.2 && !Allows(ExcludedOrCheap(), [1], m, "", 0)
  {
    hide Cost;
    var cs := ExcludedOrCheap().clauses;
    BareClauseCost(cs[0], m, 0);
    BareClauseCost(cs[1], m, 0);
    PairCosts(cs[0], cs[1], m, "", 0);
  }

  /** Under the default model -*foo cheap costs 12.2 and passes a limit of 50; without cheap it is
      the query -*foo, which reads as *foo, costs 70 and is denied. */
  lemma {:induction false} RemovalDenied()
    ensures
      var (n, m) := (ExcludedOrCheap(), DEFAULT_MODEL);
      Parse("-*foo cheap") == Done(n) && Parse("-*foo") == Done(LEADING) &&
      Remove(n, [1]) == LEADING && !Allows(n, [1], m, "", 0) &&
      Cost(n, m, "", 0) == 12.2 && Cost(LEADING, m, "", 0) == 70.0 &&
      CostRule(map["free" := 50.0], 100.0, n, m, "free").Pass? &&
      CostRule(map["free" := 50.0], 100.0, Remove(n, [1]), m, "free").Deny?
  {
    hide Cost, CostRule, Allows, Remove, ExcludedOrCheap, NonNegativeModel, Parse, MakeTerm;
    SampleTexts();
    var m := DEFAULT_MODEL;
    SampleCosts(m);
    assert m.orClauseCost == 3.0;
    ExcludedOrCheapCosts(m);
    LimitOf50(ExcludedOrCheap(), m);
    LimitOf50(LEADING, m);
    CheapRemoved();
  }

  lemma CheapRemoved()
    ensures Remove(ExcludedOrCheap(), [1]) == LEADING
  {
    var cs := ExcludedOrCheap().clauses;
    assert Without(cs, 1) == [cs[0]];
  }

  /** A group of two words on the field f, and of one. */
  function WordsOn(f: string): Node {
    Single(Clause(Should, f, Group(Boolean([Clause(Should, "", WORD_A), Clause(Should, "", WORD_A)]))))
  }

  function WordOn(f: string): Node {
    Single(Clause(Should, f, Group(WORD_A)))
  }

  lemma {:induction false} PairOfWords(m: Model)
    requires NonNegativeModel(m) && m.orClauseCost == 3.0 && Cost(WORD_A, m, "", 1) == 2.0
    ensures
      var w := Clause(Should, "", WORD_A);
      Cost(Boolean([w, w]), m, "f", 1) == 10.0
  {
    hide Cost;
    var w := Clause(Should, "", WORD_A);
    BareClauseCost(w, m, 1);
    PairCosts(w, w, m, "f", 1);
  }

  /** A group on a field of weight 20 costs twenty times its query and the depth charge. */
  lemma {:induction false} HeavyGroup(q: Node, m: Model)
    requires FieldWeight(m, "f") == 20.0 && m.depthCost == 1.0
    ensures Cost(Single(Clause(Should, "f", Group(q))), m, "", 0) == (Cost(q, m, "f", 1) + 1.0) * 20.0
  {
    var x := Cost(q, m, "f", 1);
    assert Cost(Group(q), m, "f", 0) == x + 1.0;
  }

  lemma {:induction false} WordOnHeavyField(m: Model)
    ensures m == DEFAULT_MODEL.(fieldWeights := map["f" := 20.0]) ==>
      FieldWeight(m, "f") == 20.0 && Cost(WORD_A, m, "f", 1) == 20.0
  {
    if m == DEFAULT_MODEL.(fieldWeights := map["f" := 20.0]) {
      WordShapes();
    }
  }

  /** On a field of weight 20, f:(cheap cheap) costs 220 and f:(cheap) costs 420: alone in the
      group the word searches the field, beside another it does not. */
  lemma {:induction false} GroupRemovalDearer(m: Model)
    requires m == DEFAULT_MODEL.(fieldWeights := map["f" := 20.0])
    ensures Remove(WordsOn("f"), [1]) == WordOn("f") && !Allows(WordsOn("f"), [1], m, "", 0)
    ensures Cost(WordsOn("f"), m, "", 0) == 220.0 && Cost(WordOn("f"), m, "", 0) == 420.0
  {
    hide Cost, FieldWeight, NonNegativeModel, Allows, PairAllows, Remove;
    var w := Clause(Should, "", WORD_A);
    SampleCosts(m);
    WordOnHeavyField(m);
    HeavyGroup(Boolean([w, w]), m);
    HeavyGroup(WORD_A, m);
    PairOfWords(m);
    WordRemoved(m);
    PairRemoval([w, w], 1, m, "f", 1);
  }

  lemma {:induction false} WordRemoved(m: Model)
    ensures Remove(WordsOn("f"), [1]) == WordOn("f")
    ensures
      var w := Clause(Should, "", WORD_A);
      Collapse(Without([w, w], 1)) == WORD_A &&
      (Allows(WordsOn("f"), [1], m, "", 0) <==> PairAllows([w, w], 1, m, "f", 1))
  {
    hide PairAllows;
    var w := Clause(Should, "", WORD_A);
    assert Without([w, w], 1) == [w];
  }
}
