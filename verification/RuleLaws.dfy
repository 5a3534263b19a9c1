/** Which queries the rules deny, and which changes to a query they never punish. */
module RuleLaws {
  import opened Ast
  import opened Grammar
  import opened NormalForm
  import opened CostModel
  import opened CostLaws
  import opened ReportLaws
  import opened Rules

  predicate PositiveWeights(m: Model) {
    m.defaultFieldWeight > 0.0 && forall f :: f in m.fieldWeights ==> m.fieldWeights[f] > 0.0
  }

  /** The verdict of a rule that forbids one feature. */
  function Forbids(feature: string, n: Node, m: Model): Verdict {
    FeatureVerdict([feature], SummaryOf(n, m).breakdown)
  }

  lemma {:induction false} DeniedWhenCharged(n: Node, m: Model, feature: string)
    requires IsLeafKey(feature) && AllPositive(Leaves(n, ""), m, feature)
    ensures Forbids(feature, n, m).Deny? <==> Charged(Leaves(n, ""), m, feature)
  {
    FeatureCharged(n, m, "", 0, feature);
    PostAllAt(map[], Entries(n, m, "", 0), feature);
    NotListed(Entries(n, m, "", 0), feature);
    FeaturePasses([feature], SummaryOf(n, m).breakdown);
  }

  lemma {:induction false} NotListed(es: seq<Entry>, key: string)
    ensures key !in Keys(es) ==> SumOf(es, key) == 0.0
  {
    if es != [] {
      NotListed(es[1..], key);
      assert Keys(es) == [es[0].key] + Keys(es[1..]);
    }
  }

  /** The keys of the charges on leaves, told apart. */
  lemma {:induction false} TermKeys(v: string, wildcard: bool, prefix: bool, m: Model, field: string)
    ensures
      var key := TermEntry(v, wildcard, prefix, m, field).key;
      key != "open_range" && key != "depth" &&
      (key == "match_all" <==> v == "*") &&
      (key == "leading_wildcard" <==>
        v != "*" && wildcard && !prefix && StartsWithWildcard(v) && !IsKeywordField(field))
  {
    assert ("wildcard" + "_keyword")[0] == 'w' && ("prefix_wildcard" + "_keyword")[0] == 'p';
    assert |"leading_wildcard" + "_keyword"| == 24;
  }

  // ---------- match_all ----------

  /** A bare star anywhere in the query. */
  predicate HasStar(n: Node) {
    exists l :: l in Leaves(n, "") && l.leaf.Term? && l.leaf.value == "*"
  }

  lemma {:induction false} MatchAllDenied(n: Node, m: Model)
    requires m.matchAllCost > 0.0
    ensures Forbids("match_all", n, m).Deny? <==> HasStar(n)
  {
    var ls := Leaves(n, "");
    forall l | l in ls
      ensures
        var e := LeafEntry(l.leaf, m, l.field);
        (e.key == "match_all" <==> l.leaf.Term? && l.leaf.value == "*") &&
        (e.key == "match_all" ==> e.amount > 0.0)
    {
      if l.leaf.Term? {
        TermKeys(l.leaf.value, l.leaf.wildcard, l.leaf.prefix, m, l.field);
      }
    }
    DeniedWhenCharged(n, m, "match_all");
  }

  // ---------- open_range ----------

  /** A range with a star, or nothing, at either end. */
  predicate IsOpenRange(n: Node) {
    n.Range? && (n.low == "*" || n.low == "") && (n.high == "*" || n.high == "")
  }

  lemma RangeKeys(low: string, high: string, m: Model, field: string)
    ensures
      var (a, b) := (RangeEntry(low, high, m, field), IsOpenRange(Range(low, high, true, true)));
      a == (if b then Entry("open_range", m.openRangeCost * FieldWeight(m, field)) else a.(key := "range"))
  {
  }

  predicate HasOpenRange(n: Node) {
    exists l :: l in Leaves(n, "") && IsOpenRange(l.leaf)
  }

  lemma {:induction false} OpenRangeDenied(n: Node, m: Model)
    requires m.openRangeCost > 0.0 && PositiveWeights(m)
    ensures Forbids("open_range", n, m).Deny? <==> HasOpenRange(n)
  {
    var ls := Leaves(n, "");
    forall l | l in ls
      ensures
        var e := LeafEntry(l.leaf, m, l.field);
        (e.key == "open_range" <==> IsOpenRange(l.leaf)) &&
        (e.key == "open_range" ==> e.amount > 0.0)
    {
      if l.leaf.Term? {
        TermKeys(l.leaf.value, l.leaf.wildcard, l.leaf.prefix, m, l.field);
      } else if l.leaf.Range? {
        RangeKeys(l.leaf.low, l.leaf.high, m, l.field);
        assert "range"[0] == 'r' && "open_range"[0] == 'o';
        MulPositive(m.openRangeCost, FieldWeight(m, l.field));
      } else {
        assert "phrase"[0] == 'p' && "open_range"[0] == 'o';
      }
    }
    DeniedWhenCharged(n, m, "open_range");
  }

  lemma MulPositive(a: real, b: real)
    ensures a > 0.0 && b > 0.0 ==> a * b > 0.0
  {
  }

  // ---------- leading_wildcard ----------

  /** A term that begins with a wildcard, match-all aside, outside keyword fields. */
  predicate IsLeadingWildcard(l: Placed) {
    l.leaf.Term? && l.leaf.value != "*" && ("*" <= l.leaf.value || "?" <= l.leaf.value) &&
    !(|l.field| >= 8 && l.field[|l.field| - 8..] == ".keyword")
  }

  lemma {:induction false} LeavesForm(n: Node, field: string)
    requires WfQuery(n)
    ensures forall l :: l in Leaves(n, field) ==> WfTerm(l.leaf)
    decreases n, 0
  {
    match n
    case Group(q) => LeavesForm(q, field);
    case Single(c) =>
      TermIsQuery(c.term);
      LeavesForm(c.term, c.field);
    case Boolean(cs) => ClauseLeavesForm(cs);
    case _ =>
  }

  lemma {:induction false} ClauseLeavesForm(cs: seq<Clause>)
    requires WfClauses(cs)
    ensures forall l :: l in ClauseLeaves(cs) ==> WfTerm(l.leaf)
    decreases cs, 0
  {
    if cs != [] {
      TermIsQuery(cs[0].term);
      LeavesForm(cs[0].term, cs[0].field);
      ClauseLeavesForm(cs[1..]);
    }
  }

  lemma {:induction false} LeadingIsNotPrefix(v: string)
    ensures StartsWithWildcard(v) && v != "*" ==> HasWildcard(v) && !IsPrefixPattern(v)
  {
    if StartsWithWildcard(v) && v != "*" {
      assert IsWildcard(v[0]);
      if |v| > 1 {
        assert IsWildcard(v[..|v| - 1][0]);
      }
    }
  }

  /** Forbidding leading wildcards denies a parsed query exactly when one stands outside the
      keyword fields: on a field whose name ends in .keyword the same term is charged under
      another name and passes. */
  lemma {:induction false} LeadingWildcardDenied(n: Node, m: Model)
    requires WfQuery(n) && NonNegativeModel(m) && m.leadingWildcardCost > 0.0
    ensures Forbids("leading_wildcard", n, m).Deny? <==>
            exists l :: l in Leaves(n, "") && IsLeadingWildcard(l)
  {
    var ls := Leaves(n, "");
    LeavesForm(n, "");
    forall l | l in ls
      ensures
        var e := LeafEntry(l.leaf, m, l.field);
        (e.key == "leading_wildcard" <==> IsLeadingWildcard(l)) &&
        (e.key == "leading_wildcard" ==> e.amount > 0.0)
    {
      if l.leaf.Term? {
        var v := l.leaf.value;
        TermKeys(v, l.leaf.wildcard, l.leaf.prefix, m, l.field);
        if StartsWithWildcard(v) && v != "*" {
          LeadingIsNotPrefix(v);
        }
        if IsLeadingWildcard(l) {
          LeadingPositive(v, m, l.field);
        }
      }
    }
    DeniedWhenCharged(n, m, "leading_wildcard");
  }

  lemma {:induction false} LeadingPositive(v: string, m: Model, field: string)
    requires NonNegativeModel(m) && m.leadingWildcardCost > 0.0
    requires v != "*" && StartsWithWildcard(v) && !IsKeywordField(field)
    ensures TermEntry(v, true, false, m, field).amount > 0.0
  {
    var w, p := FieldWeight(m, field), DefaultPenalty(m, field);
    MulNonNegative(m.termCost, w);
    MulNonNegative(m.termCost * w, p);
    MulNonNegative(m.termCost * w * p, m.wildcardMultiplier);
  }

  lemma {:induction false} PatternOnField(field: string, m: Model)
    requires IsField(field) && field != "" && NonNegativeModel(m) && m.leadingWildcardCost > 0.0
    ensures Forbids("leading_wildcard", Single(Clause(Should, field, MakeTerm("*x"))), m).Deny? <==>
            !IsKeywordField(field)
  {
    var n, l := Single(Clause(Should, field, MakeTerm("*x"))), Placed(MakeTerm("*x"), field);
    assert IsWord("*x") by {
      assert "*x"[1..] == "x" && "x"[1..] == "";
      assert WordLen("", false) == 0 && WordLen("x", false) == 1;
    }
    LeadingWildcardDenied(n, m);
    assert Leaves(n, "") == [l];
    assert l in Leaves(n, "");
  }

  /** The pattern *x passes on the field a.keyword, and is denied on the field a. */
  lemma {:induction false} KeywordFieldEscapes(m: Model)
    requires NonNegativeModel(m) && m.leadingWildcardCost > 0.0
    ensures Forbids("leading_wildcard", Single(Clause(Should, "a.keyword", MakeTerm("*x"))), m).Pass?
    ensures Forbids("leading_wildcard", Single(Clause(Should, "a", MakeTerm("*x"))), m).Deny?
  {
    CleanField("a.keyword");
    CleanField("a");
    assert "a.keyword"[1..] == ".keyword";
    PatternOnField("a.keyword", m);
    PatternOnField("a", m);
  }
}
