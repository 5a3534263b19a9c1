/** What single clauses cost and are charged for under the default model, in numbers and names. */
module Prices {
  import opened Ast
  import opened Spelling
  import opened CostModel

  predicate OnKeyword(f: string) {
    |f| >= 8 && f[|f| - 8..] == ".keyword"
  }

  /** A pattern that begins with a star or a question mark. */
  predicate Leads(v: string) {
    "*" <= v || "?" <= v
  }

  /** The name a word is charged under. */
  ghost function WordName(v: string, f: string): string {
    if v == "*" then "match_all"
    else if !WrittenAsPattern(v) then "term"
    else
      (if WrittenAsPrefix(v) then "prefix_wildcard" else if Leads(v) then "leading_wildcard" else "wildcard") +
      (if OnKeyword(f) then "_keyword" else "")
  }

  /** A word costs 2 where no field is named and 1 on a field, or a quarter on the field asn, whose
      weight of a half counts twice; a pattern ten times as much, 50 more if it begins with a
      wildcard, and three times that on a keyword field; the bare star 100. */
  lemma {:induction false} WordPrice(v: string, f: string, depth: nat)
    ensures
      var (m, n) := (DEFAULT_MODEL, WordNode(v));
      var price := (if f == "" then 2.0 else if f == "asn" then 0.5 else 1.0) *
                   (if WrittenAsPattern(v) then 10.0 else 1.0) +
                   (if WrittenAsPattern(v) && Leads(v) then 50.0 else 0.0);
      var charge := if v == "*" then 100.0 else if WrittenAsPattern(v) && OnKeyword(f) then price * 3.0 else price;
      Entries(n, m, f, depth) == [Entry(WordName(v, f), charge)] &&
      ClauseCost(Clause(Should, f, n), m, depth) == charge * (if f == "asn" then 0.5 else 1.0)
  {
    var m := DEFAULT_MODEL;
    assert FieldWeight(m, f) == if f == "asn" then 0.5 else 1.0;
    assert StartsWithWildcard(v) <==> Leads(v);
    assert IsKeywordField(f) <==> OnKeyword(f);
    hide FieldWeight, StartsWithWildcard, IsKeywordField, Leads, OnKeyword, WrittenAsPattern, WrittenAsPrefix;
  }

  /** A phrase costs 4 for each of its words where no field is named and 2 on a field, and for one
      word if it has none. */
  lemma {:induction false} PhrasePrice(v: string, f: string, depth: nat)
    ensures
      var words := if WordCount(v) == 0 then 1.0 else WordCount(v) as real;
      var charge := words * if f == "" then 4.0 else if f == "asn" then 1.0 else 2.0;
      Entries(Phrase(v), DEFAULT_MODEL, f, depth) == [Entry("phrase", charge)] &&
      ClauseCost(Clause(Should, f, Phrase(v)), DEFAULT_MODEL, depth) == charge * (if f == "asn" then 0.5 else 1.0)
  {
    assert FieldWeight(DEFAULT_MODEL, f) == if f == "asn" then 0.5 else 1.0;
    hide FieldWeight, WordCount;
  }

  /** A range costs 10 where no field is named and 5 on a field; with both ends open 50 on either. */
  lemma {:induction false} RangePrice(low: string, high: string, inclusive: bool, f: string, depth: nat)
    ensures
      var n := Range(low, high, inclusive, inclusive);
      var open := (low == "*" || low == "") && (high == "*" || high == "");
      var charge := if f == "asn" then (if open then 25.0 else 2.5) else if open then 50.0 else if f == "" then 10.0 else 5.0;
      Entries(n, DEFAULT_MODEL, f, depth) == [Entry(if open then "open_range" else "range", charge)] &&
      ClauseCost(Clause(Should, f, n), DEFAULT_MODEL, depth) == charge * (if f == "asn" then 0.5 else 1.0)
  {
    assert FieldWeight(DEFAULT_MODEL, f) == if f == "asn" then 0.5 else 1.0;
    hide FieldWeight;
  }

  /** A group costs one more for each level it is deep, excluding a clause two more, and every
      optional clause beside others three more. */
  lemma {:induction false} Surcharges(q: Node, c: Clause, cs: seq<Clause>, m: Model, f: string, depth: nat)
    requires m == DEFAULT_MODEL
    ensures Cost(Group(q), m, f, depth) == Cost(q, m, f, depth + 1) + (depth + 1) as real
    ensures Entries(Group(q), m, f, depth) == [Entry("depth", (depth + 1) as real)] + Entries(q, m, f, depth + 1)
    ensures ClauseCost(c.(occur := MustNot), m, depth) == ClauseCost(c.(occur := Should), m, depth) + 2.0
    ensures ClauseEntries(c.(occur := MustNot), m, depth) ==
            ClauseEntries(c.(occur := Should), m, depth) + [Entry("must_not", 2.0)]
    ensures
      var k := Optionals(cs);
      Cost(Boolean(cs), m, f, depth) ==
      MustFrom(0.0, Parts(cs, m, depth)) + ShouldSum(Parts(cs, m, depth)) + 3.0 * k as real &&
      Entries(Boolean(cs), m, f, depth) ==
      ClausesEntries(cs, m, depth) + (if k > 0 then [Entry("or_clauses", 3.0 * k as real)] else [])
  {
    OptionalsCounted(cs, m, depth);
    assert Entries(c.term, m, c.field, depth) + [] == Entries(c.term, m, c.field, depth);
    hide Parts, ShouldSum, MustFrom, ShouldCount, ClausesEntries;
  }

  function Occurs(cs: seq<Clause>): seq<Occur> {
    seq(|cs|, i requires 0 <= i < |cs| => cs[i].occur)
  }

  function Optionals(cs: seq<Clause>): nat {
    multiset(Occurs(cs))[Should]
  }

  lemma {:induction false} OptionalsCounted(cs: seq<Clause>, m: Model, depth: nat)
    ensures ShouldCount(Parts(cs, m, depth)) == Optionals(cs)
  {
    hide ClauseCost;
    if cs != [] {
      OptionalsCounted(cs[1..], m, depth);
      assert Occurs(cs) == [cs[0].occur] + Occurs(cs[1..]);
      var p := Part(cs[0].occur, ClauseCost(cs[0], m, depth));
      assert Parts(cs, m, depth) == [p] + Parts(cs[1..], m, depth);
      hide Occurs, Parts;
      assert ([p] + Parts(cs[1..], m, depth))[1..] == Parts(cs[1..], m, depth);
    }
  }

  /** Costs are rounded to the nearest hundredth, halves upwards. */
  lemma {:induction false} RoundedCost(x: real, k: nat)
    requires k as real - 0.5 <= x * 100.0 < k as real + 0.5 && x >= 0.0
    ensures Round(x) == k as real / 100.0
  {
    WholeRounded(x * 100.0, k);
    hide RoundWhole;
  }

  lemma {:induction false} WholeRounded(y: real, k: nat)
    requires k as real - 0.5 <= y < k as real + 0.5 && y >= 0.0
    ensures RoundWhole(y) == k
  {
  }

  /** An absent node costs nothing, and neither does a query of no clause. */
  lemma NothingCosts(m: Model)
    ensures SummaryOf(Nil, m) == SummaryOf(Boolean([]), m) == Summary(0.0, map[], [])
  {
  }
}
