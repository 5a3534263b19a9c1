/** The estimated cost of a query: a number, and an itemised report of what was charged. */
module CostModel {
  import opened Text
  import opened Ast

  datatype Model = Model(
    termCost: real,
    phraseCost: real,
    wildcardMultiplier: real,
    leadingWildcardCost: real,
    matchAllCost: real,
    rangeCost: real,
    openRangeCost: real,
    orClauseCost: real,
    depthCost: real,
    keywordWildcardMultiplier: real,
    fieldWeights: map<string, real>,
    defaultFieldWeight: real,
    defaultSearchFieldPenalty: real)

  /** The model used unless the configuration says otherwise. */
  const DEFAULT_MODEL := Model(
    1.0, 2.0, 10.0, 50.0, 100.0, 5.0, 50.0, 3.0, 1.0, 3.0, map["asn" := 0.5], 1.0, 2.0)

  /** One charge in the report. */
  datatype Entry = Entry(key: string, amount: real)

  function Max(a: real, b: real): real {
    if a >= b then a else b
  }

  // ---------- leaves ----------

  function FieldWeight(m: Model, field: string): real {
    if field == "" then 1.0
    else if field in m.fieldWeights then m.fieldWeights[field]
    else m.defaultFieldWeight
  }

  function DefaultPenalty(m: Model, field: string): real {
    if field == "" then m.defaultSearchFieldPenalty else 1.0
  }

  predicate HasSuffix(s: string, suffix: string) {
    |suffix| <= |s| && s[|s| - |suffix|..] == suffix
  }

  predicate IsKeywordField(field: string) {
    HasSuffix(field, ".keyword")
  }

  predicate StartsWithWildcard(v: string) {
    v != "" && (v[0] == '*' || v[0] == '?')
  }

  function TermKey(v: string, wildcard: bool, prefix: bool, field: string): string {
    if v == "*" then "match_all"
    else if !wildcard then "term"
    else
      (if prefix then "prefix_wildcard"
       else if StartsWithWildcard(v) then "leading_wildcard"
       else "wildcard") +
      (if IsKeywordField(field) then "_keyword" else "")
  }

  function TermAmount(v: string, wildcard: bool, m: Model, field: string): real {
    if v == "*" then m.matchAllCost else
    var base := m.termCost * FieldWeight(m, field) * DefaultPenalty(m, field);
    if !wildcard then base else
    var cost := base * m.wildcardMultiplier + (if StartsWithWildcard(v) then m.leadingWildcardCost else 0.0);
    if IsKeywordField(field) then cost * m.keywordWildcardMultiplier else cost
  }

  function TermEntry(v: string, wildcard: bool, prefix: bool, m: Model, field: string): Entry {
    Entry(TermKey(v, wildcard, prefix, field), TermAmount(v, wildcard, m, field))
  }

  /** The number of words separated by white space. */
  function WordCount(v: string, inWord: bool := false): nat {
    if v == "" then 0
    else if IsSpace(v[0]) then WordCount(v[1..], false)
    else (if inWord then 0 else 1) + WordCount(v[1..], true)
  }

  /** Words on either side of any white space are counted apart, and text without white space is
      one word. */
  lemma {:induction false} WordsAdd(a: string, c: char, b: string, inWord: bool)
    requires IsSpace(c)
    ensures WordCount(a + [c] + b, inWord) == WordCount(a, inWord) + WordCount(b)
    ensures a != "" && (forall i :: 0 <= i < |a| ==> !IsSpace(a[i])) ==>
              WordCount(a, inWord) == if inWord then 0 else 1
  {
    var s := a + [c] + b;
    if a == "" {
      assert s[1..] == b;
    } else {
      assert s[1..] == a[1..] + [c] + b;
      WordsAdd(a[1..], c, b, !IsSpace(a[0]));
    }
  }

  function PhraseWords(v: string): nat {
    if WordCount(v) < 1 then 1 else WordCount(v)
  }

  function PhraseEntry(v: string, m: Model, field: string): Entry {
    Entry("phrase",
      m.phraseCost * PhraseWords(v) as real * FieldWeight(m, field) * DefaultPenalty(m, field))
  }

  predicate IsOpenBound(b: string) {
    b == "*" || b == ""
  }

  function RangeEntry(low: string, high: string, m: Model, field: string): Entry {
    if IsOpenBound(low) && IsOpenBound(high) then
      Entry("open_range", m.openRangeCost * FieldWeight(m, field))
    else
      Entry("range", m.rangeCost * FieldWeight(m, field) * DefaultPenalty(m, field))
  }

  function LeafEntry(n: Node, m: Model, field: string): Entry
    requires IsLeaf(n)
  {
    match n
    case Term(v, wildcard, prefix) => TermEntry(v, wildcard, prefix, m, field)
    case Phrase(v) => PhraseEntry(v, m, field)
    case Range(low, high, _, _) => RangeEntry(low, high, m, field)
  }

  // ---------- trees ----------

  /** The cost of one clause of a Boolean, and the part the clause plays in it. */
  datatype Part = Part(occur: Occur, cost: real)

  function MustStep(acc: real, p: Part): real {
    match p.occur
    case Must => Max(acc, p.cost)
    case Should => acc
    case MustNot => acc + p.cost * 0.1
  }

  /** Required clauses cost the dearest of them, excluded ones a tenth each; the order counts. */
  function MustFrom(acc: real, parts: seq<Part>): real
    decreases parts
  {
    if parts == [] then acc else MustFrom(MustStep(acc, parts[0]), parts[1..])
  }

  function ShouldSum(parts: seq<Part>): real {
    if parts == [] then 0.0
    else (if parts[0].occur == Should then parts[0].cost else 0.0) + ShouldSum(parts[1..])
  }

  function ShouldCount(parts: seq<Part>): nat {
    if parts == [] then 0
    else (if parts[0].occur == Should then 1 else 0) + ShouldCount(parts[1..])
  }

  function OrPenalty(count: nat, m: Model): real {
    if count > 0 then count as real * m.orClauseCost else 0.0
  }

  function BooleanTotal(parts: seq<Part>, m: Model): real {
    MustFrom(0.0, parts) + ShouldSum(parts) + OrPenalty(ShouldCount(parts), m)
  }

  function DepthBonus(m: Model, depth: nat): real {
    m.depthCost * (depth + 1) as real
  }

  function Cost(n: Node, m: Model, field: string, depth: nat): real
    decreases n, 0
  {
    match n
    case Nil => 0.0
    case Group(q) => Cost(q, m, field, depth + 1) + DepthBonus(m, depth)
    case Single(c) => ClauseCost(c, m, depth)
    case Boolean(cs) => BooleanTotal(Parts(cs, m, depth), m)
    case _ => LeafEntry(n, m, field).amount
  }

  /** A clause weighs its term by its own field; excluding costs two more. */
  function ClauseTotal(cost: real, occur: Occur, field: string, m: Model): real {
    cost * FieldWeight(m, field) + (if occur == MustNot then 2.0 else 0.0)
  }

  function ClauseCost(c: Clause, m: Model, depth: nat): real
    decreases c, 0
  {
    ClauseTotal(Cost(c.term, m, c.field, depth), c.occur, c.field, m)
  }

  function Parts(cs: seq<Clause>, m: Model, depth: nat): (ps: seq<Part>)
    ensures |ps| == |cs|
    decreases cs, 0
  {
    if cs == [] then []
    else [Part(cs[0].occur, ClauseCost(cs[0], m, depth))] + Parts(cs[1..], m, depth)
  }

  /** Every charge made for a node, in order. */
  function Entries(n: Node, m: Model, field: string, depth: nat): seq<Entry>
    decreases n, 0
  {
    match n
    case Nil => []
    case Group(q) => [Entry("depth", DepthBonus(m, depth))] + Entries(q, m, field, depth + 1)
    case Single(c) => ClauseEntries(c, m, depth)
    case Boolean(cs) =>
      var count := ShouldCount(Parts(cs, m, depth));
      ClausesEntries(cs, m, depth) +
      (if count > 0 then [Entry("or_clauses", OrPenalty(count, m))] else [])
    case _ => [LeafEntry(n, m, field)]
  }

  function ClauseEntries(c: Clause, m: Model, depth: nat): seq<Entry>
    decreases c, 0
  {
    Entries(c.term, m, c.field, depth) +
    (if c.occur == MustNot then [Entry("must_not", 2.0)] else [])
  }

  function ClausesEntries(cs: seq<Clause>, m: Model, depth: nat): seq<Entry>
    decreases cs, 0
  {
    if cs == [] then [] else ClauseEntries(cs[0], m, depth) + ClausesEntries(cs[1..], m, depth)
  }

  // ---------- reports ----------

  function Post(b: map<string, real>, e: Entry): map<string, real> {
    b[e.key := (if e.key in b then b[e.key] else 0.0) + e.amount]
  }

  function PostAll(b: map<string, real>, es: seq<Entry>): map<string, real>
    decreases es
  {
    if es == [] then b else PostAll(Post(b, es[0]), es[1..])
  }

  function Keys(es: seq<Entry>): (ks: seq<string>)
    ensures |ks| == |es|
    ensures forall i :: 0 <= i < |es| ==> ks[i] == es[i].key
  {
    seq(|es|, i requires 0 <= i < |es| => es[i].key)
  }

  /** To the nearest whole number, halves away from zero. */
  function RoundWhole(x: real): int {
    if x >= 0.0 then (x + 0.5).Floor else -(0.5 - x).Floor
  }

  function Round(cost: real): real {
    RoundWhole(cost * 100.0) as real / 100.0
  }

  /** Rounding moves a cost by at most half a hundredth. */
  lemma RoundIsNearest(cost: real)
    ensures -0.005 <= Round(cost) - cost <= 0.005
  {
    var x := cost * 100.0;
    assert -0.5 <= RoundWhole(x) as real - x <= 0.5;
  }

  /** What a report holds, as a value. */
  datatype Summary = Summary(cost: real, breakdown: map<string, real>, explanation: seq<string>)

  function SummaryOf(n: Node, m: Model): Summary {
    var es := Entries(n, m, "", 0);
    Summary(Round(Cost(n, m, "", 0)), PostAll(map[], es), Keys(es))
  }

  lemma {:induction false} WholeCosts(n: Node, m: Model, k: nat)
    requires Cost(n, m, "", 0) == k as real
    ensures SummaryOf(n, m).cost == k as real
  {
    assert (k as real * 100.0 + 0.5).Floor == k * 100;
  }
}
