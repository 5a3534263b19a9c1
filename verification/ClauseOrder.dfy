/** How far the order of its clauses can move the cost of a Boolean query. */
module ClauseOrder {
  import opened Ast
  import opened CostModel
  import opened BooleanBounds
  import opened CostLaws
  import opened Sequences

  /** The share of the optional clauses, which no order changes. */
  function OptionalCost(parts: seq<Part>, m: Model): real {
    ShouldSum(parts) + OrPenalty(ShouldCount(parts), m)
  }

  /** Whatever the order, a Boolean costs at least the larger of its dearest required clause and
      the tenths of its excluded ones, and at most their sum, each with the optional clauses. */
  lemma {:induction false} CostBetween(cs: seq<Clause>, m: Model, field: string, depth: nat)
    requires NonNegativeModel(m)
    ensures
      var ps := Parts(cs, m, depth);
      var (d, x, o) := (Dearest(ps), Excluded(ps), OptionalCost(ps, m));
      Max(d, x) + o <= Cost(Boolean(cs), m, field, depth) <= d + x + o
  {
    PartsNonNegative(cs, m, depth);
    MustBounds(Parts(cs, m, depth));
  }

  // ---------- both bounds are reached ----------

  function Select(cs: seq<Clause>, occur: Occur): seq<Clause> {
    if cs == [] then []
    else (if cs[0].occur == occur then [cs[0]] else []) + Select(cs[1..], occur)
  }

  function ExcludedFirst(cs: seq<Clause>): seq<Clause> {
    Select(cs, MustNot) + Select(cs, Must) + Select(cs, Should)
  }

  function ExcludedLast(cs: seq<Clause>): seq<Clause> {
    Select(cs, Must) + Select(cs, MustNot) + Select(cs, Should)
  }

  lemma {:induction false} PartsConcat(a: seq<Clause>, b: seq<Clause>, m: Model, depth: nat)
    ensures Parts(a + b, m, depth) == Parts(a, m, depth) + Parts(b, m, depth)
  {
    if a == [] {
      assert a + b == b;
    } else {
      assert (a + b)[1..] == a[1..] + b;
      PartsConcat(a[1..], b, m, depth);
    }
  }

  lemma {:induction false} PartsSelect(cs: seq<Clause>, occur: Occur, m: Model, depth: nat)
    ensures Parts(Select(cs, occur), m, depth) == SelectParts(Parts(cs, m, depth), occur)
  {
    if cs != [] {
      PartsSelect(cs[1..], occur, m, depth);
      assert Parts(cs, m, depth)[1..] == Parts(cs[1..], m, depth);
      if cs[0].occur == occur {
        assert Select(cs, occur)[1..] == Select(cs[1..], occur);
      } else {
        assert Select(cs, occur) == Select(cs[1..], occur);
      }
    }
  }

  lemma {:induction false} SelectAll(cs: seq<Clause>)
    ensures multiset(Select(cs, MustNot)) + multiset(Select(cs, Must)) + multiset(Select(cs, Should)) ==
            multiset(cs)
  {
    if cs != [] {
      SelectAll(cs[1..]);
      assert cs == [cs[0]] + cs[1..];
    }
  }

  lemma {:induction false} PartsReordered(cs: seq<Clause>, m: Model, depth: nat)
    ensures Parts(ExcludedFirst(cs), m, depth) == PartsExcludedFirst(Parts(cs, m, depth))
    ensures Parts(ExcludedLast(cs), m, depth) == PartsExcludedLast(Parts(cs, m, depth))
  {
    var (y, n, s) := (Select(cs, Must), Select(cs, MustNot), Select(cs, Should));
    PartsConcat(n + y, s, m, depth);
    PartsConcat(n, y, m, depth);
    PartsConcat(y + n, s, m, depth);
    PartsConcat(y, n, m, depth);
    PartsSelect(cs, Must, m, depth);
    PartsSelect(cs, MustNot, m, depth);
    PartsSelect(cs, Should, m, depth);
  }

  // ---------- any order ----------

  lemma {:induction false} PartsTakeOut(cs: seq<Clause>, i: nat, m: Model, depth: nat)
    requires i < |cs|
    ensures multiset(Parts(cs, m, depth)) ==
            multiset{Part(cs[i].occur, ClauseCost(cs[i], m, depth))} +
            multiset(Parts(Without(cs, i), m, depth))
  {
    hide Parts;
    var rest := Without(cs, i);
    PartsCons(cs, m, depth);
    if i == 0 {
      assert rest == cs[1..];
    } else {
      PartsTakeOut(cs[1..], i - 1, m, depth);
      assert rest[0] == cs[0] && rest[1..] == Without(cs[1..], i - 1);
      PartsCons(rest, m, depth);
    }
  }

  lemma PartsCons(cs: seq<Clause>, m: Model, depth: nat)
    ensures cs != [] ==>
      Parts(cs, m, depth) == [Part(cs[0].occur, ClauseCost(cs[0], m, depth))] + Parts(cs[1..], m, depth)
  {
  }

  /** Reordered clauses have reordered parts. */
  lemma {:induction false} PartsPermute(cs: seq<Clause>, ds: seq<Clause>, m: Model, depth: nat)
    requires multiset(cs) == multiset(ds)
    ensures multiset(Parts(cs, m, depth)) == multiset(Parts(ds, m, depth))
    decreases |cs|
  {
    hide ClauseCost;
    if cs == [] {
      assert |multiset(ds)| == 0;
    } else {
      assert cs[0] in multiset(ds);
      var i :| 0 <= i < |ds| && ds[i] == cs[0];
      SameOthers(cs, ds, i);
      PartsPermute(cs[1..], Without(ds, i), m, depth);
      hide Parts;
      PartsTakeOut(ds, i, m, depth);
      PartsTakeOut(cs, 0, m, depth);
      assert Without(cs, 0) == cs[1..];
    }
  }

  /** The order of the clauses shows in the required and excluded ones alone. */
  lemma {:induction false} ReorderedCost(ds: seq<Clause>, cs: seq<Clause>, m: Model, field: string, depth: nat)
    ensures multiset(ds) == multiset(cs) ==>
      Cost(Boolean(ds), m, field, depth) ==
      MustFrom(0.0, Parts(ds, m, depth)) + OptionalCost(Parts(cs, m, depth), m)
  {
    if multiset(ds) == multiset(cs) {
      hide Parts, MustFrom, ShouldSum, ShouldCount;
      PartsPermute(ds, cs, m, depth);
      SameTotals(Parts(ds, m, depth), Parts(cs, m, depth));
    }
  }

  /** Two orders of the same clauses reach both bounds: the excluded ones first, and the excluded
      ones after the required. */
  lemma {:induction false} BoundsReached(cs: seq<Clause>, m: Model, field: string, depth: nat)
    requires NonNegativeModel(m)
    ensures multiset(ExcludedFirst(cs)) == multiset(cs) == multiset(ExcludedLast(cs))
    ensures
      var ps := Parts(cs, m, depth);
      var (d, x, o) := (Dearest(ps), Excluded(ps), OptionalCost(ps, m));
      Cost(Boolean(ExcludedFirst(cs)), m, field, depth) == Max(d, x) + o &&
      Cost(Boolean(ExcludedLast(cs)), m, field, depth) == d + x + o
  {
    SelectAll(cs);
    PartsNonNegative(cs, m, depth);
    hide Dearest, Excluded, MustFrom, Parts, Cost, Select, PartsExcludedFirst, PartsExcludedLast;
    PartsReordered(cs, m, depth);
    PartsReachBounds(Parts(cs, m, depth));
    ReorderedCost(ExcludedFirst(cs), cs, m, field, depth);
    ReorderedCost(ExcludedLast(cs), cs, m, field, depth);
  }

  /** Reordering the clauses of a Boolean moves its cost by no more than the smaller of the dearest
      required clause and the tenths of the excluded ones, and some reordering by just as much. */
  lemma {:induction false} OrderMatters(cs: seq<Clause>, ds: seq<Clause>, m: Model, field: string, depth: nat)
    requires multiset(cs) == multiset(ds) && NonNegativeModel(m)
    ensures
      var slack := Min(Dearest(Parts(cs, m, depth)), Excluded(Parts(cs, m, depth)));
      -slack <= Cost(Boolean(cs), m, field, depth) - Cost(Boolean(ds), m, field, depth) <= slack &&
      Cost(Boolean(ExcludedLast(cs)), m, field, depth) -
      Cost(Boolean(ExcludedFirst(cs)), m, field, depth) == slack
  {
    hide Dearest, Excluded, ShouldSum, ShouldCount, Parts, Cost, ExcludedFirst, ExcludedLast;
    PartsPermute(cs, ds, m, depth);
    SameTotals(Parts(cs, m, depth), Parts(ds, m, depth));
    CostBetween(cs, m, field, depth);
    CostBetween(ds, m, field, depth);
    BoundsReached(cs, m, field, depth);
  }
}
