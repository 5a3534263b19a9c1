/** How the order of its parts can move the cost of a Boolean, on lists of costed parts. */
module BooleanBounds {
  import opened Ast
  import opened CostModel
  import opened Sequences

  function Min(a: real, b: real): real {
    if a <= b then a else b
  }

  predicate NonNegative(parts: seq<Part>) {
    forall p :: p in parts ==> p.cost >= 0.0
  }

  /** The dearest required clause. */
  function Dearest(parts: seq<Part>): (r: real)
    ensures r >= 0.0
  {
    if parts == [] then 0.0
    else if parts[0].occur == Must then Max(parts[0].cost, Dearest(parts[1..]))
    else Dearest(parts[1..])
  }

  /** A tenth of every excluded clause. */
  function Excluded(parts: seq<Part>): real {
    if parts == [] then 0.0
    else (if parts[0].occur == MustNot then parts[0].cost * 0.1 else 0.0) + Excluded(parts[1..])
  }

  lemma {:induction false} MustFromBounds(acc: real, parts: seq<Part>)
    requires acc >= 0.0 && NonNegative(parts)
    ensures Max(acc, Dearest(parts)) <= MustFrom(acc, parts) <= Max(acc, Dearest(parts)) + Excluded(parts)
    ensures acc + Excluded(parts) <= MustFrom(acc, parts)
    ensures Excluded(parts) >= 0.0
    decreases parts
  {
    if parts != [] {
      MustFromBounds(MustStep(acc, parts[0]), parts[1..]);
    }
  }

  /** Whatever the order, the required and excluded clauses together cost at least the larger
      of the dearest required clause and the excluded tenths, and at most their sum. */
  lemma MustBounds(parts: seq<Part>)
    requires NonNegative(parts)
    ensures
      var (d, x) := (Dearest(parts), Excluded(parts));
      Max(d, x) <= MustFrom(0.0, parts) <= d + x
  {
    MustFromBounds(0.0, parts);
  }

  // ---------- both bounds are reached ----------

  function SelectParts(parts: seq<Part>, occur: Occur): (r: seq<Part>)
    ensures forall p :: p in r ==> p in parts && p.occur == occur
  {
    if parts == [] then []
    else (if parts[0].occur == occur then [parts[0]] else []) + SelectParts(parts[1..], occur)
  }

  function PartsExcludedFirst(parts: seq<Part>): seq<Part> {
    SelectParts(parts, MustNot) + SelectParts(parts, Must) + SelectParts(parts, Should)
  }

  function PartsExcludedLast(parts: seq<Part>): seq<Part> {
    SelectParts(parts, Must) + SelectParts(parts, MustNot) + SelectParts(parts, Should)
  }

  lemma {:induction false} MustFromConcat(acc: real, a: seq<Part>, b: seq<Part>)
    ensures MustFrom(acc, a + b) == MustFrom(MustFrom(acc, a), b)
    decreases a
  {
    if a == [] {
      assert a + b == b;
    } else {
      assert (a + b)[1..] == a[1..] + b;
      MustFromConcat(MustStep(acc, a[0]), a[1..], b);
    }
  }

  /** The three groups of clauses, each folded on its own. */
  lemma {:induction false} MustFromSelect(acc: real, parts: seq<Part>)
    requires acc >= 0.0 && NonNegative(parts)
    ensures MustFrom(acc, SelectParts(parts, Must)) == Max(acc, Dearest(parts))
    ensures MustFrom(acc, SelectParts(parts, MustNot)) == acc + Excluded(parts)
    ensures MustFrom(acc, SelectParts(parts, Should)) == acc
    decreases parts
  {
    if parts != [] {
      MustFromSelect(acc, parts[1..]);
      MustFromSelect(MustStep(acc, parts[0]), parts[1..]);
      SelectStep(acc, parts, Must);
      SelectStep(acc, parts, MustNot);
      SelectStep(acc, parts, Should);
      hide SelectParts, MustFrom;
    }
  }

  lemma {:induction false} SelectStep(acc: real, parts: seq<Part>, o: Occur)
    requires parts != []
    ensures
      var acc' := if parts[0].occur == o then MustStep(acc, parts[0]) else acc;
      MustFrom(acc, SelectParts(parts, o)) == MustFrom(acc', SelectParts(parts[1..], o))
  {
    hide MustStep;
    if parts[0].occur == o {
      assert SelectParts(parts, o)[1..] == SelectParts(parts[1..], o);
    } else {
      assert SelectParts(parts, o) == SelectParts(parts[1..], o);
    }
  }

  lemma {:induction false} PartsReachBounds(parts: seq<Part>)
    requires NonNegative(parts)
    ensures MustFrom(0.0, PartsExcludedFirst(parts)) == Max(Dearest(parts), Excluded(parts))
    ensures MustFrom(0.0, PartsExcludedLast(parts)) == Dearest(parts) + Excluded(parts)
  {
    var (y, n, s) := (SelectParts(parts, Must), SelectParts(parts, MustNot), SelectParts(parts, Should));
    MustFromBounds(0.0, parts);
    MustFromConcat(0.0, n + y, s);
    MustFromConcat(0.0, n, y);
    MustFromConcat(0.0, y + n, s);
    MustFromConcat(0.0, y, n);
    MustFromSelect(0.0, parts);
    MustFromSelect(MustFrom(0.0, n), parts);
    MustFromSelect(MustFrom(0.0, y), parts);
    MustFromSelect(MustFrom(0.0, n + y), parts);
    MustFromSelect(MustFrom(0.0, y + n), parts);
  }

  // ---------- reordering ----------

  /** The totals that ignore order. */
  function Totals(parts: seq<Part>): (real, real, real, nat) {
    (Dearest(parts), Excluded(parts), ShouldSum(parts), ShouldCount(parts))
  }

  /** Taking one part out takes out its share of every total. */
  lemma {:induction false} TakeOut(parts: seq<Part>, i: nat)
    requires i < |parts|
    ensures
      var (p, rest) := (parts[i], Without(parts, i));
      (Dearest(parts), Excluded(parts), ShouldSum(parts), ShouldCount(parts)) ==
      (Dearest([p] + rest), Excluded([p] + rest), ShouldSum([p] + rest), ShouldCount([p] + rest))
  {
    var p, rest := parts[i], Without(parts, i);
    assert ([p] + rest)[1..] == rest;
    if i == 0 {
      assert parts == [p] + rest;
    } else {
      TakeOut(parts[1..], i - 1);
      var inner := Without(parts[1..], i - 1);
      assert ([p] + inner)[1..] == inner;
      assert rest[1..] == inner && rest[0] == parts[0];
    }
  }

  lemma {:induction false} SameTotals(p: seq<Part>, q: seq<Part>)
    requires multiset(p) == multiset(q)
    ensures Totals(p) == Totals(q)
    decreases |p|
  {
    if p == [] {
      assert |multiset(q)| == 0;
    } else {
      assert p[0] in multiset(q);
      var i :| 0 <= i < |q| && q[i] == p[0];
      TakeOut(q, i);
      var rest := Without(q, i);
      SameOthers(p, q, i);
      assert |p| == |multiset(p)| && |q| == |multiset(q)|;
      SameTotals(p[1..], rest);
      assert ([p[0]] + rest)[1..] == rest;
    }
  }
}
