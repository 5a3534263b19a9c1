/** Operators between clauses, read from text. */
module Operators {
  import opened Text
  import opened Ast
  import opened Grammar
  import opened Printer
  import opened NormalForm
  import opened CanonicalForm
  import opened RoundTrip

  datatype Op = Blank | Or | And

  /** A clause, the text before it and the operator that text holds. */
  datatype Linked = Linked(gap: string, op: Op, clause: Clause)

  function Word(op: Op): string {
    match op
    case Blank => ""
    case Or => "OR"
    case And => "AND"
  }

  predicate AllBlank(s: string) {
    SkipSpace(s) == ""
  }

  /** Blanks, the word of the operator in any case, and blanks again, which may be missing. */
  predicate IsGap(op: Op, gap: string) {
    gap != "" && IsBlank(gap[0]) &&
    HasPrefixFold(SkipSpace(gap), Word(op)) && AllBlank(SkipSpace(gap)[|Word(op)|..])
  }

  function PrintLinked(ls: seq<Linked>): string {
    if ls == [] then "" else ls[0].gap + PrintClause(ls[0].clause) + PrintLinked(ls[1..])
  }

  /** The text behind the first clause, another text following. */
  function After(ls: seq<Linked>, t: string): string
    requires ls != []
  {
    PrintLinked(ls[1..]) + t
  }

  /** Blanks and an operator may stand after the last clause. */
  predicate IsTrailing(t: string) {
    t == "" || IsGap(Blank, t) || IsGap(Or, t) || IsGap(And, t)
  }

  /** The clauses, followed by t, keep apart; the letters of an operator may begin one that
      another operator comes before. */
  predicate KeepApart(ls: seq<Linked>, t: string)
    decreases ls
  {
    ls == [] ||
    (WfClause(ls[0].clause) && JoinsClause(ls[0].clause, After(ls, t) == "") &&
     (IsNotWord(ls[0].clause) ==> Peek(After(ls, t)) != ' ') &&
     (|ls| > 1 ==>
        IsGap(ls[1].op, ls[1].gap) && (ls[1].op == Blank ==> !StartsWithOperator(ls[1].clause))) &&
     KeepApart(ls[1..], t))
  }

  function LinkedItems(ls: seq<Linked>): (items: seq<Item>)
    ensures |items| == |ls|
    ensures forall i :: 0 <= i < |ls| ==> items[i] == Item(ls[i].op == And, RequoteClause(ls[i].clause))
  {
    if ls == [] then []
    else [Item(ls[0].op == And, RequoteClause(ls[0].clause))] + LinkedItems(ls[1..])
  }

  // ---------- gaps ----------

  lemma {:induction false} OperatorWordRead(op: Op, w: string, text: string)
    requires op != Blank && HasPrefixFold(w, Word(op))
    ensures !AtEnd(w + text) && Operator(w + text) == (op == And, w[|Word(op)|..] + text)
  {
    var s, k := w + text, |Word(op)|;
    assert s[k..] == w[k..] + text;
    assert forall i | 0 <= i < k :: s[i] == w[i];
    assert ToUpper(s[0]) == Word(op)[0];
  }

  /** After a gap the next clause is read, joined when the operator is AND. */
  lemma {:induction false} GapRead(op: Op, gap: string, text: string)
    requires IsGap(op, gap) && SkipSpace(text) == text && !AtEnd(text)
    requires op == Blank ==> Operator(text) == (false, text)
    ensures
      var s := SkipSpace(gap + text);
      !AtEnd(s) && Operator(s).0 == (op == And) && SkipSpace(Operator(s).1) == text
  {
    var w := SkipSpace(gap);
    SkipOver(gap, text);
    if op == Blank {
      assert w[0..] == w && SkipSpace(w) == w;
    } else {
      OperatorWordRead(op, w, text);
      SkipOver(w[|Word(op)|..], text);
    }
  }

  /** An operator after the last clause joins nothing. */
  lemma {:induction false} TrailingRead(t: string)
    requires IsTrailing(t)
    ensures Follows(t, t == "")
    ensures
      var s := SkipSpace(t);
      if AtEnd(s) then s == "" else AllBlank(Operator(s).1)
  {
    var s := SkipSpace(t);
    if IsGap(Or, t) {
      assert s + "" == s;
      OperatorWordRead(Or, s, "");
    } else if IsGap(And, t) {
      assert s + "" == s;
      OperatorWordRead(And, s, "");
    } else {
      assert s[0..] == s;
    }
  }

  // ---------- items ----------

  lemma {:induction false} ItemsSkip(s: string, joined: bool)
    ensures ItemsAt(SkipSpace(s), joined) == ItemsAt(s, joined)
  {
    assert SkipSpace(SkipSpace(s)) == SkipSpace(s);
  }

  lemma {:induction false} ItemsNext(s: string, joined: bool, c: Clause, s1: string, and: bool, s3: string)
    requires !AtEnd(s) && SkipSpace(s) == s && ClauseAt(s) == Ok(c, s1)
    requires !AtEnd(SkipSpace(s1)) && Operator(SkipSpace(s1)) == (and, s3)
    requires ItemsAt(s3, and).Ok?
    ensures ItemsAt(s, joined) == Ok([Item(joined, c)] + ItemsAt(s3, and).value, ItemsAt(s3, and).rest)
  {
    hide ClauseAt, SkipSpace, Operator;
  }

  lemma {:induction false} LinkedRead(ls: seq<Linked>, t: string)
    requires ls != [] && KeepApart(ls, t) && IsTrailing(t)
    ensures Ok(LinkedItems(ls), "") ==
            ItemsAt(PrintClause(ls[0].clause) + After(ls, t), ls[0].op == And)
    decreases |ls|, 1
  {
    if |ls| == 1 {
      LinkedLast(ls, t);
    } else {
      LinkedNext(ls, t);
    }
  }

  lemma {:induction false} LinkedNext(ls: seq<Linked>, t: string)
    requires |ls| > 1 && KeepApart(ls, t) && IsTrailing(t)
    ensures Ok(LinkedItems(ls), "") ==
            ItemsAt(PrintClause(ls[0].clause) + After(ls, t), ls[0].op == And)
    decreases |ls|, 0
  {
    hide ItemsAt, ClauseAt, PrintClause, WfClause, JoinsClause, Operator, RequoteClause, StartsWithOperator;
    hide SkipSpace, IsTrailing, HasPrefixFold;
    var rest, c := ls[1..], ls[0].clause;
    assert rest[0] == ls[1] && KeepApart(rest, t);
    var text := PrintClause(rest[0].clause) + After(rest, t);
    var s1 := rest[0].gap + text;
    var s := PrintClause(c) + s1;
    assert After(ls, t) == s1;
    assert LinkedItems(ls) == [Item(ls[0].op == And, RequoteClause(c))] + LinkedItems(rest);
    assert IsGap(rest[0].op, rest[0].gap) && s1[0] == rest[0].gap[0];
    ClauseRead(c, s1, false);
    NextBegins(rest, t);
    hide PrintLinked, KeepApart, After, IsGap;
    ClauseStarts(c, s1);
    GapRead(rest[0].op, rest[0].gap, text);
    LinkedRead(rest, t);
    var s3 := Operator(SkipSpace(s1)).1;
    ItemsSkip(s3, rest[0].op == And);
    ItemsNext(s, ls[0].op == And, RequoteClause(c), s1, rest[0].op == And, s3);
  }

  lemma {:induction false} ClauseStarts(c: Clause, after: string)
    requires WfClause(c)
    ensures
      var s := PrintClause(c) + after;
      !AtEnd(s) && SkipSpace(s) == s
  {
    hide PrintClause, WfClause;
    ClauseBegins(c);
  }

  lemma {:induction false} NextBegins(ls: seq<Linked>, t: string)
    requires ls != [] && KeepApart(ls, t) && IsTrailing(t)
    ensures
      var text := PrintClause(ls[0].clause) + After(ls, t);
      !AtEnd(text) && SkipSpace(text) == text &&
      (!StartsWithOperator(ls[0].clause) ==> Operator(text) == (false, text))
  {
    hide PrintClause, WfClause, JoinsClause, Operator, StartsWithOperator, HasPrefixFold;
    ClauseStarts(ls[0].clause, After(ls, t));
    AfterFirst(ls, t);
    if !StartsWithOperator(ls[0].clause) {
      NoOperatorHere(ls[0].clause, After(ls, t));
    }
  }

  lemma {:induction false} AfterFirst(ls: seq<Linked>, t: string)
    requires ls != [] && KeepApart(ls, t) && IsTrailing(t)
    ensures Follows(After(ls, t), After(ls, t) == "")
  {
    hide PrintClause, WfClause, JoinsClause, HasPrefixFold, SkipSpace;
    if |ls| == 1 {
      assert After(ls, t) == t;
    } else {
      assert After(ls, t)[0] == ls[1].gap[0];
    }
  }

  lemma {:induction false} LinkedLast(ls: seq<Linked>, t: string)
    requires |ls| == 1 && KeepApart(ls, t) && IsTrailing(t)
    ensures Ok(LinkedItems(ls), "") ==
            ItemsAt(PrintClause(ls[0].clause) + After(ls, t), ls[0].op == And)
  {
    hide ClauseAt, PrintClause, WfClause, JoinsClause, Operator, RequoteClause, IsTrailing;
    var c, joined := ls[0].clause, ls[0].op == And;
    assert After(ls, t) == t;
    var s := PrintClause(c) + t;
    assert LinkedItems(ls) == [Item(joined, RequoteClause(c))];
    TrailingRead(t);
    ClauseStarts(c, t);
    ClauseRead(c, t, t == "");
    hide LinkedItems, KeepApart, IsNotWord;
    if !AtEnd(SkipSpace(t)) {
      var (and, s3) := Operator(SkipSpace(t));
      ItemsNext(s, joined, RequoteClause(c), t, and, s3);
    }
    assert [Item(joined, RequoteClause(c))] + [] == [Item(joined, RequoteClause(c))];
  }

  lemma FirstForm(ls: seq<Linked>, t: string)
    ensures ls != [] && KeepApart(ls, t) ==> WfClause(ls[0].clause)
  {
  }

  /** Clauses written with any operators between them, in any case and with any blanks, and even
      an operator after the last, read as the query in which AND requires both its neighbours and
      every other clause is as written; a clause that is alone is collapsed. */
  lemma {:induction false} OperatorsRead(ls: seq<Linked>, t: string)
    requires ls != [] && ls[0].op == Blank && AllBlank(ls[0].gap) && KeepApart(ls, t) && IsTrailing(t)
    ensures Parse(PrintLinked(ls) + t) == Done(Collapse(Resolve(LinkedItems(ls))))
  {
    hide ItemsAt, PrintClause, WfClause, LinkedItems, Resolve, Collapse, KeepApart;
    var c := ls[0].clause;
    var text := PrintClause(c) + After(ls, t);
    assert PrintLinked(ls) + t == ls[0].gap + text;
    LinkedRead(ls, t);
    FirstForm(ls, t);
    ClauseStarts(c, After(ls, t));
    SkipOver(ls[0].gap, text);
    hide PrintLinked, After, IsTrailing, HasPrefixFold;
  }

  /** AND makes a clause required even where it is written to be excluded. */
  lemma {:induction false} AndOverridesExclusion(c: Clause, d: Clause)
    requires KeepApart([Linked("", Blank, c), Linked(" AND ", And, d)], "") && d.occur == MustNot
    ensures Parse(PrintClause(c) + " AND " + PrintClause(d)) ==
            Done(Boolean([RequoteClause(c).(occur := Must), RequoteClause(d).(occur := Must)]))
  {
    var ls := [Linked("", Blank, c), Linked(" AND ", And, d)];
    assert AllBlank("");
    hide PrintClause, PrintLinked, KeepApart, Parse, RequoteClause, IsGap;
    OperatorsRead(ls, "");
    AndText(c, d);
    assert Resolve(LinkedItems(ls)) ==
           [RequoteClause(c).(occur := Must), RequoteClause(d).(occur := Must)];
  }

  lemma {:induction false} AndText(c: Clause, d: Clause)
    ensures PrintLinked([Linked("", Blank, c), Linked(" AND ", And, d)]) + "" ==
            PrintClause(c) + " AND " + PrintClause(d)
  {
    hide PrintClause;
    var ls := [Linked("", Blank, c), Linked(" AND ", And, d)];
    assert ls[1..] == [ls[1]] && [ls[1]][1..] == [];
    assert PrintLinked([ls[1]]) == " AND " + PrintClause(d);
    assert PrintLinked(ls) == PrintClause(c) + PrintLinked([ls[1]]);
  }

  // ---------- a clause alone ----------

  /** A clause alone keeps its sign exactly when it names a field: without one the query is the
      clause's term. */
  lemma {:induction false} LoneClause(c: Clause, lead: string, t: string)
    requires WfClause(c) && JoinsClause(c, t == "") && !(IsNotWord(c) && Peek(t) == ' ')
    requires AllBlank(lead) && IsTrailing(t)
    ensures Parse(lead + PrintClause(c) + t) ==
            Done(if c.field == "" then Requote(c.term) else Single(RequoteClause(c)))
    ensures Clauses(Parse(lead + PrintClause(c) + t).value) == [RequoteClause(c)] <==>
            c.occur == Should || c.field != ""
  {
    hide PrintClause, Parse;
    var ls := [Linked(lead, Blank, c)];
    assert ls[1..] == [] && After(ls, t) == t;
    OperatorsRead(ls, t);
    assert PrintLinked(ls) + t == lead + PrintClause(c) + t;
    assert Resolve(LinkedItems(ls)) == [RequoteClause(c)];
  }

  /** The word NOT before a clause means the same as a minus sign. */
  lemma {:induction false} NotIsMinus(body: string)
    requires SkipSpace(body) == body
    ensures Parse("NOT " + body) == Parse("-" + body)
  {
    var s, t := "NOT " + body, "-" + body;
    NotPrefix(body);
    assert SkipSpace(s) == s && SkipSpace(t) == t && !AtEnd(s) && !AtEnd(t);
    assert Peek(s) != EOF && Peek(t) != EOF;
    hide PrefixAt, Field, TermAt, SkipSpace, AtEnd, Operator;
    assert ClauseAt(s) == ClauseAt(t);
    hide ClauseAt;
    assert ItemsAt(s, false) == ItemsAt(t, false);
    hide ItemsAt;
  }

  lemma {:induction false} NotPrefix(body: string)
    ensures SkipSpace(body) == body ==> PrefixAt("NOT " + body) == PrefixAt("-" + body) == (MustNot, body)
  {
    if SkipSpace(body) == body {
      var s, t := "NOT " + body, "-" + body;
      assert s[3..] == " " + body && (" " + body)[1..] == body && t[1..] == body;
    }
  }
}
