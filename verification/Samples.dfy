/** Clauses that read back as they are written, for queries given as examples. */
module Samples {
  import opened Text
  import opened Ast
  import opened Grammar
  import opened Printer
  import opened NormalForm
  import opened CanonicalForm
  import opened RoundTrip
  import opened Operators

  /** The clause reads back as it is, whatever comes next, and no blank makes it a negation. */
  predicate Settled(c: Clause) {
    WfClause(c) && JoinsClause(c, false) && JoinsClause(c, true) && !IsNotWord(c) && RequoteClause(c) == c
  }

  lemma {:induction false} CleanWord(v: string)
    requires forall i :: 0 <= i < |v| ==> v[i] != EOF && !ForcesQuotes(v[i])
    ensures WordLen(v, false) == |v|
  {
    if v != "" {
      CleanWord(v[1..]);
    }
  }

  lemma {:induction false} WordSettled(occur: Occur, v: string)
    requires v != "" && forall i :: 0 <= i < |v| ==> v[i] != EOF && !ForcesQuotes(v[i])
    requires !EqualFold(v, "NOT")
    ensures Settled(Clause(occur, "", MakeTerm(v))) && PrintClause(Clause(occur, "", MakeTerm(v))) == Sign(occur) + v
  {
    CleanWord(v);
    CleanField(v);
    CleanField("");
    NoBackslash(v);
    PrefixIsWildcard(v);
    assert !NeedsQuote(v);
    hide WordLen, FieldLen, NeedsQuote, EqualFold, HasWildcard, IsPrefixPattern, EndsEscaped;
    var n := MakeTerm(v);
    assert WfTerm(n) && IsField("");
    assert !HidesField(Clause(occur, "", n));
    assert Print(n) == v && Requote(n) == n;
    var c := Clause(occur, "", n);
    assert WfClause(c);
    assert JoinsTerm(n, false) && JoinsTerm(n, true);
    assert JoinsClause(c, false) && JoinsClause(c, true);
    assert !IsNotWord(c);
    assert RequoteClause(c) == c;
    assert FieldText("") == "" && PrintClause(c) == Sign(occur) + v;
  }

  lemma {:induction false} RangeSettled(field: string, r: Node)
    requires r.Range? && WfTerm(r) && field != ""
    requires forall i :: 0 <= i < |field| ==> field[i] != EOF && !IsSpace(field[i]) && !IsSpecial(field[i])
    ensures Settled(Clause(Should, field, r))
    ensures PrintClause(Clause(Should, field, r)) == field + ":" + Print(r)
  {
    CleanField(field);
  }

  lemma {:induction false} NoOperatorLetters(c: Clause)
    requires PrintClause(c) != "" && PrintClause(c)[0] != 'A' && PrintClause(c)[0] != 'a'
    requires PrintClause(c)[0] != 'O' && PrintClause(c)[0] != 'o'
    ensures !StartsWithOperator(c)
  {
    hide PrintClause;
    assert "AND"[0] == 'A' && "OR"[0] == 'O';
  }

  /** A word without a special byte reads as itself, even one that prints with quotes. */
  lemma {:induction false} BareWordRead(v: string)
    requires v != "" && forall i :: 0 <= i < |v| ==> v[i] != EOF && !IsSpace(v[i]) && !IsSpecial(v[i]) && v[i] != '\\'
    ensures Parse(v) == Done(MakeTerm(v)) && WfTerm(MakeTerm(v))
  {
    BareWordLen(v);
    CleanField(v);
    assert v[..|v|] == v && v[|v|..] == "";
    assert TermAt(v) == Ok(MakeTerm(v), "");
    NoNotHere(v);
    hide WordLen, FieldLen, MakeTerm, TermAt, HasPrefixFold;
    var c := Clause(Should, "", MakeTerm(v));
    assert PrefixAt(v) == (Should, v) && Field(v) == ("", v);
    assert ClauseAt(v) == Ok(c, "");
    hide ClauseAt;
    assert ItemsAt(v, false) == Ok([Item(false, c)], "");
    assert Resolve([Item(false, c)]) == [c];
  }

  lemma {:induction false} BareWordLen(v: string)
    requires forall i :: 0 <= i < |v| ==> v[i] != EOF && !IsSpace(v[i]) && !IsSpecial(v[i]) && v[i] != '\\'
    ensures WordLen(v, false) == |v|
  {
    if v != "" {
      BareWordLen(v[1..]);
    }
  }

  lemma NoNotHere(v: string)
    requires forall i :: 0 <= i < |v| ==> !IsSpace(v[i])
    ensures !HasPrefixFold(v, "NOT ")
  {
    if |v| >= 4 {
      assert ToUpper(v[3]) != "NOT "[3];
    }
  }

  lemma {:induction false} PairText(a: Clause, b: Clause)
    ensures Print(Boolean([a, b])) == PrintClause(a) + " " + PrintClause(b)
  {
    hide PrintClause;
    var cs := [a, b];
    assert cs[1..] == [b];
    assert Print(Boolean(cs)) == PrintClauses(cs);
    assert PrintClauses([b]) == PrintClause(b);
  }

  lemma {:induction false} PairCanonical(a: Clause, b: Clause)
    requires Settled(a) && Settled(b) && !StartsWithOperator(b)
    ensures WfQuery(Boolean([a, b])) && Canonical(Boolean([a, b]))
  {
    RequoteFix(a.term);
    RequoteFix(b.term);
    hide WfClause, JoinsClause, IsNotWord, StartsWithOperator;
    var cs := [a, b];
    assert cs[1..] == [b] && cs[1..][1..] == [];
    assert PlainClauses([]) && PlainClauses(cs[1..]) && PlainClauses(cs);
    assert JoinsClauses(cs[1..], true);
    assert JoinsClauses(cs, true);
    assert JoinsQuery(Boolean(cs), true);
  }

  lemma {:induction false} PairRead(a: Clause, b: Clause)
    requires Settled(a) && Settled(b) && !StartsWithOperator(b)
    ensures Parse(PrintClause(a) + " " + PrintClause(b)) == Done(Boolean([a, b]))
  {
    hide PrintClause, Parse, StartsWithOperator, Settled, Canonical, WfQuery;
    PairCanonical(a, b);
    PairText(a, b);
    RoundTrip.RoundTrip(Boolean([a, b]));
  }

  lemma {:induction false} LoneRead(c: Clause)
    requires Settled(c)
    ensures Parse(PrintClause(c)) == Done(Collapse([c]))
  {
    hide PrintClause, Parse, WfClause, JoinsClause, IsNotWord;
    assert SkipSpace("") == "" && "" + PrintClause(c) + "" == PrintClause(c);
    LoneClause(c, "", "");
  }
}
