/** Reading printed text: print(n) followed by any rest is consumed exactly, and gives back
    the tree with its quoting applied. */
module RoundTrip {
  import opened Text
  import opened Ast
  import opened Grammar
  import opened Printer
  import opened NormalForm
  import opened Conservation
  import opened CanonicalForm

  /** The end of the text, a blank or a closing parenthesis follows; last says which. */
  predicate Follows(r: string, last: bool) {
    if last then Peek(r) == EOF else IsBlank(Peek(r)) || Peek(r) == ')'
  }

  predicate Stops(r: string) {
    Peek(r) == EOF || IsSpace(r[0]) || IsSpecial(r[0])
  }

  // ---------- leaves followed by text ----------

  lemma {:induction false} SkipOver(s: string, text: string)
    ensures SkipSpace(s + text) == if SkipSpace(s) == "" then SkipSpace(text) else SkipSpace(s) + text
  {
    if s == "" {
      assert s + text == text;
    } else {
      assert (s + text)[1..] == s[1..] + text;
      if IsBlank(s[0]) {
        SkipOver(s[1..], text);
      }
    }
  }

  lemma {:induction false} WordThen(v: string, r: string, escaped: bool)
    requires WordLen(v, escaped) == |v|
    requires Peek(r) == EOF || (Stops(r) && !EndsEscaped(v, escaped))
    ensures WordLen(v + r, escaped) == |v|
  {
    if v == "" {
      assert v + r == r;
      assert Peek(r) == EOF || !escaped;
    } else {
      assert (v + r)[1..] == v[1..] + r;
      WordThen(v[1..], r, !escaped && v[0] == '\\');
    }
  }

  lemma {:induction false} FieldThen(v: string, r: string)
    ensures FieldLen(v + r) == if FieldLen(v) < |v| then FieldLen(v) else |v| + FieldLen(r)
  {
    if v == "" {
      assert v + r == r;
    } else {
      assert (v + r)[1..] == v[1..] + r;
      FieldThen(v[1..], r);
    }
  }

  lemma {:induction false} BoundThen(b: string, r: string)
    requires forall i :: 0 <= i < |b| ==> InBound(b[i])
    requires Peek(r) == ' ' || Peek(r) == ']' || Peek(r) == '}'
    ensures BoundLen(b + r) == |b|
  {
    if b == "" {
      assert b + r == r;
    } else {
      assert (b + r)[1..] == b[1..] + r;
      BoundThen(b[1..], r);
      assert (b + r)[|b|] == r[0];
      assert !EqualFold(b + r, "TO");
    }
  }

  predicate InPhrase(c: char) {
    c != EOF && c != '"' && c != '\\'
  }

  /** An escape is one plain byte, a backslash and a byte, or a backslash and three bytes. */
  lemma {:induction false} EscapeShape(c: char)
    ensures
      var e := EscapeByte(c);
      (|e| == 1 && InPhrase(e[0])) || (|e| == 2 && e[0] == '\\') ||
      (|e| == 4 && e[0] == '\\' && InPhrase(e[2]) && InPhrase(e[3]))
  {
  }

  lemma {:induction false} PlainThen(c: char, t: string)
    ensures InPhrase(c) && 0 <= PhraseLen(t) ==> PhraseLen([c] + t) == 1 + PhraseLen(t)
  {
    assert ([c] + t)[1..] == t;
  }

  lemma {:induction false} EscapedThen(c: char, t: string)
    ensures 0 <= PhraseLen(t) ==> PhraseLen(['\\', c] + t) == 2 + PhraseLen(t)
  {
    var s := ['\\', c] + t;
    assert s[1..] == [c] + t && s[1..][1..] == t;
  }

  lemma {:induction false} EscapeByteThen(c: char, t: string)
    requires 0 <= PhraseLen(t)
    ensures PhraseLen(EscapeByte(c) + t) == |EscapeByte(c)| + PhraseLen(t)
  {
    hide EscapeByte, PhraseLen;
    var e := EscapeByte(c);
    EscapeShape(c);
    if |e| == 1 {
      PlainThen(e[0], t);
      assert e == [e[0]];
    } else if |e| == 2 {
      EscapedThen(e[1], t);
      assert e == ['\\', e[1]];
    } else {
      PlainThen(e[3], t);
      PlainThen(e[2], [e[3]] + t);
      EscapedThen(e[1], [e[2]] + ([e[3]] + t));
      assert e + t == ['\\', e[1]] + ([e[2]] + ([e[3]] + t));
    }
  }

  lemma EscapeParts(v: string)
    ensures Escape(v) == if v == "" then "" else EscapeByte(v[0]) + Escape(v[1..])
  {
  }

  lemma PhraseEnds(r: string)
    ensures PhraseLen("\"" + r) == 0
  {
  }

  /** A quoted string ends at its own closing quote, whatever follows. */
  lemma {:induction false} EscapeThen(v: string, r: string)
    ensures PhraseLen(Escape(v) + "\"" + r) == |Escape(v)|
  {
    hide Escape, EscapeByte, PhraseLen;
    EscapeParts(v);
    if v == "" {
      assert Escape(v) + "\"" + r == "\"" + r;
      PhraseEnds(r);
    } else {
      var e, t := EscapeByte(v[0]), Escape(v[1..]) + "\"" + r;
      EscapeThen(v[1..], r);
      EscapeByteThen(v[0], t);
      assert Escape(v) + "\"" + r == e + t;
    }
  }

  lemma {:induction false} QuoteRead(v: string, r: string)
    ensures TermAt(Quote(v) + r) == Ok(Phrase(Escape(v)), r)
  {
    var s := Quote(v) + r;
    assert s[1..] == Escape(v) + "\"" + r;
    EscapeThen(v, r);
    assert s[1..][..|Escape(v)|] == Escape(v);
    assert s[1..][|Escape(v)| + 1..] == r;
  }

  lemma {:induction false} WordRead(v: string, r: string, last: bool)
    requires IsWord(v) && Follows(r, last) && (EndsEscaped(v) ==> last)
    ensures TermAt(v + r) == Ok(MakeTerm(v), r)
  {
    WordThen(v, r, false);
    assert (v + r)[..|v|] == v && (v + r)[|v|..] == r;
  }

  lemma {:induction false} BoundRead(b: string, r: string)
    requires IsBound(b)
    requires Peek(r) == ' ' || Peek(r) == ']' || Peek(r) == '}'
    ensures BoundAt(SkipSpace(b + r)) == Ok(b, r)
  {
    BoundThen(b, r);
    assert (b + r)[..|b|] == b && (b + r)[|b|..] == r;
  }

  lemma {:induction false} ToAfter(s: string, t: string)
    ensures s == "TO " + t ==>
      HasPrefixFold(s, "TO") && SkipSpace(" " + s) == s && SkipSpace(s[2..]) == SkipSpace(t)
  {
    if s == "TO " + t {
      assert (" " + s)[1..] == s;
      assert s[2..] == " " + t && (" " + t)[1..] == t;
    }
  }

  lemma {:induction false} RangeParts(s: string, n: Node, t1: string, t2: string, end: string)
    requires n.Range? && n.inclusiveLow == n.inclusiveHigh && s != "" && end != ""
    requires BoundAt(SkipSpace(s[1..])) == Ok(n.low, t1)
    requires SkipSpace(t1) == t2 && HasPrefixFold(t2, "TO")
    requires BoundAt(SkipSpace(t2[2..])) == Ok(n.high, end)
    requires end[0] == if n.inclusiveHigh then ']' else '}'
    requires s[0] == if n.inclusiveHigh then '[' else '{'
    ensures TermAt(s) == Ok(n, end[1..])
  {
    hide BoundAt, HasPrefixFold;
    assert SkipSpace(end) == end;
    assert TermAt(s) == RangeAt(s, n.inclusiveHigh);
  }

  lemma {:induction false} RangeRead(n: Node, r: string)
    requires n.Range? && WfTerm(n)
    ensures TermAt(Print(n) + r) == Ok(n, r)
  {
    var open := if n.inclusiveHigh then "[" else "{";
    var end := (if n.inclusiveHigh then "]" else "}") + r;
    var t2 := "TO " + (n.high + end);
    var s := Print(n) + r;
    assert s == open + (n.low + (" " + t2)) && end[1..] == r;
    assert s[1..] == n.low + (" " + t2);
    hide Print, TermAt, BoundAt, SkipSpace, HasPrefixFold;
    BoundRead(n.low, " " + t2);
    ToAfter(t2, n.high + end);
    BoundRead(n.high, end);
    RangeParts(s, n, " " + t2, t2, end);
  }

  // ---------- beginnings of printed text ----------

  /** A byte that can begin a printed term. */
  predicate CanBegin(c: char) {
    c != EOF && !IsSpace(c) && c != ')' && c != '+' && c != '-' && c != ':' && c != ']' && c != '}'
  }

  lemma {:induction false} TermBegins(n: Node)
    ensures WfTerm(n) ==> Print(n) != "" && CanBegin(Print(n)[0])
  {
  }

  lemma {:induction false} ClauseBegins(c: Clause)
    requires WfClause(c)
    ensures PrintClause(c) != ""
    ensures PrintClause(c)[0] == '+' || PrintClause(c)[0] == '-' || CanBegin(PrintClause(c)[0])
  {
    TermBegins(c.term);
  }

  lemma {:induction false} ClausesBegin(cs: seq<Clause>)
    requires WfClauses(cs) && cs != []
    ensures PrintClause(cs[0]) <= PrintClauses(cs)
    ensures PrintClause(cs[0]) != ""
    ensures var c := PrintClauses(cs)[0]; c == '+' || c == '-' || CanBegin(c)
  {
    ClauseBegins(cs[0]);
  }

  predicate IsLetter(c: char) {
    'A' <= ToUpper(c) <= 'Z'
  }

  /** A word of letters at the head of a + r is already at the head of a, if r begins with none. */
  lemma {:induction false} PrefixStays(a: string, r: string, word: string)
    requires HasPrefixFold(a + r, word) && !IsLetter(Peek(r))
    requires forall i :: 0 <= i < |word| ==> 'A' <= word[i] <= 'Z'
    ensures HasPrefixFold(a, word)
  {
    assert r != "" ==> (a + r)[|a|] == r[0];
    if |word| <= |a| {
      forall i | 0 <= i < |word|
        ensures ToUpper(a[i]) == word[i]
      {
        assert (a + r)[i] == a[i];
      }
    }
  }

  lemma {:induction false} WordHasNoBareSpace(v: string)
    requires IsWord(v) && |v| > 3 && HasPrefixFold(v, "NOT")
    ensures v[3] != ' '
  {
    assert forall i | 0 <= i < 3 :: ToUpper(v[i]) == "NOT"[i];
    assert v[1..][1..] == v[2..] && v[2..][1..] == v[3..];
    assert WordLen(v[1..], false) == |v| - 1;
    assert WordLen(v[2..], false) == |v| - 2;
    assert WordLen(v[3..], false) == |v| - 3;
  }

  lemma {:induction false} FieldHasNoSpace(f: string, i: nat)
    ensures IsField(f) && i < |f| ==> !IsSpace(f[i])
  {
    if IsField(f) && 0 < i < |f| {
      FieldHasNoSpace(f[1..], i - 1);
    }
  }

  lemma {:induction false} FieldIsNoNegation(f: string, t: string)
    requires IsField(f) && f != ""
    ensures !HasPrefixFold(f + ":" + t, "NOT ")
  {
    var s := f + ":" + t;
    if HasPrefixFold(s, "NOT ") {
      assert s == f + (":" + t);
      assert forall i | 0 <= i < 4 :: ToUpper(s[i]) == "NOT "[i];
      PrefixStays(f, ":" + t, "NOT");
      assert s[|f|] == ':' && (|f| > 3 ==> s[3] == f[3]);
      if |f| > 3 {
        FieldHasNoSpace(f, 3);
      }
    }
  }

  /** Only the bare word NOT before a space reads as a negation. */
  lemma {:induction false} NoNegation(n: Node, r: string, last: bool)
    requires WfTerm(n) && Follows(r, last)
    requires !IsNotWord(Clause(Should, "", n)) || Peek(r) != ' '
    ensures !HasPrefixFold(Print(n) + r, "NOT ")
  {
    var a := Print(n);
    var s := a + r;
    assert r != "" ==> s[|a|] == r[0];
    assert |a| > 3 ==> s[3] == a[3];
    if HasPrefixFold(s, "NOT ") {
      assert forall i | 0 <= i < 4 :: ToUpper(s[i]) == "NOT "[i];
      PrefixStays(a, r, "NOT");
      assert a[0] == s[0];
      if n.Term? && |a| > 3 {
        WordHasNoBareSpace(a);
      }
    }
  }

  // ---------- whole trees ----------

  lemma {:induction false} NamedFieldRead(f: string, t: string)
    ensures IsField(f) ==> Field(f + (":" + t)) == (f, t)
  {
    if IsField(f) {
      var s := f + (":" + t);
      FieldThen(f, ":" + t);
      assert s[..|f|] == f && s[|f|..][0] == ':' && s[|f| + 1..] == t;
    }
  }

  lemma {:induction false} NoFieldRead(n: Node, r: string, last: bool)
    requires WfTerm(n) && !HidesField(Clause(Should, "", n)) && Follows(r, last)
    ensures Field(Print(n) + r) == ("", Print(n) + r)
  {
    var t := Print(n);
    TermBegins(n);
    FieldThen(t, r);
    if n.Term? && !n.wildcard && PlainLeaf(n) {
      PlainHasNoColon(n.value);
    }
    var k := FieldLen(t + r);
    if k < |t| {
      assert (t + r)[k..][0] == t[k];
    } else {
      assert (t + r)[k..] == r;
    }
  }

  lemma {:induction false} PlainHasNoColon(v: string)
    ensures !NeedsQuote(v) ==> forall i :: 0 <= i < |v| ==> v[i] != ':'
  {
    if !NeedsQuote(v) {
      assert forall i :: 0 <= i < |v| ==> !ForcesQuotes(v[i]);
    }
  }

  lemma {:induction false} FieldRead(c: Clause, r: string, last: bool)
    requires WfClause(c) && !HidesField(c) && Follows(r, last)
    ensures Field(FieldText(c.field) + Print(c.term) + r) == (c.field, Print(c.term) + r)
  {
    hide Field, Print, WfTerm;
    var t := Print(c.term) + r;
    if c.field != "" {
      assert FieldText(c.field) + Print(c.term) + r == c.field + (":" + t);
      NamedFieldRead(c.field, t);
    } else {
      assert FieldText(c.field) + Print(c.term) + r == t;
      NoFieldRead(c.term, r, last);
    }
  }

  lemma {:induction false} TermRead(n: Node, r: string, last: bool)
    requires WfTerm(n) && JoinsTerm(n, last) && Follows(r, last)
    ensures TermAt(Print(n) + r) == Ok(Requote(n), r)
    decreases WeighNode(n, AllBytes), 0
  {
    hide TermAt, IsWord, IsPhraseBody, NeedsQuote, Quote, EndsEscaped;
    match n
    case Term(v, wildcard, prefix) =>
      PrefixIsWildcard(v);
      if PlainLeaf(n) {
        if !wildcard {
          PlainWordIsUnescaped(v);
        }
        WordRead(v, r, last);
      } else {
        QuoteRead(v, r);
      }
    case Phrase(v) => QuoteRead(v, r);
    case Range(_, _, _, _) => RangeRead(n, r);
    case Group(q) => GroupRead(q, r);
  }

  lemma {:induction false} GroupRead(q: Node, r: string)
    requires WfQuery(q) && JoinsQuery(q, false)
    ensures TermAt(Print(Group(q)) + r) == Ok(Group(Requote(q)), r)
    decreases WeighNode(q, AllBytes), 4
  {
    hide QueryAt, WfQuery, JoinsQuery, Requote, WeighNode;
    var s := Print(Group(q)) + r;
    QueryRead(q, ")" + r, false);
    assert s[1..] == Print(q) + (")" + r);
    assert (")" + r)[1..] == r;
  }

  lemma PrefixIsWildcard(v: string)
    ensures IsPrefixPattern(v) ==> HasWildcard(v)
  {
    if IsPrefixPattern(v) {
      assert IsWildcard(v[|v| - 1]);
    }
  }

  lemma {:induction false} PlainWordIsUnescaped(v: string)
    ensures !NeedsQuote(v) ==> !EndsEscaped(v)
  {
    if !NeedsQuote(v) {
      assert forall i :: 0 <= i < |v| ==> !ForcesQuotes(v[i]);
      NoBackslash(v);
    }
  }

  lemma {:induction false} NoBackslash(v: string)
    requires forall i :: 0 <= i < |v| ==> v[i] != '\\'
    ensures !EndsEscaped(v)
  {
    if v != "" {
      NoBackslash(v[1..]);
    }
  }

  lemma {:induction false} NotNegated(c: Clause, r: string, last: bool)
    requires WfClause(c) && Follows(r, last)
    requires c.occur == Should && !(IsNotWord(c) && Peek(r) == ' ')
    ensures !HasPrefixFold(FieldText(c.field) + Print(c.term) + r, "NOT ")
  {
    hide Print, WfTerm, HasPrefixFold, IsNotWord;
    var t := Print(c.term) + r;
    var s := FieldText(c.field) + Print(c.term) + r;
    if c.field != "" {
      assert s == c.field + ":" + t;
      FieldIsNoNegation(c.field, t);
    } else {
      assert s == t && c == Clause(Should, "", c.term);
      NoNegation(c.term, r, last);
    }
  }

  lemma {:induction false} PrefixRead(c: Clause, r: string, last: bool)
    requires WfClause(c) && Follows(r, last)
    requires !(IsNotWord(c) && Peek(r) == ' ')
    ensures
      var s := PrintClause(c) + r;
      PrefixAt(SkipSpace(s)) == (c.occur, FieldText(c.field) + Print(c.term) + r)
  {
    hide Print, WfTerm, HasPrefixFold, FieldText, IsNotWord, IsField;
    var body := FieldText(c.field) + Print(c.term) + r;
    var s := PrintClause(c) + r;
    ClauseBegins(c);
    assert s == Sign(c.occur) + body;
    if c.occur == Should {
      assert s == body;
      NotNegated(c, r, last);
      SignBegins(c);
    } else {
      assert s[1..] == body;
    }
  }

  lemma {:induction false} SignBegins(c: Clause)
    requires WfClause(c) && c.occur == Should
    ensures PrintClause(c) != "" && PrintClause(c)[0] != '+' && PrintClause(c)[0] != '-'
  {
    TermBegins(c.term);
  }

  lemma {:induction false} ClauseRead(c: Clause, r: string, last: bool)
    requires WfClause(c) && JoinsClause(c, last) && Follows(r, last)
    requires !(IsNotWord(c) && Peek(r) == ' ')
    ensures ClauseAt(PrintClause(c) + r) == Ok(RequoteClause(c), r)
    decreases WeighClause(c, AllBytes), 1
  {
    hide TermAt, Field, PrefixAt, SkipSpace, Print, PrintClause, FieldText, Requote;
    hide WfTerm, JoinsTerm, IsNotWord, HidesField;
    PrefixRead(c, r, last);
    FieldRead(c, r, last);
    TermRead(c.term, r, last);
  }

  function Unjoined(cs: seq<Clause>): (items: seq<Item>)
    ensures |items| == |cs|
    ensures forall i :: 0 <= i < |cs| ==> items[i] == Item(false, cs[i])
  {
    if cs == [] then [] else [Item(false, cs[0])] + Unjoined(cs[1..])
  }

  lemma {:induction false} ItemsRead(cs: seq<Clause>, r: string, last: bool)
    requires WfClauses(cs) && JoinsClauses(cs, last)
    requires Follows(r, last) && AtEnd(r)
    ensures ItemsAt(PrintClauses(cs) + r, false) == Ok(Unjoined(RequoteClauses(cs)), r)
    decreases WeighClauses(cs, AllBytes), 2, |cs|
  {
    if |cs| == 0 {
      assert PrintClauses(cs) + r == r;
    } else if |cs| == 1 {
      LastItem(cs, r, last);
    } else {
      NextItem(cs, r, last);
    }
  }

  lemma {:induction false} LastItem(cs: seq<Clause>, r: string, last: bool)
    requires |cs| == 1 && WfClauses(cs) && JoinsClauses(cs, last)
    requires Follows(r, last) && AtEnd(r)
    ensures ItemsAt(PrintClauses(cs) + r, false) == Ok(Unjoined(RequoteClauses(cs)), r)
    decreases WeighClauses(cs, AllBytes), 2, 0
  {
    hide ClauseAt, PrintClause, WfClause, RequoteClause, JoinsClause, WeighClause;
    assert cs[1..] == [];
    ClauseRead(cs[0], r, last);
    ClauseBegins(cs[0]);
    assert RequoteClauses(cs) == [RequoteClause(cs[0])];
    assert Unjoined(RequoteClauses(cs)) == [Item(false, RequoteClause(cs[0]))];
  }

  lemma {:induction false} NextItem(cs: seq<Clause>, r: string, last: bool)
    requires |cs| > 1 && WfClauses(cs) && JoinsClauses(cs, last)
    requires Follows(r, last) && AtEnd(r)
    ensures ItemsAt(PrintClauses(cs) + r, false) == Ok(Unjoined(RequoteClauses(cs)), r)
    decreases WeighClauses(cs, AllBytes), 2, |cs|, 0
  {
    hide ItemsAt, ClauseAt, PrintClause, Operator, WfClause, RequoteClause, JoinsClause, WeighClause;
    var tail := PrintClauses(cs[1..]) + r;
    var s := PrintClause(cs[0]) + (" " + tail);
    assert PrintClauses(cs) + r == s;
    ClauseRead(cs[0], " " + tail, false);
    NoOperator(cs[1..], r, last);
    ItemsRead(cs[1..], r, last);
    ClauseBegins(cs[0]);
    ClausesBegin(cs[1..]);
    ItemStep(s, RequoteClause(cs[0]), tail);
    assert RequoteClauses(cs)[1..] == RequoteClauses(cs[1..]);
  }

  /** One clause, a space, and the clauses after it. */
  lemma {:induction false} ItemStep(s: string, c: Clause, tail: string)
    requires s != "" && !IsBlank(s[0]) && !AtEnd(s) && ClauseAt(s) == Ok(c, " " + tail)
    requires tail != "" && !IsBlank(tail[0]) && !AtEnd(tail) && Operator(tail) == (false, tail)
    requires ItemsAt(tail, false).Ok?
    ensures
      var more := ItemsAt(tail, false);
      ItemsAt(s, false) == Ok([Item(false, c)] + more.value, more.rest)
  {
    assert (" " + tail)[1..] == tail;
    assert SkipSpace(" " + tail) == tail;
  }

  lemma {:induction false} NoOperator(cs: seq<Clause>, r: string, last: bool)
    requires cs != [] && WfClauses(cs) && !StartsWithOperator(cs[0]) && Follows(r, last)
    ensures Operator(PrintClauses(cs) + r) == (false, PrintClauses(cs) + r)
  {
    hide Operator, PrintClause;
    var a := PrintClause(cs[0]);
    ghost var after := if |cs| == 1 then r else " " + PrintClauses(cs[1..]) + r;
    assert PrintClauses(cs) + r == a + after;
    NoOperatorHere(cs[0], after);
  }

  lemma {:induction false} NoOperatorHere(c: Clause, after: string)
    requires !StartsWithOperator(c) && !IsLetter(Peek(after))
    ensures Operator(PrintClause(c) + after) == (false, PrintClause(c) + after)
  {
    hide PrintClause;
    var s := PrintClause(c) + after;
    if HasPrefixFold(s, "AND") {
      PrefixStays(PrintClause(c), after, "AND");
    }
    if HasPrefixFold(s, "OR") {
      PrefixStays(PrintClause(c), after, "OR");
    }
  }

  /** Reading the text of a query, whatever follows it, stops where the query ends and
      returns the same clauses with the same signs, fields and groups; only leaves that
      print with quotes change. */
  lemma {:induction false} QueryRead(q: Node, r: string, last: bool)
    requires WfQuery(q) && JoinsQuery(q, last)
    requires Follows(r, last) && AtEnd(r)
    ensures QueryAt(Print(q) + r) == Ok(Requote(q), r)
    decreases WeighNode(q, AllBytes), 3
  {
    hide ItemsAt, Print, PrintClauses, JoinsClauses, WfQuery, Requote, Clauses, Collapse, Resolve;
    var cs := Clauses(q);
    PrintAsClauses(q);
    ClausesWeigh(q, AllBytes);
    ClausesForm(q);
    ItemsRead(cs, r, last);
    RequoteCollapsed(q);
  }

  lemma {:induction false} ClausesForm(q: Node)
    ensures WfQuery(q) ==> WfClauses(Clauses(q))
  {
  }

  lemma {:induction false} RequoteCollapsed(q: Node)
    requires WfQuery(q)
    ensures Collapse(Resolve(Unjoined(RequoteClauses(Clauses(q))))) == Requote(q)
  {
    var back := RequoteClauses(Clauses(q));
    assert Resolve(Unjoined(back)) == back;
    if !q.Boolean? {
      assert back == [RequoteClause(Clauses(q)[0])];
    }
  }

  /** The forwarded text of any tree whose neighbours keep apart. */
  lemma {:induction false} ReadPrinted(n: Node)
    requires WfQuery(n) && JoinsQuery(n, true)
    ensures Parse(Print(n)) == Done(Requote(n))
  {
    hide QueryAt, Requote, WfTerm, WfClause, JoinsQuery, PrintClause;
    PrintAsClauses(n);
    ClausesForm(n);
    var s := Print(n);
    assert s + "" == s;
    QueryRead(n, "", true);
    if Clauses(n) != [] {
      ClausesBegin(Clauses(n));
    } else {
      NothingRead(n);
    }
  }

  lemma {:induction false} NothingRead(n: Node)
    ensures Clauses(n) == [] ==> n == Boolean([]) && Print(n) == "" && Requote(n) == n
  {
  }

  /** Canonical trees survive printing and reading unchanged. */
  lemma {:induction false} RoundTrip(n: Node)
    requires WfQuery(n) && Canonical(n)
    ensures Parse(Print(n)) == Done(n)
  {
    ReadPrinted(n);
    RequoteFix(n);
  }
}
