/** Where a parenthesis closes is a matter of bytes alone: escapes, quotes and brackets decide it,
    and neither operators nor field names move it. The parser always stops there. */
module Brackets {
  import opened Text
  import opened Ast
  import opened Grammar
  import opened Printer
  import opened NormalForm
  import opened CanonicalForm
  import opened RoundTrip

  function SkipRange(s: string): (r: string)
    ensures |r| <= |s|
  {
    if s == "" then "" else if s[0] == ']' || s[0] == '}' then s[1..] else SkipRange(s[1..])
  }

  /** What is passed over: the bounds of the ranges, and the text where it stops. */
  datatype Passed = Passed(ranges: seq<(string, string)>, close: string)

  function Prepend(rs: seq<(string, string)>, t: Passed): Passed {
    Passed(rs + t.ranges, t.close)
  }

  /** Reads to the parenthesis that closes the one d levels further out; escaped bytes, phrases
      and ranges are passed over. */
  function PassOver(s: string, d: nat): (t: Passed)
    ensures |t.close| <= |s|
    decreases |s|
  {
    if Peek(s) == EOF then Passed([], s)
    else if s[0] == '\\' then
      if Peek(s[1..]) == EOF then Passed([], s[1..]) else PassOver(s[2..], d)
    else if s[0] == '"' then
      var k := PhraseLen(s[1..]);
      if k < 0 then Passed([], "") else PassOver(s[1..][k + 1..], d)
    else if s[0] == '[' || s[0] == '{' then Prepend(RangeHere(s), PassOver(SkipRange(s[1..]), d))
    else if s[0] == '(' then PassOver(s[1..], d + 1)
    else if s[0] == ')' then
      if d == 0 then Passed([], s) else PassOver(s[1..], d - 1)
    else PassOver(s[1..], d)
  }

  /** The bounds of the range that begins here, if one does. */
  function RangeHere(s: string): seq<(string, string)>
    requires s != ""
  {
    var p := RangeAt(s, s[0] == '[');
    if p.Ok? && p.value.Range? then [(p.value.low, p.value.high)] else []
  }

  function Close(s: string, d: nat): (r: string)
    ensures |r| <= |s|
  {
    PassOver(s, d).close
  }

  /** The bounds of the ranges of a tree from left to right. */
  function RangesOf(n: Node): seq<(string, string)>
    decreases n, 0
  {
    match n
    case Range(low, high, _, _) => [(low, high)]
    case Single(c) => RangesOf(c.term)
    case Boolean(cs) => RangesOfAll(cs)
    case Group(q) => RangesOf(q)
    case _ => []
  }

  function RangesOfAll(cs: seq<Clause>): seq<(string, string)>
    decreases cs, 0
  {
    if cs == [] then [] else RangesOf(cs[0].term) + RangesOfAll(cs[1..])
  }

  lemma PrependSeveral(a: seq<(string, string)>, b: seq<(string, string)>, t: Passed)
    ensures Prepend([], t) == t && Prepend(a, Prepend(b, t)) == Prepend(a + b, t)
  {
    assert [] + t.ranges == t.ranges && a + (b + t.ranges) == a + b + t.ranges;
  }

  /** Resolving operators and collapsing move no range. */
  lemma {:induction false} CollapsedRanges(items: seq<Item>)
    ensures RangesOf(Collapse(Resolve(items))) == RangesOfAll(ItemClauses(items))
  {
    var cs := Resolve(items);
    SameTermsRanges(cs, ItemClauses(items));
    if |cs| == 1 {
      assert cs[1..] == [] && RangesOfAll(cs) == RangesOf(cs[0].term) + [];
    }
  }

  function ItemClauses(items: seq<Item>): (cs: seq<Clause>)
    ensures |cs| == |items|
    ensures forall i :: 0 <= i < |items| ==> cs[i] == items[i].clause
  {
    if items == [] then [] else [items[0].clause] + ItemClauses(items[1..])
  }

  lemma {:induction false} SameTermsRanges(a: seq<Clause>, b: seq<Clause>)
    requires |a| == |b| && forall i :: 0 <= i < |a| ==> a[i].term == b[i].term
    ensures RangesOfAll(a) == RangesOfAll(b)
  {
    if a != [] {
      SameTermsRanges(a[1..], b[1..]);
    }
  }

  // ---------- reading tokens ----------

  lemma {:induction false} CloseSkip(s: string, d: nat)
    ensures PassOver(SkipSpace(s), d) == PassOver(s, d)
  {
    if s != "" && IsBlank(s[0]) {
      CloseSkip(s[1..], d);
    }
  }

  /** The letters of a word like NOT, AND and OR are passed over. */
  lemma {:induction false} CloseLetters(s: string, n: nat, d: nat)
    requires n <= |s| && forall i :: 0 <= i < n ==> IsLetter(s[i])
    ensures PassOver(s[n..], d) == PassOver(s, d)
  {
    if n > 0 {
      CloseLetters(s[1..], n - 1, d);
      assert s[1..][n - 1..] == s[n..];
    }
  }

  lemma {:induction false} CloseWord(s: string, d: nat)
    ensures PassOver(s[WordLen(s, false)..], d) == PassOver(s, d)
    decreases |s|
  {
    var k := WordLen(s, false);
    if k > 0 {
      if s[0] != '\\' {
        CloseWord(s[1..], d);
        assert s[1..][k - 1..] == s[k..];
      } else if Peek(s[1..]) != EOF {
        assert s[1..][1..] == s[2..];
        CloseWord(s[2..], d);
        assert s[2..][k - 2..] == s[k..];
      } else {
        assert k == 1;
      }
    }
  }

  /** A field name may end in a backslash, which then escapes its colon. */
  lemma {:induction false} CloseField(s: string, d: nat)
    requires Peek(s[FieldLen(s)..]) == ':'
    ensures PassOver(s[FieldLen(s) + 1..], d) == PassOver(s, d)
    decreases |s|
  {
    var k := FieldLen(s);
    if k > 0 {
      assert s[k..][0] == s[k] && s[1..][k - 1..] == s[k..] && s[1..][k..] == s[k + 1..];
      if s[0] != '\\' {
        CloseField(s[1..], d);
      } else if k > 1 {
        assert s[1..][1..] == s[2..] && s[2..][k - 2..] == s[k..] && s[2..][k - 1..] == s[k + 1..];
        CloseField(s[2..], d);
      }
    }
  }

  lemma {:induction false} FieldCloses(s: string, d: nat)
    ensures PassOver(Field(s).1, d) == PassOver(s, d)
  {
    hide PassOver;
    if Peek(s[FieldLen(s)..]) == ':' {
      CloseField(s, d);
    }
  }

  lemma {:induction false} ClosePrefix(s: string, d: nat)
    ensures PassOver(PrefixAt(s).1, d) == PassOver(s, d)
  {
    if Peek(s) != '+' && Peek(s) != '-' && HasPrefixFold(s, "NOT ") {
      assert forall i | 0 <= i < 3 :: ToUpper(s[i]) == "NOT "[i];
      CloseLetters(s, 3, d);
      CloseSkip(s[3..], d);
    }
  }

  lemma {:induction false} CloseOperator(s: string, d: nat)
    ensures PassOver(Operator(s).1, d) == PassOver(s, d)
  {
    if HasPrefixFold(s, "AND") {
      CloseLetters(s, 3, d);
    } else if HasPrefixFold(s, "OR") {
      CloseLetters(s, 2, d);
    }
  }

  // ---------- reading ranges ----------

  lemma {:induction false} RangeSkip(s: string)
    ensures SkipRange(SkipSpace(s)) == SkipRange(s)
  {
    if s != "" && IsBlank(s[0]) {
      RangeSkip(s[1..]);
    }
  }

  lemma {:induction false} RangeBound(s: string)
    ensures SkipRange(s[BoundLen(s)..]) == SkipRange(s)
  {
    if BoundLen(s) > 0 {
      RangeBound(s[1..]);
      assert s[1..][BoundLen(s) - 1..] == s[BoundLen(s)..];
    }
  }

  lemma {:induction false} RangeTo(s: string)
    ensures HasPrefixFold(s, "TO") ==> SkipRange(s[2..]) == SkipRange(s)
  {
    if HasPrefixFold(s, "TO") {
      assert ToUpper(s[0]) == "TO"[0] && ToUpper(s[1]) == "TO"[1];
      assert SkipRange(s[1..]) == SkipRange(s[1..][1..]);
      assert s[1..][1..] == s[2..];
    }
  }

  /** A range ends at the first bracket that can end one. */
  lemma {:induction false} RangeCloses(s: string, inclusive: bool)
    requires s != "" && RangeAt(s, inclusive).Ok?
    ensures RangeAt(s, inclusive).rest == SkipRange(s[1..])
  {
    hide BoundLen;
    var b1 := SkipSpace(s[1..]);
    var s1 := b1[BoundLen(b1)..];
    var s2 := SkipSpace(s1);
    var b2 := SkipSpace(s2[2..]);
    RangeSkip(s[1..]);
    RangeBound(b1);
    RangeSkip(s1);
    RangeTo(s2);
    RangeSkip(s2[2..]);
    RangeBound(b2);
    RangeSkip(b2[BoundLen(b2)..]);
  }

  // ---------- every success stops where the parenthesis closes ----------

  lemma {:induction false} TermCloses(s: string, d: nat)
    requires TermAt(s).Ok?
    ensures PassOver(s, d) == Prepend(RangesOf(TermAt(s).value), PassOver(TermAt(s).rest, d))
    decreases |s|, 0
  {
    hide QueryAt, SkipSpace, SkipRange, WordLen, PhraseLen;
    var s0 := SkipSpace(s);
    CloseSkip(s, d);
    PrependSeveral([], [], PassOver(TermAt(s).rest, d));
    if s0[0] == '[' || s0[0] == '{' {
      RangeCloses(s0, s0[0] == '[');
    } else if s0[0] == '(' {
      hide RangeAt;
      QueryCloses(s0[1..], d + 1);
      CloseSkip(QueryAt(s0[1..]).rest, d + 1);
    } else if s0[0] != '"' {
      hide RangeAt;
      CloseWord(s0, d);
    }
  }

  lemma {:induction false} ClauseCloses(s: string, d: nat)
    requires ClauseAt(s).Ok?
    ensures PassOver(s, d) == Prepend(RangesOf(ClauseAt(s).value.term), PassOver(ClauseAt(s).rest, d))
    decreases |s|, 1
  {
    hide TermAt, PrefixAt, Field, PassOver, RangesOf;
    CloseSkip(s, d);
    ClosePrefix(SkipSpace(s), d);
    var s1 := PrefixAt(SkipSpace(s)).1;
    FieldCloses(s1, d);
    TermCloses(Field(s1).1, d);
  }

  lemma {:induction false} ItemsClose(s: string, joined: bool, d: nat)
    requires ItemsAt(s, joined).Ok?
    ensures
      var p := ItemsAt(s, joined);
      AtEnd(p.rest) && PassOver(s, d) == Prepend(RangesOfAll(ItemClauses(p.value)), PassOver(p.rest, d))
    decreases |s|, 2
  {
    hide ClauseAt, Operator, PassOver, RangesOf;
    CloseSkip(s, d);
    var s0 := SkipSpace(s);
    var p := ItemsAt(s, joined);
    PrependSeveral([], [], PassOver(p.rest, d));
    if !AtEnd(s0) {
      ClauseCloses(s0, d);
      var s1 := ClauseAt(s0).rest;
      CloseSkip(s1, d);
      var s2 := SkipSpace(s1);
      var rs := RangesOf(ClauseAt(s0).value.term);
      if !AtEnd(s2) {
        var (and, s3) := Operator(s2);
        CloseOperator(s2, d);
        ItemsClose(s3, and, d);
        var more := ItemsAt(s3, and).value;
        assert p.value[0].clause == ClauseAt(s0).value && p.value[1..] == more;
        PrependSeveral(rs, RangesOfAll(ItemClauses(more)), PassOver(p.rest, d));
        FirstRanges(p.value);
      } else {
        assert p.value[0].clause == ClauseAt(s0).value && p.value[1..] == [];
        FirstRanges(p.value);
        assert rs + [] == rs;
      }
    }
  }

  lemma FirstRanges(items: seq<Item>)
    ensures items != [] ==>
      RangesOfAll(ItemClauses(items)) ==
      RangesOf(items[0].clause.term) + RangesOfAll(ItemClauses(items[1..]))
  {
    if items != [] {
      assert ItemClauses(items)[1..] == ItemClauses(items[1..]);
    }
  }

  /** Whatever the text: a query read from it ends at the end of the text or at a parenthesis, the
      one that closes the parenthesis it stands in; and its ranges are those of the text passed
      over, in their order. */
  lemma {:induction false} QueryCloses(s: string, d: nat)
    requires QueryAt(s).Ok?
    ensures AtEnd(QueryAt(s).rest)
    ensures PassOver(s, d) == Prepend(RangesOf(QueryAt(s).value), PassOver(QueryAt(s).rest, d))
    decreases |s|, 3
  {
    hide PassOver, RangesOf, Collapse, Resolve;
    ItemsClose(s, false, d);
    CollapsedRanges(ItemsAt(s, false).value);
  }

  // ---------- printed text ----------

  /** The text of the tree ends in a backslash that protects no byte of it. */
  predicate Dangles(n: Node)
    decreases n, 0
  {
    match n
    case Term(v, wildcard, _) => wildcard && EndsEscaped(v)
    case Single(c) => Dangles(c.term)
    case Boolean(cs) => LastDangles(cs)
    case _ => false
  }

  predicate LastDangles(cs: seq<Clause>)
    decreases cs, 0
  {
    if cs == [] then false else if |cs| == 1 then Dangles(cs[0].term) else LastDangles(cs[1..])
  }

  /** The number of closing parentheses that backslashes of the text protect. */
  function Lost(n: Node): nat
    decreases n, 0
  {
    match n
    case Group(q) => Lost(q) + (if Dangles(q) then 1 else 0)
    case Single(c) => Lost(c.term)
    case Boolean(cs) => LostIn(cs)
    case _ => 0
  }

  function LostIn(cs: seq<Clause>): nat
    decreases cs, 0
  {
    if cs == [] then 0 else Lost(cs[0].term) + LostIn(cs[1..])
  }

  lemma {:induction false} PrintedWordCloses(v: string, r: string, d: nat)
    requires WordLen(v, false) == |v| && (r == "" || Peek(r) != EOF)
    ensures PassOver(v + r, d) == PassOver(if EndsEscaped(v) then Next(r) else r, d)
    decreases |v|
  {
    var s := v + r;
    if v == "" {
      assert s == r;
    } else if v[0] != '\\' {
      assert s[1..] == v[1..] + r;
      PrintedWordCloses(v[1..], r, d);
    } else if |v| == 1 {
      assert s[1..] == r && (r != "" ==> s[2..] == r[1..]);
      assert EndsEscaped(v[1..], true);
    } else {
      assert s[2..] == v[2..] + r && s[1..][0] == v[1] && v[1..][1..] == v[2..];
      assert WordLen(v[1..], true) == |v| - 1;
      PrintedWordCloses(v[2..], r, d);
    }
  }

  lemma {:induction false} PrintedTermCloses(n: Node, r: string, d: nat)
    requires WfTerm(n) && (r == "" || Peek(r) != EOF)
    ensures PassOver(Print(n) + r, d) ==
            Prepend(RangesOf(n), PassOver(if Dangles(n) then Next(r) else r, d + Lost(n)))
    decreases n, 0
  {
    hide PassOver, TermAt, NeedsQuote, IsPhraseBody, EndsEscaped, Quote;
    match n
    case Term(v, wildcard, _) =>
      PrefixIsWildcard(v);
      if PlainLeaf(n) {
        if !wildcard {
          PlainWordIsUnescaped(v);
        }
        PrintedWordCloses(v, r, d);
      } else {
        QuoteRead(v, r);
        TermCloses(Quote(v) + r, d);
      }
    case Phrase(v) =>
      QuoteRead(v, r);
      TermCloses(Quote(v) + r, d);
    case Range(_, _, _, _) =>
      RangeRead(n, r);
      TermCloses(Print(n) + r, d);
    case Group(q) =>
      PrintedCloses(q, ")" + r, d + 1);
      OpenCloses(Print(q), r, d);
      CloserCloses(r, d + Lost(q));
  }

  lemma {:induction false} OpenCloses(inner: string, r: string, d: nat)
    ensures PassOver("(" + inner + ")" + r, d) == PassOver(inner + (")" + r), d + 1)
  {
    var s := "(" + inner + ")" + r;
    assert s[1..] == inner + (")" + r);
  }

  lemma {:induction false} CloserCloses(r: string, d: nat)
    ensures PassOver(")" + r, d + 1) == PassOver(r, d) && (")" + r)[1..] == r
  {
    assert (")" + r)[1..] == r;
  }

  lemma {:induction false} PrintedClauseCloses(c: Clause, r: string, d: nat)
    requires WfClause(c) && (r == "" || Peek(r) != EOF)
    ensures PassOver(PrintClause(c) + r, d) ==
            Prepend(RangesOf(c.term), PassOver(if Dangles(c.term) then Next(r) else r, d + Lost(c.term)))
    decreases c, 0
  {
    hide PassOver, Print, WfTerm, IsField, Sign;
    var t := Print(c.term) + r;
    var body := FieldText(c.field) + t;
    assert PrintClause(c) + r == Sign(c.occur) + body;
    PrintedTermCloses(c.term, r, d);
    SignCloses(c.occur, body, d);
    FieldTextCloses(c.field, t, d);
  }

  lemma {:induction false} FieldTextCloses(f: string, t: string, d: nat)
    requires IsField(f)
    ensures PassOver(FieldText(f) + t, d) == PassOver(t, d)
  {
    hide PassOver;
    var body := FieldText(f) + t;
    if f != "" {
      assert body == f + (":" + t);
      FieldThen(f, ":" + t);
      assert body[|f|..] == ":" + t && body[|f| + 1..] == t;
      CloseField(body, d);
    } else {
      assert body == t;
    }
  }

  lemma {:induction false} SignCloses(occur: Occur, body: string, d: nat)
    ensures PassOver(Sign(occur) + body, d) == PassOver(body, d)
  {
    var s := Sign(occur) + body;
    if occur == Should {
      assert s == body;
    } else {
      assert s[1..] == body;
    }
  }

  lemma {:induction false} PrintedClausesClose(cs: seq<Clause>, r: string, d: nat)
    requires WfClauses(cs) && (r == "" || Peek(r) != EOF)
    ensures PassOver(PrintClauses(cs) + r, d) ==
            Prepend(RangesOfAll(cs), PassOver(if LastDangles(cs) then Next(r) else r, d + LostIn(cs)))
    decreases cs, 0
  {
    hide PrintClause, WfClause, PassOver;
    if cs == [] {
      assert PrintClauses(cs) + r == r;
    } else if |cs| == 1 {
      PrintedClauseCloses(cs[0], r, d);
    } else {
      var tail := PrintClauses(cs[1..]) + r;
      assert PrintClauses(cs) + r == PrintClause(cs[0]) + (" " + tail);
      PrintedClauseCloses(cs[0], " " + tail, d);
      BlankCloses(tail, d + Lost(cs[0].term));
      PrintedClausesClose(cs[1..], r, d + Lost(cs[0].term));
    }
  }

  lemma {:induction false} BlankCloses(tail: string, d: nat)
    ensures PassOver(" " + tail, d) == PassOver(tail, d) && (" " + tail)[1..] == tail
  {
  }

  /** The parentheses of a printed tree balance, except for those a dangling backslash protects. */
  lemma {:induction false} PrintedCloses(n: Node, r: string, d: nat)
    requires WfQuery(n) && (r == "" || Peek(r) != EOF)
    ensures PassOver(Print(n) + r, d) ==
            Prepend(RangesOf(n), PassOver(if Dangles(n) then Next(r) else r, d + Lost(n)))
    decreases n, 1
  {
    match n
    case Boolean(cs) => PrintedClausesClose(cs, r, d);
    case Single(c) => PrintedClauseCloses(c, r, d);
    case _ => PrintedTermCloses(n, r, d);
  }
}
