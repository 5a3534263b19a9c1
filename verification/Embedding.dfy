/** A query between parentheses is read as it is on its own, in both directions: the parenthesis
    that follows it neither ends anything early nor lets anything run on, as long as no backslash
    takes it away. */
module Embedding {
  import opened Text
  import opened Ast
  import opened Grammar
  import opened CanonicalForm
  import opened RoundTrip
  import opened Brackets

  /** The same reading with r left over besides. */
  function Shifted<T>(alone: Parsed<T>, r: string): Parsed<T> {
    match alone
    case Ok(value, rest) => Ok(value, rest + r)
    case Err(error) => Err(error)
  }

  // ---------- tokens ----------

  lemma {:induction false} SkipInside(a: string, r: string)
    requires Peek(r) == ')'
    ensures SkipSpace(a + r) == SkipSpace(a) + r && AtEnd(SkipSpace(a) + r) == AtEnd(SkipSpace(a))
  {
    SkipOver(a, r);
    assert "" + r == r;
  }

  lemma {:induction false} LettersInside(a: string, r: string, word: string)
    requires Peek(r) == ')' && forall i :: 0 <= i < |word| ==> 'A' <= word[i] <= 'Z'
    ensures HasPrefixFold(a + r, word) == HasPrefixFold(a, word)
  {
    if HasPrefixFold(a + r, word) {
      PrefixStays(a, r, word);
    }
    if HasPrefixFold(a, word) {
      assert forall i | 0 <= i < |word| :: (a + r)[i] == a[i];
    }
  }

  lemma {:induction false} NotInside(a: string, r: string)
    requires Peek(r) == ')'
    ensures HasPrefixFold(a + r, "NOT ") == HasPrefixFold(a, "NOT ")
  {
    var s := a + r;
    assert s[|a|] == r[0] && forall i :: 0 <= i < |a| ==> s[i] == a[i];
    if HasPrefixFold(s, "NOT ") {
      assert forall i | 0 <= i < 4 :: ToUpper(s[i]) == "NOT "[i];
    }
  }

  lemma {:induction false} PrefixInside(a: string, r: string)
    requires Peek(r) == ')'
    ensures PrefixAt(a + r) == (PrefixAt(a).0, PrefixAt(a).1 + r)
  {
    NotInside(a, r);
    if a == "" {
      assert a + r == r;
    } else {
      assert (a + r)[1..] == a[1..] + r;
      if HasPrefixFold(a, "NOT ") {
        assert (a + r)[3..] == a[3..] + r;
        SkipInside(a[3..], r);
      }
    }
  }

  lemma {:induction false} OperatorInside(a: string, r: string)
    requires Peek(r) == ')'
    ensures Operator(a + r) == (Operator(a).0, Operator(a).1 + r)
  {
    LettersInside(a, r, "AND");
    LettersInside(a, r, "OR");
    if HasPrefixFold(a, "AND") {
      assert (a + r)[3..] == a[3..] + r;
    } else if HasPrefixFold(a, "OR") {
      assert (a + r)[2..] == a[2..] + r;
    }
  }

  lemma {:induction false} FieldInside(a: string, r: string)
    requires Peek(r) == ')'
    ensures Field(a + r) == (Field(a).0, Field(a).1 + r)
  {
    FieldThen(a, r);
    var k := FieldLen(a);
    assert (a + r)[k..] == a[k..] + r && (a + r)[..k] == a[..k];
    assert k < |a| ==> (a + r)[k + 1..] == a[k + 1..] + r;
  }

  lemma {:induction false} WordInside(a: string, r: string, escaped: bool)
    requires WordLen(a + r, escaped) <= |a|
    ensures WordLen(a, escaped) == WordLen(a + r, escaped)
  {
    if a != "" && WordLen(a + r, escaped) > 0 {
      assert (a + r)[1..] == a[1..] + r;
      WordInside(a[1..], r, !escaped && a[0] == '\\');
    }
  }

  lemma {:induction false} PhraseInside(a: string, r: string)
    requires 0 <= PhraseLen(a + r) < |a|
    ensures PhraseLen(a) == PhraseLen(a + r)
    decreases |a|
  {
    var s := a + r;
    if s[0] == '\\' {
      assert s[1..] == a[1..] + r && s[1..][1..] == a[1..][1..] + r && a[1..][1..] == a[2..];
      PhraseInside(a[2..], r);
    } else if s[0] != '"' {
      assert s[1..] == a[1..] + r;
      PhraseInside(a[1..], r);
    }
  }

  // ---------- ranges ----------

  lemma BracketIsNotTo(s: string, j: nat)
    ensures j < |s| && (s[j] == ']' || s[j] == '}') ==> !EqualFold(s, "TO")
  {
    if j < |s| == 2 {
      assert s[j] == ']' || s[j] == '}' ==> ToUpper(s[j]) != "TO"[j];
    }
  }

  /** A bound ends alike when a closing bracket comes later. */
  lemma {:induction false} BoundLenInside(a: string, r: string, j: nat)
    requires Peek(r) == ')' && BoundLen(a + r) <= j < |a| && (a[j] == ']' || a[j] == '}')
    ensures BoundLen(a) == BoundLen(a + r)
  {
    var s := a + r;
    assert s[j] == a[j] && s[0] == a[0];
    BracketIsNotTo(s, j);
    BracketIsNotTo(a, j);
    if !EndsBound(s) {
      assert s[1..] == a[1..] + r;
      BoundLenInside(a[1..], r, j - 1);
    }
  }

  lemma {:induction false} SkipIsSuffix(s: string)
    ensures SkipSpace(s) == s[|s| - |SkipSpace(s)|..]
  {
    if s != "" && IsBlank(s[0]) {
      SkipIsSuffix(s[1..]);
    }
  }

  /** What is left before r after k more bytes and the blanks behind them. */
  lemma {:induction false} DropInside(b: string, r: string, k: nat, x: string)
    requires Peek(r) == ')' && k <= |b + r| && SkipSpace((b + r)[k..]) == x + r
    ensures k <= |b| && (b + r)[k..] == b[k..] + r && (b + r)[..k] == b[..k]
    ensures SkipSpace(b[k..]) == x && |x| <= |b| - k && x == b[|b| - |x|..]
  {
    hide SkipSpace;
    SkipIsSuffix((b + r)[k..]);
    SliceInside(b, r, k);
    SkipInside(b[k..], r);
    SameLeft(SkipSpace(b[k..]), x, r);
    SkipIsSuffix(b[k..]);
  }

  lemma SliceInside(b: string, r: string, k: nat)
    ensures k <= |b| ==> (b + r)[k..] == b[k..] + r && (b + r)[..k] == b[..k]
  {
  }

  lemma SameLeft(x: string, y: string, r: string)
    ensures x + r == y + r ==> x == y
  {
    if x + r == y + r {
      assert x == (x + r)[..|x|] && y == (y + r)[..|y|];
    }
  }

  /** One bound and the blanks around it, x being left before r. */
  lemma {:induction false} BoundInside(a: string, r: string, x: string, j: nat)
    requires Peek(r) == ')' && BoundAt(SkipSpace(a + r)).Ok?
    requires SkipSpace(BoundAt(SkipSpace(a + r)).rest) == x + r
    requires j < |x| && (x[j] == ']' || x[j] == '}')
    ensures BoundAt(SkipSpace(a + r)) == Shifted(BoundAt(SkipSpace(a)), r)
    ensures SkipSpace(BoundAt(SkipSpace(a)).rest) == x
  {
    hide BoundLen, SkipSpace;
    var b := SkipSpace(a);
    SkipInside(a, r);
    DropInside(b, r, BoundLen(b + r), x);
    BoundLenInside(b, r, |b| - |x| + j);
  }

  predicate EndsWith(s: string, t: string) {
    |t| <= |s| && s[|s| - |t|..] == t
  }

  lemma {:induction false} BoundSuffix(s: string)
    ensures BoundAt(SkipSpace(s)).Ok? ==> EndsWith(s, SkipSpace(BoundAt(SkipSpace(s)).rest))
  {
    if BoundAt(SkipSpace(s)).Ok? {
      var b := SkipSpace(s);
      var t := BoundAt(b).rest;
      SkipIsSuffix(s);
      SkipIsSuffix(t);
    }
  }

  lemma {:induction false} CutInside(a: string, r: string, t: string) returns (x: string)
    requires EndsWith(a + r, t) && |t| >= |r|
    ensures t == x + r && EndsWith(a, x)
  {
    x := a[|a| - (|t| - |r|)..];
    assert (a + r)[|a + r| - |t|..] == x + r;
  }

  /** A range with its low bound before s2, its high bound before s4 and the bracket there. */
  predicate RangeBetween(s: string, inclusive: bool, s2: string, s4: string) {
    s != "" && BoundAt(SkipSpace(s[1..])).Ok? && SkipSpace(BoundAt(SkipSpace(s[1..])).rest) == s2 &&
    HasPrefixFold(s2, "TO") && |s2| >= 2 && BoundAt(SkipSpace(s2[2..])).Ok? &&
    SkipSpace(BoundAt(SkipSpace(s2[2..])).rest) == s4 && Peek(s4) == if inclusive then ']' else '}'
  }

  lemma {:induction false} RangeMade(s: string, inclusive: bool, s2: string, s4: string)
    requires RangeBetween(s, inclusive, s2, s4)
    ensures RangeAt(s, inclusive) ==
            Ok(Range(BoundAt(SkipSpace(s[1..])).value, BoundAt(SkipSpace(s2[2..])).value,
                     inclusive, inclusive), s4[1..])
  {
    hide BoundAt, SkipSpace;
  }

  lemma {:induction false} RangeInside(a: string, r: string, inclusive: bool)
    requires Peek(r) == ')' && a != "" && RangeAt(a + r, inclusive).Ok?
    requires |RangeAt(a + r, inclusive).rest| >= |r|
    ensures RangeAt(a + r, inclusive) == Shifted(RangeAt(a, inclusive), r)
  {
    var s := a + r;
    var s2 := SkipSpace(BoundAt(SkipSpace(s[1..])).rest);
    var s4 := SkipSpace(BoundAt(SkipSpace(s2[2..])).rest);
    assert RangeBetween(s, inclusive, s2, s4);
    hide RangeAt, BoundAt, SkipSpace, HasPrefixFold;
    RangeMade(a + r, inclusive, s2, s4);
    SliceInside(a, r, 1);
    BoundSuffix(a[1..] + r);
    BoundSuffix(s2[2..]);
    var x2 := CutInside(a[1..], r, s2);
    SliceInside(x2, r, 2);
    var x4 := CutInside(x2[2..], r, s4);
    SliceInside(x4, r, 1);
    RangeCut(a, r, inclusive, x2, x4);
  }

  lemma {:induction false} RangeCut(a: string, r: string, inclusive: bool, x2: string, x4: string)
    requires Peek(r) == ')' && a != "" && |x2| >= 2 && x4 != "" && EndsWith(x2[2..], x4)
    requires RangeBetween(a + r, inclusive, x2 + r, x4 + r)
    ensures RangeAt(a + r, inclusive) == Shifted(RangeAt(a, inclusive), r)
  {
    hide RangeAt, BoundAt, SkipSpace, HasPrefixFold;
    RangeMade(a + r, inclusive, x2 + r, x4 + r);
    SliceInside(a, r, 1);
    SliceInside(x2, r, 2);
    SliceInside(x4, r, 1);
    LettersInside(x2, r, "TO");
    assert x2[|x2| - |x4|] == x4[0];
    BoundInside(x2[2..], r, x4, 0);
    BoundInside(a[1..], r, x2, |x2| - |x4|);
    RangeMade(a, inclusive, x2, x4);
  }

  // ---------- terms, clauses and queries ----------

  lemma {:induction false} LeafInside(a: string, r: string)
    requires Peek(r) == ')' && a != "" && !IsBlank(a[0]) && a[0] != '('
    requires TermAt(a + r).Ok? && |TermAt(a + r).rest| >= |r|
    ensures TermAt(a + r) == Shifted(TermAt(a), r)
  {
    hide WordLen, PhraseLen, RangeAt, MakeTerm;
    var s := a + r;
    assert SkipSpace(s) == s && SkipSpace(a) == a;
    if a[0] == '"' {
      var k := PhraseLen(s[1..]);
      assert s[1..] == a[1..] + r;
      PhraseInside(a[1..], r);
      assert s[1..][..k] == a[1..][..k] && s[1..][k + 1..] == a[1..][k + 1..] + r;
    } else if a[0] == '[' || a[0] == '{' {
      RangeInside(a, r, a[0] == '[');
    } else {
      var k := WordLen(s, false);
      assert TermAt(s).rest == s[k..];
      WordInside(a, r, false);
      assert s[..k] == a[..k] && s[k..] == a[k..] + r;
    }
  }

  lemma {:induction false} TermInside(a: string, r: string)
    requires Peek(r) == ')' && TermAt(a + r).Ok? && |TermAt(a + r).rest| >= |r|
    ensures TermAt(a + r) == Shifted(TermAt(a), r)
    decreases |a|, 0
  {
    SkipInside(a, r);
    var b := SkipSpace(a);
    TermSkips(a + r);
    TermSkips(a);
    NoTermHere(r);
    assert "" + r == r;
    hide TermAt, SkipSpace;
    if b[0] == '(' {
      GroupParts(b + r);
      assert (b + r)[1..] == b[1..] + r;
      QueryInside(b[1..], r);
      GroupWhole(b, r);
    } else {
      LeafInside(b, r);
    }
  }

  lemma {:induction false} NoTermHere(r: string)
    ensures Peek(r) == ')' ==> TermAt(r).Err?
  {
    if Peek(r) == ')' {
      assert SkipSpace(r) == r && WordLen(r, false) == 0;
    }
  }

  lemma {:induction false} GroupParts(s: string)
    ensures Peek(s) == '(' && TermAt(s).Ok? ==>
      QueryAt(s[1..]).Ok? && |QueryAt(s[1..]).rest| >= |TermAt(s).rest|
  {
    hide QueryAt;
  }

  /** Equal readings between the parentheses give equal groups. */
  lemma {:induction false} GroupWhole(b: string, r: string)
    requires Peek(b) == '(' && Peek(r) == ')' && QueryAt(b[1..]).Ok?
    requires QueryAt(b[1..] + r) == Shifted(QueryAt(b[1..]), r)
    ensures TermAt(b).Ok? || (TermAt(b + r).Ok? && |TermAt(b + r).rest| >= |r|) ==>
              TermAt(b + r) == Shifted(TermAt(b), r)
  {
    hide QueryAt;
    var s1 := QueryAt(b[1..]).rest;
    SkipInside(s1, r);
    var s2 := SkipSpace(s1);
    assert (b + r)[1..] == b[1..] + r && SkipSpace(b + r) == b + r && SkipSpace(b) == b;
    assert s2 != "" ==> (s2 + r)[1..] == s2[1..] + r;
    assert s2 == "" ==> |(s2 + r)[1..]| < |r|;
  }

  lemma {:induction false} TermSkips(s: string)
    ensures TermAt(SkipSpace(s)) == TermAt(s)
  {
    assert SkipSpace(SkipSpace(s)) == SkipSpace(s);
  }

  lemma {:induction false} ClauseInside(a: string, r: string)
    requires Peek(r) == ')' && ClauseAt(a + r).Ok? && |ClauseAt(a + r).rest| >= |r|
    ensures ClauseAt(a + r) == Shifted(ClauseAt(a), r)
    decreases |a|, 1
  {
    hide PrefixAt, Field, TermAt, SkipSpace;
    SkipInside(a, r);
    PrefixInside(SkipSpace(a), r);
    FieldInside(PrefixAt(SkipSpace(a)).1, r);
    TermInside(Field(PrefixAt(SkipSpace(a)).1).1, r);
  }

  lemma {:induction false} ItemsInside(a: string, r: string, joined: bool)
    requires Peek(r) == ')' && ItemsAt(a + r, joined).Ok? && |ItemsAt(a + r, joined).rest| >= |r|
    ensures ItemsAt(a + r, joined) == Shifted(ItemsAt(a, joined), r)
    decreases |a|, 2
  {
    hide ClauseAt, Operator, AtEnd;
    SkipInside(a, r);
    var b := SkipSpace(a);
    if !AtEnd(b) {
      ClauseInside(b, r);
      var s1 := ClauseAt(b).rest;
      SkipInside(s1, r);
      var s2 := SkipSpace(s1);
      if !AtEnd(s2) {
        OperatorInside(s2, r);
        ItemsInside(Operator(s2).1, r, Operator(s2).0);
      }
    }
  }

  /** A query read before a closing parenthesis is read alike when the text ends there. */
  lemma {:induction false} QueryInside(a: string, r: string)
    requires Peek(r) == ')' && QueryAt(a + r).Ok? && |QueryAt(a + r).rest| >= |r|
    ensures QueryAt(a + r) == Shifted(QueryAt(a), r)
    decreases |a|, 3
  {
    ItemsInside(a, r, false);
  }

  // ---------- from the text alone to the text inside ----------

  lemma {:induction false} WordOutside(a: string, r: string, escaped: bool)
    requires WordLen(a, escaped) < |a|
    ensures WordLen(a + r, escaped) == WordLen(a, escaped)
  {
    if WordLen(a, escaped) > 0 {
      assert (a + r)[1..] == a[1..] + r;
      WordOutside(a[1..], r, !escaped && a[0] == '\\');
    }
  }

  lemma {:induction false} PhraseOutside(a: string, r: string)
    requires 0 <= PhraseLen(a)
    ensures PhraseLen(a + r) == PhraseLen(a)
    decreases |a|
  {
    var s := a + r;
    if a[0] == '\\' {
      assert s[1..] == a[1..] + r && s[1..][1..] == a[1..][1..] + r && a[1..][1..] == a[2..];
      PhraseOutside(a[2..], r);
    } else if a[0] != '"' {
      assert s[1..] == a[1..] + r;
      PhraseOutside(a[1..], r);
    }
  }

  lemma {:induction false} BoundLenOutside(a: string, r: string, j: nat)
    requires Peek(r) == ')' && BoundLen(a) <= j < |a| && (a[j] == ']' || a[j] == '}')
    ensures BoundLen(a + r) == BoundLen(a)
  {
    var s := a + r;
    assert s[j] == a[j] && s[0] == a[0];
    BracketIsNotTo(s, j);
    BracketIsNotTo(a, j);
    if !EndsBound(a) {
      assert s[1..] == a[1..] + r;
      BoundLenOutside(a[1..], r, j - 1);
    }
  }

  lemma {:induction false} BoundOutside(a: string, r: string, x: string, j: nat)
    requires Peek(r) == ')' && BoundAt(SkipSpace(a)).Ok? && x == SkipSpace(BoundAt(SkipSpace(a)).rest)
    requires j < |x| && (x[j] == ']' || x[j] == '}')
    ensures BoundAt(SkipSpace(a + r)) == Shifted(BoundAt(SkipSpace(a)), r)
    ensures SkipSpace(BoundAt(SkipSpace(a + r)).rest) == x + r
  {
    hide BoundLen;
    var b := SkipSpace(a);
    var k := BoundLen(b);
    SkipInside(a, r);
    SkipInside(b[k..], r);
    SkipIsSuffix(b[k..]);
    BoundLenOutside(b, r, |b| - |x| + j);
    SliceInside(b, r, k);
  }

  lemma {:induction false} RangeOutside(a: string, r: string, inclusive: bool)
    requires Peek(r) == ')' && a != "" && RangeAt(a, inclusive).Ok?
    ensures RangeAt(a + r, inclusive) == Shifted(RangeAt(a, inclusive), r)
  {
    var x2 := SkipSpace(BoundAt(SkipSpace(a[1..])).rest);
    var x4 := SkipSpace(BoundAt(SkipSpace(x2[2..])).rest);
    assert RangeBetween(a, inclusive, x2, x4);
    hide RangeAt, BoundAt, SkipSpace, HasPrefixFold;
    RangeMade(a, inclusive, x2, x4);
    BoundSuffix(x2[2..]);
    LettersInside(x2, r, "TO");
    SliceInside(a, r, 1);
    SliceInside(x2, r, 2);
    SliceInside(x4, r, 1);
    assert x2[|x2| - |x4|] == x4[0];
    BoundOutside(a[1..], r, x2, |x2| - |x4|);
    BoundOutside(x2[2..], r, x4, 0);
    RangeMade(a + r, inclusive, x2 + r, x4 + r);
  }

  /** No backslash of the text takes the closing parenthesis that follows it. */
  predicate KeepsClose(a: string, r: string, d: nat) {
    |Close(a + r, d)| >= |r|
  }

  lemma {:induction false} LeafOutside(a: string, r: string, d: nat)
    requires Peek(r) == ')' && a != "" && !IsBlank(a[0]) && a[0] != '(' && TermAt(a).Ok?
    requires KeepsClose(a, r, d)
    ensures TermAt(a + r) == Shifted(TermAt(a), r)
  {
    hide WordLen, PhraseLen, RangeAt, MakeTerm, PassOver, EndsEscaped;
    var s := a + r;
    assert SkipSpace(s) == s && SkipSpace(a) == a;
    if a[0] == '"' {
      var k := PhraseLen(a[1..]);
      assert s[1..] == a[1..] + r;
      PhraseOutside(a[1..], r);
      assert s[1..][..k] == a[1..][..k] && s[1..][k + 1..] == a[1..][k + 1..] + r;
    } else if a[0] == '[' || a[0] == '{' {
      RangeOutside(a, r, a[0] == '[');
    } else {
      var k := WordLen(a, false);
      WholeWordOutside(a, r, d);
      assert s[..k] == a[..k] && s[k..] == a[k..] + r;
    }
  }

  lemma {:induction false} WholeWordOutside(a: string, r: string, d: nat)
    requires Peek(r) == ')' && KeepsClose(a, r, d)
    ensures WordLen(a + r, false) == WordLen(a, false)
  {
    hide WordLen, PassOver, EndsEscaped;
    if WordLen(a, false) < |a| {
      WordOutside(a, r, false);
    } else {
      PrintedWordCloses(a, r, d);
      WordThen(a, r, false);
    }
  }

  lemma {:induction false} TermOutside(a: string, r: string, d: nat)
    requires Peek(r) == ')' && TermAt(a).Ok? && KeepsClose(a, r, d)
    ensures TermAt(a + r) == Shifted(TermAt(a), r)
    decreases |a|, 0
  {
    SkipInside(a, r);
    var b := SkipSpace(a);
    TermSkips(a + r);
    TermSkips(a);
    CloseSkip(a + r, d);
    assert b != "";
    if b[0] == '(' {
      assert (b + r)[1..] == b[1..] + r;
      assert Close(b + r, d) == Close(b[1..] + r, d + 1);
      hide TermAt, SkipSpace, PassOver;
      GroupParts(b);
      QueryOutside(b[1..], r, d + 1);
      GroupWhole(b, r);
    } else {
      LeafOutside(b, r, d);
    }
  }

  lemma {:induction false} ClauseOutside(a: string, r: string, d: nat)
    requires Peek(r) == ')' && ClauseAt(a).Ok? && KeepsClose(a, r, d)
    ensures ClauseAt(a + r) == Shifted(ClauseAt(a), r)
    decreases |a|, 1
  {
    var b := SkipSpace(a);
    var s1 := PrefixAt(b).1;
    FieldCloses(s1 + r, d);
    hide PrefixAt, Field, TermAt, SkipSpace, PassOver;
    SkipInside(a, r);
    CloseSkip(a + r, d);
    PrefixInside(b, r);
    ClosePrefix(b + r, d);
    FieldInside(s1, r);
    TermOutside(Field(s1).1, r, d);
  }

  lemma {:induction false} ItemsOutside(a: string, r: string, joined: bool, d: nat)
    requires Peek(r) == ')' && ItemsAt(a, joined).Ok? && KeepsClose(a, r, d)
    ensures ItemsAt(a + r, joined) == Shifted(ItemsAt(a, joined), r)
    decreases |a|, 2
  {
    hide ClauseAt, Operator, AtEnd, PassOver, RangesOf;
    SkipInside(a, r);
    CloseSkip(a + r, d);
    var b := SkipSpace(a);
    if !AtEnd(b) {
      ClauseOutside(b, r, d);
      ClauseCloses(b + r, d);
      var s1 := ClauseAt(b).rest;
      SkipInside(s1, r);
      CloseSkip(s1 + r, d);
      var s2 := SkipSpace(s1);
      if !AtEnd(s2) {
        OperatorInside(s2, r);
        CloseOperator(s2 + r, d);
        ItemsOutside(Operator(s2).1, r, Operator(s2).0, d);
      }
    }
  }

  /** A query read from a text that ends is read alike before a closing parenthesis that no
      backslash takes away. */
  lemma {:induction false} QueryOutside(a: string, r: string, d: nat)
    requires Peek(r) == ')' && QueryAt(a).Ok? && KeepsClose(a, r, d)
    ensures QueryAt(a + r) == Shifted(QueryAt(a), r)
    decreases |a|, 3
  {
    ItemsOutside(a, r, false, d);
  }
}
