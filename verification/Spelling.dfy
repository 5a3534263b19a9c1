/** Byte by byte: which bytes end a word, a field name and a bound, what makes a word a pattern,
    and what forces a word into quotes. */
module Spelling {
  import opened Text
  import opened Ast
  import opened Grammar
  import opened Printer
  import opened NormalForm
  import opened CanonicalForm
  import opened RoundTrip
  import opened Samples
  import opened ReportLaws
  import opened RuleLaws

  const BLANKS := " \t\n\r"
  const SPACES := " \t\n\r\U{0B}\U{0C}\U{85}\U{A0}"
  const SPECIALS := "()[]{}\":+-"

  // ---------- patterns ----------

  /** A star or a question mark anywhere makes a pattern. */
  predicate WrittenAsPattern(v: string) {
    '*' in v || '?' in v
  }

  /** A star behind a word that is no pattern makes a prefix. */
  ghost predicate WrittenAsPrefix(v: string) {
    exists p :: v == p + "*" && !WrittenAsPattern(p)
  }

  lemma {:induction false} Written(v: string)
    ensures HasWildcard(v) <==> WrittenAsPattern(v)
    ensures IsPrefixPattern(v) <==> WrittenAsPrefix(v)
  {
    WildcardWritten(v);
    if v != "" {
      var p := v[..|v| - 1];
      WildcardWritten(p);
      assert v[|v| - 1] == '*' ==> v == p + "*";
    }
    forall p | v == p + "*" && !WrittenAsPattern(p)
      ensures IsPrefixPattern(v)
    {
      WildcardWritten(p);
      assert v[..|v| - 1] == p;
    }
  }

  lemma WildcardWritten(v: string)
    ensures HasWildcard(v) <==> WrittenAsPattern(v)
  {
    if HasWildcard(v) {
      var i :| 0 <= i < |v| && IsWildcard(v[i]);
      assert v[i] in v;
    }
    if '*' in v {
      var i :| 0 <= i < |v| && v[i] == '*';
      assert IsWildcard(v[i]);
    } else if '?' in v {
      var i :| 0 <= i < |v| && v[i] == '?';
      assert IsWildcard(v[i]);
    }
  }

  /** Every word of every query that can be read is told to be a pattern or a prefix exactly when
      it is written as one, wherever it stands. */
  lemma {:induction false} PatternsTold(s: string)
    requires Parse(s).Done?
    ensures forall l :: l in Leaves(Parse(s).value, "") && l.leaf.Term? ==>
              (l.leaf.wildcard <==> '*' in l.leaf.value || '?' in l.leaf.value) &&
              (l.leaf.prefix <==> exists p :: l.leaf.value == p + "*" && '*' !in p && '?' !in p)
  {
    ParseForm(s);
    hide Parse, HasWildcard, IsPrefixPattern;
    LeavesForm(Parse(s).value, "");
    forall l | l in Leaves(Parse(s).value, "") && l.leaf.Term?
      ensures l.leaf.wildcard <==> WrittenAsPattern(l.leaf.value)
      ensures l.leaf.prefix <==> WrittenAsPrefix(l.leaf.value)
    {
      assert WfTerm(l.leaf);
      Written(l.leaf.value);
    }
  }

  /** A text of other bytes than white space, NUL, the special ones and the backslash reads as a
      word. */
  lemma {:induction false} BareWord(v: string)
    requires v != "" && forall i :: 0 <= i < |v| ==> v[i] !in SPACES && v[i] !in SPECIALS && v[i] !in "\\\0"
    ensures
      Parse(v) ==
      Done(Term(v, '*' in v || '?' in v, exists p :: v == p + "*" && '*' !in p && '?' !in p))
  {
    Written(v);
    forall i | 0 <= i < |v|
      ensures v[i] != EOF && !IsSpace(v[i]) && !IsSpecial(v[i]) && v[i] != '\\'
    {
      Spaces(v[i]);
      Specials(v[i]);
      assert v[i] != "\\\0"[0] && v[i] != "\\\0"[1];
    }
    hide Parse, HasWildcard, IsPrefixPattern, IsSpace, IsSpecial;
    BareWordRead(v);
    assert WrittenAsPrefix(v) == exists p :: v == p + "*" && '*' !in p && '?' !in p;
  }

  lemma Spaces(c: char)
    ensures IsSpace(c) <==> c in SPACES
  {
    var t := SPACES;
    assert t[0] == ' ' && t[1] == '\t' && t[2] == '\n' && t[3] == '\r' && t[4] == '\U{0B}' &&
           t[5] == '\U{0C}' && t[6] == '\U{85}' && t[7] == '\U{A0}' && |t| == 8;
  }

  lemma Specials(c: char)
    ensures IsSpecial(c) <==> c in SPECIALS
  {
    var t := SPECIALS;
    assert t[0] == '(' && t[1] == ')' && t[2] == '[' && t[3] == ']' && t[4] == '{' && t[5] == '}' &&
           t[6] == '"' && t[7] == ':' && t[8] == '+' && t[9] == '-' && |t| == 10;
  }

  // ---------- where tokens end ----------

  /** None of the bytes that end a word, nor a backslash. */
  predicate Ordinary(v: string) {
    forall i :: 0 <= i < |v| ==> v[i] !in SPACES && v[i] !in SPECIALS && v[i] != '\\' && v[i] != '\0'
  }

  predicate EndsWord(t: string) {
    t == "" || t[0] in SPACES || t[0] in SPECIALS || t[0] == '\0'
  }

  lemma {:induction false} OrdinaryLens(v: string)
    requires Ordinary(v)
    ensures WordLen(v, false) == |v| && FieldLen(v) == |v|
    ensures v != "" ==> SkipSpace(v) == v
  {
    if v != "" {
      Spaces(v[0]);
      Specials(v[0]);
      OrdinaryLens(v[1..]);
    }
  }

  lemma EndStops(t: string)
    ensures EndsWord(t) ==> Stops(t)
  {
    if t != "" {
      Spaces(t[0]);
      Specials(t[0]);
    }
  }

  /** The node a word is read as. */
  ghost function WordNode(v: string): Node {
    Term(v, WrittenAsPattern(v), WrittenAsPrefix(v))
  }

  /** A word takes in every byte up to one that ends it, and any byte behind a backslash. */
  lemma {:induction false} WordSpelled(v: string, c: char, w: string, t: string)
    requires Ordinary(v) && Ordinary(w) && EndsWord(t) && c != '\0'
    ensures v != "" ==> TermAt(v + t) == Ok(WordNode(v), t)
    ensures TermAt(v + ['\\', c] + w + t) == Ok(WordNode(v + ['\\', c] + w), t)
  {
    OrdinaryLens(v);
    EndStops(t);
    NoEscape(v);
    if v != "" {
      WordTaken(v, t);
    }
    var x := v + ['\\', c] + w;
    EscapedLen(v, c, w);
    WordTaken(x, t);
    assert v + ['\\', c] + w + t == x + t;
  }

  lemma {:induction false} NoEscape(v: string)
    requires Ordinary(v)
    ensures !EndsEscaped(v)
  {
    NoBackslash(v);
  }

  lemma {:induction false} EscapedLen(v: string, c: char, w: string)
    requires Ordinary(v) && Ordinary(w) && c != '\0'
    ensures
      var x := v + ['\\', c] + w;
      WordLen(x, false) == |x| && !EndsEscaped(x)
  {
    var x := v + ['\\', c] + w;
    if v == "" {
      assert x[0] == '\\' && x[1..][0] == c && x[1..][1..] == w;
      OrdinaryLens(w);
      NoEscape(w);
    } else {
      Spaces(v[0]);
      Specials(v[0]);
      assert x[1..] == v[1..] + ['\\', c] + w;
      EscapedLen(v[1..], c, w);
    }
  }

  lemma {:induction false} WordTaken(x: string, t: string)
    requires x != "" && WordLen(x, false) == |x| && !EndsEscaped(x) && Stops(t)
    ensures TermAt(x + t) == Ok(WordNode(x), t)
  {
    Written(x);
    WordThen(x, t, false);
    var s := x + t;
    assert s[..|x|] == x && s[|x|..] == t && s[0] == x[0];
    hide HasWildcard, IsPrefixPattern;
  }

  /** A name of such bytes before a colon is the field of the clause. */
  lemma {:induction false} FieldSpelled(f: string, v: string, t: string)
    requires Ordinary(f) && Ordinary(v) && v != "" && EndsWord(t)
    ensures ClauseAt(f + ":" + v + t) == Ok(Clause(Should, f, WordNode(v)), t)
  {
    var s := f + ":" + v + t;
    assert s == f + (":" + (v + t));
    OrdinaryLens(f);
    hide Ordinary, EndsWord, TermAt, WordLen, FieldLen, WordNode, PrefixAt, Field, SkipSpace;
    NamedFieldRead(f, v + t);
    assert Ordinary("") by {
      Nothing();
    }
    WordSpelled(v, 'x', "", t);
    assert f <= s && s[|f|] == ':';
    FieldIsNoPrefix(f, s);
  }

  lemma Nothing()
    ensures Ordinary("")
  {
  }

  lemma {:induction false} FieldIsNoPrefix(f: string, s: string)
    requires Ordinary(f) && f <= s && |f| < |s| && s[|f|] == ':'
    ensures SkipSpace(s) == s && PrefixAt(s) == (Should, s)
  {
    var c := s[0];
    Spaces(c);
    Specials(c);
    assert c == '+' ==> c in SPECIALS;
    assert c == '-' ==> c in SPECIALS;
    if |s| >= 4 {
      var k := if |f| < 3 then |f| else 3;
      Spaces(s[k]);
      assert ToUpper(s[k]) != "NOT "[k];
    }
  }

  /** The bytes of a bound: any but white space, NUL and closing brackets. */
  predicate BoundBytes(b: string) {
    forall i :: 0 <= i < |b| ==> b[i] !in SPACES && b[i] !in "]}" && b[i] != '\0'
  }

  /** The bounds of a range take in all such bytes; the word between them is read in any case. */
  lemma {:induction false} RangeSpelled(low: string, x: char, y: char, high: string, inclusive: bool, t: string)
    requires low != "" && high != "" && BoundBytes(low) && BoundBytes(high) && x in "tT" && y in "oO"
    ensures
      var (open, close) := if inclusive then ("[", "]") else ("{", "}");
      TermAt(open + low + " " + [x, y] + " " + high + close + t) == Ok(Range(low, high, inclusive, inclusive), t)
  {
    BytesBound(low);
    BytesBound(high);
    var (open, close) := if inclusive then ("[", "]") else ("{", "}");
    var s3 := high + (close + t);
    var s2 := [x, y] + (" " + s3);
    var s := open + (low + (" " + s2));
    assert s == open + low + " " + [x, y] + " " + high + close + t;
    BracketRead(s);
    hide IsBound, BoundBytes, TermAt;
    RangeFrom(s, low, x, y, high, inclusive, t);
  }

  lemma {:induction false} RangeFrom(s: string, low: string, x: char, y: char, high: string, inclusive: bool, t: string)
    requires IsBound(low) && IsBound(high) && x in "tT" && y in "oO" && s != ""
    requires s[1..] == low + (" " + ([x, y] + (" " + (high + ((if inclusive then "]" else "}") + t)))))
    ensures RangeAt(s, inclusive) == Ok(Range(low, high, inclusive, inclusive), t)
  {
    var close := if inclusive then "]" else "}";
    var s3 := high + (close + t);
    var s2 := [x, y] + (" " + s3);
    ToSpelled(x, y, s3);
    BoundRead(low, " " + s2);
    BoundRead(high, close + t);
    NoBlank(close + t);
    assert (close + t)[1..] == t && (close + t)[0] == close[0];
    hide BoundAt, SkipSpace, HasPrefixFold, IsBound;
  }

  lemma BracketRead(s: string)
    ensures s != "" && s[0] == '[' ==> TermAt(s) == RangeAt(s, true)
    ensures s != "" && s[0] == '{' ==> TermAt(s) == RangeAt(s, false)
  {
    hide RangeAt;
  }

  lemma NoBlank(s: string)
    requires s != "" && !IsBlank(s[0])
    ensures SkipSpace(s) == s
  {
  }

  lemma {:induction false} ToSpelled(x: char, y: char, s3: string)
    requires x in "tT" && y in "oO"
    ensures
      var s2 := [x, y] + (" " + s3);
      HasPrefixFold(s2, "TO") && SkipSpace(" " + s2) == s2 && SkipSpace(s2[2..]) == SkipSpace(s3)
  {
    var s2 := [x, y] + (" " + s3);
    assert s2[0] == x && s2[1] == y && s2[2..] == " " + s3 && (" " + s3)[1..] == s3 && (" " + s2)[1..] == s2;
    assert ToUpper(x) == "TO"[0] && ToUpper(y) == "TO"[1];
  }

  /** At the end of the text the letters of TO end a bound. */
  lemma {:induction false} CutRange(low: string, x: char, y: char)
    requires low != "" && BoundBytes(low) && x in "tT" && y in "oO"
    ensures TermAt("[" + low + [x, y]) == Err(ExpectedBound)
  {
    var s := "[" + (low + [x, y]);
    assert s == "[" + low + [x, y];
    BytesBound(low);
    BoundBeforeTo(low, x, y);
    var t := low + [x, y];
    assert s[1..] == t && t[..|low|] == low && t[|low|..] == [x, y] && [x, y][2..] == "";
    NoBlank(s);
    NoBlank(t);
    NoBlank([x, y]);
    hide SkipSpace, IsBound, BoundBytes;
    assert BoundAt("") == Err(ExpectedBound) && SkipSpace("") == "" by {
      assert BoundLen("") == 0;
    }
    assert ToUpper([x, y][0]) == "TO"[0] && ToUpper([x, y][1]) == "TO"[1];
  }

  lemma {:induction false} BoundBeforeTo(low: string, x: char, y: char)
    requires forall i :: 0 <= i < |low| ==> InBound(low[i])
    requires x in "tT" && y in "oO"
    ensures BoundLen(low + [x, y]) == |low|
  {
    var t := low + [x, y];
    if low == "" {
      assert t == [x, y] && ToUpper(t[0]) == "TO"[0] && ToUpper(t[1]) == "TO"[1];
    } else {
      assert t[1..] == low[1..] + [x, y];
      BoundBeforeTo(low[1..], x, y);
    }
  }

  lemma BytesBound(b: string)
    requires b != "" && BoundBytes(b)
    ensures IsBound(b)
  {
    forall i | 0 <= i < |b|
      ensures InBound(b[i])
    {
      Spaces(b[i]);
      assert b[i] != "]}"[0] && b[i] != "]}"[1];
    }
  }

  // ---------- operators ----------

  /** An operator is read wherever the letters of AND or OR come next, in any case, whatever follows
      them. */
  lemma {:induction false} OperatorSpelled(s: string)
    ensures Operator(s) ==
            if |s| >= 3 && s[0] in "aA" && s[1] in "nN" && s[2] in "dD" then (true, s[3..])
            else if |s| >= 2 && s[0] in "oO" && s[1] in "rR" then (false, s[2..])
            else (false, s)
  {
    if |s| >= 2 {
      Folded(s[0]);
      Folded(s[1]);
      assert HasPrefixFold(s, "OR") <==> ToUpper(s[0]) == "OR"[0] && ToUpper(s[1]) == "OR"[1];
    }
    if |s| >= 3 {
      Folded(s[2]);
      assert HasPrefixFold(s, "AND") <==>
             ToUpper(s[0]) == "AND"[0] && ToUpper(s[1]) == "AND"[1] && ToUpper(s[2]) == "AND"[2];
    }
  }

  lemma Folded(c: char)
    ensures ToUpper(c) == 'A' <==> c in "aA"
    ensures ToUpper(c) == 'D' <==> c in "dD"
    ensures ToUpper(c) == 'N' <==> c in "nN"
    ensures ToUpper(c) == 'O' <==> c in "oO"
    ensures ToUpper(c) == 'R' <==> c in "rR"
    ensures ToUpper(c) == 'T' <==> c in "tT"
    ensures ToUpper(c) == ' ' <==> c == ' '
  {
  }

  /** The sign of a clause: plus, minus, or the letters of NOT in any case and a blank. */
  lemma {:induction false} SignSpelled(s: string)
    ensures PrefixAt(s) ==
            if |s| >= 1 && s[0] == '+' then (Must, s[1..])
            else if |s| >= 1 && s[0] == '-' then (MustNot, s[1..])
            else if |s| >= 4 && s[0] in "nN" && s[1] in "oO" && s[2] in "tT" && s[3] == ' ' then
              (MustNot, SkipSpace(s[3..]))
            else (Should, s)
  {
    if |s| >= 4 {
      Folded(s[0]);
      Folded(s[1]);
      Folded(s[2]);
      Folded(s[3]);
      assert HasPrefixFold(s, "NOT ") <==>
             ToUpper(s[0]) == "NOT "[0] && ToUpper(s[1]) == "NOT "[1] &&
             ToUpper(s[2]) == "NOT "[2] && ToUpper(s[3]) == "NOT "[3];
    }
  }

  // ---------- queries of one byte ----------

  /** What a text of one byte is read as. */
  lemma {:induction false} OneByte(c: char)
    ensures c in BLANKS || c == '\0' ==> Parse([c]) == Done(Boolean([]))
    ensures c !in SPACES && c !in SPECIALS && c != '\\' && c != '\0' ==> Parse([c]) == Done(WordNode([c]))
    ensures c in "+-:" ==> Parse([c]) == Failed(UnexpectedEnd)
    ensures c in "\U{0B}\U{0C}\U{85}\U{A0}]}" ==> Parse([c]) == Failed(ExpectedTerm)
    ensures c in "[{" ==> Parse([c]) == Failed(ExpectedBound)
    ensures c == '"' ==> Parse([c]) == Failed(UnterminatedPhrase)
    ensures c == '(' ==> Parse([c]) == Failed(ExpectedClosingParen)
    ensures c == ')' ==> Parse([c]) == Failed(UnexpectedToken)
  {
    var s := [c];
    OneByteClause(c);
    hide ClauseAt, Parse, QueryAt, ItemsAt, IsSpace;
    if c !in SPACES && c !in SPECIALS && c != '\\' && c != '\0' {
      BareWord(s);
    } else if c == '(' {
      OneParenthesis();
    } else if c == ')' || c == '\0' || c in BLANKS {
      NothingInside(c);
    } else if c in "[{" || c in "+-:" || c == '"' || c in "\U{0B}\U{0C}\U{85}\U{A0}]}" {
      ClauseFails(c);
    }
  }

  lemma NothingInside(c: char)
    ensures c in BLANKS || c == '\0' ==> Parse([c]) == Done(Boolean([]))
    ensures c == ')' ==> Parse([c]) == Failed(UnexpectedToken)
  {
    var s := [c];
    assert s[1..] == "";
    if c == ')' {
      assert ItemsAt(s, false) == Ok([], s);
    }
  }

  lemma {:induction false} ClauseFails(c: char)
    requires ClauseAt([c]).Err? && !IsBlank(c) && c != '\0' && c != ')'
    ensures Parse([c]) == Failed(ClauseAt([c]).error)
  {
    hide ClauseAt;
    var s := [c];
    assert !AtEnd(s) && SkipSpace(s) == s;
    assert ItemsAt(s, false) == Err(ClauseAt(s).error);
  }

  lemma OneByteClause(c: char)
    ensures c in "+-:" ==> ClauseAt([c]) == Err(UnexpectedEnd)
    ensures c in "\U{0B}\U{0C}\U{85}\U{A0}]}" ==> ClauseAt([c]) == Err(ExpectedTerm)
    ensures c in "[{" ==> ClauseAt([c]) == Err(ExpectedBound)
    ensures c == '"' ==> ClauseAt([c]) == Err(UnterminatedPhrase)
  {
    var s := [c];
    assert s[1..] == "";
    assert FieldLen(s) == 0 || c !in "+-:[{\"\U{0B}\U{0C}\U{85}\U{A0}]}";
  }

  lemma OneParenthesis()
    ensures Parse("(") == Failed(ExpectedClosingParen)
  {
    var s := "(";
    assert s[1..] == "";
    assert ItemsAt("", false) == Ok([], "");
    assert QueryAt("").Ok? && QueryAt("").rest == "";
    assert TermAt(s) == Err(ExpectedClosingParen);
    assert ClauseAt(s) == Err(ExpectedClosingParen);
    assert ItemsAt(s, false) == Err(ExpectedClosingParen);
  }

  // ---------- quotes ----------

  const QUOTED_BYTES := ":/\\\"'()[]{}+-~^|&!"

  lemma Forcing(c: char)
    ensures ForcesQuotes(c) <==> c in SPACES || c in QUOTED_BYTES
  {
    Spaces(c);
    var t := QUOTED_BYTES;
    assert t[0] == ':' && t[1] == '/' && t[2] == '\\' && t[3] == '"' && t[4] == '\'' && t[5] == '(' && t[6] == ')';
    assert t[7] == '[' && t[8] == ']' && t[9] == '{' && t[10] == '}' && t[11] == '+' && t[12] == '-';
    assert t[13] == '~' && t[14] == '^' && t[15] == '|' && t[16] == '&' && t[17] == '!' && |t| == 18;
  }

  /** A word that is no pattern prints as it is exactly when it is not empty and holds neither white
      space nor one of eighteen bytes, and in quotes otherwise. */
  lemma {:induction false} WordPrinted(v: string)
    ensures Print(Term(v, false, false)) == v <==>
            v != "" && forall i :: 0 <= i < |v| ==> v[i] !in SPACES && v[i] !in QUOTED_BYTES
    ensures Print(Term(v, false, false)) != v ==> Print(Term(v, false, false)) == "\"" + Escape(v) + "\""
  {
    forall i | 0 <= i < |v|
      ensures ForcesQuotes(v[i]) <==> v[i] in SPACES || v[i] in QUOTED_BYTES
    {
      Forcing(v[i]);
    }
    hide ForcesQuotes;
    EscapeFix(v);
  }

  /** A pattern or prefix always prints as it is. */
  lemma PatternPrinted(v: string)
    ensures Print(Term(v, true, false)) == v && Print(Term(v, false, true)) == v && Print(Term(v, true, true)) == v
  {
  }

  /** What quoting makes of a byte: quotes and backslashes take a backslash, seven others a letter,
      the rest of those below the blank and DEL two hexadecimal digits. */
  lemma {:induction false} ByteQuoted(c: char)
    ensures Escape([c]) ==
            if c == '"' then "\\\"" else if c == '\\' then "\\\\"
            else if c == '\U{07}' then "\\a" else if c == '\U{08}' then "\\b" else if c == '\U{0C}' then "\\f"
            else if c == '\n' then "\\n" else if c == '\r' then "\\r" else if c == '\t' then "\\t"
            else if c == '\U{0B}' then "\\v"
            else if c < ' ' || c == '\U{7F}' then
              ['\\', 'x', "0123456789abcdef"[c as int / 16], "0123456789abcdef"[c as int % 16]]
            else [c]
  {
    assert [c][1..] == "" && EscapeByte(c) + "" == EscapeByte(c);
    assert Escape([c]) == EscapeByte(c);
    if c < ' ' || c == '\U{7F}' {
      HexDigits(c as int / 16);
      HexDigits(c as int % 16);
    }
  }

  lemma HexDigits(d: nat)
    requires d < 16
    ensures HexDigit(d) == "0123456789abcdef"[d]
  {
  }

  lemma {:induction false} EscapeConcat(a: string, b: string)
    ensures Escape(a + b) == Escape(a) + Escape(b)
  {
    if a == "" {
      assert a + b == b;
    } else {
      assert (a + b)[1..] == a[1..] + b;
      EscapeConcat(a[1..], b);
    }
  }

  /** An empty end of a range prints as a star, and either bracket tells whether its end belongs to
      the range. */
  lemma OpenEndsPrinted(low: string, high: string, i: bool, j: bool)
    ensures Print(Range("", high, i, j)) == Print(Range("*", high, i, j))
    ensures Print(Range(low, "", i, j)) == Print(Range(low, "*", i, j))
    ensures
      var t := Print(Range(low, high, i, j));
      t[0] == (if i then '[' else '{') && t[|t| - 1] == (if j then ']' else '}')
  {
  }
}
