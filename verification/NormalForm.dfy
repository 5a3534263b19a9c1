/** The shape of every tree the parser returns. */
module NormalForm {
  import opened Text
  import opened Ast
  import opened Grammar

  // ---------- well-formed leaves ----------

  /** A word the parser reads to its end. */
  predicate IsWord(v: string) {
    v != "" && WordLen(v, false) == |v|
  }

  predicate IsField(f: string) {
    FieldLen(f) == |f|
  }

  /** A text the parser reads between quotes, its escapes kept as written. */
  predicate IsPhraseBody(v: string) {
    PhraseLen(v + "\"") == |v|
  }

  predicate InBound(c: char) {
    c != EOF && !IsSpace(c) && c != ']' && c != '}'
  }

  predicate IsBound(b: string) {
    b != "" && forall i :: 0 <= i < |b| ==> InBound(b[i])
  }

  // ---------- well-formed trees ----------

  predicate WfTerm(n: Node)
    decreases n, 0
  {
    (n.Term? && IsWord(n.value) && n == MakeTerm(n.value)) ||
    (n.Phrase? && IsPhraseBody(n.value)) ||
    (n.Range? && IsBound(n.low) && IsBound(n.high) && n.inclusiveLow == n.inclusiveHigh) ||
    (n.Group? && WfQuery(n.query))
  }

  predicate WfClause(c: Clause)
    decreases c, 0
  {
    IsField(c.field) && WfTerm(c.term)
  }

  predicate WfClauses(cs: seq<Clause>)
    decreases cs, 0
  {
    forall i :: 0 <= i < |cs| ==> WfClause(cs[i])
  }

  /** A query is a leaf or group, a clause that names a field, or a Boolean of no clause
      or of at least two. */
  predicate WfQuery(q: Node)
    decreases q, 1
  {
    (q.Boolean? && |q.clauses| != 1 && WfClauses(q.clauses)) ||
    (q.Single? && q.clause.field != "" && WfClause(q.clause)) ||
    (!q.Boolean? && !q.Single? && WfTerm(q))
  }

  lemma TermIsQuery(n: Node)
    ensures WfTerm(n) ==> WfQuery(n) && !n.Single? && !n.Boolean? && !n.Nil?
  {
  }

  lemma {:induction false} CleanField(f: string)
    requires forall i :: 0 <= i < |f| ==> f[i] != EOF && !IsSpace(f[i]) && !IsSpecial(f[i])
    ensures IsField(f)
  {
    if f != "" {
      CleanField(f[1..]);
    }
  }

  // ---------- reading a leaf again ----------

  lemma {:induction false} FieldAgain(s: string, k: nat)
    ensures k <= FieldLen(s) ==> FieldLen(s[..k]) == k
  {
    if k <= FieldLen(s) && k > 0 {
      assert s[..k][1..] == s[1..][..k - 1];
      FieldAgain(s[1..], k - 1);
    }
  }

  lemma {:induction false} WordAgain(s: string, escaped: bool)
    ensures WordLen(s[..WordLen(s, escaped)], escaped) == WordLen(s, escaped)
  {
    var k := WordLen(s, escaped);
    if k > 0 {
      assert s[..k][1..] == s[1..][..k - 1];
      WordAgain(s[1..], !escaped && s[0] == '\\');
    }
  }

  lemma {:induction false} PhraseAgain(s: string)
    ensures 0 <= PhraseLen(s) ==> PhraseLen(s[..PhraseLen(s)] + "\"") == PhraseLen(s)
  {
    if 0 <= PhraseLen(s) {
      var k := PhraseLen(s);
      if k > 0 {
        var d := if s[0] == '\\' then 2 else 1;
        PhraseAgain(s[d..]);
        assert (s[..k] + "\"")[d..] == s[d..][..k - d] + "\"";
      }
    }
  }

  lemma {:induction false} BoundAgain(s: string)
    ensures BoundLen(s) > 0 ==> IsBound(s[..BoundLen(s)])
  {
    if BoundLen(s) > 0 {
      var k := BoundLen(s);
      if k > 1 {
        BoundAgain(s[1..]);
        assert s[..k] == [s[0]] + s[1..][..k - 1];
      }
    }
  }

  // ---------- every parse result is well formed ----------

  lemma {:induction false} LeafForm(s: string)
    requires TermAt(s).Ok? && IsLeaf(TermAt(s).value)
    ensures WfTerm(TermAt(s).value)
  {
    var s0 := SkipSpace(s);
    if s0[0] == '"' {
      PhraseAgain(s0[1..]);
    } else if s0[0] == '[' || s0[0] == '{' {
      var b1 := SkipSpace(s0[1..]);
      BoundAgain(b1);
      BoundAgain(SkipSpace(SkipSpace(BoundAt(b1).rest)[2..]));
    } else if s0[0] != '(' {
      WordAgain(s0, false);
    }
  }

  lemma {:induction false} TermForm(s: string)
    ensures TermAt(s).Ok? ==> WfTerm(TermAt(s).value)
    decreases |s|, 0
  {
    if TermAt(s).Ok? {
      var s0 := SkipSpace(s);
      if s0[0] == '(' {
        QueryForm(s0[1..]);
      } else {
        LeafForm(s);
      }
    }
  }

  lemma {:induction false} ClauseForm(s: string)
    ensures ClauseAt(s).Ok? ==> WfClause(ClauseAt(s).value)
    decreases |s|, 1
  {
    if ClauseAt(s).Ok? {
      var s1 := PrefixAt(SkipSpace(s)).1;
      FieldAgain(s1, FieldLen(s1));
      TermForm(Field(s1).1);
    }
  }

  predicate WfItems(items: seq<Item>) {
    forall i :: 0 <= i < |items| ==> WfClause(items[i].clause)
  }

  lemma {:induction false} ItemsForm(s: string, joined: bool)
    requires ItemsAt(s, joined).Ok?
    ensures WfItems(ItemsAt(s, joined).value)
    decreases |s|, 2
  {
    var s0 := SkipSpace(s);
    if !AtEnd(s0) {
      ClauseForm(s0);
      var s2 := SkipSpace(ClauseAt(s0).rest);
      if !AtEnd(s2) {
        var (and, s3) := Operator(s2);
        ItemsForm(s3, and);
      }
    }
  }

  lemma {:induction false} QueryForm(s: string)
    ensures QueryAt(s).Ok? ==> WfQuery(QueryAt(s).value)
    decreases |s|, 3
  {
    if QueryAt(s).Ok? {
      ItemsForm(s, false);
      var items := ItemsAt(s, false).value;
      CollapseForm(Resolve(items));
    }
  }

  lemma CollapseForm(cs: seq<Clause>)
    ensures WfClauses(cs) ==> WfQuery(Collapse(cs))
  {
    if WfClauses(cs) && |cs| == 1 {
      assert WfClause(cs[0]) && WfTerm(cs[0].term);
    }
  }

  /** Whatever the text, the parser returns only well-formed trees. */
  lemma ParseForm(s: string)
    ensures Parse(s).Done? ==> WfQuery(Parse(s).value)
  {
    if Parse(s).Done? {
      var s0 := SkipSpace(s);
      if Peek(s0) != EOF {
        QueryForm(s0);
      }
    }
  }
}
