/** What the parser does with the bytes it reads. A tally weighs bytes; the tree returned
    never weighs more than the text consumed, and quotes and backslashes are all kept. */
module Conservation {
  import opened Text
  import opened Ast
  import opened Grammar

  datatype Tally =
    | Escapes      // quotes and backslashes
    | OpLetters    // the letters N and R, one of which every operator word has
    | Nuls
    | HighBytes    // bytes outside ASCII
    | AllBytes

  function Weight(c: char, k: Tally): nat {
    match k
    case Escapes => if c == '"' || c == '\\' then 1 else 0
    case OpLetters => if ToUpper(c) == 'N' || ToUpper(c) == 'R' then 1 else 0
    case Nuls => if c == EOF then 1 else 0
    case HighBytes => if c >= '\U{80}' then 1 else 0
    case AllBytes => 1
  }

  function Weigh(s: string, k: Tally): nat {
    if s == "" then 0 else Weight(s[0], k) + Weigh(s[1..], k)
  }

  /** The quotes of a phrase and the parentheses of a group are part of its weight. */
  function WeighNode(n: Node, k: Tally): nat
    decreases n, 0
  {
    match n
    case Nil => 0
    case Term(v, _, _) => Weigh(v, k)
    case Phrase(v) => Weigh(v, k) + 2 * Weight('"', k)
    case Range(low, high, _, _) => Weigh(low, k) + Weigh(high, k)
    case Group(q) => WeighNode(q, k) + 2 * Weight('(', k)
    case Single(c) => WeighClause(c, k)
    case Boolean(cs) => WeighClauses(cs, k)
  }

  function WeighClause(c: Clause, k: Tally): nat
    decreases c, 0
  {
    Weigh(c.field, k) + WeighNode(c.term, k)
  }

  function WeighClauses(cs: seq<Clause>, k: Tally): nat
    decreases cs, 0
  {
    if cs == [] then 0 else WeighClause(cs[0], k) + WeighClauses(cs[1..], k)
  }

  function WeighItems(items: seq<Item>, k: Tally): nat {
    if items == [] then 0 else WeighClause(items[0].clause, k) + WeighItems(items[1..], k)
  }

  /** Reading from s to rest produced something of weight w. */
  predicate Conserves(s: string, rest: string, w: nat, k: Tally) {
    Weigh(s, k) == Weigh(rest, k) + w ||
    (k != Escapes && Weigh(s, k) > Weigh(rest, k) + w)
  }

  // ---------- weights of strings ----------

  lemma {:induction false} WeighConcat(a: string, b: string, k: Tally)
    ensures Weigh(a + b, k) == Weigh(a, k) + Weigh(b, k)
  {
    if a == "" {
      assert a + b == b;
    } else {
      assert (a + b)[1..] == a[1..] + b;
      WeighConcat(a[1..], b, k);
    }
  }

  lemma {:induction false} WeighSplit(s: string, i: nat, k: Tally)
    ensures i <= |s| ==> Weigh(s, k) == Weigh(s[..i], k) + Weigh(s[i..], k)
  {
    if i <= |s| {
      assert s == s[..i] + s[i..];
      WeighConcat(s[..i], s[i..], k);
    }
  }

  lemma {:induction false} WeighSkip(s: string, k: Tally)
    ensures Conserves(s, SkipSpace(s), 0, k)
    ensures k != AllBytes ==> Weigh(SkipSpace(s), k) == Weigh(s, k)
  {
    if s != "" && IsBlank(s[0]) {
      WeighSkip(s[1..], k);
    }
  }

  lemma {:induction false} WeighDrop(s: string, n: nat, k: Tally)
    requires n <= |s|
    ensures n == 2 ==> Weigh(s, k) == Weight(s[0], k) + Weight(s[1], k) + Weigh(s[2..], k)
    ensures n == 3 ==>
              Weigh(s, k) == Weight(s[0], k) + Weight(s[1], k) + Weight(s[2], k) + Weigh(s[3..], k)
  {
    if n >= 2 {
      assert Weigh(s[1..], k) == Weight(s[1], k) + Weigh(s[1..][1..], k);
      assert s[1..][1..] == s[2..];
    }
    if n == 3 {
      assert Weigh(s[2..], k) == Weight(s[2], k) + Weigh(s[2..][1..], k);
      assert s[2..][1..] == s[3..];
    }
  }

  /** An operator word at the head of s carries no quote or backslash, and all but TO
      carry an N or an R. */
  lemma {:induction false} WeighWord(s: string, word: string, k: Tally)
    requires word == "AND" || word == "OR" || word == "NOT" || word == "TO"
    requires HasPrefixFold(s, word)
    ensures Conserves(s, s[|word|..], 0, k)
    ensures k == OpLetters && word != "TO" ==> Weigh(s, k) > Weigh(s[|word|..], k)
  {
    WeighDrop(s, |word|, k);
    assert forall i | 0 <= i < |word| :: ToUpper(s[i]) == word[i];
  }

  // ---------- weights of parsed leaves ----------

  lemma {:induction false} FieldWeighs(s: string, k: Tally)
    ensures Conserves(s, Field(s).1, Weigh(Field(s).0, k), k)
  {
    var n := FieldLen(s);
    WeighSplit(s, n, k);
  }

  lemma {:induction false} PrefixWeighs(s: string, k: Tally)
    ensures Conserves(s, PrefixAt(s).1, 0, k)
    ensures k == OpLetters && Peek(s) != '+' && Peek(s) != '-' && PrefixAt(s).0 != Should ==>
              Weigh(s, k) > Weigh(PrefixAt(s).1, k)
  {
    if Peek(s) != '+' && Peek(s) != '-' && HasPrefixFold(s, "NOT ") {
      assert forall i | 0 <= i < 3 :: ToUpper(s[i]) == "NOT "[i];
      WeighWord(s, "NOT", k);
      WeighSkip(s[3..], k);
    }
  }

  lemma {:induction false} OperatorWeighs(s: string, k: Tally)
    ensures Conserves(s, Operator(s).1, 0, k)
    ensures k == OpLetters && Operator(s) != (false, s) ==> Weigh(s, k) > Weigh(Operator(s).1, k)
  {
    if HasPrefixFold(s, "AND") {
      WeighWord(s, "AND", k);
    } else if HasPrefixFold(s, "OR") {
      WeighWord(s, "OR", k);
    }
  }

  lemma {:induction false} PhraseWeighs(s: string, k: Tally)
    requires s != "" && s[0] == '"' && PhraseAt(s).Ok?
    ensures Conserves(s, PhraseAt(s).rest, WeighNode(PhraseAt(s).value, k), k)
  {
    var body := s[1..];
    var n := PhraseLen(body);
    WeighSplit(body, n, k);
    assert body[n..][1..] == body[n + 1..];
  }

  lemma {:induction false} WordWeighs(s: string, k: Tally)
    ensures WordAt(s).Ok? ==> Conserves(s, WordAt(s).rest, WeighNode(WordAt(s).value, k), k)
  {
    if WordAt(s).Ok? {
      WeighSplit(s, WordLen(s, false), k);
    }
  }

  lemma {:induction false} GroupWeighs(s: string, q: Node, s1: string, k: Tally)
    requires s != "" && s[0] == '(' && Peek(SkipSpace(s1)) == ')'
    requires Conserves(s[1..], s1, WeighNode(q, k), k)
    ensures Conserves(s, SkipSpace(s1)[1..], WeighNode(Group(q), k), k)
  {
    WeighSkip(s1, k);
  }

  lemma {:induction false} BoundWeighs(s: string, k: Tally)
    requires BoundAt(SkipSpace(s)).Ok?
    ensures
      var b := BoundAt(SkipSpace(s));
      Conserves(s, SkipSpace(b.rest), Weigh(b.value, k), k)
  {
    WeighSkip(s, k);
    WeighSplit(SkipSpace(s), BoundLen(SkipSpace(s)), k);
    WeighSkip(BoundAt(SkipSpace(s)).rest, k);
  }

  lemma {:induction false} RangeWeighs(s: string, inclusive: bool, k: Tally)
    requires s != "" && (s[0] == '[' || s[0] == '{') && RangeAt(s, inclusive).Ok?
    ensures Conserves(s, RangeAt(s, inclusive).rest, WeighNode(RangeAt(s, inclusive).value, k), k)
  {
    BoundWeighs(s[1..], k);
    var s2 := SkipSpace(BoundAt(SkipSpace(s[1..])).rest);
    WeighWord(s2, "TO", k);
    BoundWeighs(s2[2..], k);
  }

  // ---------- the conservation law ----------

  lemma {:induction false} TermWeighs(s: string, k: Tally)
    requires TermAt(s).Ok?
    ensures Conserves(s, TermAt(s).rest, WeighNode(TermAt(s).value, k), k)
    decreases |s|, 0
  {
    hide RangeAt, PhraseAt, QueryAt, WordAt, SkipSpace, Weigh;
    var s0 := SkipSpace(s);
    WeighSkip(s, k);
    if s0[0] == '"' {
      PhraseWeighs(s0, k);
    } else if s0[0] == '[' || s0[0] == '{' {
      RangeWeighs(s0, s0[0] == '[', k);
    } else if s0[0] == '(' {
      QueryWeighs(s0[1..], k);
      GroupWeighs(s0, QueryAt(s0[1..]).value, QueryAt(s0[1..]).rest, k);
    } else {
      WordWeighs(s0, k);
    }
  }

  lemma {:induction false} ClauseWeighs(s: string, k: Tally)
    requires ClauseAt(s).Ok?
    ensures Conserves(s, ClauseAt(s).rest, WeighClause(ClauseAt(s).value, k), k)
    decreases |s|, 1
  {
    WeighSkip(s, k);
    var s0 := SkipSpace(s);
    PrefixWeighs(s0, k);
    var s1 := PrefixAt(s0).1;
    FieldWeighs(s1, k);
    TermWeighs(Field(s1).1, k);
  }

  lemma {:induction false} ItemsWeigh(s: string, joined: bool, k: Tally)
    requires ItemsAt(s, joined).Ok?
    ensures Conserves(s, ItemsAt(s, joined).rest, WeighItems(ItemsAt(s, joined).value, k), k)
    decreases |s|, 2
  {
    WeighSkip(s, k);
    var s0 := SkipSpace(s);
    if !AtEnd(s0) {
      ClauseWeighs(s0, k);
      var s1 := ClauseAt(s0).rest;
      WeighSkip(s1, k);
      var s2 := SkipSpace(s1);
      if !AtEnd(s2) {
        OperatorWeighs(s2, k);
        var (and, s3) := Operator(s2);
        ItemsWeigh(s3, and, k);
      }
    }
  }

  /** Resolving operators changes no weight. */
  lemma {:induction false} ResolveWeighs(items: seq<Item>, cs: seq<Clause>, k: Tally)
    requires |cs| == |items|
    requires forall i :: 0 <= i < |cs| ==>
               cs[i].field == items[i].clause.field && cs[i].term == items[i].clause.term
    ensures WeighClauses(cs, k) == WeighItems(items, k)
  {
    if items != [] {
      ResolveWeighs(items[1..], cs[1..], k);
    }
  }

  lemma {:induction false} QueryWeighs(s: string, k: Tally)
    requires QueryAt(s).Ok?
    ensures Conserves(s, QueryAt(s).rest, WeighNode(QueryAt(s).value, k), k)
    decreases |s|, 3
  {
    ItemsWeigh(s, false, k);
    var items := ItemsAt(s, false).value;
    ResolveWeighs(items, Resolve(items), k);
    CollapseWeighs(Resolve(items), k);
  }

  lemma {:induction false} CollapseWeighs(cs: seq<Clause>, k: Tally)
    ensures WeighNode(Collapse(cs), k) == WeighClauses(cs, k)
  {
    if |cs| == 1 {
      assert cs[1..] == [];
    }
  }

  /** The tree of a text never weighs more than the text; of an ASCII text it is ASCII. */
  lemma {:induction false} ParseWeighs(s: string, k: Tally)
    requires Parse(s).Done?
    ensures WeighNode(Parse(s).value, k) <= Weigh(s, k)
  {
    WeighSkip(s, k);
    var s0 := SkipSpace(s);
    if Peek(s0) != EOF {
      QueryWeighs(s0, k);
    }
  }

  /** Without a NUL, only blanks are left over. */
  lemma {:induction false} AllRead(s: string)
    ensures Weigh(s, Nuls) == 0 && QueryAt(s).Ok? && Peek(SkipSpace(QueryAt(s).rest)) == EOF ==>
      SkipSpace(QueryAt(s).rest) == ""
  {
    if Weigh(s, Nuls) == 0 && QueryAt(s).Ok? && Peek(SkipSpace(QueryAt(s).rest)) == EOF {
      QueryWeighs(s, Nuls);
      WeighSkip(QueryAt(s).rest, Nuls);
    }
  }

  /** Every quote and backslash of a text is in its tree, unless a NUL hides the end of it. */
  lemma {:induction false} ParseKeepsEscapes(s: string)
    requires Parse(s).Done? && Weigh(s, Nuls) == 0
    ensures WeighNode(Parse(s).value, Escapes) == Weigh(s, Escapes)
  {
    WeighSkip(s, Nuls);
    WeighSkip(s, Escapes);
    var s0 := SkipSpace(s);
    if Peek(s0) != EOF {
      AllRead(s0);
      QueryWeighs(s0, Escapes);
      WeighSkip(QueryAt(s0).rest, Escapes);
    }
  }
}
