/** The recursive-descent parser: a cursor over the input, moved by every method. Each method
    is proved to read exactly what the grammar reads from the same text. */
module Parser {
  import opened Text
  import opened Ast
  import opened Grammar

  class Parser {
    const input: string
    var pos: nat

    constructor (input: string)
      ensures this.input == input && pos == 0
    {
      this.input := input;
      pos := 0;
    }

    ghost predicate Valid()
      reads this
    {
      pos <= |input|
    }

    /** The text still to be read. */
    ghost function Rest(): string
      requires Valid()
      reads this
    {
      input[pos..]
    }

    /** The outcome of a method is the one the grammar gives, and on success the cursor
        stands where the grammar stopped. */
    ghost predicate Agrees<T>(r: Outcome<T>, spec: Parsed<T>)
      requires Valid()
      reads this
    {
      match spec
      case Ok(v, rest) => r == Done(v) && Rest() == rest
      case Err(e) => r == Failed(e)
    }

    method Peek() returns (c: char)
      requires Valid()
      ensures c == Text.Peek(Rest())
    {
      c := if pos >= |input| then EOF else input[pos];
    }

    method Next() returns (c: char)
      requires Valid()
      modifies this
      ensures Valid()
      ensures c == Text.Peek(old(Rest())) && Rest() == Text.Next(old(Rest()))
    {
      if pos >= |input| {
        return EOF;
      }
      c := input[pos];
      pos := pos + 1;
    }

    method SkipSpace()
      requires Valid()
      modifies this
      ensures Valid() && Rest() == Text.SkipSpace(old(Rest()))
    {
      while true
        invariant Valid() && old(pos) <= pos
        invariant Text.SkipSpace(Rest()) == Text.SkipSpace(old(Rest()))
        decreases |input| - pos
      {
        var c := Peek();
        if !IsBlank(c) {
          break;
        }
        var _ := Next();
      }
    }

    method ConsumeWord(n: nat)
      requires pos + n <= |input|
      modifies this
      ensures Valid() && Rest() == old(Rest())[n..]
    {
      pos := pos + n;
    }

    method ParseBoolean() returns (r: Outcome<Node>)
      requires Valid()
      modifies this
      ensures Valid() && Agrees(r, QueryAt(old(Rest())))
      decreases |input| - pos, 3
    {
      hide ItemsAt, ClauseAt, TermAt, Resolve, Text.SkipSpace;
      var clauses: seq<Clause> := [];
      var nextOccur := Should;
      ghost var text := Rest();
      ghost var items: seq<Item> := [];
      AfterNone(ItemsAt(text, false));
      while true
        invariant Valid() && old(pos) <= pos
        invariant clauses == Resolve(items)
        invariant ItemsAt(text, false) == After(items, ItemsAt(Rest(), nextOccur == Must))
        decreases |input| - pos
      {
        ghost var s, joined := Rest(), nextOccur == Must;
        SkipSpace();
        var c := Peek();
        if c == EOF || c == ')' {
          ItemsEnd(s, joined, items);
          break;
        }
        var clause := ParseClause();
        if clause.Failed? {
          ItemsFail(s, joined, items, clause.error);
          return Failed(clause.error);
        }
        ghost var item, s1, prior := Item(joined, clause.value), Rest(), items;
        ResolveAppend(items, item);
        var next := clause.value;
        if nextOccur == Must {
          next := next.(occur := Must);
          if |clauses| > 0 {
            clauses := clauses[|clauses| - 1 := clauses[|clauses| - 1].(occur := Must)];
          }
        }
        clauses := clauses + [next];
        items := items + [item];
        nextOccur := Should;

        SkipSpace();
        c := Peek();
        if c == EOF || c == ')' {
          ItemsLast(s, item, s1, prior);
          break;
        }
        ItemsMore(s, item, s1, prior);
        if HasPrefixFold(input[pos..], "AND") {
          ConsumeWord(3);
          nextOccur := Must;
        } else if HasPrefixFold(input[pos..], "OR") {
          ConsumeWord(2);
          nextOccur := Should;
        }
      }
      if |clauses| == 1 {
        var c := clauses[0];
        return Done(if c.field == "" then c.term else Single(c));
      }
      return Done(Boolean(clauses));
    }

    method ParseClause() returns (r: Outcome<Clause>)
      requires Valid()
      modifies this
      ensures Valid() && Agrees(r, ClauseAt(old(Rest())))
      decreases |input| - pos, 2
    {
      var occur := Should;
      SkipSpace();
      var c := Peek();
      if c == '+' {
        occur := Must;
        var _ := Next();
      } else if c == '-' {
        occur := MustNot;
        var _ := Next();
      } else if HasPrefixFold(input[pos..], "NOT ") {
        ConsumeWord(3);
        occur := MustNot;
        SkipSpace();
      }
      var field := ParseField();
      var term := ParseTerm();
      if term.Failed? {
        return Failed(term.error);
      }
      return Done(Clause(occur, field, term.value));
    }

    method ParseField() returns (field: string)
      requires Valid()
      modifies this
      ensures Valid() && (field, Rest()) == Field(old(Rest()))
    {
      var start := pos;
      while true
        invariant start <= pos <= |input|
        invariant FieldLen(input[start..]) == pos - start + FieldLen(Rest())
        decreases |input| - pos
      {
        var c := Peek();
        if c == EOF || c == ':' || IsSpace(c) || IsSpecial(c) {
          break;
        }
        var _ := Next();
      }
      field := input[start..pos];
      Cut(start);
      var c := Peek();
      if c == ':' {
        var _ := Next();
        return;
      }
      pos := start;
      field := "";
    }

    method ParseTerm() returns (r: Outcome<Node>)
      requires Valid()
      modifies this
      ensures Valid() && Agrees(r, TermAt(old(Rest())))
      decreases |input| - pos, 1
    {
      SkipSpace();
      var c := Peek();
      match c {
        case '\0' => r := Failed(UnexpectedEnd);
        case '"' => r := ParsePhrase();
        case '[' => r := ParseRange(true);
        case '{' => r := ParseRange(false);
        case '(' => r := ParseGroup();
        case _ => r := ParseWord();
      }
    }

    method ParsePhrase() returns (r: Outcome<Node>)
      requires Valid() && Rest() != ""
      modifies this
      ensures Valid() && Agrees(r, PhraseAt(old(Rest())))
    {
      var _ := Next();
      var start := pos;
      ghost var body := Rest();
      while true
        invariant start <= pos <= |input|
        invariant PhraseLen(body) < 0 <==> PhraseLen(Rest()) < 0
        invariant 0 <= PhraseLen(body) ==> PhraseLen(body) == pos - start + PhraseLen(Rest())
        decreases |input| - pos
      {
        var c := Next();
        if c == EOF {
          return Failed(UnterminatedPhrase);
        }
        if c == '"' {
          break;
        }
        if c == '\\' {
          var _ := Next();
        }
      }
      Cut(start);
      return Done(Phrase(input[start..pos - 1]));
    }

    method ParseRange(inclusive: bool) returns (r: Outcome<Node>)
      requires Valid() && Rest() != ""
      modifies this
      ensures Valid() && Agrees(r, RangeAt(old(Rest()), inclusive))
    {
      var _ := Next();
      SkipSpace();
      var low := ParseRangeToken();
      if low.Failed? {
        return Failed(low.error);
      }
      SkipSpace();
      if !HasPrefixFold(input[pos..], "TO") {
        return Failed(ExpectedTo);
      }
      ConsumeWord(2);
      SkipSpace();
      var high := ParseRangeToken();
      if high.Failed? {
        return Failed(high.error);
      }
      SkipSpace();
      var closing := Next();
      if (inclusive && closing != ']') || (!inclusive && closing != '}') {
        return Failed(UnterminatedRange);
      }
      return Done(Range(low.value, high.value, inclusive, inclusive));
    }

    method ParseRangeToken() returns (r: Outcome<string>)
      requires Valid()
      modifies this
      ensures Valid() && Agrees(r, BoundAt(old(Rest())))
    {
      var start := pos;
      while true
        invariant start <= pos <= |input|
        invariant BoundLen(input[start..]) == pos - start + BoundLen(Rest())
        decreases |input| - pos
      {
        var c := Peek();
        if c == EOF || IsSpace(c) || EqualFold(input[pos..], "TO") || c == ']' || c == '}' {
          break;
        }
        var _ := Next();
      }
      if start == pos {
        return Failed(ExpectedBound);
      }
      Cut(start);
      return Done(input[start..pos]);
    }

    method ParseGroup() returns (r: Outcome<Node>)
      requires Valid() && Rest() != "" && Rest()[0] == '('
      modifies this
      ensures Valid() && Agrees(r, TermAt(old(Rest())))
      decreases |input| - pos, 0
    {
      var _ := Next();
      var q := ParseBoolean();
      if q.Failed? {
        return Failed(q.error);
      }
      SkipSpace();
      var closing := Next();
      if closing != ')' {
        return Failed(ExpectedClosingParen);
      }
      return Done(Group(q.value));
    }

    method ParseWord() returns (r: Outcome<Node>)
      requires Valid()
      modifies this
      ensures Valid() && Agrees(r, WordAt(old(Rest())))
    {
      var start := pos;
      var escaped := false;
      while true
        invariant start <= pos <= |input|
        invariant WordLen(input[start..], false) == pos - start + WordLen(Rest(), escaped)
        decreases |input| - pos
      {
        var c := Peek();
        if c == EOF {
          break;
        }
        if escaped {
          escaped := false;
          var _ := Next();
          continue;
        }
        if c == '\\' {
          escaped := true;
          var _ := Next();
          continue;
        }
        if IsSpace(c) || IsSpecial(c) {
          break;
        }
        var _ := Next();
      }
      if start == pos {
        return Failed(ExpectedTerm);
      }
      Cut(start);
      return Done(MakeTerm(input[start..pos]));
    }

    /** The text read since the cursor stood at start. */
    lemma {:induction false} Cut(start: nat)
      requires start <= pos && Valid()
      ensures input[start..pos] == input[start..][..pos - start]
      ensures Rest() == input[start..][pos - start..]
      ensures start < pos ==> input[start..pos - 1] == input[start..][..pos - 1 - start]
    {
    }
  }

  method Parse(input: string) returns (r: Outcome<Node>)
    ensures r == Grammar.Parse(input)
  {
    var p := new Parser(input);
    p.SkipSpace();
    var c := p.Peek();
    if c == EOF {
      return Done(Boolean([]));
    }
    var q := p.ParseBoolean();
    if q.Failed? {
      return Failed(q.error);
    }
    p.SkipSpace();
    c := p.Peek();
    if c != EOF {
      return Failed(UnexpectedToken);
    }
    return Done(q.value);
  }

  /** Items read earlier put before the items still to come. */
  ghost function After(items: seq<Item>, p: Parsed<seq<Item>>): Parsed<seq<Item>> {
    match p
    case Ok(more, rest) => Ok(items + more, rest)
    case Err(e) => Err(e)
  }

  lemma {:induction false} AfterNone(p: Parsed<seq<Item>>)
    ensures After([], p) == p
  {
    if p.Ok? {
      assert [] + p.value == p.value;
    }
  }

  lemma {:induction false} ItemsEnd(s: string, joined: bool, items: seq<Item>)
    requires AtEnd(Text.SkipSpace(s))
    ensures After(items, ItemsAt(s, joined)) == Ok(items, Text.SkipSpace(s))
  {
    assert items + [] == items;
  }

  lemma {:induction false} ItemsFail(s: string, joined: bool, items: seq<Item>, e: ParseError)
    requires !AtEnd(Text.SkipSpace(s)) && ClauseAt(Text.SkipSpace(s)) == Err(e)
    ensures After(items, ItemsAt(s, joined)) == Err(e)
  {
  }

  lemma {:induction false} ItemsLast(s: string, item: Item, s1: string, items: seq<Item>)
    requires !AtEnd(Text.SkipSpace(s)) && ClauseAt(Text.SkipSpace(s)) == Ok(item.clause, s1)
    requires AtEnd(Text.SkipSpace(s1))
    ensures After(items, ItemsAt(s, item.joined)) == Ok(items + [item], Text.SkipSpace(s1))
  {
  }

  lemma {:induction false} ItemsMore(s: string, item: Item, s1: string, items: seq<Item>)
    requires !AtEnd(Text.SkipSpace(s)) && ClauseAt(Text.SkipSpace(s)) == Ok(item.clause, s1)
    requires !AtEnd(Text.SkipSpace(s1))
    ensures
      var (and, s2) := Operator(Text.SkipSpace(s1));
      After(items, ItemsAt(s, item.joined)) == After(items + [item], ItemsAt(s2, and))
  {
    hide ClauseAt, TermAt, Text.SkipSpace;
    var (and, s2) := Operator(Text.SkipSpace(s1));
    var more := ItemsAt(s2, and);
    if more.Ok? {
      assert items + ([item] + more.value) == items + [item] + more.value;
    }
  }

  /** Reading one more item changes the clauses already resolved only at the last one,
      and only when an AND joins the two. */
  lemma {:induction false} ResolveAppend(items: seq<Item>, item: Item)
    ensures
      var cs := Resolve(items);
      var patched := if item.joined && |cs| > 0
                     then cs[|cs| - 1 := cs[|cs| - 1].(occur := Must)] else cs;
      Resolve(items + [item]) ==
        patched + [if item.joined then item.clause.(occur := Must) else item.clause]
  {
  }
}
