/** The query language as functions from the text still to be read to a syntax tree and
    the text left over. The clauses of a query are read as a list of items first, and the
    AND operators between them are resolved afterwards. */
module Grammar {
  import opened Text
  import opened Ast

  datatype ParseError =
    | UnexpectedToken
    | UnexpectedEnd
    | UnterminatedPhrase
    | ExpectedBound
    | ExpectedTo
    | UnterminatedRange
    | ExpectedClosingParen
    | ExpectedTerm

  datatype Outcome<+T> = Done(value: T) | Failed(error: ParseError)

  datatype Parsed<+T> = Ok(value: T, rest: string) | Err(error: ParseError) {
    predicate IsFailure() {
      Err?
    }

    function PropagateFailure<U>(): Parsed<U>
      requires Err?
    {
      Err(error)
    }

    function Extract(): (T, string)
      requires Ok?
    {
      (value, rest)
    }
  }

  /** A clause as written, and whether an AND stands between it and the clause before. */
  datatype Item = Item(joined: bool, clause: Clause)

  // ---------- operators ----------

  /** An AND touches item i from the left or from the right. */
  predicate AndTouches(items: seq<Item>, i: nat)
    requires i < |items|
  {
    items[i].joined || (i + 1 < |items| && items[i + 1].joined)
  }

  /** AND requires both its neighbours, whatever their own prefix says; every other
      clause keeps its own prefix. */
  function Resolve(items: seq<Item>): (cs: seq<Clause>)
    ensures |cs| == |items|
  {
    seq(|items|, i requires 0 <= i < |items| =>
      if AndTouches(items, i) then items[i].clause.(occur := Must) else items[i].clause)
  }

  /** One clause alone stands for its term, or for itself when it names a field. */
  function Collapse(cs: seq<Clause>): Node {
    if |cs| == 1 then
      if cs[0].field == "" then cs[0].term else Single(cs[0])
    else Boolean(cs)
  }

  predicate AtEnd(s: string) {
    Peek(s) == EOF || Peek(s) == ')'
  }

  /** Reads an operator between two clauses: whether it is AND, and the text after it.
      An operator is any text that begins with its letters. */
  function Operator(s: string): (r: (bool, string))
    ensures |r.1| <= |s|
  {
    if HasPrefixFold(s, "AND") then (true, s[3..])
    else if HasPrefixFold(s, "OR") then (false, s[2..])
    else (false, s)
  }

  // ---------- leaves ----------

  /** The number of bytes before one that cannot stand in a field name. */
  function FieldLen(s: string): (k: nat)
    ensures k <= |s|
  {
    if Peek(s) == EOF || IsSpace(s[0]) || IsSpecial(s[0]) then 0 else 1 + FieldLen(s[1..])
  }

  /** A field name is there only if a colon follows it. */
  function Field(s: string): (r: (string, string))
    ensures |r.1| <= |s|
  {
    var k := FieldLen(s);
    if Peek(s[k..]) == ':' then (s[..k], s[k + 1..]) else ("", s)
  }

  /** The number of bytes of a word; a backslash protects the byte after it. */
  function WordLen(s: string, escaped: bool): (k: nat)
    ensures k <= |s|
  {
    if Peek(s) == EOF then 0
    else if escaped then 1 + WordLen(s[1..], false)
    else if s[0] == '\\' then 1 + WordLen(s[1..], true)
    else if IsSpace(s[0]) || IsSpecial(s[0]) then 0
    else 1 + WordLen(s[1..], false)
  }

  predicate IsWildcard(c: char) {
    c == '*' || c == '?'
  }

  predicate HasWildcard(v: string) {
    exists i :: 0 <= i < |v| && IsWildcard(v[i])
  }

  /** The only wildcard is a final star. */
  predicate IsPrefixPattern(v: string) {
    v != "" && v[|v| - 1] == '*' && !HasWildcard(v[..|v| - 1])
  }

  function MakeTerm(v: string): Node {
    Term(v, HasWildcard(v), IsPrefixPattern(v))
  }

  function WordAt(s: string): (r: Parsed<Node>)
    ensures r.Ok? ==> |r.rest| < |s|
  {
    var k := WordLen(s, false);
    if k == 0 then Err(ExpectedTerm) else Ok(MakeTerm(s[..k]), s[k..])
  }

  /** The number of bytes before the closing quote, or -1 when there is none. */
  function PhraseLen(s: string): (k: int)
    ensures -1 <= k < |s|
    ensures 0 <= k ==> s[k] == '"'
  {
    if Peek(s) == EOF then -1
    else if s[0] == '"' then 0
    else if s[0] == '\\' then
      var k := PhraseLen(Next(s[1..]));
      if k < 0 then -1 else k + 2
    else
      var k := PhraseLen(s[1..]);
      if k < 0 then -1 else k + 1
  }

  function PhraseAt(s: string): (r: Parsed<Node>)
    requires s != ""
    ensures r.Ok? ==> |r.rest| < |s|
  {
    var k := PhraseLen(s[1..]);
    if k < 0 then Err(UnterminatedPhrase) else Ok(Phrase(s[1..][..k]), s[1..][k + 1..])
  }

  predicate EndsBound(s: string) {
    Peek(s) == EOF || IsSpace(s[0]) || EqualFold(s, "TO") || s[0] == ']' || s[0] == '}'
  }

  function BoundLen(s: string): (k: nat)
    ensures k <= |s|
  {
    if EndsBound(s) then 0 else 1 + BoundLen(s[1..])
  }

  function BoundAt(s: string): (r: Parsed<string>)
    ensures r.Ok? ==> |r.rest| < |s|
  {
    var k := BoundLen(s);
    if k == 0 then Err(ExpectedBound) else Ok(s[..k], s[k..])
  }

  function RangeAt(s: string, inclusive: bool): (r: Parsed<Node>)
    requires s != ""
    ensures r.Ok? ==> |r.rest| < |s|
  {
    var (low, s1) :- BoundAt(SkipSpace(s[1..]));
    var s2 := SkipSpace(s1);
    if !HasPrefixFold(s2, "TO") then Err(ExpectedTo) else
    var (high, s3) :- BoundAt(SkipSpace(s2[2..]));
    var s4 := SkipSpace(s3);
    if Peek(s4) != (if inclusive then ']' else '}') then Err(UnterminatedRange)
    else Ok(Range(low, high, inclusive, inclusive), Next(s4))
  }

  // ---------- clauses and queries ----------

  /** The prefix of a clause: '+', '-' or the word NOT with a space after it. */
  function PrefixAt(s: string): (r: (Occur, string))
    ensures |r.1| <= |s|
  {
    if Peek(s) == '+' then (Must, s[1..])
    else if Peek(s) == '-' then (MustNot, s[1..])
    else if HasPrefixFold(s, "NOT ") then (MustNot, SkipSpace(s[3..]))
    else (Should, s)
  }

  function TermAt(s: string): (r: Parsed<Node>)
    ensures r.Ok? ==> |r.rest| < |s|
    decreases |s|, 0
  {
    var s0 := SkipSpace(s);
    if Peek(s0) == EOF then Err(UnexpectedEnd)
    else if s0[0] == '"' then PhraseAt(s0)
    else if s0[0] == '[' then RangeAt(s0, true)
    else if s0[0] == '{' then RangeAt(s0, false)
    else if s0[0] == '(' then
      var (q, s1) :- QueryAt(s0[1..]);
      var s2 := SkipSpace(s1);
      if Peek(s2) != ')' then Err(ExpectedClosingParen) else Ok(Group(q), s2[1..])
    else WordAt(s0)
  }

  function ClauseAt(s: string): (r: Parsed<Clause>)
    ensures r.Ok? ==> |r.rest| < |s|
    decreases |s|, 1
  {
    var (occur, s1) := PrefixAt(SkipSpace(s));
    var (field, s2) := Field(s1);
    var (term, s3) :- TermAt(s2);
    Ok(Clause(occur, field, term), s3)
  }

  function ItemsAt(s: string, joined: bool): (r: Parsed<seq<Item>>)
    ensures r.Ok? ==> |r.rest| <= |s|
    decreases |s|, 2
  {
    var s0 := SkipSpace(s);
    if AtEnd(s0) then Ok([], s0) else
    var (c, s1) :- ClauseAt(s0);
    var s2 := SkipSpace(s1);
    if AtEnd(s2) then Ok([Item(joined, c)], s2) else
    var (and, s3) := Operator(s2);
    var (items, s4) :- ItemsAt(s3, and);
    Ok([Item(joined, c)] + items, s4)
  }

  function QueryAt(s: string): (r: Parsed<Node>)
    ensures r.Ok? ==> |r.rest| <= |s|
    decreases |s|, 3
  {
    var (items, rest) :- ItemsAt(s, false);
    Ok(Collapse(Resolve(items)), rest)
  }

  function Parse(s: string): Outcome<Node> {
    var s0 := SkipSpace(s);
    if Peek(s0) == EOF then Done(Boolean([]))
    else match QueryAt(s0)
      case Err(e) => Failed(e)
      case Ok(q, rest) => if Peek(SkipSpace(rest)) == EOF then Done(q) else Failed(UnexpectedToken)
  }
}
