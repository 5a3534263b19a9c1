/** Writing a syntax tree back as query text. */
module Printer {
  import opened Text
  import opened Ast

  // ---------- quoting ----------

  /** The bytes that force a bare word into quotes. */
  predicate ForcesQuotes(c: char) {
    IsSpace(c) ||
    c == ':' || c == '/' || c == '\\' || c == '"' || c == '\'' || c == '(' || c == ')' ||
    c == '[' || c == ']' || c == '{' || c == '}' || c == '+' || c == '-' || c == '~' ||
    c == '^' || c == '|' || c == '&' || c == '!'
  }

  predicate NeedsQuote(v: string) {
    v == "" || exists i :: 0 <= i < |v| && ForcesQuotes(v[i])
  }

  method ScanForQuote(v: string) returns (needed: bool)
    ensures needed == NeedsQuote(v)
  {
    if v == "" {
      return true;
    }
    for i := 0 to |v|
      invariant forall j :: 0 <= j < i ==> !ForcesQuotes(v[j])
    {
      if ForcesQuotes(v[i]) {
        return true;
      }
    }
    return false;
  }

  function HexDigit(d: nat): char
    requires d < 16
  {
    if d < 10 then ('0' as int + d) as char else ('a' as int + d - 10) as char
  }

  /** A byte that a quoted string shows as it is. */
  predicate IsPlain(c: char) {
    ' ' <= c && c != '"' && c != '\\' && c != '\U{7F}'
  }

  function EscapeByte(c: char): string {
    if IsPlain(c) then [c]
    else if c == '"' || c == '\\' then ['\\', c]
    else if c == '\U{07}' then "\\a"
    else if c == '\U{08}' then "\\b"
    else if c == '\U{0C}' then "\\f"
    else if c == '\n' then "\\n"
    else if c == '\r' then "\\r"
    else if c == '\t' then "\\t"
    else if c == '\U{0B}' then "\\v"
    else ['\\', 'x', HexDigit(c as int / 16), HexDigit(c as int % 16)]
  }

  function Escape(v: string): string {
    if v == "" then "" else EscapeByte(v[0]) + Escape(v[1..])
  }

  function Quote(v: string): string {
    "\"" + Escape(v) + "\""
  }

  // ---------- nodes ----------

  function PrintTerm(v: string, raw: bool): string {
    if raw || !NeedsQuote(v) then v else Quote(v)
  }

  function PrintBound(b: string): string {
    if b == "" then "*" else b
  }

  function Sign(occur: Occur): string {
    match occur
    case Should => ""
    case Must => "+"
    case MustNot => "-"
  }

  function FieldText(field: string): string {
    if field == "" then "" else field + ":"
  }

  function Print(n: Node): string
    decreases n, 0
  {
    match n
    case Nil => ""
    case Term(v, wildcard, prefix) => PrintTerm(v, wildcard || prefix)
    case Phrase(v) => Quote(v)
    case Range(low, high, inclusiveLow, inclusiveHigh) =>
      (if inclusiveLow then "[" else "{") + PrintBound(low) + " TO " + PrintBound(high) +
      (if inclusiveHigh then "]" else "}")
    case Group(q) => "(" + Print(q) + ")"
    case Single(c) => PrintClause(c)
    case Boolean(cs) => PrintClauses(cs)
  }

  function PrintClause(c: Clause): string
    decreases c, 0
  {
    Sign(c.occur) + FieldText(c.field) + Print(c.term)
  }

  /** The clauses with one space between neighbours. */
  function PrintClauses(cs: seq<Clause>): string
    decreases cs, 0
  {
    if |cs| == 0 then ""
    else if |cs| == 1 then PrintClause(cs[0])
    else PrintClause(cs[0]) + " " + PrintClauses(cs[1..])
  }

  // ---------- the printing code ----------

  function Join(parts: seq<string>): string {
    if |parts| == 0 then ""
    else if |parts| == 1 then parts[0]
    else parts[0] + " " + Join(parts[1..])
  }

  method NodeString(n: Node) returns (s: string)
    ensures s == Print(n)
    decreases n, 0
  {
    match n {
      case Nil => s := "";
      case Term(v, wildcard, prefix) =>
        if wildcard || prefix {
          return v;
        }
        var needed := ScanForQuote(v);
        s := if needed then Quote(v) else v;
      case Phrase(v) => s := Quote(v);
      case Range(low, high, inclusiveLow, inclusiveHigh) =>
        var l := if low == "" then "*" else low;
        var h := if high == "" then "*" else high;
        var open := if !inclusiveLow then "{" else "[";
        var close := if !inclusiveHigh then "}" else "]";
        s := open + l + " TO " + h + close;
      case Group(q) =>
        if q.Nil? {
          return "()";
        }
        var inner := NodeString(q);
        s := "(" + inner + ")";
      case Single(c) => s := ClauseString(c);
      case Boolean(cs) =>
        var parts: seq<string> := [];
        for i := 0 to |cs|
          invariant |parts| == i
          invariant forall j :: 0 <= j < i ==> parts[j] == PrintClause(cs[j])
        {
          var part := ClauseString(cs[i]);
          parts := parts + [part];
        }
        JoinPrints(parts, cs);
        s := Join(parts);
    }
  }

  method ClauseString(c: Clause) returns (s: string)
    ensures s == PrintClause(c)
    decreases c, 0
  {
    var prefix := "";
    match c.occur {
      case Must => prefix := "+";
      case MustNot => prefix := "-";
      case Should =>
    }
    var term := NodeString(c.term);
    if c.field != "" {
      return prefix + c.field + ":" + term;
    }
    return prefix + term;
  }

  lemma {:induction false} JoinPrints(parts: seq<string>, cs: seq<Clause>)
    requires |parts| == |cs|
    requires forall j :: 0 <= j < |cs| ==> parts[j] == PrintClause(cs[j])
    ensures Join(parts) == PrintClauses(cs)
  {
    if |cs| > 1 {
      JoinPrints(parts[1..], cs[1..]);
    }
  }

  /** A query prints as its clauses do. */
  lemma PrintAsClauses(n: Node)
    ensures Print(n) == PrintClauses(Clauses(n))
  {
    if !n.Boolean? && !n.Single? {
      assert PrintClause(Clause(Should, "", n)) == Print(n);
    }
  }
}
