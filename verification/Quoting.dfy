/** Quoted strings delimit themselves, and their escapes can be undone. */
module Quoting {
  import opened Grammar
  import opened Printer
  import opened RoundTrip

  function HexValue(c: char): nat {
    if '0' <= c <= '9' then c as int - '0' as int
    else if 'a' <= c <= 'f' then c as int - 'a' as int + 10
    else 0
  }

  /** The byte an escape stands for, and the number of bytes the escape takes. */
  function UnescapeByte(s: string): (r: (char, nat))
    requires s != ""
    ensures 0 < r.1 <= |s|
  {
    if s[0] != '\\' || |s| == 1 then (s[0], 1)
    else if s[1] == 'a' then ('\U{07}', 2)
    else if s[1] == 'b' then ('\U{08}', 2)
    else if s[1] == 'f' then ('\U{0C}', 2)
    else if s[1] == 'n' then ('\n', 2)
    else if s[1] == 'r' then ('\r', 2)
    else if s[1] == 't' then ('\t', 2)
    else if s[1] == 'v' then ('\U{0B}', 2)
    else if s[1] == 'x' && |s| >= 4 then ((16 * HexValue(s[2]) + HexValue(s[3])) as char, 4)
    else (s[1], 2)
  }

  function Unescape(s: string): string
    decreases |s|
  {
    if s == "" then "" else
    var (c, n) := UnescapeByte(s);
    [c] + Unescape(s[n..])
  }

  lemma {:induction false} UnescapeOne(c: char, t: string)
    ensures UnescapeByte(EscapeByte(c) + t) == (c, |EscapeByte(c)|)
  {
    var e := EscapeByte(c);
    if |e| == 4 {
      assert c < ' ' || c == '\U{7F}';
      assert (e + t)[2] == e[2] && (e + t)[3] == e[3];
      assert HexValue(e[2]) == c as int / 16 && HexValue(e[3]) == c as int % 16;
    }
  }

  lemma {:induction false} UnescapeEscape(v: string)
    ensures Unescape(Escape(v)) == v
  {
    if v != "" {
      var e := EscapeByte(v[0]);
      var s := e + Escape(v[1..]);
      UnescapeOne(v[0], Escape(v[1..]));
      assert s[|e|..] == Escape(v[1..]);
      UnescapeEscape(v[1..]);
    }
  }

  /** Whatever a value holds and whatever text follows, its quoted form is read as one phrase
      that ends at its own closing quote and unescapes to the value. */
  lemma {:induction false} QuoteDelimits(v: string, rest: string)
    ensures
      var p := TermAt(Quote(v) + rest);
      p.Ok? && p.rest == rest && p.value.Phrase? && Unescape(p.value.value) == v
  {
    QuoteRead(v, rest);
    UnescapeEscape(v);
  }
}
