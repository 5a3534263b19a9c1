/** Query text as the parser sees it: a sequence of bytes, one `char` per byte.
    Text still to be read is a string, so moving the cursor is taking a suffix. */
module Text {

  /** A NUL byte and the end of the input look the same to the parser. */
  const EOF: char := '\0'

  /** The bytes the parser skips between tokens. */
  predicate IsBlank(c: char) {
    c == ' ' || c == '\t' || c == '\n' || c == '\r'
  }

  /** Unicode white space among single bytes: it ends a word, a field name and a range bound. */
  predicate IsSpace(c: char) {
    IsBlank(c) || c == '\U{0B}' || c == '\U{0C}' || c == '\U{85}' || c == '\U{A0}'
  }

  /** The bytes that end a bare word outside quotes. */
  predicate IsSpecial(c: char) {
    c == '(' || c == ')' || c == '[' || c == ']' || c == '{' || c == '}' ||
    c == '"' || c == ':' || c == '+' || c == '-'
  }

  function ToUpper(c: char): char {
    if 'a' <= c <= 'z' then (c as int - 32) as char else c
  }

  function Peek(s: string): char {
    if s == "" then EOF else s[0]
  }

  /** Moves past one byte, if there is one. */
  function Next(s: string): string {
    if s == "" then "" else s[1..]
  }

  function SkipSpace(s: string): (r: string)
    ensures |r| <= |s|
    ensures r == "" || !IsBlank(r[0])
  {
    if s != "" && IsBlank(s[0]) then SkipSpace(s[1..]) else s
  }

  /** Whether s, in upper case, begins with the upper-case word. */
  predicate HasPrefixFold(s: string, word: string) {
    |word| <= |s| && forall i | 0 <= i < |word| :: ToUpper(s[i]) == word[i]
  }

  /** Whether s, in upper case, is the upper-case word. */
  predicate EqualFold(s: string, word: string) {
    |s| == |word| && HasPrefixFold(s, word)
  }
}
