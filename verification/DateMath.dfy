/** Date-math expressions and durations. An instant is a number of nanoseconds since the zero
    time, so the zero instant is the one that counts as missing. */
module DateMath {
  import opened Text

  datatype Option<+T> = None | Some(value: T)

  const SECOND := 1_000_000_000
  const MINUTE := 60 * SECOND
  const HOUR := 60 * MINUTE

  // ---------- durations ----------

  /** An amount and its unit, one of s, m, h, d, w, M and y. */
  datatype Span = Span(amount: real, unit: char)

  predicate IsUnit(c: char) {
    c == 's' || c == 'm' || c == 'h' || c == 'd' || c == 'w' || c == 'M' || c == 'y'
  }

  /** The whole number of nanoseconds in an amount of a unit: seconds, minutes and hours are
      cut to whole units, longer units to whole hours. */
  function Length(s: Span): int {
    match s.unit
    case 's' => s.amount.Floor * SECOND
    case 'm' => s.amount.Floor * MINUTE
    case 'h' => s.amount.Floor * HOUR
    case 'd' => (s.amount * 24.0).Floor * HOUR
    case 'w' => (s.amount * 24.0 * 7.0).Floor * HOUR
    case 'M' => (s.amount * 30.0 * 24.0).Floor * HOUR
    case _ => (s.amount * 365.0 * 24.0).Floor * HOUR
  }

  predicate IsDigit(c: char) {
    '0' <= c <= '9'
  }

  function DigitsLen(s: string): (k: nat)
    ensures k <= |s|
    ensures forall i :: 0 <= i < k ==> IsDigit(s[i])
  {
    if s == "" || !IsDigit(s[0]) then 0 else 1 + DigitsLen(s[1..])
  }

  function Decimal(digits: string): nat
    requires forall i :: 0 <= i < |digits| ==> IsDigit(digits[i])
  {
    if digits == "" then 0 else
    assert IsDigit(digits[|digits| - 1]);
    10 * Decimal(digits[..|digits| - 1]) + (digits[|digits| - 1] as int - '0' as int)
  }

  function PowerOfTen(k: nat): (p: nat)
    ensures p > 0
  {
    if k == 0 then 1 else 10 * PowerOfTen(k - 1)
  }

  /** White space inside date-math and duration patterns. */
  predicate IsPatternSpace(c: char) {
    IsBlank(c) || c == '\U{0C}'
  }

  function SkipPatternSpace(s: string): (r: string)
    ensures |r| <= |s|
  {
    if s != "" && IsPatternSpace(s[0]) then SkipPatternSpace(s[1..]) else s
  }

  /** The number of bytes of an amount: digits, and a point with more digits if there is one. */
  function AmountLen(s: string): (k: nat)
    ensures k <= |s|
    ensures forall i :: 0 <= i < k ==> IsDigit(s[i]) || s[i] == '.'
  {
    var k := DigitsLen(s);
    if k < |s| && s[k] == '.' && DigitsLen(s[k + 1..]) > 0 then
      var j := DigitsLen(s[k + 1..]);
      assert forall i :: k < i < k + 1 + j ==> s[i] == s[k + 1..][i - k - 1];
      k + 1 + j
    else k
  }

  function Amount(s: string): (a: real)
    ensures a >= 0.0
  {
    var k := DigitsLen(s);
    var whole := Decimal(s[..k]) as real;
    if AmountLen(s) > k then
      var j := DigitsLen(s[k + 1..]);
      whole + Fraction(Decimal(s[k + 1..][..j]), PowerOfTen(j))
    else whole
  }

  function Fraction(part: nat, of: nat): (r: real)
    requires of > 0
    ensures r >= 0.0
  {
    var (x, y) := (part as real, of as real);
    assert x / y >= 0.0;
    x / y
  }

  /** An amount, white space, and one unit letter. */
  function MatchSpan(s: string): (r: Option<Span>)
    ensures r.Some? ==> r.value.amount >= 0.0 && IsUnit(r.value.unit)
  {
    var unit := SkipPatternSpace(s[AmountLen(s)..]);
    if DigitsLen(s) > 0 && |unit| == 1 && IsUnit(unit[0]) then Some(Span(Amount(s), unit[0])) else None
  }

  function TrimLeft(s: string): (r: string) {
    if s != "" && IsSpace(s[0]) then TrimLeft(s[1..]) else s
  }

  function TrimRight(s: string): (r: string) {
    if s != "" && IsSpace(s[|s| - 1]) then TrimRight(s[..|s| - 1]) else s
  }

  function TrimSpace(s: string): string {
    TrimRight(TrimLeft(s))
  }

  function ParseDurationHuman(input: string): Option<int> {
    match MatchSpan(TrimSpace(input))
    case None => None
    case Some(span) => Some(Length(span))
  }

  // ---------- instants ----------

  /** Absolute dates are read by a function that stands for the layouts of the time library. */
  type Layouts = string -> Option<int>

  /** The text without the rounding marks that name one unit. */
  function DropRounding(s: string, unit: char): string {
    if |s| >= 2 && s[0] == '/' && s[1] == unit then DropRounding(s[2..], unit)
    else if s == "" then ""
    else [s[0]] + DropRounding(s[1..], unit)
  }

  function DropAllRounding(s: string): string {
    DropRounding(DropRounding(DropRounding(DropRounding(DropRounding(DropRounding(
      s, 'd'), 'h'), 'm'), 's'), 'M'), 'y')
  }

  function ParseRelative(input: string, now: int): Option<int> {
    if !("now" <= input) then None else
    var t := SkipPatternSpace(input[3..]);
    if t == "" || (t[0] != '+' && t[0] != '-') then None else
    match MatchSpan(SkipPatternSpace(t[1..]))
    case None => None
    case Some(span) => Some(if t[0] == '-' then now - Length(span) else now + Length(span))
  }

  function ParseDateMath(input: string, now: int, layouts: Layouts): Option<int> {
    var trimmed := TrimSpace(input);
    if trimmed == "*" || trimmed == "" then None else
    var s := DropAllRounding(trimmed);
    if s == "now" then Some(now)
    else if HasPrefixFold(s, "NOW") then ParseRelative(s, now)
    else layouts(s)
  }

  // ---------- windows ----------

  /** A time interval; a zero end is a missing one. */
  datatype Window = Window(low: int, high: int)

  const NO_WINDOW := Window(0, 0)

  function WindowLength(w: Window): Option<int> {
    if w.low == 0 || w.high == 0 then None else Some(w.high - w.low)
  }

  function ParseEnd(bound: string, now: int, layouts: Layouts): Option<int> {
    if bound == "" || bound == "*" then Some(0) else ParseDateMath(bound, now, layouts)
  }

  function ParseWindow(low: string, high: string, now: int, layouts: Layouts): Option<Window> {
    match ParseEnd(low, now, layouts)
    case None => None
    case Some(l) =>
      match ParseEnd(high, now, layouts)
      case None => None
      case Some(h) => Some(Window(l, h))
  }

  // ---------- laws of durations ----------

  function UnitLength(unit: char): int {
    match unit
    case 's' => SECOND
    case 'm' => MINUTE
    case 'h' => HOUR
    case 'd' => 24 * HOUR
    case 'w' => 7 * 24 * HOUR
    case 'M' => 30 * 24 * HOUR
    case _ => 365 * 24 * HOUR
  }

  /** The step in which the length of a unit is cut. */
  function Grain(unit: char): int {
    match unit
    case 's' => SECOND
    case 'm' => MINUTE
    case _ => HOUR
  }

  /** A duration is never longer than written, and short of it by less than one unit, or by
      less than an hour for days and longer units. */
  lemma LengthTruncates(s: Span)
    requires IsUnit(s.unit) && s.amount >= 0.0
    ensures
      var exact := s.amount * UnitLength(s.unit) as real;
      0 <= Length(s) && exact - Grain(s.unit) as real < Length(s) as real <= exact
  {
  }

  /** A larger amount of the same unit is never shorter. */
  lemma LengthMonotone(a: real, b: real, unit: char)
    requires IsUnit(unit) && 0.0 <= a <= b
    ensures Length(Span(a, unit)) <= Length(Span(b, unit))
  {
    FloorMonotone(a, b);
    FloorMonotone(a * 24.0, b * 24.0);
    FloorMonotone(a * 24.0 * 7.0, b * 24.0 * 7.0);
    FloorMonotone(a * 30.0 * 24.0, b * 30.0 * 24.0);
    FloorMonotone(a * 365.0 * 24.0, b * 365.0 * 24.0);
  }

  lemma FloorMonotone(x: real, y: real)
    ensures x <= y ==> x.Floor <= y.Floor
  {
  }

  // ---------- text without white space ----------

  predicate NoSpace(s: string) {
    forall i :: 0 <= i < |s| ==> !IsSpace(s[i])
  }

  lemma {:induction false} TrimNothing(s: string)
    ensures NoSpace(s) ==> TrimSpace(s) == s && SkipPatternSpace(s) == s
  {
  }

  lemma {:induction false} DropNothing(s: string, unit: char)
    requires forall i :: 0 <= i < |s| ==> s[i] != '/'
    ensures DropRounding(s, unit) == s
  {
    if s != "" {
      DropNothing(s[1..], unit);
      assert s == [s[0]] + s[1..];
    }
  }

  lemma {:induction false} DropAllNothing(s: string)
    requires forall i :: 0 <= i < |s| ==> s[i] != '/'
    ensures DropAllRounding(s) == s
  {
    DropNothing(s, 'd');
    DropNothing(s, 'h');
    DropNothing(s, 'm');
    DropNothing(s, 's');
    DropNothing(s, 'M');
    DropNothing(s, 'y');
  }

  // ---------- a duration after now- ----------

  /** The text before TrimLeft and after TrimRight is white space. */
  lemma {:induction false} TrimLeftDrops(s: string)
    ensures |TrimLeft(s)| <= |s| && TrimLeft(s) == s[|s| - |TrimLeft(s)|..]
    ensures forall i :: 0 <= i < |s| - |TrimLeft(s)| ==> IsSpace(s[i])
  {
    if s != "" && IsSpace(s[0]) {
      TrimLeftDrops(s[1..]);
      assert forall i :: 0 < i < |s| ==> s[i] == s[1..][i - 1];
    }
  }

  lemma {:induction false} TrimRightPrefix(s: string)
    ensures TrimRight(s) <= s
  {
    if s != "" && IsSpace(s[|s| - 1]) {
      TrimRightPrefix(s[..|s| - 1]);
    }
  }

  lemma {:induction false} TrimRightAfter(a: string, s: string)
    requires a != "" && !IsSpace(a[|a| - 1])
    ensures TrimRight(a + s) == a + TrimRight(s)
  {
    if s == "" {
      assert a + s == a;
    } else {
      assert (a + s)[..|a + s| - 1] == a + s[..|s| - 1];
      TrimRightAfter(a, s[..|s| - 1]);
    }
  }

  lemma {:induction false} TrimRightCons(c: char, s: string)
    ensures TrimRight([c] + s) == if TrimRight(s) == "" && IsSpace(c) then "" else [c] + TrimRight(s)
  {
    if s == "" {
      assert [c] + s == [c] && [c][..0] == "";
    } else {
      assert ([c] + s)[..|s|] == [c] + s[..|s| - 1];
      TrimRightCons(c, s[..|s| - 1]);
    }
  }

  lemma {:induction false} TrimEitherWay(s: string)
    ensures TrimLeft(TrimRight(s)) == TrimSpace(s)
  {
    if s != "" {
      assert s == [s[0]] + s[1..];
      TrimRightCons(s[0], s[1..]);
      TrimEitherWay(s[1..]);
      assert IsSpace(s[0]) ==> ([s[0]] + TrimRight(s[1..]))[1..] == TrimRight(s[1..]);
    }
  }

  /** Of the white space before a text the patterns skip all, or stop at a byte they do not know. */
  lemma {:induction false} SkipOrStop(s: string)
    ensures
      var p := SkipPatternSpace(s);
      p == TrimLeft(s) || (p != "" && IsSpace(p[0]))
  {
    if s != "" && IsPatternSpace(s[0]) {
      SkipOrStop(s[1..]);
    }
  }

  lemma {:induction false} SkipInPrefix(a: string, s: string)
    ensures a <= s && SkipPatternSpace(a) != "" ==> Peek(SkipPatternSpace(a)) == Peek(SkipPatternSpace(s))
  {
    if a <= s && SkipPatternSpace(a) != "" && IsPatternSpace(a[0]) {
      SkipInPrefix(a[1..], s[1..]);
    }
  }

  lemma {:induction false} SkipDrops(s: string)
    ensures |SkipPatternSpace(s)| <= |s| && SkipPatternSpace(s) == s[|s| - |SkipPatternSpace(s)|..]
    ensures forall i :: 0 <= i < |s| - |SkipPatternSpace(s)| ==> IsPatternSpace(s[i])
  {
    if s != "" && IsPatternSpace(s[0]) {
      SkipDrops(s[1..]);
      assert forall i :: 0 < i < |s| ==> s[i] == s[1..][i - 1];
    }
  }

  predicate NoSlash(s: string) {
    forall i :: 0 <= i < |s| ==> s[i] != '/'
  }

  lemma {:induction false} SpanHasNoSlash(s: string)
    requires MatchSpan(s).Some?
    ensures NoSlash(s)
  {
    hide AmountLen, DigitsLen, SkipPatternSpace, Amount;
    var k := AmountLen(s);
    var unit := SkipPatternSpace(s[k..]);
    assert |unit| == 1 && IsUnit(unit[0]);
    hide MatchSpan;
    SkipDrops(s[k..]);
    UnitAfterSpace(s[k..], unit);
    forall i | 0 <= i < |s|
      ensures s[i] != '/'
    {
      assert i >= k ==> s[i] == s[k..][i - k];
    }
  }

  lemma {:induction false} UnitAfterSpace(t: string, unit: string)
    requires |unit| == 1 <= |t| && IsUnit(unit[0]) && unit == t[|t| - 1..]
    requires forall i :: 0 <= i < |t| - 1 ==> IsPatternSpace(t[i])
    ensures NoSlash(t)
  {
    assert t[|t| - 1] == unit[0];
  }

  lemma {:induction false} SpacedHasNoSlash(s: string)
    requires MatchSpan(TrimLeft(s)).Some?
    ensures NoSlash(s)
  {
    var t := TrimLeft(s);
    TrimLeftDrops(s);
    SpanHasNoSlash(t);
    forall i | 0 <= i < |s|
      ensures s[i] != '/'
    {
      assert i >= |s| - |t| ==> s[i] == t[i - (|s| - |t|)];
    }
  }

  /** The bytes before the amount are such as the patterns skip. */
  predicate AmountFirst(w: string) {
    IsDigit(Peek(SkipPatternSpace(w)))
  }

  /** A plan window W and the relative bound now-W mean the same duration: whatever the time, the
      range [now-W TO now] is exactly as long as W, if the white space before the amount, if any,
      is such as the patterns skip; and cannot be read otherwise. */
  lemma {:induction false} RelativeWindow(w: string, now: int, layouts: Layouts)
    requires ParseDurationHuman(w).Some?
    ensures ParseWindow("now-" + w, "now", now, layouts) ==
            if AmountFirst(w) then Some(Window(now - ParseDurationHuman(w).value, now)) else None
  {
    hide ParseDateMath, MatchSpan, TrimSpace, Length, AmountFirst;
    NowOffset('-', w, now, layouts);
    NowItself(now, layouts);
    assert "now" + ['-'] + w == "now-" + w;
  }

  /** The range [now TO now+W] is as long as W, under the same condition. */
  lemma {:induction false} WindowAhead(w: string, now: int, layouts: Layouts)
    requires ParseDurationHuman(w).Some?
    ensures ParseWindow("now", "now+" + w, now, layouts) ==
            if AmountFirst(w) then Some(Window(now, now + ParseDurationHuman(w).value)) else None
  {
    hide ParseDateMath, MatchSpan, TrimSpace, Length, AmountFirst;
    NowOffset('+', w, now, layouts);
    NowItself(now, layouts);
    assert "now" + ['+'] + w == "now+" + w;
  }

  /** The range [now-A TO now+B] is as long as A and B together. */
  lemma {:induction false} WindowAround(a: string, b: string, now: int, layouts: Layouts)
    requires ParseDurationHuman(a).Some? && ParseDurationHuman(b).Some?
    ensures
      var (x, y) := (ParseDurationHuman(a).value, ParseDurationHuman(b).value);
      var w := ParseWindow("now-" + a, "now+" + b, now, layouts);
      (w.Some? <==> AmountFirst(a) && AmountFirst(b)) &&
      (w.Some? ==> w.value == Window(now - x, now + y)) &&
      (w.Some? && now != x && now != -y ==> WindowLength(w.value) == Some(x + y))
  {
    hide ParseDateMath, MatchSpan, TrimSpace, Length, AmountFirst;
    NowOffset('-', a, now, layouts);
    NowOffset('+', b, now, layouts);
    assert "now" + ['-'] + a == "now-" + a && "now" + ['+'] + b == "now+" + b;
  }

  lemma {:induction false} NowItself(now: int, layouts: Layouts)
    ensures ParseDateMath("now", now, layouts) == Some(now)
  {
    assert NoSpace("now");
    TrimNothing("now");
    hide TrimSpace, SkipPatternSpace;
    DropAllNothing("now");
  }

  /** A duration after the word now and a sign. */
  lemma {:induction false} NowOffset(sign: char, w: string, now: int, layouts: Layouts)
    requires sign == '-' || sign == '+'
    requires MatchSpan(TrimSpace(w)).Some?
    ensures ParseDateMath("now" + [sign] + w, now, layouts) ==
            if AmountFirst(w) then Some(Moved(sign, now, MatchSpan(TrimSpace(w)).value)) else None
  {
    hide MatchSpan, Moved;
    var u := TrimRight(w);
    var s := "now" + [sign] + u;
    TrimEitherWay(w);
    SpacedHasNoSlash(u);
    NowTrimmed(sign, w);
    assert forall i :: 0 <= i < |s| ==> s[i] == (if i < 4 then ("now" + [sign])[i] else u[i - 4]);
    DropAllNothing(s);
    ReadsRelative(s, "now" + [sign] + w, now, layouts);
    RelativeOffset(sign, u, now);
    TrimRightPrefix(w);
    SpanBegins(u, w);
  }

  /** Earlier after a minus sign, later after a plus sign. */
  function Moved(sign: char, now: int, span: Span): int {
    if sign == '-' then now - Length(span) else now + Length(span)
  }

  lemma {:induction false} NowTrimmed(sign: char, w: string)
    requires sign == '-' || sign == '+'
    ensures TrimSpace("now" + [sign] + w) == "now" + [sign] + TrimRight(w)
  {
    assert TrimLeft("now" + [sign] + w) == "now" + [sign] + w;
    TrimRightAfter("now" + [sign], w);
  }

  lemma {:induction false} ReadsRelative(s: string, input: string, now: int, layouts: Layouts)
    requires |TrimSpace(input)| > 1 && DropAllRounding(TrimSpace(input)) == s && |s| > 3 && "now" <= s
    ensures ParseDateMath(input, now, layouts) == ParseRelative(s, now)
  {
    hide TrimSpace, DropAllRounding;
    assert s[0] == 'n' && s[1] == 'o' && s[2] == 'w';
  }

  lemma {:induction false} RelativeOffset(sign: char, u: string, now: int)
    requires sign == '-' || sign == '+'
    ensures ParseRelative("now" + [sign] + u, now) ==
            match MatchSpan(SkipPatternSpace(u))
            case None => None
            case Some(span) => Some(Moved(sign, now, span))
  {
    hide MatchSpan, Length;
    var s := "now" + [sign] + u;
    assert "now" <= s;
    assert s[3..] == [sign] + u && s[3..][1..] == u;
  }

  lemma {:induction false} SpanBegins(u: string, w: string)
    requires MatchSpan(TrimLeft(u)).Some? && u <= w
    ensures AmountFirst(w) ==> SkipPatternSpace(u) == TrimLeft(u)
    ensures !AmountFirst(w) ==> MatchSpan(SkipPatternSpace(u)).None?
  {
    SkipOrStop(u);
    SkipInPrefix(u, w);
  }

  /** Whether a bound can be read does not depend on the time. */
  lemma ReadableAtAnyTime(low: string, high: string, now: int, later: int, layouts: Layouts)
    ensures ParseWindow(low, high, now, layouts).Some? <==> ParseWindow(low, high, later, layouts).Some?
  {
  }
}
