/** How date bounds and durations are spelled: amounts with and without a decimal point, rounding
    marks, and the word now in capitals. */
module DateBounds {
  import opened Text
  import opened DateMath

  // ---------- amounts ----------

  predicate AllDigits(s: string) {
    forall i :: 0 <= i < |s| ==> '0' <= s[i] <= '9'
  }

  lemma {:induction false} DigitsThen(a: string, t: string)
    requires AllDigits(a) && (t == "" || !IsDigit(t[0]))
    ensures DigitsLen(a + t) == |a|
  {
    if a == "" {
      assert a + t == t;
    } else {
      assert (a + t)[1..] == a[1..] + t;
      DigitsThen(a[1..], t);
    }
  }

  /** A decimal digit more multiplies by ten and adds the digit. */
  lemma {:induction false} DecimalConcat(a: string, b: string)
    requires AllDigits(a) && AllDigits(b)
    ensures Decimal(a + b) == Decimal(a) * PowerOfTen(|b|) + Decimal(b)
  {
    if b == "" {
      assert a + b == a;
    } else {
      var (c, s) := (b[..|b| - 1], a + b);
      assert s[..|s| - 1] == a + c && s[|s| - 1] == b[|b| - 1];
      DecimalConcat(a, c);
      TimesTen(Decimal(a), PowerOfTen(|c|));
    }
  }

  lemma TimesTen(x: nat, p: nat)
    ensures 10 * (x * p) == x * (10 * p)
  {
  }

  /** How many nanoseconds a unit has; a month is 30 days and a year 365. */
  function Nanoseconds(u: char): nat {
    match u
    case 's' => 1_000_000_000
    case 'm' => 60_000_000_000
    case 'h' => 3_600_000_000_000
    case 'd' => 86_400_000_000_000
    case 'w' => 604_800_000_000_000
    case 'M' => 2_592_000_000_000_000
    case _ => 31_536_000_000_000_000
  }

  function Units(k: nat, u: char): nat {
    k * Nanoseconds(u)
  }

  lemma {:induction false} WholeLength(k: nat, u: char)
    requires IsUnit(u)
    ensures Length(Span(k as real, u)) == Units(k, u)
  {
    var x := k as real;
    assert x.Floor == k;
    assert x * 24.0 == (k * 24) as real && x * 24.0 * 7.0 == (k * 168) as real;
    assert x * 30.0 * 24.0 == (k * 720) as real && x * 365.0 * 24.0 == (k * 8760) as real;
  }

  // ---------- white space inside ----------

  /** The white space that may stand inside a duration or a bound. */
  predicate Skipped(gap: string) {
    forall i :: 0 <= i < |gap| ==> gap[i] in " \t\n\U{0C}\r"
  }

  /** White space of any kind. */
  predicate White(gap: string) {
    forall i :: 0 <= i < |gap| ==> gap[i] in " \t\n\r\U{0B}\U{0C}\U{85}\U{A0}"
  }

  lemma WhiteIsSpace(c: char)
    ensures c in " \t\n\r\U{0B}\U{0C}\U{85}\U{A0}" <==> IsSpace(c)
    ensures c in " \t\n\U{0C}\r" <==> IsPatternSpace(c)
  {
  }

  lemma {:induction false} GapSkipped(gap: string, t: string)
    requires White(gap) && t != "" && !IsSpace(t[0])
    ensures Skipped(gap) ==> SkipPatternSpace(gap + t) == t
    ensures !Skipped(gap) ==> |SkipPatternSpace(gap + t)| > |t| && IsSpace(SkipPatternSpace(gap + t)[0])
  {
    if gap == "" {
      assert gap + t == t;
    } else {
      assert (gap + t)[1..] == gap[1..] + t;
      WhiteIsSpace(gap[0]);
      assert Skipped(gap) <==> gap[0] in " \t\n\U{0C}\r" && Skipped(gap[1..]);
      GapSkipped(gap[1..], t);
    }
  }

  /** A whole amount, white space, and a unit. */
  function Spelled(a: string, gap: string, u: char): string {
    a + gap + [u]
  }

  lemma {:induction false} SpanSpelled(a: string, gap: string, u: char)
    requires a != "" && AllDigits(a) && White(gap) && IsUnit(u)
    ensures MatchSpan(Spelled(a, gap, u)) == if Skipped(gap) then Some(Span(Decimal(a) as real, u)) else None
  {
    var (s, t) := (a + gap + [u], gap + [u]);
    assert s == a + t && s[|a|..] == t && s[..|a|] == a;
    assert t[0] == (if gap == "" then u else gap[0]);
    if gap != "" {
      WhiteIsSpace(gap[0]);
    }
    DigitsThen(a, t);
    assert s[|a|] == t[0] && AmountLen(s) == |a|;
    GapSkipped(gap, [u]);
    hide Decimal, DigitsLen;
  }

  predicate IsUnitLetter(u: char) {
    u in "smhdwMy"
  }

  lemma UnitLetters(u: char)
    ensures IsUnit(u) <==> IsUnitLetter(u)
  {
    var t := "smhdwMy";
    assert t[0] == 's' && t[1] == 'm' && t[2] == 'h' && t[3] == 'd' && t[4] == 'w' && t[5] == 'M' && t[6] == 'y';
  }

  /** A whole amount and a unit are a duration of that many units. White space may stand around it,
      and between the two if it is of the five kinds the patterns skip. */
  lemma {:induction false} WholeSpan(g1: string, a: string, gap: string, u: char, g2: string)
    requires White(g1) && White(gap) && White(g2) && a != "" && AllDigits(a) && IsUnitLetter(u)
    ensures ParseDurationHuman(g1 + Spelled(a, gap, u) + g2) ==
            if Skipped(gap) then Some(Units(Decimal(a), u)) else None
  {
    UnitLetters(u);
    hide IsUnit, IsUnitLetter;
    SpanSpelled(a, gap, u);
    SpanEnds(a, gap, u);
    WholeLength(Decimal(a), u);
    hide MatchSpan, Decimal, Length, TrimSpace, AllDigits, White, Skipped, Units, Spelled;
    Surrounded(g1, Spelled(a, gap, u), g2);
  }

  /** Behind the word now and a sign such a duration makes a bound; white space of the same kinds
      may stand before and after the sign. */
  lemma {:induction false} BoundSpelled(g1: string, sign: char, g2: string, a: string, g3: string, u: char,
                                        now: int, layouts: Layouts)
    requires White(g1) && White(g2) && White(g3) && (sign == '-' || sign == '+')
    requires a != "" && AllDigits(a) && IsUnitLetter(u)
    ensures
      var d := Units(Decimal(a), u);
      ParseDateMath("now" + g1 + [sign] + g2 + Spelled(a, g3, u), now, layouts) ==
      if Skipped(g1) && Skipped(g2) && Skipped(g3) then Some(if sign == '-' then now - d else now + d) else None
  {
    hide White, Skipped, IsUnit, IsUnitLetter, MatchSpan, ParseDateMath, Units, NoSlash, Spelled, IsSpace;
    var k := Decimal(a);
    hide AllDigits, IsDigit, Decimal;
    UnitLetters(u);
    SpanSpelled(a, g3, u);
    SpanEnds(a, g3, u);
    BoundOf(g1, sign, g2, Spelled(a, g3, u), k, u, now, layouts);
  }

  lemma {:induction false} BoundOf(g1: string, sign: char, g2: string, t: string, k: nat, u: char,
                                   now: int, layouts: Layouts)
    requires White(g1) && White(g2) && (sign == '-' || sign == '+') && IsUnit(u)
    requires |t| > 1 && IsDigit(t[0]) && NoSlash(t) && !IsSpace(t[|t| - 1])
    requires MatchSpan(t) == None || MatchSpan(t) == Some(Span(k as real, u))
    ensures
      var d := Units(k, u);
      ParseDateMath("now" + g1 + [sign] + g2 + t, now, layouts) ==
      if Skipped(g1) && Skipped(g2) && MatchSpan(t).Some? then Some(if sign == '-' then now - d else now + d) else None
  {
    hide MatchSpan, Length, White, Skipped, ParseDateMath, Units, IsDigit, IsSpace, NoSlash, IsUnit;
    WholeLength(k, u);
    Nested("now", g1, [sign], g2, t);
    SpacedBound(g1, sign, g2, t, now, layouts);
  }

  lemma Nested(a: string, b: string, c: string, d: string, e: string)
    ensures a + b + c + d + e == a + (b + (c + (d + e)))
  {
  }

  lemma SpanEnds(a: string, gap: string, u: char)
    requires a != "" && AllDigits(a) && White(gap) && IsUnit(u)
    ensures
      var t := Spelled(a, gap, u);
      |t| > 1 && IsDigit(t[0]) && !IsSpace(t[0]) && NoSlash(t) && !IsSpace(t[|t| - 1])
  {
    var t := a + gap + [u];
    assert t[0] == a[0] && t[|t| - 1] == u;
    WhiteHasNoSlash(gap);
    NoSlashConcat(a, gap);
    NoSlashConcat(a + gap, [u]);
  }

  /** White space around a text is trimmed. */
  lemma {:induction false} Surrounded(g1: string, t: string, g2: string)
    requires White(g1) && White(g2) && t != "" && !IsSpace(t[0]) && !IsSpace(t[|t| - 1])
    ensures TrimSpace(g1 + t + g2) == t
  {
    TrimWhiteLeft(g1, t + g2);
    assert g1 + t + g2 == g1 + (t + g2);
    TrimRightAfter(t, g2);
    TrimWhite(g2);
    assert t + "" == t;
  }

  lemma {:induction false} TrimWhiteLeft(g: string, t: string)
    requires White(g) && t != "" && !IsSpace(t[0])
    ensures TrimLeft(g + t) == t
  {
    if g == "" {
      assert g + t == t;
    } else {
      WhiteIsSpace(g[0]);
      assert (g + t)[1..] == g[1..] + t;
      TrimWhiteLeft(g[1..], t);
    }
  }

  lemma {:induction false} TrimWhite(g: string)
    requires White(g)
    ensures TrimRight(g) == ""
  {
    if g != "" {
      WhiteIsSpace(g[|g| - 1]);
      TrimWhite(g[..|g| - 1]);
    }
  }

  lemma WhiteHasNoSlash(g: string)
    requires White(g)
    ensures NoSlash(g)
  {
    forall i | 0 <= i < |g|
      ensures g[i] != '/'
    {
      WhiteIsSpace(g[i]);
    }
  }

  lemma NoSlashConcat(a: string, b: string)
    requires NoSlash(a) && NoSlash(b)
    ensures NoSlash(a + b)
  {
  }

  lemma SpaceFirst(s: string)
    ensures s != "" && IsSpace(s[0]) ==> MatchSpan(s) == None
  {
  }

  lemma {:induction false} AfterNow(a: string, now: int)
    ensures
      var x := SkipPatternSpace(a);
      ParseRelative("now" + a, now) ==
      if x == "" || (x[0] != '+' && x[0] != '-') then None else ParseRelative("now" + x, now)
  {
    hide MatchSpan, Length, SkipPatternSpace;
    var x := SkipPatternSpace(a);
    SkipTwice(a);
    BehindNow(a);
    BehindNow(x);
  }

  lemma BehindNow(a: string)
    ensures "now" <= "now" + a && ("now" + a)[3..] == a
  {
  }

  lemma {:induction false} SkipTwice(a: string)
    ensures SkipPatternSpace(SkipPatternSpace(a)) == SkipPatternSpace(a)
  {
    if a != "" && IsPatternSpace(a[0]) {
      SkipTwice(a[1..]);
    }
  }

  lemma NotSpaces(c: char)
    ensures !IsSpace('+') && !IsSpace('-') && (IsDigit(c) ==> !IsSpace(c))
  {
  }

  lemma {:induction false} SpacedRelative(g1: string, sign: char, g2: string, t: string, now: int)
    requires White(g1) && White(g2) && (sign == '-' || sign == '+') && t != "" && IsDigit(t[0])
    ensures ParseRelative("now" + (g1 + ([sign] + (g2 + t))), now) ==
            match MatchSpan(t)
            case None => None
            case Some(span) => if Skipped(g1) && Skipped(g2) then Some(Moved(sign, now, span)) else None
  {
    hide White, Skipped, MatchSpan, SkipPatternSpace, ParseRelative, Moved, IsDigit, IsSpace;
    NotSpaces(t[0]);
    GapBeforeSign(g1, sign, g2 + t, now);
    GapSkipped(g2, t);
    SpaceFirst(SkipPatternSpace(g2 + t));
  }

  lemma {:induction false} GapBeforeSign(g: string, sign: char, u: string, now: int)
    requires White(g) && (sign == '-' || sign == '+')
    ensures ParseRelative("now" + (g + ([sign] + u)), now) ==
            match MatchSpan(SkipPatternSpace(u))
            case None => None
            case Some(span) => if Skipped(g) then Some(Moved(sign, now, span)) else None
  {
    hide White, Skipped, MatchSpan, SkipPatternSpace, ParseRelative, Moved, IsSpace;
    var rest := [sign] + u;
    assert rest != "" && rest[0] == sign;
    NotSpaces('0');
    AfterNow(g + rest, now);
    GapSkipped(g, rest);
    if Skipped(g) {
      assert "now" + rest == "now" + [sign] + u;
      RelativeOffset(sign, u, now);
    }
  }


  lemma {:induction false} SpacedBound(g1: string, sign: char, g2: string, t: string, now: int, layouts: Layouts)
    requires White(g1) && White(g2) && (sign == '-' || sign == '+')
    requires |t| > 1 && IsDigit(t[0]) && NoSlash(t) && !IsSpace(t[|t| - 1])
    ensures ParseDateMath("now" + (g1 + ([sign] + (g2 + t))), now, layouts) ==
            match MatchSpan(t)
            case None => None
            case Some(span) => if Skipped(g1) && Skipped(g2) then Some(Moved(sign, now, span)) else None
  {
    var s := "now" + (g1 + ([sign] + (g2 + t)));
    SpacedRelative(g1, sign, g2, t, now);
    WhiteHasNoSlash(g1);
    WhiteHasNoSlash(g2);
    NoSlashConcat(g2, t);
    NoSlashConcat([sign], g2 + t);
    NoSlashConcat(g1, [sign] + (g2 + t));
    NoSlashConcat("now", g1 + ([sign] + (g2 + t)));
    DropAllNothing(s);
    assert s[0] == 'n' && s[|s| - 1] == t[|t| - 1] && TrimLeft(s) == s && TrimRight(s) == s;
    hide TrimSpace, ParseRelative, MatchSpan, White, Skipped, DropAllRounding;
    ReadsRelative(s, s, now, layouts);
  }

  /** A decimal amount and a unit: all its digits, over a power of ten for each behind the point. */
  lemma {:induction false} DecimalSpan(a: string, b: string, u: char)
    requires a != "" && b != "" && AllDigits(a) && AllDigits(b) && IsUnitLetter(u)
    ensures ParseDurationHuman(a + "." + b + [u]) ==
            Some(Length(Span(Decimal(a + b) as real / PowerOfTen(|b|) as real, u)))
  {
    UnitLetters(u);
    hide IsUnitLetter, MatchSpan, Length, Decimal, PowerOfTen, AllDigits, TrimSpace;
    var s := a + "." + b + [u];
    DecimalMatched(a, b, u);
    Surrounded("", s, "");
    assert "" + s + "" == s;
  }

  lemma {:induction false} DecimalMatched(a: string, b: string, u: char)
    requires a != "" && b != "" && AllDigits(a) && AllDigits(b) && IsUnit(u)
    ensures
      var s := a + "." + b + [u];
      MatchSpan(s) == Some(Span(Decimal(a + b) as real / PowerOfTen(|b|) as real, u)) &&
      !IsSpace(s[0]) && !IsSpace(s[|s| - 1])
  {
    var s := a + "." + b + [u];
    DecimalAmount(a, b, u);
    assert s[|a| + 1 + |b|..] == [u] && s[0] == a[0] && s[|s| - 1] == u;
    assert SkipPatternSpace([u]) == [u] && !IsSpace(u) && !IsSpace(s[0]);
    hide DigitsLen, AmountLen, Amount, Decimal, PowerOfTen, AllDigits, SkipPatternSpace, IsSpace;
  }

  lemma {:induction false} DecimalAmount(a: string, b: string, u: char)
    requires a != "" && b != "" && AllDigits(a) && AllDigits(b) && IsUnit(u)
    ensures
      var s := a + "." + b + [u];
      DigitsLen(s) == |a| && AmountLen(s) == |a| + 1 + |b| &&
      Amount(s) == Decimal(a + b) as real / PowerOfTen(|b|) as real
  {
    var s := a + "." + b + [u];
    var t := b + [u];
    assert s == a + ("." + t) && ("." + t)[1..] == t;
    DigitsThen(a, "." + t);
    DigitsThen(b, [u]);
    assert s[|a|] == '.' && s[|a| + 1..] == t && s[..|a|] == a && t[..|b|] == b;
    hide DigitsLen, Decimal, PowerOfTen;
    DecimalConcat(a, b);
    WholeAndPart(Decimal(a), Decimal(b), PowerOfTen(|b|));
  }

  lemma {:induction false} WholeAndPart(x: nat, y: nat, p: nat)
    requires p > 0
    ensures x as real + y as real / p as real == (x * p + y) as real / p as real
  {
    var (a, b, c) := (x as real, y as real, p as real);
    assert (x * p + y) as real == a * c + b;
    assert (a * c + b) / c == a + b / c;
  }

  lemma {:induction false} SmallDecimals()
    ensures Decimal("15") == 15 && Decimal("125") == 125
    ensures PowerOfTen(1) == 10 && PowerOfTen(2) == 100
  {
    assert "15"[..1] == "1" && "125"[..2] == "12" && "12"[..1] == "1" && "1"[..0] == "";
    assert Decimal("1") == 1;
    assert Decimal("12") == 12;
  }

  /** One and a half days are 36 hours, and an hour and a quarter is cut to an hour. */
  lemma {:induction false} DecimalExamples()
    ensures ParseDurationHuman("1.5d") == Some(36 * HOUR)
    ensures ParseDurationHuman("1.25h") == Some(HOUR)
  {
    SmallDecimals();
    hide Decimal, PowerOfTen, ParseDurationHuman;
    DecimalSpan("1", "5", 'd');
    DecimalSpan("1", "25", 'h');
    assert "1" + "." + "5" + ['d'] == "1.5d" && "1" + "." + "25" + ['h'] == "1.25h";
    assert "1" + "5" == "15" && "1" + "25" == "125";
  }

  // ---------- rounding ----------

  lemma {:induction false} DropMark(s: string, u: char, unit: char)
    requires NoSlash(s)
    ensures DropRounding(s + ['/', u], unit) == if u == unit then s else s + ['/', u]
  {
    var t := s + ['/', u];
    if s == "" {
      assert t[1..] == [u] && t[2..] == "" && [u][1..] == "" && ['/'] + [u] == t;
      assert DropRounding([u], unit) == [u] + DropRounding("", unit);
    } else {
      assert t[1..] == s[1..] + ['/', u] && s == [s[0]] + s[1..];
      DropMark(s[1..], u, unit);
    }
  }

  lemma {:induction false} DropLastMark(s: string, u: char)
    requires NoSlash(s)
    ensures DropAllRounding(s + ['/', u]) == if u in "dhmsMy" then s else s + ['/', u]
  {
    var t := s + ['/', u];
    DropAllNothing(s);
    DropMark(s, u, 'd');
    DropMark(s, u, 'h');
    DropMark(s, u, 'm');
    DropMark(s, u, 's');
    DropMark(s, u, 'M');
    DropMark(s, u, 'y');
    DropNothing(s, 'h');
    DropNothing(s, 'm');
    DropNothing(s, 's');
    DropNothing(s, 'M');
    DropNothing(s, 'y');
    hide DropRounding;
    assert u in "dhmsMy" <==> u == 'd' || u == 'h' || u == 'm' || u == 's' || u == 'M' || u == 'y';
  }

  lemma {:induction false} DropSlash(s: string, unit: char)
    requires NoSlash(s)
    ensures DropRounding(s + "/", unit) == s + "/"
  {
    var t := s + "/";
    if s == "" {
      assert t[1..] == "" && ['/'] + "" == t;
    } else {
      assert t[1..] == s[1..] + "/" && s == [s[0]] + s[1..];
      DropSlash(s[1..], unit);
    }
  }

  lemma {:induction false} MarkTrimmed(s: string, u: char)
    requires s != "" && !IsSpace(s[0])
    ensures TrimSpace(s + ['/', u]) == if IsSpace(u) then s + "/" else s + ['/', u]
  {
    var t := s + ['/', u];
    assert t[0] == s[0] && TrimLeft(t) == t;
    assert t[|t| - 1] == u && t[..|t| - 1] == s + "/";
    assert (s + "/")[|s + "/"| - 1] == '/' && TrimRight(s + "/") == s + "/";
  }

  /** What is left of a bound with a rounding mark once white space and the marks are dropped. */
  lemma {:induction false} MarkDropped(s: string, u: char)
    requires |s| >= 3 && NoSlash(s) && !IsSpace(s[0])
    ensures
      var t := TrimSpace(s + ['/', u]);
      |t| > 3 && DropAllRounding(t) == if u in "dhmsMy" then s else if IsSpace(u) then s + "/" else s + ['/', u]
  {
    MarkTrimmed(s, u);
    DropLastMark(s, u);
    DropSlash(s, 'd');
    DropSlash(s, 'h');
    DropSlash(s, 'm');
    DropSlash(s, 's');
    DropSlash(s, 'M');
    DropSlash(s, 'y');
    hide DropRounding, TrimSpace;
    assert u in "dhmsMy" ==> !IsSpace(u);
  }

  lemma {:induction false} SlashUnreadable(sign: char, t: string, k: nat, now: int)
    requires (sign == '-' || sign == '+') && k < |t| && t[k] == '/'
    ensures ParseRelative("now" + [sign] + t, now) == None
  {
    hide MatchSpan, SkipPatternSpace, ParseRelative, Moved, NoSlash;
    RelativeOffset(sign, t, now);
    SlashKept(t, k);
    if MatchSpan(SkipPatternSpace(t)).Some? {
      SpanHasNoSlash(SkipPatternSpace(t));
    }
  }

  lemma {:induction false} SlashKept(t: string, k: nat)
    requires k < |t| && t[k] == '/'
    ensures !NoSlash(SkipPatternSpace(t))
  {
    var p := SkipPatternSpace(t);
    SkipDrops(t);
    hide SkipPatternSpace;
    assert p[k - (|t| - |p|)] == '/';
  }

  /** A rounding mark behind a duration is ignored if it names one of six units, and makes the
      bound unreadable otherwise. */
  lemma {:induction false} RoundingIgnored(sign: char, w: string, u: char, now: int, layouts: Layouts)
    requires sign == '-' || sign == '+'
    requires ParseDurationHuman(w).Some? && !IsSpace(w[|w| - 1])
    ensures ParseDateMath("now" + [sign] + w + ['/', u], now, layouts) ==
            if u in "dhmsMy" then ParseDateMath("now" + [sign] + w, now, layouts) else None
  {
    hide Text.SkipSpace, MatchSpan, ParseDateMath, ParseRelative, DropAllRounding, Length;
    var (a, s) := ("now" + [sign], "now" + [sign] + w);
    TrimEitherWay(w);
    SpacedHasNoSlash(w);
    assert forall i :: 0 <= i < |s| ==> s[i] == (if i < 4 then a[i] else w[i - 4]);
    DropAllNothing(s);
    NowTrimmed(sign, w);
    MarkDropped(s, u);
    hide TrimSpace;
    assert "now" <= s && "now" <= s + "/" && "now" <= s + ['/', u];
    ReadsRelative(s, s, now, layouts);
    ReadsRelative(DropAllRounding(TrimSpace(s + ['/', u])), s + ['/', u], now, layouts);
    assert s + "/" == a + (w + "/") && s + ['/', u] == a + (w + ['/', u]);
    SlashUnreadable(sign, w + "/", |w|, now);
    SlashUnreadable(sign, w + ['/', u], |w|, now);
  }

  /** The word now alone is rounded likewise. */
  lemma {:induction false} NowRounded(u: char, now: int, layouts: Layouts)
    ensures ParseDateMath("now" + ['/', u], now, layouts) == if u in "dhmsMy" then Some(now) else None
  {
    MarkDropped("now", u);
    hide TrimSpace, DropAllRounding;
    assert "now" + ['/', u] == ['n', 'o', 'w', '/', u] && "now" + "/" == "now/";
  }

  /** In capitals, whole or in part, now is neither read as the word nor as an absolute date. */
  lemma {:induction false} CapitalNow(now: int, layouts: Layouts)
    ensures ParseDateMath("NOW", now, layouts) == None && ParseDateMath("Now-1d", now, layouts) == None
  {
    CapitalsUnread("NOW", now, layouts);
    CapitalsUnread("Now-1d", now, layouts);
  }

  lemma {:induction false} CapitalsUnread(s: string, now: int, layouts: Layouts)
    requires |s| >= 3 && NoSpace(s) && NoSlash(s) && HasPrefixFold(s, "NOW") && s[0] != 'n'
    ensures ParseDateMath(s, now, layouts) == None
  {
    TrimNothing(s);
    DropAllNothing(s);
    hide TrimSpace, DropAllRounding, HasPrefixFold;
    assert !("now" <= s) && s != "now" && s != "*" && s != "";
  }

  /** A text that does not begin like now is left to the layouts, without white space around it and
      without rounding marks; a star and nothing are no dates. */
  lemma {:induction false} AbsoluteDate(a: string, b: string, u: char, now: int, layouts: Layouts)
    requires NoSlash(a + b) && TrimSpace(a + b) == a + b && |a + b| > 1 && !HasPrefixFold(a + b, "NOW")
    requires u in "dhmsMy" && a != "" && b != ""
    ensures ParseDateMath(a + b, now, layouts) == layouts(a + b)
    ensures ParseDateMath(a + ['/', u] + b, now, layouts) == layouts(a + b)
  {
    MarkInside(a, u, b);
    DropAllNothing(a + b);
    TrimInside(a, u, b);
    hide TrimSpace, DropAllRounding;
    assert (a + ['/', u] + b)[|a|] == '/' && |a + ['/', u] + b| > 1;
  }

  lemma NoDate(now: int, layouts: Layouts)
    ensures ParseDateMath("*", now, layouts) == None && ParseDateMath("", now, layouts) == None
    ensures ParseWindow("*", "now", now, layouts) == ParseWindow("", "now", now, layouts) == Some(Window(0, now))
    ensures ParseWindow("now", "*", now, layouts) == ParseWindow("now", "", now, layouts) == Some(Window(now, 0))
  {
    assert NoSpace("*") && NoSpace("");
    TrimNothing("*");
    TrimNothing("");
    hide TrimSpace;
    NowItself(now, layouts);
  }

  lemma {:induction false} DropMarkInside(a: string, u: char, b: string, unit: char)
    requires NoSlash(a) && NoSlash(b) && u != '/'
    ensures DropRounding(a + ['/', u] + b, unit) == if u == unit then a + b else a + ['/', u] + b
  {
    var t := a + ['/', u] + b;
    if a == "" {
      assert t[1..] == [u] + b && t[2..] == b && ([u] + b)[1..] == b && ['/'] + ([u] + b) == t && a + b == b;
      DropNothing(b, unit);
      assert DropRounding([u] + b, unit) == [u] + DropRounding(b, unit);
    } else {
      FirstApart(a, ['/', u], b);
      assert t[0] == a[0] && a[0] != '/';
      DropMarkInside(a[1..], u, b, unit);
      hide NoSlash;
    }
  }

  lemma FirstApart(a: string, m: string, b: string)
    requires a != ""
    ensures (a + m + b)[1..] == a[1..] + m + b
    ensures [a[0]] + (a[1..] + b) == a + b && [a[0]] + (a[1..] + m + b) == a + m + b
  {
  }

  lemma {:induction false} MarkInside(a: string, u: char, b: string)
    requires NoSlash(a + b) && u in "dhmsMy"
    ensures DropAllRounding(a + ['/', u] + b) == a + b
  {
    assert forall i :: 0 <= i < |a| ==> a[i] == (a + b)[i];
    assert forall i :: 0 <= i < |b| ==> b[i] == (a + b)[|a| + i];
    DropMarkInside(a, u, b, 'd');
    DropMarkInside(a, u, b, 'h');
    DropMarkInside(a, u, b, 'm');
    DropMarkInside(a, u, b, 's');
    DropMarkInside(a, u, b, 'M');
    DropMarkInside(a, u, b, 'y');
    DropNothing(a + b, 'h');
    DropNothing(a + b, 'm');
    DropNothing(a + b, 's');
    DropNothing(a + b, 'M');
    DropNothing(a + b, 'y');
    hide DropRounding;
    assert u == 'd' || u == 'h' || u == 'm' || u == 's' || u == 'M' || u == 'y';
  }

  lemma {:induction false} TrimInside(a: string, u: char, b: string)
    requires a != "" && b != "" && TrimSpace(a + b) == a + b
    ensures TrimSpace(a + ['/', u] + b) == a + ['/', u] + b
  {
    var (s, t) := (a + b, a + ['/', u] + b);
    assert s[0] == a[0] == t[0] && s[|s| - 1] == b[|b| - 1] == t[|t| - 1];
    TrimmedEnds(s);
  }

  lemma {:induction false} TrimmedEnds(s: string)
    requires s != "" && TrimSpace(s) == s
    ensures !IsSpace(s[0]) && !IsSpace(s[|s| - 1])
  {
    var t := TrimLeft(s);
    TrimLeftDrops(s);
    TrimLeftDrops(s[1..]);
    TrimRightPrefix(t);
    assert |t| == |s| && t == s;
    TrimRightPrefix(s[..|s| - 1]);
    assert IsSpace(s[0]) ==> |TrimLeft(s)| < |s|;
    assert IsSpace(s[|s| - 1]) ==> |TrimRight(s)| < |s|;
    hide IsSpace, TrimLeft, TrimRight;
  }
}
