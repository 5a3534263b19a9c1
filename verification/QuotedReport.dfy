/** The report of what a printed text reads as, beside the report of the tree that was printed.
    Quoting turns words into phrases and can change the number of words in a phrase. */
module QuotedReport {
  import opened Text
  import opened Ast
  import opened Grammar
  import opened Printer
  import opened NormalForm
  import opened CanonicalForm
  import opened RoundTrip
  import opened Samples
  import opened CostModel
  import opened CostLaws
  import opened RemovalLaws

  /** No word of the tree needs quotes. */
  predicate WordsKept(n: Node)
    decreases n, 0
  {
    match n
    case Term(_, _, _) => PlainLeaf(n)
    case Group(q) => WordsKept(q)
    case Single(c) => WordsKept(c.term)
    case Boolean(cs) => AllWordsKept(cs)
    case _ => true
  }

  predicate AllWordsKept(cs: seq<Clause>)
    decreases cs, 0
  {
    cs == [] || (WordsKept(cs[0].term) && AllWordsKept(cs[1..]))
  }

  /** No word needs quotes and escaping leaves every phrase that costs anything its number of
      words. */
  predicate ChargesKept(n: Node, m: Model, field: string)
    decreases n, 0
  {
    match n
    case Term(_, _, _) => PlainLeaf(n)
    case Phrase(v) => PhraseWords(Escape(v)) == PhraseWords(v) || FreePhrases(m, field)
    case Group(q) => ChargesKept(q, m, field)
    case Single(c) => ChargesKept(c.term, m, c.field)
    case Boolean(cs) => AllChargesKept(cs, m)
    case _ => true
  }

  predicate AllChargesKept(cs: seq<Clause>, m: Model)
    decreases cs, 0
  {
    cs == [] || (ChargesKept(cs[0].term, m, cs[0].field) && AllChargesKept(cs[1..], m))
  }

  /** The words of a phrase on this field cost nothing. */
  predicate FreePhrases(m: Model, field: string) {
    m.phraseCost == 0.0 || FieldWeight(m, field) == 0.0 || DefaultPenalty(m, field) == 0.0
  }

  // ---------- charges of leaves ----------

  lemma {:induction false} PhraseRequoted(v: string, m: Model, field: string)
    ensures PhraseEntry(Escape(v), m, field) == PhraseEntry(v, m, field) <==> ChargesKept(Phrase(v), m, field)
  {
    hide Escape, PhraseWords, FieldWeight, DefaultPenalty;
    var (w, p) := (FieldWeight(m, field), DefaultPenalty(m, field));
    var (i, j) := (PhraseWords(Escape(v)) as real, PhraseWords(v) as real);
    var (x, y) := (m.phraseCost * i, m.phraseCost * j);
    assert x == i * m.phraseCost && y == j * m.phraseCost;
    SameTimes(i, j, m.phraseCost);
    SameTimes(x, y, w);
    SameTimes(x * w, y * w, p);
  }

  lemma {:induction false} SameTimes(x: real, y: real, r: real)
    ensures x * r == y * r <==> x == y || r == 0.0
  {
    if x * r == y * r && r != 0.0 {
      assert x == x * r / r == y * r / r == y;
    }
  }

  lemma TermKeyIsNotPhrase(v: string, wildcard: bool, prefix: bool, field: string)
    ensures wildcard || TermKey(v, wildcard, prefix, field) != "phrase"
  {
    assert "match_all"[0] == 'm' && "term"[0] == 't' && "phrase"[0] == 'p';
  }

  // ---------- charges of trees ----------

  /** How two lists of charges compare. */
  datatype Likeness = Likeness(sameLength: bool, sameKeys: bool, same: bool)

  function Compare(a: seq<Entry>, b: seq<Entry>): Likeness {
    Likeness(|a| == |b|, Keys(a) == Keys(b), a == b)
  }

  /** How the charges of what the text of a tree reads as compare with those of the tree. */
  function Survives(n: Node, m: Model, field: string): Likeness {
    Likeness(true, WordsKept(n), ChargesKept(n, m, field))
  }

  function Both(a: Likeness, b: Likeness): Likeness {
    Likeness(a.sameLength && b.sameLength, a.sameKeys && b.sameKeys, a.same && b.same)
  }

  lemma {:induction false} SameParts<T>(a: seq<T>, b: seq<T>, c: seq<T>, d: seq<T>)
    requires |a| == |c|
    ensures a + b == c + d <==> a == c && b == d
  {
    if a + b == c + d {
      assert a == (a + b)[..|a|] == (c + d)[..|c|] == c;
      assert b == (a + b)[|a|..] == (c + d)[|c|..] == d;
    }
  }

  lemma {:induction false} CompareConcat(a: seq<Entry>, b: seq<Entry>, c: seq<Entry>, d: seq<Entry>)
    requires |a| == |c|
    ensures Compare(a + b, c + d) == Both(Compare(a, c), Compare(b, d))
  {
    assert Keys(a + b) == Keys(a) + Keys(b) && Keys(c + d) == Keys(c) + Keys(d);
    SameParts(a, b, c, d);
    SameParts(Keys(a), Keys(b), Keys(c), Keys(d));
  }

  /** Exactly where no word is quoted are the same charges made, by name; and where escaping
      changes the words of no phrase that costs anything, with the same amounts. */
  lemma {:induction false} EntriesRequoted(n: Node, m: Model, field: string, depth: nat)
    ensures Compare(Entries(Requote(n), m, field, depth), Entries(n, m, field, depth)) == Survives(n, m, field)
    decreases n, 0
  {
    match n
    case Nil =>
    case Group(q) =>
      EntriesRequoted(q, m, field, depth + 1);
      var e := [Entry("depth", DepthBonus(m, depth))];
      hide Requote, WordsKept, ChargesKept, DepthBonus, Keys;
      CompareConcat(e, Entries(Requote(q), m, field, depth + 1), e, Entries(q, m, field, depth + 1));
    case Single(c) => ClauseRequoted(c, m, depth);
    case Boolean(cs) => BooleanRequoted(cs, m, field, depth);
    case _ => LeafRequoted(n, m, field, depth);
  }

  lemma {:induction false} LeafRequoted(n: Node, m: Model, field: string, depth: nat)
    requires IsLeaf(n)
    ensures Compare(Entries(Requote(n), m, field, depth), Entries(n, m, field, depth)) == Survives(n, m, field)
  {
    var (a, b) := (LeafEntry(Requote(n), m, field), LeafEntry(n, m, field));
    assert Entries(Requote(n), m, field, depth) == [a] && Entries(n, m, field, depth) == [b];
    match n {
      case Term(v, wildcard, prefix) => TermKeyIsNotPhrase(v, wildcard, prefix, field);
      case Phrase(v) => PhraseRequoted(v, m, field);
      case _ =>
    }
    assert (a.key == b.key <==> WordsKept(n)) && (a == b <==> ChargesKept(n, m, field)) by {
      hide Escape, NeedsQuote, FieldWeight, DefaultPenalty, TermAmount, PhraseWords;
    }
    hide LeafEntry, WordsKept, ChargesKept, Requote, Entries;
    assert Keys([a]) == [a.key] && Keys([b]) == [b.key];
    SameParts([a], [], [b], []);
    SameParts([a.key], [], [b.key], []);
  }

  lemma {:induction false} ClauseRequoted(c: Clause, m: Model, depth: nat)
    ensures Compare(ClauseEntries(RequoteClause(c), m, depth), ClauseEntries(c, m, depth)) ==
            Survives(c.term, m, c.field)
    decreases c, 0
  {
    EntriesRequoted(c.term, m, c.field, depth);
    hide Requote, WordsKept, ChargesKept, Entries, Keys;
    var e := if c.occur == MustNot then [Entry("must_not", 2.0)] else [];
    CompareConcat(Entries(Requote(c.term), m, c.field, depth), e, Entries(c.term, m, c.field, depth), e);
  }

  lemma {:induction false} ClausesRequoted(cs: seq<Clause>, m: Model, depth: nat)
    ensures Compare(ClausesEntries(RequoteClauses(cs), m, depth), ClausesEntries(cs, m, depth)) ==
            Survives(Boolean(cs), m, "")
    decreases cs, 0
  {
    if cs != [] {
      ClauseRequoted(cs[0], m, depth);
      ClausesRequoted(cs[1..], m, depth);
      assert RequoteClauses(cs)[1..] == RequoteClauses(cs[1..]);
      SurvivesFirst(cs, m);
      hide ClauseEntries, RequoteClause, Keys, Survives;
      CompareConcat(ClauseEntries(RequoteClause(cs[0]), m, depth), ClausesEntries(RequoteClauses(cs[1..]), m, depth),
                    ClauseEntries(cs[0], m, depth), ClausesEntries(cs[1..], m, depth));
    }
  }

  lemma SurvivesFirst(cs: seq<Clause>, m: Model)
    ensures cs != [] ==>
      Survives(Boolean(cs), m, "") ==
      Both(Survives(cs[0].term, m, cs[0].field), Survives(Boolean(cs[1..]), m, ""))
  {
    if cs != [] {
      assert AllWordsKept(cs) == WordsKept(Boolean(cs));
      assert AllChargesKept(cs, m) == ChargesKept(Boolean(cs), m, "");
      assert AllWordsKept(cs[1..]) == WordsKept(Boolean(cs[1..]));
      assert AllChargesKept(cs[1..], m) == ChargesKept(Boolean(cs[1..]), m, "");
    }
  }

  lemma {:induction false} BooleanRequoted(cs: seq<Clause>, m: Model, field: string, depth: nat)
    ensures Compare(Entries(Requote(Boolean(cs)), m, field, depth), Entries(Boolean(cs), m, field, depth)) ==
            Survives(Boolean(cs), m, field)
    decreases cs, 1
  {
    ClausesRequoted(cs, m, depth);
    ShouldsRequoted(cs, m, depth);
    var count := ShouldCount(Parts(cs, m, depth));
    var e := if count > 0 then [Entry("or_clauses", OrPenalty(count, m))] else [];
    hide AllWordsKept, AllChargesKept, RequoteClauses, ClausesEntries, ShouldCount, Parts, OrPenalty, Keys;
    CompareConcat(ClausesEntries(RequoteClauses(cs), m, depth), e, ClausesEntries(cs, m, depth), e);
  }

  lemma {:induction false} ShouldsRequoted(cs: seq<Clause>, m: Model, depth: nat)
    ensures ShouldCount(Parts(RequoteClauses(cs), m, depth)) == ShouldCount(Parts(cs, m, depth))
  {
    if cs != [] {
      ShouldsRequoted(cs[1..], m, depth);
      assert RequoteClauses(cs)[1..] == RequoteClauses(cs[1..]);
      assert Parts(cs, m, depth)[1..] == Parts(cs[1..], m, depth);
      assert Parts(RequoteClauses(cs), m, depth)[1..] == Parts(RequoteClauses(cs[1..]), m, depth);
    }
  }

  // ---------- costs ----------

  lemma {:induction false} CostKept(n: Node, m: Model, field: string, depth: nat)
    requires ChargesKept(n, m, field)
    ensures Cost(Requote(n), m, field, depth) == Cost(n, m, field, depth)
    decreases n, 0
  {
    match n
    case Nil =>
    case Group(q) => CostKept(q, m, field, depth + 1);
    case Single(c) => CostKept(c.term, m, c.field, depth);
    case Boolean(cs) => PartsKept(cs, m, depth);
    case _ =>
      LeafRequoted(n, m, field, depth);
      assert [LeafEntry(Requote(n), m, field)][0] == [LeafEntry(n, m, field)][0];
  }

  lemma {:induction false} PartsKept(cs: seq<Clause>, m: Model, depth: nat)
    requires AllChargesKept(cs, m)
    ensures Parts(RequoteClauses(cs), m, depth) == Parts(cs, m, depth)
    decreases cs, 0
  {
    if cs != [] {
      CostKept(cs[0].term, m, cs[0].field, depth);
      PartsKept(cs[1..], m, depth);
      assert RequoteClauses(cs)[1..] == RequoteClauses(cs[1..]);
    }
  }

  // ---------- the report of the text ----------

  /** For every query whose neighbours keep apart: what its text reads as is explained alike exactly
      when no word needs quotes, and charged alike exactly when besides escaping changes the number
      of words of no phrase that costs anything; the whole report is then the same. */
  lemma {:induction false} ReportThroughText(n: Node, m: Model)
    requires WfQuery(n) && JoinsQuery(n, true)
    ensures Parse(Print(n)) == Done(Requote(n))
    ensures SummaryOf(Requote(n), m).explanation == SummaryOf(n, m).explanation <==> WordsKept(n)
    ensures Entries(Requote(n), m, "", 0) == Entries(n, m, "", 0) <==> ChargesKept(n, m, "")
    ensures ChargesKept(n, m, "") ==> SummaryOf(Requote(n), m) == SummaryOf(n, m)
  {
    hide Parse, Print, Requote, Entries, Cost, WordsKept, ChargesKept;
    ReadPrinted(n);
    EntriesRequoted(n, m, "", 0);
    if ChargesKept(n, m, "") {
      CostKept(n, m, "", 0);
    }
  }

  // ---------- inputs for which the report changes, and does not ----------

  const SLASHED := MakeTerm("a/b")

  lemma {:induction false} SlashedShape()
    ensures SLASHED == Term("a/b", false, false) && !PlainLeaf(SLASHED) && Escape("a/b") == "a/b"
  {
    var v := "a/b";
    assert ForcesQuotes(v[1]) && !HasWildcard(v);
    assert AllPlain(v);
    hide Escape, HasWildcard, NeedsQuote;
    EscapeFix(v);
  }

  lemma {:induction false} SlashedRead()
    ensures Parse("a/b") == Done(SLASHED)
    ensures WfQuery(SLASHED) && JoinsQuery(SLASHED, true) && Requote(SLASHED) == Phrase("a/b")
  {
    BareWordRead("a/b");
    SlashedShape();
    hide MakeTerm, Parse, EndsEscaped, IsWord, Escape, PlainLeaf;
    var c := Clause(Should, "", SLASHED);
    assert JoinsTerm(SLASHED, true) && !HidesField(c);
    assert JoinsClause(c, true) && [c][1..] == [];
    assert JoinsClauses([c], true);
  }

  lemma {:induction false} SlashedCosts()
    ensures Cost(Term("a/b", false, false), DEFAULT_MODEL, "", 0) == 2.0
    ensures Cost(Phrase("a/b"), DEFAULT_MODEL, "", 0) == 4.0
  {
    var v := "a/b";
    assert FieldWeight(DEFAULT_MODEL, "") == 1.0 && DefaultPenalty(DEFAULT_MODEL, "") == 2.0;
    assert v[0] != '*';
    OneWord(v);
    hide WordCount, FieldWeight, DefaultPenalty;
  }

  /** Under the default model the word a/b is judged at 2; the text forwarded for it reads as a
      phrase, which costs 4, so a limit of 2 passes the query and not its text. */
  lemma {:induction false} QuotedWordDearer()
    ensures
      var (n, m) := (SLASHED, DEFAULT_MODEL);
      Parse("a/b") == Done(n) && Parse(Print(n)) == Done(Phrase("a/b")) &&
      SummaryOf(n, m).cost == 2.0 && SummaryOf(Phrase("a/b"), m).cost == 4.0
  {
    hide Parse, Print, Requote, MakeTerm, Cost, JoinsQuery, WfQuery, SummaryOf;
    SlashedShape();
    SlashedRead();
    SlashedCosts();
    ReadPrinted(SLASHED);
    WholeCosts(SLASHED, DEFAULT_MODEL, 2);
    WholeCosts(Phrase("a/b"), DEFAULT_MODEL, 4);
  }

  const MERGED := Phrase("a\tb")
  const PARTED := Phrase("a \t b")

  lemma {:induction false} TabbedEscapes()
    ensures Escape("a\tb") == "a\\tb" && Escape("a \t b") == "a \\t b"
  {
    hide EscapeByte, Escape;
    EscapeTab("a", "b", "a\tb", "a\\tb");
    EscapeTab("a ", " b", "a \t b", "a \\t b");
  }

  lemma {:induction false} EscapeTab(a: string, b: string, s: string, t: string)
    requires AllPlain(a) && AllPlain(b) && s == a + ("\t" + b) && t == a + ("\\t" + b)
    ensures Escape(s) == t
  {
    if a == "" {
      EscapeFix(b);
      assert s[1..] == b && s[0] == '\t';
      assert EscapeByte(s[0]) == "\\t" && t == "\\t" + b;
    } else {
      assert s[1..] == a[1..] + ("\t" + b) && s[0] == a[0] && IsPlain(a[0]);
      EscapeTab(a[1..], b, s[1..], t[1..]);
      assert t == [a[0]] + t[1..];
    }
  }

  lemma {:induction false} TabbedWords()
    ensures PhraseWords("a\tb") == 2 && PhraseWords("a\\tb") == 1
    ensures PhraseWords("a \t b") == 2 && PhraseWords("a \\t b") == 3
  {
    hide WordCount;
    OneWord("a");
    OneWord("b");
    OneWord("\\t");
    OneWord("a\\tb");
    TwoSides("a", '\t', "b", "a\tb");
    NoWord(' ', "b", " b");
    NoWord('\t', " b", "\t b");
    TwoSides("a", ' ', "\t b", "a \t b");
    TwoSides("\\t", ' ', "b", "\\t b");
    TwoSides("a", ' ', "\\t b", "a \\t b");
  }

  lemma {:induction false} TwoSides(a: string, c: char, b: string, s: string)
    requires IsSpace(c) && s == a + [c] + b
    ensures WordCount(s) == WordCount(a) + WordCount(b)
  {
    WordsAdd(a, c, b, false);
  }

  lemma {:induction false} NoWord(c: char, b: string, s: string)
    requires IsSpace(c) && s == [c] + b
    ensures WordCount(s) == WordCount(b)
  {
    assert s[1..] == b;
  }

  lemma {:induction false} OneWord(v: string)
    requires v != "" && forall i :: 0 <= i < |v| ==> !IsSpace(v[i])
    ensures WordCount(v) == 1
  {
    WordsAdd(v, ' ', "", false);
  }

  /** The sums alone count in the breakdown. */
  lemma {:induction false} PostedSums(a: Entry, b: Entry, c: Entry, d: Entry, e: Entry)
    requires a.key == b.key == c.key == d.key && a.amount + b.amount == c.amount + d.amount
    ensures PostAll(map[], [a, b, e]) == PostAll(map[], [c, d, e])
  {
    assert [a, b, e][1..] == [b, e] && [b, e][1..] == [e] && [e][1..] == [];
    assert [c, d, e][1..] == [d, e] && [d, e][1..] == [e];
    assert Post(Post(map[], a), b) == map[a.key := a.amount + b.amount];
    assert Post(Post(map[], c), d) == map[a.key := c.amount + d.amount];
  }

  /** Two phrases, both optional. */
  function TwoPhrases(v: string, w: string): Node {
    Boolean([Clause(Should, "", Phrase(v)), Clause(Should, "", Phrase(w))])
  }

  /** What two phrases are charged under the default model: four for every word, and three for
      each of them. */
  lemma {:induction false} TwoPhrasesReport(v: string, w: string, m: Model)
    requires m == DEFAULT_MODEL
    ensures
      var (x, y) := (4.0 * PhraseWords(v) as real, 4.0 * PhraseWords(w) as real);
      Cost(TwoPhrases(v, w), m, "", 0) == x + y + 6.0 &&
      Entries(TwoPhrases(v, w), m, "", 0) == [Entry("phrase", x), Entry("phrase", y), Entry("or_clauses", 6.0)]
  {
    var (a, b) := (Clause(Should, "", Phrase(v)), Clause(Should, "", Phrase(w)));
    PhraseCharge(a, v, m);
    PhraseCharge(b, w, m);
    DefaultNonNegative();
    assert m.orClauseCost == 3.0;
    hide PhraseWords, ClauseEntries, ClauseCost, Cost, NonNegativeModel, Entries;
    PairCosts(a, b, m, "", 0);
    OptionalEntries(a, b, m);
  }

  lemma {:induction false} OptionalEntries(a: Clause, b: Clause, m: Model)
    requires a.occur == Should && b.occur == Should && m.orClauseCost == 3.0
    ensures Entries(Boolean([a, b]), m, "", 0) ==
            ClauseEntries(a, m, 0) + ClauseEntries(b, m, 0) + [Entry("or_clauses", 6.0)]
  {
    var cs := [a, b];
    assert cs[1..] == [b] && [b][1..] == [];
    assert ShouldCount(Parts(cs, m, 0)) == 2 by {
      hide ClauseCost, ClauseEntries, Entries;
      var ps := Parts(cs, m, 0);
      assert ps[1..] == Parts([b], m, 0) && ps[1..][1..] == [];
      assert ShouldCount(ps[1..]) == 1;
    }
    hide ClauseEntries, Parts, ShouldCount;
    assert ClausesEntries([b], m, 0) == ClauseEntries(b, m, 0) + [];
    assert ClausesEntries(cs, m, 0) == ClauseEntries(a, m, 0) + ClauseEntries(b, m, 0);
  }

  lemma {:induction false} PhraseCharge(c: Clause, v: string, m: Model)
    requires m == DEFAULT_MODEL && c == Clause(Should, "", Phrase(v))
    ensures
      var x := 4.0 * PhraseWords(v) as real;
      ClauseCost(c, m, 0) == x && ClauseEntries(c, m, 0) == [Entry("phrase", x)]
  {
    hide PhraseWords;
    assert ClauseEntries(c, m, 0) == Entries(c.term, m, "", 0) + [];
  }

  /** The phrases a TAB b and a SPACE TAB SPACE b have two words each; quoting makes them one and
      three. The charges change, and the report, which only adds them up, does not. */
  lemma {:induction false} ChangesCancel()
    ensures
      var (n, m) := (TwoPhrases(MERGED.value, PARTED.value), DEFAULT_MODEL);
      SummaryOf(Requote(n), m) == SummaryOf(n, m) && Entries(Requote(n), m, "", 0) != Entries(n, m, "", 0)
  {
    TabbedWords();
    TabbedEscapes();
    var (v, w, m) := (MERGED.value, PARTED.value, DEFAULT_MODEL);
    TwoRequoted(v, w);
    hide PhraseWords, Escape, Requote, Cost, Entries, TwoPhrases, SummaryOf;
    TwoPhrasesReport(v, w, m);
    TwoPhrasesReport("a\\tb", "a \\t b", m);
    SameSums(TwoPhrases(v, w), TwoPhrases("a\\tb", "a \\t b"), m);
  }

  lemma {:induction false} SameSums(a: Node, b: Node, m: Model)
    requires Entries(a, m, "", 0) == [Entry("phrase", 8.0), Entry("phrase", 8.0), Entry("or_clauses", 6.0)]
    requires Entries(b, m, "", 0) == [Entry("phrase", 4.0), Entry("phrase", 12.0), Entry("or_clauses", 6.0)]
    requires Cost(a, m, "", 0) == Cost(b, m, "", 0)
    ensures SummaryOf(a, m) == SummaryOf(b, m) && Entries(a, m, "", 0) != Entries(b, m, "", 0)
  {
    assert Entries(a, m, "", 0)[0].amount == 8.0 && Entries(b, m, "", 0)[0].amount == 4.0;
    PostedSums(Entry("phrase", 8.0), Entry("phrase", 8.0), Entry("phrase", 4.0), Entry("phrase", 12.0),
               Entry("or_clauses", 6.0));
    hide PostAll, Entries, Cost;
  }

  lemma {:induction false} TwoRequoted(v: string, w: string)
    ensures Requote(TwoPhrases(v, w)) == TwoPhrases(Escape(v), Escape(w))
  {
    hide Escape, PhraseWords;
    var (a, b) := (Clause(Should, "", Phrase(v)), Clause(Should, "", Phrase(w)));
    var cs := [a, b];
    assert cs[1..] == [b] && [b][1..] == [];
    assert RequoteClauses([b]) == [RequoteClause(b)];
    assert RequoteClauses(cs) == [RequoteClause(a)] + RequoteClauses([b]);
    assert [RequoteClause(a)] + [RequoteClause(b)] == [RequoteClause(a), RequoteClause(b)];
    assert Requote(a.term) == Phrase(Escape(v)) && Requote(b.term) == Phrase(Escape(w));
  }
}
