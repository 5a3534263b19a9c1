# es-querycost, verified

es-querycost stands between clients and an Elasticsearch cluster. It parses a Lucene-style query,
estimates what it would cost, checks it against the rules of the client's plan, and forwards the
query's syntax tree printed back as text, if need be with a date window injected. This project
models that pipeline and the hot reload of its configuration in Dafny, and proves what the
pipeline relies on:

- the printed text means the tree that was judged, and costs what it was judged at (exactly when,
  in which cases not);
- the cost and its itemised report are sound and bounded, extending a query never lowers its cost,
  and removing from it or reordering it moves the cost exactly as stated;
- the window and feature rules decide what they are meant to decide;
- what is forwarded has passed the window rule of its plan, and an injected window binds every
  document the forwarded text matches, whatever the query beside it holds; a window of the query's
  own binds them when it is required, and need not otherwise;
- until the watcher is cancelled, every write it is told of is looked for by a load at or after it,
  and reaches the server exactly when such a load finds a usable configuration that the server
  takes; no load tries again;
- when each authenticator is closed: exactly once if the watcher is cancelled before the server is
  closed, not so in the other order.

`dafny verify dfyconfig.toml` checks the whole project.

## Layout

| file | contents |
|---|---|
| `Text.dfy`, `Ast.dfy` | bytes and white space; syntax trees |
| `Grammar.dfy`, `Parser.dfy` | the query language as functions; the cursor-moving parser that refines them |
| `Printer.dfy`, `Quoting.dfy` | printing a tree, quoting and its inverse |
| `NormalForm.dfy`, `Conservation.dfy` | the shape of parse results; what happens to every byte read |
| `CanonicalForm.dfy`, `RoundTrip.dfy`, `PrintedWeight.dfy`, `ExactRoundTrip.dfy` | which trees survive printing and reading, in both directions |
| `Spelling.dfy` | byte by byte: where tokens end, what makes a pattern, what is quoted and how |
| `Operators.dfy`, `Samples.dfy` | AND, OR and juxtaposition, from text to resolved clauses; clauses used as examples |
| `Brackets.dfy`, `Embedding.dfy` | where a parenthesis closes; a query reads alike inside parentheses and alone |
| `CostModel.dfy`, `Estimator.dfy`, `Prices.dfy` | the cost functions; the estimator that posts to a mutable report; the default prices in numbers |
| `Sequences.dfy`, `BooleanBounds.dfy`, `CostLaws.dfy`, `ClauseOrder.dfy`, `RemovalLaws.dfy` | what adding, reordering and removing clauses does to the cost |
| `ReportLaws.dfy`, `CostByLength.dfy` | what the report shows; the cost of a text by its length |
| `QuotedReport.dfy` | the report of what a printed text reads as |
| `DateMath.dfy`, `DateBounds.dfy`, `Rules.dfy`, `WindowSearch.dfy`, `RuleLaws.dfy` | date math, the rules, what they deny |
| `Documents.dfy`, `Gate.dfy` | what queries match; configuration, injection and the whole gate |
| `InjectionLaws.dfy`, `InjectionCost.dfy` | the injected window: its text, what it matches, what it costs |
| `TextWindow.dfy` | the ranges and the window of a printed text |
| `GateLaws.dfy`, `ForwardedText.dfy` | what is forwarded, as a tree and as a reader of the text gets it |
| `Responses.dfy` | the gate's whole answer, and what a configuration leaves to be taken for granted |
| `Server.dfy`, `Reload.dfy`, `LoadHistory.dfy` | authenticators; watcher, loads, cancellation and server as one interleaved machine; what each load has done, told from the steps alone |

## How the pieces fit

**Parsing.** The grammar functions take the text still to be read and return a tree and the text
left over. Every method of the class `Parser` is proved to return what its grammar function returns
and to leave the cursor where that function stops. `ParseBoolean` patches the previous clause in
place when it meets an AND; its grammar function reads a plain list of items and resolves it
afterwards by looking at neighbours.

**Round trip.** `CanonicalForm.Canonical` is a syntactic condition on a tree: every leaf prints
without added quotes or escapes, no clause after the first begins with the letters of AND or OR,
no bare NOT stands before another clause, no clause without a field hides an escaped colon, and
only the end of the text follows a dangling backslash. For every tree the parser can return,
printing and reading gives the same tree **if and only if** it is canonical. The hard direction
weighs bytes: the parser keeps every quote and backslash, so a tree that comes back unchanged
gained none in printing; and every operator word takes an N or an R away, so none was read.
A tree that need not be plain comes back with the same clauses, signs, fields and groups, only its
quoting changed, **if and only if** its neighbours keep apart (`ExactRoundTrip.ShapeExactly`).

**Parentheses.** `Brackets.PassOver` finds the parenthesis that closes the one a text stands in,
and the ranges on the way, by looking at escapes, quotes and brackets alone. Whatever a reader makes
of a text, a query it reads ends there and has those ranges (`Brackets.QueryCloses`): operators and
field names take letters away, never a bracket, a quote or a backslash. So the injected text always reads as the group of what the query's own
text reads as, and the window, both required, or does not read at all, which it does exactly when
the query's own text reads and no dangling backslash takes a parenthesis
(`InjectionLaws.QueryStaysInside`). No condition on the query's neighbours is needed for that, nor
for the ranges of a printed tree to come back in their order (`TextWindow.RangesSurvive`); only
which of them is first on a date field can change.

**Spelling.** The grammar and the printer are defined by small predicates on bytes. `Spelling` says
what follows for a text, with the bytes written out: where words, fields and bounds end, which words
are patterns and prefixes, what every text of one byte is read as, which words are printed in quotes
and what each byte becomes there.

**Costs.** Two passes over the tree, one for the amount and one for the charges, specify the single
pass of the estimator. The order of clauses matters to the amount; `ClauseOrder` says by how much.
Removing a clause does not raise the cost while two clauses stay beside each other; from a pair it
can, because the one that is left is no Boolean any more (`RemovalLaws`). What a removal from a pair
must cover is a table by the signs of the two clauses (`RemovalLaws.Covers`), and what a leaf costs
more on a field than where none is searched is another by its kind (`RemovalLaws.LeafShift`).
A printed text is charged as the tree was exactly when no word needs quotes and escaping changes the
words of no phrase that costs anything (`QuotedReport`).

**Gate.** `Gate.Handle` is one request under one configuration, judged at one time and completed at
a later one. Its laws about injection need the plan's window to be readable, and readable after
`now-`, and the injected field to be one of the date fields; those about the injected text need
window and field to be such as can be written in a query, which for a readable window means without
white space (`InjectionLaws.WindowIsBound`). They leave out the one instant at which a bound of the
injected window would be the zero time, which the code takes for a missing bound.

**Reload.** `Reload.State` holds the watcher's shared flags, its lock, all loader goroutines, the
caller of cancel and the server. Steps are as fine as the atomic operations of the code. A load ends
with a fate: cancelled before it looked, no file, no configuration in it, refused by the server, or
stored. All statements are about every sequence of enabled steps. `LoadHistory` tells the same from
the sequence alone: the steps of a load are the beginning of one of six lives, and a load can take
exactly the steps that go on with one.

## Where the code differs from what is said of it

The model follows the code. The differences found:

- The repository's README says the original request is proxied unchanged. The code forwards the
  printed syntax tree (internal/proxy/proxy.go:244, internal/proxy/proxy.go:442-483).
- It also says a window is injected if one is required. The code injects when none is required
  and none is found (internal/proxy/proxy.go:443-449).
- A lone clause without a field loses its sign, so `-foo` and `NOT foo` are read, judged and
  forwarded as `foo` and match exactly the documents they were written to exclude
  (internal/query/parser.go:99-105; `Operators.LoneClause`, `ForwardedText.LoneExclusionInverted`).
- AND makes both its neighbours required even where one is written to be excluded, as in
  `a AND NOT b` (internal/query/parser.go:74-79; `Operators.AndOverridesExclusion`).
- The letters of an operator at the head of a clause are read as the operator when the printed
  tree is read again, so the forwarded text can name another field than the tree that was judged,
  and have a window longer than its plan allows (internal/query/parser.go:88-97,
  internal/proxy/proxy.go:478-483; `ForwardedText.OperatorEatsField`). It cannot while the first
  range on a date field stays the first (`ForwardedText.ForwardedTextInsideLimit`), as it does where
  neighbours keep apart (`TextWindow.ApartKeepsDates`).
- A word with a byte such as a slash is judged as a term and forwarded in quotes, so its text reads
  as a phrase: under the default model `a/b` is judged at 2 and costs 4 as forwarded
  (internal/query/ast.go:86-111, internal/cost/cost.go:168-175; `QuotedReport.QuotedWordDearer`).
  Escaping a tab or a line end in a phrase can change its number of words as well
  (`QuotedReport.ChangesCancel`).
- The repository's README says each plan has a maximum query window (README.md:334-341). The rule
  looks at the first range on a date field wherever it stands, so an optional range satisfies it
  and binds no document, and an excluded one keeps out just the documents inside its window
  (internal/rules/rules.go:107-135; `ForwardedText.OptionalWindow`, `ForwardedText.NotRequired`).
  A required one, and an injected one, binds them all (`GateLaws.MatchesInsideLimit`,
  `InjectionLaws.InjectedTextInside`).
- Removing a clause can raise the cost and turn a pass into a denial: `-*foo cheap` costs 12.2
  under the default model, `-*foo` is the query `*foo` and costs 70
  (internal/query/parser.go:99-105, internal/cost/cost.go:105-121; `RemovalLaws.RemovalDenied`).
- An injected window is not judged: the query that is forwarded costs the charge for a group more
  than the one that was judged, and can exceed the limit (`InjectionCost.InjectedThenDenied`).
- Forbidding `leading_wildcard` lets the same pattern pass on fields that end in `.keyword`
  (internal/cost/cost.go:151-162; `RuleLaws.KeywordFieldEscapes`).
- A window such as `30 d` is a duration to the rule but cannot be injected
  (`InjectionLaws.SpacedWindow`); a query ending in a lone backslash survives printing but not
  injection (`InjectionLaws.DanglingBackslash`).
- The repository's README says metrics are protected by the configured authenticator
  (README.md:308-309). The route keeps the one configured at the start, which the first reload
  closes (internal/proxy/proxy.go:165-180, internal/proxy/proxy.go:656-665;
  `Reload.HeldThenClosed`).
- The repository's README says a configuration file is reloaded while the program runs
  (README.md:382-389). A load that cannot read the file gives up, and nothing tries again until
  the next write, so the change can stay out of force for good (internal/config/watcher.go:35-38;
  `Reload.MissedForGood`).
- On a signal the server is closed before the watcher is cancelled (cmd/es-querycost/main.go:51,
  cmd/es-querycost/main.go:84-91); a reload under way then closes one authenticator twice and
  leaves the next one open (`Reload.CloseThenReload`). In the other order every one is closed
  exactly once (`Reload.CancelThenClose`).

## Model

| member | source | states |
|---|---|---|
| `Parser.Parse` | internal/query/parser.go:10-25 | the parser returns what the grammar gives, NUL and end of text alike ending the query |
| `Parser.Parser.SkipSpace` | internal/query/parser.go:50-59 | the cursor moves past blanks and no further |
| `Parser.Parser.ParseBoolean` | internal/query/parser.go:61-107 | the loop that patches the previous clause in place returns the items read, resolved by looking at both neighbours |
| `Parser.ResolveAppend` | internal/query/parser.go:74-80 | one more item changes earlier clauses only at the last one, and only through AND |
| `Parser.Parser.ParseClause` | internal/query/parser.go:117-144 | sign, optional field and term are read as the grammar says |
| `Parser.Parser.ParseField` | internal/query/parser.go:146-162 | a field is taken when a colon ends it, otherwise the cursor is put back |
| `Parser.Parser.ParseTerm` | internal/query/parser.go:164-181 | the first byte decides the kind of term |
| `Parser.Parser.ParsePhrase` | internal/query/parser.go:183-200 | the phrase ends at the first unescaped quote |
| `Parser.Parser.ParseRange` | internal/query/parser.go:202-225 | bounds, TO and the matching bracket, with each error in its place |
| `Parser.Parser.ParseRangeToken` | internal/query/parser.go:227-240 | the bound is the longest run of bytes that can stand in one |
| `Parser.Parser.ParseGroup` | internal/query/parser.go:242-253 | a group is a query between parentheses |
| `Parser.Parser.ParseWord` | internal/query/parser.go:255-285 | escape-aware words and their wildcard flags |
| `Spelling.PatternsTold` | internal/query/parser.go:280-285 | every word of every query that can be read is a pattern exactly when a star or a question mark is in it, and a prefix exactly when it is a word without either and a star |
| `Spelling.BareWord` | internal/query/parser.go:255-285 | a text without white space, NUL, backslash and the ten special bytes reads as one word, its flags told likewise |
| `Spelling.WordSpelled` | internal/query/parser.go:255-285 | a word takes in every byte up to white space, NUL or a special byte, and any byte but NUL behind a backslash |
| `Spelling.FieldSpelled` | internal/query/parser.go:117-162 | a name of such bytes before a colon is the field of the clause, the word behind it its term |
| `Spelling.RangeSpelled` | internal/query/parser.go:202-240 | bounds take in every byte but white space, NUL and closing brackets; the word between them is read in any case |
| `Spelling.CutRange` | internal/query/parser.go:227-240 | at the end of the text the letters of TO end a bound, and the next one is missing |
| `Spelling.OperatorSpelled` | internal/query/parser.go:88-97 | an operator is read wherever the letters of AND or OR come next, in any case, whatever follows |
| `Spelling.SignSpelled` | internal/query/parser.go:117-131 | plus, minus, and the letters of NOT in any case and a blank |
| `Spelling.OneByte` | internal/query/parser.go:10-287 | what each text of one byte is read as, with the error where it is none |
| `Operators.OperatorsRead` | internal/query/parser.go:61-107 | clauses with any blanks and operators between them, in any case, even an operator after the last, read as the query in which AND requires both neighbours and every other clause is as written; one clause alone is collapsed |
| `Operators.LoneClause` | internal/query/parser.go:99-105 | a clause alone reads as itself exactly when it is optional or names a field, and as its term, without its sign, otherwise |
| `Operators.NotIsMinus` | internal/query/parser.go:117-131 | before any clause the word NOT and a space read as a minus sign does |
| `Operators.AndOverridesExclusion` | internal/query/parser.go:74-79 | AND makes an excluded clause required |
| `NormalForm.ParseForm` | internal/query/parser.go:34-285 | whatever the text, only well-formed trees: Booleans of no or at least two clauses, clause bodies leaves or groups, ranges with equal given ends |
| `Conservation.TermWeighs` | internal/query/parser.go:164-285 | no tree weighs more than the text it was read from; quotes and backslashes are all kept |
| `Conservation.ParseWeighs` | internal/query/parser.go:10-285 | the same for whole texts: length, operator letters, bytes outside ASCII |
| `Conservation.ParseKeepsEscapes` | internal/query/parser.go:10-285 | every quote and backslash of a text without NUL is in its tree, no more and no fewer |
| `Printer.NodeString` | internal/query/ast.go:24-164 | the printing code prints what the print function says, the parts joined by spaces |
| `Printer.ClauseString` | internal/query/ast.go:45-61 | sign, field and term of a clause |
| `Printer.ScanForQuote` | internal/query/ast.go:95-111 | the scan answers whether the value is empty or holds a byte that forces quotes |
| `Spelling.WordPrinted` | internal/query/ast.go:86-111 | a word that is no pattern prints as it is exactly when it is not empty and without white space and the eighteen bytes that force quotes, and in quotes otherwise |
| `Spelling.ByteQuoted` | internal/query/ast.go:86-120 | what each byte becomes in quotes |
| `Quoting.QuoteDelimits` | internal/query/ast.go:86-120 | any quoted value followed by any text is read as one phrase ending at its own quote, and unescapes to the value |
| `CanonicalForm.RequoteFix` | internal/query/ast.go:86-120 | printing leaves a tree's leaves as they are exactly when all are plain |
| `RoundTrip.TermRead` | internal/query/parser.go:164-285 | a printed term followed by the end, a blank or a parenthesis is consumed exactly |
| `RoundTrip.QueryRead` | internal/query/parser.go:61-107 | a printed query followed by the end or a parenthesis is consumed exactly, only its quoting changed |
| `ExactRoundTrip.ShapeExactly` | internal/query/ast.go:24-164 | for every well-formed tree: its text reads back with the same clauses, signs, fields and groups, only its quoting changed, if and only if its neighbours keep apart |
| `RoundTrip.RoundTrip` | internal/query/parser.go:10-285 | canonical trees survive printing and reading |
| `ExactRoundTrip.RoundTripExactly` | internal/query/parser.go:10-285 | for every well-formed tree, printing and reading gives it back if and only if it is canonical |
| `Brackets.QueryCloses` | internal/query/parser.go:61-107 | whatever the text, a query read from it ends at the end or at the parenthesis that closes the one it stands in, as escapes, quotes and brackets decide, and its ranges are those passed over on the way |
| `Brackets.PrintedCloses` | internal/query/ast.go:24-164 | the parentheses of every printed tree balance, except for those a dangling backslash protects, and its ranges stand in the text in their order |
| `Embedding.QueryInside` | internal/query/parser.go:242-253 | a query read up to a closing parenthesis is read alike, to the same place, when the text ends there |
| `Embedding.QueryOutside` | internal/query/parser.go:242-253 | and a query read from a text that ends is read alike before a closing parenthesis that no backslash takes away |
| `Estimator.Estimate` | internal/cost/cost.go:62-71 | the report's cost, breakdown and explanation are those the cost functions give |
| `Estimator.EstimateNode` | internal/cost/cost.go:73-92 | the walk returns the cost and posts exactly the charges of the node |
| `Estimator.EstimateClause` | internal/cost/cost.go:94-103 | the clause's cost, with the charge for excluding |
| `Estimator.EstimateBoolean` | internal/cost/cost.go:105-130 | the running totals of the loop end at the fold over all clauses |
| `Estimator.EstimateTerm` | internal/cost/cost.go:132-166 | one charge under the name the wildcards and the field give it |
| `Estimator.EstimatePhrase` | internal/cost/cost.go:168-181 | one charge by the number of words |
| `Estimator.EstimateRange` | internal/cost/cost.go:183-196 | one charge, open ranges apart |
| `Estimator.Report.Add` | internal/cost/cost.go:198-201 | the amount is added under its key and the key listed |
| `Prices.WordPrice` | internal/cost/cost.go:132-166 | the default price and the name of the charge for every word on every field |
| `Prices.PhrasePrice` | internal/cost/cost.go:168-181 | the same for phrases, by the number of words |
| `Prices.RangePrice` | internal/cost/cost.go:183-196 | the same for ranges, those with both ends open apart |
| `Prices.Surcharges` | internal/cost/cost.go:73-130 | what groups, excluded clauses and optional clauses add, and under which names |
| `Prices.RoundedCost` | internal/cost/cost.go:217-220 | costs are rounded to the nearest hundredth, halves upwards |
| `ClauseOrder.CostBetween` | internal/cost/cost.go:105-130 | for every list of clauses: required and excluded ones cost at least the larger of the dearest and the tenths, at most their sum |
| `ClauseOrder.BoundsReached` | internal/cost/cost.go:105-130 | two reorderings of the same clauses reach both bounds |
| `ClauseOrder.OrderMatters` | internal/cost/cost.go:105-130 | reordering clauses moves the cost by at most the smaller of the two, and some reordering by just that |
| `CostLaws.CostNonNegative` | internal/cost/cost.go:73-196 | no cost is negative under a model without negative amounts |
| `CostLaws.CostMonotone` | internal/cost/cost.go:73-130 | inserting clauses or making subtrees dearer, at any depth, never lowers the cost |
| `CostLaws.ReportMonotone` | internal/cost/cost.go:62-71 | nor the rounded cost of the report |
| `CostModel.RoundIsNearest` | internal/cost/cost.go:218-220 | rounding moves a cost by at most half a hundredth |
| `CostModel.WordsAdd` | internal/cost/cost.go:171-174 | words of a phrase are the runs between white space of any kind |
| `RemovalLaws.RemoveForm` | internal/query/parser.go:99-106 | a query with a clause removed, collapsed as the parser does, is again one the parser can return |
| `RemovalLaws.PairRemoval` | internal/cost/cost.go:73-130 | removing one of two clauses leaves a query no dearer exactly when what the clause removed brought to the pair, by sign and order, covers what the survivor costs more alone |
| `RemovalLaws.ExcludedAlone` | internal/cost/cost.go:94-121 | for an excluded survivor with a field: exactly when nine tenths of it are covered by the clause removed, by sign and order |
| `RemovalLaws.BareExcludedAlone` | internal/cost/cost.go:94-121 | for an excluded survivor without a field where none is searched: the same against the cost of its term, a tenth of the charge for excluding added |
| `RemovalLaws.KeptAlone` | internal/cost/cost.go:94-121 | a survivor that is not excluded, and names a field or stands where none is searched, never costs more alone |
| `RemovalLaws.LeafAlone` | internal/cost/cost.go:132-196 | for a leaf left in a group on a field: exactly when the clause removed brought as much as the leaf costs more on that field than where none is searched, by kind of leaf |
| `RemovalLaws.LightFieldAllows` | internal/cost/cost.go:132-196 | where the field weighs no more than the default field is penalised, no leaf left so costs more, patterns on keyword fields and ranges open at both ends apart |
| `RemovalLaws.RemoveNeverDearer` | internal/cost/cost.go:62-130 | removing a clause anywhere does not raise the rounded cost while two are left beside each other or the pair allows it |
| `RemovalLaws.RemoveExactly` | internal/cost/cost.go:105-130 | for the clauses of the query itself that condition is exact |
| `RemovalLaws.RemovalDenied` | internal/cost/cost.go:36-52 | -*foo cheap costs 12.2 and passes a limit of 50; -*foo reads as *foo, costs 70 and is denied |
| `RemovalLaws.GroupRemovalDearer` | internal/cost/cost.go:81-88 | on a field of weight 20 a group of two words costs 220 and of one 420 |
| `RemovalLaws.RemovalStillPasses` | internal/rules/rules.go:35-45 | such a removal never turns a pass of the cost limit into a denial |
| `ReportLaws.ReportCovers` | internal/cost/cost.go:73-201 | with light fields the cost of a node is at most the growth of the breakdown's total |
| `ReportLaws.BreakdownExplained` | internal/cost/cost.go:198-201 | the breakdown's keys are exactly the explanation's entries |
| `ReportLaws.FeatureCharged` | internal/cost/cost.go:73-201 | a feature has a positive amount exactly when some leaf, at any depth and under any sign, is charged for it |
| `QuotedReport.ReportThroughText` | internal/cost/cost.go:62-71 | for every query whose neighbours keep apart: what its text reads as is explained alike exactly when no word needs quotes, and charged alike exactly when besides escaping changes the words of no phrase that costs anything; then the whole report is the same |
| `QuotedReport.QuotedWordDearer` | internal/cost/cost.go:168-179 | a/b is judged at 2 and its text reads as a phrase that costs 4 |
| `QuotedReport.ChangesCancel` | internal/query/ast.go:117-120 | two phrases whose charges change with their text while the report does not: the exact condition is one on the charges |
| `CostByLength.CostByTextLength` | internal/cost/cost.go:73-196 | the cost of a text is at most linear in its bytes plus the depth cost times a quadratic term |
| `CostByLength.TreeByTextLength` | internal/query/parser.go:34-285 | the tree of a text of n bytes has at most 2n + 1 nodes and n / 2 groups |
| `RuleLaws.MatchAllDenied` | internal/rules/rules.go:54-61 | match_all is denied exactly when a bare star stands anywhere |
| `RuleLaws.OpenRangeDenied` | internal/rules/rules.go:54-61 | open_range is denied exactly when some range anywhere has a star or nothing at both ends |
| `RuleLaws.LeadingWildcardDenied` | internal/rules/rules.go:54-61 | leading_wildcard is denied exactly when a word that begins with a star or a question mark, the bare star apart, stands on a field that does not end in .keyword |
| `RuleLaws.KeywordFieldEscapes` | internal/cost/cost.go:151-162 | the same pattern passes on a keyword field |
| `Rules.EvaluatePasses` | internal/rules/rules.go:159-166 | the engine passes a query exactly when every rule does |
| `DateMath.LengthTruncates` | internal/datemath/datemath.go:137-155 | a duration is never longer than written, and shorter by less than a unit, or an hour for days and more |
| `DateMath.LengthMonotone` | internal/datemath/datemath.go:137-155 | larger amounts are never shorter |
| `DateMath.RelativeWindow` | internal/datemath/datemath.go:61-129 | for every plan window W: the range from now-W to now is exactly as long as W, at any time, if the white space before its amount is such as the patterns skip, and unreadable otherwise |
| `DateMath.WindowAhead` | internal/datemath/datemath.go:61-110 | for every duration W: the range from now to now+W is exactly as long as W, under the same condition, and unreadable otherwise |
| `DateMath.WindowAround` | internal/datemath/datemath.go:61-110 | the range from now-A to now+B is exactly as long as A and B together |
| `DateBounds.RoundingIgnored` | internal/datemath/datemath.go:20-26 | a rounding mark behind a duration is ignored if it names one of six units, and makes the bound unreadable otherwise |
| `DateBounds.NowRounded` | internal/datemath/datemath.go:20-30 | the same for the word now alone |
| `DateBounds.CapitalNow` | internal/datemath/datemath.go:32-36 | now in capitals is neither read as the word nor tried as an absolute date |
| `DateBounds.AbsoluteDate` | internal/datemath/datemath.go:14-53 | any other text is left to the layouts, without rounding marks wherever they stand |
| `DateBounds.NoDate` | internal/datemath/datemath.go:111-129 | a star and nothing are no dates, and as an end of a range leave it open |
| `DateBounds.WholeSpan` | internal/datemath/datemath.go:131-155 | digits and a unit are a duration of that many units, in nanoseconds; white space may stand around it, and between the two if it is of the five kinds the patterns skip |
| `DateBounds.BoundSpelled` | internal/datemath/datemath.go:56-102 | behind now and a sign such a duration makes a bound, earlier for minus and later for plus; white space of those kinds may stand before and after the sign |
| `DateBounds.DecimalSpan` | internal/datemath/datemath.go:131-155 | with a point between digits the amount is all of them over a power of ten for each behind the point |
| `DateMath.ReadableAtAnyTime` | internal/datemath/datemath.go:111-129 | whether bounds can be read does not depend on the time |
| `WindowSearch.SearchIsScan` | internal/rules/rules.go:107-135 | the recursive search finds what a scan of all ranges from left to right finds |
| `WindowSearch.SearchAtAnyTime` | internal/rules/rules.go:107-135 | failing and finding do not depend on the time |
| `WindowSearch.FailureFound` | internal/rules/rules.go:107-135 | where a bound cannot be read the search reports a find only if the query is one range on a date field, in whatever groups |
| `Gate.BuildEngine` | internal/config/config.go:459-484 | filling the maps plan by plan, in any order, builds the three rules |
| `InjectionLaws.PlanWindowsAgree` | internal/config/config.go:459-492 | the window injected for a plan is as long as its rule allows |
| `Responses.InjectedSpelled` | internal/proxy/proxy.go:450-474 | the injected text written out, with the time stamp and 30 days where field and window are not configured |
| `Responses.NothingInjected` | internal/proxy/proxy.go:443-445 | nothing is injected where a window is required |
| `GateLaws.EnginePasses` | internal/rules/rules.go:35-105 | a tree passes exactly when it shows no forbidden feature, costs no more than the plan allows and has an allowed window |
| `GateLaws.ForwardedExactly` | internal/proxy/proxy.go:389-403 | under the default features, a query is forwarded exactly when it has no bare star, no range open at both ends, an affordable cost and an allowed window |
| `GateLaws.FeaturesDenied` | internal/rules/rules.go:54-61 | the answer to a query with a bare star or a range open at both ends, whatever its cost and window |
| `GateLaws.OpenPriceDenied` | internal/cost/cost.go:185-188 | price:[* TO *] is denied for its open range |
| `Responses.ResponseExactly` | internal/proxy/proxy.go:371-411 | the whole answer under the default features: the reason that comes first, or the text that is sent |
| `Responses.ExplanationJudged` | internal/proxy/proxy.go:429-440 | a query only the validator reads is answered as its explanation would be, and is invalid if that cannot be read |
| `Responses.ReadQueryValid` | internal/proxy/proxy.go:413-427 | a query the local parser reads is invalid only if a remote validator does not accept it |
| `Responses.UnknownPlan` | internal/config/config.go:459-492 | a plan that is not configured is answered as one with a limit of 100 and a window of 30 days |
| `GateLaws.ValidatorOnlyRefuses` | internal/proxy/proxy.go:413-440 | for a query the local parser understands the remote validator can only refuse: otherwise the response is the one without a validator, whatever explanation it returns |
| `InjectionLaws.InjectedTextReadsBack` | internal/proxy/proxy.go:442-475 | the injected text reads back as query and window, both required, if and only if field and window can be written down and the query survives inside parentheses |
| `InjectionLaws.InjectedShape` | internal/proxy/proxy.go:442-475 | it reads as the judged query with its quoting applied, and the window, if and only if the query's neighbours keep apart |
| `InjectionLaws.QueryStaysInside` | internal/proxy/proxy.go:457-474 | for every query: the injected text reads as the group of what the query's own text reads as, and the window, both required; it reads at all exactly when the query's own text does and no backslash of it takes a parenthesis |
| `InjectionLaws.InjectedTextInside` | internal/proxy/proxy.go:457-474 | so the documents the injected text matches are those the query's own text matches that lie in the plan's window |
| `InjectionLaws.InjectedMeans` | internal/proxy/proxy.go:459-474 | the injected query matches precisely the query's documents inside the window |
| `InjectionCost.InjectedCost` | internal/proxy/proxy.go:459-474 | the injected query costs the dearer of the judged query one level deeper in its group and the range of the window |
| `InjectionCost.InjectedDearer` | internal/cost/cost.go:81-84 | it is dearer than the query judged by the charge for a group at least |
| `InjectionCost.InjectedPassesCost` | internal/rules/rules.go:35-45 | judged again it passes the cost limit exactly when the deeper query and the range both do |
| `InjectionCost.InjectedThenDenied` | internal/cost/cost.go:36-52 | a word that a limit of 2 allows costs 5 with its window |
| `InjectionLaws.InjectionSettles` | internal/proxy/proxy.go:446-474 | the injected query passes its plan's window rule with a window as long as the limit, and nothing is injected again |
| `InjectionLaws.InjectionSettlesAsText` | internal/proxy/proxy.go:442-475 | the same for a reader of the forwarded text, where the query's neighbours keep apart |
| `GateLaws.ForwardedInsideLimit` | internal/proxy/proxy.go:229-244 | the text forwarded is that of the judged tree when a window is required or found, of the injected one otherwise, and that tree has a bounded window inside the plan's limit |
| `InjectionLaws.RequoteKeepsWindow` | internal/rules/rules.go:107-135 | quoting moves no window |
| `TextWindow.RangesSurvive` | internal/query/ast.go:24-164 | whatever its neighbours: what a printed text reads as has the ranges of the tree, in their order |
| `TextWindow.WindowThroughText` | internal/rules/rules.go:107-135 | what a printed text reads as has the window of the tree, whenever the first range on a date field is the same |
| `TextWindow.ApartKeepsDates` | internal/query/parser.go:61-107 | and so it does where neighbours keep apart |
| `ForwardedText.ForwardedTextInsideLimit` | internal/proxy/proxy.go:229-244 | if the text reads as a query in which the same range, or none, is first on a date field, its window lies inside the limit |
| `ForwardedText.OperatorEatsField` | internal/query/parser.go:88-97 | a query judged by a window of one day is forwarded by the gate, and its text has a window of 9999 days; its neighbours do not keep apart |
| `GateLaws.ForwardedIsCosted` | internal/proxy/proxy.go:413-440 | for every query forwarded as it is whose neighbours keep apart: its text is charged as it was judged exactly when no word needs quotes and escaping changes the words of no phrase that costs anything; the report is then the same and the gate passes the text again |
| `GateLaws.MatchesInsideLimit` | internal/rules/rules.go:76-135 | when the window is reached through required clauses alone, every matching document lies in it |
| `ForwardedText.NotRequired` | internal/rules/rules.go:107-135 | an optional clause beside another that is not excluded keeps out no document the others match, an excluded one only those it matches itself |
| `ForwardedText.OptionalWindow` | internal/rules/rules.go:107-135 | a word and a window, both optional: inside the limit, forwarded as it is, and matching every document with the word at whatever time |
| `ForwardedText.LoneExclusionInverted` | internal/query/parser.go:99-105 | a lone excluded clause without a field is judged as its term, and matches exactly the documents it was written to exclude |
| `InjectionLaws.SpacedWindow` | internal/config/config.go:487-492 | a window with a space is a duration but does not survive injection |
| `InjectionLaws.DanglingBackslash` | internal/query/parser.go:255-285 | a final lone backslash survives printing but not injection |
| `Documents.RequiredMatches` | internal/proxy/proxy.go:459-474 | a document that matches a query matches every range the query requires |
| `Documents.EdgeMatches` | internal/query/parser.go:202-225 | a range in square brackets matches the times at its ends, one in braces does not |
| `Documents.FieldInherited` | internal/query/parser.go:242-253 | in a group on a field a clause that names none matches as if it named that field |
| `Server.GateServer.UpdateConfig` | internal/proxy/proxy.go:626-666 | a faulty configuration changes nothing; a good one replaces the authenticator and leaves the old one to a background close |
| `Server.GateServer.CloseServer` | internal/proxy/proxy.go:669-674 | closing the server closes the authenticator in use |
| `Server.ClosedExactlyOnce` | internal/proxy/proxy.go:626-674 | once all closes have run, each authenticator was closed exactly once if and only if none was installed after the server was closed |
| `Reload.StepInv` | internal/config/watcher.go:27-86 | every step of watcher, loaders, cancel and server keeps the invariant |
| `Reload.StepSleeper` | internal/config/watcher.go:50-58 | the pending flag is set exactly when one loader sleeps |
| `LoadHistory.EveryLife` | internal/config/watcher.go:27-58 | in every interleaving the steps of a load are the beginning of one of six lives: skipped, no file, no configuration, refused early or late, stored |
| `LoadHistory.NextStep` | internal/config/watcher.go:27-58 | and it can take exactly the steps that go on with one, given the lock and what it saw of the cancellation |
| `LoadHistory.StoredWasUsable` | internal/config/watcher.go:33-47 | only a load that read a usable configuration calls the callback, and only one not refused is stored |
| `LoadHistory.FailedIsHarmless` | internal/config/watcher.go:33-46 | a load that found no file or no configuration is never in the callback, and none of its steps changes what is applied, in force or installed |
| `LoadHistory.SeenAndApplied` | internal/config/watcher.go:33-47 | every read that found a text adds its version to those seen, every call the last of these to those applied, and nothing else does |
| `LoadHistory.InForceWasRead` | internal/config/watcher.go:27-48 | a version is in force or superseded exactly when some load read the file at that version or a later one, found it usable, and was stored |
| `LoadHistory.EventDelivered` | internal/config/watcher.go:50-78 | every queued event can be delivered until cancel has returned, and starts a load unless one sleeps already |
| `LoadHistory.WriteQueued` | internal/config/watcher.go:62-73 | a write can come at any time, and queues an event for its version if one is sent |
| `LoadHistory.CancelCompletes` | internal/config/watcher.go:80-85 | cancelling can be done whenever the lock is free, and changes nothing else |
| `Reload.NoLostUpdate` | internal/config/watcher.go:27-78 | every delivered write is covered by a loader yet to look at the file, by one that looked at that version or later, whatever came of it, or by cancellation |
| `Reload.ReachesServer` | internal/config/watcher.go:27-48 | a delivered write is in force or superseded if and only if some load stored its version or a later one |
| `Reload.DeliveredInForce` | internal/config/watcher.go:27-78 | in every run without failing reads and refusals, at rest and not cancelled, every delivered write is in force or superseded |
| `Reload.MissedForGood` | internal/config/watcher.go:35-38 | a run in which the load finds no file: the change was delivered, all is at rest, and it is not in force |
| `Reload.NewestInForce` | internal/config/watcher.go:27-48 | a stored reload puts the newest version read in force, never one older than before |
| `Reload.CallbacksSerialised` | internal/config/watcher.go:27-48 | two loaders are never inside the callback at once |
| `Reload.NothingAfterCancel` | internal/config/watcher.go:80-85 | after cancel has returned nothing is read, applied or installed |
| `Reload.AuthenticatorsClosed` | internal/proxy/proxy.go:626-674 | in every interleaving the authenticator installed is open, and all are closed exactly once unless a reload is stored after the server was closed |
| `Reload.HeldAuthenticator` | internal/proxy/proxy.go:175-180 | one taken hold of at some point of a run is found closed later exactly when a reload was stored since and its background close has run, or the server was closed with it |
| `Reload.HeldThenClosed` | internal/proxy/proxy.go:175-180 | one ordinary reload closes the authenticator installed at the start, the server running on |
| `Reload.CancelThenClose` | cmd/es-querycost/main.go:42-52 | cancelling before closing closes every authenticator exactly once |
| `Reload.CloseThenReload` | cmd/es-querycost/main.go:83-91 | closing first lets a reload under way close one twice and leave one open |

## Left out

- Printer.Quote: bytes outside ASCII print as they are; the code decodes UTF-8 and escapes what it cannot print. The parser model is exact on all bytes, and `Conservation.ParseWeighs` shows that ASCII text has only ASCII values.
- Printer.NeedsQuote: looks at bytes where the code decodes runes, so white space outside ASCII is told by single bytes.
- CostModel.WordCount: splits words at single-byte white space; the code decodes runes first.
- CostModel.Cost: amounts are reals; rounding and special values of floating point are not modelled.
- DateMath.Length: integers are unbounded; durations and differences beyond the range of a 64-bit count of nanoseconds are not modelled, nor the rounding of decimal amounts to floating point.
- DateMath.ParseDateMath: absolute dates are read by a function left open, standing for the layouts of the time library.
- Grammar.Parse: errors carry their kind, not their position or wording.
- Documents.Matches: scoring and analysers are not modelled; a query with nothing but excluded clauses matches what it does not exclude.
- Gate.Handle: one configuration for the whole request; the code reads the current configuration three times, so a reload in between could mix two.
- Gate.ResolveQuery: the remote validator's answer is a parameter.
- Reload.Next: a file is its version number, and what a read comes to is a choice of the step; writes may go unnotified, but notified ones are not reordered.
- Reload.NoLostUpdate: a safety statement; that sleeping loaders eventually wake is left to the scheduler.
- Request handling, headers, TLS clients, JSON, metrics, logging and documentation pages: plumbing around the decision.
- Authentication, token checking and the merging of contexts: the plan name is a parameter.
- Client address resolution behind trusted proxies.
- Reading configuration files, environment expansion, flags and defaults.
