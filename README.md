# Trade journal core in Dafny

This project models the logic of `script.js`, a browser trade journal.
The journal keeps an ordered list of trades and persists it in local storage.
It classifies each instrument symbol into a category and computes each trade's
profit and loss (P/L) when the trade is saved. From the list it derives a
filtered journal table, dashboard figures (net P/L, wins, losses, win rate),
an equity series, monthly buckets and a PDF summary.

The modules follow the script's parts:

- `Wrappers`: `Option`, which stands for `null`.
- `Seqs`: `Array.prototype.filter` on sequences, with its order-preserving laws.
- `Text`: the string operations the script uses, on ASCII: `includes`,
  `toUpperCase`/`toLowerCase`, `trim`, `endsWith`, the regular expression
  `/[A-Z]{6}/`, and the order used by `Array.prototype.sort`.
- `Classifier`: `getCategory`.
- `Pricing`: `calculatePL` and the rounding `Number(x.toFixed(2))`.
- `Trades`: the trade record and the submit handler's record building.
  The class `TradeStore` holds the module-level `trades` array and its stored
  copy, and has the start-up, `save`, `renderAll` clean-up, load, submit and
  remove handlers as methods.
- `Journal`: the row filter of `renderJournal`.
- `Html`: `escapeHtml`.
- `Stats`: the aggregates of `renderDashboard`, `updateTicker` and the PDF export.

The script's numbers are modelled as exact reals, and `NaN` is a separate value (`Num`).
`toFixed(2)` is modelled as rounding the magnitude to the nearest cent, ties
away from zero, with the sign kept.

Two consequences of the code's formulas are worth knowing:

- `SOLUSD` and `XRPUSD` are Crypto for `getCategory` (script.js:41), but the
  calculator tests only `BTC` and `ETH` for crypto pricing, so they reach its
  Forex test and are priced by pips (script.js:55-59). A Crypto symbol without
  `BTC` or `ETH` is pip-priced when it contains a run of six capital letters
  and ends in `USD`, and gets the plain price difference otherwise: `SOLUSDT`
  does (script.js:61), and so does `SOL-USD`, which has six capitals but no
  run of six. See `Pricing.SolUsdIsCryptoPricedAsForex` and
  `Pricing.CryptoWithoutBtcEthPricing`.
- Fifty pips on one lot of EURUSD yield 500: the formula
  `((exit - entry) / 0.0001) * 10 * lot * contract` (script.js:58-59) gives
  0.005 / 0.0001 × 10 = 500 (`Pricing.ForexExample`).

## Model

| member | source | states |
|---|---|---|
| Seqs.Filter | script.js:280 | the survivors are exactly the elements that pass the test, and there are never more of them than inputs |
| Seqs.FilterConcat | script.js:280 | filtering a concatenation filters each part in turn, so survivors keep their relative order |
| Text.Includes | script.js:39-41 | true exactly when the pattern occurs at some position of the string |
| Text.EndsWith | script.js:42 | true exactly when the string is some string followed by the suffix |
| Text.ToUpper | script.js:38 | same length, each ASCII lower-case letter replaced by its capital and every other character kept |
| Text.ToLower | script.js:72-73 | same length, each ASCII capital replaced by its lower-case letter and every other character kept |
| Text.Trim | script.js:223 | the input is white space, then the result, then white space; the result is empty exactly when the input is all white space, and otherwise starts and ends with a non-space |
| Text.HasSixUpperRun | script.js:42 | true exactly when six capital letters A-Z stand in a row somewhere |
| Text.ToUpperIdempotent | script.js:38 | upper-casing leaves no lower-case letter, so doing it twice changes nothing |
| Text.LowerOfUpper | script.js:72 | lower-casing forgets an earlier upper-casing |
| Text.LessTransitive | script.js:150 | the string order used by the sort is transitive |
| Text.LessTotal | script.js:150 | any two different strings are ordered one way or the other |
| Text.InsertSorted | script.js:150 | inserting a new key into a strictly increasing sequence keeps it strictly increasing and adds exactly that key |
| Classifier.GetCategory | script.js:36-44 | an empty symbol is Other; a Forex symbol has at least six characters |
| Classifier.FirstMatchWins | script.js:37-43 | every symbol gets category c exactly when c's rule matches its upper-cased form and no rule tried earlier does (Gold, Oil, Crypto, Forex, Other) |
| Classifier.CategoryIgnoresCase | script.js:38 | symbols that upper-case alike get the same category |
| Classifier.UsoilImpliesOil | script.js:40 | every symbol containing USOIL contains OIL, so that test never decides anything |
| Classifier.GoldBeforeCrypto | script.js:39-41 | a symbol naming both gold and bitcoin ("xaubtc") is Gold |
| Pricing.Round2 | script.js:63 | the result is within half a cent of the input, has two decimals, and keeps the sign |
| Pricing.RoundOdd | script.js:63 | rounding a negated value gives the negated rounding |
| Pricing.FormulaFor | script.js:50-61 | the gold formula exactly when the upper-cased symbol passes the gold test; oil exactly when it passes the oil test but not gold; crypto only for BTC/ETH; pips only for the Forex shape without BTC/ETH; the default exactly when no test passes |
| Pricing.RawPL | script.js:51-61 | every branch's unrounded long profit has the sign of price move × lot × contract size |
| Pricing.CalculatePL | script.js:47-64 | null exactly when entry, exit or lot is NaN; otherwise NaN exactly when the contract size is NaN; a real result has two decimals |
| Pricing.ShortIsNegatedLong | script.js:51-63 | for any side other than "long", the result is the negation of the long result on the same inputs |
| Pricing.ProfitIsScaledMove | script.js:50-63 | the long result is the rounded product of the branch's point value, the price move, the lot and the contract size |
| Pricing.FormulaVersusCategory | script.js:36-61 | gold and oil pricing coincide with the Gold and Oil categories; BTC/ETH pricing implies Crypto but not conversely; Forex symbols are pip-priced; Other symbols get the default formula |
| Pricing.CryptoWithoutBtcEthPricing | script.js:41-61 | a Crypto symbol without BTC or ETH is priced at 100000 per point when it has the Forex shape and at 1 per point otherwise |
| Pricing.SolSymbolPricing | script.js:39-61 | a capital-letter symbol of at least six letters that starts with SOL and has no X, I, B or E (so neither the gold nor the oil test fires, as they would for SOLXAU or SOLOIL) is Crypto, yet pip-priced when it ends in USD and priced by the plain difference otherwise |
| Pricing.SolUsdIsCryptoPricedAsForex | script.js:41-59 | SOLUSD is Crypto for the classifier and pip-priced by the calculator |
| Pricing.SolUsdtIsCryptoPricedByDefault | script.js:41-61 | SOLUSDT is Crypto for the classifier and priced by the plain difference |
| Pricing.SixLetterDollarPairIsForex | script.js:42-59 | six capital letters ending in USD, without X, O, B or T, are Forex and pip-priced |
| Pricing.EurUsdIsForex | script.js:42-59 | EURUSD is Forex and pip-priced |
| Pricing.FiftyPipsOnOneLot | script.js:57-59 | on a pip-priced symbol, 1.1000 to 1.1050 on one lot yields 500 |
| Pricing.ForexExample | script.js:57-63 | EURUSD from 1.1000 to 1.1050 on one lot yields 500 |
| Pricing.GoldExample | script.js:51-52 | XAUUSD from 1900 to 1910 on one lot yields 1000 |
| Pricing.OilExample | script.js:53-54 | USOIL from 70.00 to 70.50 on one lot yields 50 |
| Trades.OrOne | script.js:241-242 | the lot and contract size are never zero, and a non-zero parsed number is kept |
| Trades.MakeTrade | script.js:223-248 | no trade exactly when the upper-cased, trimmed symbol is empty or the entry or exit is NaN; otherwise every field is as the handler builds it, and the P/L is the calculator's value on the trade's own fields and always a real number |
| Trades.UpperKeepsSpace | script.js:223 | upper-casing a symbol does not change whether it is all white space |
| Trades.WellFormed | script.js:355 | a trade passes the clean-up test exactly when its id and its symbol are non-empty (truthy) strings |
| Trades.Clean | script.js:355 | exactly the trades with a non-empty id and symbol survive |
| Trades.RemoveById | script.js:280 | exactly the trades with another id survive, so none with the removed id is left |
| Trades.RemoveAbsentIsNoop | script.js:280 | removing an id no trade has leaves the list unchanged |
| Trades.RemoveIdempotent | script.js:280 | removing the same id twice is removing it once |
| Trades.RemoveUniqueDeletesOne | script.js:280 | with unique ids, removing the id at position k deletes exactly that trade and keeps the others in order |
| Trades.FilterKeepsUnique | script.js:280 | filtering keeps ids unique |
| Trades.PrependKeepsUnique | script.js:251 | putting a trade with a fresh id first keeps ids unique |
| Trades.CleanIdempotent | script.js:355 | cleaning twice is cleaning once |
| Trades.CleanSameLength | script.js:298-301 | when cleaning drops nothing, the cleaned list is the list itself |
| Trades.TradeStore.Open | script.js:5 | at start-up the list is the stored list, cleaned by the first render; storage is unchanged |
| Trades.TradeStore.RenderAll | script.js:353-355 | the list becomes its cleaned form, storage is unchanged, and every trade is well formed |
| Trades.TradeStore.Save | script.js:30-32 | storage receives the list, which is then cleaned; for a list of well-formed trades, memory and storage agree |
| Trades.TradeStore.OnLoad | script.js:296-302 | the list ends as its cleaned form and storage is unchanged |
| Trades.TradeStore.Submit | script.js:222-252 | a rejected form changes nothing and saves nothing; an accepted one saves the new trade in front of the old list; unique ids and well-formedness are preserved |
| Trades.TradeStore.Remove | script.js:278-281 | storage receives the list without the trades with that id; memory is its cleaned form; unique ids are preserved |
| Journal.Shown | script.js:70-75 | with no filter or All and an empty search every trade passes; a shown trade under a category filter has that category; a shown trade under a search contains the lower-cased search text in its lower-cased symbol or notes |
| Journal.JournalRows | script.js:69-76 | a trade is shown exactly when it passes the category filter and the search |
| Journal.AllShowsEverything | script.js:69-76 | with All (or no filter) and an empty search every trade is shown, in order |
| Journal.CategoryFilterSelectsCategory | script.js:70 | a category button shows exactly the trades the classifier puts in that category, in order |
| Journal.UnknownFilterShowsNothing | script.js:70 | a filter that is neither empty, All, nor a category name shows no row |
| Journal.SearchIgnoresCase | script.js:71-74 | searching the upper-cased text selects the same rows |
| Journal.RowsOfConcat | script.js:69-76 | the rows of a concatenation are the rows of each part, in order |
| Html.EscapeHtml | script.js:103-105 | the output is never shorter than the input and contains no < or > |
| Html.ReplaceAll | script.js:104 | a replaced character absent from its replacement does not survive; nothing else is introduced |
| Html.EscapeIsPerChar | script.js:103-105 | the three passes equal escaping each character on its own, because & is replaced first |
| Html.EscapeHtmlConcat | script.js:103-105 | escaping works piece by piece |
| Html.EscapeHtmlShape | script.js:103-105 | the output contains no < or >, and every & in it starts &amp;, &lt; or &gt; |
| Html.EscapeHtmlRoundTrip | script.js:103-105 | decoding the three entities gives back the original text |
| Html.EscapeHtmlInjective | script.js:103-105 | different notes never escape alike |
| Html.EscapePlainText | script.js:103-105 | text without &, < and > is unchanged |
| Stats.PlValue | script.js:109 | a trade's real P/L is its value; a missing or NaN P/L counts as zero |
| Stats.Net | script.js:109 | zero for no trades; never negative when no trade lost and never positive when no trade won |
| Stats.Wins | script.js:111 | at most the number of trades, and positive exactly when some trade has a positive P/L |
| Stats.Losses | script.js:112 | at most the number of trades, and positive exactly when some trade has a negative P/L |
| Stats.NetAppend | script.js:109 | net P/L is additive over any split of the list |
| Stats.WinsAndLossesWithinTotal | script.js:111-112 | wins plus losses never exceed the number of trades |
| Stats.WinsAllOrNone | script.js:111 | the win count equals the trade count exactly when every trade wins, and is zero exactly when none does |
| Stats.NetSignNeedsTrade | script.js:109-112 | a positive net needs a winning trade, a negative net a losing one |
| Stats.WinRate | script.js:110-113 | absent exactly for an empty list; otherwise between 0 and 100, 100 exactly when every trade wins and 0 exactly when none does |
| Stats.EquityCurve | script.js:128-129 | one label and one point per trade; each point is the net P/L up to that trade, grows by that trade's P/L, and the last point is the net P/L |
| Stats.MonthKey | script.js:147 | a non-empty key: the first seven characters of the date, the whole date when it is shorter, or "unknown" for no date |
| Stats.MonthTotalSnoc | script.js:148 | appending a trade adds its P/L to its own month's total only |
| Stats.MonthlyStep | script.js:146-149 | one step of the loop keeps every entry equal to its month's total and the keys equal to the months seen |
| Stats.MonthlyTotals | script.js:145-149 | one entry per month that has trades, holding that month's net P/L |
| Stats.SortedKeys | script.js:150 | the keys in strictly increasing order, each once |
| Stats.SumTotalsIsNet | script.js:145-151 | the totals of distinct months that cover every trade add up to the net P/L |
| Stats.MonthlyBuckets | script.js:145-151 | months strictly increasing and exactly those with trades; each bar is that month's net; the bars add up to the net P/L |
| Stats.ExportSummary | script.js:306-323 | absent exactly for an empty list; otherwise the trade count and the net P/L rounded to within half a cent, with two decimals and the same sign |

## Left out

- The DOM, rendering and form reset are not modelled. Form values are parameters, and the journal's rows are a sequence.
- `showSection`, the recent-trades list and the live preview `updatePLPreview` are not modelled. They only display values the model computes elsewhere.
- Chart.js, jsPDF/autoTable and FileReader are calls into libraries. The charts' inputs are modelled; the screenshot is an opaque string.
- The export's per-row table formatting is not modelled.
- `localStorage` and `JSON.parse`/`JSON.stringify` are not modelled. Storage is the field `stored`, a copy of the list, with no serialisation.
- Stored objects that are `null`, not objects, or lack fields cannot be expressed. A missing string field is the empty string.
- `uid()` is random. The new id is a parameter, and `Submit` requires that no trade already has it; the code itself does not guarantee this.
- `alert` and `confirm` are dialogs. `Remove` is the action taken after the user confirms.
- Pricing.Round2: models `Number(x.toFixed(2))` on exact reals. IEEE-754 binary rounding, infinities, and the string form of numbers are not modelled.
- Stats.WinRate: the exact quotient. Its one-decimal `toFixed(1)` string is not modelled.
- Text.ToUpper: maps ASCII letters only. Non-ASCII case mapping is not modelled; JavaScript maps "ß" to "SS", which changes the length.
- Text.ToLower: maps ASCII letters only, like `Text.ToUpper`. `Journal.SearchIgnoresCase` therefore holds for the modelled mapping only; in JavaScript a search for "ß" and for its upper-cased form "SS" can select different rows.
- Text.Less: compares characters as code points, where JavaScript's sort compares UTF-16 code units. They differ only for characters outside the Basic Multilingual Plane.
- Stats.MonthlyTotals: uses a map where the code uses a plain object. Month keys that collide with inherited object properties (such as `valueOf`) behave differently in the code.
