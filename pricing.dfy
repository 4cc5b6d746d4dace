/** The profit-and-loss calculator `calculatePL`. It re-derives the
    instrument from the symbol with its own chain of substring tests, which
    is not the classifier's: only `BTC` and `ETH` get crypto pricing. */
module Pricing {
  import opened Wrappers
  import opened Text
  import opened Classifier

  /** A JavaScript number as the calculator sees it: `NaN`, or a real value. */
  datatype Num = NaN | Real(val: real)

  // ---------------------------------------------------------------------
  // Number(x.toFixed(2))

  /** `x` has at most two decimals. */
  predicate TwoDecimals(x: real)
  {
    (x * 100.0).Floor as real == x * 100.0
  }

  /** A non-negative value rounded to the nearest cent, ties upwards. */
  function RoundCents(m: real): (r: real)
    requires m >= 0.0
    ensures 0.0 <= r && m - 0.005 < r <= m + 0.005
    ensures TwoDecimals(r)
  {
    var n := (m * 100.0 + 0.5).Floor;
    CentsFacts(m, n);
    n as real / 100.0
  }

  lemma CentsFacts(m: real, n: int)
    requires m >= 0.0 && n == (m * 100.0 + 0.5).Floor
    ensures var r := n as real / 100.0;
            0.0 <= r && m - 0.005 < r <= m + 0.005 && TwoDecimals(r)
  {
    var r := n as real / 100.0;
    assert r * 100.0 == n as real;
    assert n as real <= m * 100.0 + 0.5 < n as real + 1.0;
    assert (r * 100.0).Floor == n;
  }

  /** `Number(x.toFixed(2))`: the magnitude is rounded and the sign kept,
      so ties go away from zero. */
  function Round2(x: real): (r: real)
    ensures -0.005 <= r - x <= 0.005
    ensures TwoDecimals(r)
    ensures (x >= 0.0 ==> r >= 0.0) && (x <= 0.0 ==> r <= 0.0)
  {
    if x < 0.0 then
      var m := RoundCents(-x);
      NegatedTwoDecimals(m);
      -m
    else RoundCents(x)
  }

  lemma NegatedTwoDecimals(m: real)
    requires TwoDecimals(m)
    ensures TwoDecimals(-m)
  {
    var n := (m * 100.0).Floor;
    assert (-m) * 100.0 == (-n) as real;
  }

  /** Rounding is an odd function. */
  lemma RoundOdd(x: real)
    ensures Round2(-x) == -Round2(x)
  {
    if x == 0.0 {
      assert Round2(0.0) == 0.0;
    }
  }

  // ---------------------------------------------------------------------
  // The calculator's own instrument tests

  /** The pricing branches of `calculatePL`, in the order they are tried. */
  datatype Formula = GoldFormula | OilFormula | CryptoFormula | PipFormula | DefaultFormula

  /** The calculator's crypto test: `BTC` or `ETH` only. */
  predicate CryptoPricedRule(u: string) { Includes(u, "BTC") || Includes(u, "ETH") }

  /** The branch `calculatePL` takes for `symbol`: the first of the gold,
      oil, BTC/ETH and Forex tests that its upper-cased form passes, or the
      default formula when it passes none. */
  function FormulaFor(symbol: string): (f: Formula)
    ensures f == GoldFormula <==> GoldRule(ToUpper(symbol))
    ensures f == OilFormula <==> !GoldRule(ToUpper(symbol)) && OilRule(ToUpper(symbol))
    ensures f == CryptoFormula ==> CryptoPricedRule(ToUpper(symbol))
    ensures f == PipFormula ==> ForexRule(ToUpper(symbol)) && !CryptoPricedRule(ToUpper(symbol))
    ensures f == DefaultFormula <==>
      !GoldRule(ToUpper(symbol)) && !OilRule(ToUpper(symbol))
      && !CryptoPricedRule(ToUpper(symbol)) && !ForexRule(ToUpper(symbol))
  {
    var u := ToUpper(symbol);
    if GoldRule(u) then GoldFormula
    else if OilRule(u) then OilFormula
    else if CryptoPricedRule(u) then CryptoFormula
    else if ForexRule(u) then PipFormula
    else DefaultFormula
  }

  /** The unrounded profit of a long position, branch by branch; dividing
      by 0.01 and by 0.0001 is written as multiplying by 100 and 10000. */
  function RawPL(f: Formula, diff: real, lot: real, contract: real): (r: real)
    ensures (diff * lot) * contract > 0.0 ==> r > 0.0
    ensures (diff * lot) * contract < 0.0 ==> r < 0.0
    ensures (diff * lot) * contract == 0.0 ==> r == 0.0
  {
    match f
    case GoldFormula => diff * 100.0 * lot * contract
    case OilFormula => (diff * 100.0) * lot * contract
    case CryptoFormula => diff * lot * contract
    case PipFormula => (diff * 10000.0) * 10.0 * lot * contract
    case DefaultFormula => diff * lot * contract
  }

  /** `calculatePL(symbol, entry, exit, lot, contract, side)`: `null` when
      a price or the lot is `NaN`; `NaN` when only the contract size is;
      otherwise the signed profit rounded to cents. Every side other than
      `"long"` is priced as short. */
  function CalculatePL(symbol: string, entry: Num, exit: Num, lot: Num, contract: Num, side: string): (r: Option<Num>)
    ensures r.None? <==> entry.NaN? || exit.NaN? || lot.NaN?
    ensures r.Some? ==> (r.value.NaN? <==> contract.NaN?)
    ensures r.Some? && r.value.Real? ==> TwoDecimals(r.value.val)
  {
    if entry.NaN? || exit.NaN? || lot.NaN? then None
    else if contract.NaN? then Some(NaN)
    else
      var pl := RawPL(FormulaFor(symbol), exit.val - entry.val, lot.val, contract.val);
      Some(Real(if side == "long" then Round2(pl) else Round2(-pl)))
  }

  function Negated(r: Option<Num>): Option<Num>
  {
    match r
    case Some(Real(x)) => Some(Real(-x))
    case _ => r
  }

  /** Going short pays the negation of going long, on every input. */
  lemma ShortIsNegatedLong(symbol: string, entry: Num, exit: Num, lot: Num, contract: Num, side: string)
    requires side != "long"
    ensures CalculatePL(symbol, entry, exit, lot, contract, side)
         == Negated(CalculatePL(symbol, entry, exit, lot, contract, "long"))
  {
    if !(entry.NaN? || exit.NaN? || lot.NaN? || contract.NaN?) {
      RoundOdd(RawPL(FormulaFor(symbol), exit.val - entry.val, lot.val, contract.val));
    }
  }

  /** Value of a one-point move for one lot of contract size one, per branch. */
  function PointValue(f: Formula): real
  {
    match f
    case GoldFormula => 100.0
    case OilFormula => 100.0
    case CryptoFormula => 1.0
    case PipFormula => 100000.0
    case DefaultFormula => 1.0
  }

  /** The price move times the position size. */
  function Exposure(entry: real, exit: real, lot: real, contract: real): real
  {
    (exit - entry) * lot * contract
  }

  /** Each branch multiplies the exposure by its point value. */
  lemma RawIsScaled(f: Formula, d: real, lot: real, contract: real)
    ensures RawPL(f, d, lot, contract) == PointValue(f) * ((d * lot) * contract)
  {
  }

  /** Every branch is linear in the price move, the lot and the contract
      size; only the point value differs. */
  lemma ProfitIsScaledMove(symbol: string, entry: real, exit: real, lot: real, contract: real)
    ensures CalculatePL(symbol, Real(entry), Real(exit), Real(lot), Real(contract), "long")
         == Some(Real(Round2(PointValue(FormulaFor(symbol)) * Exposure(entry, exit, lot, contract))))
  {
    var f := FormulaFor(symbol);
    RawIsScaled(f, exit - entry, lot, contract);
    var r := CalculatePL(symbol, Real(entry), Real(exit), Real(lot), Real(contract), "long");
    assert r == Some(Real(Round2(RawPL(f, exit - entry, lot, contract))));
    assert Exposure(entry, exit, lot, contract) == ((exit - entry) * lot) * contract;
  }

  /** Where the calculator and the classifier part ways. Gold and oil agree;
      crypto pricing implies the Crypto category but not conversely; a
      Crypto symbol without `BTC` or `ETH` is priced by pips exactly when it
      also has the Forex shape, and by the default formula otherwise; Forex
      symbols are priced by pips and Other symbols by the default formula. */
  lemma FormulaVersusCategory(symbol: string)
    ensures GetCategory(symbol) == Gold <==> FormulaFor(symbol) == GoldFormula
    ensures GetCategory(symbol) == Oil <==> FormulaFor(symbol) == OilFormula
    ensures FormulaFor(symbol) == CryptoFormula ==> GetCategory(symbol) == Crypto
    ensures GetCategory(symbol) == Crypto && FormulaFor(symbol) != CryptoFormula ==>
      FormulaFor(symbol) == (if ForexRule(ToUpper(symbol)) then PipFormula else DefaultFormula)
    ensures GetCategory(symbol) == Forex ==> FormulaFor(symbol) == PipFormula
    ensures GetCategory(symbol) == Other ==> FormulaFor(symbol) == DefaultFormula
  {
    if symbol == "" {
      assert ToUpper(symbol) == "";
      assert !HasSixUpperRun("");
    }
  }

  /** A Crypto symbol without `BTC` or `ETH` (one classified Crypto only
      through `XRP` or `SOL`) is priced by pips, at 100000 per point, when
      it has the Forex shape, and by the plain price difference otherwise. */
  lemma CryptoWithoutBtcEthPricing(symbol: string, entry: real, exit: real, lot: real, contract: real)
    requires GetCategory(symbol) == Crypto && !CryptoPricedRule(ToUpper(symbol))
    ensures CalculatePL(symbol, Real(entry), Real(exit), Real(lot), Real(contract), "long")
         == Some(Real(Round2((if ForexRule(ToUpper(symbol)) then 100000.0 else 1.0) * Exposure(entry, exit, lot, contract))))
  {
    FormulaVersusCategory(symbol);
    ProfitIsScaledMove(symbol, entry, exit, lot, contract);
  }

  // ---------------------------------------------------------------------
  // Worked examples

  /** Gold: ten dollars on one lot of XAUUSD is a thousand. */
  lemma GoldExample()
    ensures CalculatePL("XAUUSD", Real(1900.0), Real(1910.0), Real(1.0), Real(1.0), "long") == Some(Real(1000.0))
  {
    assert ToUpper("XAUUSD") == "XAUUSD";
    assert OccursAt("XAUUSD", "XAU", 0);
  }

  /** Oil: fifty cents on one lot of USOIL is fifty. */
  lemma OilExample()
    ensures CalculatePL("USOIL", Real(70.00), Real(70.50), Real(1.0), Real(1.0), "long") == Some(Real(50.0))
  {
    assert ToUpper("USOIL") == "USOIL";
    assert OccursAt("USOIL", "OIL", 2);
  }

  /** A symbol without X, O, B or T passes none of the gold, oil and
      crypto tests of either chain. */
  lemma NoRuleBeforeForex(u: string)
    requires 'X' !in u && 'O' !in u && 'B' !in u && 'T' !in u
    ensures !GoldRule(u) && !OilRule(u) && !CryptoRule(u) && !CryptoPricedRule(u)
  {
    MissingCharNotIncluded(u, "XAU", 0);
    MissingCharNotIncluded(u, "XTI", 0);
    MissingCharNotIncluded(u, "OIL", 0);
    MissingCharNotIncluded(u, "USOIL", 2);
    MissingCharNotIncluded(u, "BTC", 0);
    MissingCharNotIncluded(u, "ETH", 1);
    MissingCharNotIncluded(u, "XRP", 0);
    MissingCharNotIncluded(u, "SOL", 1);
  }

  /** Six capital letters ending in USD, without X, O, B or T: Forex for
      the classifier and pip-priced by the calculator. */
  lemma SixLetterDollarPairIsForex(u: string)
    requires |u| == 6 && forall i :: 0 <= i < 6 ==> IsUpperLetter(u[i])
    requires 'X' !in u && 'O' !in u && 'B' !in u && 'T' !in u
    requires EndsWith(u, "USD")
    ensures GetCategory(u) == Forex
    ensures FormulaFor(u) == PipFormula
  {
    UpperUnchanged(u);
    NoRuleBeforeForex(u);
    assert UpperRunAt(u, 0);
  }

  /** EURUSD is Forex for the classifier and pip-priced by the calculator. */
  lemma EurUsdIsForex()
    ensures GetCategory("EURUSD") == Forex
    ensures FormulaFor("EURUSD") == PipFormula
  {
    SixLetterDollarPairIsForex("EURUSD");
  }

  /** Fifty pips (1.1000 to 1.1050) on one lot of a pip-priced symbol such
      as EURUSD: 50 pips at 10 per pip, that is 500. */
  lemma FiftyPipsOnOneLot(symbol: string)
    requires FormulaFor(symbol) == PipFormula
    ensures CalculatePL(symbol, Real(1.1000), Real(1.1050), Real(1.0), Real(1.0), "long") == Some(Real(500.0))
  {
    ProfitIsScaledMove(symbol, 1.1000, 1.1050, 1.0, 1.0);
    assert Exposure(1.1000, 1.1050, 1.0, 1.0) == 0.005;
  }

  /** A symbol without X, I, B or E passes none of the gold, oil and
      BTC/ETH tests. */
  lemma NoEarlyBranchWithoutXIBE(u: string)
    requires 'X' !in u && 'I' !in u && 'B' !in u && 'E' !in u
    ensures !GoldRule(u) && !OilRule(u) && !CryptoPricedRule(u)
  {
    MissingCharNotIncluded(u, "XAU", 0);
    MissingCharNotIncluded(u, "XTI", 0);
    MissingCharNotIncluded(u, "OIL", 1);
    MissingCharNotIncluded(u, "USOIL", 3);
    MissingCharNotIncluded(u, "BTC", 0);
    MissingCharNotIncluded(u, "ETH", 0);
  }

  /** A capital-letter symbol starting with SOL and without X, I, B or E:
      Crypto for the classifier, yet the calculator's crypto test fails, so
      it is pip-priced when it ends in USD and priced by the plain
      difference otherwise. */
  lemma SolSymbolPricing(u: string)
    requires |u| >= 6 && forall i :: 0 <= i < |u| ==> IsUpperLetter(u[i])
    requires 'X' !in u && 'I' !in u && 'B' !in u && 'E' !in u
    requires u[..3] == "SOL"
    ensures GetCategory(u) == Crypto
    ensures FormulaFor(u) == if EndsWith(u, "USD") then PipFormula else DefaultFormula
  {
    UpperUnchanged(u);
    NoEarlyBranchWithoutXIBE(u);
    assert OccursAt(u, "SOL", 0);
    assert UpperRunAt(u, 0);
  }

  /** SOLUSD is classified Crypto, yet the calculator has no crypto test
      for SOL: the symbol has the Forex shape and is priced by pips. */
  lemma SolUsdIsCryptoPricedAsForex()
    ensures GetCategory("SOLUSD") == Crypto
    ensures FormulaFor("SOLUSD") == PipFormula
  {
    SolSymbolPricing("SOLUSD");
  }

  /** SOLUSDT is classified Crypto too, but it does not end in USD, so the
      calculator uses the plain price difference. */
  lemma SolUsdtIsCryptoPricedByDefault()
    ensures GetCategory("SOLUSDT") == Crypto
    ensures FormulaFor("SOLUSDT") == DefaultFormula
  {
    SolSymbolPricing("SOLUSDT");
  }

  /** The calculator on EURUSD: fifty pips on one lot is 500. */
  lemma ForexExample()
    ensures CalculatePL("EURUSD", Real(1.1000), Real(1.1050), Real(1.0), Real(1.0), "long") == Some(Real(500.0))
  {
    EurUsdIsForex();
    FiftyPipsOnOneLot("EURUSD");
  }
}
