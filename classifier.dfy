/** The instrument classifier `getCategory`: a symbol is sorted into one of
    five categories by substring rules on its upper-cased form, tried in a
    fixed order; the first rule that matches decides. */
module Classifier {
  import opened Text

  datatype Category = Gold | Oil | Crypto | Forex | Other

  /** The label the journal shows and the category filter buttons carry. */
  function Name(c: Category): string
  {
    match c
    case Gold => "Gold"
    case Oil => "Oil"
    case Crypto => "Crypto"
    case Forex => "Forex"
    case Other => "Other"
  }

  // The rules, on an upper-cased symbol `u`.

  predicate GoldRule(u: string) { Includes(u, "XAU") }

  predicate OilRule(u: string) { Includes(u, "XTI") || Includes(u, "OIL") || Includes(u, "USOIL") }

  predicate CryptoRule(u: string)
  {
    Includes(u, "BTC") || Includes(u, "ETH") || Includes(u, "XRP") || Includes(u, "SOL")
  }

  predicate ForexRule(u: string) { HasSixUpperRun(u) && EndsWith(u, "USD") }

  /** `getCategory(sym)`; the empty (falsy) symbol is `Other`. */
  function GetCategory(sym: string): (c: Category)
    ensures sym == "" ==> c == Other
    ensures c == Forex ==> |sym| >= 6
  {
    if sym == "" then Other
    else
      var u := ToUpper(sym);
      if GoldRule(u) then Gold
      else if OilRule(u) then Oil
      else if CryptoRule(u) then Crypto
      else if ForexRule(u) then Forex
      else Other
  }

  // ---------------------------------------------------------------------
  // A declarative reading of the rule table

  /** The rule of category `c`; `Other` matches everything. */
  predicate Matches(c: Category, u: string)
  {
    match c
    case Gold => GoldRule(u)
    case Oil => OilRule(u)
    case Crypto => CryptoRule(u)
    case Forex => ForexRule(u)
    case Other => true
  }

  /** The position of a category's rule in the order of evaluation. */
  function Rank(c: Category): nat
  {
    match c
    case Gold => 0
    case Oil => 1
    case Crypto => 2
    case Forex => 3
    case Other => 4
  }

  /** First match wins: a symbol gets category `c` exactly when `c`'s rule
      matches its upper-cased form and no earlier rule does. */
  lemma FirstMatchWins(sym: string, c: Category)
    ensures GetCategory(sym) == c <==>
      Matches(c, ToUpper(sym)) && forall d :: Rank(d) < Rank(c) ==> !Matches(d, ToUpper(sym))
  {
    var u := ToUpper(sym);
    var g := GetCategory(sym);
    assert Matches(g, u);
    assert forall d :: Rank(d) < Rank(g) ==> !Matches(d, u);
    if g != c {
      assert Rank(g) != Rank(c);
      if Rank(c) < Rank(g) {
        assert !Matches(c, u);
      }
    }
  }

  /** Case does not matter: symbols that upper-case alike are classified alike. */
  lemma {:induction false} CategoryIgnoresCase(a: string, b: string)
    requires ToUpper(a) == ToUpper(b)
    ensures GetCategory(a) == GetCategory(b)
    ensures GetCategory(ToUpper(a)) == GetCategory(a)
  {
    ToUpperIdempotent(a);
    assert a == "" <==> ToUpper(a) == "";
    assert b == "" <==> ToUpper(b) == "";
  }

  /** The `USOIL` test of the oil rule never decides anything: every
      symbol containing `USOIL` contains `OIL`. */
  lemma UsoilImpliesOil(u: string)
    requires Includes(u, "USOIL")
    ensures Includes(u, "OIL")
  {
    var i :| OccursAt(u, "USOIL", i);
    assert u[i + 2..i + 5] == u[i..i + 5][2..];
    assert OccursAt(u, "OIL", i + 2);
  }

  /** A symbol naming both gold and bitcoin is gold: the gold rule comes first. */
  lemma GoldBeforeCrypto()
    ensures GetCategory("xaubtc") == Gold
  {
    assert ToUpper("xaubtc") == "XAUBTC";
    assert OccursAt("XAUBTC", "XAU", 0);
  }
}
