/** The trade record, the submit handler's validation and record
    building, the remove filter, the clean-up filter, and the module-level
    `trades` array with its persisted copy as a class. */
module Trades {
  import opened Wrappers
  import opened Seqs
  import opened Text
  import opened Pricing

  /** A saved trade. Missing or falsy strings are "". The P/L is computed
      once, when the trade is saved, and stored. */
  datatype Trade = Trade(
    id: string,
    date: string,
    time: string,
    symbol: string,
    side: string,
    entry: real,
    exit: real,
    lot: real,
    contract: real,
    notes: string,
    screenshot: string,
    pl: Option<Num>)

  /** The new-trade form, each number already through `parseFloat`. */
  datatype TradeForm = TradeForm(
    date: string,
    time: string,
    symbol: string,
    side: string,
    entry: Num,
    exit: Num,
    lot: Num,
    contract: Num,
    notes: string)

  // ---------------------------------------------------------------------
  // Insert

  /** `parseFloat(x) || 1`: NaN and zero become one. */
  function OrOne(n: Num): (r: real)
    ensures r != 0.0
    ensures n.Real? && n.val != 0.0 ==> r == n.val
  {
    if n.NaN? || n.val == 0.0 then 1.0 else n.val
  }

  /** `x || fallback` on strings. */
  function OrElse(s: string, fallback: string): string
  {
    if s == "" then fallback else s
  }

  /** The submit handler's record: `None` when the upper-cased, trimmed
      symbol is empty or the entry or exit price is NaN (nothing is
      saved); otherwise a record whose P/L is the calculator's value on the
      record's own fields, which is always a real number. `today` and `now`
      stand for the clock, `screenshot` for the file read, `id` for `uid()`. */
  function MakeTrade(form: TradeForm, id: string, today: string, now: string, screenshot: string): (r: Option<Trade>)
    ensures r.None? <==> AllSpace(form.symbol) || form.entry.NaN? || form.exit.NaN?
    ensures r.Some? ==>
      var t := r.value;
      && t.id == id
      && t.symbol == Trim(ToUpper(form.symbol)) && t.symbol != ""
      && t.side == form.side && t.notes == form.notes && t.screenshot == screenshot
      && t.date == OrElse(form.date, today) && t.time == OrElse(form.time, now)
      && Real(t.entry) == form.entry && Real(t.exit) == form.exit
      && t.lot == OrOne(form.lot) && t.contract == OrOne(form.contract)
      && t.pl == CalculatePL(t.symbol, Real(t.entry), Real(t.exit), Real(t.lot), Real(t.contract), t.side)
      && t.pl.Some? && t.pl.value.Real?
  {
    var symbol := Trim(ToUpper(form.symbol));
    UpperKeepsSpace(form.symbol);
    if symbol == "" || form.entry.NaN? || form.exit.NaN? then None
    else
      var lot := OrOne(form.lot);
      var contract := OrOne(form.contract);
      Some(Trade(id, OrElse(form.date, today), OrElse(form.time, now), symbol, form.side,
                 form.entry.val, form.exit.val, lot, contract, form.notes, screenshot,
                 CalculatePL(symbol, form.entry, form.exit, Real(lot), Real(contract), form.side)))
  }

  /** Upper-casing neither adds nor removes white space. */
  lemma UpperKeepsSpace(s: string)
    ensures AllSpace(ToUpper(s)) <==> AllSpace(s)
  {
    assert forall i :: 0 <= i < |s| ==> (IsSpace(ToUpper(s)[i]) <==> IsSpace(s[i]));
  }

  // ---------------------------------------------------------------------
  // Identity, remove and clean-up

  /** The clean-up test `t && t._id && t.symbol`. */
  predicate WellFormed(t: Trade): (r: bool)
    ensures r <==> |t.id| > 0 && |t.symbol| > 0
  {
    t.id != "" && t.symbol != ""
  }

  /** The trades that pass the clean-up test, in order. */
  function Clean(s: seq<Trade>): (r: seq<Trade>)
    ensures forall t :: t in r <==> t in s && WellFormed(t)
  {
    Filter(s, WellFormed)
  }

  function Ids(s: seq<Trade>): set<string>
  {
    set t | t in s :: t.id
  }

  predicate UniqueIds(s: seq<Trade>)
  {
    forall i, j :: 0 <= i < j < |s| ==> s[i].id != s[j].id
  }

  /** The test `t._id !== id` of the remove handler. */
  function Differs(id: string): Trade -> bool
  {
    (t: Trade) => t.id != id
  }

  /** `trades.filter(t => t._id !== id)`: exactly the trades with another
      id survive, so none with `id` is left. */
  function RemoveById(s: seq<Trade>, id: string): (r: seq<Trade>)
    ensures forall t :: t in r <==> t in s && t.id != id
    ensures id !in Ids(r)
  {
    Filter(s, Differs(id))
  }

  /** Removing an id that no trade has changes nothing. */
  lemma RemoveAbsentIsNoop(s: seq<Trade>, id: string)
    requires id !in Ids(s)
    ensures RemoveById(s, id) == s
  {
    FilterAllKept(s, Differs(id));
  }

  /** Removing twice is removing once. */
  lemma RemoveIdempotent(s: seq<Trade>, id: string)
    ensures RemoveById(RemoveById(s, id), id) == RemoveById(s, id)
  {
    FilterIdempotent(s, Differs(id));
  }

  /** With unique ids, removing a present id deletes exactly one trade and
      leaves the others in order around the gap. */
  lemma RemoveUniqueDeletesOne(s: seq<Trade>, k: nat)
    requires UniqueIds(s) && k < |s|
    ensures RemoveById(s, s[k].id) == s[..k] + s[k + 1..]
    ensures |RemoveById(s, s[k].id)| == |s| - 1
  {
    var id := s[k].id;
    var before, after := s[..k], s[k + 1..];
    var p := Differs(id);
    IdOnlyAt(s, k);
    calc {
      RemoveById(s, id);
      { assert s == before + ([s[k]] + after); }
      Filter(before + ([s[k]] + after), p);
      { FilterConcat(before, [s[k]] + after, p); }
      Filter(before, p) + Filter([s[k]] + after, p);
      { FilterConcat([s[k]], after, p); }
      Filter(before, p) + (Filter([s[k]], p) + Filter(after, p));
      { assert Filter([s[k]], p) == [] + Filter([s[k]][1..], p);
        RemoveAbsentIsNoop(before, id);
        RemoveAbsentIsNoop(after, id); }
      before + ([] + after);
    }
  }

  /** With unique ids, no trade before or after position `k` has `s[k]`'s id. */
  lemma IdOnlyAt(s: seq<Trade>, k: nat)
    requires UniqueIds(s) && k < |s|
    ensures s[k].id !in Ids(s[..k]) && s[k].id !in Ids(s[k + 1..])
  {
    forall t | t in s[..k] ensures t.id != s[k].id {
      var i :| 0 <= i < k && s[..k][i] == t;
    }
    forall t | t in s[k + 1..] ensures t.id != s[k].id {
      var i :| 0 <= i < |s| - k - 1 && s[k + 1..][i] == t;
      assert s[k + 1 + i] == t;
    }
  }

  /** Filtering keeps ids unique. */
  lemma {:induction false} FilterKeepsUnique(s: seq<Trade>, p: Trade -> bool)
    requires UniqueIds(s)
    ensures UniqueIds(Filter(s, p))
  {
    if s != [] {
      FilterKeepsUnique(s[1..], p);
      var rest := Filter(s[1..], p);
      forall t | t in rest ensures t.id != s[0].id {
        var j :| 0 <= j < |s[1..]| && s[1..][j] == t;
        assert s[j + 1] == t;
      }
    }
  }

  /** Prepending a trade with a fresh id keeps ids unique. */
  lemma PrependKeepsUnique(t: Trade, s: seq<Trade>)
    requires UniqueIds(s) && t.id !in Ids(s)
    ensures UniqueIds([t] + s)
  {
    forall i, j | 0 <= i < j < |[t] + s| ensures ([t] + s)[i].id != ([t] + s)[j].id {
      if i == 0 {
        assert ([t] + s)[j] == s[j - 1];
        assert s[j - 1] in s;
      } else {
        assert ([t] + s)[i] == s[i - 1] && ([t] + s)[j] == s[j - 1];
      }
    }
  }

  /** Cleaning twice is cleaning once; in particular, reloading what was
      saved from a clean list gives that list back. */
  lemma CleanIdempotent(s: seq<Trade>)
    ensures Clean(Clean(s)) == Clean(s)
  {
    FilterIdempotent(s, WellFormed);
  }

  /** The load handler's test: when cleaning drops nothing, the cleaned
      list is the list itself, so replacing it changes nothing. */
  lemma CleanSameLength(s: seq<Trade>)
    requires |Clean(s)| == |s|
    ensures Clean(s) == s
  {
    FilterSameLength(s, WellFormed);
  }

  // ---------------------------------------------------------------------
  // The store

  /** The module-level `trades` array and its copy in local storage. */
  class TradeStore {
    var trades: seq<Trade>
    var stored: seq<Trade>

    /** Every trade in memory passes the clean-up test. */
    predicate Valid()
      reads this
    {
      forall t :: t in trades ==> WellFormed(t)
    }

    /** Start-up: the list is read from storage, then the first render
        cleans it; storage itself is not rewritten. */
    constructor Open(persisted: seq<Trade>)
      ensures stored == persisted
      ensures trades == Clean(persisted)
      ensures Valid()
    {
      stored := persisted;
      trades := persisted;
      new;
      RenderAll();
    }

    /** The clean-up at the start of `renderAll`. */
    method RenderAll()
      modifies this
      ensures trades == Clean(old(trades))
      ensures stored == old(stored)
      ensures Valid()
    {
      trades := Clean(trades);
    }

    /** `save()`: storage receives the whole list, then everything is
        re-rendered. */
    method Save()
      modifies this
      ensures stored == old(trades)
      ensures trades == Clean(old(trades))
      ensures old(Valid()) ==> trades == stored
      ensures Valid()
    {
      stored := trades;
      if Valid() {
        FilterAllKept(trades, WellFormed);
      }
      RenderAll();
    }

    /** The page-load handler: the cleaned list replaces the list only
        when nothing was dropped, which leaves it as it was; the render
        that follows then cleans it. Storage is not rewritten. */
    method OnLoad()
      modifies this
      ensures trades == Clean(old(trades))
      ensures stored == old(stored)
      ensures Valid()
    {
      var validTrades := Clean(trades);
      if |validTrades| == |trades| {
        CleanSameLength(trades);
        trades := validTrades;
      }
      RenderAll();
    }

    /** The submit handler, after the screenshot (if any) has been read.
        A rejected form changes nothing and writes nothing; an accepted one
        puts the new trade first and saves. */
    method Submit(form: TradeForm, id: string, today: string, now: string, screenshot: string) returns (saved: bool)
      requires id !in Ids(trades)
      modifies this
      ensures saved <==> MakeTrade(form, id, today, now, screenshot).Some?
      ensures !saved ==> trades == old(trades) && stored == old(stored)
      ensures saved ==> stored == [MakeTrade(form, id, today, now, screenshot).value] + old(trades)
      ensures saved ==> trades == Clean(stored)
      ensures saved && id != "" && old(Valid()) ==> trades == stored && trades[1..] == old(trades)
      ensures old(UniqueIds(trades)) ==> UniqueIds(trades)
      ensures old(Valid()) ==> Valid()
    {
      var made := MakeTrade(form, id, today, now, screenshot);
      if made.None? {
        return false;
      }
      var t := made.value;
      if UniqueIds(trades) {
        PrependKeepsUnique(t, trades);
      }
      ghost var before := trades;
      trades := [t] + trades;
      if id != "" && forall u :: u in before ==> WellFormed(u) {
        FilterAllKept(trades, WellFormed);
      }
      ghost var unique := UniqueIds(trades);
      Save();
      if unique {
        FilterKeepsUnique(stored, WellFormed);
      }
      saved := true;
    }

    /** The remove handler, once the user has confirmed: every trade with
        that id goes, and the list is saved. */
    method Remove(id: string)
      modifies this
      ensures stored == RemoveById(old(trades), id)
      ensures trades == Clean(stored)
      ensures old(Valid()) ==> trades == stored
      ensures old(UniqueIds(trades)) ==> UniqueIds(trades)
    {
      if UniqueIds(trades) {
        FilterKeepsUnique(trades, Differs(id));
      }
      trades := RemoveById(trades, id);
      ghost var unique := UniqueIds(trades);
      Save();
      if unique {
        FilterKeepsUnique(stored, WellFormed);
      }
    }
  }
}
