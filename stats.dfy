/** The figures the dashboard, the ticker and the PDF export derive from
    the trade list: net P/L, wins and losses, the win rate, the cumulative
    equity series, the monthly P/L buckets and the export summary. */
module Stats {
  import opened Wrappers
  import opened Seqs
  import opened Text
  import opened Pricing
  import opened Trades

  /** `Number(t.pl) || 0`: a missing or NaN P/L counts as zero. (The
      monthly chart writes `Number(t.pl || 0)`, which is the same number.) */
  function PlValue(t: Trade): (r: real)
    ensures t.pl.Some? && t.pl.value.Real? ==> r == t.pl.value.val
    ensures t.pl.None? || t.pl.value.NaN? ==> r == 0.0
  {
    if t.pl.Some? && t.pl.value.Real? then t.pl.value.val else 0.0
  }

  /** `trades.reduce((a, b) => a + (Number(b.pl) || 0), 0)`, folded from
      the left. It is zero for no trades, and it cannot be negative when
      no trade lost nor positive when no trade won. */
  function Net(s: seq<Trade>): (r: real)
    ensures s == [] ==> r == 0.0
    ensures (forall t :: t in s ==> PlValue(t) >= 0.0) ==> r >= 0.0
    ensures (forall t :: t in s ==> PlValue(t) <= 0.0) ==> r <= 0.0
  {
    if s == [] then 0.0
    else
      var front := s[..|s| - 1];
      assert forall t :: t in front ==> t in s;
      assert s[|s| - 1] in s;
      Net(front) + PlValue(s[|s| - 1])
  }

  /** Net P/L is additive over any split of the list. */
  lemma {:induction false} NetAppend(a: seq<Trade>, b: seq<Trade>)
    ensures Net(a + b) == Net(a) + Net(b)
    decreases |b|
  {
    if b == [] {
      assert a + b == a;
    } else {
      var front := b[..|b| - 1];
      assert (a + b)[..|a + b| - 1] == a + front;
      assert (a + b)[|a + b| - 1] == b[|b| - 1];
      NetAppend(a, front);
    }
  }

  lemma NetSingle(t: Trade)
    ensures Net([t]) == PlValue(t)
  {
    assert [t][..0] == [];
  }

  // ---------------------------------------------------------------------
  // Wins, losses and the win rate

  /** `Number(t.pl) > 0`. */
  predicate IsWin(t: Trade) { PlValue(t) > 0.0 }

  /** `Number(t.pl) < 0`. */
  predicate IsLoss(t: Trade) { PlValue(t) < 0.0 }

  /** The number of winning trades. */
  function Wins(s: seq<Trade>): (n: nat)
    ensures n <= |s|
    ensures n > 0 <==> exists t :: t in s && IsWin(t)
  {
    var w := Filter(s, IsWin);
    if w != [] then assert w[0] in w; |w| else |w|
  }

  /** The number of losing trades. */
  function Losses(s: seq<Trade>): (n: nat)
    ensures n <= |s|
    ensures n > 0 <==> exists t :: t in s && IsLoss(t)
  {
    var l := Filter(s, IsLoss);
    if l != [] then assert l[0] in l; |l| else |l|
  }

  /** No trade is both a win and a loss, and breakeven trades are neither,
      so the doughnut chart never shows more trades than there are. */
  lemma WinsAndLossesWithinTotal(s: seq<Trade>)
    ensures Wins(s) + Losses(s) <= |s|
  {
    FilterDisjointCount(s, IsWin, IsLoss);
  }

  /** Every trade is a win exactly when the win count is the trade count;
      none is exactly when the win count is zero. */
  lemma WinsAllOrNone(s: seq<Trade>)
    ensures Wins(s) == |s| <==> forall t :: t in s ==> IsWin(t)
    ensures Wins(s) == 0 <==> forall t :: t in s ==> !IsWin(t)
  {
    if Wins(s) == |s| {
      FilterSameLength(s, IsWin);
    }
    if forall t :: t in s ==> IsWin(t) {
      FilterAllKept(s, IsWin);
    }
    if forall t :: t in s ==> !IsWin(t) {
      FilterNoneKept(s, IsWin);
    }
    var w := Filter(s, IsWin);
    if w != [] {
      assert w[0] in w;
    }
  }

  /** A net profit needs at least one winning trade, a net loss at least
      one losing trade. */
  lemma {:induction false} NetSignNeedsTrade(s: seq<Trade>)
    ensures Net(s) > 0.0 ==> Wins(s) > 0
    ensures Net(s) < 0.0 ==> Losses(s) > 0
  {
    if s != [] {
      var front, last := s[..|s| - 1], s[|s| - 1];
      NetSignNeedsTrade(front);
      assert last in s;
      if IsWin(last) {
        assert last in Filter(s, IsWin);
      } else if Wins(front) > 0 {
        var w := Filter(front, IsWin);
        assert w[0] in w && w[0] in s;
        assert w[0] in Filter(s, IsWin);
      }
      if IsLoss(last) {
        assert last in Filter(s, IsLoss);
      } else if Losses(front) > 0 {
        var l := Filter(front, IsLoss);
        assert l[0] in l && l[0] in s;
        assert l[0] in Filter(s, IsLoss);
      }
    }
  }

  /** `(wins / total) * 100`, absent for an empty list (the dashboard
      shows a dash, the ticker `0`). It lies between 0 and 100, is 100
      exactly when every trade is a win and 0 exactly when none is. */
  function WinRate(s: seq<Trade>): (r: Option<real>)
    ensures r.None? <==> s == []
    ensures r.Some? ==> 0.0 <= r.value <= 100.0
    ensures r.Some? ==> (r.value == 100.0 <==> forall t :: t in s ==> IsWin(t))
    ensures r.Some? ==> (r.value == 0.0 <==> forall t :: t in s ==> !IsWin(t))
  {
    if s == [] then None
    else
      WinsAllOrNone(s);
      RatioFacts(Wins(s), |s|);
      Some((Wins(s) as real / |s| as real) * 100.0)
  }

  lemma RatioFacts(w: nat, n: nat)
    requires 0 < n && w <= n
    ensures 0.0 <= (w as real / n as real) * 100.0 <= 100.0
    ensures (w as real / n as real) * 100.0 == 100.0 <==> w == n
    ensures (w as real / n as real) * 100.0 == 0.0 <==> w == 0
  {
    var q := w as real / n as real;
    assert q * n as real == w as real;
    assert q <= 1.0 by {
      if q > 1.0 {
        assert q * n as real > n as real;
      }
    }
  }

  // ---------------------------------------------------------------------
  // The equity series

  /** The equity chart's labels and running totals: `cum` grows by each
      trade's P/L in list order, so each point is the net P/L of the trades
      up to it and the last point is the net P/L of the whole list. */
  method EquityCurve(trades: seq<Trade>) returns (labels: seq<string>, data: seq<real>)
    ensures |labels| == |trades| && |data| == |trades|
    ensures forall i :: 0 <= i < |trades| ==> labels[i] == trades[i].date
    ensures forall i :: 0 <= i < |trades| ==> data[i] == Net(trades[..i + 1])
    ensures forall i :: 0 < i < |trades| ==> data[i] == data[i - 1] + PlValue(trades[i])
    ensures trades != [] ==> data[|data| - 1] == Net(trades)
  {
    labels := seq(|trades|, i requires 0 <= i < |trades| => trades[i].date);
    var cum := 0.0;
    data := [];
    for i := 0 to |trades|
      invariant |data| == i
      invariant cum == Net(trades[..i])
      invariant forall j :: 0 <= j < i ==> data[j] == Net(trades[..j + 1])
    {
      assert trades[..i + 1][..i] == trades[..i];
      cum := cum + PlValue(trades[i]);
      data := data + [cum];
    }
    forall i | 0 < i < |trades|
      ensures data[i] == data[i - 1] + PlValue(trades[i])
    {
      assert trades[..i + 1][..i] == trades[..i];
    }
    assert trades[..|trades|] == trades;
  }

  // ---------------------------------------------------------------------
  // Monthly buckets

  /** `(t.date || '').slice(0, 7) || 'unknown'`: the first seven
      characters of the date (year and month of an ISO date), or
      `unknown` for a missing date. */
  function MonthKey(date: string): (r: string)
    ensures r != ""
    ensures date != "" ==> r <= date && |r| == if |date| < 7 then |date| else 7
    ensures date == "" ==> r == "unknown"
  {
    if date == "" then "unknown" else date[..if |date| < 7 then |date| else 7]
  }

  function SameMonth(k: string): Trade -> bool
  {
    (t: Trade) => MonthKey(t.date) == k
  }

  /** The net P/L of the trades of month `k`. */
  function MonthTotal(s: seq<Trade>, k: string): real
  {
    Net(Filter(s, SameMonth(k)))
  }

  /** The months that have at least one trade. */
  function MonthKeys(s: seq<Trade>): set<string>
  {
    set t | t in s :: MonthKey(t.date)
  }

  lemma MonthTotalSnoc(s: seq<Trade>, t: Trade, k: string)
    ensures MonthTotal(s + [t], k) == MonthTotal(s, k) + (if MonthKey(t.date) == k then PlValue(t) else 0.0)
  {
    var p := SameMonth(k);
    FilterConcat(s, [t], p);
    assert Filter([t], p) == (if p(t) then [t] else []) + Filter([t][1..], p);
    assert [t][1..] == [];
    NetAppend(Filter(s, p), Filter([t], p));
    NetSingle(t);
  }

  lemma MonthTotalAbsent(s: seq<Trade>, k: string)
    requires k !in MonthKeys(s)
    ensures MonthTotal(s, k) == 0.0
  {
    FilterNoneKept(s, SameMonth(k));
  }

  lemma MonthKeysSnoc(s: seq<Trade>, t: Trade)
    ensures MonthKeys(s + [t]) == MonthKeys(s) + {MonthKey(t.date)}
  {
    assert forall u :: u in s + [t] <==> u in s || u == t;
  }

  /** One step of the `forEach` that fills `monthly`: adding trade `i`
      to its month's entry keeps every entry equal to its month's total. */
  lemma MonthlyStep(trades: seq<Trade>, i: nat, monthly: map<string, real>, v: real)
    requires i < |trades|
    requires monthly.Keys == MonthKeys(trades[..i])
    requires forall k :: k in monthly ==> monthly[k] == MonthTotal(trades[..i], k)
    requires var m := MonthKey(trades[i].date);
             v == (if m in monthly then monthly[m] else 0.0) + PlValue(trades[i])
    ensures var next := monthly[MonthKey(trades[i].date) := v];
            && next.Keys == MonthKeys(trades[..i + 1])
            && forall k :: k in next ==> next[k] == MonthTotal(trades[..i + 1], k)
  {
    var s, t := trades[..i], trades[i];
    assert trades[..i + 1] == s + [t];
    var m := MonthKey(t.date);
    var next := monthly[m := v];
    MonthKeysSnoc(s, t);
    assert next.Keys == monthly.Keys + {m};
    forall k | k in next
      ensures next[k] == MonthTotal(s + [t], k)
    {
      MonthTotalSnoc(s, t, k);
      if k != m {
        assert next[k] == monthly[k];
      } else if m in monthly {
        assert next[k] == monthly[m] + PlValue(t);
      } else {
        MonthTotalAbsent(s, m);
        assert next[k] == PlValue(t);
      }
    }
  }

  /** Pairwise different. */
  ghost predicate Distinct(xs: seq<string>)
  {
    forall i, j :: 0 <= i < j < |xs| ==> xs[i] != xs[j]
  }

  lemma SortedDistinct(xs: seq<string>)
    requires Sorted(xs)
    ensures Distinct(xs)
  {
    forall i, j | 0 <= i < j < |xs| ensures xs[i] != xs[j] {
      LessIrreflexive(xs[i]);
    }
  }

  function Sum(v: seq<real>): real
  {
    if v == [] then 0.0 else v[0] + Sum(v[1..])
  }

  /** The month totals of `s` for the keys `ks`, added up. */
  function SumTotals(ks: seq<string>, s: seq<Trade>): real
  {
    if ks == [] then 0.0 else MonthTotal(s, ks[0]) + SumTotals(ks[1..], s)
  }

  lemma {:induction false} SumIsSumTotals(ks: seq<string>, v: seq<real>, s: seq<Trade>)
    requires |v| == |ks|
    requires forall i :: 0 <= i < |ks| ==> v[i] == MonthTotal(s, ks[i])
    ensures Sum(v) == SumTotals(ks, s)
  {
    if ks != [] {
      SumIsSumTotals(ks[1..], v[1..], s);
    }
  }

  lemma {:induction false} SumTotalsEmpty(ks: seq<string>)
    ensures SumTotals(ks, []) == 0.0
  {
    if ks != [] {
      SumTotalsEmpty(ks[1..]);
    }
  }

  lemma {:induction false} SumTotalsSnoc(ks: seq<string>, s: seq<Trade>, t: Trade)
    requires Distinct(ks)
    ensures SumTotals(ks, s + [t]) == SumTotals(ks, s) + (if MonthKey(t.date) in ks then PlValue(t) else 0.0)
  {
    if ks != [] {
      var rest := ks[1..];
      assert Distinct(rest) by {
        forall i, j | 0 <= i < j < |rest| ensures rest[i] != rest[j] {
          assert rest[i] == ks[i + 1] && rest[j] == ks[j + 1];
        }
      }
      assert ks[0] !in rest by {
        forall j | 0 <= j < |rest| ensures rest[j] != ks[0] {
          assert rest[j] == ks[j + 1];
        }
      }
      assert MonthKey(t.date) in ks <==> MonthKey(t.date) == ks[0] || MonthKey(t.date) in rest;
      MonthTotalSnoc(s, t, ks[0]);
      SumTotalsSnoc(rest, s, t);
    }
  }

  /** Adding up the totals of distinct months that cover every trade gives
      the net P/L. */
  lemma {:induction false} SumTotalsIsNet(ks: seq<string>, s: seq<Trade>)
    requires Distinct(ks)
    requires forall t :: t in s ==> MonthKey(t.date) in ks
    ensures SumTotals(ks, s) == Net(s)
    decreases |s|
  {
    if s == [] {
      SumTotalsEmpty(ks);
    } else {
      var front, last := s[..|s| - 1], s[|s| - 1];
      assert s == front + [last];
      assert last in s;
      SumTotalsIsNet(ks, front);
      SumTotalsSnoc(ks, front, last);
    }
  }

  /** The `forEach` that fills `monthly`: one entry per month that has
      trades, holding that month's net P/L. */
  method MonthlyTotals(trades: seq<Trade>) returns (monthly: map<string, real>)
    ensures monthly.Keys == MonthKeys(trades)
    ensures forall k :: k in monthly ==> monthly[k] == MonthTotal(trades, k)
  {
    monthly := map[];
    for i := 0 to |trades|
      invariant monthly.Keys == MonthKeys(trades[..i])
      invariant forall k :: k in monthly ==> monthly[k] == MonthTotal(trades[..i], k)
    {
      var t := trades[i];
      var m := MonthKey(t.date);
      var v := (if m in monthly then monthly[m] else 0.0) + PlValue(t);
      MonthlyStep(trades, i, monthly, v);
      monthly := monthly[m := v];
    }
    assert trades[..|trades|] == trades;
  }

  /** `Object.keys(monthly).sort()`: the keys in increasing order, each
      once. */
  method SortedKeys(monthly: map<string, real>) returns (months: seq<string>)
    ensures Sorted(months)
    ensures forall k :: k in months <==> k in monthly
  {
    var keys := monthly.Keys;
    months := [];
    while keys != {}
      invariant Sorted(months)
      invariant keys <= monthly.Keys
      invariant forall k :: k in months <==> k in monthly && k !in keys
      decreases |keys|
    {
      var k :| k in keys;
      months := InsertSorted(months, k);
      keys := keys - {k};
    }
  }

  /** The monthly chart: the months are in increasing order without
      repetitions, they are exactly the months that have trades, each bar
      is that month's net P/L, and the bars add up to the net P/L of the
      whole list. */
  method MonthlyBuckets(trades: seq<Trade>) returns (months: seq<string>, mdata: seq<real>)
    ensures Sorted(months)
    ensures forall k :: k in months <==> k in MonthKeys(trades)
    ensures |mdata| == |months|
    ensures forall i :: 0 <= i < |months| ==> mdata[i] == MonthTotal(trades, months[i])
    ensures Sum(mdata) == Net(trades)
  {
    var monthly := MonthlyTotals(trades);
    months := SortedKeys(monthly);
    mdata := seq(|months|, i requires 0 <= i < |months| => monthly[months[i]]);
    SortedDistinct(months);
    SumIsSumTotals(months, mdata, trades);
    SumTotalsIsNet(months, trades);
  }

  // ---------------------------------------------------------------------
  // The PDF export summary

  datatype Summary = Summary(count: nat, net: real)

  /** The export's header figures: nothing for an empty list (the export
      stops with a message), otherwise the trade count and the net P/L
      rounded to cents. */
  function ExportSummary(s: seq<Trade>): (r: Option<Summary>)
    ensures r.None? <==> s == []
    ensures r.Some? ==> r.value.count == |s|
    ensures r.Some? ==> -0.005 <= r.value.net - Net(s) <= 0.005 && TwoDecimals(r.value.net)
    ensures r.Some? ==> (Net(s) >= 0.0 ==> r.value.net >= 0.0) && (Net(s) <= 0.0 ==> r.value.net <= 0.0)
  {
    if s == [] then None else Some(Summary(|s|, Round2(Net(s))))
  }
}
