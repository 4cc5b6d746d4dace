/** The journal table's row selection: a category filter button and a
    free-text search box narrow the trade list, keeping its order. */
module Journal {
  import opened Seqs
  import opened Text
  import opened Classifier
  import opened Trades

  /** The search test: the lower-cased search text occurs in the
      lower-cased symbol or in the lower-cased notes. */
  predicate MatchesSearch(t: Trade, search: string)
  {
    var needle := ToLower(search);
    Includes(ToLower(t.symbol), needle) || Includes(ToLower(t.notes), needle)
  }

  /** The row test of the journal: an empty or `All` filter passes every
      category, any other filter must equal the trade's category name; an
      empty search passes every trade. */
  predicate Shown(filter: string, search: string, t: Trade): (r: bool)
    ensures (filter == "" || filter == "All") && search == "" ==> r
    ensures r && filter != "" && filter != "All" ==> Name(GetCategory(t.symbol)) == filter
    ensures r && search != "" ==>
      Includes(ToLower(t.symbol), ToLower(search)) || Includes(ToLower(t.notes), ToLower(search))
  {
    && (filter == "" || filter == "All" || Name(GetCategory(t.symbol)) == filter)
    && (search == "" || MatchesSearch(t, search))
  }

  /** The rows the journal shows, in list order. */
  function JournalRows(s: seq<Trade>, filter: string, search: string): (r: seq<Trade>)
    ensures |r| <= |s|
    ensures forall t :: t in r <==> t in s && Shown(filter, search, t)
  {
    Filter(s, (t: Trade) => Shown(filter, search, t))
  }

  /** With `All` (or no filter) and an empty search, every trade is shown,
      in order. */
  lemma AllShowsEverything(s: seq<Trade>)
    ensures JournalRows(s, "All", "") == s
    ensures JournalRows(s, "", "") == s
  {
    FilterAllKept(s, (t: Trade) => Shown("All", "", t));
    FilterAllKept(s, (t: Trade) => Shown("", "", t));
  }

  /** A category button shows exactly the trades the classifier puts in
      that category, in order. */
  lemma CategoryFilterSelectsCategory(s: seq<Trade>, c: Category)
    ensures JournalRows(s, Name(c), "") == Filter(s, (t: Trade) => GetCategory(t.symbol) == c)
  {
    forall t | t in s
      ensures Shown(Name(c), "", t) == (GetCategory(t.symbol) == c)
    {
      var g := GetCategory(t.symbol);
      assert Name(g) == Name(c) <==> g == c;
    }
    FilterCongruent(s, (t: Trade) => Shown(Name(c), "", t), (t: Trade) => GetCategory(t.symbol) == c);
  }

  /** A filter that is neither empty, nor `All`, nor a category name shows
      no row at all. */
  lemma UnknownFilterShowsNothing(s: seq<Trade>, filter: string, search: string)
    requires filter != "" && filter != "All"
    requires forall c: Category :: Name(c) != filter
    ensures JournalRows(s, filter, search) == []
  {
    FilterNoneKept(s, (t: Trade) => Shown(filter, search, t));
  }

  /** The search ignores case: searching the upper-cased text selects the
      same rows. */
  lemma SearchIgnoresCase(s: seq<Trade>, filter: string, search: string)
    ensures JournalRows(s, filter, ToUpper(search)) == JournalRows(s, filter, search)
  {
    LowerOfUpper(search);
    assert ToUpper(search) == "" <==> search == "";
    FilterCongruent(s, (t: Trade) => Shown(filter, ToUpper(search), t), (t: Trade) => Shown(filter, search, t));
  }

  /** Filtering works trade by trade: the rows of a concatenation are the
      rows of each part, one after the other, so the list order is kept. */
  lemma RowsOfConcat(a: seq<Trade>, b: seq<Trade>, filter: string, search: string)
    ensures JournalRows(a + b, filter, search) == JournalRows(a, filter, search) + JournalRows(b, filter, search)
  {
    FilterConcat(a, b, (t: Trade) => Shown(filter, search, t));
  }
}
