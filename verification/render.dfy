/** `renderAll`: one pass that sorts a copy of the entries newest first and
    derives from that copy everything the page shows: the filtered list, the
    two totals and both charts. */
module Render {
  import opened Optional
  import opened Calendar
  import opened Entries
  import opened Ordering
  import opened Filtering
  import opened Totals
  import opened CategoryBreakdown
  import opened MonthlyTrend
  import opened PieLayout
  import opened BarLayout
  import opened Currency

  /** The persisted state `{entries, currency}`. */
  datatype LedgerState = LedgerState(entries: seq<Entry>, currency: string)

  /** What one render puts on the page. */
  datatype View = View(
    list: seq<Entry>,
    total: int,
    monthTotal: int,
    totalText: string,
    monthText: string,
    pie: Pie,
    buckets: seq<Bucket>,
    bars: seq<Bar>)

  /** `renderAll(filters)` followed by `renderTotals` and `renderCharts` on
      the sorted copy. The two read the clock separately: `totalsNow` is the
      month `renderTotals` sees and `barsNow` the month `drawBar` sees. */
  function RenderAll(st: LedgerState, filters: Option<Filters>, totalsNow: YearMonth, barsNow: YearMonth): View {
    var sorted := SortNewestFirst(st.entries);
    var total := Total(sorted);
    var month := MonthTotal(sorted, totalsNow);
    var buckets := MonthlyBuckets(sorted, barsNow);
    View(
      ApplyFilters(sorted, filters),
      total,
      month,
      FormatCurrency(st.currency, Number(total)),
      FormatCurrency(st.currency, Number(month)),
      Layout(ByCategory(sorted)),
      buckets,
      Bars(BucketTotals(buckets), ChartFrame))
  }

  lemma SlicesEmptyIffNoEntries(s: seq<Entry>)
    ensures |ByCategory(s)| == 0 <==> |s| == 0
  {
    ByCategorySpec(s);
    if |s| > 0 {
      assert s[0].category in CategoriesOf(s);
    }
  }

  /** The list is newest first and holds exactly the entries that pass the
      filter (all of them when there is none); the totals are those of the
      ledger, whatever its order. */
  lemma ListAndTotals(st: LedgerState, filters: Option<Filters>, totalsNow: YearMonth, barsNow: YearMonth)
    ensures NewestFirst(RenderAll(st, filters, totalsNow, barsNow).list)
    ensures filters.None? ==> multiset(RenderAll(st, filters, totalsNow, barsNow).list) == multiset(st.entries)
    ensures filters.Some? ==> forall e ::
      multiset(RenderAll(st, filters, totalsNow, barsNow).list)[e]
        == if Passes(filters.value, e) then multiset(st.entries)[e] else 0
    ensures RenderAll(st, filters, totalsNow, barsNow).total == Total(st.entries)
    ensures RenderAll(st, filters, totalsNow, barsNow).monthTotal == MonthTotal(st.entries, totalsNow)
  {
    var sorted := SortNewestFirst(st.entries);
    if filters.Some? {
      FilterKeepsNewestFirst(Passing(filters.value), sorted);
    }
    SortKeepsTotal(st.entries);
    MonthTotalOfPermutation(sorted, st.entries, totalsNow);
  }

  /** The pie shows "No data" exactly when the ledger is empty; otherwise its
      wedges share out the ledger's total, closing the circle when the total
      is not zero. */
  lemma PieMatchesTotal(st: LedgerState, filters: Option<Filters>, totalsNow: YearMonth, barsNow: YearMonth)
    ensures RenderAll(st, filters, totalsNow, barsNow).pie.NoData? <==> |st.entries| == 0
    ensures SliceSum(ByCategory(SortNewestFirst(st.entries))) == RenderAll(st, filters, totalsNow, barsNow).total
    ensures var v := RenderAll(st, filters, totalsNow, barsNow);
      v.pie.Wedges? && v.total != 0 ==> v.pie.wedges[|v.pie.wedges| - 1].end == StartTurn + 1.0
  {
    var sorted := SortNewestFirst(st.entries);
    SlicesEmptyIffNoEntries(sorted);
    SlicesSumToTotal(sorted);
    LayoutSpec(ByCategory(sorted));
  }

  /** Six bars, the last for the month `drawBar` sees, holding that month's
      total of the ledger; when both functions see the same month, the last
      bar equals the "this month" figure. */
  lemma TrendMatchesMonthTotal(st: LedgerState, filters: Option<Filters>, totalsNow: YearMonth, barsNow: YearMonth)
    requires ValidMonth(barsNow)
    ensures |RenderAll(st, filters, totalsNow, barsNow).buckets| == WindowSize
    ensures |RenderAll(st, filters, totalsNow, barsNow).bars| == WindowSize
    ensures RenderAll(st, filters, totalsNow, barsNow).buckets[WindowSize - 1]
      == Bucket(barsNow, MonthTotal(st.entries, barsNow))
    ensures totalsNow == barsNow ==>
      var v := RenderAll(st, filters, totalsNow, barsNow);
      v.buckets[WindowSize - 1] == Bucket(barsNow, v.monthTotal)
  {
    var sorted := SortNewestFirst(st.entries);
    LastBucketIsMonthTotal(sorted, barsNow);
    MonthTotalOfPermutation(sorted, st.entries, barsNow);
    ListAndTotals(st, filters, totalsNow, barsNow);
  }

  /** The two figures read back as the totals they show. */
  lemma TotalsTextReadsBack(st: LedgerState, filters: Option<Filters>, totalsNow: YearMonth, barsNow: YearMonth)
    ensures ParseFormatted(st.currency, RenderAll(st, filters, totalsNow, barsNow).totalText) == Some(Total(st.entries))
    ensures ParseFormatted(st.currency, RenderAll(st, filters, totalsNow, barsNow).monthText) == Some(MonthTotal(st.entries, totalsNow))
  {
    var v := RenderAll(st, filters, totalsNow, barsNow);
    ListAndTotals(st, filters, totalsNow, barsNow);
    FormatRoundTrip(st.currency, Number(v.total));
    FormatRoundTrip(st.currency, Number(v.monthTotal));
  }
}
