/** `renderTotals`: the grand total and the current calendar month's total. */
module Totals {
  import opened Calendar
  import opened Seqs
  import opened Entries

  function InMonth(ym: YearMonth): Entry -> bool {
    (e: Entry) => MonthOf(e.date) == ym
  }

  /** The this-month reduce: the amounts of the entries whose year and month
      are those of `now`. A calendar month, not a rolling 30 days. */
  function MonthTotal(s: seq<Entry>, now: YearMonth): (t: int)
    ensures t == Total(Filter(InMonth(now), s))
  {
    SumWhereIsTotalOfFilter(InMonth(now), s);
    SumWhere(InMonth(now), s)
  }

  /** When every entry falls in the month, the month total is the grand total. */
  lemma MonthTotalOfOneMonth(s: seq<Entry>, now: YearMonth)
    requires forall i :: 0 <= i < |s| ==> MonthOf(s[i].date) == now
    ensures MonthTotal(s, now) == Total(s)
  {
    FilterKeepsAll(InMonth(now), s);
  }

  /** Entries of other months leave the month total unchanged. */
  lemma MonthTotalIgnoresOtherMonths(s: seq<Entry>, e: Entry, now: YearMonth)
    requires MonthOf(e.date) != now
    ensures MonthTotal(s + [e], now) == MonthTotal(s, now)
  {
    SumWhereSnoc(InMonth(now), s, e);
  }

  /** The month total does not depend on the order of the entries. */
  lemma MonthTotalOfPermutation(a: seq<Entry>, b: seq<Entry>, now: YearMonth)
    requires multiset(a) == multiset(b)
    ensures MonthTotal(a, now) == MonthTotal(b, now)
  {
    var p := InMonth(now);
    FilterContents(p, a);
    FilterContents(p, b);
    assert multiset(Filter(p, a)) == multiset(Filter(p, b));
    TotalOfPermutation(Filter(p, a), Filter(p, b));
  }
}
