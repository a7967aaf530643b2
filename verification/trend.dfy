/** The month bucketing of `drawBar`: totals for the six calendar months
    ending at the current one, oldest first. */
module MonthlyTrend {
  import opened Calendar
  import opened Entries
  import opened Totals

  const WindowSize: nat := 6

  /** One bar's month and the sum of that month's amounts. */
  datatype Bucket = Bucket(month: YearMonth, total: int)

  /** The loop `for (i = 5; i >= 0; i--)` pushing `new Date(year, month - i, 1)`:
      bucket `k` is `5 - k` months before `now`, starting at zero. */
  function EmptyWindow(now: YearMonth): seq<Bucket> {
    seq(WindowSize, k => Bucket(AddMonths(now, k - (WindowSize - 1)), 0))
  }

  /** `months.find(x => x.key === key)`: the first bucket for month `ym`, or -1. */
  function BucketIndex(bs: seq<Bucket>, ym: YearMonth): (i: int)
    ensures -1 <= i < |bs|
    ensures 0 <= i ==> bs[i].month == ym
    ensures i == -1 <==> forall j :: 0 <= j < |bs| ==> bs[j].month != ym
    decreases |bs|
  {
    if |bs| == 0 then -1
    else if bs[0].month == ym then 0
    else
      var k := BucketIndex(bs[1..], ym);
      if k == -1 then -1 else k + 1
  }

  /** One step of the `forEach`: the entry's amount goes to the bucket of its
      month, and is dropped when no bucket has that month. */
  function AddToBuckets(bs: seq<Bucket>, e: Entry): seq<Bucket> {
    var i := BucketIndex(bs, MonthOf(e.date));
    if i >= 0 then bs[i := Bucket(bs[i].month, bs[i].total + e.amount)] else bs
  }

  /** The `months` array after the `forEach` over the entries. */
  function MonthlyBuckets(s: seq<Entry>, now: YearMonth): seq<Bucket>
    decreases |s|
  {
    if |s| == 0 then EmptyWindow(now)
    else AddToBuckets(MonthlyBuckets(s[..|s| - 1], now), s[|s| - 1])
  }

  /** Month `ym` is one of the six months ending at `now`. */
  predicate InWindow(ym: YearMonth, now: YearMonth) {
    ValidMonth(ym) && MonthNumber(now) - (WindowSize - 1) <= MonthNumber(ym) <= MonthNumber(now)
  }

  /** The window is six consecutive months, oldest first, ending at `now`,
      each the calendar successor of the one before (December rolling over
      into the next year's January). */
  lemma WindowShape(now: YearMonth)
    requires ValidMonth(now)
    ensures |EmptyWindow(now)| == WindowSize
    ensures EmptyWindow(now)[WindowSize - 1].month == now
    ensures forall k :: 0 <= k < WindowSize - 1 ==>
      EmptyWindow(now)[k + 1].month == NextMonth(EmptyWindow(now)[k].month)
    ensures forall k :: 0 <= k < WindowSize ==> InWindow(EmptyWindow(now)[k].month, now)
    ensures forall ym :: InWindow(ym, now) ==>
      exists k :: 0 <= k < WindowSize && EmptyWindow(now)[k].month == ym
  {
    AddZeroMonths(now);
    WindowConsecutive(now);
    WindowInside(now);
    WindowCovers(now);
  }

  lemma WindowConsecutive(now: YearMonth)
    requires ValidMonth(now)
    ensures forall k :: 0 <= k < WindowSize - 1 ==>
      EmptyWindow(now)[k + 1].month == NextMonth(EmptyWindow(now)[k].month)
  {
    forall k | 0 <= k < WindowSize - 1
      ensures EmptyWindow(now)[k + 1].month == NextMonth(EmptyWindow(now)[k].month)
    {
      AddMonthsStep(now, k - (WindowSize - 1));
    }
  }

  lemma WindowInside(now: YearMonth)
    requires ValidMonth(now)
    ensures forall k :: 0 <= k < WindowSize ==> InWindow(EmptyWindow(now)[k].month, now)
  {
    forall k | 0 <= k < WindowSize
      ensures InWindow(EmptyWindow(now)[k].month, now)
    {
      assert EmptyWindow(now)[k].month == AddMonths(now, k - (WindowSize - 1));
    }
  }

  lemma WindowCovers(now: YearMonth)
    requires ValidMonth(now)
    ensures forall ym :: InWindow(ym, now) ==>
      exists k :: 0 <= k < WindowSize && EmptyWindow(now)[k].month == ym
  {
    forall ym | InWindow(ym, now)
      ensures exists k :: 0 <= k < WindowSize && EmptyWindow(now)[k].month == ym
    {
      var k := MonthNumber(ym) - MonthNumber(now) + (WindowSize - 1);
      var w := EmptyWindow(now);
      assert w[k].month == AddMonths(now, k - (WindowSize - 1));
      MonthNumberInjective(w[k].month, ym);
    }
  }

  /** What the buckets hold after the entries of `s` are added: bucket `k` is
      `5 - k` months before `now` and holds the sum of that month's amounts. */
  predicate BucketsHoldMonthSums(bs: seq<Bucket>, s: seq<Entry>, now: YearMonth) {
    && |bs| == WindowSize
    && (forall k :: 0 <= k < WindowSize ==> bs[k].month == AddMonths(now, k - (WindowSize - 1)))
    && (forall k :: 0 <= k < WindowSize ==> bs[k].total == MonthTotal(s, bs[k].month))
  }

  lemma AddKeepsMonthSums(bs: seq<Bucket>, s: seq<Entry>, e: Entry, now: YearMonth)
    requires BucketsHoldMonthSums(bs, s, now)
    ensures BucketsHoldMonthSums(AddToBuckets(bs, e), s + [e], now)
  {
    forall k | 0 <= k < WindowSize
      ensures AddToBuckets(bs, e)[k].month == bs[k].month
      ensures AddToBuckets(bs, e)[k].total == MonthTotal(s + [e], bs[k].month)
    {
      AddKeepsBucketSum(bs, s, e, now, k);
    }
  }

  /** Bucket `k` after one more entry: the entry's amount is added exactly
      when the entry is dated in the bucket's month. */
  lemma AddKeepsBucketSum(bs: seq<Bucket>, s: seq<Entry>, e: Entry, now: YearMonth, k: nat)
    requires k < WindowSize
    requires BucketsHoldMonthSums(bs, s, now)
    ensures AddToBuckets(bs, e)[k].month == bs[k].month
    ensures AddToBuckets(bs, e)[k].total == MonthTotal(s + [e], bs[k].month)
  {
    var i := BucketIndex(bs, MonthOf(e.date));
    SumWhereSnoc(InMonth(bs[k].month), s, e);
    assert MonthTotal(s + [e], bs[k].month)
      == MonthTotal(s, bs[k].month) + (if MonthOf(e.date) == bs[k].month then e.amount else 0);
    if i >= 0 && k != i {
      assert bs[k].month == AddMonths(now, k - (WindowSize - 1));
      assert bs[i].month == AddMonths(now, i - (WindowSize - 1));
      MonthNumberInjective(bs[k].month, bs[i].month);
    }
  }

  /** After the `forEach`, bucket `k` holds the total of the entries dated in
      its month, whatever order the entries come in. */
  lemma MonthlyBucketsSpec(s: seq<Entry>, now: YearMonth)
    ensures |MonthlyBuckets(s, now)| == WindowSize
    ensures forall k :: 0 <= k < WindowSize ==>
      MonthlyBuckets(s, now)[k].month == EmptyWindow(now)[k].month
    ensures forall k :: 0 <= k < WindowSize ==>
      MonthlyBuckets(s, now)[k].total == MonthTotal(s, MonthlyBuckets(s, now)[k].month)
  {
    MonthlyBucketsHold(s, now);
  }

  lemma {:induction false} MonthlyBucketsHold(s: seq<Entry>, now: YearMonth)
    ensures BucketsHoldMonthSums(MonthlyBuckets(s, now), s, now)
    decreases |s|
  {
    if |s| > 0 {
      var init, e := s[..|s| - 1], s[|s| - 1];
      MonthlyBucketsHold(init, now);
      AddKeepsMonthSums(MonthlyBuckets(init, now), init, e, now);
      assert s == init + [e];
    }
  }

  /** The last bar is the current month, and holds the same total as the
      "this month" figure of `renderTotals`. */
  lemma LastBucketIsMonthTotal(s: seq<Entry>, now: YearMonth)
    requires ValidMonth(now)
    ensures |MonthlyBuckets(s, now)| == WindowSize
    ensures MonthlyBuckets(s, now)[WindowSize - 1] == Bucket(now, MonthTotal(s, now))
  {
    MonthlyBucketsSpec(s, now);
    WindowShape(now);
  }

  /** An entry dated outside the six months leaves every bucket as it was. */
  lemma OutOfWindowEntryIgnored(s: seq<Entry>, e: Entry, now: YearMonth)
    requires !InWindow(MonthOf(e.date), now)
    ensures MonthlyBuckets(s + [e], now) == MonthlyBuckets(s, now)
  {
    assert (s + [e])[..|s|] == s;
    var bs := MonthlyBuckets(s, now);
    MonthlyBucketsSpec(s, now);
    var i := BucketIndex(bs, MonthOf(e.date));
    if i >= 0 {
      assert bs[i].month == AddMonths(now, i - (WindowSize - 1)) by {
        assert bs[i].month == EmptyWindow(now)[i].month;
      }
    }
  }
}
