/** Ledger entries and the sums the ledger takes over them. */
module Entries {
  import opened Calendar
  import opened Seqs

  /** One ledger record `{id, amount, category, date, note}`. The amount is in
      whole cents: the source keeps the float `parseFloat` returned, which
      this model takes to be exact at two decimals. */
  datatype Entry = Entry(id: string, amount: int, category: string, date: Date, note: string)

  /** What `parseFloat` or `Number` made of an amount: a number, in cents, or NaN. */
  datatype ParsedAmount = NaN | Number(cents: int)

  /** `reduce((s, e) => s + Number(e.amount), 0)`: the sum of all amounts,
      accumulated from the first entry to the last. */
  function Total(s: seq<Entry>): int
    decreases |s|
  {
    if |s| == 0 then 0 else Total(s[..|s| - 1]) + s[|s| - 1].amount
  }

  /** `reduce((s, e) => p(e) ? s + Number(e.amount) : s, 0)`: the sum of the
      amounts of the entries that pass `p`. */
  function SumWhere(p: Entry -> bool, s: seq<Entry>): int
    decreases |s|
  {
    if |s| == 0 then 0
    else SumWhere(p, s[..|s| - 1]) + (if p(s[|s| - 1]) then s[|s| - 1].amount else 0)
  }

  lemma {:induction false} TotalAppend(a: seq<Entry>, b: seq<Entry>)
    ensures Total(a + b) == Total(a) + Total(b)
    decreases |b|
  {
    if |b| == 0 {
      assert a + b == a;
    } else {
      assert (a + b)[..|a + b| - 1] == a + b[..|b| - 1];
      TotalAppend(a, b[..|b| - 1]);
    }
  }

  /** The total does not depend on the order of the entries. */
  lemma {:induction false} TotalOfPermutation(a: seq<Entry>, b: seq<Entry>)
    requires multiset(a) == multiset(b)
    ensures Total(a) == Total(b)
    decreases |a|
  {
    if |a| == 0 {
      assert |b| == |multiset(b)| == 0;
    } else {
      var init, x := a[..|a| - 1], a[|a| - 1];
      assert a == init + [x];
      assert x in multiset(b);
      var k :| 0 <= k < |b| && b[k] == x;
      var rest := b[..k] + b[k + 1..];
      RemoveOne(b, k);
      assert multiset(init) == multiset(a) - multiset{x};
      TotalOfPermutation(init, rest);
    }
  }

  /** Taking out the entry at `k` takes its amount out of the total and the
      entry out of the multiset. */
  lemma RemoveOne(b: seq<Entry>, k: nat)
    requires k < |b|
    ensures Total(b) == Total(b[..k] + b[k + 1..]) + b[k].amount
    ensures multiset(b[..k] + b[k + 1..]) == multiset(b) - multiset{b[k]}
  {
    var x, pre, post := b[k], b[..k], b[k + 1..];
    assert b == pre + b[k..];
    assert b[k..] == [x] + post;
    TotalAround(pre, x, post);
    MultisetAround(pre, x, post);
  }

  lemma TotalAround(pre: seq<Entry>, x: Entry, post: seq<Entry>)
    ensures Total(pre + ([x] + post)) == Total(pre + post) + x.amount
  {
    assert Total([x]) == x.amount by {
      assert [x][..0] == [];
    }
    TotalAppend(pre, [x] + post);
    TotalAppend([x], post);
    TotalAppend(pre, post);
  }

  lemma MultisetAround(pre: seq<Entry>, x: Entry, post: seq<Entry>)
    ensures multiset(pre + post) == multiset(pre + ([x] + post)) - multiset{x}
  {
    assert multiset(pre + ([x] + post)) == multiset(pre + post) + multiset{x};
  }

  /** Summing where `p` holds is totalling the entries that pass `p`. */
  lemma {:induction false} SumWhereIsTotalOfFilter(p: Entry -> bool, s: seq<Entry>)
    ensures SumWhere(p, s) == Total(Filter(p, s))
    decreases |s|
  {
    if |s| > 0 {
      var init, last := s[..|s| - 1], s[|s| - 1];
      SumWhereIsTotalOfFilter(p, init);
      TotalAppend(Filter(p, init), if p(last) then [last] else []);
      assert Total([last]) == last.amount by {
        assert [last][..0] == [];
      }
    }
  }

  /** Summing where `p` holds, after one more entry. */
  lemma SumWhereSnoc(p: Entry -> bool, s: seq<Entry>, e: Entry)
    ensures SumWhere(p, s + [e]) == SumWhere(p, s) + (if p(e) then e.amount else 0)
  {
    assert (s + [e])[..|s|] == s;
  }
}
