/** The display order `renderAll` makes: a copy of the entries sorted by
    `(a, b) => new Date(b.date) - new Date(a.date)`, newest first.
    `Array.prototype.sort` is stable, so entries of the same day keep the
    order they have in the ledger. */
module Ordering {
  import opened Calendar
  import opened Seqs
  import opened Entries

  /** `new Date(e.date)`: the instant the comparator subtracts. */
  function Key(e: Entry): int {
    StartOfDay(e.date)
  }

  predicate NewestFirst(s: seq<Entry>) {
    forall i, j :: 0 <= i < j < |s| ==> Key(s[i]) >= Key(s[j])
  }

  /** Places `x` before the first entry that is not newer than it. */
  function Insert(x: Entry, s: seq<Entry>): (r: seq<Entry>)
    requires NewestFirst(s)
    ensures NewestFirst(r)
    ensures multiset(r) == multiset(s) + multiset{x}
    decreases |s|
  {
    if |s| == 0 then [x]
    else if Key(s[0]) <= Key(x) then
      ConsNewestFirst(x, s);
      [x] + s
    else
      var rest := Insert(x, s[1..]);
      InsertBehind(x, s, rest);
      [s[0]] + rest
  }

  /** An entry no older than the head of a newest-first list can go in front. */
  lemma ConsNewestFirst(a: Entry, s: seq<Entry>)
    requires NewestFirst(s)
    requires |s| > 0 ==> Key(s[0]) <= Key(a)
    ensures NewestFirst([a] + s)
  {
  }

  /** The step of `Insert` that keeps the head and inserts into the tail. */
  lemma InsertBehind(x: Entry, s: seq<Entry>, rest: seq<Entry>)
    requires |s| > 0 && NewestFirst(s) && Key(s[0]) > Key(x)
    requires NewestFirst(rest)
    requires multiset(rest) == multiset(s[1..]) + multiset{x}
    ensures NewestFirst([s[0]] + rest)
    ensures multiset([s[0]] + rest) == multiset(s) + multiset{x}
  {
    assert s == [s[0]] + s[1..];
    if |rest| > 0 {
      assert rest[0] in multiset(rest);
      if rest[0] != x {
        assert rest[0] in s[1..];
      }
    }
    ConsNewestFirst(s[0], rest);
  }

  /** `entries.slice().sort(...)`, as a stable insertion sort. */
  function SortNewestFirst(s: seq<Entry>): (r: seq<Entry>)
    ensures NewestFirst(r)
    ensures multiset(r) == multiset(s)
    ensures |r| == |s|
    decreases |s|
  {
    if |s| == 0 then []
    else
      assert s == [s[0]] + s[1..];
      Insert(s[0], SortNewestFirst(s[1..]))
  }

  function OnDay(k: int): Entry -> bool {
    (e: Entry) => Key(e) == k
  }

  lemma FilterSingleton(p: Entry -> bool, x: Entry)
    ensures Filter(p, [x]) == if p(x) then [x] else []
  {
    assert [x][..0] == [];
  }

  lemma {:induction false} InsertIsStable(x: Entry, s: seq<Entry>, k: int)
    requires NewestFirst(s)
    ensures Filter(OnDay(k), Insert(x, s)) == Filter(OnDay(k), [x]) + Filter(OnDay(k), s)
    decreases |s|
  {
    if |s| == 0 {
      assert Insert(x, s) == [x] && [x] + s == [x];
    } else if Key(s[0]) <= Key(x) {
      assert Insert(x, s) == [x] + s;
      FilterAppend(OnDay(k), [x], s);
    } else {
      InsertIsStable(x, s[1..], k);
      InsertBehindIsStable(x, s, k);
    }
  }

  /** The step of `InsertIsStable` where `x` goes behind the head: the head
      and `x` are of different days, so at most one of them is kept. */
  lemma InsertBehindIsStable(x: Entry, s: seq<Entry>, k: int)
    requires |s| > 0 && NewestFirst(s) && Key(s[0]) > Key(x)
    requires Filter(OnDay(k), Insert(x, s[1..])) == Filter(OnDay(k), [x]) + Filter(OnDay(k), s[1..])
    ensures Filter(OnDay(k), Insert(x, s)) == Filter(OnDay(k), [x]) + Filter(OnDay(k), s)
  {
    var p, rest := OnDay(k), s[1..];
    var fx, f0, fr := Filter(p, [x]), Filter(p, [s[0]]), Filter(p, rest);
    assert Filter(p, Insert(x, s)) == f0 + (fx + fr) by {
      assert Insert(x, s) == [s[0]] + Insert(x, rest);
      FilterAppend(p, [s[0]], Insert(x, rest));
    }
    assert Filter(p, s) == f0 + fr by {
      assert s == [s[0]] + rest;
      FilterAppend(p, [s[0]], rest);
    }
    assert f0 == [] || fx == [] by {
      FilterSingleton(p, s[0]);
      FilterSingleton(p, x);
    }
    SwapWithEmpty(f0, fx, fr);
  }

  lemma SwapWithEmpty(a: seq<Entry>, b: seq<Entry>, c: seq<Entry>)
    requires a == [] || b == []
    ensures a + (b + c) == b + (a + c)
  {
    if a == [] {
      assert a + (b + c) == b + c == b + (a + c);
    } else {
      assert a + (b + c) == a + c == b + (a + c);
    }
  }

  /** The sort is stable: the entries of any one day appear in the sorted
      copy in the order they had in the ledger. */
  lemma {:induction false} SortIsStable(s: seq<Entry>, k: int)
    ensures Filter(OnDay(k), SortNewestFirst(s)) == Filter(OnDay(k), s)
    decreases |s|
  {
    if |s| > 0 {
      assert s == [s[0]] + s[1..];
      SortIsStable(s[1..], k);
      InsertIsStable(s[0], SortNewestFirst(s[1..]), k);
      FilterAppend(OnDay(k), [s[0]], s[1..]);
    }
  }

  /** Sorting leaves the grand total as it was. */
  lemma SortKeepsTotal(s: seq<Entry>)
    ensures Total(SortNewestFirst(s)) == Total(s)
  {
    TotalOfPermutation(SortNewestFirst(s), s);
  }

  /** Keeping some of a newest-first list's entries keeps it newest first. */
  lemma {:induction false} FilterKeepsNewestFirst(p: Entry -> bool, s: seq<Entry>)
    requires NewestFirst(s)
    ensures NewestFirst(Filter(p, s))
    decreases |s|
  {
    if |s| > 0 {
      var init, last := s[..|s| - 1], s[|s| - 1];
      FilterKeepsNewestFirst(p, init);
      if p(last) {
        var r := Filter(p, init);
        FilterContents(p, init);
        forall i | 0 <= i < |r|
          ensures Key(r[i]) >= Key(last)
        {
          assert r[i] in init;
        }
      }
    }
  }
}
