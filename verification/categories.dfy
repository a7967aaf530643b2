/** `aggregateByCategory`: per-category sums, one slice per category that
    occurs, in the order the categories first occur in the input (the
    insertion order of the object's string keys). */
module CategoryBreakdown {
  import opened Entries

  datatype Slice = Slice(category: string, value: int)

  /** Position of the slice for category `c`, or -1 when there is none. */
  function SliceIndex(sl: seq<Slice>, c: string): (i: int)
    ensures -1 <= i < |sl|
    ensures 0 <= i ==> sl[i].category == c
    ensures i == -1 <==> forall j :: 0 <= j < |sl| ==> sl[j].category != c
    decreases |sl|
  {
    if |sl| == 0 then -1
    else if sl[0].category == c then 0
    else
      var k := SliceIndex(sl[1..], c);
      if k == -1 then -1 else k + 1
  }

  /** One step of the `forEach`: `map[c] = (map[c] || 0) + Number(e.amount)`,
      a category met for the first time becoming the last key. */
  function AddToSlices(sl: seq<Slice>, e: Entry): seq<Slice> {
    var i := SliceIndex(sl, e.category);
    if i >= 0 then sl[i := Slice(e.category, sl[i].value + e.amount)]
    else sl + [Slice(e.category, e.amount)]
  }

  /** `aggregateByCategory(entries)`. */
  function ByCategory(s: seq<Entry>): seq<Slice>
    decreases |s|
  {
    if |s| == 0 then [] else AddToSlices(ByCategory(s[..|s| - 1]), s[|s| - 1])
  }

  function CategoriesOf(s: seq<Entry>): set<string> {
    set i | 0 <= i < |s| :: s[i].category
  }

  function SliceCategories(sl: seq<Slice>): set<string> {
    set i | 0 <= i < |sl| :: sl[i].category
  }

  function InCategory(c: string): Entry -> bool {
    (e: Entry) => e.category == c
  }

  /** Where category `c` first occurs in `s`; `|s|` when it does not occur. */
  function FirstIndex(s: seq<Entry>, c: string): (i: nat)
    ensures i <= |s|
    ensures i < |s| ==> s[i].category == c
    ensures forall j :: 0 <= j < i ==> s[j].category != c
    decreases |s|
  {
    if |s| == 0 || s[0].category == c then 0 else 1 + FirstIndex(s[1..], c)
  }

  /** The sum of the slice values, as `drawPie` reduces them. */
  function SliceSum(sl: seq<Slice>): int
    decreases |sl|
  {
    if |sl| == 0 then 0 else SliceSum(sl[..|sl| - 1]) + sl[|sl| - 1].value
  }

  predicate DistinctCategories(sl: seq<Slice>) {
    forall i, j :: 0 <= i < j < |sl| ==> sl[i].category != sl[j].category
  }

  lemma CategoriesSnoc(s: seq<Entry>, e: Entry)
    ensures CategoriesOf(s + [e]) == CategoriesOf(s) + {e.category}
  {
    var t := s + [e];
    forall c | c in CategoriesOf(s)
      ensures c in CategoriesOf(t)
    {
      var i :| 0 <= i < |s| && s[i].category == c;
      assert t[i].category == c;
    }
    assert t[|s|].category == e.category;
  }

  lemma FirstIndexSnoc(s: seq<Entry>, e: Entry, c: string)
    ensures FirstIndex(s, c) < |s| <==> c in CategoriesOf(s)
    ensures c in CategoriesOf(s) ==> FirstIndex(s + [e], c) == FirstIndex(s, c)
    ensures c !in CategoriesOf(s) && c == e.category ==> FirstIndex(s + [e], c) == |s|
  {
    var t, f := s + [e], FirstIndex(s, c);
    forall j | 0 <= j < f
      ensures t[j].category != c
    {
      assert t[j] == s[j];
    }
    if c in CategoriesOf(s) {
      var i :| 0 <= i < |s| && s[i].category == c;
      assert t[f] == s[f];
    } else if c == e.category {
      assert t[|s|].category == c;
    }
  }

  /** A category that does not occur sums to nothing. */
  lemma {:induction false} SumOfAbsentCategory(s: seq<Entry>, c: string)
    requires c !in CategoriesOf(s)
    ensures SumWhere(InCategory(c), s) == 0
    decreases |s|
  {
    if |s| > 0 {
      var init := s[..|s| - 1];
      assert s == init + [s[|s| - 1]];
      CategoriesSnoc(init, s[|s| - 1]);
      SumOfAbsentCategory(init, c);
    }
  }

  /** Slices in the order their categories first occur in `s`. */
  predicate InFirstOccurrenceOrder(r: seq<Slice>, s: seq<Entry>) {
    forall i, j :: 0 <= i < j < |r| ==> FirstIndex(s, r[i].category) < FirstIndex(s, r[j].category)
  }

  /** Each slice holds the sum of its category's amounts in `s`. */
  predicate HoldsCategorySums(r: seq<Slice>, s: seq<Entry>) {
    forall i :: 0 <= i < |r| ==> r[i].value == SumWhere(InCategory(r[i].category), s)
  }

  /** Adding an entry keeps the slices' categories those of the entries. */
  lemma AddKeepsCategories(r: seq<Slice>, s: seq<Entry>, e: Entry)
    requires SliceCategories(r) == CategoriesOf(s)
    ensures SliceCategories(AddToSlices(r, e)) == CategoriesOf(s + [e])
  {
    var k, r' := SliceIndex(r, e.category), AddToSlices(r, e);
    CategoriesSnoc(s, e);
    forall x | x in SliceCategories(r)
      ensures x in SliceCategories(r')
    {
      var j :| 0 <= j < |r| && r[j].category == x;
      assert r'[j].category == x;
    }
    if k == -1 {
      assert r'[|r|].category == e.category;
    }
  }

  /** Adding an entry keeps the categories distinct. */
  lemma AddKeepsDistinct(r: seq<Slice>, e: Entry)
    requires DistinctCategories(r)
    ensures DistinctCategories(AddToSlices(r, e))
  {
  }

  /** Adding an entry keeps the first-occurrence order: a new category
      first occurs after every category already present. */
  lemma AddKeepsOrder(r: seq<Slice>, s: seq<Entry>, e: Entry)
    requires SliceCategories(r) == CategoriesOf(s)
    requires InFirstOccurrenceOrder(r, s)
    ensures InFirstOccurrenceOrder(AddToSlices(r, e), s + [e])
  {
    var k, r', t := SliceIndex(r, e.category), AddToSlices(r, e), s + [e];
    forall i | 0 <= i < |r|
      ensures r'[i].category == r[i].category
      ensures FirstIndex(t, r[i].category) == FirstIndex(s, r[i].category) < |s|
    {
      assert r[i].category in SliceCategories(r);
      FirstIndexSnoc(s, e, r[i].category);
    }
    if k == -1 {
      assert e.category !in SliceCategories(r);
      FirstIndexSnoc(s, e, e.category);
      assert r'[|r|].category == e.category;
    }
  }

  /** Adding an entry adds its amount to its category's slice and to no other. */
  lemma AddKeepsSums(r: seq<Slice>, s: seq<Entry>, e: Entry)
    requires SliceCategories(r) == CategoriesOf(s)
    requires DistinctCategories(r)
    requires HoldsCategorySums(r, s)
    ensures HoldsCategorySums(AddToSlices(r, e), s + [e])
  {
    var k, r' := SliceIndex(r, e.category), AddToSlices(r, e);
    forall i | 0 <= i < |r'|
      ensures r'[i].value == SumWhere(InCategory(r'[i].category), s + [e])
    {
      SumWhereSnoc(InCategory(r'[i].category), s, e);
      if i == |r| {
        assert e.category !in SliceCategories(r);
        SumOfAbsentCategory(s, e.category);
      }
    }
  }

  /** `aggregateByCategory` yields one slice per category that occurs and
      none for any other, each once, in order of first occurrence, each
      holding the sum of its category's amounts. */
  lemma {:induction false} ByCategorySpec(s: seq<Entry>)
    ensures SliceCategories(ByCategory(s)) == CategoriesOf(s)
    ensures DistinctCategories(ByCategory(s))
    ensures var r := ByCategory(s);
      forall i, j :: 0 <= i < j < |r| ==> FirstIndex(s, r[i].category) < FirstIndex(s, r[j].category)
    ensures var r := ByCategory(s);
      forall i :: 0 <= i < |r| ==> r[i].value == SumWhere(InCategory(r[i].category), s)
    decreases |s|
  {
    if |s| > 0 {
      var init, e := s[..|s| - 1], s[|s| - 1];
      assert s == init + [e];
      ByCategorySpec(init);
      var r := ByCategory(init);
      AddKeepsCategories(r, init, e);
      AddKeepsDistinct(r, e);
      AddKeepsOrder(r, init, e);
      AddKeepsSums(r, init, e);
    }
  }

  lemma {:induction false} SliceSumUpdate(sl: seq<Slice>, i: nat, x: Slice)
    requires i < |sl|
    ensures SliceSum(sl[i := x]) == SliceSum(sl) - sl[i].value + x.value
    decreases |sl|
  {
    var init := sl[..|sl| - 1];
    if i < |sl| - 1 {
      assert sl[i := x][..|sl| - 1] == init[i := x];
      SliceSumUpdate(init, i, x);
    } else {
      assert sl[i := x][..|sl| - 1] == init;
    }
  }

  /** The slice values add up to the grand total. */
  lemma {:induction false} SlicesSumToTotal(s: seq<Entry>)
    ensures SliceSum(ByCategory(s)) == Total(s)
    decreases |s|
  {
    if |s| > 0 {
      var init, e := s[..|s| - 1], s[|s| - 1];
      SlicesSumToTotal(init);
      AddToSlicesSum(ByCategory(init), e);
      assert ByCategory(s) == AddToSlices(ByCategory(init), e);
      assert Total(s) == Total(init) + e.amount;
    }
  }

  /** One step of the `forEach` adds the entry's amount to the slice sum. */
  lemma AddToSlicesSum(r: seq<Slice>, e: Entry)
    ensures SliceSum(AddToSlices(r, e)) == SliceSum(r) + e.amount
  {
    var k := SliceIndex(r, e.category);
    if k >= 0 {
      SliceSumUpdate(r, k, Slice(e.category, r[k].value + e.amount));
    } else {
      var x := Slice(e.category, e.amount);
      assert (r + [x])[..|r|] == r;
      assert SliceSum(r + [x]) == SliceSum(r) + x.value;
    }
  }
}
