/** `applyFilters`: the list view restricted by category and date range. */
module Filtering {
  import opened Optional
  import opened Calendar
  import opened Seqs
  import opened Entries

  /** What `getFilters` builds: a category (empty for any) and optional
      `from` and `to` dates. */
  datatype Filters = Filters(category: string, from: Option<Date>, to: Option<Date>)

  /** The per-entry test, on the instants JavaScript compares: a set
      category must match, the entry may not begin before `from`, and may
      not begin after the last millisecond of the `to` day. */
  predicate Passes(f: Filters, e: Entry) {
    && !(f.category != "" && e.category != f.category)
    && !(f.from.Some? && StartOfDay(e.date) < StartOfDay(f.from.value))
    && !(f.to.Some? && StartOfDay(e.date) > EndOfDay(f.to.value))
  }

  function Passing(f: Filters): Entry -> bool {
    (e: Entry) => Passes(f, e)
  }

  /** `applyFilters(entries, filters)`: no filter returns the input itself;
      a filter keeps, in order, every entry that passes it, as often as it
      occurs, and nothing else. */
  function ApplyFilters(s: seq<Entry>, filters: Option<Filters>): (r: seq<Entry>)
    ensures filters.None? ==> r == s
    ensures IsSubsequence(r, s)
    ensures filters.Some? ==> forall e :: multiset(r)[e] == if Passes(filters.value, e) then multiset(s)[e] else 0
  {
    if filters.None? then
      FilterKeepsAll((e: Entry) => true, s);
      FilterIsSubsequence((e: Entry) => true, s);
      s
    else
      var p := Passing(filters.value);
      FilterContents(p, s);
      FilterIsSubsequence(p, s);
      Filter(p, s)
  }

  /** In calendar terms, for valid dates: an entry passes exactly when its
      category matches a set category and `from <= date <= to`, both ends
      inclusive, so an entry dated on the `to` day is kept. */
  lemma PassesInCalendarTerms(f: Filters, e: Entry)
    requires ValidDate(e.date)
    requires f.from.Some? ==> ValidDate(f.from.value)
    requires f.to.Some? ==> ValidDate(f.to.value)
    ensures Passes(f, e) <==>
      && (f.category == "" || e.category == f.category)
      && (f.from.Some? ==> OnOrBefore(f.from.value, e.date))
      && (f.to.Some? ==> OnOrBefore(e.date, f.to.value))
  {
    if f.from.Some? {
      InstantOrder(e.date, f.from.value);
    }
    if f.to.Some? {
      InstantOrder(e.date, f.to.value);
    }
  }
}
