/** The entry collection and the operations the form and the list buttons
    perform on it: add, edit (submit handler), delete (delete button) and
    loading an entry into the form (edit button). */
module Store {
  import opened Optional
  import opened Calendar
  import opened Seqs
  import opened Text
  import opened Entries

  /** The entry form as the submit handler reads it. `date` is `None` when the
      date field is empty; `editId` is the hidden id field, empty when adding
      and holding the id of the entry being edited otherwise. */
  datatype Form = Form(amount: ParsedAmount, category: string, date: Option<Date>, note: string, editId: string)

  /** The outcome of a submit: the alert for an incomplete form, which
      changes nothing, or the entry list that is saved and rendered. */
  datatype Submission = Rejected | Saved(entries: seq<Entry>)

  /** The guard `!amount || !category || !date` fails: a NaN or zero amount,
      an empty category or an empty date. A negative amount passes. */
  predicate Complete(f: Form) {
    f.amount.Number? && f.amount.cents != 0 && f.category != "" && f.date.Some?
  }

  /** No entry of `s` carries `id`. */
  predicate Fresh(id: string, s: seq<Entry>) {
    forall i :: 0 <= i < |s| ==> s[i].id != id
  }

  /** Every id occurs at most once. */
  predicate UniqueIds(s: seq<Entry>) {
    forall i, j :: 0 <= i < j < |s| ==> s[i].id != s[j].id
  }

  /** `findIndex(en => en.id === id)`: the first position holding `id`, or -1. */
  function FindIndex(s: seq<Entry>, id: string): (i: int)
    ensures -1 <= i < |s|
    ensures 0 <= i ==> s[i].id == id && Fresh(id, s[..i])
    ensures i == -1 <==> Fresh(id, s)
    decreases |s|
  {
    if |s| == 0 then -1
    else if s[0].id == id then 0
    else
      var k := FindIndex(s[1..], id);
      assert k >= 0 ==> s[..k + 1] == [s[0]] + s[1..][..k];
      if k == -1 then -1 else k + 1
  }

  /** The edit branch: the first entry carrying `id` gets the new amount,
      category, date and note and keeps its id; an absent id changes nothing. */
  function Edit(s: seq<Entry>, id: string, amount: int, category: string, date: Date, note: string): (r: seq<Entry>)
    ensures |r| == |s|
    ensures forall i :: 0 <= i < |s| ==> r[i].id == s[i].id
    ensures Fresh(id, s) ==> r == s
    ensures forall k :: 0 <= k < |s| && s[k].id == id && Fresh(id, s[..k]) ==>
      && r[k] == Entry(id, amount, category, date, note)
      && forall j :: 0 <= j < |s| && j != k ==> r[j] == s[j]
  {
    var idx := FindIndex(s, id);
    if idx > -1 then
      s[idx := s[idx].(amount := amount, category := category, date := date, note := note)]
    else s
  }

  /** The submit handler. `freshId` stands for `uid()`: an id no entry carries. */
  function Submit(s: seq<Entry>, f: Form, freshId: string): (r: Submission)
    requires f.editId == "" ==> Fresh(freshId, s)
    ensures r.Rejected? <==> !Complete(f)
    ensures r.Saved? && f.editId == "" ==>
      && |r.entries| == |s| + 1
      && r.entries[..|s|] == s
      && r.entries[|s|] == Entry(freshId, f.amount.cents, f.category, f.date.value, Trim(f.note))
    ensures r.Saved? && f.editId != "" ==>
      r.entries == Edit(s, f.editId, f.amount.cents, f.category, f.date.value, Trim(f.note))
  {
    if !Complete(f) then Rejected
    else
      var note := Trim(f.note);
      if f.editId != "" then
        Saved(Edit(s, f.editId, f.amount.cents, f.category, f.date.value, note))
      else
        Saved(s + [Entry(freshId, f.amount.cents, f.category, f.date.value, note)])
  }

  /** The list a submission leaves behind: a rejected form leaves it as it was. */
  function After(s: seq<Entry>, r: Submission): seq<Entry> {
    if r.Saved? then r.entries else s
  }

  function WithoutId(id: string): Entry -> bool {
    (e: Entry) => e.id != id
  }

  /** The delete button: `entries.filter(x => x.id !== id)`. */
  function Delete(s: seq<Entry>, id: string): (r: seq<Entry>)
    ensures Fresh(id, r)
    ensures IsSubsequence(r, s)
    ensures forall e: Entry :: e.id != id ==> multiset(r)[e] == multiset(s)[e]
  {
    var r := Filter(WithoutId(id), s);
    FilterContents(WithoutId(id), s);
    FilterIsSubsequence(WithoutId(id), s);
    assert forall i :: 0 <= i < |r| ==> r[i] in r;
    r
  }

  /** The edit button: `find(e => e.id === id)` loaded into the form, with a
      missing note shown as empty (`item.note || ''`); nothing for an absent id. */
  function StartEdit(s: seq<Entry>, id: string): (f: Option<Form>)
    ensures f.None? <==> Fresh(id, s)
    ensures forall k :: 0 <= k < |s| && s[k].id == id && Fresh(id, s[..k]) ==>
      f == Some(Form(Number(s[k].amount), s[k].category, Some(s[k].date), s[k].note, id))
  {
    var k := FindIndex(s, id);
    if k == -1 then None
    else Some(Form(Number(s[k].amount), s[k].category, Some(s[k].date), s[k].note, s[k].id))
  }

  /** A rejected submission leaves the list unchanged. */
  lemma RejectedLeavesListUnchanged(s: seq<Entry>, f: Form, freshId: string)
    requires f.editId == "" ==> Fresh(freshId, s)
    requires !Complete(f)
    ensures After(s, Submit(s, f, freshId)) == s
  {
  }

  /** Deleting an id no entry carries changes nothing. */
  lemma DeleteAbsentIsNoOp(s: seq<Entry>, id: string)
    requires Fresh(id, s)
    ensures Delete(s, id) == s
  {
    FilterKeepsAll(WithoutId(id), s);
  }

  /** Deleting twice is deleting once. */
  lemma DeleteIdempotent(s: seq<Entry>, id: string)
    ensures Delete(Delete(s, id), id) == Delete(s, id)
  {
    FilterIdempotent(WithoutId(id), s);
  }

  /** Deleting a present id from a list with unique ids removes exactly one entry. */
  lemma DeleteRemovesOne(s: seq<Entry>, id: string)
    requires UniqueIds(s)
    requires !Fresh(id, s)
    ensures |Delete(s, id)| == |s| - 1
  {
    var k :| 0 <= k < |s| && s[k].id == id;
    forall i | 0 <= i < |s| && i != k
      ensures WithoutId(id)(s[i])
    {
      assert i < k || k < i;
    }
    FilterDropsOne(WithoutId(id), s, k);
  }

  /** Adding an entry and then deleting its id gives back the list. */
  lemma AddThenDeleteRestores(s: seq<Entry>, f: Form, freshId: string)
    requires Fresh(freshId, s)
    requires f.editId == "" && Complete(f)
    ensures Delete(After(s, Submit(s, f, freshId)), freshId) == s
  {
    var added := After(s, Submit(s, f, freshId));
    assert added == s + [added[|s|]];
    FilterAppend(WithoutId(freshId), s, [added[|s|]]);
    assert Filter(WithoutId(freshId), [added[|s|]]) == [] by {
      assert [added[|s|]][..0] == [];
    }
    FilterKeepsAll(WithoutId(freshId), s);
  }

  /** Submits keep ids unique: an add brings a fresh id, an edit keeps every id. */
  lemma SubmitKeepsIdsUnique(s: seq<Entry>, f: Form, freshId: string)
    requires UniqueIds(s)
    requires f.editId == "" ==> Fresh(freshId, s)
    ensures UniqueIds(After(s, Submit(s, f, freshId)))
  {
    var r := After(s, Submit(s, f, freshId));
    if Complete(f) && f.editId == "" {
      AppendFreshKeepsUnique(s, r[|s|]);
      assert r == s + [r[|s|]];
    } else if Complete(f) {
      SameIdsKeepUnique(s, r);
    }
  }

  lemma AppendFreshKeepsUnique(s: seq<Entry>, x: Entry)
    requires UniqueIds(s) && Fresh(x.id, s)
    ensures UniqueIds(s + [x])
  {
    var r := s + [x];
    forall i, j | 0 <= i < j < |r|
      ensures r[i].id != r[j].id
    {
      assert r[i] == s[i];
    }
  }

  lemma SameIdsKeepUnique(s: seq<Entry>, r: seq<Entry>)
    requires UniqueIds(s)
    requires |r| == |s| && forall i :: 0 <= i < |s| ==> r[i].id == s[i].id
    ensures UniqueIds(r)
  {
  }

  /** Saving an entry loaded into the form without changing any field leaves
      the list as it was, provided the stored fields pass the guard again
      and the note is already trimmed (as every note saved by a submit is). */
  lemma SaveUnchangedEditIsNoOp(s: seq<Entry>, id: string, freshId: string)
    requires id != ""
    requires StartEdit(s, id).Some?
    requires var f := StartEdit(s, id).value;
      f.amount.cents != 0 && f.category != "" && IsTrimmed(f.note)
    ensures Submit(s, StartEdit(s, id).value, freshId) == Saved(s)
  {
    var k := FindIndex(s, id);
    TrimKeepsTrimmed(s[k].note);
    assert s[k] == Entry(id, s[k].amount, s[k].category, s[k].date, s[k].note);
    assert s[k := s[k]] == s;
  }

  /** Every note a submit saves is trimmed. */
  lemma SubmitTrimsNotes(s: seq<Entry>, f: Form, freshId: string)
    requires forall i :: 0 <= i < |s| ==> IsTrimmed(s[i].note)
    requires f.editId == "" ==> Fresh(freshId, s)
    ensures var r := After(s, Submit(s, f, freshId));
      forall i :: 0 <= i < |r| ==> IsTrimmed(r[i].note)
  {
    var r := After(s, Submit(s, f, freshId));
    if Complete(f) && f.editId != "" && !Fresh(f.editId, s) {
      var k := FindIndex(s, f.editId);
      forall i | 0 <= i < |r|
        ensures IsTrimmed(r[i].note)
      {
        if i != k {
          assert r[i] == s[i];
        }
      }
    } else if Complete(f) && f.editId == "" {
      forall i | 0 <= i < |r|
        ensures IsTrimmed(r[i].note)
      {
        if i < |s| {
          assert r[i] == r[..|s|][i];
        }
      }
    }
  }
}
