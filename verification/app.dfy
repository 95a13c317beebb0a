/**
 * The entry list and the edit form bookkeeping of the main component
 * (src/App.tsx). The list updates are pure functions on sequences of entries;
 * the component state they are applied to is a class whose methods stand for
 * the event handlers. `Date.now()` and `newFormData()` are parameters.
 */
module App {
  import opened Wrappers
  import opened Types
  import Csv

  /** `data.filter(entry => entry.id !== id)`. */
  function Deleted(data: seq<Entry>, id: int): (r: seq<Entry>)
    ensures |r| <= |data|
    ensures forall e :: e in r <==> e in data && e.id != id
  {
    if data == [] then []
    else if data[0].id != id then [data[0]] + Deleted(data[1..], id)
    else Deleted(data[1..], id)
  }

  /** Filtering a concatenation filters each part: the survivors keep their original order. */
  lemma {:induction false} DeletedDistributes(a: seq<Entry>, b: seq<Entry>, id: int)
    ensures Deleted(a + b, id) == Deleted(a, id) + Deleted(b, id)
  {
    if a == [] {
      assert a + b == b;
    } else {
      assert (a + b)[1..] == a[1..] + b;
      DeletedDistributes(a[1..], b, id);
    }
  }

  /** Deleting an id that no entry carries changes nothing; deleting twice is deleting once. */
  lemma {:induction false} DeletedAbsent(data: seq<Entry>, id: int)
    requires forall e :: e in data ==> e.id != id
    ensures Deleted(data, id) == data
  {
    if data != [] {
      assert data[0] in data;
      assert forall e :: e in data[1..] ==> e in data;
      DeletedAbsent(data[1..], id);
    }
  }

  lemma DeletedIdempotent(data: seq<Entry>, id: int)
    ensures Deleted(Deleted(data, id), id) == Deleted(data, id)
  {
    DeletedAbsent(Deleted(data, id), id);
  }

  /** `{ ...updatedEntry, id: editId }`. */
  function WithId(updated: Entry, id: int): Entry {
    updated.(id := id)
  }

  /**
   * The edit-mode submit: every entry whose id is editId becomes the
   * submitted entry carrying editId; every other entry is left as it was.
   */
  function Replaced(data: seq<Entry>, editId: int, updated: Entry): (r: seq<Entry>)
    ensures |r| == |data|
    ensures forall i :: 0 <= i < |data| ==> r[i].id == data[i].id
    ensures forall i :: 0 <= i < |data| && data[i].id == editId ==> r[i] == WithId(updated, editId)
    ensures forall i :: 0 <= i < |data| && data[i].id != editId ==> r[i] == data[i]
  {
    if data == [] then []
    else [if data[0].id == editId then WithId(updated, editId) else data[0]] + Replaced(data[1..], editId, updated)
  }

  /** An edit leaves the entries of other ids exactly as they were, in order. */
  lemma {:induction false} ReplacedKeepsOthers(data: seq<Entry>, editId: int, updated: Entry)
    ensures Deleted(Replaced(data, editId, updated), editId) == Deleted(data, editId)
  {
    if data != [] {
      var r := Replaced(data, editId, updated);
      assert r[1..] == Replaced(data[1..], editId, updated);
      ReplacedKeepsOthers(data[1..], editId, updated);
    }
  }

  /** Editing an id that is not in the list changes nothing. */
  lemma ReplacedAbsent(data: seq<Entry>, editId: int, updated: Entry)
    requires forall i :: 0 <= i < |data| ==> data[i].id != editId
    ensures Replaced(data, editId, updated) == data
  {
  }

  /** The add-mode submit: the submitted entry, with id `Date.now()`, at the end. */
  function Added(data: seq<Entry>, updated: Entry, now: int): (r: seq<Entry>)
    ensures |r| == |data| + 1 && r[..|data|] == data && r[|data|] == WithId(updated, now)
  {
    data + [WithId(updated, now)]
  }

  /** No two entries share an id. */
  predicate DistinctIds(data: seq<Entry>) {
    forall i, j :: 0 <= i < j < |data| ==> data[i].id != data[j].id
  }

  /** The ids of a list, as a set. */
  function Ids(data: seq<Entry>): set<int> {
    set e | e in data :: e.id
  }

  /**
   * Deleting and editing keep the ids distinct; adding does when `Date.now()`
   * is not already an id; an import does when none of the ids it assigns is
   * already taken.
   */
  lemma {:induction false} DeletedKeepsIdsDistinct(data: seq<Entry>, id: int)
    requires DistinctIds(data)
    ensures DistinctIds(Deleted(data, id))
  {
    if data != [] {
      DeletedKeepsIdsDistinct(data[1..], id);
      var rest := Deleted(data[1..], id);
      if data[0].id != id {
        forall e | e in rest ensures e.id != data[0].id {
          var k :| 0 <= k < |data[1..]| && data[1..][k] == e;
          assert data[k + 1] == e;
        }
        PrependKeepsIdsDistinct(data[0], rest);
      }
    }
  }

  lemma PrependKeepsIdsDistinct(x: Entry, rest: seq<Entry>)
    requires DistinctIds(rest)
    requires forall e :: e in rest ==> e.id != x.id
    ensures DistinctIds([x] + rest)
  {
    var r := [x] + rest;
    forall i, j | 0 <= i < j < |r| ensures r[i].id != r[j].id {
      if i == 0 {
        assert r[j] in rest;
      } else {
        assert r[i] == rest[i - 1] && r[j] == rest[j - 1];
      }
    }
  }

  lemma ReplacedKeepsIdsDistinct(data: seq<Entry>, editId: int, updated: Entry)
    requires DistinctIds(data)
    ensures DistinctIds(Replaced(data, editId, updated))
    ensures Ids(Replaced(data, editId, updated)) == Ids(data)
  {
    var r := Replaced(data, editId, updated);
    forall x | x in Ids(r) ensures x in Ids(data) {
      var k :| 0 <= k < |r| && r[k].id == x;
      assert data[k] in data;
    }
    forall x | x in Ids(data) ensures x in Ids(r) {
      var k :| 0 <= k < |data| && data[k].id == x;
      assert r[k] in r;
    }
  }

  lemma AddedKeepsIdsDistinct(data: seq<Entry>, updated: Entry, now: int)
    requires DistinctIds(data)
    requires now !in Ids(data)
    ensures DistinctIds(Added(data, updated, now))
    ensures Ids(Added(data, updated, now)) == Ids(data) + {now}
  {
    var r := Added(data, updated, now);
    forall i | 0 <= i < |data| ensures data[i].id != now {
      assert data[i] in data;
    }
    assert forall e :: e in r <==> e in data || e == WithId(updated, now);
  }

  lemma AppendKeepsIdsDistinct(data: seq<Entry>, imported: seq<Entry>)
    requires DistinctIds(data) && DistinctIds(imported)
    requires Ids(data) !! Ids(imported)
    ensures DistinctIds(data + imported)
  {
    var r := data + imported;
    forall i, j | 0 <= i < j < |r| ensures r[i].id != r[j].id {
      if j >= |data| && i < |data| {
        assert r[i] in data && r[j] in imported;
        assert r[i].id in Ids(data) && r[j].id in Ids(imported);
      }
    }
  }

  /**
   * Importing keeps the ids distinct when no existing entry holds one of the
   * ids base, base+1, ... that the import may assign.
   */
  lemma ImportAppendKeepsIdsDistinct(data: seq<Entry>, lines: seq<string>, base: int, parse: string -> Option<real>)
    requires |lines| >= 1 && DistinctIds(data)
    requires forall e :: e in data ==> e.id < base || e.id >= base + |lines|
    ensures var r := Csv.ImportLines(lines, base, parse); r.Ok? ==> DistinctIds(data + r.value)
  {
    var r := Csv.ImportLines(lines, base, parse);
    Csv.ImportOutcome(lines, base, parse);
    if r.Ok? {
      var imported := r.value;
      forall x | x in Ids(imported) ensures x !in Ids(data) {
        var k :| 0 <= k < |imported| && imported[k].id == x;
      }
      AppendKeepsIdsDistinct(data, imported);
    }
  }

  /** The state of the main component that the list and form handlers change. */
  class Visualizer {
    var data: seq<Entry>
    var showForm: bool
    var formData: Entry
    var editId: Option<int>

    /** The initial state: no entries, form hidden, a blank form in add mode. */
    constructor(blank: Entry)
      ensures data == [] && !showForm && formData == blank && editId == None
    {
      data := [];
      showForm := false;
      formData := blank;
      editId := None;
    }

    /** openFormForEdit: with an entry, edit it; without, a blank form in add mode. The form is shown. */
    method OpenFormForEdit(entry: Option<Entry>, blank: Entry)
      modifies this
      ensures showForm && data == old(data)
      ensures entry.Some? ==> formData == entry.value && editId == Some(entry.value.id)
      ensures entry.None? ==> formData == blank && editId == None
    {
      match entry {
        case Some(e) =>
          formData := e;
          editId := Some(e.id);
        case None =>
          formData := blank;
          editId := None;
      }
      showForm := true;
    }

    /** deleteEntry. */
    method DeleteEntry(id: int)
      modifies this
      ensures data == Deleted(old(data), id)
      ensures showForm == old(showForm) && formData == old(formData) && editId == old(editId)
    {
      data := Deleted(data, id);
    }

    /**
     * The form's onSubmit: in edit mode the entries with editId are replaced,
     * otherwise the entry is added with id `now`; then the form is reset,
     * editId cleared and the form hidden.
     */
    method Submit(updated: Entry, now: int, blank: Entry)
      modifies this
      ensures old(editId).Some? ==> data == Replaced(old(data), old(editId).value, updated)
      ensures old(editId).None? ==> data == Added(old(data), updated, now)
      ensures formData == blank && editId == None && !showForm
    {
      match editId {
        case Some(k) => data := Replaced(data, k, updated);
        case None => data := Added(data, updated, now);
      }
      formData := blank;
      editId := None;
      showForm := false;
    }

    /**
     * handleImportCSV, given what importFromCSV produced: the imported
     * entries are appended after the existing ones; on an error (onError
     * only raises an alert) nothing changes.
     */
    method HandleImport(outcome: Result<seq<Entry>, Csv.ImportError>)
      modifies this
      ensures outcome.Ok? ==> data == old(data) + outcome.value
      ensures outcome.Err? ==> data == old(data)
      ensures showForm == old(showForm) && formData == old(formData) && editId == old(editId)
    {
      if outcome.Ok? {
        data := data + outcome.value;
      }
    }

    /** resetData: empties the list only when the user confirms. */
    method ResetData(confirmed: bool)
      modifies this
      ensures confirmed ==> data == []
      ensures !confirmed ==> data == old(data)
      ensures showForm == old(showForm) && formData == old(formData) && editId == old(editId)
    {
      if confirmed {
        data := [];
      }
    }
  }
}
