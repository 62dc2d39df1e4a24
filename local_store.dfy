/** The `useLocalStore` hook: the in-memory list of one table's records, the loading
    flag and the last error message, kept in step with a key-value store whose every
    call may fail. */
module LocalStore {
  import opened Wrappers
  import opened Lists

  /** A stored record: its fields by name. Every record the hook writes has an "id". */
  type Row = map<string, string>

  predicate HasId(row: Row, id: string) {
    "id" in row && row["id"] == id
  }

  /** What a failed store call throws: an `Error` object with its message, or some
      other value. */
  datatype Thrown = ErrorObject(message: string) | OtherValue

  /** The message the hook records for a failure: the error's own message, or the
      operation's fallback text when the thrown value is not an `Error`. */
  function MessageOf(err: Thrown, fallback: string): (m: string)
    ensures err.ErrorObject? ==> m == err.message
    ensures err.OtherValue? ==> m == fallback
  {
    match err
    case ErrorObject(message) => message
    case OtherValue => fallback
  }

  // ----- The list operations the hook applies to `data` -----

  /** Index `i` holds the first record with id `id`. */
  predicate IsFirstWithId(rows: seq<Row>, id: string, i: int) {
    0 <= i < |rows| && HasId(rows[i], id) && forall j :: 0 <= j < i ==> !HasId(rows[j], id)
  }

  /** `rows.find(item => item.id === id)`. */
  function FindById(rows: seq<Row>, id: string): (r: Option<Row>)
    ensures r.None? <==> forall i :: 0 <= i < |rows| ==> !HasId(rows[i], id)
    ensures r.Some? ==> exists i :: IsFirstWithId(rows, id, i) && rows[i] == r.value
  {
    if rows == [] then None
    else if HasId(rows[0], id) then
      assert IsFirstWithId(rows, id, 0);
      Some(rows[0])
    else
      var r := FindById(rows[1..], id);
      if r.Some? then
        var i :| IsFirstWithId(rows[1..], id, i) && rows[1..][i] == r.value;
        assert IsFirstWithId(rows, id, i + 1);
        r
      else
        r
  }

  /** `rows.map(item => item.id === id ? replacement : item)`. */
  function ReplaceById(rows: seq<Row>, id: string, replacement: Row): (r: seq<Row>)
    ensures |r| == |rows|
  {
    seq(|rows|, i requires 0 <= i < |rows| => if HasId(rows[i], id) then replacement else rows[i])
  }

  /** Replacing keeps every record without the id where it was and puts the
      replacement at every position that had the id. */
  lemma ReplaceByIdSpec(rows: seq<Row>, id: string, replacement: Row, i: int)
    requires 0 <= i < |rows|
    ensures HasId(rows[i], id) ==> ReplaceById(rows, id, replacement)[i] == replacement
    ensures !HasId(rows[i], id) ==> ReplaceById(rows, id, replacement)[i] == rows[i]
  {
  }

  /** Replacing an id that no record has changes nothing. */
  lemma ReplaceAbsentId(rows: seq<Row>, id: string, replacement: Row)
    requires FindById(rows, id).None?
    ensures ReplaceById(rows, id, replacement) == rows
  {
  }

  /** After a replacement that keeps the id, looking the id up finds the replacement. */
  lemma FindAfterReplace(rows: seq<Row>, id: string, replacement: Row)
    requires FindById(rows, id).Some? && HasId(replacement, id)
    ensures FindById(ReplaceById(rows, id, replacement), id) == Some(replacement)
  {
    var r := ReplaceById(rows, id, replacement);
    var k :| IsFirstWithId(rows, id, k);
    assert IsFirstWithId(r, id, k);
  }

  /** `rows.filter(item => item.id !== id)`. */
  function RemoveById(rows: seq<Row>, id: string): (r: seq<Row>)
    ensures IsSubsequence(r, rows)
    ensures forall i :: 0 <= i < |r| ==> r[i] in rows && !HasId(r[i], id)
    ensures forall i :: 0 <= i < |rows| && !HasId(rows[i], id) ==> rows[i] in r
    ensures FindById(r, id).None?
    ensures forall x | x in rows :: multiset(r)[x] == if HasId(x, id) then 0 else multiset(rows)[x]
  {
    FilterIsSubsequence(rows, row => !HasId(row, id));
    FilterMultiplicity(rows, row => !HasId(row, id));
    Filter(rows, row => !HasId(row, id))
  }

  /** Removing an id that no record has changes nothing. */
  lemma RemoveAbsentId(rows: seq<Row>, id: string)
    requires FindById(rows, id).None?
    ensures RemoveById(rows, id) == rows
  {
    FilterKeepsAll(rows, row => !HasId(row, id));
  }

  /** Removing twice is removing once. */
  lemma RemoveTwice(rows: seq<Row>, id: string)
    ensures RemoveById(RemoveById(rows, id), id) == RemoveById(rows, id)
  {
    RemoveAbsentId(RemoveById(rows, id), id);
  }

  // ----- Lists with the same records -----

  /** Two lists holding the same records, counted with multiplicity, agree on whether
      some record has a given id. */
  lemma SameRecordsSameIds(a: seq<Row>, b: seq<Row>, id: string)
    requires multiset(a) == multiset(b)
    ensures FindById(a, id).None? <==> FindById(b, id).None?
  {
    if FindById(a, id).Some? {
      var i :| IsFirstWithId(a, id, i);
      assert a[i] in multiset(b);
    }
    if FindById(b, id).Some? {
      var i :| IsFirstWithId(b, id, i);
      assert b[i] in multiset(a);
    }
  }

  /** Removing an id from two lists with the same records leaves the same records. */
  lemma RemoveSameRecords(a: seq<Row>, b: seq<Row>, id: string)
    requires multiset(a) == multiset(b)
    ensures multiset(RemoveById(a, id)) == multiset(RemoveById(b, id))
  {
    forall x: Row
      ensures multiset(RemoveById(a, id))[x] == multiset(RemoveById(b, id))[x]
    {
      if x !in a {
        assert x !in multiset(b);
      }
    }
  }

  /** Replacing distributes over concatenation. */
  lemma ReplaceAppend(s: seq<Row>, t: seq<Row>, id: string, replacement: Row)
    ensures ReplaceById(s + t, id, replacement) == ReplaceById(s, id, replacement) + ReplaceById(t, id, replacement)
  {
    var l, r := ReplaceById(s + t, id, replacement), ReplaceById(s, id, replacement) + ReplaceById(t, id, replacement);
    forall i | 0 <= i < |l|
      ensures l[i] == r[i]
    {
      if i >= |s| {
        assert (s + t)[i] == t[i - |s|];
      }
    }
  }

  /** Taking the record at position `j` out of a list takes one copy of it out of the
      list's records. */
  lemma MultisetWithout(s: seq<Row>, j: int)
    requires 0 <= j < |s|
    ensures s == s[..j] + [s[j]] + s[j + 1..]
    ensures multiset(s[..j] + s[j + 1..]) == multiset(s) - multiset{s[j]}
  {
    assert s == s[..j] + [s[j]] + s[j + 1..];
    var m, rest := multiset(s), multiset(s[..j] + s[j + 1..]);
    assert m == rest + multiset{s[j]};
    forall x: Row
      ensures rest[x] == (m - multiset{s[j]})[x]
    {
    }
  }

  /** The records of a replacement are those of the replacement of the list without
      position `j`, together with the replaced record at `j`. */
  lemma ReplaceWithout(s: seq<Row>, j: int, id: string, replacement: Row)
    requires 0 <= j < |s|
    ensures multiset(ReplaceById(s, id, replacement))
      == multiset(ReplaceById(s[..j] + s[j + 1..], id, replacement)) + multiset(ReplaceById([s[j]], id, replacement))
  {
    MultisetWithout(s, j);
    ReplaceAppend(s[..j] + [s[j]], s[j + 1..], id, replacement);
    ReplaceAppend(s[..j], [s[j]], id, replacement);
    ReplaceAppend(s[..j], s[j + 1..], id, replacement);
  }

  /** Replacing an id in two lists with the same records leaves the same records. */
  lemma {:induction false} ReplaceSameRecords(a: seq<Row>, b: seq<Row>, id: string, replacement: Row)
    requires multiset(a) == multiset(b)
    ensures multiset(ReplaceById(a, id, replacement)) == multiset(ReplaceById(b, id, replacement))
    decreases |a|
  {
    if a == [] {
      assert |b| == |multiset(b)| == 0;
    } else {
      assert a[0] in multiset(b);
      var j :| 0 <= j < |b| && b[j] == a[0];
      MultisetWithout(a, 0);
      MultisetWithout(b, j);
      ReplaceSameRecords(a[..0] + a[1..], b[..j] + b[j + 1..], id, replacement);
      ReplaceWithout(a, 0, id, replacement);
      ReplaceWithout(b, j, id, replacement);
    }
  }

  // ----- The store -----

  /** The records of a table, empty for a table never written. */
  function TableRows(tables: map<string, seq<Row>>, table: string): (rows: seq<Row>)
    ensures table !in tables ==> rows == []
  {
    if table in tables then tables[table] else []
  }

  /** `put` of a record keyed by its id: it replaces the record with that id, or is
      added after the others. */
  function UpsertRow(rows: seq<Row>, row: Row): (r: seq<Row>)
    requires "id" in row
    ensures FindById(r, row["id"]) == Some(row)
    ensures FindById(rows, row["id"]).None? ==> r == rows + [row]
    ensures FindById(rows, row["id"]).Some? ==> |r| == |rows|
  {
    var id := row["id"];
    if FindById(rows, id).Some? then
      FindAfterReplace(rows, id, row);
      ReplaceById(rows, id, row)
    else
      assert IsFirstWithId(rows + [row], id, |rows|);
      rows + [row]
  }

  /** The key-value store behind the hook, table by table. Each call takes the
      failure it meets, if any; a failed call changes nothing. */
  class Store {
    var tables: map<string, seq<Row>>

    constructor ()
      ensures tables == map[]
    {
      tables := map[];
    }

    /** `get(table, id)`: the record with that id, or none. */
    method Get(table: string, id: string, fault: Option<Thrown>) returns (r: Result<Option<Row>, Thrown>)
      ensures fault.Some? ==> r == Err(fault.value)
      ensures fault.None? ==> r.Ok? && (r.value.None? <==> forall i :: 0 <= i < |TableRows(tables, table)| ==> !HasId(TableRows(tables, table)[i], id))
      ensures fault.None? ==> r == Ok(FindById(TableRows(tables, table), id))
    {
      if fault.Some? {
        return Err(fault.value);
      }
      return Ok(FindById(TableRows(tables, table), id));
    }

    /** `list(table)`: every record of the table. */
    method List(table: string, fault: Option<Thrown>) returns (r: Result<seq<Row>, Thrown>)
      ensures fault.Some? ==> r == Err(fault.value)
      ensures fault.None? ==> r == Ok(TableRows(tables, table))
    {
      if fault.Some? {
        return Err(fault.value);
      }
      return Ok(TableRows(tables, table));
    }

    /** `upsert(table, row)`. */
    method Upsert(table: string, row: Row, fault: Option<Thrown>) returns (r: Result<(), Thrown>)
      requires "id" in row
      modifies this
      ensures fault.Some? ==> r == Err(fault.value) && tables == old(tables)
      ensures fault.None? ==> r == Ok(()) && tables == old(tables)[table := UpsertRow(old(TableRows(tables, table)), row)]
    {
      if fault.Some? {
        return Err(fault.value);
      }
      tables := tables[table := UpsertRow(TableRows(tables, table), row)];
      return Ok(());
    }

    /** `remove(table, id)`. */
    method Remove(table: string, id: string, fault: Option<Thrown>) returns (r: Result<(), Thrown>)
      modifies this
      ensures fault.Some? ==> r == Err(fault.value) && tables == old(tables)
      ensures fault.None? ==> r == Ok(()) && tables == old(tables)[table := RemoveById(old(TableRows(tables, table)), id)]
    {
      if fault.Some? {
        return Err(fault.value);
      }
      tables := tables[table := RemoveById(TableRows(tables, table), id)];
      return Ok(());
    }
  }

  /** When the in-memory list and the table hold the same records and the list has
      the id, writing a record with that id to the table and replacing it in the list
      leave them holding the same records again. */
  lemma UpsertMatchesReplace(rows: seq<Row>, stored: seq<Row>, id: string, updated: Row)
    requires multiset(rows) == multiset(stored)
    requires FindById(rows, id).Some? && HasId(updated, id)
    ensures multiset(ReplaceById(rows, id, updated)) == multiset(UpsertRow(stored, updated))
  {
    SameRecordsSameIds(rows, stored, id);
    ReplaceSameRecords(rows, stored, id, updated);
  }

  /** When the in-memory list and the table hold the same records and no record has
      the new id, writing the new record to the table and appending it to the list
      leave them holding the same records again. */
  lemma UpsertMatchesAppend(rows: seq<Row>, stored: seq<Row>, row: Row)
    requires multiset(rows) == multiset(stored)
    requires "id" in row && FindById(rows, row["id"]).None?
    ensures multiset(rows + [row]) == multiset(UpsertRow(stored, row))
  {
    SameRecordsSameIds(rows, stored, row["id"]);
  }

  // ----- The hook -----

  /** The record `addItem` writes: the caller's fields with a fresh id and the two
      time stamps, each read from the clock on its own. */
  function NewItem(item: Row, freshId: string, createdAt: string, updatedAt: string): (r: Row)
    ensures HasId(r, freshId)
    ensures "createdAt" in r && r["createdAt"] == createdAt && "updatedAt" in r && r["updatedAt"] == updatedAt
    ensures r.Keys == item.Keys + {"id", "createdAt", "updatedAt"}
    ensures forall k :: k in item && k !in {"id", "createdAt", "updatedAt"} ==> r[k] == item[k]
  {
    item["id" := freshId]["createdAt" := createdAt]["updatedAt" := updatedAt]
  }

  /** The record `updateItem` writes: the existing record, overwritten by the updates,
      with the update stamp set to the current time. */
  function Merged(existing: Row, updates: Row, now: string): (r: Row)
    ensures r.Keys == existing.Keys + updates.Keys + {"updatedAt"}
    ensures "updatedAt" in r && r["updatedAt"] == now
    ensures forall k :: k in updates && k != "updatedAt" ==> r[k] == updates[k]
    ensures forall k :: k in existing && k !in updates && k != "updatedAt" ==> r[k] == existing[k]
  {
    (existing + updates)["updatedAt" := now]
  }

  /** A merge whose updates leave the id alone keeps the record's id. */
  lemma MergedKeepsId(existing: Row, updates: Row, now: string, id: string)
    requires HasId(existing, id) && "id" !in updates
    ensures HasId(Merged(existing, updates, now), id)
  {
  }

  /** The state the hook returns: `data`, `loading` and `error`, for one table of one
      store. */
  class LocalStoreHook {
    const table: string
    const store: Store
    var data: seq<Row>
    var loading: bool
    var error: Option<string>

    /** The in-memory list holds exactly the table's records, each as many times as
        the table does. The order is left open: `addItem` appends, while the store
        lists its records in its own key order. */
    predicate InStep()
      reads this, store
    {
      multiset(data) == multiset(TableRows(store.tables, table))
    }

    /** The hook's first state: the initial data if given, loading, no error. */
    constructor (table: string, store: Store, initialData: Option<seq<Row>>)
      ensures this.table == table && this.store == store
      ensures data == (if initialData.Some? then initialData.value else [])
      ensures loading && error == None
    {
      this.table := table;
      this.store := store;
      data := if initialData.Some? then initialData.value else [];
      loading := true;
      error := None;
    }

    /** `loadData`: clears the error, reads the table, and always ends not loading. */
    method LoadData(fault: Option<Thrown>)
      modifies this
      ensures !loading
      ensures fault.None? ==> data == TableRows(store.tables, table) && error == None && InStep()
      ensures fault.Some? ==> data == old(data) && error == Some(MessageOf(fault.value, "Failed to load data"))
    {
      loading := true;
      error := None;
      var result := store.List(table, fault);
      match result {
        case Ok(rows) =>
          data := rows;
        case Err(err) =>
          error := Some(MessageOf(err, "Failed to load data"));
      }
      loading := false;
    }

    /** `addItem`: writes the new record and, once the store has it, appends it to
        `data`; a store failure is recorded and handed back. */
    method AddItem(item: Row, freshId: string, createdAt: string, updatedAt: string, fault: Option<Thrown>)
      returns (r: Result<Row, Thrown>)
      modifies this, store
      ensures loading == old(loading)
      ensures fault.None? ==> var newItem := NewItem(item, freshId, createdAt, updatedAt);
        r == Ok(newItem) && data == old(data) + [newItem] && error == old(error)
        && store.tables == old(store.tables)[table := UpsertRow(old(TableRows(store.tables, table)), newItem)]
      ensures fault.Some? ==> (r == Err(fault.value) && data == old(data)
        && error == Some(MessageOf(fault.value, "Failed to add item")) && store.tables == old(store.tables))
      ensures old(InStep()) && FindById(old(data), freshId).None? ==> InStep()
    {
      ghost var before, stored := data, TableRows(store.tables, table);
      var newItem := NewItem(item, freshId, createdAt, updatedAt);
      var written := store.Upsert(table, newItem, fault);
      if written.Err? {
        error := Some(MessageOf(written.error, "Failed to add item"));
        return Err(written.error);
      }
      if multiset(before) == multiset(stored) && FindById(before, freshId).None? {
        UpsertMatchesAppend(before, stored, newItem);
      }
      data := data + [newItem];
      return Ok(newItem);
    }

    /** `updateItem`: finds the record in `data`, writes the merged record and, once
        the store has it, puts it in place of every record with that id. */
    method UpdateItem(id: string, updates: Row, now: string, fault: Option<Thrown>) returns (r: Result<Row, Thrown>)
      modifies this, store
      ensures loading == old(loading)
      ensures FindById(old(data), id).None? ==>
        r == Err(ErrorObject("Item not found")) && data == old(data)
        && error == Some("Item not found") && store.tables == old(store.tables)
      ensures FindById(old(data), id).Some? && fault.Some? ==>
        r == Err(fault.value) && data == old(data)
        && error == Some(MessageOf(fault.value, "Failed to update item")) && store.tables == old(store.tables)
      ensures FindById(old(data), id).Some? && fault.None? ==>
        var updated := Merged(FindById(old(data), id).value, updates, now);
        r == Ok(updated) && data == ReplaceById(old(data), id, updated) && error == old(error)
        && store.tables == old(store.tables)[table := UpsertRow(old(TableRows(store.tables, table)), updated)]
      ensures old(InStep()) && "id" !in updates ==> InStep()
    {
      var existing := FindById(data, id);
      if existing.None? {
        error := Some(MessageOf(ErrorObject("Item not found"), "Failed to update item"));
        return Err(ErrorObject("Item not found"));
      }
      var updated := Merged(existing.value, updates, now);
      assert "id" in updated by {
        var i :| IsFirstWithId(data, id, i) && data[i] == existing.value;
      }
      ghost var before, stored := data, TableRows(store.tables, table);
      var written := store.Upsert(table, updated, fault);
      if written.Err? {
        error := Some(MessageOf(written.error, "Failed to update item"));
        return Err(written.error);
      }
      if multiset(before) == multiset(stored) && "id" !in updates {
        MergedKeepsId(existing.value, updates, now, id);
        UpsertMatchesReplace(before, stored, id, updated);
      }
      data := ReplaceById(data, id, updated);
      return Ok(updated);
    }

    /** `deleteItem`: removes the record from the store and, once it is gone, every
        record with that id from `data`. */
    method DeleteItem(id: string, fault: Option<Thrown>) returns (r: Result<(), Thrown>)
      modifies this, store
      ensures loading == old(loading)
      ensures fault.None? ==> (r == Ok(()) && data == RemoveById(old(data), id) && error == old(error)
        && store.tables == old(store.tables)[table := RemoveById(old(TableRows(store.tables, table)), id)])
      ensures fault.Some? ==> (r == Err(fault.value) && data == old(data)
        && error == Some(MessageOf(fault.value, "Failed to delete item")) && store.tables == old(store.tables))
      ensures old(InStep()) ==> InStep()
    {
      ghost var before, stored := data, TableRows(store.tables, table);
      var removed := store.Remove(table, id, fault);
      if removed.Err? {
        error := Some(MessageOf(removed.error, "Failed to delete item"));
        return Err(removed.error);
      }
      if multiset(before) == multiset(stored) {
        RemoveSameRecords(before, stored, id);
      }
      data := RemoveById(data, id);
      return Ok(());
    }

    /** `getItem`: the stored record with that id; a store failure is recorded and
        reads as no record. */
    method GetItem(id: string, fault: Option<Thrown>) returns (r: Option<Row>)
      modifies this
      ensures data == old(data) && loading == old(loading)
      ensures fault.None? ==> r == FindById(TableRows(store.tables, table), id) && error == old(error)
      ensures fault.Some? ==> r == None && error == Some(MessageOf(fault.value, "Failed to get item"))
    {
      var result := store.Get(table, id, fault);
      match result {
        case Ok(row) =>
          r := row;
        case Err(err) =>
          error := Some(MessageOf(err, "Failed to get item"));
          r := None;
      }
    }
  }
}
