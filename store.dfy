/**
 * The relational store the collector writes to, as in-memory tables: the
 * `logs`, `entries` and `strings` tables of the schema, the AUTOINCREMENT
 * counter of `logs`, and one transaction at a time. Every statement may fail
 * (a busy database, a full disk, ...): the statements numbered in `faults`
 * do. Inserts also fail when they would break a PRIMARY KEY or UNIQUE
 * constraint of the schema.
 */
module Store {
  import opened Wrappers
  import opened Octets

  datatype LogRow = LogRow(id: int, name: Bytes, filename: Bytes)

  /** `time` is in Unix seconds; `full` is empty under compact mode. */
  datatype EntryRow = EntryRow(logId: int, entryId: Bytes, full: Bytes, time: int)

  datatype StringRow = StringRow(column: Bytes, entryId: Bytes, value: Bytes)

  datatype Tables = Tables(logs: seq<LogRow>, entries: seq<EntryRow>, strings: seq<StringRow>, nextLogId: int)

  /** `SELECT log_id FROM logs WHERE log_name=?`: the id of the first row with that name. */
  function FindLog(logs: seq<LogRow>, name: Bytes): Option<int>
    decreases |logs|
  {
    if logs == [] then None
    else if logs[0].name == name then Some(logs[0].id)
    else FindLog(logs[1..], name)
  }

  predicate HasEntry(entries: seq<EntryRow>, entryId: Bytes)
  {
    exists j :: 0 <= j < |entries| && entries[j].entryId == entryId
  }

  predicate HasString(strings: seq<StringRow>, column: Bytes, entryId: Bytes)
  {
    exists j :: 0 <= j < |strings| && strings[j].column == column && strings[j].entryId == entryId
  }

  /** Some string row is filed under `entryId`. */
  predicate HasStringsFor(strings: seq<StringRow>, entryId: Bytes)
  {
    exists j :: 0 <= j < |strings| && strings[j].entryId == entryId
  }

  /** One of the statements numbered `from` up to (not including) `to` is a fault. */
  ghost predicate Faulted(faults: set<nat>, from: nat, to: nat)
  {
    exists n :: from <= n < to && n in faults
  }

  /** A fault among some statements is a fault among any run of statements around them. */
  lemma FaultedWiden(faults: set<nat>, from: nat, to: nat, from': nat, to': nat)
    requires Faulted(faults, from, to) && from' <= from && to <= to'
    ensures Faulted(faults, from', to')
  {
    var n :| from <= n < to && n in faults;
    assert from' <= n < to';
  }

  /** No two entry rows share an entry id: the entries PRIMARY KEY. */
  predicate DistinctEntryIds(entries: seq<EntryRow>)
  {
    forall i, j :: 0 <= i < j < |entries| ==> entries[i].entryId != entries[j].entryId
  }

  /** What the schema itself guarantees of any state of the database. */
  ghost predicate Schema(t: Tables)
  {
    // log_id INTEGER PRIMARY KEY AUTOINCREMENT: increasing, below the counter
    && 1 <= t.nextLogId
    && (forall i :: 0 <= i < |t.logs| ==> 1 <= t.logs[i].id < t.nextLogId)
    && (forall i, j :: 0 <= i < j < |t.logs| ==> t.logs[i].id < t.logs[j].id)
    // entry_id STRING PRIMARY KEY
    && DistinctEntryIds(t.entries)
    // UNIQUE (column_name, entry_id)
    && (forall i, j :: 0 <= i < j < |t.strings| ==>
          t.strings[i].column != t.strings[j].column || t.strings[i].entryId != t.strings[j].entryId)
  }

  /** Log names are not a key of the schema; the collector keeps them unique. */
  ghost predicate UniqueNames(logs: seq<LogRow>)
  {
    forall i, j :: 0 <= i < j < |logs| ==> logs[i].name != logs[j].name
  }

  /** Every string row belongs to an entry. */
  ghost predicate Referenced(strings: seq<StringRow>, entries: seq<EntryRow>)
  {
    forall j :: 0 <= j < |strings| ==> HasEntry(entries, strings[j].entryId)
  }

  /** Adding an entry keeps every string row's entry. */
  lemma ReferencedGrow(strings: seq<StringRow>, entries: seq<EntryRow>, row: EntryRow)
    requires Referenced(strings, entries)
    ensures Referenced(strings, entries + [row])
  {
    forall j | 0 <= j < |strings| ensures HasEntry(entries + [row], strings[j].entryId) {
      assert HasEntry(entries, strings[j].entryId);
      var i :| 0 <= i < |entries| && entries[i].entryId == strings[j].entryId;
      assert (entries + [row])[i] == entries[i];
    }
  }

  /** A string row under an existing entry keeps the references intact. */
  lemma ReferencedSnoc(strings: seq<StringRow>, entries: seq<EntryRow>, row: StringRow)
    requires Referenced(strings, entries) && HasEntry(entries, row.entryId)
    ensures Referenced(strings + [row], entries)
  {
    forall j | 0 <= j < |strings| + 1 ensures HasEntry(entries, (strings + [row])[j].entryId) {
      if j < |strings| {
        assert (strings + [row])[j] == strings[j];
      }
    }
  }

  /** A log row whose name no row has yet keeps the names unique. */
  lemma UniqueNamesSnoc(logs: seq<LogRow>, row: LogRow)
    requires UniqueNames(logs) && FindLog(logs, row.name).None?
    ensures UniqueNames(logs + [row])
  {
    FindLogSound(logs, row.name);
    forall i, j | 0 <= i < j < |logs| + 1 ensures (logs + [row])[i].name != (logs + [row])[j].name {
      assert (logs + [row])[i] == logs[i];
      if j < |logs| {
        assert (logs + [row])[j] == logs[j];
      }
    }
  }

  /** What the collector maintains beyond the schema. */
  ghost predicate Consistent(t: Tables)
  {
    UniqueNames(t.logs) && Referenced(t.strings, t.entries)
  }

  /** FindLog finds a row exactly when one has the name, and then returns the id of such a row. */
  lemma {:induction false} FindLogSound(logs: seq<LogRow>, name: Bytes)
    ensures FindLog(logs, name).None? <==> forall j :: 0 <= j < |logs| ==> logs[j].name != name
    ensures FindLog(logs, name).Some? ==>
      exists j :: 0 <= j < |logs| && logs[j].name == name && logs[j].id == FindLog(logs, name).value
    decreases |logs|
  {
    if logs != [] && logs[0].name != name {
      FindLogSound(logs[1..], name);
      if FindLog(logs, name).Some? {
        var j :| 0 <= j < |logs[1..]| && logs[1..][j].name == name && logs[1..][j].id == FindLog(logs, name).value;
        assert logs[j + 1] == logs[1..][j];
      }
      forall j | 0 < j < |logs| ensures logs[j] == logs[1..][j - 1] { }
    }
  }

  /** A row appended at the end is found only when no earlier row has its name. */
  lemma {:induction false} FindLogAppend(logs: seq<LogRow>, row: LogRow, name: Bytes)
    ensures FindLog(logs + [row], name) ==
      if FindLog(logs, name).Some? then FindLog(logs, name)
      else if row.name == name then Some(row.id)
      else None
    decreases |logs|
  {
    if logs == [] {
      assert [] + [row] == [row];
    } else {
      assert (logs + [row])[1..] == logs[1..] + [row];
      FindLogAppend(logs[1..], row, name);
    }
  }

  /** With unique names, the row found is the only row with that name. */
  lemma {:induction false} FindLogUnique(logs: seq<LogRow>, j: int)
    requires UniqueNames(logs) && 0 <= j < |logs|
    ensures FindLog(logs, logs[j].name) == Some(logs[j].id)
    decreases |logs|
  {
    if j > 0 {
      assert logs[0].name != logs[j].name;
      assert logs[1..][j - 1] == logs[j];
      FindLogUnique(logs[1..], j - 1);
    }
  }

  class Db {
    var logs: seq<LogRow>
    var entries: seq<EntryRow>
    var strings: seq<StringRow>
    var nextLogId: int
    /** The tables as they were at BEGIN while a transaction is open; None otherwise. */
    var snapshot: Option<Tables>
    /** The numbers of the statements that fail. */
    const faults: set<nat>
    /** The number of statements executed so far. */
    var executed: nat

    constructor (t: Tables, faults: set<nat>)
      requires Schema(t)
      ensures Valid() && State() == t && snapshot.None?
      ensures this.faults == faults && executed == 0
    {
      logs, entries, strings, nextLogId := t.logs, t.entries, t.strings, t.nextLogId;
      snapshot := None;
      this.faults := faults;
      executed := 0;
    }

    function State(): Tables
      reads this
    {
      Tables(logs, entries, strings, nextLogId)
    }

    /** What a reader outside the transaction sees, and what survives a crash. */
    function Durable(): Tables
      reads this
    {
      if snapshot.Some? then snapshot.value else State()
    }

    ghost predicate Valid()
      reads this
    {
      Schema(State()) && (snapshot.Some? ==> Schema(snapshot.value))
    }

    /** Runs one statement: it fails when its number is one of the faults. */
    method Execute() returns (ok: bool)
      modifies this`executed
      ensures executed == old(executed) + 1
      ensures ok <==> old(executed) !in faults
    {
      ok := executed !in faults;
      executed := executed + 1;
    }

    /** `BEGIN EXCLUSIVE TRANSACTION`; SQLite refuses to nest transactions. */
    method Begin() returns (ok: bool)
      requires Valid()
      modifies this`snapshot, this`executed
      ensures Valid() && executed == old(executed) + 1
      ensures ok <==> old(snapshot).None? && old(executed) !in faults
      ensures snapshot == if ok then Some(State()) else old(snapshot)
    {
      ok := Execute();
      if ok && snapshot.None? {
        snapshot := Some(State());
      } else {
        ok := false;
      }
    }

    /** `COMMIT TRANSACTION`; a failed commit leaves the transaction open. */
    method Commit() returns (ok: bool)
      requires Valid()
      modifies this`snapshot, this`executed
      ensures Valid() && executed == old(executed) + 1
      ensures ok <==> old(snapshot).Some? && old(executed) !in faults
      ensures snapshot == if ok then None else old(snapshot)
    {
      ok := Execute();
      if ok && snapshot.Some? {
        snapshot := None;
      } else {
        ok := false;
      }
    }

    /** `ROLLBACK TRANSACTION`: puts back the tables saved at BEGIN. */
    method Rollback() returns (ok: bool)
      requires Valid()
      modifies this
      ensures Valid() && executed == old(executed) + 1
      ensures ok <==> old(snapshot).Some? && old(executed) !in faults
      ensures ok ==> State() == old(snapshot).value && snapshot.None?
      ensures !ok ==> State() == old(State()) && snapshot == old(snapshot)
    {
      ok := Execute();
      if ok && snapshot.Some? {
        var t := snapshot.value;
        logs, entries, strings, nextLogId := t.logs, t.entries, t.strings, t.nextLogId;
        snapshot := None;
      } else {
        ok := false;
      }
    }

    /** The lookup by name; `found` is meaningful only when `ok`. */
    method SelectLog(name: Bytes) returns (ok: bool, found: Option<int>)
      modifies this`executed
      ensures executed == old(executed) + 1
      ensures ok <==> old(executed) !in faults
      ensures ok ==> found == FindLog(logs, name)
    {
      ok := Execute();
      found := FindLog(logs, name);
    }

    /** `INSERT INTO logs (log_name, filename)`: the row takes the next AUTOINCREMENT id. */
    method InsertLog(name: Bytes, filename: Bytes) returns (ok: bool)
      requires Valid()
      modifies this`logs, this`nextLogId, this`executed
      ensures Valid() && executed == old(executed) + 1
      ensures ok <==> old(executed) !in faults
      ensures ok ==> logs == old(logs) + [LogRow(old(nextLogId), name, filename)] && nextLogId == old(nextLogId) + 1
      ensures !ok ==> logs == old(logs) && nextLogId == old(nextLogId)
    {
      ok := Execute();
      if ok {
        logs := logs + [LogRow(nextLogId, name, filename)];
        nextLogId := nextLogId + 1;
      }
    }

    /** `INSERT INTO entries`: fails on a duplicate entry_id. */
    method InsertEntry(row: EntryRow) returns (ok: bool)
      requires Valid()
      modifies this`entries, this`executed
      ensures Valid() && executed == old(executed) + 1
      ensures ok <==> old(executed) !in faults && !HasEntry(old(entries), row.entryId)
      ensures entries == if ok then old(entries) + [row] else old(entries)
    {
      ok := Execute();
      if ok && !HasEntry(entries, row.entryId) {
        entries := entries + [row];
      } else {
        ok := false;
      }
    }

    /** `INSERT INTO strings`: fails on a duplicate (column_name, entry_id). */
    method InsertString(row: StringRow) returns (ok: bool)
      requires Valid()
      modifies this`strings, this`executed
      ensures Valid() && executed == old(executed) + 1
      ensures ok <==> old(executed) !in faults && !HasString(old(strings), row.column, row.entryId)
      ensures strings == if ok then old(strings) + [row] else old(strings)
    {
      ok := Execute();
      if ok && !HasString(strings, row.column, row.entryId) {
        strings := strings + [row];
      } else {
        ok := false;
      }
    }
  }
}
