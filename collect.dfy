/**
 * The collector: one ingestion run of a log file into the store. The run
 * opens an exclusive transaction, resolves (or creates) the log row for the
 * file, reassembles the file's lines, and for each line that the format
 * matches writes one entry row and one string row per extracted field. It
 * commits at the end; a failure before the commit rolls everything back.
 *
 * The libraries the collector calls are parameters: the format matcher,
 * the date parser and MD5 (`Env`); the random source and the clock are the
 * `Rand` and `Clock` objects. A Go panic is an `Err` or `Aborted` result.
 */
module Collect {
  import opened Wrappers
  import opened Octets
  import Hex
  import Decimal
  import opened LineSource
  import opened Store
  import opened Host

  /** An MD5 sum (RFC 1321): 16 bytes. */
  type Digest = d: Bytes | |d| == 16 witness [0, 0, 0, 0, 0, 0, 0, 0, 0, 0, 0, 0, 0, 0, 0, 0]

  /**
   * `read(fmt, line)`: the fields the format extracts from the line, None on a
   * non-match. `parse(layout, value)`: the instant in Unix seconds, None on a
   * parse error. `md5(bytes)`: the digest.
   */
  datatype Env = Env(
    read: (Bytes, Bytes) -> Option<map<Bytes, Bytes>>,
    parse: (Bytes, Bytes) -> Option<int>,
    md5: Bytes -> Digest)

  /** The -fmt, -date, -compact and -relax options. */
  datatype Config = Config(fmt: Bytes, dateLayout: Bytes, compact: bool, relax: bool)

  /**
   * The warnings a run logs and carries on after. The date warning prints
   * the time the parser returned, not the field, so it carries nothing.
   */
  datatype Warning = UnmatchedLine(line: Bytes) | BadDate | RollbackError

  /** The errors that end a run. */
  datatype Fatal = BeginFailed | StoreFailed | InsertFailed | OpenFailed | ReadFailed | CommitFailed

  datatype RollbackStatus = NotAttempted | RolledBack | RollbackFailed

  datatype RunOutcome = Committed(logId: int) | Aborted(cause: Fatal, rollback: RollbackStatus)

  /** The result of opening the log file. */
  datatype FileOpen = Opened(src: Source) | CannotOpen(code: int)

  /** The random buffer: 8 bytes of which the first 2 are drawn. */
  const BufferLength: nat := 8
  const RandomBytes: nat := 2

  /** The field name whose value gives the entry's timestamp: "datetime". */
  const DatetimeKey: Bytes := [0x64, 0x61, 0x74, 0x65, 0x74, 0x69, 0x6d, 0x65]

  /** Go's zero time.Time (January 1, year 1, UTC) in Unix seconds. */
  const ZeroTime: int := -62135596800

  /** The name a log file is registered under: its path. */
  function LogName(fname: Bytes): Bytes
  {
    fname
  }

  // ---------------------------------------------------------------- entry ids

  /** The random buffer for two draws of the generator: each draw truncated to a byte, then six zero bytes. */
  function RandomBuffer(d0: nat, d1: nat): Bytes
  {
    [(d0 % 256) as byte, (d1 % 256) as byte, 0, 0, 0, 0, 0, 0]
  }

  /** The entry id for two draws, a log id and a line: the hex of the MD5 of buffer, decimal log id and line. */
  function EntryIdOf(md5: Bytes -> Digest, d0: nat, d1: nat, logId: int, line: Bytes): Bytes
  {
    Hex.Encode(md5(RandomBuffer(d0, d1) + Decimal.Itoa(logId) + line))
  }

  /** Fills a fresh 8-byte buffer: bytes 0 and 1 from the generator, the rest left zero. */
  method FillRandom(rand: Rand) returns (rbs: array<byte>)
    modifies rand
    ensures fresh(rbs) && rbs.Length == BufferLength
    ensures rand.drawn == old(rand.drawn) + RandomBytes
    ensures forall i :: 0 <= i < RandomBytes ==> rbs[i] == (rand.draws(old(rand.drawn) + i) % 256) as byte
    ensures forall i :: RandomBytes <= i < BufferLength ==> rbs[i] == 0
    ensures rbs[..] == RandomBuffer(rand.draws(old(rand.drawn)), rand.draws(old(rand.drawn) + 1))
  {
    rbs := new byte[BufferLength](_ => 0);
    var i := 0;
    while i < RandomBytes
      invariant 0 <= i <= RandomBytes
      invariant rand.drawn == old(rand.drawn) + i
      invariant forall j :: 0 <= j < i ==> rbs[j] == (rand.draws(old(rand.drawn) + j) % 256) as byte
      invariant forall j :: i <= j < BufferLength ==> rbs[j] == 0
    {
      var x := rand.Int();
      rbs[i] := (x % 256) as byte;
      i := i + 1;
    }
  }

  method EntryId(rand: Rand, md5: Bytes -> Digest, logId: int, line: Bytes) returns (id: Bytes)
    modifies rand
    ensures rand.drawn == old(rand.drawn) + RandomBytes
    ensures id == EntryIdOf(md5, rand.draws(old(rand.drawn)), rand.draws(old(rand.drawn) + 1), logId, line)
  {
    var rbs := FillRandom(rand);
    id := Hex.Encode(md5(rbs[..] + Decimal.Itoa(logId) + line));
  }

  /**
   * An entry id is 32 lowercase hex digits, and hex-decoding it gives back the
   * digest of the random buffer, the decimal log id and the line.
   */
  lemma EntryIdShape(md5: Bytes -> Digest, d0: nat, d1: nat, logId: int, line: Bytes)
    ensures |EntryIdOf(md5, d0, d1, logId, line)| == 32
    ensures Hex.IsLowerHexString(EntryIdOf(md5, d0, d1, logId, line))
    ensures Hex.Decode(EntryIdOf(md5, d0, d1, logId, line)) == Some(md5(RandomBuffer(d0, d1) + Decimal.Itoa(logId) + line))
  {
    Hex.DecodeEncode(md5(RandomBuffer(d0, d1) + Decimal.Itoa(logId) + line));
  }

  // ------------------------------------------------------------ log lookup

  /**
   * Get-or-create: the id of the log named `lname`, inserting a row
   * `(lname, fname)` and looking it up again when there is none. A row missing
   * after the insert is the fatal "INSERT failed", never a retry.
   */
  method GetLog(db: Db, lname: Bytes, fname: Bytes) returns (r: Result<int, Fatal>)
    requires db.Valid()
    modifies db
    ensures db.Valid()
    ensures db.entries == old(db.entries) && db.strings == old(db.strings) && db.snapshot == old(db.snapshot)
    ensures old(db.executed) <= db.executed
    ensures r.Err? ==> r.error == StoreFailed && Faulted(db.faults, old(db.executed), db.executed)
    ensures r.Ok? ==> FindLog(db.logs, lname) == Some(r.value)
    ensures old(FindLog(db.logs, lname)).Some? ==>
      && db.logs == old(db.logs) && db.nextLogId == old(db.nextLogId)
      && (r.Ok? ==> r.value == old(FindLog(db.logs, lname)).value)
    ensures old(FindLog(db.logs, lname)).None? && r.Ok? ==>
      && db.logs == old(db.logs) + [LogRow(old(db.nextLogId), lname, fname)]
      && db.nextLogId == old(db.nextLogId) + 1
      && r.value == old(db.nextLogId)
    ensures db.logs == old(db.logs) || db.logs == old(db.logs) + [LogRow(old(db.nextLogId), lname, fname)]
    ensures Consistent(old(db.State())) ==> Consistent(db.State())
  {
    var ok, found := db.SelectLog(lname);
    if !ok {
      assert old(db.executed) in db.faults;
      return Err(StoreFailed);
    }
    if found.Some? {
      return Ok(found.value);
    }
    FindLogSound(db.logs, lname);
    ghost var before := db.logs;
    ghost var n := db.executed;
    ok := db.InsertLog(lname, fname);
    if !ok {
      assert old(db.executed) <= n < db.executed && n in db.faults;
      return Err(StoreFailed);
    }
    FindLogAppend(before, LogRow(old(db.nextLogId), lname, fname), lname);
    if UniqueNames(before) {
      UniqueNamesSnoc(before, LogRow(old(db.nextLogId), lname, fname));
    }
    n := db.executed;
    ok, found := db.SelectLog(lname);
    if !ok {
      assert old(db.executed) <= n < db.executed && n in db.faults;
      return Err(StoreFailed);
    }
    if found.Some? {
      return Ok(found.value);
    }
    r := Err(InsertFailed);
  }

  // ------------------------------------------------------------ one line

  function EntryFull(cfg: Config, line: Bytes): Bytes
  {
    if cfg.compact then [] else line
  }

  /** The timestamp of an entry whose fields are `fields`, read at clock value `now`. */
  function EntryTime(env: Env, cfg: Config, fields: map<Bytes, Bytes>, now: int): int
  {
    if DatetimeKey in fields then
      match env.parse(cfg.dateLayout, fields[DatetimeKey])
      case Some(t) => t
      case None => ZeroTime
    else now
  }

  function DateWarnings(env: Env, cfg: Config, fields: map<Bytes, Bytes>): seq<Warning>
  {
    if DatetimeKey in fields && env.parse(cfg.dateLayout, fields[DatetimeKey]).None?
    then [BadDate] else []
  }

  function DropWarnings(cfg: Config, line: Bytes): seq<Warning>
  {
    if cfg.relax then [] else [UnmatchedLine(line)]
  }

  /** The warnings logged for one line. */
  function LineWarnings(env: Env, cfg: Config, line: Bytes): seq<Warning>
  {
    match env.read(cfg.fmt, line)
    case None => DropWarnings(cfg, line)
    case Some(fields) => DateWarnings(env, cfg, fields)
  }

  /**
   * A line is reported unmatched exactly when the format rejects it and
   * relax is off; a bad date exactly when a matched line's datetime field
   * does not parse. At most one warning per line.
   */
  lemma LineWarningsCases(env: Env, cfg: Config, line: Bytes)
    ensures UnmatchedLine(line) in LineWarnings(env, cfg, line) <==> env.read(cfg.fmt, line).None? && !cfg.relax
    ensures BadDate in LineWarnings(env, cfg, line) <==>
      && env.read(cfg.fmt, line).Some?
      && DatetimeKey in env.read(cfg.fmt, line).value
      && env.parse(cfg.dateLayout, env.read(cfg.fmt, line).value[DatetimeKey]).None?
    ensures |LineWarnings(env, cfg, line)| <= 1
    ensures RollbackError !in LineWarnings(env, cfg, line)
  {
  }

  predicate HasColumn(block: seq<StringRow>, column: Bytes)
  {
    exists j :: 0 <= j < |block| && block[j].column == column
  }

  /**
   * `block` lists the fields of `fields`, one row `(k, entryId, fields[k])`
   * each, in some order: its last row is one field, and the rows before it
   * list the others.
   */
  ghost predicate FieldBlock(block: seq<StringRow>, entryId: Bytes, fields: map<Bytes, Bytes>)
    decreases |block|
  {
    if block == [] then fields == map[]
    else
      var row := block[|block| - 1];
      && row.entryId == entryId && row.column in fields && row.value == fields[row.column]
      && FieldBlock(block[..|block| - 1], entryId, fields - {row.column})
  }

  /** A field block has one row per field. */
  lemma {:induction false} FieldBlockSize(block: seq<StringRow>, entryId: Bytes, fields: map<Bytes, Bytes>)
    requires FieldBlock(block, entryId, fields)
    ensures |block| == |fields|
    decreases |block|
  {
    if block != [] {
      var c := block[|block| - 1].column;
      var rest := fields - {c};
      FieldBlockSize(block[..|block| - 1], entryId, rest);
      assert rest.Keys == fields.Keys - {c};
      assert |fields| == |rest| + 1;
    }
  }

  /** Every row of a field block is one field of the line, under `entryId`. */
  lemma {:induction false} FieldBlockSound(block: seq<StringRow>, entryId: Bytes, fields: map<Bytes, Bytes>)
    requires FieldBlock(block, entryId, fields)
    ensures forall j :: 0 <= j < |block| ==>
      block[j].entryId == entryId && block[j].column in fields && block[j].value == fields[block[j].column]
    decreases |block|
  {
    if block != [] {
      var n := |block| - 1;
      var init := block[..n];
      FieldBlockSound(init, entryId, fields - {block[n].column});
      forall j | 0 <= j < n
        ensures block[j].entryId == entryId && block[j].column in fields && block[j].value == fields[block[j].column]
      {
        assert block[j] == init[j];
      }
    }
  }

  /** No column appears twice in a field block, so its rows keep the UNIQUE constraint. */
  lemma {:induction false} FieldBlockDistinct(block: seq<StringRow>, entryId: Bytes, fields: map<Bytes, Bytes>)
    requires FieldBlock(block, entryId, fields)
    ensures forall i, j :: 0 <= i < j < |block| ==> block[i].column != block[j].column
    decreases |block|
  {
    if block != [] {
      var n := |block| - 1;
      var init, c := block[..n], block[n].column;
      FieldBlockDistinct(init, entryId, fields - {c});
      FieldBlockSound(init, entryId, fields - {c});
      forall i, j | 0 <= i < j < |block| ensures block[i].column != block[j].column {
        assert block[i] == init[i];
        if j < n {
          assert block[j] == init[j];
        }
      }
    }
  }

  /** Every field of the line has a row in its field block. */
  lemma {:induction false} FieldBlockComplete(block: seq<StringRow>, entryId: Bytes, fields: map<Bytes, Bytes>)
    requires FieldBlock(block, entryId, fields)
    ensures forall k :: k in fields ==> HasColumn(block, k)
    decreases |block|
  {
    if block != [] {
      var n := |block| - 1;
      var init, c := block[..n], block[n].column;
      FieldBlockComplete(init, entryId, fields - {c});
      forall k | k in fields ensures HasColumn(block, k) {
        if k == c {
          assert block[n].column == k;
        } else {
          assert k in fields - {c};
          var j :| 0 <= j < n && init[j].column == k;
          assert block[j] == init[j];
        }
      }
    }
  }

  /**
   * A field still to be written that already has a row under `id` after a
   * partial block can only have found it among the rows from before.
   */
  lemma BlockClash(strings: seq<StringRow>, block: seq<StringRow>, id: Bytes, fields: map<Bytes, Bytes>,
                   keys: set<Bytes>, k: Bytes)
    requires FieldBlock(block, id, fields - keys) && k in keys
    requires HasString(strings + block, k, id)
    ensures HasString(strings, k, id) && HasStringsFor(strings, id)
  {
    FieldBlockSound(block, id, fields - keys);
    var j :| 0 <= j < |strings + block| && (strings + block)[j].column == k && (strings + block)[j].entryId == id;
    assert j < |strings|;
    assert strings[j] == (strings + block)[j];
  }

  /**
   * The loop writing one string row per field of a matched line, all under
   * the entry id `id`, in the map's (unspecified) iteration order. Stops at
   * the first failed insert.
   */
  method InsertFields(db: Db, id: Bytes, fields: map<Bytes, Bytes>) returns (ok: bool, ghost block: seq<StringRow>)
    requires db.Valid()
    requires HasEntry(db.entries, id)
    modifies db`strings, db`executed
    ensures db.Valid()
    ensures db.strings == old(db.strings) + block
    ensures Referenced(old(db.strings), db.entries) ==> Referenced(db.strings, db.entries)
    ensures ok ==> FieldBlock(block, id, fields)
    ensures old(db.executed) <= db.executed
    ensures !ok ==> Faulted(db.faults, old(db.executed), db.executed) || HasStringsFor(old(db.strings), id)
  {
    block := [];
    var keys := fields.Keys;
    while keys != {}
      invariant keys <= fields.Keys
      invariant FieldBlock(block, id, fields - keys)
      invariant db.Valid() && db.strings == old(db.strings) + block
      invariant Referenced(old(db.strings), db.entries) ==> Referenced(db.strings, db.entries)
      invariant old(db.executed) <= db.executed
      decreases keys
    {
      var k :| k in keys;
      var srow := StringRow(k, id, fields[k]);
      if Referenced(db.strings, db.entries) {
        ReferencedSnoc(db.strings, db.entries, srow);
      }
      ghost var n := db.executed;
      ok := db.InsertString(srow);
      if !ok {
        if n in db.faults {
          assert old(db.executed) <= n < db.executed;
        } else {
          BlockClash(old(db.strings), block, id, fields, keys, k);
        }
        return;
      }
      assert (block + [srow])[..|block|] == block;
      assert (fields - (keys - {k})) - {k} == fields - keys;
      block := block + [srow];
      keys := keys - {k};
    }
    assert fields - keys == fields;
    ok := true;
  }

  /**
   * The entry row for a line the format accepted: a fresh entry id, the
   * clock reading (taken whether or not it is used), and the parsed
   * `datetime` field when there is one, Go's zero time if it does not parse.
   */
  method NewEntry(rand: Rand, clock: Clock, env: Env, cfg: Config, logId: int, line: Bytes, fields: map<Bytes, Bytes>)
    returns (row: EntryRow, warnings: seq<Warning>)
    modifies rand, clock
    ensures rand.drawn == old(rand.drawn) + RandomBytes && clock.calls == old(clock.calls) + 1
    ensures row == EntryRow(
      logId,
      EntryIdOf(env.md5, rand.draws(old(rand.drawn)), rand.draws(old(rand.drawn) + 1), logId, line),
      EntryFull(cfg, line),
      EntryTime(env, cfg, fields, clock.readings(old(clock.calls))))
    ensures warnings == DateWarnings(env, cfg, fields)
  {
    var id := EntryId(rand, env.md5, logId, line);
    var date := clock.Now();
    warnings := [];
    if DatetimeKey in fields {
      var parsed := env.parse(cfg.dateLayout, fields[DatetimeKey]);
      // the parser's result is kept even when it failed: Go's zero time
      date := if parsed.Some? then parsed.value else ZeroTime;
      if parsed.None? {
        warnings := [BadDate];
      }
    }
    row := EntryRow(logId, id, EntryFull(cfg, line), date);
  }

  /**
   * Persists one line. A line the format rejects is dropped; otherwise one
   * entry row is written and then one string row per field, in the map's
   * (unspecified) iteration order. Returns the entry row written.
   */
  method AddLine(db: Db, rand: Rand, clock: Clock, env: Env, cfg: Config, logId: int, line: Bytes)
    returns (r: Result<Option<EntryRow>, Fatal>, warnings: seq<Warning>, ghost block: seq<StringRow>)
    requires db.Valid()
    modifies db`entries, db`strings, db`executed, rand, clock
    ensures db.Valid()
    ensures Consistent(old(db.State())) ==> Consistent(db.State())
    ensures r.Err? ==> r.error == StoreFailed
    ensures warnings == LineWarnings(env, cfg, line)
    ensures env.read(cfg.fmt, line).None? ==>
      && r == Ok(None) && db.State() == old(db.State())
      && rand.drawn == old(rand.drawn) && clock.calls == old(clock.calls)
    ensures env.read(cfg.fmt, line).Some? ==>
      var fields := env.read(cfg.fmt, line).value;
      var row := EntryRow(
        logId,
        EntryIdOf(env.md5, rand.draws(old(rand.drawn)), rand.draws(old(rand.drawn) + 1), logId, line),
        EntryFull(cfg, line),
        EntryTime(env, cfg, fields, clock.readings(old(clock.calls))));
      && rand.drawn == old(rand.drawn) + RandomBytes && clock.calls == old(clock.calls) + 1
      && (r.Ok? ==>
            && r.value == Some(row)
            && db.entries == old(db.entries) + [row]
            && db.strings == old(db.strings) + block
            && FieldBlock(block, row.entryId, fields))
      && (r.Err? ==>
            || Faulted(db.faults, old(db.executed), db.executed)
            || HasEntry(old(db.entries), row.entryId)
            || HasStringsFor(old(db.strings), row.entryId))
    ensures old(db.executed) <= db.executed
  {
    block := [];
    var m := env.read(cfg.fmt, line);
    if m.None? {
      warnings := DropWarnings(cfg, line);
      return Ok(None), warnings, block;
    }
    var fields := m.value;
    var row;
    row, warnings := NewEntry(rand, clock, env, cfg, logId, line, fields);
    ghost var n := db.executed;
    var ok := db.InsertEntry(row);
    if !ok {
      if n in db.faults {
        assert old(db.executed) <= n < db.executed;
      }
      return Err(StoreFailed), warnings, block;
    }
    assert db.entries[|db.entries| - 1].entryId == row.entryId;
    if Referenced(db.strings, old(db.entries)) {
      ReferencedGrow(db.strings, old(db.entries), row);
    }
    n := db.executed;
    ok, block := InsertFields(db, row.entryId, fields);
    if !ok {
      if Faulted(db.faults, n, db.executed) {
        FaultedWiden(db.faults, n, db.executed, old(db.executed), db.executed);
      }
      return Err(StoreFailed), warnings, block;
    }
    r := Ok(Some(row));
  }

  // ------------------------------------------------------------ one run

  /** A line the format accepted, with the fields it extracted. */
  datatype Match = Match(line: Bytes, fields: map<Bytes, Bytes>)

  /** The lines the format accepts, in file order. */
  function Matched(env: Env, cfg: Config, lines: seq<Bytes>): seq<Match>
    decreases |lines|
  {
    if lines == [] then []
    else
      var prev := Matched(env, cfg, lines[..|lines| - 1]);
      var last := lines[|lines| - 1];
      match env.read(cfg.fmt, last)
      case None => prev
      case Some(fields) => prev + [Match(last, fields)]
  }

  /** How many lines the format rejects. */
  function Dropped(env: Env, cfg: Config, lines: seq<Bytes>): nat
    decreases |lines|
  {
    if lines == [] then 0
    else Dropped(env, cfg, lines[..|lines| - 1]) + (if env.read(cfg.fmt, lines[|lines| - 1]).None? then 1 else 0)
  }

  /** The warnings logged while the lines are consumed. */
  function RunWarnings(env: Env, cfg: Config, lines: seq<Bytes>): seq<Warning>
    decreases |lines|
  {
    if lines == [] then []
    else RunWarnings(env, cfg, lines[..|lines| - 1]) + LineWarnings(env, cfg, lines[|lines| - 1])
  }

  function CountUnmatched(ws: seq<Warning>): nat
    decreases |ws|
  {
    if ws == [] then 0 else (if ws[0].UnmatchedLine? then 1 else 0) + CountUnmatched(ws[1..])
  }

  /**
   * What a run draws on: the collaborators, the options, the log id, and the
   * generator and clock with the number of values already taken from each.
   */
  datatype Run = Run(env: Env, cfg: Config, logId: int, draws: nat -> nat, drawn: nat, readings: nat -> int, calls: nat)

  /** The entry row for the k-th matched line of a run: it takes draws 2k and 2k+1 and clock reading k. */
  function EntryAt(run: Run, k: nat, m: Match): EntryRow
  {
    EntryRow(
      run.logId,
      EntryIdOf(run.env.md5, run.draws(run.drawn + 2 * k), run.draws(run.drawn + 2 * k + 1), run.logId, m.line),
      EntryFull(run.cfg, m.line),
      EntryTime(run.env, run.cfg, m.fields, run.readings(run.calls + k)))
  }

  /** The entry rows a run writes for its matched lines, in order. */
  function NewEntries(run: Run, ms: seq<Match>): (rows: seq<EntryRow>)
    ensures |rows| == |ms|
    decreases |ms|
  {
    if ms == [] then [] else NewEntries(run, ms[..|ms| - 1]) + [EntryAt(run, |ms| - 1, ms[|ms| - 1])]
  }

  /** The string rows of a run, one block per matched line, each under that line's entry id. */
  ghost predicate FieldBlocks(blocks: seq<seq<StringRow>>, rows: seq<EntryRow>, ms: seq<Match>)
  {
    && |blocks| == |ms| && |rows| == |ms|
    && forall k :: 0 <= k < |ms| ==> FieldBlock(blocks[k], rows[k].entryId, ms[k].fields)
  }

  /** Every line is either matched, in order, or dropped. */
  lemma {:induction false} MatchedLines(env: Env, cfg: Config, lines: seq<Bytes>)
    ensures |Matched(env, cfg, lines)| + Dropped(env, cfg, lines) == |lines|
    ensures forall k :: 0 <= k < |Matched(env, cfg, lines)| ==>
      env.read(cfg.fmt, Matched(env, cfg, lines)[k].line) == Some(Matched(env, cfg, lines)[k].fields)
    decreases |lines|
  {
    if lines != [] {
      MatchedLines(env, cfg, lines[..|lines| - 1]);
    }
  }

  /** The k-th row written is the row for the k-th matched line. */
  lemma {:induction false} NewEntriesAt(run: Run, ms: seq<Match>)
    ensures forall k :: 0 <= k < |ms| ==> NewEntries(run, ms)[k] == EntryAt(run, k, ms[k])
    decreases |ms|
  {
    if ms != [] {
      var n := |ms| - 1;
      var init := NewEntries(run, ms[..n]);
      NewEntriesAt(run, ms[..n]);
      assert NewEntries(run, ms) == init + [EntryAt(run, n, ms[n])];
      forall k | 0 <= k < |ms| ensures NewEntries(run, ms)[k] == EntryAt(run, k, ms[k]) {
        if k < n {
          assert NewEntries(run, ms)[k] == init[k] == EntryAt(run, k, ms[..n][k]);
          assert ms[..n][k] == ms[k];
        }
      }
    }
  }

  /**
   * What the row `e` written for the k-th matched line `m` of a run holds:
   * the run's log id; the full line unless compact; a 32-digit lowercase hex
   * id that decodes to the digest of the line's random buffer (draws 2k and
   * 2k+1), the decimal log id and the line; and the timestamp from the
   * `datetime` field (the parser's result, Go's zero time when it fails) or
   * else the k-th clock reading.
   */
  ghost predicate RowFor(run: Run, k: nat, m: Match, e: EntryRow)
  {
    && e.logId == run.logId
    && e.full == (if run.cfg.compact then [] else m.line)
    && |e.entryId| == 32
    && Hex.IsLowerHexString(e.entryId)
    && Hex.Decode(e.entryId) == Some(run.env.md5(
         RandomBuffer(run.draws(run.drawn + 2 * k), run.draws(run.drawn + 2 * k + 1))
         + Decimal.Itoa(run.logId) + m.line))
    && (DatetimeKey !in m.fields ==> e.time == run.readings(run.calls + k))
    && (DatetimeKey in m.fields && run.env.parse(run.cfg.dateLayout, m.fields[DatetimeKey]).Some? ==>
          e.time == run.env.parse(run.cfg.dateLayout, m.fields[DatetimeKey]).value)
    && (DatetimeKey in m.fields && run.env.parse(run.cfg.dateLayout, m.fields[DatetimeKey]).None? ==>
          e.time == ZeroTime)
  }

  lemma EntryAtRow(run: Run, k: nat, m: Match)
    ensures RowFor(run, k, m, EntryAt(run, k, m))
  {
    EntryIdShape(run.env.md5, run.draws(run.drawn + 2 * k), run.draws(run.drawn + 2 * k + 1), run.logId, m.line);
  }

  /** The rows of a run: one per matched line, in order, each as RowFor describes. */
  lemma RunEntries(run: Run, ms: seq<Match>)
    ensures |NewEntries(run, ms)| == |ms|
    ensures forall k :: 0 <= k < |ms| ==> RowFor(run, k, ms[k], NewEntries(run, ms)[k])
  {
    NewEntriesAt(run, ms);
    forall k | 0 <= k < |ms| ensures RowFor(run, k, ms[k], NewEntries(run, ms)[k]) {
      EntryAtRow(run, k, ms[k]);
    }
  }

  lemma {:induction false} CountUnmatchedAppend(a: seq<Warning>, b: seq<Warning>)
    ensures CountUnmatched(a + b) == CountUnmatched(a) + CountUnmatched(b)
    decreases |a|
  {
    if a == [] {
      assert [] + b == b;
    } else {
      assert (a + b)[1..] == a[1..] + b;
      CountUnmatchedAppend(a[1..], b);
    }
  }

  /** One "unmatched line" warning per dropped line, none under relax. */
  lemma {:induction false} UnmatchedWarnings(env: Env, cfg: Config, lines: seq<Bytes>)
    ensures CountUnmatched(RunWarnings(env, cfg, lines)) == if cfg.relax then 0 else Dropped(env, cfg, lines)
    decreases |lines|
  {
    if lines != [] {
      var init := lines[..|lines| - 1];
      var last := lines[|lines| - 1];
      UnmatchedWarnings(env, cfg, init);
      CountUnmatchedAppend(RunWarnings(env, cfg, init), LineWarnings(env, cfg, last));
    }
  }

  /** Consuming one more line extends the matched lines, the new rows and the warnings at the end. */
  lemma ConsumeStep(run: Run, lines: seq<Bytes>, i: int)
    requires 0 <= i < |lines|
    ensures var ms := Matched(run.env, run.cfg, lines[..i]);
      match run.env.read(run.cfg.fmt, lines[i])
      case None => Matched(run.env, run.cfg, lines[..i + 1]) == ms
      case Some(fields) =>
        && Matched(run.env, run.cfg, lines[..i + 1]) == ms + [Match(lines[i], fields)]
        && NewEntries(run, ms + [Match(lines[i], fields)]) == NewEntries(run, ms) + [EntryAt(run, |ms|, Match(lines[i], fields))]
    ensures RunWarnings(run.env, run.cfg, lines[..i + 1]) ==
      RunWarnings(run.env, run.cfg, lines[..i]) + LineWarnings(run.env, run.cfg, lines[i])
  {
    assert lines[..i + 1][..i] == lines[..i];
    var ms := Matched(run.env, run.cfg, lines[..i]);
    if run.env.read(run.cfg.fmt, lines[i]).Some? {
      var m := Match(lines[i], run.env.read(run.cfg.fmt, lines[i]).value);
      assert (ms + [m])[..|ms|] == ms;
    }
  }

  lemma FieldBlocksSnoc(blocks: seq<seq<StringRow>>, block: seq<StringRow>, rows: seq<EntryRow>, row: EntryRow,
                        ms: seq<Match>, m: Match)
    requires FieldBlocks(blocks, rows, ms)
    requires FieldBlock(block, row.entryId, m.fields)
    ensures FieldBlocks(blocks + [block], rows + [row], ms + [m])
  {
    forall k | 0 <= k < |ms| + 1
      ensures FieldBlock((blocks + [block])[k], (rows + [row])[k].entryId, (ms + [m])[k].fields)
    {
      if k < |ms| {
        assert (blocks + [block])[k] == blocks[k] && (rows + [row])[k] == rows[k] && (ms + [m])[k] == ms[k];
      }
    }
  }

  /**
   * What handing one line to AddLine does to the tables and the host
   * objects, when it returns normally: nothing for a line that does not
   * match; otherwise the run's row number `k` and one block of field rows.
   */
  ghost predicate LineEffect(run: Run, k: nat, line: Bytes,
                             entries: seq<EntryRow>, strings: seq<StringRow>, drawn: nat, calls: nat,
                             entries': seq<EntryRow>, strings': seq<StringRow>, drawn': nat, calls': nat,
                             block: seq<StringRow>)
  {
    match run.env.read(run.cfg.fmt, line)
    case None =>
      entries' == entries && strings' == strings && drawn' == drawn && calls' == calls
    case Some(fields) =>
      && entries' == entries + [EntryAt(run, k, Match(line, fields))]
      && strings' == strings + block
      && FieldBlock(block, EntryAt(run, k, Match(line, fields)).entryId, fields)
      && drawn' == drawn + RandomBytes && calls' == calls + 1
  }

  /**
   * The state of a run after the first `i` lines: the rows of their matched
   * lines follow the tables as they were, and the host objects have been
   * used once per matched line.
   */
  ghost predicate Progress(run: Run, lines: seq<Bytes>, i: int, entries0: seq<EntryRow>, strings0: seq<StringRow>,
                           entries: seq<EntryRow>, strings: seq<StringRow>, drawn: nat, calls: nat,
                           blocks: seq<seq<StringRow>>)
  {
    && 0 <= i <= |lines|
    && var ms := Matched(run.env, run.cfg, lines[..i]);
    && entries == entries0 + NewEntries(run, ms)
    && strings == strings0 + Flatten(blocks)
    && FieldBlocks(blocks, NewEntries(run, ms), ms)
    && drawn == run.drawn + RandomBytes * |ms| && calls == run.calls + |ms|
  }

  /** Taking line `i` through AddLine moves the run's progress to line `i + 1`. */
  lemma ProgressStep(run: Run, lines: seq<Bytes>, i: int, entries0: seq<EntryRow>, strings0: seq<StringRow>,
                     entries: seq<EntryRow>, strings: seq<StringRow>, drawn: nat, calls: nat,
                     blocks: seq<seq<StringRow>>,
                     entries': seq<EntryRow>, strings': seq<StringRow>, drawn': nat, calls': nat,
                     block: seq<StringRow>)
    requires 0 <= i < |lines|
    requires Progress(run, lines, i, entries0, strings0, entries, strings, drawn, calls, blocks)
    requires LineEffect(run, |Matched(run.env, run.cfg, lines[..i])|, lines[i],
                        entries, strings, drawn, calls, entries', strings', drawn', calls', block)
    ensures Progress(run, lines, i + 1, entries0, strings0, entries', strings', drawn', calls',
                     if run.env.read(run.cfg.fmt, lines[i]).Some? then blocks + [block] else blocks)
    ensures RunWarnings(run.env, run.cfg, lines[..i + 1]) ==
      RunWarnings(run.env, run.cfg, lines[..i]) + LineWarnings(run.env, run.cfg, lines[i])
  {
    ConsumeStep(run, lines, i);
    var ms := Matched(run.env, run.cfg, lines[..i]);
    var rows := NewEntries(run, ms);
    if run.env.read(run.cfg.fmt, lines[i]).Some? {
      var m := Match(lines[i], run.env.read(run.cfg.fmt, lines[i]).value);
      var row := EntryAt(run, |ms|, m);
      FieldBlocksSnoc(blocks, block, rows, row, ms, m);
      FlattenSnoc(blocks, block);
      AppendAssoc(entries0, rows, [row]);
      AppendAssoc(strings0, Flatten(blocks), block);
    }
  }

  /**
   * The log a run writes under: the log named after the file is found, or
   * it is appended with the next id; no other log row changes.
   */
  ghost predicate LogFor(fname: Bytes, before: Tables, after: seq<LogRow>, logId: int)
  {
    && FindLog(after, LogName(fname)) == Some(logId)
    && (FindLog(before.logs, LogName(fname)).Some? ==>
          after == before.logs && logId == FindLog(before.logs, LogName(fname)).value)
    && (FindLog(before.logs, LogName(fname)).None? ==>
          after == before.logs + [LogRow(before.nextLogId, LogName(fname), fname)] && logId == before.nextLogId)
  }

  /**
   * The rows a run writes for `lines`: after the tables as they were, the
   * row for each accepted line, in order, and one block of field rows each.
   */
  ghost predicate RunWritten(run: Run, lines: seq<Bytes>, entries0: seq<EntryRow>, strings0: seq<StringRow>,
                             entries: seq<EntryRow>, strings: seq<StringRow>, blocks: seq<seq<StringRow>>)
  {
    var ms := Matched(run.env, run.cfg, lines);
    && entries == entries0 + NewEntries(run, ms)
    && strings == strings0 + Flatten(blocks)
    && FieldBlocks(blocks, NewEntries(run, ms), ms)
  }

  /** After the last line, the run's progress is what the whole run writes. */
  lemma ProgressDone(run: Run, lines: seq<Bytes>, entries0: seq<EntryRow>, strings0: seq<StringRow>,
                     entries: seq<EntryRow>, strings: seq<StringRow>, drawn: nat, calls: nat,
                     blocks: seq<seq<StringRow>>)
    requires Progress(run, lines, |lines|, entries0, strings0, entries, strings, drawn, calls, blocks)
    ensures RunWritten(run, lines, entries0, strings0, entries, strings, blocks)
    ensures var matched := |Matched(run.env, run.cfg, lines)|;
      drawn == run.drawn + RandomBytes * matched && calls == run.calls + matched
  {
    assert lines[..|lines|] == lines;
  }

  /** The run's row number `k` is the row AddLine builds from the draws and the clock reading it is at. */
  lemma EntryAtDraws(run: Run, k: nat, m: Match, drawn: nat, calls: nat)
    requires drawn == run.drawn + RandomBytes * k && calls == run.calls + k
    ensures EntryAt(run, k, m) == EntryRow(
      run.logId,
      EntryIdOf(run.env.md5, run.draws(drawn), run.draws(drawn + 1), run.logId, m.line),
      EntryFull(run.cfg, m.line),
      EntryTime(run.env, run.cfg, m.fields, run.readings(calls)))
  {
  }

  /**
   * The row a matched line would write takes an entry id that the tables
   * already hold, as an entry or under string rows: its insert fails.
   */
  ghost predicate LineClash(run: Run, k: nat, line: Bytes, entries: seq<EntryRow>, strings: seq<StringRow>)
  {
    && run.env.read(run.cfg.fmt, line).Some?
    && var id := EntryAt(run, k, Match(line, run.env.read(run.cfg.fmt, line).value)).entryId;
    HasEntry(entries, id) || HasStringsFor(strings, id)
  }

  /**
   * Line `i` of a run is matched and its entry id is already taken by the
   * rows before the run or by a row the run wrote for an earlier line.
   */
  ghost predicate EntryClash(run: Run, lines: seq<Bytes>, i: int, entries0: seq<EntryRow>)
  {
    && 0 <= i < |lines|
    && run.env.read(run.cfg.fmt, lines[i]).Some?
    && var ms := Matched(run.env, run.cfg, lines[..i]);
    HasEntry(entries0 + NewEntries(run, ms), EntryAt(run, |ms|, Match(lines[i], run.env.read(run.cfg.fmt, lines[i]).value)).entryId)
  }

  ghost predicate RunClashes(run: Run, lines: seq<Bytes>, entries0: seq<EntryRow>)
  {
    exists i :: EntryClash(run, lines, i, entries0)
  }

  /** With every string row under an entry, a line that clashes at line `i` of a run is an entry clash. */
  lemma ClashStep(run: Run, lines: seq<Bytes>, i: int, entries0: seq<EntryRow>, strings0: seq<StringRow>,
                  entries: seq<EntryRow>, strings: seq<StringRow>, drawn: nat, calls: nat,
                  blocks: seq<seq<StringRow>>)
    requires 0 <= i < |lines|
    requires Progress(run, lines, i, entries0, strings0, entries, strings, drawn, calls, blocks)
    requires Referenced(strings, entries)
    requires LineClash(run, |Matched(run.env, run.cfg, lines[..i])|, lines[i], entries, strings)
    ensures RunClashes(run, lines, entries0)
  {
    var ms := Matched(run.env, run.cfg, lines[..i]);
    var fields := run.env.read(run.cfg.fmt, lines[i]).value;
    var id := EntryAt(run, |ms|, Match(lines[i], fields)).entryId;
    if HasStringsFor(strings, id) {
      var j :| 0 <= j < |strings| && strings[j].entryId == id;
      assert HasEntry(entries, strings[j].entryId);
    }
    assert EntryClash(run, lines, i, entries0);
  }

  /** The first line the format matches: none before it is matched. */
  lemma {:induction false} FirstMatch(env: Env, cfg: Config, lines: seq<Bytes>) returns (i: nat)
    requires Matched(env, cfg, lines) != []
    ensures i < |lines| && Matched(env, cfg, lines[..i]) == [] && env.read(cfg.fmt, lines[i]).Some?
    decreases |lines|
  {
    var n := |lines| - 1;
    if Matched(env, cfg, lines[..n]) != [] {
      i := FirstMatch(env, cfg, lines[..n]);
      assert lines[..n][..i] == lines[..i];
    } else {
      i := n;
      assert lines[..i] == lines[..n];
    }
  }

  /** The lines matched before a matched line `i` are a prefix of the run's matches, and line `i` comes next. */
  lemma {:induction false} MatchedPrefix(env: Env, cfg: Config, lines: seq<Bytes>, i: int)
    requires 0 <= i < |lines| && env.read(cfg.fmt, lines[i]).Some?
    ensures var ms := Matched(env, cfg, lines[..i]);
      var all := Matched(env, cfg, lines);
      && |ms| < |all| && all[..|ms|] == ms
      && all[|ms|] == Match(lines[i], env.read(cfg.fmt, lines[i]).value)
    decreases |lines|
  {
    var n := |lines| - 1;
    if i == n {
      assert lines[..n] == lines[..i];
    } else {
      MatchedPrefix(env, cfg, lines[..n], i);
      assert lines[..n][..i] == lines[..i];
      assert lines[..n][i] == lines[i];
      var prev := Matched(env, cfg, lines[..n]);
      var k := |Matched(env, cfg, lines[..i])|;
      var all := Matched(env, cfg, lines);
      assert all == prev || exists m :: all == prev + [m];
      assert all[..k] == prev[..k] && all[k] == prev[k];
    }
  }

  lemma NewEntriesPrefix(run: Run, ms: seq<Match>, k: int)
    requires 0 <= k <= |ms|
    ensures NewEntries(run, ms[..k]) == NewEntries(run, ms)[..k]
  {
    NewEntriesAt(run, ms);
    NewEntriesAt(run, ms[..k]);
  }

  /** The row of matched line `i` comes right after the rows of the lines before it. */
  lemma RowOfLine(run: Run, lines: seq<Bytes>, i: int)
    requires 0 <= i < |lines| && run.env.read(run.cfg.fmt, lines[i]).Some?
    ensures var all := Matched(run.env, run.cfg, lines);
      var ms := Matched(run.env, run.cfg, lines[..i]);
      && |ms| < |all|
      && NewEntries(run, ms) == NewEntries(run, all)[..|ms|]
      && NewEntries(run, all)[|ms|] == EntryAt(run, |ms|, Match(lines[i], run.env.read(run.cfg.fmt, lines[i]).value))
  {
    var all := Matched(run.env, run.cfg, lines);
    var k := |Matched(run.env, run.cfg, lines[..i])|;
    MatchedPrefix(run.env, run.cfg, lines, i);
    NewEntriesPrefix(run, all, k);
    NewEntriesAt(run, all);
  }

  /** A clash at line `i` repeats, among the rows before it, the id of line `i`'s own row. */
  lemma ClashRow(run: Run, lines: seq<Bytes>, i: int, entries0: seq<EntryRow>) returns (j: nat, k: nat)
    requires EntryClash(run, lines, i, entries0)
    ensures var entries := entries0 + NewEntries(run, Matched(run.env, run.cfg, lines));
      && j < |entries0| + k < |entries|
      && entries[j].entryId == entries[|entries0| + k].entryId
  {
    var rows := NewEntries(run, Matched(run.env, run.cfg, lines));
    var entries := entries0 + rows;
    var ms := Matched(run.env, run.cfg, lines[..i]);
    k := |ms|;
    var id := EntryAt(run, k, Match(lines[i], run.env.read(run.cfg.fmt, lines[i]).value)).entryId;
    RowOfLine(run, lines, i);
    var before := entries0 + NewEntries(run, ms);
    j :| 0 <= j < |before| && before[j].entryId == id;
    assert entries[j] == before[j] by {
      if j >= |entries0| {
        assert NewEntries(run, ms)[j - |entries0|] == rows[j - |entries0|];
      }
    }
    assert entries[|entries0| + k] == rows[k];
  }

  /**
   * A run whose rows sit in tables that keep the schema had no clash: the
   * entry-id PRIMARY KEY rules out every clash a committed run could meet.
   */
  lemma CommittedClashFree(run: Run, lines: seq<Bytes>, entries0: seq<EntryRow>)
    requires DistinctEntryIds(entries0 + NewEntries(run, Matched(run.env, run.cfg, lines)))
    ensures !RunClashes(run, lines, entries0)
  {
    if i :| EntryClash(run, lines, i, entries0) {
      var j, k := ClashRow(run, lines, i, entries0);
      assert false;
    }
  }

  /** Row `k` of two runs with the same draws under the same log has the same entry id, whatever their clocks. */
  lemma SameDrawsSameId(run: Run, run': Run, k: nat, m: Match)
    requires run'.env == run.env && run'.logId == run.logId
    requires run'.draws == run.draws && run'.drawn == run.drawn
    ensures EntryAt(run', k, m).entryId == EntryAt(run, k, m).entryId
  {
    assert run'.draws(run'.drawn + 2 * k) == run.draws(run.drawn + 2 * k);
    assert run'.draws(run'.drawn + 2 * k + 1) == run.draws(run.drawn + 2 * k + 1);
  }

  /**
   * math/rand is never seeded. Before Go 1.20, or with
   * GODEBUG=randautoseed=0, its global generator then always starts from
   * the same seed, so a process that starts again draws the same bytes: a
   * re-run of a file under the same log, over the tables the
   * first run left, computes the id of its first matched row again.
   */
  lemma RerunClashes(run: Run, run': Run, lines: seq<Bytes>, entries0: seq<EntryRow>)
    requires run'.env == run.env && run'.cfg == run.cfg && run'.logId == run.logId
    requires run'.draws == run.draws && run'.drawn == run.drawn
    requires Matched(run.env, run.cfg, lines) != []
    ensures RunClashes(run', lines, entries0 + NewEntries(run, Matched(run.env, run.cfg, lines)))
  {
    var all := Matched(run.env, run.cfg, lines);
    var i := FirstMatch(run.env, run.cfg, lines);
    MatchedPrefix(run.env, run.cfg, lines, i);
    var m := Match(lines[i], run.env.read(run.cfg.fmt, lines[i]).value);
    assert all[0] == m;
    NewEntriesAt(run, all);
    var entries := entries0 + NewEntries(run, all);
    var id := EntryAt(run', 0, m).entryId;
    SameDrawsSameId(run, run', 0, m);
    assert entries[|entries0|].entryId == id;
    assert HasEntry(entries, id);
    assert entries + NewEntries(run', []) == entries;
    assert EntryClash(run', lines, i, entries);
  }

  /** Hence the tables a successful re-run would leave break the entry-id PRIMARY KEY. */
  lemma RerunBreaksKey(run: Run, run': Run, lines: seq<Bytes>, entries0: seq<EntryRow>, after: Tables)
    requires run'.env == run.env && run'.cfg == run.cfg && run'.logId == run.logId
    requires run'.draws == run.draws && run'.drawn == run.drawn
    requires Matched(run.env, run.cfg, lines) != []
    requires after.entries == entries0 + NewEntries(run, Matched(run.env, run.cfg, lines))
                                      + NewEntries(run', Matched(run.env, run.cfg, lines))
    ensures !Schema(after)
  {
    var ms := Matched(run.env, run.cfg, lines);
    RerunClashes(run, run', lines, entries0);
    assert after.entries == (entries0 + NewEntries(run, ms)) + NewEntries(run', ms);
    if DistinctEntryIds(after.entries) {
      CommittedClashFree(run', lines, entries0 + NewEntries(run, ms));
    }
  }

  /** A line that failed to go in failed on a fault or on a clash of the run. */
  lemma ConsumeFailed(run: Run, lines: seq<Bytes>, i: int, entries0: seq<EntryRow>, strings0: seq<StringRow>,
                      head: Tables, drawn: nat, calls: nat, blocks: seq<seq<StringRow>>,
                      faults: set<nat>, from: nat, mid: nat, to: nat, consistent0: bool)
    requires 0 <= i < |lines| && from <= mid
    requires Progress(run, lines, i, entries0, strings0, head.entries, head.strings, drawn, calls, blocks)
    requires consistent0 ==> Consistent(head)
    requires Faulted(faults, mid, to) || LineClash(run, |Matched(run.env, run.cfg, lines[..i])|, lines[i], head.entries, head.strings)
    ensures consistent0 ==> Faulted(faults, from, to) || RunClashes(run, lines, entries0)
  {
    if Faulted(faults, mid, to) {
      FaultedWiden(faults, mid, to, from, to);
    } else if consistent0 {
      ClashStep(run, lines, i, entries0, strings0, head.entries, head.strings, drawn, calls, blocks);
    }
  }

  /**
   * One iteration of the consumer loop: the line, taken as the run's next
   * line after `k` matched ones, goes through AddLine; its row, if any, is
   * the run's row number `k`. A failure is a fault or a clash on the line's
   * entry id.
   */
  method ConsumeLine(db: Db, rand: Rand, clock: Clock, env: Env, cfg: Config, logId: int, ghost run: Run, ghost k: nat, line: Bytes)
    returns (ok: bool, warnings: seq<Warning>, ghost block: seq<StringRow>)
    requires db.Valid()
    requires run.env == env && run.cfg == cfg && run.logId == logId
    requires run.draws == rand.draws && run.readings == clock.readings
    requires rand.drawn == run.drawn + RandomBytes * k && clock.calls == run.calls + k
    modifies db`entries, db`strings, db`executed, rand, clock
    ensures db.Valid()
    ensures Consistent(old(db.State())) ==> Consistent(db.State())
    ensures warnings == LineWarnings(env, cfg, line)
    ensures ok ==> LineEffect(run, k, line, old(db.entries), old(db.strings), old(rand.drawn), old(clock.calls),
                              db.entries, db.strings, rand.drawn, clock.calls, block)
    ensures !ok ==> Faulted(db.faults, old(db.executed), db.executed) || LineClash(run, k, line, old(db.entries), old(db.strings))
    ensures old(db.executed) <= db.executed
  {
    if env.read(cfg.fmt, line).Some? {
      EntryAtDraws(run, k, Match(line, env.read(cfg.fmt, line).value), rand.drawn, clock.calls);
    }
    var res;
    res, warnings, block := AddLine(db, rand, clock, env, cfg, logId, line);
    ok := res.Ok?;
  }

  /**
   * What one iteration means for the run: a line that went in moves the run
   * from line `i` to line `i + 1`; one that failed leaves a fault or, when
   * the tables were consistent, a clash of the run.
   */
  lemma LineOutcome(run: Run, lines: seq<Bytes>, i: int, entries0: seq<EntryRow>, strings0: seq<StringRow>,
                    head: Tables, drawn: nat, calls: nat, blocks: seq<seq<StringRow>>, ok: bool,
                    entries': seq<EntryRow>, strings': seq<StringRow>, drawn': nat, calls': nat, block: seq<StringRow>,
                    faults: set<nat>, from: nat, mid: nat, to: nat, consistent0: bool)
    requires 0 <= i < |lines| && from <= mid
    requires Progress(run, lines, i, entries0, strings0, head.entries, head.strings, drawn, calls, blocks)
    requires consistent0 ==> Consistent(head)
    requires ok ==> LineEffect(run, |Matched(run.env, run.cfg, lines[..i])|, lines[i],
                               head.entries, head.strings, drawn, calls, entries', strings', drawn', calls', block)
    requires !ok ==> Faulted(faults, mid, to) ||
                     LineClash(run, |Matched(run.env, run.cfg, lines[..i])|, lines[i], head.entries, head.strings)
    ensures ok ==> Progress(run, lines, i + 1, entries0, strings0, entries', strings', drawn', calls',
                            if run.env.read(run.cfg.fmt, lines[i]).Some? then blocks + [block] else blocks)
    ensures RunWarnings(run.env, run.cfg, lines[..i + 1]) ==
      RunWarnings(run.env, run.cfg, lines[..i]) + LineWarnings(run.env, run.cfg, lines[i])
    ensures !ok && consistent0 ==> Faulted(faults, from, to) || RunClashes(run, lines, entries0)
  {
    if ok {
      ProgressStep(run, lines, i, entries0, strings0, head.entries, head.strings, drawn, calls, blocks,
                   entries', strings', drawn', calls', block);
    } else {
      ConsumeStep(run, lines, i);
      ConsumeFailed(run, lines, i, entries0, strings0, head, drawn, calls, blocks, faults, from, mid, to, consistent0);
    }
  }

  /** The consumer loop: hands each line to AddLine, in order, and stops at the first fatal error. */
  method Consume(db: Db, rand: Rand, clock: Clock, env: Env, cfg: Config, logId: int, lines: seq<Bytes>)
    returns (ok: bool, warnings: seq<Warning>, ghost blocks: seq<seq<StringRow>>)
    requires db.Valid()
    modifies db`entries, db`strings, db`executed, rand, clock
    ensures db.Valid()
    ensures Consistent(old(db.State())) ==> Consistent(db.State())
    ensures RollbackError !in warnings
    ensures ok ==>
      && Progress(Run(env, cfg, logId, rand.draws, old(rand.drawn), clock.readings, old(clock.calls)), lines, |lines|,
                  old(db.entries), old(db.strings), db.entries, db.strings, rand.drawn, clock.calls, blocks)
      && warnings == RunWarnings(env, cfg, lines)
    ensures old(db.executed) <= db.executed
    ensures !ok && Consistent(old(db.State())) ==>
      || Faulted(db.faults, old(db.executed), db.executed)
      || RunClashes(Run(env, cfg, logId, rand.draws, old(rand.drawn), clock.readings, old(clock.calls)), lines, old(db.entries))
  {
    ghost var run := Run(env, cfg, logId, rand.draws, rand.drawn, clock.readings, clock.calls);
    warnings, blocks := [], [];
    var i := 0;
    while i < |lines|
      invariant 0 <= i <= |lines|
      invariant db.Valid()
      invariant Consistent(old(db.State())) ==> Consistent(db.State())
      invariant rand.draws == run.draws && clock.readings == run.readings
      invariant Progress(run, lines, i, old(db.entries), old(db.strings), db.entries, db.strings, rand.drawn, clock.calls, blocks)
      invariant warnings == RunWarnings(env, cfg, lines[..i])
      invariant RollbackError !in warnings
      invariant old(db.executed) <= db.executed
    {
      ghost var head, d, c, n := db.State(), rand.drawn, clock.calls, db.executed;
      var lineOk, w, block := ConsumeLine(db, rand, clock, env, cfg, logId, run, |Matched(env, cfg, lines[..i])|, lines[i]);
      LineOutcome(run, lines, i, old(db.entries), old(db.strings), head, d, c, blocks, lineOk,
                  db.entries, db.strings, rand.drawn, clock.calls, block,
                  db.faults, old(db.executed), n, db.executed, Consistent(old(db.State())));
      LineWarningsCases(env, cfg, lines[i]);
      warnings := warnings + w;
      if !lineOk {
        return false, warnings, blocks;
      }
      if env.read(cfg.fmt, lines[i]).Some? {
        blocks := blocks + [block];
      }
      i := i + 1;
    }
    assert lines[..i] == lines;
    ok := true;
  }

  /** The deferred function of a run that did not reach success: roll back, and only warn if that fails. */
  method Unwind(db: Db, cause: Fatal, warnings: seq<Warning>) returns (r: RunOutcome, after: seq<Warning>)
    requires db.Valid() && db.snapshot.Some?
    modifies db
    ensures db.Valid()
    ensures r.Aborted? && r.cause == cause && r.rollback != NotAttempted
    ensures r.rollback == RolledBack ==> db.State() == old(db.snapshot.value) && db.snapshot.None?
    ensures r.rollback == RollbackFailed ==> db.State() == old(db.State()) && db.snapshot == old(db.snapshot)
    ensures old(db.executed) <= db.executed
    ensures after == warnings + (if r.rollback == RollbackFailed then [RollbackError] else [])
  {
    var ok := db.Rollback();
    if ok {
      r, after := Aborted(cause, RolledBack), warnings;
    } else {
      r, after := Aborted(cause, RollbackFailed), warnings + [RollbackError];
    }
  }

  /**
   * What a run that got through its lines did, from the tables `before` to
   * the tables `after`: the log named after the file is found or appended
   * with the next id, and every accepted line of the file, in order, wrote
   * its row (as RowFor describes) and its block of field rows.
   */
  ghost predicate Ingested(run: Run, fname: Bytes, src: Source, before: Tables, after: Tables,
                           drawn: nat, calls: nat, blocks: seq<seq<StringRow>>, warnings: seq<Warning>)
  {
    && LogFor(fname, before, after.logs, run.logId)
    && after.nextLogId == (if FindLog(before.logs, LogName(fname)).Some? then before.nextLogId else before.nextLogId + 1)
    && (var matched := |Matched(run.env, run.cfg, Reassemble(src.chunks, []))|;
        drawn == run.drawn + RandomBytes * matched && calls == run.calls + matched)
    && RunWritten(run, Reassemble(src.chunks, []), before.entries, before.strings, after.entries, after.strings, blocks)
    && warnings == RunWarnings(run.env, run.cfg, Reassemble(src.chunks, []))
  }

  /** The id a run of `fname` writes under: the log row named after it, or the next AUTOINCREMENT id. */
  ghost function LogIdFor(fname: Bytes, t: Tables): int
  {
    match FindLog(t.logs, LogName(fname))
    case Some(id) => id
    case None => t.nextLogId
  }

  /**
   * What a failure cause says about the file and the run: the file could
   * not be opened, its reads ended in an error other than end of file, or
   * an entry id of the run was already taken.
   */
  ghost predicate CauseHolds(cause: Fatal, run: Run, file: FileOpen, entries0: seq<EntryRow>)
  {
    || (cause == OpenFailed && file.CannotOpen?)
    || (cause == ReadFailed && file.Opened? && file.src.end.IoError?)
    || (cause == StoreFailed && file.Opened? && file.src.end.Eof? &&
        RunClashes(run, Reassemble(file.src.chunks, []), entries0))
  }

  /**
   * The body of a run between BEGIN and the success mark: get-or-create the
   * log, open and read the file, add every line. It leaves the transaction
   * open whatever happens; the caller decides between COMMIT and ROLLBACK.
   */
  method Ingest(db: Db, rand: Rand, clock: Clock, env: Env, cfg: Config, fname: Bytes, file: FileOpen)
    returns (r: Result<int, Fatal>, warnings: seq<Warning>, ghost blocks: seq<seq<StringRow>>)
    requires db.Valid() && db.snapshot.Some?
    modifies db, rand, clock
    ensures db.Valid() && db.snapshot == old(db.snapshot)
    ensures Consistent(old(db.State())) ==> Consistent(db.State())
    ensures RollbackError !in warnings
    ensures r.Err? ==> r.error in {StoreFailed, OpenFailed, ReadFailed}
    ensures r.Err? && r.error == OpenFailed ==> file.CannotOpen?
    ensures r.Err? && r.error == ReadFailed ==> file.Opened? && file.src.end.IoError?
    ensures r.Ok? ==>
      && file.Opened? && file.src.end.Eof?
      && Ingested(Run(env, cfg, r.value, rand.draws, old(rand.drawn), clock.readings, old(clock.calls)),
                  fname, file.src, old(db.State()), db.State(), rand.drawn, clock.calls, blocks, warnings)
    ensures old(db.executed) <= db.executed
    ensures r.Err? && Consistent(old(db.State())) ==>
      || Faulted(db.faults, old(db.executed), db.executed)
      || CauseHolds(r.error, Run(env, cfg, LogIdFor(fname, old(db.State())), rand.draws, old(rand.drawn), clock.readings, old(clock.calls)),
                    file, old(db.entries))
  {
    warnings, blocks := [], [];
    var lname := LogName(fname);
    var got := GetLog(db, lname, fname);
    if got.Err? {
      return Err(got.error), warnings, blocks;
    }
    var logId := got.value;
    assert LogFor(fname, old(db.State()), db.logs, logId);
    assert logId == LogIdFor(fname, old(db.State()));
    assert db.nextLogId == (if FindLog(old(db.logs), lname).Some? then old(db.nextLogId) else old(db.nextLogId) + 1);
    ghost var mid := db.executed;
    if file.CannotOpen? {
      return Err(OpenFailed), warnings, blocks;
    }
    var lines, atEof := ReadLines(file.src);
    if !atEof {
      return Err(ReadFailed), warnings, blocks;
    }
    ghost var run := Run(env, cfg, logId, rand.draws, rand.drawn, clock.readings, clock.calls);
    ghost var e0, s0 := db.entries, db.strings;
    var ok;
    ok, warnings, blocks := Consume(db, rand, clock, env, cfg, logId, lines);
    if !ok {
      if Faulted(db.faults, mid, db.executed) {
        FaultedWiden(db.faults, mid, db.executed, old(db.executed), db.executed);
      }
      return Err(StoreFailed), warnings, blocks;
    }
    ProgressDone(run, lines, e0, s0, db.entries, db.strings, rand.drawn, clock.calls, blocks);
    r := Ok(logId);
  }

  /**
   * One ingestion run of the file at `fname` with format `cfg.fmt`: BEGIN,
   * the body, COMMIT. A failure after BEGIN and before the run is marked
   * successful rolls back. A read error other than end of file panics in
   * the reader goroutine, which is modelled as ending the process with
   * nothing committed.
   * A failed COMMIT comes after the success mark, so it rolls nothing back.
   */
  method ReadLog(db: Db, rand: Rand, clock: Clock, env: Env, cfg: Config, fname: Bytes, file: FileOpen)
    returns (r: RunOutcome, warnings: seq<Warning>, ghost blocks: seq<seq<StringRow>>)
    requires db.Valid()
    modifies db, rand, clock
    ensures db.Valid()
    ensures Consistent(old(db.State())) ==> Consistent(db.State())
    // atomicity: a run that fails leaves no trace in what the database holds
    ensures r.Aborted? ==> db.Durable() == old(db.Durable())
    ensures r.Aborted? && r.rollback == RolledBack ==> db.State() == old(db.State()) && db.snapshot.None?
    ensures r.Aborted? ==> r.cause != InsertFailed
    ensures r.Aborted? && r.cause in {BeginFailed, ReadFailed, CommitFailed} ==> r.rollback == NotAttempted
    ensures r.Aborted? && r.cause in {StoreFailed, OpenFailed} ==> r.rollback != NotAttempted
    ensures r.Aborted? && r.cause == BeginFailed ==> db.State() == old(db.State()) && db.snapshot == old(db.snapshot)
    ensures r.Aborted? && r.cause == OpenFailed ==> file.CannotOpen?
    ensures r.Aborted? && r.cause == ReadFailed ==> file.Opened? && file.src.end.IoError?
    ensures (RollbackError in warnings) <==> r.Aborted? && r.rollback == RollbackFailed
    ensures r.Committed? ==>
      && old(db.snapshot).None? && db.snapshot.None?
      && file.Opened? && file.src.end.Eof?
      && Ingested(Run(env, cfg, r.logId, rand.draws, old(rand.drawn), clock.readings, old(clock.calls)),
                  fname, file.src, old(db.State()), db.State(), rand.drawn, clock.calls, blocks, warnings)
    // why a run aborts: a statement failed, a transaction was already open, or the cause says so
    ensures old(db.executed) <= db.executed
    ensures r.Aborted? && Consistent(old(db.State())) ==>
      || Faulted(db.faults, old(db.executed), db.executed)
      || (r.cause == BeginFailed && old(db.snapshot).Some?)
      || CauseHolds(r.cause, Run(env, cfg, LogIdFor(fname, old(db.State())), rand.draws, old(rand.drawn), clock.readings, old(clock.calls)),
                    file, old(db.entries))
  {
    warnings, blocks := [], [];
    var ok := db.Begin();
    if !ok {
      if old(db.snapshot).None? {
        assert old(db.executed) < db.executed && old(db.executed) in db.faults;
      }
      return Aborted(BeginFailed, NotAttempted), warnings, blocks;
    }
    assert db.State() == old(db.State()) && db.snapshot == Some(old(db.State()));
    assert db.Durable() == old(db.Durable());
    var res;
    res, warnings, blocks := Ingest(db, rand, clock, env, cfg, fname, file);
    ghost var body := db.State();
    if res.Err? {
      if res.error == ReadFailed {
        // the panic ends the process before the deferred rollback runs; the
        // consumer's race to COMMIT before that is not modelled
        return Aborted(ReadFailed, NotAttempted), warnings, blocks;
      }
      ghost var mid := db.executed;
      r, warnings := Unwind(db, res.error, warnings);
      assert r.rollback == RolledBack ==> db.State() == old(db.State());
      assert r.rollback == RollbackFailed ==> db.State() == body;
      if Faulted(db.faults, old(db.executed), mid) {
        FaultedWiden(db.faults, old(db.executed), mid, old(db.executed), db.executed);
      }
      return;
    }
    // success = true
    ghost var mid := db.executed;
    ok := db.Commit();
    assert db.State() == body;
    if !ok {
      assert old(db.executed) <= mid < db.executed && mid in db.faults;
      return Aborted(CommitFailed, NotAttempted), warnings, blocks;
    }
    r := Committed(res.value);
  }
}
