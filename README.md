# tinder-collect ingestion, modelled in Dafny

`tinder-collect` reads one log file into a SQLite database:

1. It opens an exclusive transaction.
2. It finds the log row named after the file, or creates it.
3. It reads the file with a buffered line reader and glues the reader's chunks back into lines.
4. For every line that the configured format matches, it writes:
   - one `entries` row, keyed by a random-salted MD5 entry id;
   - one `strings` row per extracted field.
5. It commits.

A failure before the run is marked successful rolls the transaction back, except a failed BEGIN, which opened no transaction, and a read error, which ends the process first.

This project models that core (`getLog`, `readLog`, `addLine`, `entryId`, `logName`) and proves what it promises.

- **The store.** `Store.Db` holds the `logs`, `entries` and `strings` tables as sequences of rows, the AUTOINCREMENT counter and the open transaction (a snapshot of the tables at BEGIN).
  - Any statement may fail: the statements whose numbers are in `faults` do. This stands for a busy database, a full disk and the like.
  - Inserts also fail on the schema's PRIMARY KEY and UNIQUE constraints.
- **Library calls.** The format matcher, `time.Parse` and MD5 are parameters (`Collect.Env`).
  - MD5 is any function returning 16 bytes.
  - `math/rand` and `time.Now` are the objects `Host.Rand` and `Host.Clock`: fixed streams of values plus a count of values taken. A contract can therefore say which draws and which clock reading a row used.
- **Panics.** A Go panic is an explicit `Err`/`Aborted` result.
- **Atomicity.** `Db.Durable()` is what a reader outside the transaction, or a crash, would see. Atomicity is stated as `Durable()` being unchanged by a failed run.
- **Why a run fails.** Each statement is numbered, and `Store.Faulted` says that one in a stretch of statements failed. On tables whose log names are unique and whose string rows all belong to an entry (`Store.Consistent`), a run aborts only for one of these reasons: a failed statement, a transaction already open, a file that cannot be opened, a read error, or a matched line whose entry id is already taken.
- **Re-runs.** `math/rand` is never seeded. Before Go 1.20, or with `GODEBUG=randautoseed=0`, its global generator then always starts from the same seed, so a process that starts again draws the same bytes. A second run of the same file under the same log therefore computes the same entry ids. Its first matched line then clashes with the entry-id PRIMARY KEY, and the run can never commit (`Collect.RerunClashes`, `Collect.RerunBreaksKey`).

## Model

| member | source | states |
|---|---|---|
| Hex.Digit | tinder-collect/collect.go:172 | a nibble's digit is a lowercase hex character |
| Hex.FromDigit | tinder-collect/collect.go:172 | reading a digit gives a nibble below 16 |
| Hex.Encode | tinder-collect/collect.go:172 | the encoding has two characters per byte, all in `[0-9a-f]` |
| Hex.Decode | tinder-collect/collect.go:172 | a successful decoding has half as many bytes as characters |
| Hex.DecodeEncode | tinder-collect/collect.go:172 | decoding the hex of a digest gives the digest back |
| Hex.DigitRoundTrip | tinder-collect/collect.go:172 | every lowercase digit is the digit of the nibble it reads as |
| Hex.EncodeDecode | tinder-collect/collect.go:172 | every even-length lowercase hex string is the encoding of its decoding |
| Decimal.Digits | tinder-collect/collect.go:168 | a natural number's decimal text is non-empty, all digits, with no leading zero |
| Decimal.ValueDigits | tinder-collect/collect.go:168 | the digits of `n` denote `n` |
| Decimal.ItoaRoundTrip | tinder-collect/collect.go:168 | `strconv.Itoa` text reads back as the same integer, negative ones included |
| LineSource.ReadLines | tinder-collect/collect.go:133-150 | the reader loop emits exactly the reassembled lines, in order; it reports end of file exactly when the reads ended in EOF (any other error is fatal) |
| LineSource.ReassembleCount | tinder-collect/collect.go:138-146 | one line per chunk whose `isPrefix` is false |
| LineSource.ReassembleConcat | tinder-collect/collect.go:138-146 | no byte is lost, duplicated or reordered: the lines, then the unterminated rest, spell the input |
| LineSource.ReassembleRun | tinder-collect/collect.go:138-146 | a maximal run of prefix chunks closed by a non-prefix chunk emits one line, their concatenation, and the next line starts empty |
| LineSource.ReassembleOpenRun | tinder-collect/collect.go:138-146 | prefix chunks never closed emit nothing |
| Host.Rand.Int | tinder-collect/collect.go:164 | each call returns the next value of the generator's stream |
| Host.Clock.Now | tinder-collect/collect.go:186 | each call returns the next clock reading |
| Store.FindLogSound | tinder-collect/collect.go:75-79 | the name lookup finds a row exactly when one has the name, and returns the id of such a row |
| Store.FindLogAppend | tinder-collect/collect.go:90-96 | after appending a row, the lookup finds it only when no earlier row has its name |
| Store.FindLogUnique | tinder-collect/collect.go:75-79 | with unique names, the lookup returns the only row with the name |
| Store.UniqueNamesSnoc | tinder-collect/collect.go:89-90 | inserting a name no row has keeps log names unique |
| Store.ReferencedGrow | tinder-collect/collect.go:197 | adding an entry keeps every string row's entry |
| Store.ReferencedSnoc | tinder-collect/collect.go:200 | a string row under an existing entry keeps every string row's entry |
| Store.Db.constructor | tinder-collect/collect.go:236 | an opened database holds the given tables with no transaction open |
| Store.Db.Execute | tinder-collect/collect.go:64-68 | a statement fails exactly when its number is a fault |
| Store.Db.Begin | tinder-collect/collect.go:111 | `BEGIN` opens a transaction with a snapshot of the tables; SQLite refuses a nested one |
| Store.Db.Commit | tinder-collect/collect.go:156 | `COMMIT` closes the transaction; a failed one leaves it open |
| Store.Db.Rollback | tinder-collect/collect.go:117 | `ROLLBACK` restores the snapshot; a failed one changes nothing |
| Store.Db.SelectLog | tinder-collect/collect.go:75-79 | the lookup by name returns the first row with the name |
| Store.Db.InsertLog | tinder-collect/collect.go:90 | the row takes the next AUTOINCREMENT id |
| Store.Db.InsertEntry | tinder-collect/collect.go:197 | appends the row unless its entry id already exists |
| Store.Db.InsertString | tinder-collect/collect.go:200 | appends the row unless (column, entry id) already exists |
| Collect.FillRandom | tinder-collect/collect.go:162-165 | a fresh 8-byte buffer: bytes 0 and 1 are two draws truncated to a byte, bytes 2..7 are zero |
| Collect.EntryId | tinder-collect/collect.go:160-173 | the id is the hex of the MD5 of the random buffer, the decimal log id and the line; it takes two draws |
| Collect.EntryIdShape | tinder-collect/collect.go:166-172 | an entry id has 32 characters, all lowercase hex, and decodes to the digest |
| Collect.GetLog | tinder-collect/collect.go:74-108 | get-or-create: an existing name returns its id and changes nothing; a new name appends exactly one row `(lname, fname)` with the next id, advances the AUTOINCREMENT counter by one and returns that id; the "INSERT failed" panic cannot happen when the statements succeed; log names stay unique; it fails only when one of its statements failed |
| Collect.LineWarningsCases | tinder-collect/collect.go:176-192 | an unmatched-line warning exactly when the format rejects the line and relax is off; a date warning exactly when the datetime field does not parse |
| Collect.NewEntry | tinder-collect/collect.go:184-196 | the entry row: an id from two draws, the line or "" under compact, and the time from the parser (Go's zero time when it fails) or the clock when no datetime field exists |
| Collect.AddLine | tinder-collect/collect.go:175-203 | a rejected line writes nothing and uses no draw and no clock reading; a matched line appends one entry row and then one field block under its entry id; it fails only on a failed statement or an entry id that already has an entry row or string rows |
| Collect.InsertFields | tinder-collect/collect.go:199-202 | the map loop appends one string row per field, each with that field's value, under one entry id; it stops early only on a failed statement or when string rows under that id existed before |
| Collect.BlockClash | tinder-collect/collect.go:199-202 | a field whose `(column, entry id)` is already taken part-way through the loop was taken by a row from before the loop, never by the loop's own rows |
| Collect.FieldBlockSize | tinder-collect/collect.go:199-202 | exactly one string row per extracted field |
| Collect.FieldBlockSound | tinder-collect/collect.go:199-202 | each string row is `(k, entry id, data[k])` for a field `k` |
| Collect.FieldBlockDistinct | tinder-collect/collect.go:199-202 | no column twice under one entry, so `UNIQUE (column_name, entry_id)` holds |
| Collect.FieldBlockComplete | tinder-collect/collect.go:199-202 | every extracted field has its row |
| Collect.MatchedLines | tinder-collect/collect.go:152-154 | every line is either matched, in order, or dropped |
| Collect.NewEntriesAt | tinder-collect/collect.go:152-154 | the k-th entry row of a run belongs to the k-th matched line and uses draws 2k, 2k+1 and clock reading k |
| Collect.EntryAtRow | tinder-collect/collect.go:160-197 | the row for a matched line has the run's log id, the full line unless compact, a 32-digit hex id decoding to the digest, and the right timestamp case |
| Collect.RunEntries | tinder-collect/collect.go:152-154 | a run's entry rows: one per matched line, in file order, each as EntryAtRow describes |
| Collect.UnmatchedWarnings | tinder-collect/collect.go:179-181 | a run logs one unmatched-line warning per dropped line, and none under relax |
| Collect.ConsumeStep | tinder-collect/collect.go:152-154 | consuming one more line extends the matched lines, the new rows and the warnings at their ends |
| Collect.ProgressStep | tinder-collect/collect.go:152-154 | handing line `i` to addLine moves the run from line `i` to line `i + 1` |
| Collect.ProgressDone | tinder-collect/collect.go:152-154 | after the last line, the progress made is what the whole run writes |
| Collect.ConsumeLine | tinder-collect/collect.go:153 | one iteration of the consumer loop is the run's next addLine; a failure is a failed statement or a clash on the line's entry id |
| Collect.ClashStep | tinder-collect/collect.go:197 | when every string row has its entry, a line that clashes with the tables reached so far is a clash of the run |
| Collect.LineOutcome | tinder-collect/collect.go:152-154 | a line that went in moves the run from line `i` to line `i + 1`; one that failed leaves a failed statement or, on consistent tables, a clash of the run |
| Collect.Consume | tinder-collect/collect.go:152-154 | addLine runs on every line in file order, stops at the first fatal error, and keeps every string row's entry; on consistent tables it stops only on a failed statement or a matched line whose entry id was already taken |
| Collect.FirstMatch | tinder-collect/collect.go:152-154 | a run with a matched line has a first one, with no match before it |
| Collect.MatchedPrefix | tinder-collect/collect.go:152-154 | the lines matched before a matched line are a prefix of the run's matches, and that line comes next |
| Collect.RowOfLine | tinder-collect/collect.go:152-154 | the row of a matched line comes right after the rows of the lines before it |
| Collect.ClashRow | tinder-collect/collect.go:197 | a clash on line `i` repeats the id of line `i`'s own row among the rows before it |
| Collect.CommittedClashFree | tinder-collect/collect.go:210 | when the run's rows sit in tables whose entry ids are distinct (the entry-id PRIMARY KEY), no line of the run clashed |
| Collect.SameDrawsSameId | tinder-collect/collect.go:160-173 | two runs under the same log with the same draws give a row the same entry id, whatever their clocks read |
| Collect.RerunClashes | tinder-collect/collect.go:162-165 | when the generator, never seeded, starts from the same seed (before Go 1.20, or with `GODEBUG=randautoseed=0`), a re-run of a file under the same log, over the rows the first run left, clashes on its first matched line |
| Collect.RerunBreaksKey | tinder-collect/collect.go:210 | the tables a successful re-run would leave break the entry-id PRIMARY KEY, so such a re-run never commits |
| Collect.Unwind | tinder-collect/collect.go:114-122 | the deferred rollback restores the snapshot; a failed rollback is only a warning |
| Collect.Ingest | tinder-collect/collect.go:124-154 | get-or-create under the name `Collect.LogName` gives, which is the path itself (`LogFor`, `LogIdFor`); then open, read and consume, with the transaction left open; a success leaves the counter, the rows, the draws and the clock readings as a committed run describes; the open and read failures are told apart; on consistent tables a failure is a failed statement, a file that cannot be opened, a read error, or a clash of the run |
| Collect.ReadLog | tinder-collect/collect.go:110-158 | a failed run leaves the durable tables as they were; a failure before `success = true` rolls back; a COMMIT failure does not; a reader error other than EOF ends the process with nothing committed; a committed run registered the log (advancing the AUTOINCREMENT counter only when it created it), wrote exactly the rows of its matched lines, and took two draws and one clock reading per matched line; on consistent tables an aborted run had a failed statement, a transaction already open, a file that cannot be opened, a read error, or a clash of the run |

## Left out

- SQLite itself is not modelled:
  - prepared statements, `Finalize` and `Reset`, SQL text and column affinity;
  - `openDB`, `closeDB` and the `-init` schema creation; the `stats` table, which nothing writes.
  
  The tables are sequences of rows. Each statement succeeds or fails by the fault oracle.
- The reader goroutine and its channel of capacity 1024 are not modelled as concurrent code. The producer's lines are computed before the consumer's loop runs. Because a channel keeps FIFO order, the lines reach the consumer in the same order.
- The producer's panic is modelled as the end of the process, with nothing committed. That panic is a read error other than EOF, and in Go it ends the whole process without running `readLog`'s deferred rollback.
- The reader's panic races with the consumer, and the model does not capture that race. The reader's deferred `close(lines)` runs while it panics, so the consumer can drain the channel, set `success = true` and COMMIT the lines read so far before the process dies. `Collect.ReadLog` only models the outcome `ReadFailed` with nothing committed.
- SQLite may roll the whole transaction back on its own after SQLITE_FULL, SQLITE_IOERR, SQLITE_BUSY or SQLITE_NOMEM. The deferred ROLLBACK then fails with a warning although the tables are already restored. `Store.Db` always keeps the transaction open after a failed statement, so the model does not capture this case.
- `format.Read`, `time.Parse` and MD5 are parameters. `math/rand` and `time.Now` are streams of values.
- Flag parsing, `main`'s `recover` and `log.Fatalf`, and the text of log messages are left out. Warnings are tags.
  - The date warning carries nothing, because the source prints the zero time, not the field.
  - The "Using log" and "Created log" lines and the Finalize warnings are not modelled.
- Reading a file's bytes is left out: a file is its sequence of reader chunks and the error that ends them.
- `tinder-httpd` is not part of this model: it serves HTTP with no logic of its own.
- On a date parse failure the code keeps the parser's zero time (`time.Parse` returns `time.Time{}`), not the clock reading; the model follows the code (`Collect.EntryTime`, `Collect.ZeroTime`).
- The map iteration order of the field loop is Go's unspecified order. The model chooses any order, and the contracts hold for all of them.
