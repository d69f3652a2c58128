# sqlite.go driver adapter, modelled in Dafny

This project models the adapter in `sqlite.go` that exposes SQLite through Go's
`database/sql/driver` interface. It covers three parts of it:

- parameter binding (`stmt.bind`, `bindString`);
- statement execution (`stmt.Exec`, `stmt.Query`, `result`);
- the row cursor (`rows.Next`, `rows.Columns`).

SQLite itself is a foreign C library, so it is modelled as an abstract,
scripted engine (module `Engine`). A native statement (`NativeStmt`) has:

- an `array` of parameter slots, one per parameter index from 1 up to the
  largest index the SQL uses (`sqlite3_bind_parameter_count` reports that
  largest index, not the number of distinct parameters);
- a record of every native bind call made;
- a script of bind statuses, consumed one per call;
- a script of step outcomes, each with the row it exposes;
- the column names and declared types.

The native connection (`NativeDb`) holds the last-insert-rowid and change
counters. Each step sets them.

Host values form a closed datatype (`Values.Value`): nil, int64, float64, bool,
`[]byte`, string, `time.Time` and "anything else". Go strings are byte
sequences. Float values are opaque bit patterns. The result codes and type tags
are the `sqlite3.h` symbols (`Sqlite3.OK`, `ROW`, `DONE`, `INTEGER`, `FLOAT`,
`TEXT`, `BLOB`, `NULL`). The conversion `C.int(len(x))` is written out as the
32-bit wrap it is (`Sqlite3.CInt`).

How the model is built:

- The bind loop, the metadata fill in `Query` and the decode loop in `Next` are
  imperative methods on classes (`Driver.Stmt`, `Driver.Rows`). Each is proved
  against a pure specification function: `Binding.Bind` for the bind loop,
  `RowDecode.DecodeRow` for the decode loop.
- Closed-form lemmas about those two functions state what the source
  promises: the arity check, positions `i + 1`, one call per argument in
  order, the stop at the first failing status, and per-tag decoding.
- The choice of bind call per host kind (`Codec.OpFor`, `Codec.StringOp`) and
  of host value per cell (`Codec.DecodeCell`) are pure functions. They are tied
  together by a store-and-read-back lemma over a reference table.

Behaviour worth knowing:

- `bind` gives an empty `[]byte` a nil data pointer (sqlite.go:189-194).
  `sqlite3_bind_blob` stores SQL NULL when its pointer is NULL. So an empty
  byte slice reads back as nil, while an empty string reads back as an empty
  byte slice. `Engine.StoredCell` and `Codec.BindThenDecode` state this.
- `sqlite3_bind_double` stores SQL NULL for a NaN, so a NaN float64 reads
  back as nil. The float64 is carried as its bit pattern, and `Engine.IsNaN`
  tests that pattern.
- A bind call that fails with SQLITE_RANGE or SQLITE_MISUSE leaves its slot
  as it was. A failure after that point (SQLITE_TOOBIG, SQLITE_NOMEM) comes
  after the slot was released, so the parameter is back to NULL
  (`Engine.SlotAfterFailure`).
- `Exec` reports a failed step with the text "C.sqlite3_finalize errno"
  (sqlite.go:138). The model calls that error `StepError`.
- The adapter never resets a statement. Any status the engine gives a bind or
  step on an already-stepped statement comes from the scripts.

## Model

| member | source | states |
|---|---|---|
| Sqlite3.CInt | sqlite.go:190-194 | `C.int(n)` keeps `n` modulo 2^32 and equals `n` for every length below 2^31 |
| Codec.StringOp | sqlite.go:211-218 | a string of length 0 takes the static empty-text path, and only then; any other string takes the transient text path with its own bytes and byte length `len(str)` |
| Codec.OpFor | sqlite.go:175-202 | kind dispatch, each in both directions: nil ⇔ bind-null, int64 ⇔ bind-int64 with the same value, float64 ⇔ bind-double, bool ⇔ bind-int with 1/0, `[]byte` ⇔ bind-blob with length `len(v)` and a nil pointer exactly when empty; string, time and fallback ⇔ the `bindString` path on their text |
| Codec.DecodeCell | sqlite.go:256-274 | NULL tag ⇔ nil; FLOAT ⇔ the cell's double; INTEGER ⇔ the cell's int64; TEXT/BLOB with length n ≥ 0 gives exactly the first n bytes, with negative n gives `""`; any other tag, and only those, gives an unknown-column-type error carrying the tag |
| Codec.BindThenDecode | sqlite.go:175-202 | binding any value whose length fits a C int, then decoding the cell the engine stores for it, gives the reference read-back value: int64, non-NaN float and text round-trip, a bool comes back as 0/1, an empty `[]byte` and a NaN come back as nil |
| Codec.StringPathsAgree | sqlite.go:211-218 | both `bindString` paths store TEXT that decodes to exactly the string's bytes |
| Codec.EmptyStringIsNotNull | sqlite.go:195-196 | a zero-length string and nil stay distinguishable once stored: one decodes to an empty byte slice, the other to nil |
| Engine.NativeBind | sqlite.go:177-194 | one native bind call is recorded; a position outside 1..parameter count gives SQLITE_RANGE and changes no slot; inside it the scripted status is returned, an OK call stores its operation in its slot, and a failing call keeps the slot on SQLITE_RANGE/SQLITE_MISUSE and clears it otherwise; no other slot changes |
| Engine.CellAt | sqlite.go:256 | a column index past the current row reads as a NULL cell |
| Engine.StoredCell | sqlite.go:177-194 | the cell the engine stores for a bind call is NULL exactly for bind-null, a blob bound from a nil pointer and a NaN double; FLOAT exactly for any other double, holding it; INTEGER exactly for the int64 and int binds, holding the value; TEXT exactly for the two text binds and BLOB for a non-nil blob, holding the bound bytes |
| Engine.NativeStmt.Bind | sqlite.go:177-201 | new bind state and status are `NativeBind` of the old bind state; the step position and current row are untouched |
| Engine.NativeStmt.Step | sqlite.go:136 | consumes one scripted outcome, returns its status, exposes its row only on SQLITE_ROW, and sets the connection counters |
| Binding.Calls | sqlite.go:172-174 | the calls of a full binding: call j is at position j + 1 with argument j's operation |
| Binding.FirstFailure | sqlite.go:204-206 | the first call index in a range whose status is not OK: all earlier ones are OK, and it fails unless it is the end of the range |
| Binding.StopIndex | sqlite.go:204-206 | the argument index where the loop stops lies between its start and `len(args)` |
| Binding.BindFromError | sqlite.go:172-206 | the loop returns an error exactly when it stops before the end, carrying the failing call's status |
| Binding.BindFromLog | sqlite.go:172-206 | the loop makes one native call per argument, in order, up to and including the failing one, and none after it |
| Binding.BindFromSlots | sqlite.go:172-206 | the arguments before the stop are bound at their own positions; the failing argument's slot is what its failing call leaves; every other slot keeps its value |
| Binding.BindArityRejected | sqlite.go:166-170 | if `len(args) != NumInput()`, bind returns the arity error (expected, actual) and makes no native call: the bind state is unchanged |
| Binding.BindSuccess | sqlite.go:172-208 | after a successful bind, argument i is bound at position i + 1 for every i, and the calls made are exactly `Calls(args)`: each once, in order |
| Binding.BindSucceedsIff | sqlite.go:166-208 | bind succeeds exactly when the counts agree and the engine accepts every one of the `len(args)` calls |
| Binding.BindFailure | sqlite.go:204-206 | if the call for argument k is the first that fails, bind returns that status. Arguments before k stay bound, slot k is kept on SQLITE_RANGE/SQLITE_MISUSE and cleared otherwise, the slots after k are untouched, and no call is made after k |
| RowDecode.FirstUnknown | sqlite.go:272-273 | the first column in a range whose tag the decoder does not know: all earlier tags are known |
| RowDecode.DecodeFromClosedForm | sqlite.go:255-276 | from column i, the columns up to the first unknown tag get their decoded cells and every other entry of dest keeps its value. The error is returned exactly when that tag lies inside dest, and it carries the tag |
| RowDecode.DecodeRowComplete | sqlite.go:255-276 | a row whose tags are all known fills every dest entry with its decoded cell and returns no error; columns past the row become nil |
| RowDecode.DecodeRowStopsAtUnknown | sqlite.go:272-274 | an unknown tag at column k returns that tag's error after columns 0..k-1 were written; entries from k on are unchanged |
| Driver.Conn.Begin | sqlite.go:105-107 | always fails with a not-implemented error |
| Driver.ExecResult.LastInsertId | sqlite.go:227-229 | returns the stored row id and never an error |
| Driver.ExecResult.RowsAffected | sqlite.go:231-233 | returns the stored change count and never an error |
| Driver.Stmt.constructor | sqlite.go:91-94 | a statement over a connection and a native statement, with no column metadata cached |
| Driver.Stmt.NumInput | sqlite.go:127-129 | the native parameter count, that is, the number of parameter slots |
| Driver.Stmt.Bind | sqlite.go:165-209 | the new bind state and the error are exactly `Binding.Bind` of the old bind state. It never steps the statement |
| Driver.Stmt.Exec | sqlite.go:131-147 | a bind error is returned as is, with no step and the counters unchanged. Otherwise exactly one step is taken: DONE gives a result holding the connection's rowid and change count read right after the step; any other status gives a step error and no result |
| Driver.Stmt.Query | sqlite.go:149-163 | a bind error returns no cursor and keeps the old caches. On success, `colNames` and `colDeclTypes` are fresh, distinct arrays holding the statement's column names and declared types (length = column count), and a cursor over this statement is returned. It never steps in either case |
| Driver.Rows.Columns | sqlite.go:241 | returns the statement's cached column-name array itself |
| Driver.Rows.Next | sqlite.go:244-277 | exactly one step and no bind call: the bind record and slots are unchanged, the current row is the step's row on ROW and empty otherwise. DONE gives the end-of-data sentinel and leaves dest untouched. A status other than ROW or DONE gives a step error. On ROW, dest and the error are `RowDecode.DecodeRow` of the exposed row and the old dest |

## Left out

- The SQLite engine itself is not modelled: SQL parsing, step semantics, storage, type affinity. It is a foreign library, reduced to the scripted `Engine.NativeStmt` and `Engine.NativeDb`. `Engine.StoredCell` assumes a column without type affinity.
- `driver.Open`, `conn.Prepare`, `conn.Close` and `stmt.Close` (sqlite.go:51-103, 119-125) are not modelled. Each forwards to one native call and checks its status. The native statement is built directly by its constructor instead.
- `rows.Close` (sqlite.go:242) always returns nil and is not modelled.
- `init` and `sql.Register` (sqlite.go:43-45) are framework registration and are not modelled.
- cgo memory handling is not modelled: `C.CString`/`C.free`, `unsafe.Pointer`, `C.GoBytes`, and the STATIC vs TRANSIENT destructors. A bind op records only which entry point was used and what bytes it was given.
- `time.Time.UTC().Format(TIME_FMT)` and `fmt.Sprint` are Go library formatting. They are the two functions of the `Values.Formatting` parameter, left uninterpreted. The time formatter takes only the instant, since the source converts to UTC first.
- Floating point arithmetic is not modelled. A float64 is its bit pattern and only passes through; the one test applied to it is the NaN check of `sqlite3_bind_double`.
- Concurrency is not modelled; the source has none.
- Error messages are not modelled. Errors are a datatype that carries the kind and the native code, not the formatted text.
- A nil `[]byte` and an empty one are the same value in the model. The source treats them alike: both have length 0 and get a nil pointer.
- examples/main.go is a demo program and is not modelled. `Scenario.Insert` and `Scenario.Select` mirror its insert-then-select use as a verified client.
