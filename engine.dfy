/** The native SQLite library, seen only through the calls the adapter makes.
    A prepared statement is a scripted object: its parameter slots, the
    statuses its bind calls report, the outcomes of its steps with the row
    each one exposes, and its column metadata. The connection holds the
    last-insert-rowid and change counters that a step updates. */
module Engine {
  import opened Sqlite3
  import opened Values

  /** One native bind call, tagged by the entry point used. */
  datatype BindOp =
    | BindNull                                              // sqlite3_bind_null
    | BindInt64(i: int64)                                   // sqlite3_bind_int64
    | BindDouble(d: Double)                                 // sqlite3_bind_double
    | BindInt(v: int32)                                     // sqlite3_bind_int
    | BindBlob(data: seq<byte>, n: int32, nilPointer: bool) // my_bind_blob, transient copy
    | BindText(data: GoString, n: int32)                    // my_bind_text, transient copy
    | BindEmptyText                                         // my_bind_empty_text, static ""

  datatype Slot = Unbound | Bound(op: BindOp)

  /** A native bind call as it was made: 1-based position and operation. */
  datatype BindCall = BindCall(pos: int, op: BindOp)

  /** What the bind calls can change: the slots (position p at index p - 1)
      and the record of every bind call made so far. */
  datatype BindState = BindState(slots: seq<Slot>, log: seq<BindCall>)

  /** Status of the k-th bind call on the statement; calls beyond the script succeed. */
  function StatusAt(script: seq<int32>, k: nat): (rc: int32)
    ensures k >= |script| ==> rc == OK
  {
    if k < |script| then script[k] else OK
  }

  /** What a failing bind call leaves in its slot. SQLITE_MISUSE (a busy
      statement) and SQLITE_RANGE are reported before the slot is touched;
      any later failure (SQLITE_TOOBIG, SQLITE_NOMEM) comes after the old
      value was released, so the parameter reads as NULL again. */
  function SlotAfterFailure(prev: Slot, rc: int32): (s: Slot)
    ensures rc == RANGE || rc == MISUSE ==> s == prev
    ensures rc != RANGE && rc != MISUSE ==> s == Unbound
  {
    if rc == RANGE || rc == MISUSE then prev else Unbound
  }

  /** One native bind call: a position outside 1..parameter count is
      SQLITE_RANGE, otherwise the scripted status decides. A call that
      returns SQLITE_OK stores its operation in its slot; a failing one
      leaves the slot as SlotAfterFailure says; no other slot changes. */
  function NativeBind(st: BindState, pos: int, op: BindOp, script: seq<int32>): (r: (BindState, int32))
    ensures r.0.log == st.log + [BindCall(pos, op)]
    ensures |r.0.slots| == |st.slots|
    ensures r.1 == OK ==> 1 <= pos <= |st.slots| && r.0.slots == st.slots[pos - 1 := Bound(op)]
    ensures r.1 != OK && 1 <= pos <= |st.slots| ==>
              r.0.slots == st.slots[pos - 1 := SlotAfterFailure(st.slots[pos - 1], r.1)]
    ensures !(1 <= pos <= |st.slots|) ==> r.1 == RANGE && r.0.slots == st.slots
    ensures 1 <= pos <= |st.slots| ==> r.1 == StatusAt(script, |st.log|)
  {
    var rc := if 1 <= pos <= |st.slots| then StatusAt(script, |st.log|) else RANGE;
    var slots := if !(1 <= pos <= |st.slots|) then st.slots
                 else if rc == OK then st.slots[pos - 1 := Bound(op)]
                 else st.slots[pos - 1 := SlotAfterFailure(st.slots[pos - 1], rc)];
    (BindState(slots, st.log + [BindCall(pos, op)]), rc)
  }

  /** One value of the current row, with what each column accessor reports:
      sqlite3_column_type, _int64, _double, _bytes and _blob. */
  datatype Cell = Cell(tag: int32, integer: int64, float: Double, length: int32, data: seq<byte>)

  /** The engine never reports more bytes than its buffer holds. */
  predicate CellValid(c: Cell) {
    c.length as int <= |c.data|
  }

  predicate RowValid(row: seq<Cell>) {
    forall j :: 0 <= j < |row| ==> CellValid(row[j])
  }

  const NullCell: Cell := Cell(NULL, 0, Double(0), 0, [])

  /** The cell at column i; a column past the row reads as NULL. */
  function CellAt(row: seq<Cell>, i: nat): (c: Cell)
    ensures RowValid(row) ==> CellValid(c)
    ensures i >= |row| ==> c.tag == NULL
  {
    if i < |row| then row[i] else NullCell
  }

  /** What one sqlite3_step reports: its status, the row it exposes, and the
      connection's counters after it. */
  datatype StepOutcome = StepOutcome(code: int32, row: seq<Cell>, lastRowid: int64, changes: int32)

  /** A bind whose declared length matches its buffer. */
  predicate Storable(op: BindOp) {
    match op
    case BindBlob(data, n, _) => n as int == |data|
    case BindText(data, n) => n as int == |data|
    case _ => true
  }

  /** An IEEE-754 NaN: all exponent bits set and a non-zero fraction. */
  predicate IsNaN(d: Double) {
    d.bits & 0x7ff0_0000_0000_0000 == 0x7ff0_0000_0000_0000 && d.bits & 0x000f_ffff_ffff_ffff != 0
  }

  /** The value a bound parameter is stored as, and read back as, in a
      column without type affinity. A blob bound from a nil pointer is SQL
      NULL: sqlite3_bind_blob stores nothing when its data pointer is NULL.
      A NaN double is SQL NULL too: sqlite3_bind_double stores only a
      double that is not NaN. */
  function StoredCell(op: BindOp): (c: Cell)
    requires Storable(op)
    ensures CellValid(c)
    ensures c.tag == NULL <==> op.BindNull? || (op.BindBlob? && op.nilPointer) || (op.BindDouble? && IsNaN(op.d))
    ensures c.tag == FLOAT <==> op.BindDouble? && !IsNaN(op.d)
    ensures c.tag == FLOAT ==> c.float == op.d
    ensures c.tag == INTEGER <==> op.BindInt64? || op.BindInt?
    ensures op.BindInt64? ==> c.integer == op.i
    ensures op.BindInt? ==> c.integer as int == op.v as int
    ensures c.tag == TEXT <==> op.BindText? || op.BindEmptyText?
    ensures c.tag == BLOB <==> op.BindBlob? && !op.nilPointer
    ensures c.tag in {TEXT, BLOB} ==> c.length as int == |c.data|
    ensures op.BindText? || (op.BindBlob? && !op.nilPointer) ==> c.data == op.data
    ensures op.BindEmptyText? ==> c.data == []
  {
    match op
    case BindNull => NullCell
    case BindInt64(i) => Cell(INTEGER, i, Double(0), 0, [])
    case BindDouble(d) => if IsNaN(d) then NullCell else Cell(FLOAT, 0, d, 0, [])
    case BindInt(v) => Cell(INTEGER, v as int64, Double(0), 0, [])
    case BindBlob(data, n, nilPointer) => if nilPointer then NullCell else Cell(BLOB, 0, Double(0), n, data)
    case BindText(data, n) => Cell(TEXT, 0, Double(0), n, data)
    case BindEmptyText => Cell(TEXT, 0, Double(0), 0, [])
  }

  /** The native connection handle: the counters sqlite3_last_insert_rowid
      and sqlite3_changes read. */
  class NativeDb {
    var lastRowid: int64
    var changes: int32

    constructor (lastRowid: int64, changes: int32)
      ensures this.lastRowid == lastRowid && this.changes == changes
    {
      this.lastRowid := lastRowid;
      this.changes := changes;
    }
  }

  /** A native prepared statement. */
  class NativeStmt {
    const db: NativeDb
    const slots: array<Slot>
    const columnNames: seq<GoString>
    const columnDeclTypes: seq<GoString>
    const bindScript: seq<int32>
    const stepScript: seq<StepOutcome>
    var log: seq<BindCall>
    var stepPos: nat
    var row: seq<Cell>

    ghost predicate Valid()
      reads this
    {
      |columnDeclTypes| == |columnNames| &&
      (forall k :: 0 <= k < |stepScript| ==> RowValid(stepScript[k].row)) &&
      RowValid(row)
    }

    constructor (db: NativeDb, paramCount: nat, columnNames: seq<GoString>, columnDeclTypes: seq<GoString>,
                 bindScript: seq<int32>, stepScript: seq<StepOutcome>)
      requires |columnDeclTypes| == |columnNames|
      requires forall k :: 0 <= k < |stepScript| ==> RowValid(stepScript[k].row)
      ensures Valid() && fresh(slots)
      ensures this.db == db && slots.Length == paramCount && forall p :: 0 <= p < paramCount ==> slots[p] == Unbound
      ensures this.columnNames == columnNames && this.columnDeclTypes == columnDeclTypes
      ensures this.bindScript == bindScript && this.stepScript == stepScript
      ensures log == [] && stepPos == 0 && row == []
    {
      this.db := db;
      slots := new Slot[paramCount](_ => Unbound);
      this.columnNames := columnNames;
      this.columnDeclTypes := columnDeclTypes;
      this.bindScript := bindScript;
      this.stepScript := stepScript;
      log, stepPos, row := [], 0, [];
    }

    /** The state the bind calls work on. */
    function State(): (st: BindState)
      reads this, slots
    {
      BindState(slots[..], log)
    }

    /** sqlite3_bind_parameter_count. */
    function ParamCount(): (n: nat) {
      slots.Length
    }

    /** sqlite3_column_count. */
    function ColumnCount(): (n: nat) {
      |columnNames|
    }

    /** What the next sqlite3_step will report; past the script the
        statement stays done and the counters keep their values. */
    function Upcoming(): (o: StepOutcome)
      reads this, db
    {
      if stepPos < |stepScript| then stepScript[stepPos] else StepOutcome(DONE, [], db.lastRowid, db.changes)
    }

    /** The script position after one more step. */
    function PosAfterStep(): (p: nat)
      reads this
    {
      if stepPos < |stepScript| then stepPos + 1 else stepPos
    }

    /** A native bind call (sqlite3_bind_null, _int64, _double, _int, or the
        my_bind_* wrappers for blob and text). */
    method Bind(pos: int, op: BindOp) returns (rc: int32)
      requires Valid()
      modifies this, slots
      ensures Valid()
      ensures (State(), rc) == NativeBind(old(State()), pos, op, bindScript)
      ensures stepPos == old(stepPos) && row == old(row)
    {
      if !(1 <= pos <= slots.Length) {
        rc := RANGE;
      } else {
        rc := StatusAt(bindScript, |log|);
        slots[pos - 1] := if rc == OK then Bound(op) else SlotAfterFailure(slots[pos - 1], rc);
      }
      log := log + [BindCall(pos, op)];
    }

    /** sqlite3_step: consumes one scripted outcome, exposes its row when it
        reports SQLITE_ROW and sets the connection's counters. */
    method Step() returns (rc: int32)
      requires Valid()
      modifies this, db
      ensures Valid()
      ensures rc == old(Upcoming()).code
      ensures stepPos == old(PosAfterStep())
      ensures row == if rc == ROW then old(Upcoming()).row else []
      ensures db.lastRowid == old(Upcoming()).lastRowid && db.changes == old(Upcoming()).changes
      ensures log == old(log)
    {
      var o := Upcoming();
      rc := o.code;
      stepPos := PosAfterStep();
      row := if rc == ROW then o.row else [];
      db.lastRowid, db.changes := o.lastRowid, o.changes;
    }

    /** sqlite3_column_type: the storage class of column i of the current row. */
    function ColumnType(i: nat): (r: int32)
      reads this
    {
      CellAt(row, i).tag
    }

    function ColumnInt64(i: nat): (r: int64)
      reads this
    {
      CellAt(row, i).integer
    }

    function ColumnDouble(i: nat): (r: Double)
      reads this
    {
      CellAt(row, i).float
    }

    function ColumnBytes(i: nat): (r: int32)
      reads this
    {
      CellAt(row, i).length
    }

    function ColumnBlob(i: nat): (r: seq<byte>)
      reads this
    {
      CellAt(row, i).data
    }
  }
}
