/** The database/sql driver objects of sqlite.go: the connection, the
    prepared statement with its cached column metadata, the execution result
    and the row cursor. Every native call goes to the abstract engine. */
module Driver {
  import opened Sqlite3
  import opened Values
  import opened Engine
  import opened Codec
  import Binding
  import RowDecode

  /** A transaction handle; none is ever produced. */
  datatype Tx = Tx

  /** The connection: one native connection handle. */
  class Conn {
    const db: NativeDb

    constructor (db: NativeDb)
      ensures this.db == db
    {
      this.db := db;
    }

    /** Transactions are not implemented: Begin always fails. */
    function Begin(): (r: Result<Tx>)
      ensures r.Failure? && r.error == NotImplemented
    {
      Failure(NotImplemented)
    }
  }

  /** The outcome of a statement that produces no rows. */
  datatype ExecResult = ExecResult(id: int64, rows: int64) {

    /** The last inserted row id read after the statement; never an error. */
    function LastInsertId(): (r: (int64, Option<Error>))
      ensures r.0 == id && r.1 == None
    {
      (id, None)
    }

    /** The number of rows the statement changed; never an error. */
    function RowsAffected(): (r: (int64, Option<Error>))
      ensures r.0 == rows && r.1 == None
    {
      (rows, None)
    }
  }

  /** A prepared statement and its column-metadata cache. */
  class Stmt {
    const conn: Conn
    const native: NativeStmt
    var colNames: array<GoString>
    var colDeclTypes: array<GoString>

    ghost predicate Valid()
      reads this, native
    {
      native.Valid() && native.db == conn.db
    }

    /** The statement as Prepare builds it: no column metadata cached yet. */
    constructor (conn: Conn, native: NativeStmt)
      requires native.Valid() && native.db == conn.db
      ensures Valid() && this.conn == conn && this.native == native
      ensures colNames.Length == 0 && colDeclTypes.Length == 0
    {
      this.conn := conn;
      this.native := native;
      colNames := new GoString[0];
      colDeclTypes := new GoString[0];
    }

    /** The number of parameters the statement was prepared with. */
    function NumInput(): (n: nat)
      ensures n == native.slots.Length
    {
      native.ParamCount()
    }

    /** stmt.bind: check the argument count, then bind argument i at
        position i + 1 until every argument is bound or a call fails. */
    method Bind(args: seq<Value>, fmt: Formatting) returns (err: Option<Error>)
      requires Valid()
      modifies native, native.slots
      ensures Valid()
      ensures (native.State(), err) == Binding.Bind(old(native.State()), args, fmt, native.bindScript)
      ensures native.stepPos == old(native.stepPos) && native.row == old(native.row)
    {
      var ni := NumInput();
      var argN := |args|;
      if argN != ni {
        return Some(ArityError(ni, argN));
      }
      var i := 0;
      while i < |args|
        invariant 0 <= i <= |args|
        invariant native.Valid()
        invariant native.stepPos == old(native.stepPos) && native.row == old(native.row)
        invariant Binding.BindFrom(native.State(), args, fmt, native.bindScript, i)
               == Binding.Bind(old(native.State()), args, fmt, native.bindScript)
      {
        var cc := native.Bind(i + 1, OpFor(args[i], fmt));
        if cc != OK {
          return Some(BindError(cc));
        }
        i := i + 1;
      }
      return None;
    }

    /** stmt.Exec: bind, step once, and accept only SQLITE_DONE; the result
        holds the connection's counters as they are right after the step. */
    method Exec(args: seq<Value>, fmt: Formatting) returns (r: Result<ExecResult>)
      requires Valid()
      modifies native, native.slots, native.db
      ensures Valid()
      ensures native.State() == Binding.Bind(old(native.State()), args, fmt, native.bindScript).0
      ensures var e := Binding.Bind(old(native.State()), args, fmt, native.bindScript).1;
              e.Some? ==> r == Failure(e.value) && native.stepPos == old(native.stepPos) &&
                          native.row == old(native.row) && unchanged(native.db)
      ensures var e := Binding.Bind(old(native.State()), args, fmt, native.bindScript).1;
              var o := old(native.Upcoming());
              e.None? ==> native.stepPos == old(native.PosAfterStep()) &&
                          native.db.lastRowid == o.lastRowid && native.db.changes == o.changes &&
                          r == if o.code == DONE
                               then Success(ExecResult(conn.db.lastRowid, conn.db.changes as int64))
                               else Failure(StepError(o.code))
    {
      var err := Bind(args, fmt);
      if err.Some? {
        return Failure(err.value);
      }
      var rc := native.Step();
      if rc != DONE {
        return Failure(StepError(rc));
      }
      var id := conn.db.lastRowid;
      var rows := conn.db.changes as int64;
      return Success(ExecResult(id, rows));
    }

    /** stmt.Query: bind, then replace the column-name and declared-type
        caches with fresh arrays filled from the statement; nothing is
        stepped until the cursor advances. */
    method Query(args: seq<Value>, fmt: Formatting) returns (r: Result<Rows>)
      requires Valid()
      modifies this, native, native.slots
      ensures Valid()
      ensures native.State() == Binding.Bind(old(native.State()), args, fmt, native.bindScript).0
      ensures native.stepPos == old(native.stepPos) && native.row == old(native.row)
      ensures var e := Binding.Bind(old(native.State()), args, fmt, native.bindScript).1;
              e.Some? ==> r == Failure(e.value) && colNames == old(colNames) && colDeclTypes == old(colDeclTypes)
      ensures var e := Binding.Bind(old(native.State()), args, fmt, native.bindScript).1;
              e.None? ==> r.Success? && fresh(r.value) && r.value.s == this &&
                          fresh(colNames) && fresh(colDeclTypes) && colNames != colDeclTypes &&
                          colNames[..] == native.columnNames && colDeclTypes[..] == native.columnDeclTypes
    {
      var err := Bind(args, fmt);
      if err.Some? {
        return Failure(err.value);
      }
      var colN := native.ColumnCount();
      var names := new GoString[colN];
      var declTypes := new GoString[colN];
      for i := 0 to colN
        modifies names, declTypes
        invariant names[..i] == native.columnNames[..i]
        invariant declTypes[..i] == native.columnDeclTypes[..i]
      {
        names[i] := native.columnNames[i];
        declTypes[i] := native.columnDeclTypes[i];
      }
      colNames, colDeclTypes := names, declTypes;
      var rows := new Rows(this);
      return Success(rows);
    }
  }

  /** The row cursor over a statement's current execution. */
  class Rows {
    const s: Stmt

    constructor (s: Stmt)
      ensures this.s == s
    {
      this.s := s;
    }

    /** The column names cached by the Query that made this cursor (the
        statement's own array, not a copy). */
    function Columns(): (names: array<GoString>)
      reads s
      ensures names == s.colNames
    {
      s.colNames
    }

    /** rows.Next: step once; SQLITE_DONE is the end-of-data sentinel, any
        status but SQLITE_ROW an error, and a row is decoded into dest
        column by column until an unknown type tag stops it. */
    method Next(dest: array<Value>) returns (err: Option<Error>)
      requires s.Valid()
      modifies s.native, s.native.db, dest
      ensures s.Valid()
      ensures s.native.stepPos == old(s.native.PosAfterStep())
      ensures s.native.log == old(s.native.log)
      ensures var o := old(s.native.Upcoming());
              s.native.row == if o.code == ROW then o.row else []
      ensures var o := old(s.native.Upcoming());
              s.native.db.lastRowid == o.lastRowid && s.native.db.changes == o.changes
      ensures var o := old(s.native.Upcoming());
              o.code == DONE ==> err == Some(EndOfData) && dest[..] == old(dest[..])
      ensures var o := old(s.native.Upcoming());
              o.code != DONE && o.code != ROW ==> err == Some(StepError(o.code)) && dest[..] == old(dest[..])
      ensures var o := old(s.native.Upcoming());
              o.code == ROW ==> RowValid(o.row) && (dest[..], err) == RowDecode.DecodeRow(o.row, old(dest[..]))
    {
      var native := s.native;
      var rc := native.Step();
      if rc == DONE {
        return Some(EndOfData);
      }
      if rc != ROW {
        return Some(StepError(rc));
      }
      var i := 0;
      while i < dest.Length
        modifies dest
        invariant 0 <= i <= dest.Length
        invariant RowDecode.DecodeFrom(native.row, dest[..], i) == RowDecode.DecodeRow(native.row, old(dest[..]))
      {
        var typ := native.ColumnType(i);
        if typ == NULL {
          dest[i] := Null;
        } else if typ == FLOAT {
          dest[i] := Float64(native.ColumnDouble(i));
        } else if typ == INTEGER {
          dest[i] := Int64(native.ColumnInt64(i));
        } else if typ == TEXT || typ == BLOB {
          var n := native.ColumnBytes(i);
          if n < 0 {
            dest[i] := Str([]);
          } else {
            var p := native.ColumnBlob(i);
            dest[i] := Bytes(p[..n]);
          }
        } else {
          return Some(UnknownColumnType(typ));
        }
        i := i + 1;
      }
      return None;
    }
  }
}
