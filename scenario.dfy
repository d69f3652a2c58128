/** A client of the driver model, in the shape of the repository's example
    program: insert one user row, then select it back and iterate to the end. */
module Scenario {
  import opened Sqlite3
  import opened Values
  import opened Engine
  import opened Codec
  import opened Driver
  import Binding
  import RowDecode

  const Name: GoString := [102, 111, 111, 98, 97, 114]   // "foobar"
  const NameCol: GoString := [110, 97, 109, 101]         // "name"
  const AgeCol: GoString := [97, 103, 101]               // "age"

  /** INSERT INTO users(name, age) VALUES(?, ?) with ("foobar", 13). */
  method Insert(fmt: Formatting) {
    var db := new NativeDb(0, 0);
    var conn := new Conn(db);

    // Two parameters, one step to DONE.
    var insertNative := new NativeStmt(db, 2, [], [], [], [StepOutcome(DONE, [], 1, 1)]);
    var insert := new Stmt(conn, insertNative);
    var args := [Str(Name), Int64(13)];
    ghost var before := insertNative.State();
    Binding.BindSucceedsIff(before, args, fmt, []);
    Binding.BindSuccess(before, args, fmt, []);
    var res := insert.Exec(args, fmt);
    assert res == Success(ExecResult(1, 1));
    assert insertNative.slots[0] == Bound(BindText(Name, 6));
    assert insertNative.slots[1] == Bound(BindInt64(13));
  }

  /** SELECT name, age FROM users over the row the insert stored. */
  method Select(fmt: Formatting) {
    var db := new NativeDb(1, 1);
    var conn := new Conn(db);

    // No parameters, one row, then DONE.
    var row := [StoredCell(BindText(Name, 6)), StoredCell(BindInt64(13))];
    var selectNative := new NativeStmt(db, 0, [NameCol, AgeCol], [[], []], [],
                                       [StepOutcome(ROW, row, 1, 1)]);
    var select := new Stmt(conn, selectNative);
    Binding.BindSucceedsIff(selectNative.State(), [], fmt, []);
    var cursor := select.Query([], fmt);
    assert cursor.Success?;
    var rows := cursor.value;
    assert rows.Columns()[..] == [NameCol, AgeCol];

    var dest := new Value[2](_ => Null);
    ghost var blank := dest[..];
    RowDecode.DecodeRowComplete(row, blank);
    var err := rows.Next(dest);
    assert err == None;
    assert dest[0] == Bytes(Name) by {
      assert Success(dest[..][0]) == DecodeCell(CellAt(row, 0));
    }
    assert dest[1] == Int64(13) by {
      assert Success(dest[..][1]) == DecodeCell(CellAt(row, 1));
    }

    err := rows.Next(dest);
    assert err == Some(EndOfData);
    assert rows.Columns()[..] == [NameCol, AgeCol];
  }
}
