/** The decoding loop of rows.Next as a function of the current row and the
    destination slice: each column in order gets its cell's decoded value,
    and the first cell with an unknown type tag stops the loop. */
module RowDecode {
  import opened Sqlite3
  import opened Values
  import opened Engine
  import opened Codec

  /** The loop from column i on; dest is updated in place. */
  function DecodeFrom(row: seq<Cell>, dest: seq<Value>, i: nat): (r: (seq<Value>, Option<Error>))
    requires RowValid(row) && i <= |dest|
    decreases |dest| - i
  {
    if i == |dest| then (dest, None)
    else
      var r := DecodeCell(CellAt(row, i));
      if r.Failure? then (dest, Some(r.error))
      else DecodeFrom(row, dest[i := r.value], i + 1)
  }

  /** The whole loop, from column 0. */
  function DecodeRow(row: seq<Cell>, dest: seq<Value>): (r: (seq<Value>, Option<Error>))
    requires RowValid(row)
  {
    DecodeFrom(row, dest, 0)
  }

  /** The first column in [lo, hi) whose type tag the decoder does not
      know, or hi when there is none. */
  function FirstUnknown(row: seq<Cell>, lo: nat, hi: nat): (k: nat)
    requires lo <= hi
    ensures lo <= k <= hi
    ensures forall j :: lo <= j < k ==> KnownTag(CellAt(row, j).tag)
    ensures k < hi ==> !KnownTag(CellAt(row, k).tag)
    decreases hi - lo
  {
    if lo == hi then hi
    else if !KnownTag(CellAt(row, lo).tag) then lo
    else FirstUnknown(row, lo + 1, hi)
  }

  /** Closed form of the loop from column i: the columns from i up to the
      first unknown tag k receive their decoded cells, every other entry of
      dest keeps its value, and the result is an error exactly when k lies
      inside dest, carrying k's tag. */
  lemma {:induction false} DecodeFromClosedForm(row: seq<Cell>, dest: seq<Value>, i: nat)
    requires RowValid(row) && i <= |dest|
    ensures var k := FirstUnknown(row, i, |dest|);
            var r := DecodeFrom(row, dest, i);
            |r.0| == |dest| &&
            (forall j :: i <= j < k ==> Success(r.0[j]) == DecodeCell(CellAt(row, j))) &&
            (forall j :: 0 <= j < |dest| && !(i <= j < k) ==> r.0[j] == dest[j]) &&
            r.1 == (if k < |dest| then Some(UnknownColumnType(CellAt(row, k).tag)) else None)
    decreases |dest| - i
  {
    if i < |dest| {
      var c := DecodeCell(CellAt(row, i));
      if c.Success? {
        DecodeFromClosedForm(row, dest[i := c.value], i + 1);
        assert FirstUnknown(row, i, |dest|) == FirstUnknown(row, i + 1, |dest|);
      }
    }
  }

  /** A row whose tags are all known fills every entry of dest with its
      decoded cell and reports no error; columns past the row are nil. */
  lemma DecodeRowComplete(row: seq<Cell>, dest: seq<Value>)
    requires RowValid(row)
    requires forall j :: 0 <= j < |dest| ==> KnownTag(CellAt(row, j).tag)
    ensures var r := DecodeRow(row, dest);
            r.1 == None && |r.0| == |dest| &&
            (forall j :: 0 <= j < |dest| ==> Success(r.0[j]) == DecodeCell(CellAt(row, j))) &&
            (forall j :: |row| <= j < |dest| ==> r.0[j] == Null)
  {
    DecodeFromClosedForm(row, dest, 0);
  }

  /** A row with an unknown tag at column k (all earlier tags known) makes
      the loop fail with that tag, after columns 0..k-1 have been written;
      columns from k on keep their old values. */
  lemma DecodeRowStopsAtUnknown(row: seq<Cell>, dest: seq<Value>, k: nat)
    requires RowValid(row) && k < |dest|
    requires forall j :: 0 <= j < k ==> KnownTag(CellAt(row, j).tag)
    requires !KnownTag(CellAt(row, k).tag)
    ensures var r := DecodeRow(row, dest);
            r.1 == Some(UnknownColumnType(CellAt(row, k).tag)) && |r.0| == |dest| &&
            (forall j :: 0 <= j < k ==> Success(r.0[j]) == DecodeCell(CellAt(row, j))) &&
            (forall j :: k <= j < |dest| ==> r.0[j] == dest[j])
  {
    DecodeFromClosedForm(row, dest, 0);
  }
}
