/** The value codec: which native bind call each host kind is sent to
    (the type switch of stmt.bind with bindString), and which host value
    each cell of a result row becomes (the type switch of rows.Next). */
module Codec {
  import opened Sqlite3
  import opened Values
  import opened Engine

  /** bindString: the empty string goes to the static empty-text binding,
      any other string to the transient text binding with its byte length. */
  function StringOp(s: GoString): (op: BindOp)
    ensures op.BindEmptyText? <==> |s| == 0
    ensures op.BindText? <==> |s| > 0
    ensures op.BindText? ==> op.data == s && op.n == CInt(|s|)
  {
    if |s| == 0 then BindEmptyText else BindText(s, CInt(|s|))
  }

  /** The kinds that are bound as text. */
  predicate IsTextual(v: Value) {
    v.Str? || v.Time? || v.Other?
  }

  /** The string a textual value is bound as: the string itself, the UTC
      rendering of a time, or the default rendering of anything else. */
  function TextOf(v: Value, fmt: Formatting): (text: GoString)
    requires IsTextual(v)
  {
    match v
    case Str(s) => s
    case Time(t) => fmt.utcText(t.unixNano)
    case Other(o) => fmt.sprint(o)
  }

  /** The bind call chosen for one argument, by its dynamic kind. */
  function OpFor(v: Value, fmt: Formatting): (op: BindOp)
    ensures op.BindNull? <==> v.Null?
    ensures op.BindInt64? <==> v.Int64?
    ensures v.Int64? ==> op.i == v.i
    ensures op.BindDouble? <==> v.Float64?
    ensures v.Float64? ==> op.d == v.f
    ensures op.BindInt? <==> v.Bool?
    ensures v.Bool? ==> op.v == (if v.b then 1 else 0)
    ensures op.BindBlob? <==> v.Bytes?
    ensures v.Bytes? ==> op.data == v.bytes && op.n == CInt(|v.bytes|) && op.nilPointer == (|v.bytes| == 0)
    ensures op.BindText? || op.BindEmptyText? <==> IsTextual(v)
    ensures IsTextual(v) ==> op == StringOp(TextOf(v, fmt))
  {
    match v
    case Null => BindNull
    case Int64(i) => BindInt64(i)
    case Float64(f) => BindDouble(f)
    case Bool(b) => BindInt(if b then 1 else 0)
    case Bytes(bytes) => BindBlob(bytes, CInt(|bytes|), |bytes| == 0)
    case Str(s) => StringOp(s)
    case Time(t) => StringOp(fmt.utcText(t.unixNano))
    case Other(o) => StringOp(fmt.sprint(o))
  }

  /** The storage classes the row decoder knows. */
  predicate KnownTag(tag: int32) {
    tag == NULL || tag == FLOAT || tag == INTEGER || tag == TEXT || tag == BLOB
  }

  /** One cell of a result row as a host value, chosen by the cell's own
      runtime type tag. */
  function DecodeCell(c: Cell): (r: Result<Value>)
    requires CellValid(c)
    ensures r.Failure? <==> !KnownTag(c.tag)
    ensures r.Failure? ==> r.error == UnknownColumnType(c.tag)
    ensures r == Success(Null) <==> c.tag == NULL
    ensures r.Success? && r.value.Float64? <==> c.tag == FLOAT
    ensures c.tag == FLOAT ==> r.value.f == c.float
    ensures r.Success? && r.value.Int64? <==> c.tag == INTEGER
    ensures c.tag == INTEGER ==> r.value.i == c.integer
    ensures (c.tag == TEXT || c.tag == BLOB) && c.length < 0 ==> r == Success(Str([]))
    ensures (c.tag == TEXT || c.tag == BLOB) && c.length >= 0 ==>
              r.Success? && r.value.Bytes? && |r.value.bytes| == c.length as int &&
              forall j :: 0 <= j < c.length as int ==> r.value.bytes[j] == c.data[j]
  {
    if c.tag == NULL then Success(Null)
    else if c.tag == FLOAT then Success(Float64(c.float))
    else if c.tag == INTEGER then Success(Int64(c.integer))
    else if c.tag == TEXT || c.tag == BLOB then
      if c.length < 0 then Success(Str([])) else Success(Bytes(c.data[..c.length]))
    else Failure(UnknownColumnType(c.tag))
  }

  /** The bytes a value hands to the engine, when it is bound by length. */
  predicate LengthFits(v: Value, fmt: Formatting) {
    (v.Bytes? ==> |v.bytes| <= MaxCInt) &&
    (IsTextual(v) ==> |TextOf(v, fmt)| <= MaxCInt)
  }

  /** Reference table: the host value a bound argument comes back as when
      it is stored and selected again. */
  function ReadBack(v: Value, fmt: Formatting): (back: Value) {
    match v
    case Null => Null
    case Int64(i) => Int64(i)
    case Float64(f) => if IsNaN(f) then Null else Float64(f)
    case Bool(b) => Int64(if b then 1 else 0)
    case Bytes(bytes) => if |bytes| == 0 then Null else Bytes(bytes)
    case Str(s) => Bytes(s)
    case Time(t) => Bytes(fmt.utcText(t.unixNano))
    case Other(o) => Bytes(fmt.sprint(o))
  }

  /** Binding a value and decoding the cell the engine stores for it gives
      the reference read-back value: integers, floats other than NaN and
      text survive the round trip, a bool comes back as the integer 0 or 1,
      and an empty byte slice, bound from a nil pointer, and a NaN come back
      as NULL. Lengths must fit a C int for the bind to pass them exactly. */
  lemma BindThenDecode(v: Value, fmt: Formatting)
    requires LengthFits(v, fmt)
    ensures Storable(OpFor(v, fmt))
    ensures DecodeCell(StoredCell(OpFor(v, fmt))) == Success(ReadBack(v, fmt))
  {
    match v
    case Bytes(bytes) =>
      if |bytes| > 0 {
        assert StoredCell(OpFor(v, fmt)).data[..|bytes|] == bytes;
      }
    case Str(s) => StringPathsAgree(s);
    case Time(t) => StringPathsAgree(fmt.utcText(t.unixNano));
    case Other(o) => StringPathsAgree(fmt.sprint(o));
    case Null =>
    case Int64(_) =>
    case Float64(_) =>
    case Bool(_) =>
  }

  /** The two paths of bindString store the same text: a string reads back
      as exactly its bytes, so the empty string is text, never NULL. */
  lemma StringPathsAgree(s: GoString)
    requires |s| <= MaxCInt
    ensures Storable(StringOp(s))
    ensures StoredCell(StringOp(s)).tag == TEXT
    ensures DecodeCell(StoredCell(StringOp(s))) == Success(Bytes(s))
  {
    if |s| > 0 {
      assert StoredCell(StringOp(s)).data[..|s|] == s;
    }
  }

  /** A zero-length string and a nil argument stay distinguishable once stored. */
  lemma EmptyStringIsNotNull(fmt: Formatting)
    ensures DecodeCell(StoredCell(OpFor(Str([]), fmt))) == Success(Bytes([]))
    ensures DecodeCell(StoredCell(OpFor(Null, fmt))) == Success(Null)
  {
    StringPathsAgree([]);
  }
}
