/** The values that cross the adapter boundary upwards: the closed set of
    host kinds that database/sql hands to a driver, and the errors the
    adapter returns. */
module Values {
  import opened Sqlite3

  /** A Go string is a sequence of bytes; `len(s)` is its byte length. */
  type GoString = seq<byte>

  /** A float64, carried as its IEEE-754 bit pattern: it only passes through. */
  datatype Double = Double(bits: bv64)

  /** A time.Time: an instant and the zone it is expressed in. */
  datatype Timestamp = Timestamp(unixNano: int, zoneOffset: int)

  /** A host value of any other dynamic type, known only by its identity. */
  datatype Opaque = Opaque(id: nat)

  /** A driver value: the dynamic kinds the bind switch and the row decoder know. */
  datatype Value =
    | Null
    | Int64(i: int64)
    | Float64(f: Double)
    | Bool(b: bool)
    | Bytes(bytes: seq<byte>)
    | Str(s: GoString)
    | Time(t: Timestamp)
    | Other(o: Opaque)

  /** The Go library formatting the adapter relies on and does not define:
      `t.UTC().Format("2006-01-02 15:04:05.999999999")` and `fmt.Sprint(v)`.
      The time is converted to UTC before it is formatted, so its text
      depends on the instant alone and never on the zone. */
  datatype Formatting = Formatting(utcText: (int) -> GoString, sprint: Opaque -> GoString)

  /** Every error the adapter returns; EndOfData stands for the io.EOF sentinel. */
  datatype Error =
    | ArityError(expected: int, actual: int)
    | BindError(code: int32)
    | StepError(code: int32)
    | UnknownColumnType(tag: int32)
    | NotImplemented
    | EndOfData

  datatype Option<+T> = None | Some(value: T)

  datatype Result<+T> = Success(value: T) | Failure(error: Error)
}
