/** The reader of read.go as it works: a stream that is consumed, a table and an
    array filled in loops. Each method is tied to the reading function of AmqpFields. */
module AmqpReader {
  import opened Octets
  import F = AmqpFields

  datatype Outcome<T> = Value(value: T) | Error(error: ReadError)

  /** The call returned r, left `rest` in the stream, and that is what the function says. */
  predicate Returned<T(==)>(r: Outcome<T>, rest: Bytes, spec: Read<T>) {
    match r
    case Value(v) => spec == Got(v, rest)
    case Error(e) => spec == Failed(e, rest)
  }

  /** Octets of a number field; 0 for types that are none. */
  function Width(typ: Octet): nat {
    if typ == F.BOOL || typ == F.BYTE then 1
    else if typ == F.INT16 then 2
    else if typ == F.INT32 || typ == F.FLOAT32 then 4
    else if typ == F.INT64 || typ == F.FLOAT64 || typ == F.TIME then 8
    else 0
  }

  class Stream {
    var rest: Bytes

    constructor (b: Bytes)
      ensures rest == b
    {
      rest := b;
    }

    /** `io.ReadFull`. */
    method Full(n: nat) returns (r: Outcome<Bytes>)
      modifies this
      ensures Returned(r, rest, ReadFull(old(rest), n))
    {
      if n <= |rest| {
        r := Value(rest[..n]);
        rest := rest[n..];
      } else {
        r := Error(if rest == [] then EOF else UnexpectedEOF);
        rest := [];
      }
    }

    /** `binary.Read` of an unsigned integer. */
    method Uint(k: nat) returns (r: Outcome<nat>)
      modifies this
      ensures Returned(r, rest, ReadUint(old(rest), k))
    {
      var b := Full(k);
      match b
      case Error(e) => r := Error(e);
      case Value(v) => r := Value(Get(v));
    }

    /** `readShortstr` and `readLongstr`. */
    method String(k: nat) returns (r: Outcome<Bytes>)
      modifies this
      ensures Returned(r, rest, ReadString(old(rest), k))
    {
      var n := Uint(k);
      match n
      case Error(e) => r := Error(e);
      case Value(v) => r := Full(v);
    }

    /** `readField`. */
    method Field() returns (r: Outcome<F.Field>)
      modifies this
      ensures Returned(r, rest, F.ReadField(old(rest)))
      decreases |rest|, 0
    {
      var t := Full(1);
      match t
      case Error(e) => r := Error(e);
      case Value(typ) =>
        if typ[0] == F.ARRAY {
          r := Array();
        } else if typ[0] == F.TABLE {
          var tab := Table();
          match tab
          case Error(e) => r := Error(e);
          case Value(v) => r := Value(F.Tab(v));
        } else {
          r := Scalar(typ[0]);
        }
    }

    /** The cases of `readField` that read a value of fixed size, a string or nothing. */
    method Scalar(typ: Octet) returns (r: Outcome<F.Field>)
      modifies this
      ensures Returned(r, rest, F.ReadScalar(typ, old(rest)))
    {
      if typ == F.DECIMAL {
        r := Decimal();
      } else if typ == F.STRING {
        var text := String(4);
        match text
        case Error(e) => r := Error(e);
        case Value(b) => r := Value(F.Str(b));
      } else if typ == F.BLOB {
        r := Blob();
      } else if typ == F.NIL {
        r := Value(F.Nil);
      } else if Width(typ) == 0 {
        r := Error(Syntax);
      } else {
        r := Number(typ);
      }
    }

    /** `binary.Read` of a number, a bool or a time. */
    method Number(typ: Octet) returns (r: Outcome<F.Field>)
      requires Width(typ) > 0
      modifies this
      ensures Returned(r, rest, F.ReadScalar(typ, old(rest)))
    {
      var value := Uint(Width(typ));
      match value
      case Error(e) => r := Error(e);
      case Value(n) =>
        if typ == F.BOOL {
          r := Value(F.Bool(n != 0));
        } else if typ == F.BYTE {
          Pow256Values();
          r := Value(F.Byte(n));
        } else if typ == F.INT16 {
          r := Value(F.Int16(Signed(n, 2)));
        } else if typ == F.INT32 {
          r := Value(F.Int32(Signed(n, 4)));
        } else if typ == F.INT64 {
          r := Value(F.Int64(Signed(n, 8)));
        } else if typ == F.FLOAT32 {
          r := Value(F.Float32(n));
        } else if typ == F.FLOAT64 {
          r := Value(F.Float64(n));
        } else {
          r := Value(F.Time(Signed(n, 8)));
        }
    }

    /** `readDecimal`. */
    method Decimal() returns (r: Outcome<F.Field>)
      modifies this
      ensures Returned(r, rest, F.ReadDecimal(old(rest)))
    {
      var scale := Full(1);
      match scale
      case Error(e) => r := Error(e);
      case Value(b) =>
        var value := Uint(4);
        match value
        case Error(e) => r := Error(e);
        case Value(n) => r := Value(F.Decimal(b[0], Signed(n, 4)));
    }

    /** `case 'x'`: making a slice of a negative length panics. */
    method Blob() returns (r: Outcome<F.Field>)
      modifies this
      ensures Returned(r, rest, F.ReadBlob(old(rest)))
    {
      var length := Uint(4);
      match length
      case Error(e) => r := Error(e);
      case Value(n) =>
        if Signed(n, 4) < 0 {
          r := Error(Panic);
        } else {
          var bytes := Full(n);
          match bytes
          case Error(e) => r := Error(e);
          case Value(b) => r := Value(F.Blob(b));
        }
    }

    /** `readTable`: a nested buffer is emptied entry by entry. */
    method Table() returns (r: Outcome<F.Table>)
      modifies this
      ensures Returned(r, rest, F.ReadTable(old(rest)))
      decreases |rest|, 2
    {
      var str := String(4);
      match str
      case Error(e) => r := Error(e);
      case Value(text) =>
        var nested := new Stream(text);
        var table: F.Table := map[];
        while |nested.rest| > 0
          invariant |nested.rest| <= |text|
          invariant F.ReadEntries(text, map[]) == F.ReadEntries(nested.rest, table)
          invariant rest == old(ReadString(rest, 4).rest)
          decreases |nested.rest|
        {
          var key := nested.String(1);
          match key {
            case Error(e) => return Error(e);
            case Value(k) =>
              var value := nested.Field();
              match value {
                case Error(e) => return Error(e);
                case Value(v) => table := table[k := v];
              }
          }
        }
        r := Value(table);
    }

    /** `readArray`: a limited reader is read until a field reports EOF; what was
        not read of it is still in this stream. */
    method Array() returns (r: Outcome<F.Field>)
      modifies this
      ensures Returned(r, rest, F.ReadArray(old(rest)))
      decreases |rest|, 2
    {
      var size := Uint(4);
      match size
      case Error(e) => r := Error(e);
      case Value(n) =>
        var lim := if n <= |rest| then n else |rest|;
        var tail := rest[lim..];
        ghost var body := rest[..lim];
        var inner := new Stream(rest[..lim]);
        var arr: seq<F.Field> := [];
        while true
          invariant |inner.rest| <= |body|
          invariant F.ReadItems(body, []) == F.ReadItems(inner.rest, arr)
          decreases |inner.rest|
        {
          var field := inner.Field();
          match field {
            case Error(e) =>
              rest := inner.rest + tail;
              return if e == EOF then Value(F.Array(arr)) else Error(e);
            case Value(v) => arr := arr + [v];
          }
        }
    }
  }
}
