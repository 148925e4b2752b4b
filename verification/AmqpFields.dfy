/** The recursive field codec of read.go and write.go: tables, arrays and the
    scalar field types, as section 4.2.5.5 of AMQP 0-9-1 packs them. */
module AmqpFields {
  import opened Basics
  import opened Octets

  /** A field value. Floats are their IEEE bit patterns, times whole seconds, a
      table a map (a Go map has no order). */
  datatype Field =
    | Bool(flag: bool)
    | Byte(octet: Octet)
    | Int16(value: int)
    | Int32(value: int)
    | Int64(value: int)
    | Float32(bits: nat)
    | Float64(bits: nat)
    | Decimal(scale: Octet, value: int)
    | Str(text: Bytes)
    | Array(items: seq<Field>)
    | Time(seconds: int)
    | Tab(table: Table)
    | Blob(text: Bytes)
    | Nil

  type Table = map<Bytes, Field>

  // ---------------------------------------------------------------- reading

  /** The type octets, in the order of the list at the head of `readField`. */
  const ARRAY: Octet := 65    // 'A'
  const DECIMAL: Octet := 68  // 'D'
  const TABLE: Octet := 70    // 'F'
  const INT32: Octet := 73    // 'I'
  const STRING: Octet := 83   // 'S'
  const TIME: Octet := 84     // 'T'
  const NIL: Octet := 86      // 'V'
  const BYTE: Octet := 98     // 'b'
  const FLOAT64: Octet := 100 // 'd'
  const FLOAT32: Octet := 102 // 'f'
  const INT64: Octet := 108   // 'l'
  const INT16: Octet := 115   // 's'
  const BOOL: Octet := 116    // 't'
  const BLOB: Octet := 120    // 'x'

  /** `readField`: a type octet, then the value. */
  function ReadField(s: Bytes): (r: Read<Field>)
    ensures |r.rest| <= |s|
    ensures r.Got? ==> |r.rest| < |s|
    decreases |s|, 0
  {
    match ReadFull(s, 1)
    case Failed(e, rest) => Failed(e, rest)
    case Got(typ, s1) => ReadTyped(typ[0], s1)
  }

  function ReadTyped(typ: Octet, s: Bytes): (r: Read<Field>)
    ensures |r.rest| <= |s|
    decreases |s|, 3
  {
    if typ == ARRAY then ReadArray(s)
    else if typ == TABLE then
      match ReadTable(s)
      case Got(t, rest) => Got(Tab(t), rest)
      case Failed(e, rest) => Failed(e, rest)
    else ReadScalar(typ, s)
  }

  function ReadScalar(typ: Octet, s: Bytes): (r: Read<Field>)
    ensures |r.rest| <= |s|
  {
    if typ == BOOL then MapRead(ReadUint(s, 1), (n: nat) => Bool(n != 0))
    else if typ == BYTE then MapRead(ReadUint(s, 1), (n: nat) => if n < 256 then Byte(n) else Nil)
    else if typ == INT16 then MapRead(ReadUint(s, 2), (n: nat) => Int16(Signed(n, 2)))
    else if typ == INT32 then MapRead(ReadUint(s, 4), (n: nat) => Int32(Signed(n, 4)))
    else if typ == INT64 then MapRead(ReadUint(s, 8), (n: nat) => Int64(Signed(n, 8)))
    else if typ == FLOAT32 then MapRead(ReadUint(s, 4), (n: nat) => Float32(n))
    else if typ == FLOAT64 then MapRead(ReadUint(s, 8), (n: nat) => Float64(n))
    else if typ == DECIMAL then ReadDecimal(s)
    else if typ == STRING then MapRead(ReadString(s, 4), (b: Bytes) => Str(b))
    else if typ == TIME then MapRead(ReadUint(s, 8), (n: nat) => Time(Signed(n, 8)))
    else if typ == BLOB then ReadBlob(s)
    else if typ == NIL then Got(Nil, s)
    else Failed(Syntax, s)
  }

  function MapRead<T, U>(r: Read<T>, f: T -> U): (q: Read<U>)
    ensures q.rest == r.rest && q.Got? == r.Got?
  {
    match r
    case Got(v, rest) => Got(f(v), rest)
    case Failed(e, rest) => Failed(e, rest)
  }

  function ReadDecimal(s: Bytes): (r: Read<Field>)
    ensures |r.rest| <= |s|
  {
    match ReadFull(s, 1)
    case Failed(e, rest) => Failed(e, rest)
    case Got(b, s1) => MapRead(ReadUint(s1, 4), (n: nat) => Decimal(b[0], Signed(n, 4)))
  }

  /** `case 'x'`: the length is a signed 32-bit integer and a negative one panics. */
  function ReadBlob(s: Bytes): (r: Read<Field>)
    ensures |r.rest| <= |s|
  {
    match ReadUint(s, 4)
    case Failed(e, rest) => Failed(e, rest)
    case Got(n, s1) =>
      if Signed(n, 4) < 0 then Failed(Panic, s1)
      else MapRead(ReadFull(s1, n), (b: Bytes) => Blob(b))
  }

  /** `readTable`: a long string, then key and value pairs until it is used up. */
  function ReadTable(s: Bytes): (r: Read<Table>)
    ensures |r.rest| <= |s|
    decreases |s|, 2
  {
    match ReadString(s, 4)
    case Failed(e, rest) => Failed(e, rest)
    case Got(nested, rest) =>
      match ReadEntries(nested, map[])
      case Got(t, _) => Got(t, rest)
      case Failed(e, _) => Failed(e, rest)
  }

  function ReadEntries(s: Bytes, t: Table): (r: Read<Table>)
    ensures |r.rest| <= |s|
    decreases |s|, 1
  {
    if s == [] then Got(t, [])
    else
      match ReadString(s, 1)
      case Failed(e, rest) => Failed(e, rest)
      case Got(key, s1) =>
        match ReadField(s1)
        case Failed(e, rest) => Failed(e, rest)
        case Got(v, s2) => ReadEntries(s2, t[key := v])
  }

  /** `readArray`: fields out of a reader limited to `size` octets, until one of
      them reports EOF. Octets inside the limit that were not read stay in the stream. */
  function ReadArray(s: Bytes): (r: Read<Field>)
    ensures |r.rest| <= |s|
    decreases |s|, 2
  {
    match ReadUint(s, 4)
    case Failed(e, rest) => Failed(e, rest)
    case Got(size, s1) =>
      var n := if size <= |s1| then size else |s1|;
      match ReadItems(s1[..n], [])
      case Got(items, left) => Got(Array(items), left + s1[n..])
      case Failed(e, left) => Failed(e, left + s1[n..])
  }

  function ReadItems(s: Bytes, items: seq<Field>): (r: Read<seq<Field>>)
    ensures |r.rest| <= |s|
    decreases |s|, 1
  {
    match ReadField(s)
    case Failed(e, rest) => if e == EOF then Got(items, rest) else Failed(e, rest)
    case Got(v, s1) => ReadItems(s1, items + [v])
  }

  // ---------------------------------------------------------------- where an array ends

  /** b is a run of these whole fields, one after the other up to its end. */
  ghost predicate WholeFields(b: Bytes, fields: seq<Field>)
    decreases |fields|
  {
    if fields == [] then b == []
    else ReadField(b).Got? && ReadField(b).value == fields[0] && WholeFields(ReadField(b).rest, fields[1..])
  }

  /** The fields that can be read from b one after the other. */
  function FieldsOf(b: Bytes): seq<Field>
    decreases |b|
  {
    match ReadField(b)
    case Failed(_, _) => []
    case Got(v, rest) => [v] + FieldsOf(rest)
  }

  /** What is left of b where the first field cannot be read. */
  function CutAt(b: Bytes): (c: Bytes)
    ensures ReadField(c).Failed?
    decreases |b|
  {
    match ReadField(b)
    case Failed(_, _) => b
    case Got(_, rest) => CutAt(rest)
  }

  /** What the items reader makes of any octets: the fields before the first that cannot be
      read, if that one fails with EOF, else its error. */
  lemma {:induction false} ItemsAreFields(b: Bytes, before: seq<Field>)
    ensures var cut := ReadField(CutAt(b));
            ReadItems(b, before) ==
            if cut.error == EOF then Got(before + FieldsOf(b), cut.rest) else Failed(cut.error, cut.rest)
    decreases |b|
  {
    match ReadField(b)
    case Failed(_, _) =>
      assert before + [] == before;
    case Got(v, rest) =>
      ItemsAreFields(rest, before + [v]);
      assert (before + [v]) + FieldsOf(rest) == before + ([v] + FieldsOf(rest));
  }

  /** Those are all of b exactly when b is a run of whole fields. */
  lemma {:induction false} WholeExactly(b: Bytes, fields: seq<Field>)
    ensures WholeFields(b, fields) <==> CutAt(b) == [] && FieldsOf(b) == fields
    decreases |b|
  {
    match ReadField(b)
    case Failed(_, _) =>
    case Got(v, rest) =>
      if fields != [] {
        WholeExactly(rest, fields[1..]);
        assert FieldsOf(b)[1..] == FieldsOf(rest);
        assert fields == [fields[0]] + fields[1..];
      }
  }

  /** An array of these octets is read exactly when the first field that cannot be read fails
      with EOF; nothing was dropped exactly when the octets are whole fields. The EOF at the
      end of the array and one inside of its last field are not told apart. */
  lemma ArrayEnds(b: Bytes)
    ensures ReadItems(b, []).Got? <==> ReadField(CutAt(b)).error == EOF
    ensures ReadItems(b, []).Got? ==> ReadItems(b, []).value == FieldsOf(b)
    ensures CutAt(b) == [] <==> WholeFields(b, FieldsOf(b))
    ensures WholeFields(b, FieldsOf(b)) ==> ReadItems(b, []) == Got(FieldsOf(b), [])
  {
    ItemsAreFields(b, []);
    WholeExactly(b, FieldsOf(b));
    assert [] + FieldsOf(b) == FieldsOf(b);
  }

  /** Where a scalar has to be cut off to fail with EOF: between the reads it is made of. */
  predicate CutBetweenReads(typ: Octet, s: Bytes) {
    && NeedsValue(typ)
    && (s == [] || (typ == DECIMAL && |s| == 1)
        || (typ == STRING && |s| == 4 && Get(s) > 0)
        || (typ == BLOB && |s| == 4 && Signed(Get(s), 4) > 0))
  }

  /** For scalars the EOF that is swallowed is exactly a cut there. */
  lemma ScalarEof(typ: Octet, s: Bytes)
    requires typ != ARRAY && typ != TABLE
    ensures HasEof(ReadScalar(typ, s)) <==> CutBetweenReads(typ, s)
  {
    if |s| >= 4 {
      assert |s| == 4 ==> s[..4] == s;
    }
  }

  /** The type octets behind which something must follow. */
  predicate NeedsValue(typ: Octet) {
    typ in {ARRAY, DECIMAL, TABLE, INT32, STRING, TIME, BYTE, FLOAT64, FLOAT32, INT64, INT16, BOOL, BLOB}
  }

  /** A field of any type that is cut off right behind its type octet is dropped without an
      error: an array of one octet that says "bool" is an empty array. */
  lemma CutFieldIsDropped(typ: Octet)
    requires NeedsValue(typ)
    ensures ReadField([typ]) == Failed(EOF, [])
    ensures ReadArray(Put(1, 4) + [typ]) == Got(Array([]), [])
  {
    var s := Put(1, 4) + [typ];
    assert [typ][..1] == [typ] && [typ][1..] == [];
    assert ReadTyped(typ, []) == Failed(EOF, []);
    Pow256Values();
    ReadPut(1, 4, [typ]);
    assert [typ][..1] + [] == [typ];
    assert ReadItems([typ], []) == Got([], []);
    assert [] + [typ][1..] == [];
  }

  predicate HasEof<T>(r: Read<T>) {
    r.Failed? && r.error == EOF
  }

  /** A string cut off before its length, or right behind it though something should follow. */
  predicate CutString(s: Bytes, k: nat) {
    s == [] || (|s| == k && Get(s) > 0)
  }

  /** Where a field of any type has to be cut off to fail with EOF. An array hides all but a
      missing length; a table passes on what its entries do, however deep they are. */
  predicate CutField(s: Bytes)
    decreases |s|, 0
  {
    s == [] || (var v := s[1..];
                if s[0] == ARRAY then v == []
                else if s[0] == TABLE then
                  CutString(v, 4) || (ReadString(v, 4).Got? && CutEntries(ReadString(v, 4).value))
                else CutBetweenReads(s[0], v))
  }

  /** The entries of a table are cut off in a key, in a value, or behind both of them. */
  predicate CutEntries(s: Bytes)
    decreases |s|, 1
  {
    s != [] &&
    match ReadString(s, 1)
    case Failed(_, _) => CutString(s, 1)
    case Got(_, s1) => CutField(s1) || (ReadField(s1).Got? && CutEntries(ReadField(s1).rest))
  }

  lemma StringEof(s: Bytes, k: nat)
    requires k > 0
    ensures HasEof(ReadString(s, k)) <==> CutString(s, k)
  {
    if |s| == k {
      assert s[..k] == s;
    }
  }

  /** The EOF that an array swallows is exactly a cut there, for values of any depth. */
  lemma {:induction false} FieldEof(s: Bytes)
    ensures HasEof(ReadField(s)) <==> CutField(s)
    decreases |s|, 0
  {
    if s != [] {
      var typ, v := s[0], s[1..];
      assert s[..1] == [typ] && ReadField(s) == ReadTyped(typ, v);
      if typ == ARRAY {
        ArrayEof(v);
      } else if typ == TABLE {
        StringEof(v, 4);
        if ReadString(v, 4).Got? {
          EntriesEof(ReadString(v, 4).value, map[]);
        }
        assert HasEof(ReadTyped(typ, v)) <==> HasEof(ReadTable(v));
      } else {
        ScalarEof(typ, v);
      }
    }
  }

  lemma {:induction false} EntriesEof(s: Bytes, t: Table)
    ensures HasEof(ReadEntries(s, t)) <==> CutEntries(s)
    decreases |s|, 1
  {
    if s != [] {
      StringEof(s, 1);
      match ReadString(s, 1)
      case Failed(_, _) =>
      case Got(key, s1) =>
        FieldEof(s1);
        if ReadField(s1).Got? {
          EntriesEof(ReadField(s1).rest, t[key := ReadField(s1).value]);
        }
    }
  }

  lemma ArrayEof(s: Bytes)
    ensures HasEof(ReadArray(s)) <==> s == []
  {
    if ReadUint(s, 4).Got? {
      var s1 := ReadUint(s, 4).rest;
      var n := if ReadUint(s, 4).value <= |s1| then ReadUint(s, 4).value else |s1|;
      ItemsAreFields(s1[..n], []);
    }
  }

  /** So an array that holds a table whose entries stop behind a key is read as an empty array,
      and what follows the table in the array is left in the stream. */
  lemma CutTableSpills(key: Bytes, after: Bytes, suffix: Bytes)
    requires |key| < Pow256(1)
    requires var b := [TABLE] + WriteString(WriteString(key, 1), 4) + after; |b| < Pow256(4)
    ensures var b := [TABLE] + WriteString(WriteString(key, 1), 4) + after;
            ReadArray(Put(|b|, 4) + b + suffix) == Got(Array([]), after + suffix)
  {
    var entry := WriteString(key, 1);
    var b := [TABLE] + WriteString(entry, 4) + after;
    Pow256Values();
    ReadWriteString(key, 1, []);
    assert entry + [] == entry;
    assert ReadEntries(entry, map[]) == Failed(EOF, []);
    ReadWriteString(entry, 4, after);
    Uncons(TABLE, WriteString(entry, 4), after);
    assert ReadItems(b, []) == Got([], after);
    ReadPut(|b|, 4, b + suffix);
    assert Put(|b|, 4) + b + suffix == Put(|b|, 4) + (b + suffix);
    assert (b + suffix)[..|b|] == b && (b + suffix)[|b|..] == suffix;
  }

  // ---------------------------------------------------------------- what can be written

  /** The length of a value on the wire. */
  ghost function Size(f: Field): nat
    decreases f, 1
  {
    match f
    case Bool(_) => 2
    case Byte(_) => 2
    case Int16(_) => 3
    case Int32(_) => 5
    case Int64(_) => 9
    case Float32(_) => 5
    case Float64(_) => 9
    case Decimal(_, _) => 6
    case Str(b) => 5 + |b|
    case Array(items) => 5 + ItemsSize(items)
    case Time(_) => 9
    case Tab(t) => 5 + EntriesSize(t, t.Keys)
    case Blob(b) => 5 + |b|
    case Nil => 1
  }

  ghost function ItemsSize(items: seq<Field>): nat
    decreases items, 0
  {
    if items == [] then 0 else ItemsSize(items[..|items| - 1]) + Size(items[|items| - 1])
  }

  /** The entries of t under the given keys: no order is fixed. */
  ghost function EntriesSize(t: Table, keys: set<Bytes>): nat
    requires keys <= t.Keys
    decreases Tab(t), 0, |keys|
  {
    if keys == {} then 0
    else
      var k :| k in keys;
      1 + |k| + Size(t[k]) + EntriesSize(t, keys - {k})
  }

  /** The size of a table does not depend on the order of its keys. */
  lemma {:induction false} EntriesSizeStep(t: Table, keys: set<Bytes>, k: Bytes)
    requires k in keys && keys <= t.Keys
    ensures EntriesSize(t, keys) == 1 + |k| + Size(t[k]) + EntriesSize(t, keys - {k})
    decreases |keys|
  {
    var first :| first in keys && EntriesSize(t, keys) == 1 + |first| + Size(t[first]) + EntriesSize(t, keys - {first});
    if first != k {
      EntriesSizeStep(t, keys - {first}, k);
      EntriesSizeStep(t, keys - {k}, first);
      assert keys - {first} - {k} == keys - {k} - {first};
    }
  }

  /** The values the writer takes without cutting anything off. */
  ghost predicate Fits(f: Field)
    decreases f
  {
    match f
    case Int16(v) => InSigned(v, 2)
    case Int32(v) => InSigned(v, 4)
    case Int64(v) => InSigned(v, 8)
    case Float32(n) => n < Pow256(4)
    case Float64(n) => n < Pow256(8)
    case Decimal(_, v) => InSigned(v, 4)
    case Str(b) => |b| < Pow256(4)
    case Array(items) => ItemsSize(items) < Pow256(4) && forall i :: 0 <= i < |items| ==> Fits(items[i])
    case Time(v) => InSigned(v, 8)
    case Tab(t) => EntriesSize(t, t.Keys) < Pow256(4) && forall k :: k in t ==> |k| < Pow256(1) && Fits(t[k])
    case Blob(b) => 2 * |b| < Pow256(4)
    case _ => true
  }

  // ---------------------------------------------------------------- writing

  /** Whatever follows b on the stream, reading gives f and leaves exactly that. */
  ghost predicate FieldDecodes(b: Bytes, f: Field) {
    forall suffix: Bytes :: ReadField(b + suffix) == Got(f, suffix)
  }

  ghost predicate TableDecodes(b: Bytes, t: Table) {
    forall suffix: Bytes :: ReadTable(b + suffix) == Got(t, suffix)
  }

  ghost predicate StringDecodes(b: Bytes, v: Bytes) {
    forall suffix: Bytes :: ReadString(b + suffix, 1) == Got(v, suffix)
  }

  ghost predicate ItemsDecode(b: Bytes, items: seq<Field>) {
    forall suffix: Bytes, before: seq<Field> ::
      ReadItems(b + suffix, before) == ReadItems(suffix, before + items)
  }

  ghost predicate EntriesDecode(b: Bytes, t: Table) {
    forall suffix: Bytes, before: Table ::
      ReadEntries(b + suffix, before) == ReadEntries(suffix, before + t)
  }

  lemma Uncons(typ: Octet, b: Bytes, suffix: Bytes)
    ensures ReadField([typ] + b + suffix) == ReadTyped(typ, b + suffix)
  {
    var s := [typ] + b + suffix;
    assert s[..1] == [typ] && s[1..] == b + suffix;
  }

  lemma NoItems()
    ensures ItemsDecode([], [])
  {
    forall suffix: Bytes, before: seq<Field>
      ensures ReadItems([] + suffix, before) == ReadItems(suffix, before + [])
    {
      assert [] + suffix == suffix && before + [] == before;
    }
  }

  lemma NoEntries()
    ensures EntriesDecode([], map[])
  {
    forall suffix: Bytes, before: Table
      ensures ReadEntries([] + suffix, before) == ReadEntries(suffix, before + map[])
    {
      assert [] + suffix == suffix && before + map[] == before;
    }
  }

  /** One more item behind a run of items. */
  lemma ItemsAppend(b: Bytes, items: seq<Field>, c: Bytes, f: Field)
    requires ItemsDecode(b, items) && FieldDecodes(c, f)
    ensures ItemsDecode(b + c, items + [f])
  {
    forall suffix: Bytes, before: seq<Field>
      ensures ReadItems(b + c + suffix, before) == ReadItems(suffix, before + (items + [f]))
    {
      assert b + c + suffix == b + (c + suffix);
      assert ReadItems(b + (c + suffix), before) == ReadItems(c + suffix, before + items);
      assert ReadField(c + suffix) == Got(f, suffix);
      assert before + items + [f] == before + (items + [f]);
    }
  }

  lemma MergePut(before: Table, t: Table, key: Bytes, f: Field)
    ensures (before + t)[key := f] == before + t[key := f]
  {
  }

  lemma EntryRead(k: Bytes, key: Bytes, c: Bytes, f: Field, suffix: Bytes, before: Table)
    requires k != [] && ReadString(k + (c + suffix), 1) == Got(key, c + suffix)
    requires ReadField(c + suffix) == Got(f, suffix)
    ensures ReadEntries(k + (c + suffix), before) == ReadEntries(suffix, before[key := f])
  {
  }

  lemma EntriesAppendAt(b: Bytes, t: Table, k: Bytes, key: Bytes, c: Bytes, f: Field, suffix: Bytes, before: Table)
    requires ReadEntries(b + (k + (c + suffix)), before) == ReadEntries(k + (c + suffix), before + t)
    requires k != [] && ReadString(k + (c + suffix), 1) == Got(key, c + suffix)
    requires ReadField(c + suffix) == Got(f, suffix)
    ensures ReadEntries(b + k + c + suffix, before) == ReadEntries(suffix, before + t[key := f])
  {
    EntryRead(k, key, c, f, suffix, before + t);
    MergePut(before, t, key, f);
    Concat4(b, k, c, suffix);
  }

  /** One more entry behind a run of entries; k holds the key. */
  lemma EntriesAppend(b: Bytes, t: Table, k: Bytes, key: Bytes, c: Bytes, f: Field)
    requires EntriesDecode(b, t) && FieldDecodes(c, f)
    requires k != [] && StringDecodes(k, key)
    ensures EntriesDecode(b + k + c, t[key := f])
  {
    forall suffix: Bytes, before: Table
      ensures ReadEntries(b + k + c + suffix, before) == ReadEntries(suffix, before + t[key := f])
    {
      EntriesAppendAt(b, t, k, key, c, f, suffix, before);
    }
  }

  /** The length in front of the items closes the array. */
  lemma ArrayDecodes(b: Bytes, items: seq<Field>, suffix: Bytes)
    requires ItemsDecode(b, items) && |b| < Pow256(4)
    ensures ReadArray(Put(|b|, 4) + b + suffix) == Got(Array(items), suffix)
  {
    var s1 := b + suffix;
    assert Put(|b|, 4) + b + suffix == Put(|b|, 4) + s1;
    ReadPut(|b|, 4, s1);
    assert s1[..|b|] == b && s1[|b|..] == suffix;
    assert b + [] == b && [] + items == items;
    assert ReadItems(b + [], []) == ReadItems([], [] + items);
    assert ReadItems([], items) == Got(items, []);
    assert [] + suffix == suffix;
  }

  /** The length in front of the entries closes the table. */
  lemma TableCloses(b: Bytes, t: Table)
    requires EntriesDecode(b, t) && |b| < Pow256(4)
    ensures TableDecodes(WriteString(b, 4), t)
  {
    forall suffix: Bytes
      ensures ReadTable(WriteString(b, 4) + suffix) == Got(t, suffix)
    {
      ReadWriteString(b, 4, suffix);
      assert b + [] == b;
      assert ReadEntries(b + [], map[]) == ReadEntries([], map[] + t);
      assert map[] + t == t;
    }
  }

  /** The octets behind the type octet of a value that holds no others. */
  function ScalarBytes(f: Field): Bytes
    requires !f.Array? && !f.Tab?
    requires f.Int16? ==> InSigned(f.value, 2)
    requires f.Int32? || f.Decimal? ==> InSigned(f.value, 4)
    requires f.Int64? ==> InSigned(f.value, 8)
    requires f.Time? ==> InSigned(f.seconds, 8)
  {
    match f
    case Bool(v) => Put(if v then 1 else 0, 1)
    case Byte(v) => Put(v, 1)
    case Int16(v) => Put(Unsigned(v, 2), 2)
    case Int32(v) => Put(Unsigned(v, 4), 4)
    case Int64(v) => Put(Unsigned(v, 8), 8)
    case Float32(n) => Put(n, 4)
    case Float64(n) => Put(n, 8)
    case Decimal(scale, v) => [scale] + Put(Unsigned(v, 4), 4)
    case Str(b) => Put(|b|, 4) + b
    case Time(v) => Put(Unsigned(v, 8), 8)
    case Blob(b) => Put(|b|, 4) + b
    case Nil => []
  }

  function TypeOctet(f: Field): Octet {
    match f
    case Bool(_) => BOOL
    case Byte(_) => BYTE
    case Int16(_) => INT16
    case Int32(_) => INT32
    case Int64(_) => INT64
    case Float32(_) => FLOAT32
    case Float64(_) => FLOAT64
    case Decimal(_, _) => DECIMAL
    case Str(_) => STRING
    case Array(_) => ARRAY
    case Time(_) => TIME
    case Tab(_) => TABLE
    case Blob(_) => BLOB
    case Nil => NIL
  }

  lemma SignedDecodes(v: int, k: nat, suffix: Bytes)
    requires InSigned(v, k)
    ensures ReadUint(Put(Unsigned(v, k), k) + suffix, k) == Got(Unsigned(v, k), suffix)
    ensures Signed(Unsigned(v, k), k) == v
  {
    ReadPut(Unsigned(v, k), k, suffix);
  }

  lemma NumberDecodes(f: Field, suffix: Bytes)
    requires f.Int16? || f.Int32? || f.Int64? || f.Float32? || f.Float64? || f.Time?
    requires Fits(f)
    ensures ReadScalar(TypeOctet(f), ScalarBytes(f) + suffix) == Got(f, suffix)
  {
    match f
    case Int16(v) => SignedDecodes(v, 2, suffix);
    case Int32(v) => SignedDecodes(v, 4, suffix);
    case Int64(v) => SignedDecodes(v, 8, suffix);
    case Float32(n) => ReadPut(n, 4, suffix);
    case Float64(n) => ReadPut(n, 8, suffix);
    case Time(v) => SignedDecodes(v, 8, suffix);
  }

  lemma ScalarDecodes(f: Field, suffix: Bytes)
    requires !f.Array? && !f.Tab? && Fits(f)
    ensures ReadScalar(TypeOctet(f), ScalarBytes(f) + suffix) == Got(f, suffix)
  {
    match f
    case Bool(v) =>
      Pow256Values();
      ReadPut(if v then 1 else 0, 1, suffix);
    case Byte(v) =>
      Pow256Values();
      ReadPut(v, 1, suffix);
    case Decimal(scale, v) =>
      DecimalDecodes(scale, v, suffix);
    case Str(b) =>
      LongDecodes(b, 4, suffix);
    case Blob(b) =>
      LongDecodes(b, 4, suffix);
    case Nil =>
      assert [] + suffix == suffix;
    case _ =>
      NumberDecodes(f, suffix);
  }

  lemma ScalarSize(f: Field)
    ensures !f.Array? && !f.Tab? && Fits(f) ==> 1 + |ScalarBytes(f)| == Size(f)
  {
  }

  lemma DecimalDecodes(scale: Octet, v: int, suffix: Bytes)
    requires InSigned(v, 4)
    ensures ReadDecimal([scale] + Put(Unsigned(v, 4), 4) + suffix) == Got(Decimal(scale, v), suffix)
  {
    var n := Put(Unsigned(v, 4), 4);
    var s := [scale] + n + suffix;
    assert s[..1] == [scale] && s[1..] == n + suffix;
    ReadPut(Unsigned(v, 4), 4, suffix);
  }

  lemma LongDecodes(b: Bytes, k: nat, suffix: Bytes)
    requires |b| < Pow256(k)
    ensures Put(|b|, k) + b + suffix == Put(|b|, k) + (b + suffix)
    ensures ReadUint(Put(|b|, k) + (b + suffix), k) == Got(|b|, b + suffix)
    ensures ReadFull(b + suffix, |b|) == Got(b, suffix)
  {
    ReadPut(|b|, k, b + suffix);
    assert (b + suffix)[..|b|] == b && (b + suffix)[|b|..] == suffix;
  }

  lemma ArrayField(sec: Bytes, items: seq<Field>)
    requires ItemsDecode(sec, items) && |sec| < Pow256(4)
    ensures FieldDecodes([ARRAY] + (Put(|sec|, 4) + sec), Array(items))
  {
    var c := Put(|sec|, 4) + sec;
    forall suffix: Bytes
      ensures ReadField([ARRAY] + c + suffix) == Got(Array(items), suffix)
    {
      ArrayDecodes(sec, items, suffix);
      Uncons(ARRAY, c, suffix);
    }
  }

  lemma TableField(c: Bytes, t: Table)
    requires TableDecodes(c, t)
    ensures FieldDecodes([TABLE] + c, Tab(t))
  {
    forall suffix: Bytes
      ensures ReadField([TABLE] + c + suffix) == Got(Tab(t), suffix)
    {
      Uncons(TABLE, c, suffix);
      assert ReadTable(c + suffix) == Got(t, suffix);
    }
  }

  lemma ScalarField(f: Field)
    requires !f.Array? && !f.Tab? && Fits(f)
    ensures FieldDecodes([TypeOctet(f)] + ScalarBytes(f), f)
  {
    forall suffix: Bytes
      ensures ReadField([TypeOctet(f)] + ScalarBytes(f) + suffix) == Got(f, suffix)
    {
      ScalarDecodes(f, suffix);
      Uncons(TypeOctet(f), ScalarBytes(f), suffix);
    }
  }

  /** `writeField`. Maps are walked in any order; every output decodes to the value. */
  method WriteField(f: Field) returns (b: Bytes)
    requires Fits(f)
    ensures FieldDecodes(b, f)
    ensures |b| == Size(f)
    decreases f, 2
  {
    match f
    case Array(items) =>
      var sec := WriteItems(items, f);
      ArrayField(sec, items);
      b := [ARRAY] + (Put(|sec|, 4) + sec);
    case Tab(t) =>
      var c := WriteTableOf(t, f);
      TableField(c, t);
      b := [TABLE] + c;
    case _ =>
      ScalarField(f);
      ScalarSize(f);
      b := [TypeOctet(f)] + ScalarBytes(f);
  }

  /** The loop of `writeField` over the elements of an array. */
  method WriteItems(items: seq<Field>, ghost f: Field) returns (sec: Bytes)
    requires f == Array(items) && Fits(f)
    ensures ItemsDecode(sec, items)
    ensures |sec| == ItemsSize(items)
    decreases f, 0
  {
    sec := [];
    var i := 0;
    NoItems();
    assert items[..0] == [];
    while i < |items|
      invariant 0 <= i <= |items|
      invariant ItemsDecode(sec, items[..i])
      invariant |sec| == ItemsSize(items[..i])
    {
      var c := WriteField(items[i]);
      ItemsAppend(sec, items[..i], c, items[i]);
      assert items[..i + 1] == items[..i] + [items[i]];
      assert items[..i + 1][..i] == items[..i];
      sec := sec + c;
      i := i + 1;
    }
    assert items[..i] == items;
  }

  lemma Restricted(t: Table, keys: set<Bytes>)
    ensures keys == t.Keys ==> t - keys == map[]
  {
  }

  lemma RestrictedStep(t: Table, keys: set<Bytes>, k: Bytes)
    ensures k in keys && keys <= t.Keys ==> (t - keys)[k := t[k]] == t - (keys - {k})
  {
  }

  /** `writeTable`, as part of the value `f` that holds the table. */
  method WriteTableOf(t: Table, ghost f: Field) returns (b: Bytes)
    requires f == Tab(t) && Fits(f)
    ensures TableDecodes(b, t)
    ensures 1 + |b| == Size(f)
    decreases f, 0
  {
    var buf: Bytes := [];
    var todo := t.Keys;
    ghost var done: Table := map[];
    NoEntries();
    Restricted(t, todo);
    while todo != {}
      invariant todo <= t.Keys
      invariant done == t - todo
      invariant EntriesDecode(buf, done)
      invariant |buf| + EntriesSize(t, todo) == EntriesSize(t, t.Keys)
      decreases |todo|
    {
      var key :| key in todo;
      var c := WriteField(t[key]);
      var k := WriteShortstr(key);
      EntriesAppend(buf, done, k, key, c, t[key]);
      EntriesSizeStep(t, todo, key);
      buf := buf + k + c;
      RestrictedStep(t, todo, key);
      done := done[key := t[key]];
      todo := todo - {key};
    }
    assert t - {} == t;
    TableCloses(buf, t);
    ReadWriteString(buf, 4, []);
    b := WriteString(buf, 4);
  }

  /** `writeShortstr`, within its limit. */
  method WriteShortstr(v: Bytes) returns (b: Bytes)
    requires |v| < Pow256(1)
    ensures |b| == 1 + |v|
    ensures StringDecodes(b, v)
  {
    b := WriteString(v, 1);
    forall suffix: Bytes
      ensures ReadString(b + suffix, 1) == Got(v, suffix) && |b| == 1 + |v|
    {
      ReadWriteString(v, 1, suffix);
    }
    ReadWriteString(v, 1, []);
  }

  /** `writeTable` for a table on its own. */
  method WriteTable(t: Table) returns (b: Bytes)
    requires Fits(Tab(t))
    ensures TableDecodes(b, t)
  {
    b := WriteTableOf(t, Tab(t));
  }
}
