/** The octets of AMQP 0-9-1 as its specification writes them (sections 4.2.3, 4.2.5 and 4.2.6),
    with the letters of read.go: what the readers of the codec make of them. */
module AmqpWire {
  import opened Basics
  import opened Octets
  import opened AmqpFields
  import opened AmqpSchema
  import opened AmqpFrames
  import opened AmqpInstances

  function Ascii(c: char): (o: Octet)
    requires (c as int) < 128
  {
    c as int
  }

  /** The number that octets stand for in network order: the first one counts most. */
  function Value(b: Bytes): nat {
    if b == [] then 0 else b[0] * Pow256(|b| - 1) + Value(b[1..])
  }

  lemma {:induction false} ValueLast(b: Bytes)
    requires b != []
    ensures Value(b) == 256 * Value(b[..|b| - 1]) + b[|b| - 1]
  {
    if |b| == 1 {
      assert b[1..] == [] && b[..0] == [];
    } else {
      var rest, init, p := b[1..], b[..|b| - 1], Pow256(|b| - 2);
      ValueLast(rest);
      assert rest[..|rest| - 1] == init[1..];
      assert b[0] * (256 * p) == 256 * (b[0] * p);
    }
  }

  /** Numbers are written in network order. */
  lemma {:induction false} PutInOrder(n: nat, k: nat)
    requires n < Pow256(k)
    ensures Value(Put(n, k)) == n
  {
    if k > 0 {
      PutInOrder(n / 256, k - 1);
      ValueLast(Put(n, k));
      assert Put(n, k)[..k - 1] == Put(n / 256, k - 1);
    }
  }

  // ---------------------------------------------------------------- fields

  function Signed2(v: int, k: nat): Bytes
    requires InSigned(v, k)
  {
    Put(if v < 0 then v + Pow256(k) else v, k)
  }

  /** A value that holds no others: its letter and its octets. */
  ghost function ScalarWire(f: Field): Bytes
    requires !f.Array? && !f.Tab? && Fits(f)
  {
    match f
    case Bool(v) => [Ascii('t'), if v then 1 else 0]
    case Byte(v) => [Ascii('b'), v]
    case Int16(v) => [Ascii('s')] + Signed2(v, 2)
    case Int32(v) => [Ascii('I')] + Signed2(v, 4)
    case Int64(v) => [Ascii('l')] + Signed2(v, 8)
    case Float32(n) => [Ascii('f')] + Put(n, 4)
    case Float64(n) => [Ascii('d')] + Put(n, 8)
    case Decimal(scale, v) => [Ascii('D'), scale] + Signed2(v, 4)
    case Str(b) => [Ascii('S')] + (Put(|b|, 4) + b)
    case Time(v) => [Ascii('T')] + Signed2(v, 8)
    case Blob(b) => [Ascii('x')] + (Put(|b|, 4) + b)
    case Nil => [Ascii('V')]
  }

  lemma OneOctet(n: nat)
    ensures n < 256 ==> Put(n, 1) == [n]
  {
    assert Put(n / 256, 0) == [];
  }

  /** Every value that holds no others is read from its letter and octets, and so what the writer
      writes for it is just these. */
  lemma ScalarsOnWire(f: Field)
    requires !f.Array? && !f.Tab? && Fits(f)
    ensures FieldDecodes(ScalarWire(f), f)
  {
    hide FieldDecodes, ScalarWire, ScalarBytes;
    ScalarField(f);
    WireIs(f);
  }

  lemma WireIs(f: Field)
    requires !f.Array? && !f.Tab? && Fits(f)
    ensures ScalarWire(f) == [TypeOctet(f)] + ScalarBytes(f)
  {
    if f.Bool? {
      OneOctet(if f.flag then 1 else 0);
    } else if f.Byte? {
      OneOctet(f.octet);
    } else if f.Decimal? {
      assert ScalarWire(f) == [DECIMAL] + ([f.scale] + Put(Unsigned(f.value, 4), 4));
    } else if f.Nil? {
      assert [NIL] + [] == [NIL];
    }
  }

  /** Arrays and tables: a letter, the length of what is inside, and that. */
  lemma ContainersOnWire(b: Bytes, items: seq<Field>, t: Table)
    requires |b| < Pow256(4)
    ensures ItemsDecode(b, items) ==> FieldDecodes([Ascii('A')] + (Put(|b|, 4) + b), Array(items))
    ensures EntriesDecode(b, t) ==> FieldDecodes([Ascii('F')] + (Put(|b|, 4) + b), Tab(t))
  {
    hide ItemsDecode, EntriesDecode, FieldDecodes, TableDecodes;
    if ItemsDecode(b, items) {
      ArrayField(b, items);
    }
    if EntriesDecode(b, t) {
      TableCloses(b, t);
      TableField(WriteString(b, 4), t);
      assert b[..|b|] == b;
    }
  }

  /** What the writer never writes: any octet but 0 is true; a byte array whose length has its
      highest bit set is a panic; a letter that is none of those above is a syntax error. */
  lemma OddOnWire(o: Octet, n: nat, s: Bytes)
    ensures ReadField([Ascii('t'), o] + s) == Got(Bool(o != 0), s)
    ensures n < Pow256(4) <= 2 * n ==> ReadField([Ascii('x')] + (Put(n, 4) + s)) == Failed(Panic, s)
    ensures o !in {65, 68, 70, 73, 83, 84, 86, 98, 100, 102, 108, 115, 116, 120} ==>
      ReadField([o] + s) == Failed(Syntax, s)
  {
    OneOctet(o);
    Pow256Values();
    ReadPut(o, 1, s);
    assert [Ascii('t'), o] + s == [Ascii('t')] + (Put(o, 1) + s);
    FirstOctet(Ascii('t'), Put(o, 1) + s);
    if n < Pow256(4) <= 2 * n {
      ReadPut(n, 4, s);
      FirstOctet(Ascii('x'), Put(n, 4) + s);
    }
    FirstOctet(o, s);
  }

  lemma FirstOctet(o: Octet, s: Bytes)
    ensures ReadField([o] + s) == ReadTyped(o, s)
  {
    assert ([o] + s)[..1] == [o] && ([o] + s)[1..] == s;
  }

  // ---------------------------------------------------------------- frames

  /** A frame: type, channel, length, payload, 0xCE. */
  function FrameWire(f: Frame, payload: Bytes): Bytes {
    var typ: Octet :=
      match f
      case MethodFrame(_, _, _, _) => 1
      case HeaderFrame(_, _, _, _, _) => 2
      case BodyFrame(_, _) => 3
      case HeartbeatFrame(_) => 8;
    [typ] + Put(f.channel, 2) + Put(|payload|, 4) + payload + [0xCE]
  }

  lemma FramesOnWire(schema: Schema, f: Frame, payload: Bytes)
    requires f.channel < Pow256(2) && PayloadDecodes(schema, f, payload)
    ensures FrameDecodes(schema, f, FrameWire(f, payload))
  {
    assert FrameWire(f, payload) == Envelope(f, payload);
    forall suffix: Bytes ensures ReadFrame(schema, FrameWire(f, payload) + suffix) == Got(f, suffix) {
      EnvelopeDecodes(schema, f, payload, suffix);
    }
  }

  /** Whatever octets come in, a frame is taken from them only if 0xCE is behind its payload and it
      is of the type and channel named in front; a body has the length given there, a heartbeat
      none, and a method is one of the schema. */
  lemma FrameIsChecked(schema: Schema, s: Bytes)
    requires ReadFrame(schema, s).Got?
    ensures var f, rest := ReadFrame(schema, s).value, ReadFrame(schema, s).rest;
            && |s| >= 8 && ReadPayload(schema, s[0], Value(s[1..3]), Value(s[3..7]), s[7..]) == Got(f, [0xCE] + rest)
            && s[0] == FrameWire(f, [])[0] && f.channel == Value(s[1..3])
            && (f.BodyFrame? ==> |f.body| == Value(s[3..7]) && s[7..] == f.body + ([0xCE] + rest))
            && (f.HeartbeatFrame? ==> Value(s[3..7]) == 0 && s[7..] == [0xCE] + rest)
            && (f.MethodFrame? ==> (f.classId, f.methodId) in schema)
  {
    hide ReadPayload;
    var h, s1 := ReadFull(s, 7).value, ReadFull(s, 7).rest;
    assert h[1..3] == s[1..3] && h[3..7] == s[3..7] && s1 == s[7..];
    GetInOrder(s[1..3]);
    GetInOrder(s[3..7]);
    var p := ReadPayload(schema, s[0], Value(s[1..3]), Value(s[3..7]), s1);
    PayloadIs(schema, s[0], Value(s[1..3]), Value(s[3..7]), s1);
    var end := ReadFull(p.rest, 1);
    assert p.rest == end.value + end.rest && end.value == [end.value[0]];
  }

  lemma {:induction false} GetInOrder(b: Bytes)
    ensures Get(b) == Value(b)
  {
    if b != [] {
      GetInOrder(b[..|b| - 1]);
      ValueLast(b);
    }
  }

  lemma PayloadIs(schema: Schema, typ: Octet, channel: nat, size: nat, s: Bytes)
    requires ReadPayload(schema, typ, channel, size, s).Got?
    ensures var f, rest := ReadPayload(schema, typ, channel, size, s).value,
                           ReadPayload(schema, typ, channel, size, s).rest;
            && f.channel == channel && FrameWire(f, [])[0] == typ
            && (f.BodyFrame? ==> |f.body| == size && s == f.body + rest)
            && (f.HeartbeatFrame? ==> size == 0 && s == rest)
            && (f.MethodFrame? ==> (f.classId, f.methodId) in schema)
  {
    hide ReadProps, ReadSets, Group;
  }

  /** Property flags go from the highest bit down, in the order of the values. */
  lemma PropertiesOnWire()
    ensures |PROPERTIES| == 14 && forall i :: 0 <= i < 14 ==> PROPERTIES[i].bit == 15 - i
    ensures forall i :: 0 <= i < 14 ==>
      PROPERTIES[i].kind ==
        if i == 2 then KTable else if i == 3 || i == 4 then KOctet else if i == 9 then KTimestamp else KShortstr
  {
  }

  /** A timestamp that is not there is the zero time, the first second of the year 1, not 1970:
      between them are the days of 1969 years. */
  lemma NoTimestamp()
    ensures Zero(KTimestamp) == VTime(-(1969 * 365 + 1969 / 4 - 1969 / 100 + 1969 / 400) * 24 * 60 * 60)
  {
  }

  // ---------------------------------------------------------------- methods

  /** The widths of the numbers among the arguments: octet, short, long, longlong, timestamp. */
  lemma NumbersOnWire(n: nat, suffix: Bytes)
    ensures n < Pow256(1) ==> ReadVal(KOctet, Put(n, 1) + suffix) == Got(VNum(n), suffix)
    ensures n < Pow256(2) ==> ReadVal(KShort, Put(n, 2) + suffix) == Got(VNum(n), suffix)
    ensures n < Pow256(4) ==> ReadVal(KLong, Put(n, 4) + suffix) == Got(VNum(n), suffix)
    ensures n < Pow256(8) ==> ReadVal(KLonglong, Put(n, 8) + suffix) == Got(VNum(n), suffix)
    ensures 2 * n < Pow256(8) ==> ReadVal(KTimestamp, Put(n, 8) + suffix) == Got(VTime(n), suffix)
  {
    if n < Pow256(1) {
      ReadPut(n, 1, suffix);
    }
    if n < Pow256(2) {
      ReadPut(n, 2, suffix);
    }
    if n < Pow256(4) {
      ReadPut(n, 4, suffix);
    }
    if n < Pow256(8) {
      ReadPut(n, 8, suffix);
    }
  }

  /** basic.ack: 60, 80, the tag in eight octets, the flag in the lowest bit of one more. */
  lemma AckOnWire(channel: nat, tag: nat, multiple: bool, suffix: Bytes)
    requires tag < Pow256(8)
    ensures ReadMethod(SCHEMA_091, channel, [0, 60, 0, 80] + (Put(tag, 8) + ([if multiple then 1 else 0] + suffix)))
         == Got(MethodFrame(channel, 60, 80, [VNum(tag), VBit(multiple)]), suffix)
  {
    var bits: Octet := if multiple then 1 else 0;
    var s2 := Put(tag, 8) + ([bits] + suffix);
    TwoIds(60, 80, s2);
    AckRuns();
    ReadPut(tag, 8, [bits] + suffix);
    OneOctet(bits);
    Pow256Values();
    ReadPut(bits, 1, suffix);
    AckArgs(tag, bits, multiple, suffix);
  }

  lemma TwoIds(c: nat, m: nat, rest: Bytes)
    requires c < 256 && m < 256
    ensures var s := [0, c, 0, m] + rest;
            && ReadUint(s, 2) == Got(c, [0, m] + rest) && ReadUint([0, m] + rest, 2) == Got(m, rest)
  {
    Pow256Values();
    OneOctet(c);
    OneOctet(m);
    assert Put(0, 1) == [0] by { OneOctet(0); }
    assert Put(c, 2) == [0, c] && Put(m, 2) == [0, m];
    assert [0, c, 0, m] + rest == Put(c, 2) + ([0, m] + rest);
    ReadPut(c, 2, [0, m] + rest);
    ReadPut(m, 2, rest);
  }

  lemma AckRuns()
    ensures Group(BASIC_ACK) == [Fieldset(KLonglong, BASIC_ACK[0..1]), Fieldset(KBit, BASIC_ACK[1..2])]
  {
    var f := [Fieldset(KLonglong, BASIC_ACK[0..1]), Fieldset(KBit, BASIC_ACK[1..2])];
    FlattenFirst(f);
    FlattenFirst(f[1..]);
    assert Flatten(f) == BASIC_ACK;
    RunsUnique(f);
  }

  lemma AckArgs(tag: nat, bits: Octet, multiple: bool, suffix: Bytes)
    requires ReadUint(Put(tag, 8) + ([bits] + suffix), 8) == Got(tag, [bits] + suffix)
    requires ReadUint([bits] + suffix, 1) == Got(bits, suffix) && bits == if multiple then 1 else 0
    ensures var f := [Fieldset(KLonglong, BASIC_ACK[0..1]), Fieldset(KBit, BASIC_ACK[1..2])];
            ReadSets(f, Put(tag, 8) + ([bits] + suffix), []) == Got([VNum(tag), VBit(multiple)], suffix)
  {
    var f := [Fieldset(KLonglong, BASIC_ACK[0..1]), Fieldset(KBit, BASIC_ACK[1..2])];
    var none: seq<Val> := [];
    assert none + [VNum(tag)] == [VNum(tag)];
    assert ReadRun(KLonglong, 0, [bits] + suffix, [VNum(tag)]) == Got([VNum(tag)], [bits] + suffix);
    assert ReadRun(KLonglong, 1, Put(tag, 8) + ([bits] + suffix), none) == Got([VNum(tag)], [bits] + suffix);
    assert BitsOf(bits, 0) == none && none + [VBit(Bit(bits, 0))] == [VBit(multiple)];
    assert BitsOf(bits, 1) == [VBit(multiple)];
    assert f[1..][1..] == [] && f[1..][0] == f[1];
    assert [VNum(tag)] + [VBit(multiple)] == [VNum(tag), VBit(multiple)];
    assert ReadSets([], suffix, [VNum(tag), VBit(multiple)]) == Got([VNum(tag), VBit(multiple)], suffix);
    assert ReadSets(f[1..], [bits] + suffix, [VNum(tag)]) == Got([VNum(tag), VBit(multiple)], suffix);
  }
}
