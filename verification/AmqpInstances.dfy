/** Four of the generated methods (spec091.go) as instances of the schema codec. */
module AmqpInstances {
  import opened Basics
  import opened Octets
  import opened AmqpSchema
  import opened AmqpFrames

  /** exchange.declare, basic.publish, basic.deliver and basic.ack as spec091.go has them. */
  const EXCHANGE_DECLARE: seq<SpecField> := [
    SpecField("reserved1", KShort), SpecField("Exchange", KShortstr), SpecField("Type", KShortstr),
    SpecField("Passive", KBit), SpecField("Durable", KBit), SpecField("AutoDelete", KBit),
    SpecField("Internal", KBit), SpecField("NoWait", KBit), SpecField("Arguments", KTable)
  ]
  const BASIC_PUBLISH: seq<SpecField> := [
    SpecField("reserved1", KShort), SpecField("Exchange", KShortstr), SpecField("RoutingKey", KShortstr),
    SpecField("Mandatory", KBit), SpecField("Immediate", KBit)
  ]
  const BASIC_DELIVER: seq<SpecField> := [
    SpecField("ConsumerTag", KShortstr), SpecField("DeliveryTag", KLonglong), SpecField("Redelivered", KBit),
    SpecField("Exchange", KShortstr), SpecField("RoutingKey", KShortstr)
  ]
  const BASIC_ACK: seq<SpecField> := [SpecField("DeliveryTag", KLonglong), SpecField("Multiple", KBit)]

  /** Their bits fit the shared octet, so the codec applies to them. */
  lemma InstancesFit()
    ensures OneOctetOfBits(Group(EXCHANGE_DECLARE))
    ensures OneOctetOfBits(Group(BASIC_PUBLISH))
    ensures OneOctetOfBits(Group(BASIC_DELIVER))
    ensures OneOctetOfBits(Group(BASIC_ACK))
  {
    DeclareFits();
    PublishFits();
    DeliverFits();
    AckFits();
  }

  lemma DeclareFits()
    ensures OneOctetOfBits(Group(EXCHANGE_DECLARE))
  {
    var f := EXCHANGE_DECLARE;
    assert f == f[0..1] + f[1..3] + f[3..8] + f[8..9];
    RunsFit(Slice(f, KShort, 0, 1), Slice(f, KShortstr, 1, 3), Slice(f, KBit, 3, 8), [Slice(f, KTable, 8, 9)], f);
  }

  lemma PublishFits()
    ensures OneOctetOfBits(Group(BASIC_PUBLISH))
  {
    var f := BASIC_PUBLISH;
    assert f == f[0..1] + f[1..3] + f[3..5] + [];
    RunsFit(Slice(f, KShort, 0, 1), Slice(f, KShortstr, 1, 3), Slice(f, KBit, 3, 5), [], f);
  }

  lemma DeliverFits()
    ensures OneOctetOfBits(Group(BASIC_DELIVER))
  {
    var f := BASIC_DELIVER;
    assert f == f[0..1] + f[1..2] + f[2..3] + f[3..5];
    RunsFit(Slice(f, KShortstr, 0, 1), Slice(f, KLonglong, 1, 2), Slice(f, KBit, 2, 3), [Slice(f, KShortstr, 3, 5)], f);
  }

  /** Fields i to j as a run. */
  function Slice(fields: seq<SpecField>, k: Kind, i: nat, j: nat): (run: Fieldset)
    requires i < j <= |fields| && forall m :: i <= m < j ==> fields[m].kind == k
    ensures Uniform(run) && run.kind == k && run.fields == fields[i..j]
  {
    Fieldset(k, fields[i..j])
  }

  lemma FlattenCons(x: Fieldset, g: seq<Fieldset>)
    ensures Flatten([x] + g) == x.fields + Flatten(g)
    ensures BitRuns([x] + g) == (if x.kind == KBit then 1 else 0) + BitRuns(g)
  {
    FlattenFirst([x] + g);
    assert ([x] + g)[1..] == g;
  }

  lemma FlattenFour(a: Fieldset, b: Fieldset, c: Fieldset, d: seq<Fieldset>)
    requires |d| <= 1
    ensures Flatten([a, b, c] + d) == a.fields + b.fields + c.fields + if d == [] then [] else d[0].fields
    ensures BitRuns([a, b, c] + d) == BitRuns([a]) + BitRuns([b]) + BitRuns([c]) + BitRuns(d)
  {
    assert [a, b, c] + d == [a] + ([b] + ([c] + d));
    FlattenCons(a, [b] + ([c] + d));
    FlattenCons(b, [c] + d);
    FlattenCons(c, d);
    if d != [] {
      assert d == [d[0]] + [];
      FlattenCons(d[0], []);
      assert d[0].fields + [] == d[0].fields;
    }
    Concat3(a.fields, b.fields, c.fields + Flatten(d));
    Concat3(a.fields + b.fields, c.fields, Flatten(d));
  }

  lemma RunsFit(a: Fieldset, b: Fieldset, c: Fieldset, d: seq<Fieldset>, fields: seq<SpecField>)
    requires Uniform(a) && Uniform(b) && Uniform(c) && a.kind != b.kind && b.kind != c.kind
    requires |d| <= 1 && (d != [] ==> Uniform(d[0]) && d[0].kind != c.kind)
    requires a.kind != KBit && b.kind != KBit && c.kind == KBit && |c.fields| <= 8
    requires fields == a.fields + b.fields + c.fields + if d == [] then [] else d[0].fields
    ensures OneOctetOfBits(Group(fields))
  {
    FlattenFour(a, b, c, d);
    RunsUnique([a, b, c] + d);
  }

  lemma AckFits()
    ensures OneOctetOfBits(Group(BASIC_ACK))
  {
    var f := [Fieldset(KLonglong, BASIC_ACK[0..1]), Fieldset(KBit, BASIC_ACK[1..2])];
    FlattenFirst(f);
    FlattenFirst(f[1..]);
    assert Flatten(f) == BASIC_ACK;
    RunsUnique(f);
    assert BitRuns(f[1..]) == 1;
  }

  /** Their ids, as the generated `id` methods give them. */
  const SCHEMA_091: Schema := map[
    (40, 10) := EXCHANGE_DECLARE, (60, 40) := BASIC_PUBLISH, (60, 60) := BASIC_DELIVER, (60, 80) := BASIC_ACK
  ]

  /** Any of the four methods with arguments of its types is read back from its frame. */
  method WriteInstance(channel: nat, classId: nat, methodId: nat, args: seq<Val>) returns (b: Bytes)
    requires channel < Pow256(2) && (classId, methodId) in SCHEMA_091
    requires WellTyped(SCHEMA_091[(classId, methodId)], args)
    ensures FrameDecodes(SCHEMA_091, MethodFrame(channel, classId, methodId, args), b)
  {
    InstancesFit();
    Pow256Values();
    b := WriteFrame(SCHEMA_091, MethodFrame(channel, classId, methodId, args));
  }
}
