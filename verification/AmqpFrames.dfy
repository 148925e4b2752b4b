/** Frames: method, content header, body and heartbeat, written by write.go and
    read by read.go (sections 4.2.3 and 4.2.6 of AMQP 0-9-1). */
module AmqpFrames {
  import opened Basics
  import opened Octets
  import opened AmqpFields
  import opened AmqpSchema

  const FRAME_METHOD: Octet := 1
  const FRAME_HEADER: Octet := 2
  const FRAME_BODY: Octet := 3
  const FRAME_HEARTBEAT: Octet := 8
  const FRAME_END: Octet := 206

  /** The arguments of a method by (class id, method id). */
  type Schema = map<(nat, nat), seq<SpecField>>

  datatype Frame =
    | MethodFrame(channel: nat, classId: nat, methodId: nat, args: seq<Val>)
    | HeaderFrame(channel: nat, classId: nat, weight: nat, size: nat, props: seq<Val>)
    | BodyFrame(channel: nat, body: Bytes)
    | HeartbeatFrame(channel: nat)

  // ---------------------------------------------------------------- property lists

  /** A property: its bit in the flag word and its type. */
  datatype Prop = Prop(bit: nat, kind: Kind)

  /** A property list the codec handles: distinct bits of the flag word, no bit fields.
      The last one is read but never written. */
  predicate PropList(ps: seq<Prop>) {
    && |ps| > 0
    && (forall i :: 0 <= i < |ps| ==> ps[i].bit < 16 && ps[i].kind != KBit)
    && (forall i, j :: 0 <= i < j < |ps| ==> ps[i].bit != ps[j].bit)
  }

  type PropSeq = ps: seq<Prop> | PropList(ps) witness [Prop(0, KOctet)]

  /** Flags 0x8000 (content type) down to 0x0004 (reserved1), in the order both passes use. */
  const PROPERTIES: PropSeq := [
    Prop(15, KShortstr),  // content type
    Prop(14, KShortstr),  // content encoding
    Prop(13, KTable),     // headers
    Prop(12, KOctet),     // delivery mode
    Prop(11, KOctet),     // priority
    Prop(10, KShortstr),  // correlation id
    Prop(9, KShortstr),   // reply to
    Prop(8, KShortstr),   // expiration
    Prop(7, KShortstr),   // message id
    Prop(6, KTimestamp),  // timestamp
    Prop(5, KShortstr),   // type
    Prop(4, KShortstr),   // user id
    Prop(3, KShortstr),   // app id
    Prop(2, KShortstr)    // reserved1: read, never written
  ]

  /** `time.Time{}` in seconds since 1970. */
  const ZERO_TIME: int := -62135596800

  function Zero(k: Kind): Val {
    match k
    case KBit => VBit(false)
    case KTimestamp => VTime(ZERO_TIME)
    case KShortstr => VStr([])
    case KLongstr => VStr([])
    case KTable => VTab(map[])
    case _ => VNum(0)
  }

  /** Values that can be written: of the right kind each, the last one empty. */
  ghost predicate Writable(ps: PropSeq, props: seq<Val>) {
    && |props| == |ps|
    && (forall i :: 0 <= i < |props| ==> HasKind(ps[i].kind, props[i]))
    && props[|ps| - 1] == Zero(ps[|ps| - 1].kind)
  }

  /** The flags set are those of the first n properties that have a value. */
  ghost predicate Masks(ps: PropSeq, mask: nat, props: seq<Val>, n: nat)
    requires |props| == |ps|
  {
    forall i :: 0 <= i < |ps| ==> Bit(mask, ps[i].bit) == (i < n && props[i] != Zero(ps[i].kind))
  }

  /** A flag that belongs to no property is not set. */
  ghost predicate NoOtherFlag(ps: PropSeq, mask: nat) {
    forall b: nat :: b < 16 && Bit(mask, b) ==> exists i :: 0 <= i < |ps| && ps[i].bit == b
  }

  lemma OtherFlags(ps: PropSeq, mask: nat, n: nat)
    requires n < |ps| && NoOtherFlag(ps, mask)
    ensures NoOtherFlag(ps, SetBit(mask, ps[n].bit))
  {
    forall b: nat | b < 16 && Bit(SetBit(mask, ps[n].bit), b) ensures exists i :: 0 <= i < |ps| && ps[i].bit == b {
      SetBitBits(mask, ps[n].bit, b);
    }
  }

  lemma MaskStep(ps: PropSeq, mask: nat, props: seq<Val>, n: nat)
    requires |props| == |ps| && n < |ps| && mask < 65536 && Masks(ps, mask, props, n)
    requires props[n] != Zero(ps[n].kind)
    ensures SetBit(mask, ps[n].bit) < 65536
    ensures Masks(ps, SetBit(mask, ps[n].bit), props, n + 1)
  {
    forall i | 0 <= i < |ps|
      ensures Bit(SetBit(mask, ps[n].bit), ps[i].bit) == (i < n + 1 && props[i] != Zero(ps[i].kind))
    {
      SetBitBits(mask, ps[n].bit, ps[i].bit);
    }
    Pow2Values();
    SetBitBound(mask, ps[n].bit, 16);
  }

  /** First pass: the flag of every property that has a value. */
  method BuildMask(ps: PropSeq, props: seq<Val>) returns (mask: nat)
    requires Writable(ps, props)
    ensures mask < 65536 && NoOtherFlag(ps, mask)
    ensures Masks(ps, mask, props, |ps|)
  {
    mask := 0;
    forall b: nat | b < 16 ensures !Bit(0, b) {
      ZeroBits(b);
    }
    forall i | 0 <= i < |ps|
      ensures !Bit(0, ps[i].bit)
    {
      ZeroBits(ps[i].bit);
    }
    for n := 0 to |ps| - 1
      invariant mask < 65536 && NoOtherFlag(ps, mask)
      invariant Masks(ps, mask, props, n)
    {
      if props[n] != Zero(ps[n].kind) {
        OtherFlags(ps, mask, n);
        MaskStep(ps, mask, props, n);
        mask := SetBit(mask, ps[n].bit);
      }
    }
  }

  /** `parseHeaderFrame` from the flags on: the properties from position |before| on. */
  function ReadProps(ps: PropSeq, flags: nat, s: Bytes, before: seq<Val>): (r: Read<seq<Val>>)
    requires |before| <= |ps|
    ensures |r.rest| <= |s|
    decreases |ps| - |before|
  {
    if |before| == |ps| then Got(before, s)
    else
      var p := ps[|before|];
      if !Bit(flags, p.bit) then ReadProps(ps, flags, s, before + [Zero(p.kind)])
      else
        match ReadVal(p.kind, s)
        case Failed(e, rest) => Failed(e, rest)
        case Got(v, s1) => ReadProps(ps, flags, s1, before + [v])
  }

  ghost predicate PropsStarted(ps: PropSeq, flags: nat, done: seq<Val>, b: Bytes)
    requires |done| <= |ps|
  {
    forall suffix: Bytes :: ReadProps(ps, flags, b + suffix, []) == ReadProps(ps, flags, suffix, done)
  }

  lemma PropsStart(ps: PropSeq, flags: nat)
    ensures PropsStarted(ps, flags, [], [])
  {
    forall suffix: Bytes
      ensures ReadProps(ps, flags, [] + suffix, []) == ReadProps(ps, flags, suffix, [])
    {
      assert [] + suffix == suffix;
    }
  }

  lemma PropsAppendAt(ps: PropSeq, flags: nat, props: seq<Val>, n: nat, b: Bytes, c: Bytes, suffix: Bytes)
    requires n < |ps| == |props|
    requires ReadProps(ps, flags, b + (c + suffix), []) == ReadProps(ps, flags, c + suffix, props[..n])
    requires Bit(flags, ps[n].bit) ==> ReadVal(ps[n].kind, c + suffix) == Got(props[n], suffix)
    requires !Bit(flags, ps[n].bit) ==> c == [] && props[n] == Zero(ps[n].kind)
    ensures ReadProps(ps, flags, b + c + suffix, []) == ReadProps(ps, flags, suffix, props[..n + 1])
  {
    Concat3(b, c, suffix);
    assert props[..n + 1] == props[..n] + [props[n]];
    assert c == [] ==> c + suffix == suffix;
  }

  lemma PropsAppend(ps: PropSeq, flags: nat, props: seq<Val>, n: nat, b: Bytes, c: Bytes)
    requires n < |ps| == |props| && PropsStarted(ps, flags, props[..n], b)
    requires Bit(flags, ps[n].bit) ==> ValDecodes(ps[n].kind, c, props[n])
    requires !Bit(flags, ps[n].bit) ==> c == [] && props[n] == Zero(ps[n].kind)
    ensures PropsStarted(ps, flags, props[..n + 1], b + c)
  {
    forall suffix: Bytes
      ensures ReadProps(ps, flags, b + c + suffix, []) == ReadProps(ps, flags, suffix, props[..n + 1])
    {
      PropsAppendAt(ps, flags, props, n, b, c, suffix);
    }
  }

  /** Second pass: the values of the properties whose flag is set. */
  method WriteProps(ps: PropSeq, props: seq<Val>, mask: nat) returns (b: Bytes)
    requires Writable(ps, props) && Masks(ps, mask, props, |ps|)
    ensures PropsStarted(ps, mask, props, b)
  {
    b := [];
    PropsStart(ps, mask);
    assert props[..0] == [];
    for n := 0 to |ps|
      invariant PropsStarted(ps, mask, props[..n], b)
    {
      var c: Bytes := [];
      if Bit(mask, ps[n].bit) {
        c := WriteVal(ps[n].kind, props[n]);
      }
      PropsAppend(ps, mask, props, n, b, c);
      b := b + c;
    }
    assert props[..|ps|] == props;
  }

  // ---------------------------------------------------------------- payloads

  /** `parseHeaderFrame`. */
  function ReadHeader(channel: nat, s: Bytes): (r: Read<Frame>)
    ensures |r.rest| <= |s|
  {
    match ReadUint(s, 2)
    case Failed(e, rest) => Failed(e, rest)
    case Got(classId, s1) =>
      match ReadUint(s1, 2)
      case Failed(e, rest) => Failed(e, rest)
      case Got(weight, s2) =>
        match ReadUint(s2, 8)
        case Failed(e, rest) => Failed(e, rest)
        case Got(size, s3) =>
          match ReadUint(s3, 2)
          case Failed(e, rest) => Failed(e, rest)
          case Got(flags, s4) =>
            MapRead(ReadProps(PROPERTIES, flags, s4, []),
                    (p: seq<Val>) => HeaderFrame(channel, classId, weight, size, p))
  }

  /** `parseMethodFrame`: dispatch on class and method, then the method's `read`. */
  function ReadMethod(schema: Schema, channel: nat, s: Bytes): (r: Read<Frame>)
    ensures |r.rest| <= |s|
  {
    match ReadUint(s, 2)
    case Failed(e, rest) => Failed(e, rest)
    case Got(classId, s1) =>
      match ReadUint(s1, 2)
      case Failed(e, rest) => Failed(e, rest)
      case Got(methodId, s2) =>
        if (classId, methodId) !in schema then Failed(UnknownMethod, s2)
        else MapRead(ReadSets(Group(schema[(classId, methodId)]), s2, []),
                     (args: seq<Val>) => MethodFrame(channel, classId, methodId, args))
  }

  /** Dispatch of `ReadFrame` on the frame type. */
  function ReadPayload(schema: Schema, typ: Octet, channel: nat, size: nat, s: Bytes): (r: Read<Frame>)
    ensures |r.rest| <= |s|
  {
    if typ == FRAME_METHOD then ReadMethod(schema, channel, s)
    else if typ == FRAME_HEADER then ReadHeader(channel, s)
    else if typ == FRAME_BODY then MapRead(ReadFull(s, size), (b: Bytes) => BodyFrame(channel, b))
    else if typ == FRAME_HEARTBEAT then
      if size > 0 then Failed(HeartbeatPayload, s) else Got(HeartbeatFrame(channel), s)
    else Failed(BadFrame, s)
  }

  /** `ReadFrame`: seven octets, the payload by type, the end octet. The size only
      bounds body and heartbeat frames; methods and headers are read by their structure. */
  function ReadFrame(schema: Schema, s: Bytes): (r: Read<Frame>)
    ensures r.Got? ==> |r.rest| < |s|
  {
    match ReadFull(s, 7)
    case Failed(e, rest) => Failed(e, rest)
    case Got(h, s1) =>
      match ReadPayload(schema, h[0], Get(h[1..3]), Get(h[3..7]), s1)
      case Failed(e, rest) => Failed(e, rest)
      case Got(frame, s2) =>
        match ReadFull(s2, 1)
        case Failed(e, rest) => Failed(e, rest)
        case Got(end, s3) => if end[0] != FRAME_END then Failed(BadFrame, s3) else Got(frame, s3)
  }

  /** The reader loop: frames until one fails. */
  function ReadFrames(schema: Schema, s: Bytes): (r: (seq<Frame>, ReadError))
    decreases |s|
  {
    match ReadFrame(schema, s)
    case Failed(e, _) => ([], e)
    case Got(f, rest) => var (more, e) := ReadFrames(schema, rest); ([f] + more, e)
  }

  // ---------------------------------------------------------------- writing

  /** The frames that fit the wire format under a schema. */
  ghost predicate Sendable(schema: Schema, f: Frame) {
    f.channel < Pow256(2) &&
    match f
    case MethodFrame(_, c, m, args) =>
      && c < Pow256(2) && m < Pow256(2) && (c, m) in schema
      && WellTyped(schema[(c, m)], args) && OneOctetOfBits(Group(schema[(c, m)]))
    case HeaderFrame(_, c, w, size, props) =>
      c < Pow256(2) && w < Pow256(2) && size < Pow256(8) && Writable(PROPERTIES, props)
    case BodyFrame(_, body) => |body| < Pow256(4)
    case HeartbeatFrame(_) => true
  }

  function FrameType(f: Frame): Octet {
    match f
    case MethodFrame(_, _, _, _) => FRAME_METHOD
    case HeaderFrame(_, _, _, _, _) => FRAME_HEADER
    case BodyFrame(_, _) => FRAME_BODY
    case HeartbeatFrame(_) => FRAME_HEARTBEAT
  }

  /** What a length looks like after the cast to 32 bits in the frame header. */
  function Low(n: nat): nat {
    Get(Put(n, 4))
  }

  /** Under any suffix, the payload b is read as the frame f. */
  ghost predicate PayloadDecodes(schema: Schema, f: Frame, b: Bytes) {
    forall suffix: Bytes ::
      ReadPayload(schema, FrameType(f), f.channel, Low(|b|), b + suffix) == Got(f, suffix)
  }

  ghost predicate FrameDecodes(schema: Schema, f: Frame, b: Bytes) {
    forall suffix: Bytes :: ReadFrame(schema, b + suffix) == Got(f, suffix)
  }

  lemma MethodDecodes(schema: Schema, f: Frame, b: Bytes, suffix: Bytes)
    requires f.MethodFrame? && Sendable(schema, f)
    requires SetsDecode(Group(schema[(f.classId, f.methodId)]), f.args, b)
    ensures ReadMethod(schema, f.channel, Put(f.classId, 2) + Put(f.methodId, 2) + b + suffix) == Got(f, suffix)
  {
    var c, m := Put(f.classId, 2), Put(f.methodId, 2);
    Concat4(c, m, b, suffix);
    ReadPut(f.classId, 2, m + (b + suffix));
    ReadPut(f.methodId, 2, b + suffix);
    assert ReadSets(Group(schema[(f.classId, f.methodId)]), b + suffix, []) == Got([] + f.args, suffix);
    assert [] + f.args == f.args;
  }

  lemma HeaderDecodes(f: Frame, mask: nat, b: Bytes, suffix: Bytes)
    requires f.HeaderFrame? && f.classId < Pow256(2) && f.weight < Pow256(2) && f.size < Pow256(8)
    requires mask < Pow256(2) && |f.props| == |PROPERTIES| && PropsStarted(PROPERTIES, mask, f.props, b)
    ensures ReadHeader(f.channel, Put(f.classId, 2) + Put(f.weight, 2) + Put(f.size, 8) + Put(mask, 2) + b + suffix)
         == Got(f, suffix)
  {
    var c, w, n, k := Put(f.classId, 2), Put(f.weight, 2), Put(f.size, 8), Put(mask, 2);
    Concat6(c, w, n, k, b, suffix);
    ReadPut(f.classId, 2, w + (n + (k + (b + suffix))));
    ReadPut(f.weight, 2, n + (k + (b + suffix)));
    ReadPut(f.size, 8, k + (b + suffix));
    ReadPut(mask, 2, b + suffix);
    assert ReadProps(PROPERTIES, mask, b + suffix, []) == ReadProps(PROPERTIES, mask, suffix, f.props);
  }

  lemma BodyDecodes(schema: Schema, channel: nat, b: Bytes, suffix: Bytes)
    ensures ReadPayload(schema, FRAME_BODY, channel, |b|, b + suffix) == Got(BodyFrame(channel, b), suffix)
  {
    assert (b + suffix)[..|b|] == b && (b + suffix)[|b|..] == suffix;
  }

  /** The payload of `methodFrame.write`, `headerFrame.write`, `bodyFrame.write` and
      `heartbeatFrame.write`. */
  method WritePayload(schema: Schema, f: Frame) returns (b: Bytes)
    requires Sendable(schema, f)
    ensures PayloadDecodes(schema, f, b)
    ensures f.BodyFrame? ==> b == f.body
  {
    match f
    case MethodFrame(_, c, m, args) =>
      var a := WriteArgs(schema[(c, m)], args);
      b := Put(c, 2) + Put(m, 2) + a;
      forall suffix: Bytes
        ensures ReadPayload(schema, FRAME_METHOD, f.channel, Low(|b|), b + suffix) == Got(f, suffix)
      {
        MethodDecodes(schema, f, a, suffix);
      }
    case HeaderFrame(_, c, w, size, props) =>
      var mask := BuildMask(PROPERTIES, props);
      var p := WriteProps(PROPERTIES, props, mask);
      b := Put(c, 2) + Put(w, 2) + Put(size, 8) + Put(mask, 2) + p;
      Pow256Values();
      forall suffix: Bytes
        ensures ReadPayload(schema, FRAME_HEADER, f.channel, Low(|b|), b + suffix) == Got(f, suffix)
      {
        HeaderDecodes(f, mask, p, suffix);
      }
    case BodyFrame(_, body) =>
      b := body;
      forall suffix: Bytes
        ensures ReadPayload(schema, FRAME_BODY, f.channel, Low(|b|), b + suffix) == Got(f, suffix)
      {
        GetPut(|b|, 4);
        BodyDecodes(schema, f.channel, b, suffix);
      }
    case HeartbeatFrame(_) =>
      b := [];
      forall suffix: Bytes
        ensures ReadPayload(schema, FRAME_HEARTBEAT, f.channel, Low(|b|), b + suffix) == Got(f, suffix)
      {
        GetPut(0, 4);
        assert b + suffix == suffix;
      }
  }

  /** `writeFrame` around the payload. */
  function Envelope(f: Frame, payload: Bytes): (b: Bytes)
    ensures |b| == |payload| + 8
  {
    [FrameType(f)] + Put(f.channel, 2) + Put(|payload|, 4) + payload + [FRAME_END]
  }

  lemma EnvelopeShape(typ: Octet, c: Bytes, n: Bytes, payload: Bytes, suffix: Bytes)
    requires |c| == 2 && |n| == 4
    ensures var s := [typ] + c + n + payload + [FRAME_END] + suffix;
            var h := [typ] + c + n;
            && ReadFull(s, 7) == Got(h, payload + ([FRAME_END] + suffix))
            && h[0] == typ && h[1..3] == c && h[3..7] == n
    ensures ReadFull([FRAME_END] + suffix, 1) == Got([FRAME_END], suffix)
  {
    var h := [typ] + c + n;
    var s := h + payload + [FRAME_END] + suffix;
    assert s[..7] == h;
    assert s[7..] == payload + ([FRAME_END] + suffix);
    assert ([FRAME_END] + suffix)[1..] == suffix;
  }

  lemma EnvelopeDecodes(schema: Schema, f: Frame, payload: Bytes, suffix: Bytes)
    requires f.channel < Pow256(2)
    requires ReadPayload(schema, FrameType(f), f.channel, Low(|payload|), payload + ([FRAME_END] + suffix))
          == Got(f, [FRAME_END] + suffix)
    ensures ReadFrame(schema, Envelope(f, payload) + suffix) == Got(f, suffix)
  {
    EnvelopeShape(FrameType(f), Put(f.channel, 2), Put(|payload|, 4), payload, suffix);
    GetPut(f.channel, 2);
  }

  /** `WriteFrame`. Reading gives the frame back, whatever follows it on the wire. */
  method WriteFrame(schema: Schema, f: Frame) returns (b: Bytes)
    requires Sendable(schema, f)
    ensures FrameDecodes(schema, f, b)
    ensures |b| >= 8 && b[3..7] == Put(|b| - 8, 4)
    ensures f.BodyFrame? ==> |b| == |f.body| + 8
  {
    var payload := WritePayload(schema, f);
    b := Envelope(f, payload);
    assert b[3..7] == Put(|payload|, 4);
    forall suffix: Bytes
      ensures ReadFrame(schema, b + suffix) == Got(f, suffix)
    {
      EnvelopeDecodes(schema, f, payload, suffix);
    }
  }

  /** Any list of frames, written one after the other, is read back as that list. */
  method WriteFrames(schema: Schema, frames: seq<Frame>) returns (b: Bytes)
    requires forall i :: 0 <= i < |frames| ==> Sendable(schema, frames[i])
    ensures ReadFrames(schema, b) == (frames, EOF)
  {
    b := [];
    NoFrames(schema);
    assert frames[..0] == [];
    for i := 0 to |frames|
      invariant FramesStarted(schema, frames[..i], b)
    {
      var c := WriteFrame(schema, frames[i]);
      FramesAppend(schema, frames, i, b, c);
      b := b + c;
    }
    assert frames[..|frames|] == frames;
    FramesEnd(schema, frames, b);
  }

  lemma NoFrames(schema: Schema)
    ensures FramesStarted(schema, [], [])
  {
    forall suffix: Bytes
      ensures ReadFrames(schema, [] + suffix)
           == ([] + ReadFrames(schema, suffix).0, ReadFrames(schema, suffix).1)
    {
      assert [] + suffix == suffix;
      assert [] + ReadFrames(schema, suffix).0 == ReadFrames(schema, suffix).0;
    }
  }

  lemma FramesEnd(schema: Schema, frames: seq<Frame>, b: Bytes)
    requires FramesStarted(schema, frames, b)
    ensures ReadFrames(schema, b) == (frames, EOF)
  {
    assert b + [] == b;
    assert ReadFrames(schema, b + []) == (frames + ReadFrames(schema, []).0, ReadFrames(schema, []).1);
    assert ReadFrames(schema, []) == ([], EOF);
    assert frames + [] == frames;
  }

  ghost predicate FramesStarted(schema: Schema, done: seq<Frame>, b: Bytes) {
    forall suffix: Bytes ::
      ReadFrames(schema, b + suffix) == (done + ReadFrames(schema, suffix).0, ReadFrames(schema, suffix).1)
  }

  lemma ReadFramesStep(schema: Schema, s: Bytes, f: Frame, rest: Bytes)
    ensures ReadFrame(schema, s) == Got(f, rest) ==>
      ReadFrames(schema, s) == ([f] + ReadFrames(schema, rest).0, ReadFrames(schema, rest).1)
  {
  }

  lemma PrefixStep(frames: seq<Frame>, i: nat, more: seq<Frame>)
    ensures i < |frames| ==> frames[..i] + ([frames[i]] + more) == frames[..i + 1] + more
  {
  }

  lemma FramesAppend(schema: Schema, frames: seq<Frame>, i: nat, b: Bytes, c: Bytes)
    requires i < |frames| && FramesStarted(schema, frames[..i], b) && FrameDecodes(schema, frames[i], c)
    ensures FramesStarted(schema, frames[..i + 1], b + c)
  {
    forall suffix: Bytes
      ensures ReadFrames(schema, b + c + suffix)
           == (frames[..i + 1] + ReadFrames(schema, suffix).0, ReadFrames(schema, suffix).1)
    {
      Concat3(b, c, suffix);
      ReadFramesStep(schema, c + suffix, frames[i], suffix);
      PrefixStep(frames, i, ReadFrames(schema, suffix).0);
    }
  }
}
