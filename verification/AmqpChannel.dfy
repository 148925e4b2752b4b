/** Contents as frames: `sendOpen` cuts a message up, the three-state machine of
    channel.go puts it together again, one machine a channel behind the
    demultiplexer of connection.go. */
module AmqpChannel {
  import opened Basics
  import opened Octets
  import opened AmqpSchema
  import opened AmqpFrames

  datatype Content = NoContent | Content(props: seq<Val>, body: Bytes)
  datatype Message = Message(classId: nat, methodId: nat, args: seq<Val>, content: Content)

  /** basic.publish, basic.return, basic.deliver and basic.get-ok carry content. */
  predicate CarriesContent(classId: nat, methodId: nat) {
    classId == 60 && methodId in {40, 50, 60, 71}
  }

  predicate WellFormed(m: Message) {
    m.content.Content? <==> CarriesContent(m.classId, m.methodId)
  }

  predicate ChannelClose(m: Message) {
    m.classId == 20 && m.methodId == 40
  }

  // ---------------------------------------------------------------- sending

  /** Octets around a payload (`frameHeaderSize`). */
  const OVERHEAD := 8

  /** The frame sizes a connection can be tuned to without `sendOpen` running away. */
  predicate FrameSizeOk(frameSize: nat) {
    frameSize == 0 || frameSize > OVERHEAD
  }

  function Chunks(channel: nat, body: Bytes, size: nat): (f: seq<Frame>)
    requires body != [] ==> size > 0
    decreases |body|
  {
    if body == [] then []
    else if |body| <= size then [BodyFrame(channel, body)]
    else [BodyFrame(channel, body[..size])] + Chunks(channel, body[size..], size)
  }

  /** The largest body in one frame; 0 means no limit. */
  function ChunkSize(frameSize: nat, body: Bytes): nat
    requires FrameSizeOk(frameSize)
  {
    if frameSize > 0 then frameSize - OVERHEAD else |body|
  }

  /** The frames of one message. */
  function Cut(channel: nat, m: Message, frameSize: nat): (f: seq<Frame>)
    requires FrameSizeOk(frameSize)
    ensures f != []
  {
    [MethodFrame(channel, m.classId, m.methodId, m.args)] +
    match m.content
    case NoContent => []
    case Content(props, body) =>
      [HeaderFrame(channel, m.classId, 0, |body|, props)] + Chunks(channel, body, ChunkSize(frameSize, body))
  }

  function CutAll(channel: nat, ms: seq<Message>, frameSize: nat): seq<Frame>
    requires FrameSizeOk(frameSize)
  {
    if ms == [] then [] else Cut(channel, ms[0], frameSize) + CutAll(channel, ms[1..], frameSize)
  }

  /** What the protocol asks of the frames of a message: its method first; for a content then one
      header, of the method's class, that announces exactly the octets of the body frames behind
      it; nothing else, and all on one channel. */
  ghost predicate Framed(channel: nat, m: Message, sent: seq<Frame>) {
    && sent != [] && sent[0] == MethodFrame(channel, m.classId, m.methodId, m.args)
    && if m.content.NoContent? then |sent| == 1
       else
         && |sent| >= 2 && sent[1].HeaderFrame? && sent[1].channel == channel && AllBodies(channel, sent[2..])
         && sent[1].classId == sent[0].classId && sent[1].weight == 0 && sent[1].props == m.content.props
         && sent[1].size == |Bodies(sent[2..])| && Bodies(sent[2..]) == m.content.body
  }

  predicate AllBodies(channel: nat, fs: seq<Frame>) {
    forall i :: 0 <= i < |fs| ==> fs[i].BodyFrame? && fs[i].channel == channel
  }

  lemma ContentFramed(channel: nat, m: Message, method0: Frame, header: Frame, chunks: seq<Frame>)
    requires m.content.Content? && method0 == MethodFrame(channel, m.classId, m.methodId, m.args)
    requires header.HeaderFrame? && header.channel == channel && header.classId == method0.classId
    requires header.weight == 0 && header.size == |m.content.body| && header.props == m.content.props
    requires AllBodies(channel, chunks) && Bodies(chunks) == m.content.body
    ensures Framed(channel, m, [method0] + ([header] + chunks))
  {
    var sent := [method0] + ([header] + chunks);
    assert sent[2..] == chunks;
  }

  /** `sendOpen`: method, header, then the body. Every body frame has at most `frameSize`
      octets on the wire. */
  method SendOpen(channel: nat, m: Message, frameSize: nat) returns (sent: seq<Frame>)
    requires FrameSizeOk(frameSize)
    ensures sent == Cut(channel, m, frameSize) && Framed(channel, m, sent)
    ensures forall f :: f in sent && f.BodyFrame? && frameSize > 0 ==> 0 < |f.body| && |f.body| + OVERHEAD <= frameSize
  {
    hide Framed;
    sent := [MethodFrame(channel, m.classId, m.methodId, m.args)];
    if m.content.Content? {
      var body := m.content.body;
      var size := if frameSize > 0 then frameSize - OVERHEAD else |body|;
      var header := HeaderFrame(channel, m.classId, 0, |body|, m.content.props);
      var chunks := SendBody(channel, body, size);
      ContentFramed(channel, m, sent[0], header, chunks);
      sent := sent + ([header] + chunks);
    } else {
      assert sent + [] == sent;
      PlainFramed(channel, m, sent);
    }
  }

  lemma PlainFramed(channel: nat, m: Message, sent: seq<Frame>)
    ensures m.content.NoContent? && sent == [MethodFrame(channel, m.classId, m.methodId, m.args)] ==>
      Framed(channel, m, sent)
  {
  }

  /** The loop of `sendOpen`: the body from i to j until it is used up. */
  method SendBody(channel: nat, body: Bytes, size: nat) returns (sent: seq<Frame>)
    requires body != [] ==> size > 0
    ensures sent == Chunks(channel, body, size)
    ensures AllBodies(channel, sent)
    ensures forall i :: 0 <= i < |sent| ==> 0 < |sent[i].body| <= size
    ensures Bodies(sent) == body
  {
    sent := [];
    var i, j := 0, size;
    assert body[0..] == body;
    while i < |body|
      invariant 0 <= i <= |body|
      invariant i < |body| ==> j == i + size
      invariant Chunks(channel, body, size) == sent + Chunks(channel, body[i..], size)
      invariant forall k :: 0 <= k < |sent| ==> sent[k].BodyFrame? && sent[k].channel == channel
      invariant forall k :: 0 <= k < |sent| ==> 0 < |sent[k].body| <= size
      invariant Bodies(sent) == body[..i]
      decreases |body| - i
    {
      if j > |body| {
        j := |body|;
      }
      ChunksStep(channel, body, i, size);
      Concat3(sent, [BodyFrame(channel, body[i..j])], Chunks(channel, body[j..], size));
      ghost var was := sent;
      sent := sent + [BodyFrame(channel, body[i..j])];
      assert sent[..|was|] == was && body[..i] + body[i..j] == body[..j];
      i, j := j, j + size;
    }
  }

  lemma ChunksStep(channel: nat, body: Bytes, i: nat, size: nat)
    requires i < |body| && size > 0
    ensures var j := if i + size > |body| then |body| else i + size;
            Chunks(channel, body[i..], size) == [BodyFrame(channel, body[i..j])] + Chunks(channel, body[j..], size)
  {
    var rest := body[i..];
    if |rest| > size {
      assert rest[..size] == body[i..i + size] && rest[size..] == body[i + size..];
    } else {
      assert body[i..|body|] == rest;
    }
  }

  // ---------------------------------------------------------------- the receiving machine

  /** `recvMethod`, `recvHeader` or `recvContent`, with what it has collected. */
  datatype Recv =
    | AwaitMethod
    | AwaitHeader(message: Message)
    | AwaitBody(message: Message, size: nat, props: seq<Val>, body: Bytes)

  /** One frame: the next state and the messages dispatched. */
  function Step(st: Recv, f: Frame): (r: (Recv, seq<Message>))
    requires !f.HeartbeatFrame?
    ensures |r.1| <= 1
  {
    match f
    case MethodFrame(_, c, m, args) =>
      var msg := Message(c, m, args, NoContent);
      if CarriesContent(c, m) then (AwaitHeader(msg), []) else (AwaitMethod, [msg])
    case HeaderFrame(_, _, _, size, props) =>
      if !st.AwaitHeader? then (AwaitMethod, [])
      else if size == 0 then (AwaitMethod, [st.message.(content := Content(props, []))])
      else (AwaitBody(st.message, size, props, []), [])
    case BodyFrame(_, body) =>
      if !st.AwaitBody? then (AwaitMethod, [])
      else if |st.body + body| >= st.size then
        (AwaitMethod, [st.message.(content := Content(st.props, st.body + body))])
      else (st.(body := st.body + body), [])
  }

  /** Exactly basic.publish, basic.return, basic.deliver and basic.get-ok wait for their content;
      every other method is dispatched at once, whatever was being put together. */
  lemma MethodsWait(st: Recv, channel: nat, c: nat, m: nat, args: seq<Val>)
    ensures var (next, out) := Step(st, MethodFrame(channel, c, m, args));
            if c == 60 && (m == 40 || m == 50 || m == 60 || m == 71)
            then out == [] && next == AwaitHeader(Message(c, m, args, NoContent))
            else out == [Message(c, m, args, NoContent)] && next == AwaitMethod
  {
  }

  predicate NoHeartbeat(fs: seq<Frame>) {
    forall i :: 0 <= i < |fs| ==> !fs[i].HeartbeatFrame?
  }

  function Run(st: Recv, fs: seq<Frame>): (Recv, seq<Message>)
    requires NoHeartbeat(fs)
    decreases |fs|
  {
    if fs == [] then (st, [])
    else
      var (st1, out) := Step(st, fs[0]);
      var (st2, more) := Run(st1, fs[1..]);
      (st2, out + more)
  }

  lemma {:induction false} RunConcat(st: Recv, fs: seq<Frame>, gs: seq<Frame>)
    requires NoHeartbeat(fs) && NoHeartbeat(gs)
    ensures var (st1, out1) := Run(st, fs);
            var (st2, out2) := Run(st1, gs);
            Run(st, fs + gs) == (st2, out1 + out2)
    decreases |fs|
  {
    if fs == [] {
      assert fs + gs == gs;
      assert [] + Run(st, gs).1 == Run(st, gs).1;
    } else {
      var (st1, out) := Step(st, fs[0]);
      RunConcat(st1, fs[1..], gs);
      assert (fs + gs)[1..] == fs[1..] + gs;
      var (st2, mid) := Run(st1, fs[1..]);
      Concat3(out, mid, Run(st2, gs).1);
    }
  }

  datatype RecvFunc = RecvMethod | RecvHeader | RecvContent

  /** `Channel`, the part that receives: the current state function and what it collects. */
  class Channel {
    var recv: RecvFunc
    var message: Message
    var size: nat        // me.header.Size
    var props: seq<Val>  // me.header.Properties
    var body: Bytes
    var dispatched: seq<Message>

    ghost predicate Valid()
      reads this
    {
      recv == RecvHeader ==> body == []
    }

    ghost function State(): Recv
      reads this
    {
      match recv
      case RecvMethod => AwaitMethod
      case RecvHeader => AwaitHeader(message)
      case RecvContent => AwaitBody(message, size, props, body)
    }

    constructor ()
      ensures Valid() && State() == AwaitMethod && dispatched == []
    {
      recv := RecvMethod;
      message := Message(0, 0, [], NoContent);
      size := 0;
      props := [];
      body := [];
      dispatched := [];
    }

    /** The frame took the machine one step. */
    twostate predicate Stepped(f: Frame)
      requires !f.HeartbeatFrame?
      reads this
    {
      && Valid()
      && State() == old(Step(State(), f).0)
      && dispatched == old(dispatched) + old(Step(State(), f).1)
    }

    /** `me.message.setContent(...)`, dispatch, back to the first state. */
    method Complete()
      modifies this
      ensures Valid() && State() == AwaitMethod
      ensures dispatched == old(dispatched) + [old(message).(content := Content(old(props), old(body)))]
    {
      message := message.(content := Content(props, body));
      dispatched := dispatched + [message];
      recv := RecvMethod;
    }

    /** `channel.recv(channel, f)` through the current state function. */
    method Receive(f: Frame)
      requires Valid() && !f.HeartbeatFrame?
      modifies this
      ensures Stepped(f)
    {
      match recv
      case RecvMethod => ReceiveMethod(f);
      case RecvHeader => ReceiveHeader(f);
      case RecvContent => ReceiveContent(f);
    }

    method ReceiveMethod(f: Frame)
      requires Valid() && !f.HeartbeatFrame?
      requires recv.RecvMethod? || f.MethodFrame?
      modifies this
      ensures Stepped(f)
    {
      assert dispatched + [] == dispatched;
      if f.MethodFrame? {
        var msg := Message(f.classId, f.methodId, f.args, NoContent);
        if CarriesContent(f.classId, f.methodId) {
          body := [];
          message := msg;
          recv := RecvHeader;
        } else {
          dispatched := dispatched + [msg];
          recv := RecvMethod;
        }
      } else {
        recv := RecvMethod;
      }
    }

    method ReceiveHeader(f: Frame)
      requires Valid() && !f.HeartbeatFrame? && recv.RecvHeader?
      modifies this
      ensures Stepped(f)
    {
      assert dispatched + [] == dispatched;
      match f
      case MethodFrame(_, _, _, _) => ReceiveMethod(f);
      case HeaderFrame(_, _, _, n, p) =>
        size, props := n, p;
        if n == 0 {
          Complete();
        } else {
          recv := RecvContent;
        }
      case BodyFrame(_, _) => recv := RecvMethod;
    }

    method ReceiveContent(f: Frame)
      requires Valid() && !f.HeartbeatFrame? && recv.RecvContent?
      modifies this
      ensures Stepped(f)
    {
      assert dispatched + [] == dispatched;
      match f
      case MethodFrame(_, _, _, _) => ReceiveMethod(f);
      case HeaderFrame(_, _, _, _, _) => recv := RecvMethod;
      case BodyFrame(_, b) =>
        body := body + b;
        if |body| >= size {
          Complete();
        }
    }
  }

  // ---------------------------------------------------------------- any frames at all

  function Bodies(fs: seq<Frame>): Bytes
    requires forall i :: 0 <= i < |fs| ==> fs[i].BodyFrame?
  {
    if fs == [] then [] else Bodies(fs[..|fs| - 1]) + fs[|fs| - 1].body
  }

  /** The first n frames are the body frames that first reach `size` octets. */
  ghost predicate Fills(fs: seq<Frame>, n: nat, size: nat) {
    && n <= |fs|
    && (forall i :: 0 <= i < n ==> fs[i].BodyFrame?)
    && |Bodies(fs[..n])| >= size
    && forall m :: 0 <= m < n ==> |Bodies(fs[..m])| < size
  }

  /** A content starts at the front of fs: its method frame, a header, and just enough body. */
  ghost predicate ContentAt(fs: seq<Frame>, n: nat) {
    && |fs| >= 2 && fs[0].MethodFrame? && CarriesContent(fs[0].classId, fs[0].methodId)
    && fs[1].HeaderFrame? && Fills(fs[2..], n, fs[1].size)
  }

  ghost function ContentMessage(fs: seq<Frame>, n: nat): Message
    requires ContentAt(fs, n)
  {
    Message(fs[0].classId, fs[0].methodId, fs[0].args, Content(fs[1].props, Bodies(fs[2..][..n])))
  }

  /** The messages in a frame sequence, without a machine: a plain method is a message, a
      whole content is a message, every other frame is passed over by itself. */
  ghost function Messages(fs: seq<Frame>): seq<Message>
    decreases |fs|
  {
    if fs == [] then []
    else if fs[0].MethodFrame? && !CarriesContent(fs[0].classId, fs[0].methodId) then
      [Message(fs[0].classId, fs[0].methodId, fs[0].args, NoContent)] + Messages(fs[1..])
    else if exists n: nat :: ContentAt(fs, n) then
      var n: nat :| ContentAt(fs, n);
      [ContentMessage(fs, n)] + Messages(fs[2 + n..])
    else Messages(fs[1..])
  }

  lemma FillsUnique(fs: seq<Frame>, m: nat, n: nat, size: nat)
    ensures Fills(fs, m, size) && Fills(fs, n, size) ==> m == n
  {
  }

  lemma BodiesStep(fs: seq<Frame>, n: nat)
    requires n < |fs| && forall i :: 0 <= i <= n ==> fs[i].BodyFrame?
    ensures Bodies(fs[..n + 1]) == Bodies(fs[..n]) + fs[n].body
  {
    assert fs[..n + 1][..n] == fs[..n];
  }

  /** With n of the frames collected that will fill the content, the machine goes on to
      dispatch it and starts afresh behind it. */
  lemma {:induction false} CollectFull(m: Message, size: nat, props: seq<Val>, fs: seq<Frame>, n: nat, total: nat)
    requires NoHeartbeat(fs) && Fills(fs, total, size) && n < total
    ensures Run(AwaitBody(m, size, props, Bodies(fs[..n])), fs[n..]).1
         == [m.(content := Content(props, Bodies(fs[..total])))] + Run(AwaitMethod, fs[total..]).1
    decreases total - n
  {
    var rest := fs[n..];
    assert rest[0] == fs[n] && rest[1..] == fs[n + 1..];
    BodiesStep(fs, n);
    if n + 1 < total {
      CollectFull(m, size, props, fs, n + 1, total);
    }
  }

  /** If no frames fill the content, what was collected leaves no trace. */
  lemma {:induction false} CollectPart(m: Message, size: nat, props: seq<Val>, fs: seq<Frame>, n: nat)
    requires n <= |fs| && NoHeartbeat(fs) && forall total: nat :: !Fills(fs, total, size)
    requires forall i :: 0 <= i < n ==> fs[i].BodyFrame?
    requires forall k :: 0 <= k <= n ==> |Bodies(fs[..k])| < size
    ensures Run(AwaitBody(m, size, props, Bodies(fs[..n])), fs[n..]).1 == Run(AwaitMethod, fs[n..]).1
    decreases |fs| - n
  {
    if n < |fs| {
      var rest := fs[n..];
      assert rest[0] == fs[n] && rest[1..] == fs[n + 1..];
      if fs[n].BodyFrame? {
        BodiesStep(fs, n);
        assert !Fills(fs, n + 1, size);
        CollectPart(m, size, props, fs, n + 1);
      }
    }
  }

  lemma MessagesContent(fs: seq<Frame>, n: nat)
    requires ContentAt(fs, n)
    ensures Messages(fs) == [ContentMessage(fs, n)] + Messages(fs[2 + n..])
  {
    forall k: nat | ContentAt(fs, k)
      ensures k == n
    {
      FillsUnique(fs[2..], k, n, fs[1].size);
    }
  }

  /** For any frames, well-formed or not: the machine dispatches the contents whose body
      frames follow their header and first reach the declared size at the last one, and
      the plain methods; a stray or interrupting frame costs the partial content only. */
  lemma {:induction false} MachineIsMessages(fs: seq<Frame>)
    requires NoHeartbeat(fs)
    ensures Run(AwaitMethod, fs).1 == Messages(fs)
    decreases |fs|
  {
    if fs != [] {
      if fs[0].MethodFrame? && CarriesContent(fs[0].classId, fs[0].methodId) {
        if n: nat :| ContentAt(fs, n) {
          MessagesContent(fs, n);
          ContentRun(fs, n);
          MachineIsMessages(fs[2 + n..]);
        } else {
          NoContentRun(fs);
          MachineIsMessages(fs[1..]);
        }
      } else {
        MachineIsMessages(fs[1..]);
      }
    }
  }

  lemma ContentRun(fs: seq<Frame>, n: nat)
    requires NoHeartbeat(fs) && ContentAt(fs, n)
    ensures Run(AwaitMethod, fs).1 == [ContentMessage(fs, n)] + Run(AwaitMethod, fs[2 + n..]).1
  {
    var m := Message(fs[0].classId, fs[0].methodId, fs[0].args, NoContent);
    var rest := fs[2..];
    assert fs[1..][1..] == rest && rest[..0] == [] && rest[0..] == rest && fs[2 + n..] == rest[n..];
    if fs[1].size == 0 {
      assert Fills(rest, 0, 0);
    } else {
      CollectFull(m, fs[1].size, fs[1].props, rest, 0, n);
    }
  }

  lemma NoContentRun(fs: seq<Frame>)
    requires NoHeartbeat(fs) && fs != [] && fs[0].MethodFrame? && CarriesContent(fs[0].classId, fs[0].methodId)
    requires forall n: nat :: !ContentAt(fs, n)
    ensures Run(AwaitMethod, fs).1 == Run(AwaitMethod, fs[1..]).1
  {
    var m := Message(fs[0].classId, fs[0].methodId, fs[0].args, NoContent);
    if |fs| >= 2 && fs[1].HeaderFrame? {
      var rest := fs[2..];
      assert fs[1..][1..] == rest && rest[..0] == [] && rest[0..] == rest;
      forall n: nat
        ensures !Fills(rest, n, fs[1].size)
      {
        assert !ContentAt(fs, n);
      }
      assert !Fills(rest, 0, fs[1].size);
      CollectPart(m, fs[1].size, fs[1].props, rest, 0);
    }
  }
}
