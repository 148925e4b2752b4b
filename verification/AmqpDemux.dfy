/** The demultiplexer of connection.go over the channel machines: whatever the
    interleaving, every channel gets its own messages. */
module AmqpDemux {
  import opened Octets
  import opened AmqpSchema
  import opened AmqpFrames
  import opened AmqpChannel

  // ---------------------------------------------------------------- one message comes back

  lemma {:induction false} ChunkFrames(channel: nat, body: Bytes, size: nat)
    requires body != [] ==> size > 0
    ensures forall f :: f in Chunks(channel, body, size) ==> f.BodyFrame? && f.channel == channel
    decreases |body|
  {
    if |body| > size && body != [] {
      ChunkFrames(channel, body[size..], size);
    }
  }

  lemma CutFrames(channel: nat, m: Message, frameSize: nat)
    requires FrameSizeOk(frameSize)
    ensures NoHeartbeat(Cut(channel, m, frameSize))
    ensures forall f :: f in Cut(channel, m, frameSize) ==> f.channel == channel
  {
    if m.content.Content? {
      ChunkFrames(channel, m.content.body, ChunkSize(frameSize, m.content.body));
    }
  }

  lemma {:induction false} CutAllFrames(channel: nat, ms: seq<Message>, frameSize: nat)
    requires FrameSizeOk(frameSize)
    ensures NoHeartbeat(CutAll(channel, ms, frameSize))
  {
    if ms != [] {
      CutFrames(channel, ms[0], frameSize);
      CutAllFrames(channel, ms[1..], frameSize);
    }
  }

  lemma RunSingle(st: Recv, f: Frame)
    requires !f.HeartbeatFrame?
    ensures Run(st, [f]) == Step(st, f)
  {
    assert [f][1..] == [];
    assert Step(st, f).1 + [] == Step(st, f).1;
  }

  /** The chunks of the rest of a body complete it, and only the last one does. */
  lemma {:induction false} RunChunks(channel: nat, m: Message, props: seq<Val>, got: Bytes, rest: Bytes, size: nat)
    requires rest != [] && size > 0
    ensures NoHeartbeat(Chunks(channel, rest, size)) && Chunks(channel, rest, size) != []
    ensures var fs := Chunks(channel, rest, size);
            var st := AwaitBody(m, |got| + |rest|, props, got);
            && Run(st, fs) == (AwaitMethod, [m.(content := Content(props, got + rest))])
            && Run(st, fs[..|fs| - 1]).1 == []
    decreases |rest|
  {
    ChunkFrames(channel, rest, size);
    var fs := Chunks(channel, rest, size);
    if |rest| > size {
      var a, b := rest[..size], rest[size..];
      assert rest == a + b;
      RunChunks(channel, m, props, got + a, b, size);
      assert got + a + b == got + rest;
      assert fs[1..] == Chunks(channel, b, size);
      var next := AwaitBody(m, |got + a| + |b|, props, got + a);
      assert Step(AwaitBody(m, |got| + |rest|, props, got), fs[0]) == (next, []);
      assert [] + Run(next, fs[1..]).1 == [m.(content := Content(props, got + rest))];
      assert fs[..|fs| - 1][1..] == fs[1..][..|fs| - 2];
    } else {
      RunSingle(AwaitBody(m, |got| + |rest|, props, got), fs[0]);
    }
  }

  /** A frame that dispatches nothing. */
  lemma RunSilent(st: Recv, f: Frame, rest: seq<Frame>)
    requires !f.HeartbeatFrame? && NoHeartbeat(rest) && Step(st, f).1 == []
    ensures Run(st, [f] + rest) == Run(Step(st, f).0, rest)
  {
    assert ([f] + rest)[1..] == rest;
    var out := Run(Step(st, f).0, rest).1;
    assert [] + out == out;
  }

  lemma RunContent(method0: Frame, header: Frame, m: Message, chunks: seq<Frame>)
    requires m.content.Content? && CarriesContent(m.classId, m.methodId) && NoHeartbeat(chunks)
    requires method0.MethodFrame? && header.HeaderFrame? && header.size == |m.content.body| > 0
    requires Message(method0.classId, method0.methodId, method0.args, m.content) == m && header.props == m.content.props
    ensures NoHeartbeat([method0] + ([header] + chunks))
    ensures Run(AwaitMethod, [method0] + ([header] + chunks))
         == Run(AwaitBody(m.(content := NoContent), |m.content.body|, m.content.props, []), chunks)
  {
    var m0 := m.(content := NoContent);
    RunSilent(AwaitMethod, method0, [header] + chunks);
    RunSilent(AwaitHeader(m0), header, chunks);
  }

  /** These frames bring the machine from its start back to it with the message; all but the
      last dispatch nothing. */
  ghost predicate Delivers(fs: seq<Frame>, m: Message) {
    && fs != [] && NoHeartbeat(fs) && NoHeartbeat(fs[..|fs| - 1])
    && Run(AwaitMethod, fs) == (AwaitMethod, [m])
    && Run(AwaitMethod, fs[..|fs| - 1]).1 == []
  }

  lemma MethodDelivers(f: Frame, m: Message)
    requires f.MethodFrame? && !CarriesContent(f.classId, f.methodId)
    requires m == Message(f.classId, f.methodId, f.args, NoContent)
    ensures Delivers([f], m)
  {
    RunSingle(AwaitMethod, f);
    assert [f][..0] == [];
  }

  lemma EmptyDelivers(f: Frame, h: Frame, m: Message)
    requires f.MethodFrame? && CarriesContent(f.classId, f.methodId) && h.HeaderFrame? && h.size == 0
    requires m == Message(f.classId, f.methodId, f.args, Content(h.props, []))
    ensures Delivers([f] + [h], m)
  {
    RunSilent(AwaitMethod, f, [h]);
    RunSingle(AwaitHeader(m.(content := NoContent)), h);
    assert ([f] + [h])[..1] == [f];
    RunSingle(AwaitMethod, f);
  }

  lemma BodyDelivers(f: Frame, h: Frame, m: Message, channel: nat, size: nat)
    requires m.content.Content? && m.content.body != [] && size > 0
    requires f.MethodFrame? && CarriesContent(f.classId, f.methodId) && h.HeaderFrame?
    requires m == Message(f.classId, f.methodId, f.args, m.content)
    requires h.size == |m.content.body| && h.props == m.content.props
    ensures Delivers([f] + ([h] + Chunks(channel, m.content.body, size)), m)
  {
    var body := m.content.body;
    var chunks := Chunks(channel, body, size);
    RunChunks(channel, m.(content := NoContent), h.props, [], body, size);
    assert [] + body == body;
    var most := chunks[..|chunks| - 1];
    RunContent(f, h, m, chunks);
    RunContent(f, h, m, most);
    var fs := [f] + ([h] + chunks);
    assert fs[..|fs| - 1] == [f] + ([h] + most);
  }

  /** The frames of a message deliver it. */
  lemma RunCut(channel: nat, m: Message, frameSize: nat)
    requires FrameSizeOk(frameSize) && WellFormed(m)
    ensures Delivers(Cut(channel, m, frameSize), m)
  {
    var fs := Cut(channel, m, frameSize);
    if m.content.NoContent? {
      assert fs == [fs[0]];
      MethodDelivers(fs[0], m);
    } else {
      var body := m.content.body;
      var size := ChunkSize(frameSize, body);
      assert fs == [fs[0]] + ([fs[1]] + Chunks(channel, body, size));
      if body == [] {
        assert [fs[1]] + [] == [fs[1]];
        EmptyDelivers(fs[0], fs[1], m);
      } else {
        BodyDelivers(fs[0], fs[1], m, channel, size);
      }
    }
  }

  lemma {:induction false} RunCutAll(channel: nat, ms: seq<Message>, frameSize: nat)
    requires FrameSizeOk(frameSize) && forall i :: 0 <= i < |ms| ==> WellFormed(ms[i])
    ensures NoHeartbeat(CutAll(channel, ms, frameSize))
    ensures Run(AwaitMethod, CutAll(channel, ms, frameSize)) == (AwaitMethod, ms)
  {
    CutAllFrames(channel, ms, frameSize);
    if ms != [] {
      RunCut(channel, ms[0], frameSize);
      RunCutAll(channel, ms[1..], frameSize);
      CutAllFrames(channel, ms[1..], frameSize);
      RunConcat(AwaitMethod, Cut(channel, ms[0], frameSize), CutAll(channel, ms[1..], frameSize));
      assert [ms[0]] + ms[1..] == ms;
    }
  }

  /** Output only grows. */
  lemma RunGrows(st: Recv, fs: seq<Frame>, k: nat)
    requires NoHeartbeat(fs) && k <= |fs|
    ensures Run(st, fs[..k]).1 <= Run(st, fs).1
  {
    RunConcat(st, fs[..k], fs[k..]);
    assert fs[..k] + fs[k..] == fs;
  }

  /** Before its last frame a channel has not dispatched its last message. */
  lemma {:induction false} RunPart(channel: nat, ms: seq<Message>, frameSize: nat, k: nat)
    requires FrameSizeOk(frameSize) && forall i :: 0 <= i < |ms| ==> WellFormed(ms[i])
    requires k < |CutAll(channel, ms, frameSize)|
    ensures NoHeartbeat(CutAll(channel, ms, frameSize))
    ensures |ms| > 0 && Run(AwaitMethod, CutAll(channel, ms, frameSize)[..k]).1 <= ms[..|ms| - 1]
  {
    CutAllFrames(channel, ms, frameSize);
    var first, rest := Cut(channel, ms[0], frameSize), CutAll(channel, ms[1..], frameSize);
    RunCut(channel, ms[0], frameSize);
    CutAllFrames(channel, ms[1..], frameSize);
    var p := CutAll(channel, ms, frameSize)[..k];
    if k < |first| {
      assert p == first[..|first| - 1][..k];
      RunGrows(AwaitMethod, first[..|first| - 1], k);
    } else {
      RunPart(channel, ms[1..], frameSize, k - |first|);
      assert p == first + rest[..k - |first|];
      RunConcat(AwaitMethod, first, rest[..k - |first|]);
      var out := Run(AwaitMethod, rest[..k - |first|]).1;
      assert ms[..|ms| - 1] == [ms[0]] + ms[1..][..|ms| - 2];
      assert [ms[0]] + out <= ms[..|ms| - 1];
    }
  }

  // ---------------------------------------------------------------- the connection

  /** The reader goroutine: reading, waiting for ever in `closeWith` for a reply that only it
      could read, or gone with the connection. */
  datatype Phase = Reading | Blocked | Down

  /** The registry, what was dispatched on which channel, and the answers sent. */
  datatype Conn = Conn(channels: map<nat, Recv>, log: seq<(nat, Message)>, phase: Phase, sent: seq<Frame>)

  /** channel.close-ok and connection.close-ok. */
  function CloseOk(channel: nat): Frame {
    if channel == 0 then MethodFrame(0, 10, 51, []) else MethodFrame(channel, 20, 41, [])
  }

  predicate Is(f: Frame, classId: nat, methodId: nat) {
    f.MethodFrame? && f.classId == classId && f.methodId == methodId
  }

  /** `demux`: channel 0 by `dispatch0`, an open channel to its machine, else `dispatchClosed`.
      A channel.close takes the channel out of the registry; connection.close shuts the
      connection down, and so does the panic on a heartbeat that names an open channel. On
      content on channel 0 or a method on a closed channel `closeWith` is called, on the
      goroutine that would have to read the answer it waits for: nothing is read any more. */
  function Demux(c: Conn, f: Frame): Conn {
    if c.phase != Reading then c
    else if f.channel == 0 then
      if Is(f, 10, 50) then Conn(map[], c.log, Down, c.sent + [CloseOk(0)])
      else if f.HeaderFrame? || f.BodyFrame? then c.(phase := Blocked)
      else c
    else if f.channel in c.channels then
      if f.HeartbeatFrame? then Conn(map[], c.log, Down, c.sent)
      else Dispatched(c, f.channel, Step(c.channels[f.channel], f))
    else if Is(f, 20, 40) then c.(sent := c.sent + [CloseOk(f.channel)])
    else if f.MethodFrame? && !Is(f, 20, 41) then c.(phase := Blocked)
    else c
  }

  /** The channel's machine has moved and may have dispatched a message. */
  function Dispatched(c: Conn, channel: nat, step: (Recv, seq<Message>)): Conn {
    var (st, out) := step;
    if out == [] then c.(channels := c.channels[channel := st])
    else
      Conn(if ChannelClose(out[0]) then c.channels - {channel} else c.channels[channel := st],
           c.log + [(channel, out[0])], c.phase,
           if ChannelClose(out[0]) then c.sent + [CloseOk(channel)] else c.sent)
  }

  function DemuxAll(c: Conn, fs: seq<Frame>): Conn {
    if fs == [] then c else Demux(DemuxAll(c, fs[..|fs| - 1]), fs[|fs| - 1])
  }

  /** The frames of one channel, and what one channel dispatched. */
  function Sub(fs: seq<Frame>, channel: nat): seq<Frame> {
    if fs == [] then []
    else Sub(fs[..|fs| - 1], channel) + if fs[|fs| - 1].channel == channel then [fs[|fs| - 1]] else []
  }

  function SubLog(log: seq<(nat, Message)>, channel: nat): seq<Message> {
    if log == [] then []
    else SubLog(log[..|log| - 1], channel) + if log[|log| - 1].0 == channel then [log[|log| - 1].1] else []
  }

  /** What the peer is allowed on the other channels: no shutdown on channel 0, no new
      methods on channels that are not open. */
  predicate Undisturbed(channels: set<nat>, f: Frame) {
    if f.channel in channels then !f.HeartbeatFrame?
    else if f.channel == 0 then f.HeartbeatFrame? || (f.MethodFrame? && !Is(f, 10, 50))
    else f.MethodFrame? ==> Is(f, 20, 40) || Is(f, 20, 41)
  }

  /** A peer that closes a channel sends nothing more on it. */
  predicate CloseIsLast(ms: seq<Message>) {
    forall i :: 0 <= i < |ms| - 1 ==> !ChannelClose(ms[i])
  }

  predicate Conversation(ms: seq<Message>) {
    CloseIsLast(ms) && forall i :: 0 <= i < |ms| ==> WellFormed(ms[i])
  }

  lemma {:induction false} SubHeartbeat(channels: set<nat>, fs: seq<Frame>, channel: nat)
    requires channel in channels && forall i :: 0 <= i < |fs| ==> Undisturbed(channels, fs[i])
    ensures NoHeartbeat(Sub(fs, channel))
  {
    if fs != [] {
      SubHeartbeat(channels, fs[..|fs| - 1], channel);
    }
  }

  lemma {:induction false} SubPrefix(fs: seq<Frame>, i: nat, channel: nat)
    requires i <= |fs|
    ensures Sub(fs[..i], channel) <= Sub(fs, channel)
  {
    if i < |fs| {
      var init := fs[..|fs| - 1];
      SubPrefix(init, i, channel);
      assert init[..i] == fs[..i];
    } else {
      assert fs[..i] == fs;
    }
  }

  /** The connection state of one channel is what its own frames alone lead to. */
  ghost predicate Separate(c: Conn, channel: nat, own: seq<Frame>)
    requires NoHeartbeat(own)
  {
    var (st, out) := Run(AwaitMethod, own);
    && SubLog(c.log, channel) == out
    && (channel in c.channels ==> c.channels[channel] == st)
    && (channel !in c.channels ==> exists i :: 0 <= i < |out| && ChannelClose(out[i]))
  }

  lemma RunOne(own: seq<Frame>, f: Frame)
    requires NoHeartbeat(own) && !f.HeartbeatFrame?
    ensures NoHeartbeat(own + [f])
    ensures var (st, out) := Run(AwaitMethod, own);
            Run(AwaitMethod, own + [f]) == (Step(st, f).0, out + Step(st, f).1)
  {
    RunConcat(AwaitMethod, own, [f]);
    RunSingle(Run(AwaitMethod, own).0, f);
  }

  /** The log of the channel grows by what its machine dispatched. */
  lemma SubLogStep(c: Conn, channel: nat, step: (Recv, seq<Message>))
    requires |step.1| <= 1
    ensures SubLog(Dispatched(c, channel, step).log, channel) == SubLog(c.log, channel) + step.1
  {
    var d := Dispatched(c, channel, step);
    if step.1 == [] {
      assert SubLog(c.log, channel) + [] == SubLog(c.log, channel);
    } else {
      assert d.log[..|d.log| - 1] == c.log;
      assert step.1 == [step.1[0]];
    }
  }

  /** A channel that is gone was closed by the last message. */
  lemma ClosedLast(out: seq<Message>, o: seq<Message>)
    requires |o| == 1 && ChannelClose(o[0])
    ensures exists i :: 0 <= i < |out + o| && ChannelClose((out + o)[i])
  {
    assert (out + o)[|out|] == o[0];
  }

  /** A frame moves its own channel one step of its machine. */
  lemma DemuxOwn(c: Conn, f: Frame, own: seq<Frame>)
    requires c.phase == Reading && f.channel != 0 && f.channel in c.channels && !f.HeartbeatFrame?
    requires NoHeartbeat(own) && Separate(c, f.channel, own)
    ensures NoHeartbeat(own + [f]) && Separate(Demux(c, f), f.channel, own + [f]) && Demux(c, f).phase == Reading
  {
    RunOne(own, f);
    var out := Run(AwaitMethod, own).1;
    var step := Step(c.channels[f.channel], f);
    SubLogStep(c, f.channel, step);
    if step.1 != [] && ChannelClose(step.1[0]) {
      ClosedLast(out, step.1);
    }
  }

  /** ... and no other channel. */
  lemma DemuxElsewhere(c: Conn, channels: set<nat>, f: Frame, channel: nat)
    requires c.phase == Reading && Undisturbed(channels, f) && c.channels.Keys <= channels && 0 !in channels
    requires f.channel in channels ==> f.channel in c.channels
    requires channel != f.channel
    ensures var d := Demux(c, f);
            && SubLog(d.log, channel) == SubLog(c.log, channel)
            && (channel in c.channels <==> channel in d.channels)
            && (channel in c.channels ==> c.channels[channel] == d.channels[channel])
  {
    if f.channel in c.channels {
      SubLogOther(c, f.channel, Step(c.channels[f.channel], f), channel);
    }
  }

  /** Separate looks at the channel's machine and log only. */
  lemma SeparateSame(c: Conn, d: Conn, channel: nat, own: seq<Frame>)
    requires NoHeartbeat(own) && Separate(c, channel, own) && SubLog(d.log, channel) == SubLog(c.log, channel)
    requires channel in c.channels <==> channel in d.channels
    requires channel in c.channels ==> c.channels[channel] == d.channels[channel]
    ensures Separate(d, channel, own)
  {
  }

  lemma SubLogOther(c: Conn, channel: nat, step: (Recv, seq<Message>), other: nat)
    requires channel != other
    ensures SubLog(Dispatched(c, channel, step).log, other) == SubLog(c.log, other)
  {
    var d := Dispatched(c, channel, step);
    if step.1 != [] {
      assert d.log[..|d.log| - 1] == c.log;
      assert SubLog(c.log, other) + [] == SubLog(c.log, other);
    }
  }

  /** A channel that still has frames to come is still open. */
  lemma StillOpen(c: Conn, channel: nat, ms: seq<Message>, frameSize: nat, own: seq<Frame>)
    requires FrameSizeOk(frameSize) && Conversation(ms)
    requires own < CutAll(channel, ms, frameSize) && NoHeartbeat(own) && Separate(c, channel, own)
    ensures channel in c.channels
  {
    RunPart(channel, ms, frameSize, |own|);
    assert own == CutAll(channel, ms, frameSize)[..|own|];
    var out := Run(AwaitMethod, own).1;
    assert out <= ms[..|ms| - 1];
    assert forall i :: 0 <= i < |out| ==> out[i] == ms[i];
  }

  /** The setting: conversations on some channels, cut up and interleaved into fs. */
  predicate Interleaved(msgs: map<nat, seq<Message>>, frameSize: nat, fs: seq<Frame>) {
    && FrameSizeOk(frameSize) && 0 !in msgs
    && (forall i :: 0 <= i < |fs| ==> Undisturbed(msgs.Keys, fs[i]))
    && forall ch :: ch in msgs ==> Conversation(msgs[ch]) && Sub(fs, ch) == CutAll(ch, msgs[ch], frameSize)
  }

  /** Every channel is where its own frames among the first n lead to. */
  ghost predicate AllSeparate(msgs: map<nat, seq<Message>>, fs: seq<Frame>, n: nat, c: Conn)
    requires n <= |fs|
  {
    && c.phase == Reading && c.channels.Keys <= msgs.Keys
    && forall ch :: ch in msgs ==> NoHeartbeat(Sub(fs[..n], ch)) && Separate(c, ch, Sub(fs[..n], ch))
  }

  lemma SubStep(fs: seq<Frame>, n: nat, ch: nat)
    requires n < |fs|
    ensures Sub(fs[..n + 1], ch) == Sub(fs[..n], ch) + if fs[n].channel == ch then [fs[n]] else []
  {
    assert fs[..n + 1][..n] == fs[..n];
  }

  lemma OpenFor(msgs: map<nat, seq<Message>>, frameSize: nat, fs: seq<Frame>, n: nat, c: Conn)
    requires Interleaved(msgs, frameSize, fs) && n < |fs| && AllSeparate(msgs, fs, n, c)
    requires fs[n].channel in msgs
    ensures fs[n].channel in c.channels
  {
    var ch := fs[n].channel;
    var own := Sub(fs[..n], ch);
    SubPrefix(fs, n + 1, ch);
    SubStep(fs, n, ch);
    StillOpen(c, ch, msgs[ch], frameSize, own);
  }

  lemma SeparateStep(msgs: map<nat, seq<Message>>, frameSize: nat, fs: seq<Frame>, n: nat, c: Conn, ch: nat)
    requires Interleaved(msgs, frameSize, fs) && n < |fs| && AllSeparate(msgs, fs, n, c) && ch in msgs
    ensures NoHeartbeat(Sub(fs[..n + 1], ch)) && Separate(Demux(c, fs[n]), ch, Sub(fs[..n + 1], ch))
  {
    var own := Sub(fs[..n], ch);
    SubStep(fs, n, ch);
    if fs[n].channel in msgs {
      OpenFor(msgs, frameSize, fs, n, c);
    }
    if fs[n].channel == ch {
      DemuxOwn(c, fs[n], own);
    } else {
      assert own + [] == own;
      DemuxElsewhere(c, msgs.Keys, fs[n], ch);
      SeparateSame(c, Demux(c, fs[n]), ch, own);
    }
  }

  /** The connection stays up. */
  lemma UpStep(channels: set<nat>, c: Conn, f: Frame)
    requires c.phase == Reading && c.channels.Keys <= channels && 0 !in channels && Undisturbed(channels, f)
    requires f.channel in channels ==> f.channel in c.channels
    ensures Demux(c, f).phase == Reading && Demux(c, f).channels.Keys <= channels
  {
  }

  /** The state reached after the first n frames. */
  lemma {:induction false} DemuxPrefix(
      msgs: map<nat, seq<Message>>, frameSize: nat, fs: seq<Frame>, c: Conn, n: nat)
    requires Interleaved(msgs, frameSize, fs) && n <= |fs|
    requires c.phase == Reading && c.log == [] && c.channels == map ch | ch in msgs :: AwaitMethod
    ensures AllSeparate(msgs, fs, n, DemuxAll(c, fs[..n]))
  {
    if n > 0 {
      DemuxPrefix(msgs, frameSize, fs, c, n - 1);
      var was := DemuxAll(c, fs[..n - 1]);
      assert fs[..n][..n - 1] == fs[..n - 1];
      if fs[n - 1].channel in msgs {
        OpenFor(msgs, frameSize, fs, n - 1, was);
      }
      UpStep(msgs.Keys, was, fs[n - 1]);
      forall ch | ch in msgs
        ensures NoHeartbeat(Sub(fs[..n], ch)) && Separate(DemuxAll(c, fs[..n]), ch, Sub(fs[..n], ch))
      {
        SeparateStep(msgs, frameSize, fs, n - 1, was, ch);
      }
    }
  }

  /** For every set of channels, every conversation on each and every interleaving of
      their frames: each channel dispatches exactly its own messages, in order. */
  lemma DemuxDelivers(msgs: map<nat, seq<Message>>, frameSize: nat, fs: seq<Frame>, c: Conn)
    requires Interleaved(msgs, frameSize, fs)
    requires c.phase == Reading && c.log == [] && c.channels == map ch | ch in msgs :: AwaitMethod
    ensures DemuxAll(c, fs).phase == Reading
    ensures forall ch :: ch in msgs ==> SubLog(DemuxAll(c, fs).log, ch) == msgs[ch]
  {
    DemuxPrefix(msgs, frameSize, fs, c, |fs|);
    assert fs[..|fs|] == fs;
    forall ch | ch in msgs
      ensures SubLog(DemuxAll(c, fs).log, ch) == msgs[ch]
    {
      RunCutAll(ch, msgs[ch], frameSize);
    }
  }

  // ---------------------------------------------------------------- closing

  /** What a frame does to a connection with these channels open: it is shut down by
      connection.close and by a heartbeat that names an open channel; the reader gets stuck on
      content for channel 0 and on methods for channels that are not open, other than those that
      close them; all else leaves it reading. */
  function Stops(open: set<nat>, f: Frame): Phase {
    match f
    case MethodFrame(ch, c, m, _) =>
      if ch == 0 then (if c == 10 && m == 50 then Down else Reading)
      else if ch in open || (c == 20 && (m == 40 || m == 41)) then Reading
      else Blocked
    case HeaderFrame(ch, _, _, _, _) => if ch == 0 then Blocked else Reading
    case BodyFrame(ch, _) => if ch == 0 then Blocked else Reading
    case HeartbeatFrame(ch) => if ch != 0 && ch in open then Down else Reading
  }

  /** Section 2.3.7 of AMQP 0-9-1: a close is answered by a close-ok on its channel. */
  function Answers(fs: seq<Frame>): seq<Frame> {
    if fs == [] then []
    else
      var f := fs[|fs| - 1];
      Answers(fs[..|fs| - 1]) +
      if Is(f, 10, 50) && f.channel == 0 then [MethodFrame(0, 10, 51, [])]
      else if Is(f, 20, 40) && f.channel != 0 then [MethodFrame(f.channel, 20, 41, [])]
      else []
  }

  /** The channels on which no channel.close was among the frames. */
  function OpenAfter(open: set<nat>, fs: seq<Frame>): set<nat> {
    if fs == [] then open
    else
      var f := fs[|fs| - 1];
      OpenAfter(open, fs[..|fs| - 1]) - if Is(f, 20, 40) then {f.channel} else {}
  }

  /** Contents in the making are of methods that carry content. */
  predicate RecvOk(st: Recv) {
    !st.AwaitMethod? ==> CarriesContent(st.message.classId, st.message.methodId)
  }

  predicate ConnOk(c: Conn) {
    0 !in c.channels && forall ch :: ch in c.channels ==> RecvOk(c.channels[ch])
  }

  lemma StepOk(st: Recv, f: Frame)
    requires RecvOk(st) && !f.HeartbeatFrame?
    ensures RecvOk(Step(st, f).0)
    ensures Is(f, 20, 40) <==> Step(st, f).1 != [] && ChannelClose(Step(st, f).1[0])
  {
  }

  lemma DemuxOk(c: Conn, f: Frame)
    requires ConnOk(c)
    ensures ConnOk(Demux(c, f))
  {
    if c.phase == Reading && f.channel in c.channels && !f.HeartbeatFrame? {
      StepOk(c.channels[f.channel], f);
    }
  }

  /** One frame: what it does to the connection, and its answer. */
  lemma DemuxStops(c: Conn, f: Frame)
    requires ConnOk(c) && c.phase == Reading
    ensures var d := Demux(c, f);
            && d.phase == Stops(c.channels.Keys, f) && d.sent == c.sent + Answers([f])
            && (d.phase == Reading ==> d.channels.Keys == OpenAfter(c.channels.Keys, [f]))
            && (d.phase != Reading ==> d.log == c.log) && (d.phase == Down ==> d.channels == map[])
  {
    assert [f][..0] == [] && Answers([]) == [];
    assert c.sent + [] == c.sent;
    if f.channel in c.channels && !f.HeartbeatFrame? {
      StepOk(c.channels[f.channel], f);
    }
  }

  lemma OneMoreFrame(c: Conn, open: set<nat>, fs: seq<Frame>, n: nat)
    requires n < |fs|
    ensures DemuxAll(c, fs[..n + 1]) == Demux(DemuxAll(c, fs[..n]), fs[n])
    ensures Answers(fs[..n + 1]) == Answers(fs[..n]) + Answers([fs[n]])
    ensures OpenAfter(open, fs[..n + 1]) == OpenAfter(OpenAfter(open, fs[..n]), [fs[n]])
  {
    assert fs[..n + 1][..n] == fs[..n] && [fs[n]][..0] == [];
    var last := Answers([fs[n]]);
    assert Answers([]) + last == last;
  }

  lemma NoFrames(c: Conn, fs: seq<Frame>)
    ensures DemuxAll(c, fs[..0]) == c && c.sent + Answers(fs[..0]) == c.sent
    ensures OpenAfter(c.channels.Keys, fs[..0]) == c.channels.Keys
  {
  }

  /** The first n frames leave the reader reading. */
  predicate ReadsOn(open: set<nat>, fs: seq<Frame>, n: nat)
    requires n <= |fs|
  {
    forall i: nat :: i < n ==> Stops(OpenAfter(open, fs[..i]), fs[i]) == Reading
  }

  /** As long as no frame stops it, the reader reads, has every close answered in order, and has
      exactly those channels in its registry that were not closed. */
  lemma {:induction false} ClosesAnswered(c: Conn, fs: seq<Frame>, n: nat)
    requires ConnOk(c) && c.phase == Reading && n <= |fs| && ReadsOn(c.channels.Keys, fs, n)
    ensures var d := DemuxAll(c, fs[..n]);
            && ConnOk(d) && d.phase == Reading && d.sent == c.sent + Answers(fs[..n])
            && d.channels.Keys == OpenAfter(c.channels.Keys, fs[..n])
  {
    hide Demux, DemuxAll, Stops, Answers, OpenAfter, ConnOk;
    if n == 0 {
      NoFrames(c, fs);
    } else {
      ClosesAnswered(c, fs, n - 1);
      var d := DemuxAll(c, fs[..n - 1]);
      OneMoreFrame(c, c.channels.Keys, fs, n - 1);
      DemuxStops(d, fs[n - 1]);
      DemuxOk(d, fs[n - 1]);
      assert (c.sent + Answers(fs[..n - 1])) + Answers([fs[n - 1]]) == c.sent + Answers(fs[..n]);
    }
  }

  /** The first frame that stops the reader does so for good, after its own answer: nothing behind
      it is dispatched or answered. */
  lemma {:induction false} StopsForGood(c: Conn, fs: seq<Frame>, n: nat, m: nat)
    requires ConnOk(c) && c.phase == Reading && n < m <= |fs| && ReadsOn(c.channels.Keys, fs, n)
    requires Stops(OpenAfter(c.channels.Keys, fs[..n]), fs[n]) != Reading
    ensures var d := DemuxAll(c, fs[..m]);
            && d.phase == Stops(OpenAfter(c.channels.Keys, fs[..n]), fs[n])
            && d.sent == c.sent + Answers(fs[..n + 1]) && d.log == DemuxAll(c, fs[..n]).log
            && (d.phase == Down ==> d.channels == map[])
    decreases m
  {
    hide DemuxAll, Stops, Answers, OpenAfter, ConnOk, Dispatched;
    if m == n + 1 {
      ClosesAnswered(c, fs, n);
      var d := DemuxAll(c, fs[..n]);
      OneMoreFrame(c, c.channels.Keys, fs, n);
      DemuxStops(d, fs[n]);
      assert (c.sent + Answers(fs[..n])) + Answers([fs[n]]) == c.sent + Answers(fs[..n + 1]);
    } else {
      StopsForGood(c, fs, n, m - 1);
      OneMoreFrame(c, c.channels.Keys, fs, m - 1);
    }
  }

  // ---------------------------------------------------------------- as it runs

  /** A frame on an open channel: the machine, the log, the registry. */
  lemma DemuxInSteps(c: Conn, f: Frame)
    requires c.phase == Reading && f.channel != 0 && f.channel in c.channels && !f.HeartbeatFrame?
    ensures var (st, out) := Step(c.channels[f.channel], f);
            var c1 := c.(channels := c.channels[f.channel := st]);
            && (out == [] ==> Demux(c, f) == c1)
            && (out != [] ==>
                  var c2 := c1.(log := c1.log + [(f.channel, out[0])]);
                  Demux(c, f) == if ChannelClose(out[0])
                    then c2.(channels := c2.channels - {f.channel}, sent := c2.sent + [CloseOk(f.channel)]) else c2)
  {
    var (st, out) := Step(c.channels[f.channel], f);
    assert c.channels[f.channel := st] - {f.channel} == c.channels - {f.channel};
  }

  class Connection {
    var channels: map<nat, Channel>
    var log: seq<(nat, Message)>
    var phase: Phase
    var sent: seq<Frame>

    ghost predicate Valid()
      reads this, channels.Values
    {
      && (forall ch :: ch in channels ==> channels[ch].Valid())
      && (forall a, b :: a in channels && b in channels && a != b ==> channels[a] != channels[b])
    }

    ghost function Abs(): Conn
      reads this, channels.Values
    {
      Conn(map ch | ch in channels :: channels[ch].State(), log, phase, sent)
    }

    constructor ()
      ensures Valid() && channels == map[] && Abs() == Conn(map[], [], Reading, [])
    {
      channels := map[];
      log := [];
      phase := Reading;
      sent := [];
    }

    /** `allocateChannel`: a new machine in the registry. */
    method Open(id: nat)
      requires Valid() && id !in channels
      modifies this
      ensures Valid() && Abs() == old(Abs()).(channels := old(Abs()).channels[id := AwaitMethod])
      ensures fresh(channels.Values - old(channels.Values))
    {
      var channel := new Channel();
      channels := channels[id := channel];
      assert forall ch :: ch in old(channels) ==> old(channels[ch]) == channels[ch] && channels[ch] != channel;
      assert Abs().channels == old(Abs()).channels[id := AwaitMethod];
    }

    method Shutdown()
      modifies this
      ensures Valid() && channels == map[] && log == old(log) && phase == Down && sent == old(sent)
    {
      channels := map[];
      phase := Down;
    }

    /** `send`, of an answer. */
    method Send(f: Frame)
      requires Valid()
      modifies `sent
      ensures Valid() && Abs() == old(Abs()).(sent := old(Abs()).sent + [f])
    {
      sent := sent + [f];
      assert Abs().channels == old(Abs()).channels;
    }

    /** `closeWith` on the reader goroutine: it does not come back. */
    method CloseWith()
      requires Valid()
      modifies `phase
      ensures Valid() && Abs() == old(Abs()).(phase := Blocked)
    {
      phase := Blocked;
      assert Abs().channels == old(Abs()).channels;
    }

    /** `demux` with `dispatch0`, `dispatchN` and `dispatchClosed`. */
    method Receive(f: Frame)
      requires Valid()
      modifies this, channels.Values
      ensures Valid() && Abs() == Demux(old(Abs()), f)
      ensures channels.Values <= old(channels.Values)
    {
      if phase != Reading {
        return;
      }
      if f.channel == 0 {
        if Is(f, 10, 50) {
          Send(MethodFrame(0, 10, 51, []));
          Shutdown();
        } else if f.HeaderFrame? || f.BodyFrame? {
          CloseWith();
        }
      } else if f.channel in channels {
        if f.HeartbeatFrame? {
          Shutdown();
        } else {
          DispatchN(f);
        }
      } else if f.MethodFrame? {
        if Is(f, 20, 40) {
          Send(MethodFrame(f.channel, 20, 41, []));
        } else if !Is(f, 20, 41) {
          CloseWith();
        }
      }
    }

    method DispatchN(f: Frame)
      requires Valid() && phase == Reading && f.channel != 0 && f.channel in channels && !f.HeartbeatFrame?
      modifies this, channels.Values
      ensures Valid() && Abs() == Demux(old(Abs()), f)
      ensures channels.Values <= old(channels.Values)
    {
      var out := Advance(f);
      if out != [] {
        Record(f.channel, out[0]);
        if ChannelClose(out[0]) {
          Release(f.channel);
          Send(MethodFrame(f.channel, 20, 41, []));
        }
      }
      DemuxInSteps(old(Abs()), f);
    }

    /** `dispatch`: here the message is only noted. */
    method Record(id: nat, m: Message)
      requires Valid()
      modifies `log
      ensures Valid() && Abs() == old(Abs()).(log := old(Abs()).log + [(id, m)])
    {
      log := log + [(id, m)];
      assert Abs().channels == old(Abs()).channels;
    }

    /** `releaseChannel`. */
    method Release(id: nat)
      requires Valid()
      modifies this
      ensures Valid() && Abs() == old(Abs()).(channels := old(Abs()).channels - {id})
      ensures channels.Values <= old(channels.Values)
    {
      channels := channels - {id};
      assert Abs().channels == old(Abs()).channels - {id};
    }

    /** `channel.recv(channel, f)`, and what it dispatched. */
    method Advance(f: Frame) returns (out: seq<Message>)
      requires Valid() && f.channel in channels && !f.HeartbeatFrame?
      modifies channels.Values
      ensures Valid() && out == old(Step(channels[f.channel].State(), f).1)
      ensures var st := old(Step(channels[f.channel].State(), f).0);
              Abs() == old(Abs()).(channels := old(Abs()).channels[f.channel := st])
    {
      var channel := channels[f.channel];
      var seen := |channel.dispatched|;
      channel.Receive(f);
      out := channel.dispatched[seen..];
      assert Abs().channels == old(Abs()).channels[f.channel := old(Step(channels[f.channel].State(), f).0)];
    }
  }

  function Fresh(msgs: map<nat, seq<Message>>, todo: set<nat>): map<nat, Recv> {
    map ch | ch in msgs && ch !in todo :: AwaitMethod
  }

  /** A connection with a channel for every conversation. */
  method OpenAll(msgs: map<nat, seq<Message>>) returns (conn: Connection)
    ensures conn.Valid() && fresh(conn) && fresh(conn.channels.Values)
    ensures conn.Abs() == Conn(Fresh(msgs, {}), [], Reading, [])
  {
    conn := new Connection();
    var todo := msgs.Keys;
    while todo != {}
      invariant todo <= msgs.Keys && conn.Valid() && fresh(conn) && fresh(conn.channels.Values)
      invariant conn.Abs() == Conn(Fresh(msgs, todo), [], Reading, [])
      decreases |todo|
    {
      var ch :| ch in todo;
      assert ch !in conn.Abs().channels;
      conn.Open(ch);
      assert Fresh(msgs, todo)[ch := AwaitMethod] == Fresh(msgs, todo - {ch});
      todo := todo - {ch};
    }
  }

  /** The reader loop over frames. */
  method Feed(conn: Connection, frames: seq<Frame>)
    requires conn.Valid()
    modifies conn, conn.channels.Values
    ensures conn.Valid() && conn.Abs() == DemuxAll(old(conn.Abs()), frames)
  {
    assert frames[..0] == [];
    for i := 0 to |frames|
      invariant conn.Valid() && conn.channels.Values <= old(conn.channels.Values)
      invariant conn.Abs() == DemuxAll(old(conn.Abs()), frames[..i])
    {
      assert frames[..i + 1][..i] == frames[..i];
      conn.Receive(frames[i]);
    }
    assert frames[..|frames|] == frames;
  }

  /** End to end: write the interleaved frames, read the octets back, demultiplex. */
  method Loopback(schema: Schema, msgs: map<nat, seq<Message>>, frameSize: nat, fs: seq<Frame>)
    returns (log: seq<(nat, Message)>)
    requires Interleaved(msgs, frameSize, fs)
    requires forall i :: 0 <= i < |fs| ==> Sendable(schema, fs[i])
    ensures forall ch :: ch in msgs ==> SubLog(log, ch) == msgs[ch]
  {
    var wire := WriteFrames(schema, fs);
    var conn := OpenAll(msgs);
    DemuxDelivers(msgs, frameSize, fs, conn.Abs());
    Feed(conn, ReadFrames(schema, wire).0);
    log := conn.log;
  }
}
