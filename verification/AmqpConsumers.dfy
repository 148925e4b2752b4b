/** The unbounded queue between the connection and a consumer (consumers.go): the steps of
    `bufferDeliveries` among those of a producer and a consumer. */
module AmqpConsumers {
  import opened Basics

  /** Where the buffer stands: at the outer receive, holding one delivery, at the inner
      select, or returned. */
  datatype Place<D> = Outer | Holding(d: D) | Inner | Returned

  datatype State<D> = State(
    sent: seq<D>,        // everything the producer put into `in`
    inbox: seq<D>,       // of that, not yet received
    inClosed: bool,
    received: seq<D>,
    queue: seq<D>,
    queueIn: bool,       // queueIn is not nil
    at: Place<D>,
    emitted: seq<D>,     // everything the consumer got from `out`
    outClosed: bool)

  function Initial<D>(): State<D> {
    State([], [], false, [], [], true, Outer, [], false)
  }

  datatype Action<D> =
    | Produce(d: D) | CloseIn
    | Range | RangeEnds | SendNow | Enqueue
    | SendHead | ReceiveMore | SeeClosed

  predicate Enabled<D>(s: State<D>, a: Action<D>) {
    match a
    case Produce(d) => !s.inClosed
    case CloseIn => !s.inClosed
    case Range => s.at == Outer && s.inbox != []
    case RangeEnds => s.at == Outer && s.inbox == [] && s.inClosed
    case SendNow => s.at.Holding?
    case Enqueue => s.at.Holding?
    case SendHead => s.at == Inner && s.queue != []
    case ReceiveMore => s.at == Inner && s.queueIn && s.inbox != []
    case SeeClosed => s.at == Inner && s.queueIn && s.inbox == [] && s.inClosed
  }

  /** The inner loop goes on while the queue is not empty. */
  function Looping<D>(s: State<D>): State<D> {
    s.(at := if s.queue == [] then Outer else Inner)
  }

  function Apply<D>(s: State<D>, a: Action<D>): State<D>
    requires Enabled(s, a)
  {
    match a
    case Produce(d) => s.(sent := s.sent + [d], inbox := s.inbox + [d])
    case CloseIn => s.(inClosed := true)
    case Range => s.(inbox := s.inbox[1..], received := s.received + [s.inbox[0]], at := Holding(s.inbox[0]))
    case RangeEnds => s.(outClosed := true, at := Returned)
    case SendNow => Looping(s.(emitted := s.emitted + [s.at.d]))
    case Enqueue => Looping(s.(queue := s.queue + [s.at.d]))
    case SendHead => Looping(s.(emitted := s.emitted + [s.queue[0]], queue := s.queue[1..]))
    case ReceiveMore =>
      Looping(s.(inbox := s.inbox[1..], received := s.received + [s.inbox[0]], queue := s.queue + [s.inbox[0]]))
    case SeeClosed => Looping(s.(queueIn := false))
  }

  predicate IsRun<D(==)>(states: seq<State<D>>, acts: seq<Action<D>>) {
    && |states| == |acts| + 1 && states[0] == Initial()
    && forall i :: 0 <= i < |acts| ==> Enabled(states[i], acts[i]) && states[i + 1] == Apply(states[i], acts[i])
  }

  function Held<D>(s: State<D>): seq<D> {
    if s.at.Holding? then [s.at.d] else []
  }

  /** Deliveries out, in hand and queued are those received, in order. */
  ghost predicate Inv<D>(s: State<D>) {
    && s.emitted + Held(s) + s.queue == s.received
    && s.received + s.inbox == s.sent
    && (s.at != Inner <==> s.queue == [])
    && (!s.queueIn ==> s.inClosed && s.inbox == [])
    && (s.outClosed <==> s.at == Returned)
    && (s.outClosed ==> s.inClosed && s.inbox == [])
  }

  lemma RangeKeeps<D>(s: State<D>)
    requires Inv(s) && Enabled(s, Range)
    ensures Inv(Apply(s, Range))
  {
    assert s.emitted + [] + [] == s.emitted;
    assert s.inbox == [s.inbox[0]] + s.inbox[1..];
    Concat3(s.received, [s.inbox[0]], s.inbox[1..]);
    assert s.emitted + [s.inbox[0]] + [] == s.emitted + [s.inbox[0]];
  }

  lemma ReceiveMoreKeeps<D>(s: State<D>)
    requires Inv(s) && Enabled(s, ReceiveMore)
    ensures Inv(Apply(s, ReceiveMore))
  {
    assert s.inbox == [s.inbox[0]] + s.inbox[1..];
    Concat3(s.received, [s.inbox[0]], s.inbox[1..]);
    Concat3(s.emitted + [], s.queue, [s.inbox[0]]);
  }

  lemma SendHeadKeeps<D>(s: State<D>)
    requires Inv(s) && Enabled(s, SendHead)
    ensures Inv(Apply(s, SendHead))
  {
    assert s.queue == [s.queue[0]] + s.queue[1..];
    Concat3(s.emitted, [s.queue[0]], s.queue[1..]);
    assert s.emitted + [] == s.emitted;
    assert s.emitted + [s.queue[0]] + [] == s.emitted + [s.queue[0]];
  }

  lemma HoldingKeeps<D>(s: State<D>, a: Action<D>)
    requires Inv(s) && Enabled(s, a) && (a.SendNow? || a.Enqueue?)
    ensures Inv(Apply(s, a))
  {
    assert s.emitted + [s.at.d] + [] == s.emitted + [s.at.d];
    assert s.emitted + [] == s.emitted;
    assert [] + [s.at.d] == [s.at.d];
  }

  lemma StepKeeps<D>(s: State<D>, a: Action<D>)
    requires Inv(s) && Enabled(s, a)
    ensures Inv(Apply(s, a))
  {
    match a
    case Produce(d) =>
      Concat3(s.received, s.inbox, [d]);
    case Range =>
      RangeKeeps(s);
    case ReceiveMore =>
      ReceiveMoreKeeps(s);
    case SendHead =>
      SendHeadKeeps(s);
    case SendNow =>
      HoldingKeeps(s, a);
    case Enqueue =>
      HoldingKeeps(s, a);
    case CloseIn =>
    case RangeEnds =>
    case SeeClosed =>
  }

  lemma {:induction false} InvariantHolds<D>(states: seq<State<D>>, acts: seq<Action<D>>, k: nat)
    requires IsRun(states, acts) && k < |states|
    ensures Inv(states[k])
  {
    if k > 0 {
      InvariantHolds(states, acts, k - 1);
      StepKeeps(states[k - 1], acts[k - 1]);
    }
  }

  /** In every schedule: what the consumer got, followed by what is in hand, queued and not
      yet received, is what was sent; and when the output is closed the consumer got it all. */
  lemma NothingLost<D>(states: seq<State<D>>, acts: seq<Action<D>>, k: nat)
    requires IsRun(states, acts) && k < |states|
    ensures var s := states[k];
            && s.emitted + Held(s) + s.queue + s.inbox == s.sent
            && s.emitted <= s.sent
            && (s.outClosed ==> s.inClosed && s.emitted == s.sent)
  {
    InvariantHolds(states, acts, k);
  }

  /** Steps of the buffer that are left once the input is closed. */
  function Remaining<D>(s: State<D>): nat {
    4 * |s.inbox| + 2 * |s.queue|
    + (if s.at.Holding? then 3 else 0)
    + (if s.queueIn then 1 else 0) + (if s.outClosed then 0 else 1)
  }

  function NextStep<D>(s: State<D>): Action<D> {
    match s.at
    case Outer => if s.inbox != [] then Range else RangeEnds
    case Holding(_) => SendNow
    case Inner => SendHead
    case Returned => CloseIn
  }

  /** After the producer closed its end, the buffer always has a step until it closed the
      output, and each of its steps brings that nearer: it ends, whatever it chooses. */
  lemma ItEnds<D>(s: State<D>, a: Action<D>)
    requires Inv(s) && s.inClosed && !s.outClosed
    ensures Enabled(s, NextStep(s))
    ensures Enabled(s, a) ==> Remaining(Apply(s, a)) < Remaining(s)
  {
  }

  /** What the buffer does when the consumer does not read. */
  function Intake<D>(s: State<D>): Action<D> {
    match s.at
    case Outer => Range
    case Holding(_) => Enqueue
    case Inner => ReceiveMore
    case Returned => CloseIn
  }

  /** The producer is never held up by the consumer: whatever waits is taken in, at once or after
      the delivery in hand was queued, without anything being sent on. */
  lemma TakesIn<D>(s: State<D>)
    requires Inv(s) && s.inbox != []
    ensures Enabled(s, Intake(s))
    ensures var t := Apply(s, Intake(s));
            && t.emitted == s.emitted && t.sent == s.sent
            && if s.at.Holding? then t.inbox == s.inbox && t.at == Inner else t.inbox == s.inbox[1..]
  {
  }
}
