/** The LISTEN connection of notify.go: callers of ExecSimpleQuery, one at a time behind
    senderLock, and the goroutine that reads the server, joined by an atomic state word,
    an error field and a reply channel with two slots. Every step of either side is a
    step of one machine; the server may send anything. */
module PqListener {
  import opened Basics

  /** `connState`. */
  datatype Word = Idle | ExpectResponse | ExpectReady

  /** A message on `replyChan`, with the number of the query it was taken as a reply to. */
  datatype Reply = ErrorReply(query: nat, error: nat) | ReadyReply(query: nat)

  /** Where the holder of senderLock is. */
  datatype Pc =
    | Locked                                  // acquireSenderLock, l.err not read yet
    | Checked                                 // l.err was nil: sendSimpleQuery is next
    | Sending(query: nat)                     // state set, writing the query
    | Failing(query: nat)                     // the write failed, l.err not set yet
    | Waiting(query: nat, err: Option<nat>)   // in the loop over replyChan
    | Leaving                                 // returning executed = false

  datatype Sender = Nobody | Holder(caller: nat, pc: Pc)

  /** Where listenerConnMain is. */
  datatype Loop =
    | Reading
    | Posting(reply: Reply)  // about to send on replyChan
    | Broken                 // loop left, l.err not set yet
    | Closing                // l.err set, channel not closed yet
    | Gone

  /** A finished call: executed or not, and the server's error if executed. */
  datatype Return = Executed(caller: nat, query: nat, err: Option<nat>) | NotExecuted(caller: nat)

  datatype State = State(
    word: Word, failed: bool, sender: Sender, loop: Loop,
    replies: seq<Reply>, closed: bool,   // replyChan
    queries: nat,                        // started so far
    taken: seq<Reply>,                   // every reply the reader ever took from the server
    finished: seq<Return>,
    panicked: bool)

  /** What the server, the network and the callers do next. */
  datatype Action =
    | Lock(caller: nat) | Check | SetState | Write(ok: bool) | Record | Receive | Release
    | FromServer(typ: char, error: nat) | ReadFails | Post | SetErr | CloseChan
    | CloseCall

  const SLOTS := 2

  predicate Enabled(s: State, a: Action) {
    !s.panicked &&
    match a
    case Lock(_) => s.sender.Nobody?
    case Check => s.sender.Holder? && s.sender.pc.Locked?
    case SetState => s.sender.Holder? && s.sender.pc.Checked?
    case Write(_) => s.sender.Holder? && s.sender.pc.Sending?
    case Record => s.sender.Holder? && s.sender.pc.Failing?
    case Receive => s.sender.Holder? && s.sender.pc.Waiting? && (s.replies != [] || s.closed)
    case Release => s.sender.Holder? && s.sender.pc.Leaving?
    case FromServer(_, _) => s.loop.Reading?
    case ReadFails => s.loop.Reading?
    case Post => s.loop.Posting? && |s.replies| < SLOTS
    case SetErr => s.loop.Broken?
    case CloseChan => s.loop.Closing?
    case CloseCall => true
  }

  /** `setState`: a compare-and-swap from the one state it may follow. */
  function Expected(to: Word): Word {
    match to
    case Idle => ExpectReady
    case ExpectResponse => Idle
    case ExpectReady => ExpectResponse
  }

  /** `listenerConnLoop` on one message of the server. */
  function OnMessage(s: State, typ: char, error: nat): State {
    if typ in {'A', 'T', 'D', 'N', 'S'} then s
    else if typ == 'E' then
      if s.word == Expected(ExpectReady) then Take(s.(word := ExpectReady), ErrorReply(s.queries, error))
      else s.(loop := Broken)
    else if typ == 'C' || typ == 'I' then
      if s.word == Expected(ExpectReady) then s.(word := ExpectReady) else s.(loop := Broken)
    else if typ == 'Z' then
      if s.word == Expected(Idle) then Take(s.(word := Idle), ReadyReply(s.queries))
      else s.(loop := Broken)
    else s.(loop := Broken)
  }

  function Take(s: State, r: Reply): State {
    s.(loop := Posting(r), taken := s.taken + [r])
  }

  /** One round of the reply loop of ExecSimpleQuery. */
  function OnReply(s: State): State
    requires Enabled(s, Receive)
  {
    var c := s.sender.caller;
    if s.replies == [] then s.(sender := Holder(c, Leaving))
    else
      var rest := s.replies[1..];
      match s.replies[0]
      case ErrorReply(_, e) =>
        s.(replies := rest, sender := Holder(c, Waiting(s.sender.pc.query, Some(e))))
      case ReadyReply(_) =>
        s.(replies := rest, sender := Nobody,
           finished := s.finished + [Executed(c, s.sender.pc.query, s.sender.pc.err)])
  }

  function Apply(s: State, a: Action): State
    requires Enabled(s, a)
  {
    match a
    case Lock(c) => s.(sender := Holder(c, Locked))
    case Check => s.(sender := Holder(s.sender.caller, if s.failed then Leaving else Checked))
    case SetState =>
      if s.word != Expected(ExpectResponse) then s.(panicked := true)
      else s.(word := ExpectResponse, queries := s.queries + 1,
              sender := Holder(s.sender.caller, Sending(s.queries + 1)))
    case Write(ok) =>
      s.(sender := Holder(s.sender.caller,
                          if ok then Waiting(s.sender.pc.query, None) else Failing(s.sender.pc.query)))
    case Record => s.(failed := true, sender := Holder(s.sender.caller, Leaving))
    case Receive => OnReply(s)
    case Release => s.(sender := Nobody, finished := s.finished + [NotExecuted(s.sender.caller)])
    case FromServer(typ, e) => OnMessage(s, typ, e)
    case ReadFails => s.(loop := Broken)
    case Post => s.(loop := Reading, replies := s.replies + [s.loop.reply])
    case SetErr => s.(loop := Closing, failed := true)
    case CloseChan => s.(loop := Gone, closed := true)
    case CloseCall => s.(failed := true)
  }

  const INITIAL := State(Idle, false, Nobody, Reading, [], false, 0, [], [], false)

  /** A run: any actions that were enabled, in any order, and the states they lead through. */
  ghost predicate IsRun(states: seq<State>, actions: seq<Action>) {
    && |states| == |actions| + 1 && states[0] == INITIAL
    && forall i :: 0 <= i < |actions| ==>
      Enabled(states[i], actions[i]) && states[i + 1] == Apply(states[i], actions[i])
  }

  // ---------------------------------------------------------------- the invariant

  /** Replies on their way to the caller: in the channel, then the one being posted. */
  function Pending(s: State): seq<Reply> {
    s.replies + if s.loop.Posting? then [s.loop.reply] else []
  }

  predicate Quiet(word: Word, pending: seq<Reply>) {
    word == Idle && pending == []
  }

  /** The replies taken for one query. */
  function For(taken: seq<Reply>, q: nat): seq<Reply> {
    if taken == [] then []
    else For(taken[..|taken| - 1], q) + if taken[|taken| - 1].query == q then [taken[|taken| - 1]] else []
  }

  function Seen(q: nat, err: Option<nat>): seq<Reply> {
    if err.Some? then [ErrorReply(q, err.value)] else []
  }

  predicate IsErrorFor(r: Reply, q: nat) {
    r.ErrorReply? && r.query == q
  }

  /** The replies to query q so far: none while a response is expected, at most one error
      before the ready message, and the ready message last. */
  predicate InStep(word: Word, q: nat, all: seq<Reply>) {
    match word
    case ExpectResponse => all == []
    case ExpectReady => all == [] || (|all| == 1 && IsErrorFor(all[0], q))
    case Idle => all == [ReadyReply(q)] || (|all| == 2 && IsErrorFor(all[0], q) && all[1] == ReadyReply(q))
  }

  /** The current query q: its replies are in step with the state word, and no more are
      pending than were taken for it. */
  predicate Core(word: Word, q: nat, all: seq<Reply>, pending: seq<Reply>) {
    if q == 0 then all == [] && Quiet(word, pending)
    else InStep(word, q, all) && |pending| <= |all|
  }

  /** What the holder of the lock may rely on; `all` are the replies to query q, the latest. */
  predicate SenderOk(sender: Sender, failed: bool, word: Word, q: nat, all: seq<Reply>, pending: seq<Reply>) {
    match sender
    case Nobody => failed || Quiet(word, pending)
    case Holder(_, pc) =>
      match pc
      case Locked => failed || Quiet(word, pending)
      case Checked => Quiet(word, pending)
      case Sending(p) => p == q > 0 && all == pending
      case Failing(p) => true
      case Waiting(p, err) => p == q > 0 && all == Seen(q, err) + pending
      case Leaving => failed
  }

  /** A query that was executed got exactly the replies the server gave to it. */
  predicate ReturnOk(r: Return, quiet: bool, q: nat, taken: seq<Reply>) {
    r.Executed? ==>
      && r.query <= q
      && For(taken, r.query) == Seen(r.query, r.err) + [ReadyReply(r.query)]
      && (r.query == q ==> quiet)
  }

  predicate ErrFirst(s: State) {
    s.closed || s.loop.Closing? || s.loop.Gone? ==> s.failed
  }

  predicate Tagged(taken: seq<Reply>, q: nat) {
    forall i :: 0 <= i < |taken| ==> taken[i].query <= q
  }

  predicate ReturnsOk(finished: seq<Return>, quiet: bool, q: nat, taken: seq<Reply>) {
    forall i :: 0 <= i < |finished| ==> ReturnOk(finished[i], quiet, q, taken)
  }

  predicate Inv(s: State) {
    var pending, all := Pending(s), For(s.taken, s.queries);
    && !s.panicked && ErrFirst(s) && Tagged(s.taken, s.queries)
    && Core(s.word, s.queries, all, pending)
    && SenderOk(s.sender, s.failed, s.word, s.queries, all, pending)
    && ReturnsOk(s.finished, Quiet(s.word, pending), s.queries, s.taken)
  }

  // ---------------------------------------------------------------- its preservation

  lemma {:induction false} ForNone(taken: seq<Reply>, q: nat)
    requires forall i :: 0 <= i < |taken| ==> taken[i].query < q
    ensures For(taken, q) == []
  {
    if taken != [] {
      ForNone(taken[..|taken| - 1], q);
    }
  }

  lemma ForTake(taken: seq<Reply>, r: Reply, q: nat)
    ensures For(taken + [r], q) == For(taken, q) + if r.query == q then [r] else []
  {
    assert (taken + [r])[..|taken|] == taken;
  }

  /** The reader takes a reply to the current query. */
  lemma TakeKeeps(s: State, t: State, word: Word, r: Reply)
    requires Inv(s) && s.loop.Reading? && s.word == Expected(word) && s.word != Idle && r.query == s.queries
    requires (word == ExpectReady && r.ErrorReply?) || (word == Idle && r.ReadyReply?)
    requires t == Take(s.(word := word), r)
    ensures Inv(t)
  {
    hide Core, SenderOk, ReturnsOk;
    var all, q := For(s.taken, s.queries), s.queries;
    ForTake(s.taken, r, q);
    assert Pending(s) == s.replies && Pending(t) == s.replies + [r];
    TakeCore(s.word, word, q, all, s.replies, r);
    TakeSender(s.sender, s.failed, s.word, word, q, all, s.replies, r);
    TakeReturns(s.finished, q, s.taken, r);
  }

  lemma TakeCore(was: Word, word: Word, q: nat, all: seq<Reply>, pending: seq<Reply>, r: Reply)
    requires Core(was, q, all, pending) && was == Expected(word) && was != Idle && r.query == q
    requires (word == ExpectReady && r.ErrorReply?) || (word == Idle && r.ReadyReply?)
    ensures Core(word, q, all + [r], pending + [r])
  {
  }

  lemma TakeSender(sender: Sender, failed: bool, was: Word, word: Word, q: nat,
                   all: seq<Reply>, pending: seq<Reply>, r: Reply)
    requires SenderOk(sender, failed, was, q, all, pending) && was != Idle
    ensures SenderOk(sender, failed, word, q, all + [r], pending + [r])
  {
    if sender.Holder? && sender.pc.Waiting? {
      var seen := Seen(q, sender.pc.err);
      assert seen + pending + [r] == seen + (pending + [r]);
    }
  }

  lemma TakeReturns(finished: seq<Return>, q: nat, taken: seq<Reply>, r: Reply)
    requires ReturnsOk(finished, false, q, taken) && r.query == q
    ensures ReturnsOk(finished, false, q, taken + [r])
  {
    forall i | 0 <= i < |finished|
      ensures ReturnOk(finished[i], false, q, taken + [r])
    {
      assert ReturnOk(finished[i], false, q, taken);
      if finished[i].Executed? {
        ForTake(taken, r, finished[i].query);
        assert For(taken, finished[i].query) + [] == For(taken, finished[i].query);
      }
    }
  }

  /** Only the parts that matter: the rest of the state may have changed. */
  lemma Frame(s: State, t: State)
    requires Inv(s) && !t.panicked && ErrFirst(t)
    requires t.word == s.word && t.queries == s.queries && t.taken == s.taken && t.finished == s.finished
    requires Pending(t) == Pending(s)
    requires SenderOk(t.sender, t.failed, t.word, t.queries, For(t.taken, t.queries), Pending(t))
    ensures Inv(t)
  {
  }

  /** CommandComplete or EmptyQueryResponse: the caller is not told. */
  lemma CompleteKeeps(s: State)
    requires Inv(s) && s.loop.Reading? && s.word == ExpectResponse
    ensures Inv(s.(word := ExpectReady))
  {
    assert Pending(s.(word := ExpectReady)) == Pending(s);
  }

  lemma BreakKeeps(s: State)
    requires Inv(s) && s.loop.Reading?
    ensures Inv(s.(loop := Broken))
  {
    assert Pending(s.(loop := Broken)) == Pending(s);
    Frame(s, s.(loop := Broken));
  }

  /** What one message of the server can do. */
  lemma Outcomes(s: State, typ: char, e: nat)
    ensures var t := OnMessage(s, typ, e);
            || t == s
            || t == s.(loop := Broken)
            || (s.word == ExpectResponse && t == s.(word := ExpectReady))
            || (s.word == ExpectResponse && t == Take(s.(word := ExpectReady), ErrorReply(s.queries, e)))
            || (s.word == ExpectReady && t == Take(s.(word := Idle), ReadyReply(s.queries)))
  {
  }

  lemma ServerKeeps(s: State, typ: char, e: nat)
    requires Inv(s) && s.loop.Reading?
    ensures Inv(OnMessage(s, typ, e))
  {
    var t := OnMessage(s, typ, e);
    Outcomes(s, typ, e);
    if t == s.(loop := Broken) {
      BreakKeeps(s);
    } else if s.word == ExpectResponse && t == s.(word := ExpectReady) {
      CompleteKeeps(s);
    } else if s.word == ExpectResponse && t != s {
      TakeKeeps(s, t, ExpectReady, ErrorReply(s.queries, e));
    } else if t != s {
      TakeKeeps(s, t, Idle, ReadyReply(s.queries));
    }
  }

  /** Replies arrive in the order taken, so after the ready message nothing is pending. */
  lemma ReadyIsLast(q: nat, word: Word, all: seq<Reply>, seen: seq<Reply>, pending: seq<Reply>)
    requires q > 0 && InStep(word, q, all) && all == seen + pending && pending != [] && pending[0].ReadyReply?
    ensures word == Idle && pending == [ReadyReply(q)] && all == seen + [ReadyReply(q)]
  {
    assert all[|seen|] == pending[0];
    assert all[|seen|..] == pending;
  }

  lemma ErrorIsFirst(q: nat, word: Word, all: seq<Reply>, err: Option<nat>, pending: seq<Reply>)
    requires q > 0 && InStep(word, q, all) && all == Seen(q, err) + pending && pending != [] && pending[0].ErrorReply?
    ensures all == Seen(q, Some(pending[0].error)) + pending[1..]
  {
    assert all[|Seen(q, err)|] == pending[0];
    assert err == None;
    assert all == [pending[0]] + pending[1..];
  }

  /** The caller reads its error. */
  lemma ErrorKeeps(s: State)
    requires Inv(s) && Enabled(s, Receive) && s.replies != [] && s.replies[0].ErrorReply?
    ensures Inv(OnReply(s))
  {
    var t := OnReply(s);
    assert Pending(s)[0] == s.replies[0] && Pending(s)[1..] == Pending(t);
    ErrorIsFirst(s.queries, s.word, For(s.taken, s.queries), s.sender.pc.err, Pending(s));
    ReturnsQuieter(s.finished, false, Quiet(t.word, Pending(t)), s.queries, s.taken);
  }

  /** The caller reads its ready message and returns. */
  lemma ReadyKeeps(s: State)
    requires Inv(s) && Enabled(s, Receive) && s.replies != [] && s.replies[0].ReadyReply?
    ensures Inv(OnReply(s))
  {
    var q, err := s.queries, s.sender.pc.err;
    PendingAfter(s);
    ReadyIsLast(q, s.word, For(s.taken, q), Seen(q, err), Pending(s));
    ReturnsReady(s.finished, Executed(s.sender.caller, q, err), Quiet(s.word, Pending(s)), q, s.taken);
    QuietInv(OnReply(s));
  }

  lemma PendingAfter(s: State)
    ensures Enabled(s, Receive) && s.replies != [] ==>
      Pending(s) != [] && Pending(s)[0] == s.replies[0] && Pending(OnReply(s)) == Pending(s)[1..]
  {
  }

  /** Nobody waits and nothing is pending. */
  lemma QuietInv(t: State)
    requires !t.panicked && ErrFirst(t) && Tagged(t.taken, t.queries) && t.sender.Nobody?
    requires t.queries > 0 && Quiet(t.word, Pending(t)) && InStep(t.word, t.queries, For(t.taken, t.queries))
    requires ReturnsOk(t.finished, true, t.queries, t.taken)
    ensures Inv(t)
  {
  }

  lemma ReturnsReady(finished: seq<Return>, r: Return, was: bool, q: nat, taken: seq<Reply>)
    requires ReturnsOk(finished, was, q, taken) && ReturnOk(r, true, q, taken)
    ensures ReturnsOk(finished + [r], true, q, taken)
  {
    ReturnsQuieter(finished, was, true, q, taken);
    ReturnsAppend(finished, r, q, taken);
  }

  lemma ReturnsAppend(finished: seq<Return>, r: Return, q: nat, taken: seq<Reply>)
    ensures ReturnsOk(finished, true, q, taken) && ReturnOk(r, true, q, taken) ==>
      ReturnsOk(finished + [r], true, q, taken)
  {
  }

  /** The caller reads a reply, or finds the channel closed. */
  lemma ReceiveKeeps(s: State)
    requires Inv(s) && Enabled(s, Receive)
    ensures Inv(OnReply(s))
  {
    if s.replies == [] {
      assert Pending(OnReply(s)) == Pending(s);
      Frame(s, OnReply(s));
    } else if s.replies[0].ReadyReply? {
      ReadyKeeps(s);
    } else {
      ErrorKeeps(s);
    }
  }

  lemma ReturnsQuieter(finished: seq<Return>, was: bool, now: bool, q: nat, taken: seq<Reply>)
    requires ReturnsOk(finished, was, q, taken) && (was ==> now)
    ensures ReturnsOk(finished, now, q, taken)
  {
    forall i | 0 <= i < |finished|
      ensures ReturnOk(finished[i], now, q, taken)
    {
      assert ReturnOk(finished[i], was, q, taken);
    }
  }

  /** A query starts: nothing is left over from the one before. */
  lemma StartKeeps(s: State)
    requires Inv(s) && Enabled(s, SetState)
    ensures s.word == Idle && Pending(s) == [] && Inv(Apply(s, SetState))
  {
    var t := Apply(s, SetState);
    ForNone(s.taken, t.queries);
    assert Pending(t) == [];
    forall i | 0 <= i < |t.finished|
      ensures ReturnOk(t.finished[i], false, t.queries, t.taken)
    {
      assert ReturnOk(s.finished[i], true, s.queries, s.taken);
    }
  }

  lemma PostKeeps(s: State)
    requires Inv(s) && s.loop.Posting?
    ensures |s.replies| < SLOTS && Inv(s.(loop := Reading, replies := s.replies + [s.loop.reply]))
  {
    assert |Pending(s)| == |s.replies| + 1;
    var t := s.(loop := Reading, replies := s.replies + [s.loop.reply]);
    assert Pending(t) == Pending(s);
  }

  lemma ReleaseKeeps(s: State)
    requires Inv(s) && Enabled(s, Release)
    ensures Inv(Apply(s, Release))
  {
    var t := Apply(s, Release);
    assert Pending(t) == Pending(s);
    forall i | 0 <= i < |t.finished|
      ensures ReturnOk(t.finished[i], Quiet(t.word, Pending(t)), t.queries, t.taken)
    {
      assert i < |s.finished| ==> t.finished[i] == s.finished[i];
    }
  }

  lemma OtherKeeps(s: State, a: Action)
    requires Inv(s) && Enabled(s, a)
    requires a.Lock? || a.Check? || a.Write? || a.Record? || a.ReadFails? || a.SetErr? || a.CloseChan? || a.CloseCall?
    ensures Inv(Apply(s, a))
  {
    assert Pending(Apply(s, a)) == Pending(s);
    assert [] + Pending(s) == Pending(s);
    Frame(s, Apply(s, a));
  }

  lemma StepKeeps(s: State, a: Action)
    requires Inv(s) && Enabled(s, a)
    ensures Inv(Apply(s, a))
  {
    if a.FromServer? {
      ServerKeeps(s, a.typ, a.error);
    } else if a.Receive? {
      ReceiveKeeps(s);
    } else if a.SetState? {
      StartKeeps(s);
    } else if a.Post? {
      PostKeeps(s);
    } else if a.Release? {
      ReleaseKeeps(s);
    } else {
      OtherKeeps(s, a);
    }
  }

  lemma {:induction false} InvariantHolds(states: seq<State>, actions: seq<Action>, n: nat)
    requires IsRun(states, actions) && n < |states|
    ensures Inv(states[n])
  {
    if n > 0 {
      InvariantHolds(states, actions, n - 1);
      assert Enabled(states[n - 1], actions[n - 1]);
      StepKeeps(states[n - 1], actions[n - 1]);
    }
  }

  // ---------------------------------------------------------------- what it means

  /** In every run, whatever the server sends: the channel never holds more than its two
      slots and the reader never blocks on it; a query starts with an idle state word and
      an empty channel, so the panic on two running queries is out of reach. */
  lemma ChannelSafe(states: seq<State>, actions: seq<Action>, n: nat)
    requires IsRun(states, actions) && n < |states|
    ensures var s := states[n];
            && |s.replies| <= SLOTS
            && (s.loop.Posting? ==> Enabled(s, Post))
            && (Enabled(s, SetState) ==> s.word == Idle && s.replies == [] && !Apply(s, SetState).panicked)
            && !s.panicked
  {
    var s := states[n];
    InvariantHolds(states, actions, n);
    assert |s.replies| <= |Pending(s)| <= SLOTS;
    if s.loop.Posting? {
      PostKeeps(s);
    }
    if Enabled(s, SetState) {
      StartKeeps(s);
    }
  }

  /** A call that reports "executed" reports its own query's error, and one only if there
      was one: the replies ever taken for that query are that error, if any, and one ready. */
  lemma OwnReplies(states: seq<State>, actions: seq<Action>, n: nat, i: nat)
    requires IsRun(states, actions) && n < |states|
    requires i < |states[n].finished| && states[n].finished[i].Executed?
    ensures var r := states[n].finished[i];
            For(states[n].taken, r.query) == Seen(r.query, r.err) + [ReadyReply(r.query)]
  {
    InvariantHolds(states, actions, n);
    var s := states[n];
    assert ReturnOk(s.finished[i], Quiet(s.word, Pending(s)), s.queries, s.taken);
  }

  /** After a call has returned "not executed" the connection has failed for good: no
      later call gets as far as sending a query. */
  lemma {:induction false} FailureIsFinal(states: seq<State>, actions: seq<Action>, m: nat, n: nat)
    requires IsRun(states, actions) && m <= n < |states| && states[m].failed && states[m].sender.Nobody?
    ensures states[n].failed && states[n].queries == states[m].queries
    ensures states[n].sender.Holder? ==> states[n].sender.pc.Locked? || states[n].sender.pc.Leaving?
  {
    if m < n {
      FailureIsFinal(states, actions, m, n - 1);
      assert Enabled(states[n - 1], actions[n - 1]);
      assert states[n] == Apply(states[n - 1], actions[n - 1]);
    }
  }

  /** Closing, a write that fails and the end of the reader each make the connection fail, and it
      stays so. */
  lemma {:induction false} FailedForGood(states: seq<State>, actions: seq<Action>, m: nat, n: nat)
    requires IsRun(states, actions) && m < n < |states|
    requires actions[m].CloseCall? || actions[m].Record? || actions[m].SetErr?
    ensures states[n].failed
  {
    if m < n - 1 {
      FailedForGood(states, actions, m, n - 1);
    }
    assert Enabled(states[n - 1], actions[n - 1]);
    assert states[n] == Apply(states[n - 1], actions[n - 1]);
  }

  lemma NotExecutedMeansFailed(states: seq<State>, actions: seq<Action>, n: nat)
    requires IsRun(states, actions) && n < |states|
    requires Enabled(states[n], Release)
    ensures states[n].failed
  {
    InvariantHolds(states, actions, n);
  }

  /** A write that fails: the connection has failed, and the call returns "not executed". */
  lemma FailedWrite(s: State)
    requires Enabled(s, Write(false))
    ensures var t := Apply(s, Write(false));
            && Enabled(t, Record) && Enabled(Apply(t, Record), Release)
            && var u := Apply(Apply(t, Record), Release);
               && u.failed && u.sender.Nobody? && u.finished == s.finished + [NotExecuted(s.sender.caller)]
  {
  }

  // ---------------------------------------------------------------- every call returns

  /** The channel is closed when the reader is gone, and only then. */
  lemma {:induction false} ClosedWhenGone(states: seq<State>, actions: seq<Action>, n: nat)
    requires IsRun(states, actions) && n < |states|
    ensures states[n].closed <==> states[n].loop.Gone?
  {
    if n > 0 {
      ClosedWhenGone(states, actions, n - 1);
      assert Enabled(states[n - 1], actions[n - 1]);
      assert states[n] == Apply(states[n - 1], actions[n - 1]);
    }
  }

  /** What the caller and the reader do next by themselves, if they can do anything. */
  function OwnAction(s: State): Option<Action> {
    if s.sender.Holder? && s.sender.pc.Locked? then Some(Check)
    else if s.sender.Holder? && s.sender.pc.Checked? then Some(SetState)
    else if s.sender.Holder? && s.sender.pc.Sending? then Some(Write(true))
    else if s.sender.Holder? && s.sender.pc.Failing? then Some(Record)
    else if s.sender.Holder? && s.sender.pc.Leaving? then Some(Release)
    else if s.sender.Holder? && (s.replies != [] || s.closed) then Some(Receive)
    else if s.loop.Posting? then Some(Post)
    else if s.loop.Broken? then Some(SetErr)
    else if s.loop.Closing? then Some(CloseChan)
    else None
  }

  lemma NotReadyYet(word: Word, q: nat, all: seq<Reply>, err: Option<nat>)
    requires InStep(word, q, all) && all == Seen(q, err) + []
    ensures word != Idle
  {
    assert all == Seen(q, err);
    assert all != [] ==> all[|all| - 1].ErrorReply?;
  }

  /** In every run a call under way can go on by itself, unless it waits for the server. */
  lemma NeverStuck(states: seq<State>, actions: seq<Action>, n: nat)
    requires IsRun(states, actions) && n < |states| && states[n].sender.Holder?
    ensures var s := states[n];
            && (OwnAction(s).Some? ==> Enabled(s, OwnAction(s).value))
            && (OwnAction(s).None? ==> s.loop.Reading? && s.sender.pc.Waiting? && s.replies == [] && s.word != Idle)
  {
    InvariantHolds(states, actions, n);
    ClosedWhenGone(states, actions, n);
    var s := states[n];
    if OwnAction(s).None? {
      assert Pending(s) == [];
      NotReadyYet(s.word, s.queries, For(s.taken, s.queries), s.sender.pc.err);
    }
  }

  /** Messages the reader passes over, and closing, which may come at any time. */
  predicate Aside(a: Action) {
    a.CloseCall? || (a.FromServer? && a.typ in {'A', 'T', 'D', 'N', 'S'})
  }

  /** How far the call under way is from its return, at most. */
  function Rank(s: State): nat
    requires s.sender.Holder?
  {
    var pc := match s.sender.pc
      case Locked => 11
      case Checked => 10
      case Sending(_) => 3
      case Failing(_) => 2
      case Waiting(_, _) => 2
      case Leaving => 1;
    var word := match s.word
      case ExpectResponse => 6
      case ExpectReady => 3
      case Idle => 0;
    var loop := match s.loop
      case Reading => 3
      case Posting(_) => 5
      case Broken => 2
      case Closing => 1
      case Gone => 0;
    pc + word + loop + |s.replies|
  }

  /** The call has returned. */
  predicate Returned(s: State, t: State, c: nat) {
    t.sender.Nobody? && |t.finished| == |s.finished| + 1 && t.finished[..|s.finished|] == s.finished
    && (t.finished[|s.finished|] == NotExecuted(c)
        || (t.finished[|s.finished|].Executed? && t.finished[|s.finished|].caller == c))
  }

  /** The call goes on, nearer to its return unless the step was aside, or it has returned. */
  predicate Counts(s: State, a: Action, t: State)
    requires s.sender.Holder?
  {
    || Returned(s, t, s.sender.caller)
    || (t.sender.Holder? && t.sender.caller == s.sender.caller && t.finished == s.finished
        && if Aside(a) then Rank(t) == Rank(s) else Rank(t) < Rank(s))
  }

  lemma SenderCounts(s: State, a: Action)
    requires Enabled(s, a) && s.sender.Holder?
    requires a.Check? || a.Write? || a.Record? || a.Receive? || a.Release?
    ensures Counts(s, a, Apply(s, a))
  {
  }

  lemma MessageCounts(s: State, typ: char, e: nat)
    requires s.loop.Reading? && s.sender.Holder?
    ensures Counts(s, FromServer(typ, e), OnMessage(s, typ, e))
  {
  }

  lemma ReaderCounts(s: State, a: Action)
    requires Enabled(s, a) && s.sender.Holder?
    requires a.ReadFails? || a.Post? || a.SetErr? || a.CloseChan? || a.CloseCall?
    ensures Counts(s, a, Apply(s, a))
  {
  }

  /** Whatever the server sends, every step but those brings a call under way nearer to its
      return. */
  lemma EveryStepCounts(s: State, a: Action)
    requires Inv(s) && Enabled(s, a) && s.sender.Holder?
    ensures Counts(s, a, Apply(s, a))
  {
    if a.SetState? {
      StartKeeps(s);
    } else if a.FromServer? {
      MessageCounts(s, a.typ, a.error);
    } else if a.Check? || a.Write? || a.Record? || a.Receive? || a.Release? {
      SenderCounts(s, a);
    } else {
      ReaderCounts(s, a);
    }
  }

  /** So in every run a call returns after at most as many steps that count as its rank says. */
  lemma {:induction false} CallReturns(states: seq<State>, actions: seq<Action>, m: nat, n: nat)
    requires IsRun(states, actions) && m <= n < |states| && states[m].sender.Holder?
    requires forall i :: m <= i <= n ==> states[i].finished == states[m].finished
    ensures states[n].sender.Holder? && states[n].sender.caller == states[m].sender.caller
    ensures Rank(states[n]) + Steps(actions[m..n]) <= Rank(states[m])
  {
    hide Rank, Apply, Enabled, Inv, Aside;
    if m == n {
      assert actions[m..n] == [];
    } else {
      CallReturns(states, actions, m, n - 1);
      InvariantHolds(states, actions, n - 1);
      assert Enabled(states[n - 1], actions[n - 1]) && states[n] == Apply(states[n - 1], actions[n - 1]);
      EveryStepCounts(states[n - 1], actions[n - 1]);
      assert actions[m..n][..n - 1 - m] == actions[m..n - 1];
    }
  }

  /** Those of the steps that count. */
  function Steps(actions: seq<Action>): nat {
    if actions == [] then 0
    else Steps(actions[..|actions| - 1]) + if Aside(actions[|actions| - 1]) then 0 else 1
  }

  // ---------------------------------------------------------------- a server that keeps to the protocol

  /** What the server has sent: an answer to each of the first queries, with its error if it was
      one, and how many of them it has followed by ReadyForQuery. */
  datatype Server = Server(given: seq<Option<nat>>, readied: nat)

  const SILENT := Server([], 0)

  function Sends(v: Server, a: Action): Server {
    if !a.FromServer? then v
    else if a.typ == 'E' then v.(given := v.given + [Some(a.error)])
    else if a.typ == 'C' || a.typ == 'I' then v.(given := v.given + [None])
    else if a.typ == 'Z' then v.(readied := v.readied + 1)
    else v
  }

  /** One CommandComplete, EmptyQueryResponse or ErrorResponse for each query that was begun, and
      then one ReadyForQuery; rows, notices, notifications and parameters at any time. */
  predicate LawfulMessage(v: Server, queries: nat, typ: char) {
    || typ in {'A', 'T', 'D', 'N', 'S'}
    || (typ in {'C', 'I', 'E'} && |v.given| == v.readied < queries)
    || (typ == 'Z' && v.readied < |v.given|)
  }

  /** The server keeps to the protocol, the network works and nobody closes the connection. */
  predicate Lawful(v: Server, s: State, a: Action) {
    match a
    case FromServer(typ, _) => LawfulMessage(v, s.queries, typ)
    case Write(ok) => ok
    case ReadFails => false
    case CloseCall => false
    case _ => true
  }

  ghost predicate IsLawfulRun(states: seq<State>, actions: seq<Action>, servers: seq<Server>) {
    && IsRun(states, actions) && |servers| == |states| && servers[0] == SILENT
    && forall i :: 0 <= i < |actions| ==>
      Lawful(servers[i], states[i], actions[i]) && servers[i + 1] == Sends(servers[i], actions[i])
  }

  /** The replies the reader has taken for query q are what the server has sent for it. */
  predicate TookAll(v: Server, taken: seq<Reply>, q: nat) {
    For(taken, q) == (if 0 < q <= |v.given| then Seen(q, v.given[q - 1]) else [])
                   + (if 0 < q <= v.readied then [ReadyReply(q)] else [])
  }

  /** The state word says what the server has still to send for the last query. */
  predicate WordOk(v: Server, word: Word, q: nat) {
    match word
    case ExpectResponse => |v.given| == v.readied && v.readied + 1 == q
    case ExpectReady => |v.given| == q && v.readied + 1 == q
    case Idle => |v.given| == q && v.readied == q
  }

  predicate Working(s: State) {
    && !s.failed && !s.closed && (s.loop.Reading? || s.loop.Posting?)
    && (s.sender.Holder? ==> !s.sender.pc.Failing? && !s.sender.pc.Leaving?)
    && forall i :: 0 <= i < |s.finished| ==> s.finished[i].Executed?
  }

  ghost predicate Served(v: Server, s: State) {
    && Inv(s) && Working(s) && WordOk(v, s.word, s.queries)
    && forall q: nat :: q <= s.queries ==> TookAll(v, s.taken, q)
  }

  /** While the server keeps to the protocol, the reader leaves its loop exactly on a message that
      does not. */
  lemma BreaksExactly(v: Server, s: State, typ: char, e: nat)
    requires Served(v, s) && s.loop.Reading?
    ensures OnMessage(s, typ, e).loop.Broken? <==> !LawfulMessage(v, s.queries, typ)
  {
  }

  lemma TookAnswer(v: Server, taken: seq<Reply>, last: nat, err: Option<nat>, q: nat)
    requires TookAll(v, taken, q) && |v.given| == v.readied && v.readied + 1 == last && q <= last
    ensures TookAll(v.(given := v.given + [err]), taken + Seen(last, err), q)
  {
    if err.Some? {
      ForTake(taken, ErrorReply(last, err.value), q);
    } else {
      assert taken + [] == taken;
    }
    assert For(taken, q) + [] == For(taken, q) && [] + Seen(last, err) == Seen(last, err) + [];
  }

  lemma TookReady(v: Server, taken: seq<Reply>, last: nat, q: nat)
    requires TookAll(v, taken, q) && |v.given| == last && v.readied + 1 == last && q <= last
    ensures TookAll(v.(readied := last), taken + [ReadyReply(last)], q)
  {
    ForTake(taken, ReadyReply(last), q);
    assert For(taken, q) + [] == For(taken, q);
  }

  lemma TookMore(v: Server, s: State, a: Action, q: nat)
    requires Served(v, s) && s.loop.Reading? && a.FromServer? && LawfulMessage(v, s.queries, a.typ) && q <= s.queries
    ensures TookAll(Sends(v, a), OnMessage(s, a.typ, a.error).taken, q)
  {
    hide TookAll, Inv, Working, For;
    if a.typ == 'E' {
      TookAnswer(v, s.taken, s.queries, Some(a.error), q);
    } else if a.typ == 'C' || a.typ == 'I' {
      TookAnswer(v, s.taken, s.queries, None, q);
      assert s.taken + [] == s.taken;
    } else if a.typ == 'Z' {
      TookReady(v, s.taken, s.queries, q);
    }
  }

  lemma MessageServed(v: Server, s: State, a: Action)
    requires Served(v, s) && Enabled(s, a) && a.FromServer? && Lawful(v, s, a)
    ensures Served(Sends(v, a), Apply(s, a))
  {
    hide TookAll, Inv;
    StepKeeps(s, a);
    forall q: nat | q <= s.queries ensures TookAll(Sends(v, a), Apply(s, a).taken, q) {
      TookMore(v, s, a, q);
    }
  }

  lemma NoneTaken(v: Server, s: State)
    requires Inv(s) && WordOk(v, s.word, s.queries) && s.word == Idle
    ensures TookAll(v, s.taken, s.queries + 1)
  {
    ForNone(s.taken, s.queries + 1);
  }

  lemma OtherServed(v: Server, s: State, a: Action)
    requires Served(v, s) && Enabled(s, a) && !a.FromServer? && Lawful(v, s, a)
    ensures Served(v, Apply(s, a))
  {
    hide TookAll, Inv;
    StepKeeps(s, a);
    var t := Apply(s, a);
    if a.SetState? {
      StartKeeps(s);
      NoneTaken(v, s);
    }
    assert t.taken == s.taken;
    forall q: nat | q <= t.queries ensures TookAll(v, t.taken, q) {
      assert q <= s.queries ==> TookAll(v, s.taken, q);
    }
  }

  lemma {:induction false} LawfulServed(states: seq<State>, actions: seq<Action>, servers: seq<Server>, n: nat)
    requires IsLawfulRun(states, actions, servers) && n < |states|
    ensures Served(servers[n], states[n])
  {
    if n == 0 {
      assert forall q: nat :: q <= 0 ==> TookAll(SILENT, [], q);
    } else {
      LawfulServed(states, actions, servers, n - 1);
      var s, v, a := states[n - 1], servers[n - 1], actions[n - 1];
      assert Enabled(s, a) && states[n] == Apply(s, a) && Lawful(v, s, a) && servers[n] == Sends(v, a);
      if a.FromServer? {
        MessageServed(v, s, a);
      } else {
        OtherServed(v, s, a);
      }
    }
  }

  /** In every run in which the server keeps to the protocol and nothing else fails: the reader
      stays in its loop, the connection does not fail, and every call that has returned was
      executed and reports exactly the error the server sent for its query, if it sent one. */
  lemma AllExecuted(states: seq<State>, actions: seq<Action>, servers: seq<Server>, n: nat)
    requires IsLawfulRun(states, actions, servers) && n < |states|
    ensures var s, v := states[n], servers[n];
            && !s.failed && (s.loop.Reading? || s.loop.Posting?)
            && forall i :: 0 <= i < |s.finished| ==>
                 var r := s.finished[i];
                 r.Executed? && 0 < r.query <= |v.given| && r.err == v.given[r.query - 1]
  {
    LawfulServed(states, actions, servers, n);
    var s, v := states[n], servers[n];
    hide IsLawfulRun, Inv, TookAll;
    forall i | 0 <= i < |s.finished|
      ensures var r := s.finished[i];
              r.Executed? && 0 < r.query <= |v.given| && r.err == v.given[r.query - 1]
    {
      ReportsAnswer(v, s, i);
    }
  }

  lemma ReportsAnswer(v: Server, s: State, i: nat)
    requires Served(v, s) && i < |s.finished|
    ensures var r := s.finished[i];
            r.Executed? && 0 < r.query <= |v.given| && r.err == v.given[r.query - 1]
  {
    hide Core, SenderOk, For, Tagged, Seen;
    var r := s.finished[i];
    assert ReturnOk(r, Quiet(s.word, Pending(s)), s.queries, s.taken);
    assert TookAll(v, s.taken, r.query);
    OneAnswer(v, r.query, r.err);
  }

  lemma OneAnswer(v: Server, q: nat, err: Option<nat>)
    requires (if 0 < q <= |v.given| then Seen(q, v.given[q - 1]) else [])
           + (if 0 < q <= v.readied then [ReadyReply(q)] else []) == Seen(q, err) + [ReadyReply(q)]
    requires v.readied <= |v.given|
    ensures 0 < q <= |v.given| && err == v.given[q - 1]
  {
    var a := if 0 < q <= |v.given| then Seen(q, v.given[q - 1]) else [];
    var b := if 0 < q <= v.readied then [ReadyReply(q)] else [];
    var all := Seen(q, err) + [ReadyReply(q)];
    assert all[|all| - 1] == ReadyReply(q);
    if b == [] {
      assert false;
    }
    assert a == all[..|all| - 1] == Seen(q, err);
  }

  /** And a call under way waits for the server only as long as the server owes it an answer or
      the ReadyForQuery behind it. */
  lemma ServerOwes(states: seq<State>, actions: seq<Action>, servers: seq<Server>, n: nat)
    requires IsLawfulRun(states, actions, servers) && n < |states| && states[n].sender.Holder?
    requires OwnAction(states[n]).None?
    ensures servers[n].readied < states[n].queries == states[n].sender.pc.query
  {
    NeverStuck(states, actions, n);
    LawfulServed(states, actions, servers, n);
  }
}
