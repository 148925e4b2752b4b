/** Request and response on a Postgres connection (conn.go): every operation reads the
    server's messages up to and including its own ReadyForQuery, through recv1 and a
    one-message pushback slot. */
module PqConn {
  import opened Basics

  datatype Msg = Msg(typ: char, body: nat)

  /** How an operation ended: normally, with the server's error, with an error of the
      driver ("unexpected message"), or because the stream ended. */
  datatype Outcome = Fine | ServerError(error: nat) | Unexpected | NetError

  /** Messages that may come at any time: notifications, notices, parameter statuses. */
  predicate Async(m: Msg) {
    m.typ == 'A' || m.typ == 'N' || m.typ == 'S'
  }

  /** Position of the next message that is not asynchronous. */
  function SkipAsync(input: seq<Msg>, at: nat): (r: nat)
    requires at <= |input|
    ensures at <= r <= |input| && (r < |input| ==> !Async(input[r]))
    decreases |input| - at
  {
    if at == |input| || !Async(input[at]) then at else SkipAsync(input, at + 1)
  }

  /** From position `at` the server sends the messages xs[k..], asynchronous ones anywhere
      before or between them; the last of them is the one before position `end`. */
  predicate Brings(input: seq<Msg>, at: nat, xs: seq<Msg>, k: nat, end: nat)
    requires at <= |input| && k <= |xs|
    decreases |input| - at
  {
    if k == |xs| then at == end
    else
      && at < |input|
      && if Async(input[at]) then Brings(input, at + 1, xs, k, end)
         else input[at] == xs[k] && Brings(input, at + 1, xs, k + 1, end)
  }

  lemma {:induction false} BringsNext(input: seq<Msg>, at: nat, xs: seq<Msg>, k: nat, end: nat)
    requires at <= |input| && k < |xs| && Brings(input, at, xs, k, end)
    ensures var r := SkipAsync(input, at);
            r < |input| && input[r] == xs[k] && !Async(xs[k]) && Brings(input, r + 1, xs, k + 1, end)
    decreases |input| - at
  {
    if Async(input[at]) {
      BringsNext(input, at + 1, xs, k, end);
    }
  }

  // ---------------------------------------------------------------- the protocol's replies

  /** From message k on: ErrorResponse, ReadyForQuery. */
  predicate ErrorFrom(xs: seq<Msg>, k: nat) {
    |xs| == k + 2 && xs[k].typ == 'E' && xs[k + 1].typ == 'Z'
  }

  /** Reply to Parse, Describe and Sync. */
  predicate PrepareReply(xs: seq<Msg>) {
    || ErrorFrom(xs, 0)
    || (|xs| > 1 && xs[0].typ == '1' && ErrorFrom(xs, 1))
    || (|xs| > 2 && xs[0].typ == '1' && xs[1].typ == 't' && ErrorFrom(xs, 2))
    || (|xs| == 4 && xs[0].typ == '1' && xs[1].typ == 't' && (xs[2].typ == 'T' || xs[2].typ == 'n') && xs[3].typ == 'Z')
  }

  /** From message k on: rows, the end of the command or an error, ReadyForQuery. */
  predicate TailFrom(xs: seq<Msg>, k: nat) {
    && |xs| >= k + 2 && xs[|xs| - 1].typ == 'Z'
    && (var t := xs[|xs| - 2].typ; t == 'C' || t == 'I' || t == 'E')
    && forall i :: k <= i < |xs| - 2 ==> xs[i].typ == 'D'
  }

  /** Reply to Bind, Execute and Sync. */
  predicate ExecReply(xs: seq<Msg>) {
    ErrorFrom(xs, 0) || (|xs| > 0 && xs[0].typ == '2' && TailFrom(xs, 1))
  }

  /** Reply to a simple query of one statement. */
  predicate SimpleReply(xs: seq<Msg>) {
    (|xs| == 2 && TailFrom(xs, 0)) || (|xs| > 0 && xs[0].typ == 'T' && TailFrom(xs, 1))
  }

  function ErrorOf(xs: seq<Msg>): Outcome
    requires |xs| >= 2
  {
    if xs[|xs| - 2].typ == 'E' then ServerError(xs[|xs| - 2].body) else Fine
  }

  /** The rows of a reply from message k on, in order. */
  function RowsFrom(xs: seq<Msg>, k: nat): seq<nat>
    requires k <= |xs|
    decreases |xs| - k
  {
    if k == |xs| then []
    else (if xs[k].typ == 'D' then [xs[k].body] else []) + RowsFrom(xs, k + 1)
  }

  lemma NoMoreRows(xs: seq<Msg>, k: nat)
    requires |xs| == k + 2 && xs[k].typ != 'D' && xs[k + 1].typ != 'D'
    ensures RowsFrom(xs, k) == []
  {
    assert RowsFrom(xs, k + 1) == [] + RowsFrom(xs, k + 2);
  }

  // ---------------------------------------------------------------- the connection

  class Conn {
    const input: seq<Msg>     // everything the server sends
    var pos: nat              // what was read from the network
    var saved: Option<Msg>    // saveMessageType, saveMessageBuffer
    var bad: bool
    var txnStatus: nat
    var slotFull: bool        // saveMessage found the slot full

    constructor (input: seq<Msg>)
      ensures this.input == input && Valid() && At() == 0 && saved == None && !bad && !slotFull
    {
      this.input := input;
      pos, saved, bad, txnStatus, slotFull := 0, None, false, 0, false;
    }

    /** The slot holds the message read last, or none. */
    predicate Valid()
      reads this
    {
      pos <= |input| && (saved.Some? ==> pos > 0 && input[pos - 1] == saved.value)
    }

    /** Position of the next message the client will be given. */
    function At(): nat
      requires Valid()
      reads this
    {
      if saved.Some? then pos - 1 else pos
    }

    /** What every operation keeps, whatever the server does: messages are given in the order
        they came, none lost or repeated, and the slot was never needed twice. */
    twostate predicate Orderly()
      requires old(Valid())
      reads this
    {
      Valid() && old(At()) <= At() && slotFull == old(slotFull)
    }

    /** The reply goes on with xs[k..] and ends before position `end`. */
    predicate Expects(xs: seq<Msg>, k: nat, end: nat)
      requires Valid()
      reads this
    {
      k <= |xs| && Brings(input, At(), xs, k, end)
    }

    /** The request is over: all of its reply is read and nothing of what follows. */
    predicate Settled(end: nat, status: nat)
      reads this
    {
      pos == end && saved == None && txnStatus == status
    }

    /** `saveMessage`: an error if the slot is in use. */
    method SaveMessage(m: Msg)
      requires Valid() && (saved == None ==> pos > 0 && m == input[pos - 1])
      modifies `saved, `bad, `slotFull
      ensures Valid()
      ensures old(saved) == None ==>
        At() == old(At()) - 1 && saved == Some(m) && slotFull == old(slotFull) && bad == old(bad)
      ensures old(saved) != None ==> slotFull && bad && saved == old(saved)
    {
      if saved != None {
        bad := true;
        slotFull := true;
        return;
      }
      saved := Some(m);
    }

    /** `recvMessage`: the slot first. */
    method RecvMessage() returns (m: Option<Msg>)
      requires Valid()
      modifies `pos, `saved
      ensures Valid() && saved == None
      ensures m.None? ==> old(At()) == At() == |input|
      ensures m.Some? ==> old(At()) < |input| && m.value == input[old(At())] && At() == old(At()) + 1
    {
      if saved.Some? {
        m := saved;
        saved := None;
      } else if pos == |input| {
        m := None;
      } else {
        m := Some(input[pos]);
        pos := pos + 1;
      }
    }

    /** `recv1`: the next message that is not asynchronous. */
    method Recv1() returns (m: Option<Msg>)
      requires Valid()
      modifies `pos, `saved
      ensures Valid() && saved == None
      ensures m.None? ==> SkipAsync(input, old(At())) == |input| == At()
      ensures m.Some? ==>
        && At() == SkipAsync(input, old(At())) + 1
        && m.value == input[At() - 1] && !Async(m.value)
    {
      m := RecvMessage();
      while m.Some? && (m.value.typ == 'A' || m.value.typ == 'N' || m.value.typ == 'S')
        invariant Valid() && saved == None
        invariant m.None? ==> SkipAsync(input, old(At())) == |input| == At()
        invariant m.Some? ==>
          At() > 0 && m.value == input[At() - 1] && SkipAsync(input, old(At())) == SkipAsync(input, At() - 1)
        decreases m.Some?, |input| - At()
      {
        m := RecvMessage();
      }
    }

    /** recv1 where the reply may be known to go on with xs[k..]. */
    method Recv1Of(ghost xs: seq<Msg>, ghost k: nat, ghost end: nat) returns (m: Option<Msg>)
      requires Valid()
      modifies `pos, `saved
      ensures Valid() && saved == None && old(At()) <= At()
      ensures m.Some? ==> old(At()) < At() && m.value == input[At() - 1]
      ensures old(Expects(xs, k, end)) && k < |xs| ==> m == Some(xs[k]) && Expects(xs, k + 1, end)
    {
      if k < |xs| && Expects(xs, k, end) {
        BringsNext(input, At(), xs, k, end);
      }
      m := Recv1();
    }

    /** `readReadyForQuery`. */
    method ReadReady(ghost xs: seq<Msg>, ghost k: nat, ghost end: nat) returns (out: Outcome)
      requires Valid()
      modifies this
      ensures bad == (old(bad) || out == Unexpected)
      ensures saved == None && Orderly()
      ensures old(Expects(xs, k, end)) && |xs| == k + 1 && xs[k].typ == 'Z' ==>
        out == Fine && bad == old(bad) && Settled(end, xs[k].body)
    {
      var m := Recv1Of(xs, k, end);
      if m.None? {
        return NetError;
      }
      if m.value.typ == 'Z' {
        txnStatus := m.value.body;
        out := Fine;
      } else {
        bad := true;
        out := Unexpected;
      }
    }

    /** The common end of the read*Response functions on 'E': wait for ready, then panic. */
    method ErrorThenReady(e: nat, ghost xs: seq<Msg>, ghost k: nat, ghost end: nat) returns (out: Outcome)
      requires Valid()
      modifies this
      ensures bad == (old(bad) || out == Unexpected)
      ensures saved == None && Orderly() && out != Fine
      ensures old(Expects(xs, k, end)) && |xs| == k + 1 && xs[k].typ == 'Z' ==>
        out == ServerError(e) && bad == old(bad) && Settled(end, xs[k].body)
    {
      out := ReadReady(xs, k, end);
      if out == Fine {
        out := ServerError(e);
      }
    }

    /** `readParseResponse` and `readBindResponse`: one message of the given type. */
    method ReadOne(typ: char, ghost xs: seq<Msg>, ghost end: nat) returns (out: Outcome)
      requires Valid() && typ != 'E'
      modifies this
      ensures bad == (old(bad) || out == Unexpected)
      ensures saved == None && Orderly()
      ensures old(Expects(xs, 0, end)) && xs != [] && xs[0].typ == typ ==>
        out == Fine && bad == old(bad) && Expects(xs, 1, end)
      ensures old(Expects(xs, 0, end)) && ErrorFrom(xs, 0) ==>
        out == ServerError(xs[0].body) && bad == old(bad) && Settled(end, xs[1].body)
    {
      var m := Recv1Of(xs, 0, end);
      if m.None? {
        return NetError;
      }
      if m.value.typ == typ {
        out := Fine;
      } else if m.value.typ == 'E' {
        out := ErrorThenReady(m.value.body, xs, 1, end);
      } else {
        bad := true;
        out := Unexpected;
      }
    }

    /** `readStatementDescribeResponse`, for a reply with one ParameterDescription at 1. */
    method ReadDescribe(ghost xs: seq<Msg>, ghost end: nat) returns (out: Outcome)
      requires Valid()
      modifies this
      ensures bad == (old(bad) || out == Unexpected)
      ensures saved == None && Orderly()
      ensures old(Expects(xs, 1, end)) && |xs| > 3 && xs[1].typ == 't' && (xs[2].typ == 'T' || xs[2].typ == 'n') ==>
        out == Fine && bad == old(bad) && Expects(xs, 3, end)
      ensures old(Expects(xs, 1, end)) && (ErrorFrom(xs, 1) || (|xs| > 1 && xs[1].typ == 't' && ErrorFrom(xs, 2))) ==>
        out == ErrorOf(xs) && bad == old(bad) && Settled(end, xs[|xs| - 1].body)
    {
      ghost var k := 1;
      ghost var known := Expects(xs, 1, end) && |xs| >= 3 && (xs[1].typ == 't' ==> xs[2].typ != 't');
      var m := Recv1Of(xs, k, end);
      while m.Some? && m.value.typ == 't'
        invariant Valid() && saved == None && slotFull == old(slotFull) && bad == old(bad) && old(At()) <= At()
        invariant known ==> 1 <= k <= 2 && m == Some(xs[k]) && Expects(xs, k + 1, end) && (k == 2 ==> xs[1].typ == 't')
        decreases m.Some?, |input| - At()
      {
        k := k + 1;
        m := Recv1Of(xs, k, end);
      }
      if m.None? {
        return NetError;
      }
      if m.value.typ == 'n' || m.value.typ == 'T' {
        out := Fine;
      } else if m.value.typ == 'E' {
        out := ErrorThenReady(m.value.body, xs, k + 1, end);
      } else {
        bad := true;
        out := Unexpected;
      }
    }

    /** `prepareTo`, after the request is sent: Parse, Describe and Sync are answered. For
        every reply that follows the protocol it ends right after that request's ready
        message, with the server's error if there was one. */
    method PrepareTo(ghost xs: seq<Msg>, ghost end: nat) returns (out: Outcome)
      requires Valid()
      modifies this
      ensures bad == (old(bad) || out == Unexpected)
      ensures saved == None && Orderly()
      ensures old(Expects(xs, 0, end)) && PrepareReply(xs) ==>
        out == ErrorOf(xs) && bad == old(bad) && Settled(end, xs[|xs| - 1].body)
    {
      out := ReadOne('1', xs, end);
      if out != Fine {
        return;
      }
      out := ReadDescribe(xs, end);
      if out != Fine {
        return;
      }
      out := ReadReady(xs, 3, end);
    }

    /** `postExecuteWorkaround`: one more message is awaited and pushed back, unless it is
        an error. */
    method PostExecute(ghost xs: seq<Msg>, ghost end: nat) returns (out: Outcome)
      requires Valid()
      modifies this
      ensures bad == (old(bad) || out == Unexpected)
      ensures Orderly() && (out != Fine ==> saved == None)
      ensures old(Expects(xs, 1, end)) && TailFrom(xs, 1) ==>
        && bad == old(bad)
        && (xs[1].typ != 'E' ==> out == Fine && Expects(xs, 1, end))
        && (xs[1].typ == 'E' ==> out == ErrorOf(xs) && |xs| == 3 && Settled(end, xs[2].body))
    {
      var m := Recv1Of(xs, 1, end);
      if m.None? {
        return NetError;
      }
      if m.value.typ == 'E' {
        out := ErrorThenReady(m.value.body, xs, 2, end);
      } else if m.value.typ == 'C' || m.value.typ == 'D' || m.value.typ == 'I' {
        SaveMessage(m.value);
        out := Fine;
      } else {
        bad := true;
        out := Unexpected;
      }
    }

    /** `stmt.exec`, after the request is sent: readBindResponse and the workaround. */
    method StExec(ghost xs: seq<Msg>, ghost end: nat) returns (out: Outcome)
      requires Valid()
      modifies this
      ensures bad == (old(bad) || out == Unexpected)
      ensures Orderly() && (out != Fine ==> saved == None)
      ensures old(Expects(xs, 0, end)) && ExecReply(xs) ==>
        && bad == old(bad)
        && (out == Fine ==> xs[0].typ == '2' && TailFrom(xs, 1) && Expects(xs, 1, end))
        && (out != Fine ==> out == ErrorOf(xs) && |xs| <= 3 && Settled(end, xs[|xs| - 1].body))
    {
      out := ReadOne('2', xs, end);
      if out != Fine {
        return;
      }
      out := PostExecute(xs, end);
    }

    /** `readExecuteResponse`: everything up to ready, the rows ignored. */
    method ReadExecuteResponse(ghost xs: seq<Msg>, ghost k0: nat, ghost end: nat) returns (out: Outcome)
      requires Valid()
      modifies this
      ensures bad == (old(bad) || out == Unexpected)
      ensures saved == None && Orderly()
      ensures old(Expects(xs, k0, end)) && Whole(xs, k0) ==>
        out == ErrorOf(xs) && bad == old(bad) && Settled(end, xs[|xs| - 1].body)
    {
      ghost var known, k := Expects(xs, k0, end) && Whole(xs, k0), k0;
      out := Fine;
      while true
        invariant Valid() && slotFull == old(slotFull) && bad == old(bad) && old(At()) <= At() && out != Unexpected
        invariant known ==> bad == old(bad) && k0 <= k && Expects(xs, k, end) && Taken(xs, k, out)
        decreases |input| - At()
      {
        var m := Recv1Of(xs, k, end);
        if m.None? {
          return NetError;
        }
        k := k + 1;
        if m.value.typ == 'Z' {
          txnStatus := m.value.body;
          return;
        } else if m.value.typ == 'E' {
          out := ServerError(m.value.body);
        } else if !Result(m.value.typ) || out != Fine {
          bad := true;
          return Unexpected;
        }
      }
    }

    /** `simpleExec`: the same loop, without the checks for messages after an error. */
    method SimpleExec(ghost xs: seq<Msg>, ghost end: nat) returns (out: Outcome)
      requires Valid()
      modifies this
      ensures bad == (old(bad) || out == Unexpected)
      ensures saved == None && Orderly()
      ensures old(Expects(xs, 0, end)) && Whole(xs, 0) ==>
        out == ErrorOf(xs) && bad == old(bad) && Settled(end, xs[|xs| - 1].body)
    {
      ghost var known, k := Expects(xs, 0, end) && Whole(xs, 0), 0;
      out := Fine;
      while true
        invariant Valid() && slotFull == old(slotFull) && bad == old(bad) && old(At()) <= At() && out != Unexpected
        invariant known ==> bad == old(bad) && Expects(xs, k, end) && Taken(xs, k, out)
        decreases |input| - At()
      {
        var m := Recv1Of(xs, k, end);
        if m.None? {
          return NetError;
        }
        k := k + 1;
        if m.value.typ == 'Z' {
          txnStatus := m.value.body;
          return;
        } else if m.value.typ == 'E' {
          out := ServerError(m.value.body);
        } else if !Result(m.value.typ) {
          bad := true;
          return Unexpected;
        }
      }
    }

    /** `simpleQuery`: up to the first row, which is pushed back for Next, or else up to
        ready. `rows` is the flag `done` of the rows object it gives, if it gives one. */
    method SimpleQuery(ghost xs: seq<Msg>, ghost end: nat) returns (out: Outcome, rows: Option<bool>)
      requires Valid()
      modifies this
      ensures bad == (old(bad) || out == Unexpected)
      ensures Orderly() && (rows.None? ==> saved == None)
      ensures old(Expects(xs, 0, end)) && SimpleReply(xs) ==>
        && bad == old(bad)
        && (rows == Some(false) ==> out == Fine && xs[0].typ == 'T' && TailFrom(xs, 1) && Expects(xs, 1, end))
        && (rows != Some(false) ==>
          out == ErrorOf(xs) && (out == Fine <==> rows == Some(true)) && |xs| <= 3 && Settled(end, xs[|xs| - 1].body))
    {
      ghost var known, k := Expects(xs, 0, end) && SimpleReply(xs), 0;
      out, rows := Fine, None;
      while true
        invariant Valid() && slotFull == old(slotFull) && bad == old(bad) && old(At()) <= At() && out != Unexpected
        invariant known ==> bad == old(bad) && Expects(xs, k, end) && Held(xs, k, out, rows)
        decreases |input| - At()
      {
        var m := Recv1Of(xs, k, end);
        if m.None? {
          return NetError, None;
        }
        if known {
          SimpleAt(xs, k, out, rows);
        }
        k := k + 1;
        if m.value.typ == 'Z' {
          txnStatus := m.value.body;
          return;
        } else if m.value.typ == 'D' && rows.Some? {
          SaveMessage(m.value);
          return;
        } else if m.value.typ == 'E' {
          out, rows := ServerError(m.value.body), None;
        } else if (m.value.typ == 'C' || m.value.typ == 'I') && out == Fine {
          rows := Some(true);
        } else if m.value.typ == 'T' {
          rows := Some(false);
        } else {
          bad := true;
          return Unexpected, None;
        }
      }
    }

    /** The loop of `rows.Next`. */
    method Fetch(ghost xs: seq<Msg>, ghost k0: nat, ghost end: nat) returns (f: Fetched, done: bool)
      requires Valid()
      modifies this
      ensures saved == None && Orderly()
      ensures bad ==> old(bad) || f == Failed(Unexpected)
      ensures f.Row? ==> old(At()) < At()
      ensures old(Expects(xs, k0, end)) && TailFrom(xs, k0) ==>
        && bad == old(bad) && done == !f.Row?
        && (f.Row? ==> xs[k0].typ == 'D' && f.body == xs[k0].body && Expects(xs, k0 + 1, end))
        && (!f.Row? ==> xs[k0].typ != 'D' && Settled(end, xs[|xs| - 1].body) && f == Last(ErrorOf(xs)))
    {
      ghost var known, k := Expects(xs, k0, end) && TailFrom(xs, k0), k0;
      var out := Fine;
      done := false;
      while true
        invariant Valid() && slotFull == old(slotFull) && bad == old(bad) && old(At()) <= At() && out != Unexpected
        invariant known ==>
          && bad == old(bad) && Expects(xs, k, end) && Taken(xs, k, out)
          && (k == k0 || (k == k0 + 1 && |xs| == k0 + 2 && xs[k0].typ != 'D'))
        decreases |input| - At()
      {
        var m := Recv1Of(xs, k, end);
        if m.None? {
          return Failed(NetError), false;
        }
        k := k + 1;
        if m.value.typ == 'E' {
          out := ServerError(m.value.body);
        } else if m.value.typ == 'Z' {
          txnStatus := m.value.body;
          return Last(out), true;
        } else if m.value.typ == 'D' {
          if out != Fine {
            bad := true;
            return Failed(Unexpected), false;
          }
          return Row(m.value.body), false;
        } else if m.value.typ != 'C' && m.value.typ != 'I' {
          return Failed(Unexpected), false;
        }
      }
    }
  }

  /** Message types that execution answers with. */
  predicate Result(typ: char) {
    typ == 'C' || typ == 'T' || typ == 'D' || typ == 'I'
  }

  /** From message k on: anything up to the ready message, an error only directly before it. */
  predicate Whole(xs: seq<Msg>, k: nat) {
    && |xs| >= k + 2 && xs[|xs| - 1].typ == 'Z'
    && (Result(xs[|xs| - 2].typ) || xs[|xs| - 2].typ == 'E')
    && (forall i :: k <= i < |xs| - 2 ==> Result(xs[i].typ))
  }

  /** A reading loop has taken k messages of the reply. */
  predicate Taken(xs: seq<Msg>, k: nat, out: Outcome) {
    2 <= |xs| && k < |xs| && out == if k == |xs| - 1 then ErrorOf(xs) else Fine
  }

  /** What the loop of `simpleQuery` holds after k messages of the reply. */
  predicate Held(xs: seq<Msg>, k: nat, out: Outcome, rows: Option<bool>) {
    && Taken(xs, k, out) && k <= 2
    && (k == |xs| - 1 ==> rows == if out == Fine then Some(true) else None)
    && (k == 0 ==> rows == None)
    && (0 < k < |xs| - 1 ==> k == 1 && xs[0].typ == 'T' && rows == Some(false))
  }

  lemma SimpleAt(xs: seq<Msg>, k: nat, out: Outcome, rows: Option<bool>)
    requires SimpleReply(xs) && Held(xs, k, out, rows)
    ensures Result(xs[k].typ) || xs[k].typ == 'E' || xs[k].typ == 'Z'
    ensures xs[k].typ == 'C' || xs[k].typ == 'I' ==> out == Fine && Held(xs, k + 1, out, Some(true))
    ensures xs[k].typ == 'E' ==> Held(xs, k + 1, ServerError(xs[k].body), None)
    ensures xs[k].typ == 'T' ==> Held(xs, k + 1, out, Some(false))
    ensures xs[k].typ == 'D' ==> k == 1 && out == Fine && rows == Some(false) && xs[0].typ == 'T' && TailFrom(xs, 1)
    ensures xs[k].typ == 'Z' ==> k + 1 == |xs| <= 3 && out == ErrorOf(xs)
  {
  }

  /** What `rows.Next` gives. */
  datatype Fetched = Row(body: nat) | End | Failed(out: Outcome) | BadConn

  function Last(out: Outcome): Fetched {
    if out == Fine then End else Failed(out)
  }

  /** Close has passed over `rows`, up to message k. */
  predicate Passed(xs: seq<Msg>, k0: nat, k: nat, rows: seq<nat>) {
    k0 <= |xs| && k <= |xs| && rows + RowsFrom(xs, k) == RowsFrom(xs, k0)
  }

  lemma PassedRow(xs: seq<Msg>, k0: nat, k: nat, rows: seq<nat>)
    requires Passed(xs, k0, k, rows) && TailFrom(xs, k) && xs[k].typ == 'D'
    ensures Passed(xs, k0, k + 1, rows + [xs[k].body]) && TailFrom(xs, k + 1)
  {
    assert rows + ([xs[k].body] + RowsFrom(xs, k + 1)) == (rows + [xs[k].body]) + RowsFrom(xs, k + 1);
  }

  lemma PassedAll(xs: seq<Msg>, k0: nat, k: nat, rows: seq<nat>)
    requires Passed(xs, k0, k, rows) && TailFrom(xs, k) && xs[k].typ != 'D'
    ensures rows == RowsFrom(xs, k0)
  {
    NoMoreRows(xs, k);
    assert rows + [] == rows;
  }

  class Rows {
    const cn: Conn
    var done: bool

    constructor (cn: Conn, done: bool)
      ensures this.cn == cn && this.done == done
    {
      this.cn := cn;
      this.done := done;
    }

    /** `rows.Next`. */
    method Next(ghost xs: seq<Msg>, ghost k: nat, ghost end: nat) returns (f: Fetched)
      requires cn.Valid()
      modifies this, cn
      ensures cn.Orderly()
      ensures old(done) ==> f == End && done && unchanged(cn)
      ensures f.Row? ==> old(cn.At()) < cn.At()
      ensures !old(done) && !old(cn.bad) && old(cn.Expects(xs, k, end)) && TailFrom(xs, k) ==>
        && !cn.bad && done == !f.Row?
        && (f.Row? ==> xs[k].typ == 'D' && f.body == xs[k].body && cn.Expects(xs, k + 1, end))
        && (!f.Row? ==> xs[k].typ != 'D' && cn.Settled(end, xs[|xs| - 1].body) && f == Last(ErrorOf(xs)))
    {
      if done {
        return End;
      }
      if cn.bad {
        return BadConn;
      }
      f, done := cn.Fetch(xs, k, end);
    }

    /** `rows.Close`: Next until it does not give a row. `rows` are those it passed over. */
    method Close(ghost xs: seq<Msg>, ghost k0: nat, ghost end: nat) returns (out: Outcome, rows: seq<nat>)
      requires cn.Valid()
      modifies this, cn
      ensures cn.Orderly()
      ensures old(done) ==> out == Fine && rows == [] && unchanged(cn)
      ensures !old(done) && !old(cn.bad) && old(cn.Expects(xs, k0, end)) && TailFrom(xs, k0) ==>
        !cn.bad && out == ErrorOf(xs) && rows == RowsFrom(xs, k0) && cn.Settled(end, xs[|xs| - 1].body)
    {
      ghost var k := k0;
      ghost var known := !done && !cn.bad && cn.Expects(xs, k0, end) && TailFrom(xs, k0);
      rows := [];
      while true
        invariant cn.Valid() && cn.slotFull == old(cn.slotFull) && old(cn.At()) <= cn.At()
        invariant old(done) ==> done && rows == [] && unchanged(cn)
        invariant known ==>
          !done && !cn.bad && cn.Expects(xs, k, end) && TailFrom(xs, k) && Passed(xs, k0, k, rows)
        decreases |cn.input| - cn.At()
      {
        var f := Next(xs, k, end);
        if f.Row? {
          if known {
            PassedRow(xs, k0, k, rows);
          }
          rows := rows + [f.body];
          k := k + 1;
        } else {
          if known {
            PassedAll(xs, k0, k, rows);
          }
          return match f { case End => Fine case Failed(e) => e case BadConn => NetError }, rows;
        }
      }
    }
  }

  // ---------------------------------------------------------------- whole sessions

  /** What a client asks: prepare; execute a prepared statement, ignoring rows or closing
      them; execute or query without parameters. */
  datatype Request = Prepare | Exec | Query | SimpleExec | SimpleQuery

  predicate GivesRows(q: Request) {
    q == Query || q == SimpleQuery
  }

  predicate ReplyTo(q: Request, xs: seq<Msg>) {
    match q
    case Prepare => PrepareReply(xs)
    case Exec => ExecReply(xs)
    case Query => ExecReply(xs)
    case SimpleExec => SimpleReply(xs)
    case SimpleQuery => SimpleReply(xs)
  }

  /** How a request ends, given the reply the server had ready for it. */
  predicate Answered(cn: Conn, xs: seq<Msg>, end: nat, out: Outcome)
    reads cn
  {
    |xs| >= 2 && !cn.bad && out == ErrorOf(xs) && cn.Settled(end, xs[|xs| - 1].body)
  }

  /** A new rows object, closed. */
  method CloseRows(cn: Conn, done: bool, ghost xs: seq<Msg>, ghost end: nat)
    returns (out: Outcome, rows: seq<nat>)
    requires cn.Valid()
    modifies cn
    ensures cn.Orderly()
    ensures done ==> out == Fine && rows == [] && unchanged(cn)
    ensures !done && !old(cn.bad) && old(cn.Expects(xs, 1, end)) && TailFrom(xs, 1) ==>
      Answered(cn, xs, end, out) && rows == RowsFrom(xs, 1)
  {
    var rs := new Rows(cn, done);
    out, rows := rs.Close(xs, 1, end);
  }

  /** `stmt.Exec`. */
  method StmtExec(cn: Conn, ghost xs: seq<Msg>, ghost end: nat) returns (out: Outcome)
    requires cn.Valid()
    modifies cn
    ensures cn.Orderly()
    ensures old(cn.Expects(xs, 0, end)) && ExecReply(xs) && !old(cn.bad) ==> Answered(cn, xs, end, out)
  {
    out := cn.StExec(xs, end);
    if out == Fine {
      out := cn.ReadExecuteResponse(xs, 1, end);
    }
  }

  lemma ExecRows(xs: seq<Msg>)
    requires ExecReply(xs)
    ensures |xs| <= 3 && ErrorOf(xs) != Fine ==> RowsFrom(xs, 0) == []
    ensures xs[0].typ == '2' ==> RowsFrom(xs, 0) == RowsFrom(xs, 1)
  {
    if |xs| <= 3 && ErrorOf(xs) != Fine {
      NoMoreRows(xs, |xs| - 2);
    }
  }

  /** `stmt.Query`, and the rows read to their end. */
  method StmtQuery(cn: Conn, ghost xs: seq<Msg>, ghost end: nat) returns (out: Outcome, rows: seq<nat>)
    requires cn.Valid()
    modifies cn
    ensures cn.Orderly()
    ensures old(cn.Expects(xs, 0, end)) && ExecReply(xs) && !old(cn.bad) ==>
      Answered(cn, xs, end, out) && rows == RowsFrom(xs, 0)
  {
    rows := [];
    ghost var exec := ExecReply(xs);
    if exec {
      ExecRows(xs);
    }
    out := cn.StExec(xs, end);
    if out == Fine {
      out, rows := CloseRows(cn, false, xs, end);
    }
  }

  lemma SimpleRows(xs: seq<Msg>)
    requires SimpleReply(xs)
    ensures |xs| <= 3 && xs[|xs| - 2].typ != 'D' ==> RowsFrom(xs, 0) == []
    ensures xs[0].typ == 'T' ==> RowsFrom(xs, 0) == RowsFrom(xs, 1)
    ensures Whole(xs, 0)
  {
    if |xs| <= 3 {
      NoMoreRows(xs, |xs| - 2);
    }
  }

  /** A query without parameters, and the rows read to their end. */
  method QueryAll(cn: Conn, ghost xs: seq<Msg>, ghost end: nat) returns (out: Outcome, rows: seq<nat>)
    requires cn.Valid()
    modifies cn
    ensures cn.Orderly()
    ensures old(cn.Expects(xs, 0, end)) && SimpleReply(xs) && !old(cn.bad) ==>
      Answered(cn, xs, end, out) && rows == RowsFrom(xs, 0)
  {
    rows := [];
    ghost var simple := SimpleReply(xs);
    if simple {
      SimpleRows(xs);
    }
    var done;
    out, done := cn.SimpleQuery(xs, end);
    if done.Some? && out == Fine {
      out, rows := CloseRows(cn, done.value, xs, end);
    }
  }

  /** One request, all of it: it ends right after the ready message of its own reply. */
  method Ask(cn: Conn, q: Request, ghost xs: seq<Msg>, ghost end: nat) returns (out: Outcome, rows: seq<nat>)
    requires cn.Valid()
    modifies cn
    ensures cn.Orderly()
    ensures old(cn.Expects(xs, 0, end)) && ReplyTo(q, xs) && !old(cn.bad) ==>
      Answered(cn, xs, end, out) && (GivesRows(q) ==> rows == RowsFrom(xs, 0))
  {
    rows := [];
    match q {
      case Prepare =>
        out := cn.PrepareTo(xs, end);
      case SimpleExec =>
        ghost var simple := SimpleReply(xs);
        if simple {
          SimpleRows(xs);
        }
        out := cn.SimpleExec(xs, end);
      case SimpleQuery =>
        out, rows := QueryAll(cn, xs, end);
      case Exec =>
        out := StmtExec(cn, xs, end);
      case Query =>
        out, rows := StmtQuery(cn, xs, end);
    }
  }

  /** Reply i is what the server sends between ends[i] and ends[i + 1]. */
  ghost predicate Served(input: seq<Msg>, reqs: seq<Request>, replies: seq<seq<Msg>>, ends: seq<nat>) {
    && |replies| == |reqs| && |ends| == |reqs| + 1
    && (forall i :: 0 <= i <= |reqs| ==> ends[i] <= |input|)
    && (forall i :: 0 <= i < |reqs| ==>
          ReplyTo(reqs[i], replies[i]) && Brings(input, ends[i], replies[i], 0, ends[i + 1]))
  }

  /** Whole sessions: against a server that answers each request by the protocol, with
      asynchronous messages anywhere, request i gets exactly the outcome and the rows of
      reply i, and nothing behind the last reply is read. */
  method Session(cn: Conn, reqs: seq<Request>, ghost replies: seq<seq<Msg>>, ghost ends: seq<nat>)
    returns (outs: seq<Outcome>, rows: seq<seq<nat>>)
    requires cn.Valid() && !cn.bad
    requires Served(cn.input, reqs, replies, ends) && cn.At() == ends[0]
    modifies cn
    ensures cn.Valid() && !cn.bad && cn.At() == ends[|reqs|] && cn.slotFull == old(cn.slotFull)
    ensures |outs| == |reqs| && |rows| == |reqs|
    ensures forall i :: 0 <= i < |reqs| ==> |replies[i]| >= 2 && outs[i] == ErrorOf(replies[i])
    ensures forall i :: 0 <= i < |reqs| && GivesRows(reqs[i]) ==> rows[i] == RowsFrom(replies[i], 0)
  {
    outs, rows := [], [];
    for n := 0 to |reqs|
      invariant cn.Valid() && !cn.bad && cn.At() == ends[n] && cn.slotFull == old(cn.slotFull)
      invariant |outs| == n && |rows| == n
      invariant forall i :: 0 <= i < n ==> |replies[i]| >= 2 && outs[i] == ErrorOf(replies[i])
      invariant forall i :: 0 <= i < n && GivesRows(reqs[i]) ==> rows[i] == RowsFrom(replies[i], 0)
    {
      var out, seen := Ask(cn, reqs[n], replies[n], ends[n + 1]);
      outs, rows := outs + [out], rows + [seen];
    }
  }
}
