/** Publisher confirmations put back in order (confirms.go). */
module AmqpConfirms {

  datatype Confirmation = Confirmation(tag: nat, ack: bool)

  /** `logs[l]` is what listener l has received. */
  datatype State = State(
    sequencer: map<nat, Confirmation>,
    published: nat,
    expecting: nat,
    logs: seq<seq<Confirmation>>)

  const INITIAL := State(map[], 0, 1, [])

  // ---------------------------------------------------------------- what the operations do

  function Told(logs: seq<seq<Confirmation>>, c: Confirmation): seq<seq<Confirmation>> {
    seq(|logs|, l requires 0 <= l < |logs| => logs[l] + [c])
  }

  function Confirm(s: State, c: Confirmation): State {
    s.(sequencer := s.sequencer - {s.expecting}, expecting := s.expecting + 1, logs := Told(s.logs, c))
  }

  function Resequence(s: State): State
    decreases s.published + 1 - s.expecting
  {
    if s.expecting <= s.published && s.expecting in s.sequencer
    then Resequence(Confirm(s, s.sequencer[s.expecting]))
    else s
  }

  function One(s: State, c: Confirmation): State {
    Resequence(if s.expecting == c.tag then Confirm(s, c) else s.(sequencer := s.sequencer[c.tag := c]))
  }

  function Multiple(s: State, c: Confirmation): State
    decreases c.tag + 1 - s.expecting
  {
    if s.expecting <= c.tag then Multiple(Confirm(s, Confirmation(s.expecting, c.ack)), c) else s
  }

  class Confirms {
    var logs: seq<seq<Confirmation>>
    var sequencer: map<nat, Confirmation>
    var published: nat
    var expecting: nat

    function Abs(): State
      reads this
    {
      State(sequencer, published, expecting, logs)
    }

    constructor ()
      ensures Abs() == INITIAL
    {
      logs, sequencer, published, expecting := [], map[], 0, 1;
    }

    method Listen()
      modifies this
      ensures Abs() == old(Abs()).(logs := old(logs) + [[]])
    {
      logs := logs + [[]];
    }

    method Publish() returns (tag: nat)
      modifies this
      ensures Abs() == old(Abs()).(published := old(published) + 1) && tag == published
    {
      published := published + 1;
      tag := published;
    }

    method ConfirmNext(c: Confirmation)
      modifies this
      ensures Abs() == Confirm(old(Abs()), c)
    {
      sequencer := sequencer - {expecting};
      expecting := expecting + 1;
      for l := 0 to |logs|
        invariant |logs| == |old(logs)|
        invariant sequencer == old(sequencer) - {old(expecting)}
        invariant expecting == old(expecting) + 1 && published == old(published)
        invariant forall k :: 0 <= k < |logs| ==> logs[k] == if k < l then old(logs)[k] + [c] else old(logs)[k]
      {
        logs := logs[l := logs[l] + [c]];
      }
      assert logs == Told(old(logs), c);
    }

    method DoResequence()
      modifies this
      ensures Abs() == Resequence(old(Abs()))
    {
      while expecting <= published
        invariant Resequence(Abs()) == Resequence(old(Abs()))
        decreases published + 1 - expecting
      {
        if expecting !in sequencer {
          return;
        }
        ConfirmNext(sequencer[expecting]);
      }
    }

    method DoOne(c: Confirmation)
      modifies this
      ensures Abs() == One(old(Abs()), c)
    {
      if expecting == c.tag {
        ConfirmNext(c);
      } else {
        sequencer := sequencer[c.tag := c];
      }
      DoResequence();
    }

    method DoMultiple(c: Confirmation)
      modifies this
      ensures Abs() == Multiple(old(Abs()), c)
    {
      while expecting <= c.tag
        invariant Multiple(Abs(), c) == Multiple(old(Abs()), c)
        decreases c.tag + 1 - expecting
      {
        ConfirmNext(Confirmation(expecting, c.ack));
      }
    }
  }

  // ---------------------------------------------------------------- runs

  datatype Op = Listen | Publish | ConfirmOne(c: Confirmation) | ConfirmMultiple(c: Confirmation)

  function Step(s: State, op: Op): State {
    match op
    case Listen => s.(logs := s.logs + [[]])
    case Publish => s.(published := s.published + 1)
    case ConfirmOne(c) => One(s, c)
    case ConfirmMultiple(c) => Multiple(s, c)
  }

  function Run(s: State, ops: seq<Op>): State
    decreases |ops|
  {
    if ops == [] then s else Step(Run(s, ops[..|ops| - 1]), ops[|ops| - 1])
  }

  lemma {:induction false} RunConcat(s: State, a: seq<Op>, b: seq<Op>)
    ensures Run(s, a + b) == Run(Run(s, a), b)
    decreases |b|
  {
    if b == [] {
      assert a + b == a;
    } else {
      RunConcat(s, a, b[..|b| - 1]);
      assert (a + b)[..|a + b| - 1] == a + b[..|b| - 1];
    }
  }

  /** The tags run without gap or repeat up to the one before `end`. */
  predicate Consecutive(log: seq<Confirmation>, end: nat) {
    |log| < end && forall i :: 0 <= i < |log| ==> log[i].tag == end - |log| + i
  }

  /** What every operation keeps: each entry is filed under its own tag, every listener
      has consecutive tags up to the expected one. */
  predicate Inv(s: State) {
    && s.expecting >= 1
    && (forall t :: t in s.sequencer ==> s.sequencer[t].tag == t)
    && (forall l :: 0 <= l < |s.logs| ==> Consecutive(s.logs[l], s.expecting))
  }

  /** From s to t listeners are only added and only told more, all of them as much. */
  predicate Grown(s: State, t: State) {
    && s.expecting <= t.expecting && s.published <= t.published && |s.logs| <= |t.logs|
    && forall l :: 0 <= l < |s.logs| ==>
      s.logs[l] <= t.logs[l] && |t.logs[l]| - |s.logs[l]| == t.expecting - s.expecting
  }

  lemma GrownTrans(s: State, t: State, u: State)
    ensures Grown(s, t) && Grown(t, u) ==> Grown(s, u)
  {
  }

  lemma ConfirmKeeps(s: State, c: Confirmation)
    ensures Inv(s) && c.tag == s.expecting ==> Inv(Confirm(s, c)) && Grown(s, Confirm(s, c))
  {
  }

  lemma {:induction false} ResequenceKeeps(s: State)
    requires Inv(s)
    ensures Inv(Resequence(s)) && Grown(s, Resequence(s))
    decreases s.published + 1 - s.expecting
  {
    if s.expecting <= s.published && s.expecting in s.sequencer {
      var t := Confirm(s, s.sequencer[s.expecting]);
      ConfirmKeeps(s, s.sequencer[s.expecting]);
      ResequenceKeeps(t);
      GrownTrans(s, t, Resequence(t));
    }
  }

  lemma {:induction false} MultipleKeeps(s: State, c: Confirmation)
    requires Inv(s)
    ensures Inv(Multiple(s, c)) && Grown(s, Multiple(s, c))
    decreases c.tag + 1 - s.expecting
  {
    if s.expecting <= c.tag {
      var d := Confirmation(s.expecting, c.ack);
      ConfirmKeeps(s, d);
      MultipleKeeps(Confirm(s, d), c);
      GrownTrans(s, Confirm(s, d), Multiple(s, c));
    }
  }

  lemma StepKeeps(s: State, op: Op)
    requires Inv(s)
    ensures Inv(Step(s, op)) && Grown(s, Step(s, op))
  {
    match op
    case ConfirmOne(c) =>
      var t := if s.expecting == c.tag then Confirm(s, c) else s.(sequencer := s.sequencer[c.tag := c]);
      if s.expecting == c.tag {
        ConfirmKeeps(s, c);
      }
      ResequenceKeeps(t);
      GrownTrans(s, t, Resequence(t));
    case ConfirmMultiple(c) =>
      MultipleKeeps(s, c);
    case Listen =>
    case Publish =>
  }

  lemma {:induction false} RunKeeps(s: State, ops: seq<Op>)
    requires Inv(s)
    ensures Inv(Run(s, ops)) && Grown(s, Run(s, ops))
    decreases |ops|
  {
    if ops != [] {
      var t := Run(s, ops[..|ops| - 1]);
      RunKeeps(s, ops[..|ops| - 1]);
      StepKeeps(t, ops[|ops| - 1]);
      GrownTrans(s, t, Run(s, ops));
    }
  }

  /** In every run a listener receives, from the tag that was expected when it registered
      up to the one expected now, each tag once and in order. */
  lemma ListenerLog(before: seq<Op>, after: seq<Op>)
    ensures var at := Run(INITIAL, before);
            var end := Run(INITIAL, before + [Listen] + after);
            && at.expecting <= end.expecting && |at.logs| < |end.logs|
            && var log := end.logs[|at.logs|];
               && |log| == end.expecting - at.expecting
               && forall i :: 0 <= i < |log| ==> log[i].tag == at.expecting + i
  {
    var at := Run(INITIAL, before);
    var mid := Step(at, Listen);
    RunConcat(INITIAL, before, [Listen]);
    RunConcat(INITIAL, before + [Listen], after);
    assert Run(at, [Listen]) == mid;
    RunKeeps(INITIAL, before);
    StepKeeps(at, Listen);
    RunKeeps(mid, after);
    assert mid.logs[|at.logs|] == [];
  }

  // ---------------------------------------------------------------- what the server confirms

  /** Tags published by a run. */
  function Published(ops: seq<Op>): nat {
    if ops == [] then 0 else Published(ops[..|ops| - 1]) + if ops[|ops| - 1].Publish? then 1 else 0
  }

  /** All of 1..n that were not confirmed before are confirmed with this flag. */
  function Covered(m: map<nat, bool>, n: nat, ack: bool): (r: map<nat, bool>)
    ensures forall t :: t in r <==> t in m || 1 <= t <= n
    ensures forall t :: t in r ==> r[t] == if t in m then m[t] else ack
  {
    if n == 0 then m
    else
      var r := Covered(m, n - 1, ack);
      if n in r then r else r[n := ack]
  }

  /** The tags a run's confirmations, single and multiple, speak of, with their flags. */
  function Confirmed(ops: seq<Op>): map<nat, bool> {
    if ops == [] then map[]
    else
      var m := Confirmed(ops[..|ops| - 1]);
      match ops[|ops| - 1]
      case ConfirmOne(c) => m[c.tag := c.ack]
      case ConfirmMultiple(c) => Covered(m, c.tag, c.ack)
      case Listen => m
      case Publish => m
  }

  /** Only published tags are confirmed, and singly only those that were not confirmed yet. */
  predicate Disciplined(ops: seq<Op>) {
    ops != [] ==>
      var n := |ops| - 1;
      && Disciplined(ops[..n])
      && (ops[n].ConfirmMultiple? ==> ops[n].c.tag <= Published(ops[..n]))
      && (ops[n].ConfirmOne? ==> 1 <= ops[n].c.tag <= Published(ops[..n]) && ops[n].c.tag !in Confirmed(ops[..n]))
  }

  predicate OneByOne(ops: seq<Op>) {
    forall i :: 0 <= i < |ops| ==> !ops[i].ConfirmMultiple?
  }

  /** The sequencer holds exactly the confirmations that are early. */
  ghost predicate Tracks(s: State, confirmed: map<nat, bool>) {
    && Inv(s)
    && (forall t :: 1 <= t < s.expecting ==> t in confirmed)
    && (forall t :: t in confirmed ==> 1 <= t <= s.published)
    && (forall t :: t in s.sequencer <==> t in confirmed && t >= s.expecting)
  }

  lemma TracksConfirm(s: State, c: Confirmation, confirmed: map<nat, bool>)
    requires Tracks(s, confirmed) && c.tag == s.expecting && c.tag in confirmed
    ensures Tracks(Confirm(s, c), confirmed)
  {
    ConfirmKeeps(s, c);
  }

  /** Resequencing goes on until the expected tag is one that is not confirmed. */
  lemma {:induction false} TracksResequence(s: State, confirmed: map<nat, bool>)
    requires Tracks(s, confirmed)
    ensures Tracks(Resequence(s), confirmed) && Resequence(s).expecting !in confirmed
    ensures Resequence(s).published == s.published
    decreases s.published + 1 - s.expecting
  {
    if s.expecting <= s.published && s.expecting in s.sequencer {
      TracksConfirm(s, s.sequencer[s.expecting], confirmed);
      TracksResequence(Confirm(s, s.sequencer[s.expecting]), confirmed);
    }
  }

  /** After every One, whatever was before, the expected tag is the least unconfirmed one. */
  lemma TracksOne(s: State, c: Confirmation, confirmed: map<nat, bool>)
    requires Tracks(s, confirmed) && c.tag !in confirmed && 1 <= c.tag <= s.published
    ensures var t, more := One(s, c), confirmed[c.tag := c.ack];
            Tracks(t, more) && t.expecting !in more && t.published == s.published
  {
    var more := confirmed[c.tag := c.ack];
    if s.expecting == c.tag {
      ConfirmKeeps(s, c);
      TracksResequence(Confirm(s, c), more);
    } else {
      TracksResequence(s.(sequencer := s.sequencer[c.tag := c]), more);
    }
  }

  /** What Multiple does to the expected tag and the early confirmations. */
  lemma {:induction false} MultipleState(s: State, c: Confirmation)
    ensures var t := Multiple(s, c);
            && t.published == s.published && t.expecting == Passed(s.expecting, c.tag)
            && (forall k :: k in t.sequencer <==> k in s.sequencer && !(s.expecting <= k <= c.tag))
    decreases c.tag + 1 - s.expecting
  {
    if s.expecting <= c.tag {
      MultipleState(Confirm(s, Confirmation(s.expecting, c.ack)), c);
    }
  }

  /** The expected tag once all tags up to `tag` are confirmed. */
  function Passed(expecting: nat, tag: nat): nat {
    if expecting <= tag then tag + 1 else expecting
  }

  lemma TracksMultiple(s: State, c: Confirmation, confirmed: map<nat, bool>)
    requires Tracks(s, confirmed) && c.tag <= s.published
    ensures var t := Multiple(s, c);
            && Tracks(t, Covered(confirmed, c.tag, c.ack)) && t.published == s.published
            && t.expecting == Passed(s.expecting, c.tag)
            && (t.expecting !in Covered(confirmed, c.tag, c.ack) <==> t.expecting !in confirmed)
  {
    MultipleState(s, c);
    MultipleKeeps(s, c);
  }

  /** Nothing early is waiting: the last confirmation was single, or it was multiple and the
      tag it leads up to had not been confirmed early. */
  predicate NothingWaits(ops: seq<Op>) {
    ops != [] ==>
      var n := |ops| - 1;
      match ops[n]
      case ConfirmOne(_) => true
      case ConfirmMultiple(c) => Passed(Run(INITIAL, ops[..n]).expecting, c.tag) !in Confirmed(ops[..n])
      case Listen => NothingWaits(ops[..n])
      case Publish => NothingWaits(ops[..n])
  }

  /** In every run the expected tag is the least unconfirmed one exactly when nothing waits;
      all tags before it are confirmed in any case. */
  lemma {:induction false} LeastExactly(ops: seq<Op>)
    requires Disciplined(ops)
    ensures var s, m := Run(INITIAL, ops), Confirmed(ops);
            && Tracks(s, m) && s.published == Published(ops)
            && (s.expecting !in m <==> NothingWaits(ops))
            && (forall t :: 1 <= t < s.expecting ==> t in m)
    decreases |ops|
  {
    if ops != [] {
      var n := |ops| - 1;
      LeastExactly(ops[..n]);
      var s, m := Run(INITIAL, ops[..n]), Confirmed(ops[..n]);
      match ops[n] {
        case ConfirmOne(c) => TracksOne(s, c, m);
        case ConfirmMultiple(c) => TracksMultiple(s, c, m);
        case Listen => StepKeeps(s, Listen);
        case Publish => StepKeeps(s, Publish);
      }
    }
  }

  /** When every published tag is confirmed, all of them have reached the listeners exactly
      when nothing waits. */
  lemma AllReleasedExactly(ops: seq<Op>)
    requires Disciplined(ops) && forall t :: 1 <= t <= Published(ops) ==> t in Confirmed(ops)
    ensures var s := Run(INITIAL, ops);
            && (s.expecting == Published(ops) + 1 <==> NothingWaits(ops))
            && (s.sequencer == map[] <==> NothingWaits(ops))
  {
    var s, n, m := Run(INITIAL, ops), Published(ops), Confirmed(ops);
    LeastExactly(ops);
    assert n + 1 !in m;
    if s.expecting !in m {
      assert s.expecting == n + 1;
      assert s.sequencer == map[];
    } else {
      assert s.expecting in s.sequencer;
    }
  }

  // ---------------------------------------------------------------- the flags listeners are told

  /** What released a tag: a multiple confirmation, or a single one with flags of their own. */
  datatype Releaser = Together(ack: bool) | Singly(flags: map<nat, bool>)

  function FlagFrom(r: Releaser, t: nat): bool {
    match r
    case Together(ack) => ack
    case Singly(flags) => t in flags && flags[t]
  }

  /** The tags from `first` up to `end`, which is not one of them. */
  function Entries(first: nat, end: nat, r: Releaser): seq<Confirmation>
    decreases end - first
  {
    if first >= end then [] else [Confirmation(first, FlagFrom(r, first))] + Entries(first + 1, end, r)
  }

  /** From s to u every listener was told these tags, and nothing else. */
  ghost predicate Tells(s: State, u: State, r: Releaser) {
    && |s.logs| <= |u.logs|
    && (forall l :: 0 <= l < |s.logs| ==> u.logs[l] == s.logs[l] + Entries(s.expecting, u.expecting, r))
    && (forall l :: |s.logs| <= l < |u.logs| ==> u.logs[l] == [])
  }

  lemma TellsNothing(s: State, u: State, r: Releaser)
    requires u.expecting == s.expecting && (u.logs == s.logs || u.logs == s.logs + [[]])
    ensures Tells(s, u, r)
  {
    forall l | 0 <= l < |s.logs| ensures u.logs[l] == s.logs[l] + Entries(s.expecting, u.expecting, r) {
      assert s.logs[l] + [] == s.logs[l];
    }
  }

  lemma TellsFirst(s: State, u: State, c: Confirmation, r: Releaser)
    requires c == Confirmation(s.expecting, FlagFrom(r, s.expecting)) && s.expecting < u.expecting
    requires Tells(Confirm(s, c), u, r)
    ensures Tells(s, u, r)
  {
    var rest := Entries(s.expecting + 1, u.expecting, r);
    forall l | 0 <= l < |s.logs| ensures u.logs[l] == s.logs[l] + Entries(s.expecting, u.expecting, r) {
      assert (s.logs[l] + [c]) + rest == s.logs[l] + ([c] + rest);
    }
  }

  /** A multiple confirmation tells every listener the tags from the expected one up to its own,
      all with its flag, and leaves the other early confirmations as they were. */
  lemma {:induction false} MultipleTells(s: State, c: Confirmation)
    ensures var u := Multiple(s, c);
            && u.expecting == Passed(s.expecting, c.tag) && |u.logs| == |s.logs| && Tells(s, u, Together(c.ack))
            && (forall k :: k in u.sequencer <==> k in s.sequencer && !(s.expecting <= k <= c.tag))
            && (forall k :: k in u.sequencer ==> u.sequencer[k] == s.sequencer[k])
    decreases c.tag + 1 - s.expecting
  {
    if s.expecting <= c.tag {
      var d := Confirmation(s.expecting, c.ack);
      MultipleTells(Confirm(s, d), c);
      TellsFirst(s, Multiple(s, c), d, Together(c.ack));
    } else {
      TellsNothing(s, s, Together(c.ack));
    }
  }

  /** Early confirmations keep the flag they came with. */
  ghost predicate OwnFlags(s: State, confirmed: map<nat, bool>) {
    forall t :: t in s.sequencer ==> t in confirmed && s.sequencer[t] == Confirmation(t, confirmed[t])
  }

  /** What resequencing releases is told with the flag it came with. */
  lemma {:induction false} ResequenceTells(s: State, confirmed: map<nat, bool>)
    requires OwnFlags(s, confirmed)
    ensures Tells(s, Resequence(s), Singly(confirmed)) && OwnFlags(Resequence(s), confirmed)
    ensures s.expecting <= Resequence(s).expecting && |Resequence(s).logs| == |s.logs|
    decreases s.published + 1 - s.expecting
  {
    if s.expecting <= s.published && s.expecting in s.sequencer {
      var c := s.sequencer[s.expecting];
      ResequenceTells(Confirm(s, c), confirmed);
      TellsFirst(s, Resequence(s), c, Singly(confirmed));
    } else {
      TellsNothing(s, s, Singly(confirmed));
    }
  }

  lemma OneTells(s: State, c: Confirmation, confirmed: map<nat, bool>)
    requires OwnFlags(s, confirmed) && c.tag !in confirmed
    ensures var more := confirmed[c.tag := c.ack];
            Tells(s, One(s, c), Singly(more)) && OwnFlags(One(s, c), more)
  {
    var more := confirmed[c.tag := c.ack];
    if s.expecting == c.tag {
      ResequenceTells(Confirm(s, c), more);
      TellsFirst(s, One(s, c), c, Singly(more));
    } else {
      var t := s.(sequencer := s.sequencer[c.tag := c]);
      ResequenceTells(t, more);
      assert t.logs == s.logs && t.expecting == s.expecting;
    }
  }

  function LastReleaser(ops: seq<Op>): Releaser
    requires ops != []
  {
    if ops[|ops| - 1].ConfirmMultiple? then Together(ops[|ops| - 1].c.ack) else Singly(Confirmed(ops))
  }

  /** In every run each operation tells the listeners the tags it releases, in order, with the
      flag of the confirmation that released them: a multiple one its own, a single one those
      the tags came with. */
  lemma {:induction false} RunTells(ops: seq<Op>)
    requires Disciplined(ops)
    ensures OwnFlags(Run(INITIAL, ops), Confirmed(ops))
    ensures ops != [] ==> Tells(Run(INITIAL, ops[..|ops| - 1]), Run(INITIAL, ops), LastReleaser(ops))
    decreases |ops|
  {
    if ops != [] {
      var n := |ops| - 1;
      RunTells(ops[..n]);
      var s, m := Run(INITIAL, ops[..n]), Confirmed(ops[..n]);
      match ops[n] {
        case ConfirmOne(c) => OneTells(s, c, m);
        case ConfirmMultiple(c) => MultipleTells(s, c);
        case Listen => TellsNothing(s, Step(s, Listen), Singly(m));
        case Publish => TellsNothing(s, Step(s, Publish), Singly(m));
      }
    }
  }

  /** The flags the released tags were reported with. */
  function Reported(ops: seq<Op>): map<nat, bool> {
    if ops == [] then map[]
    else
      var was := ops[..|ops| - 1];
      Reported(was) + Span(Run(INITIAL, was).expecting, Run(INITIAL, ops).expecting, LastReleaser(ops))
  }

  function Span(first: nat, end: nat, r: Releaser): map<nat, bool> {
    map t | first <= t < end :: FlagFrom(r, t)
  }

  lemma {:induction false} EntriesFlagged(log: seq<Confirmation>, m: map<nat, bool>, first: nat, end: nat, r: Releaser)
    requires Flagged(log, m) && forall i :: 0 <= i < |log| ==> log[i].tag < first
    ensures Flagged(log + Entries(first, end, r), m + Span(first, end, r))
    decreases end - first
  {
    if first >= end {
      assert log + [] == log && m + Span(first, end, r) == m;
    } else {
      hide Flagged, Span;
      var c, rest := Confirmation(first, FlagFrom(r, first)), Entries(first + 1, end, r);
      FlaggedMore(log, m, c);
      EntriesFlagged(log + [c], m[first := c.ack], first + 1, end, r);
      assert (log + [c]) + rest == log + ([c] + rest);
      SpanFirst(m, first, end, r);
    }
  }

  lemma FlaggedMore(log: seq<Confirmation>, m: map<nat, bool>, c: Confirmation)
    requires Flagged(log, m) && forall i :: 0 <= i < |log| ==> log[i].tag < c.tag
    ensures Flagged(log + [c], m[c.tag := c.ack])
  {
  }

  lemma SpanFirst(m: map<nat, bool>, first: nat, end: nat, r: Releaser)
    requires first < end
    ensures m[first := FlagFrom(r, first)] + Span(first + 1, end, r) == m + Span(first, end, r)
  {
  }

  /** In every run a listener's log has each tag with the flag of its releaser. */
  lemma {:induction false} LogsReport(ops: seq<Op>)
    requires Disciplined(ops)
    ensures var s := Run(INITIAL, ops);
            && (forall l :: 0 <= l < |s.logs| ==> Flagged(s.logs[l], Reported(ops)))
            && (forall t :: t in Reported(ops) <==> 1 <= t < s.expecting)
    decreases |ops|
  {
    if ops != [] {
      var was := ops[..|ops| - 1];
      LogsReport(was);
      RunTells(ops);
      RunKeeps(INITIAL, was);
      var s, u := Run(INITIAL, was), Run(INITIAL, ops);
      StepKeeps(s, ops[|ops| - 1]);
      forall l | 0 <= l < |u.logs| ensures Flagged(u.logs[l], Reported(ops)) {
        if l < |s.logs| {
          assert Consecutive(s.logs[l], s.expecting);
          EntriesFlagged(s.logs[l], Reported(was), s.expecting, u.expecting, LastReleaser(ops));
        } else {
          assert u.logs[l] == [] && Flagged([], Reported(ops));
        }
      }
    }
  }

  /** No multiple confirmation has passed over a tag that had come early with another flag. */
  predicate NothingOverridden(ops: seq<Op>) {
    ops != [] ==>
      var n := |ops| - 1;
      NothingOverridden(ops[..n]) && (ops[n].ConfirmMultiple? ==> !Overrides(ops[..n], ops[n].c))
  }

  predicate Overrides(ops: seq<Op>, c: Confirmation) {
    exists t :: Run(INITIAL, ops).expecting <= t <= c.tag && t in Confirmed(ops) && Confirmed(ops)[t] != c.ack
  }

  predicate Agree(reported: map<nat, bool>, confirmed: map<nat, bool>) {
    forall t :: t in reported ==> t in confirmed && reported[t] == confirmed[t]
  }

  /** Every tag is reported with the flag the server gave to it first, if and only if nothing was
      overridden. */
  lemma {:induction false} OwnFlagsExactly(ops: seq<Op>)
    requires Disciplined(ops)
    ensures Agree(Reported(ops), Confirmed(ops)) <==> NothingOverridden(ops)
    decreases |ops|
  {
    if ops != [] {
      var n := |ops| - 1;
      OwnFlagsExactly(ops[..n]);
      LogsReport(ops[..n]);
      LogsReport(ops);
      LeastExactly(ops);
      LeastExactly(ops[..n]);
      if ops[n].ConfirmMultiple? {
        MultipleTells(Run(INITIAL, ops[..n]), ops[n].c);
        AgreeMultiple(Reported(ops[..n]), Confirmed(ops[..n]), Run(INITIAL, ops[..n]).expecting, ops[n].c);
      } else {
        AgreeSingly(Reported(ops[..n]), Confirmed(ops[..n]), Confirmed(ops),
                    Run(INITIAL, ops[..n]).expecting, Run(INITIAL, ops).expecting);
      }
    }
  }

  lemma AgreeMultiple(reported: map<nat, bool>, confirmed: map<nat, bool>, first: nat, c: Confirmation)
    requires first >= 1 && forall t :: t in reported <==> 1 <= t < first
    requires forall t :: 1 <= t < first ==> t in confirmed
    ensures Agree(reported + Span(first, Passed(first, c.tag), Together(c.ack)), Covered(confirmed, c.tag, c.ack))
       <==> && Agree(reported, confirmed)
            && !exists t :: first <= t <= c.tag && t in confirmed && confirmed[t] != c.ack
  {
    var now, all := reported + Span(first, Passed(first, c.tag), Together(c.ack)), Covered(confirmed, c.tag, c.ack);
    forall t ensures t in reported ==> t in now && now[t] == reported[t] && t in all && all[t] == confirmed[t] {}
    forall t ensures first <= t <= c.tag ==> t in now && now[t] == c.ack && t in all {}
    forall t ensures t in now <==> t in reported || first <= t <= c.tag {}
    if Agree(now, all) {
      forall t | t in reported ensures t in confirmed && reported[t] == confirmed[t] {
        assert t in now;
      }
      forall t | first <= t <= c.tag && t in confirmed ensures confirmed[t] == c.ack {
        assert t in now;
      }
    }
  }

  lemma AgreeSingly(reported: map<nat, bool>, before: map<nat, bool>, confirmed: map<nat, bool>, first: nat, end: nat)
    requires 1 <= first <= end && forall t :: t in reported <==> 1 <= t < first
    requires forall t :: 1 <= t < first ==> t in before
    requires forall t :: t in before ==> t in confirmed && confirmed[t] == before[t]
    requires forall t :: 1 <= t < end ==> t in confirmed
    ensures Agree(reported + Span(first, end, Singly(confirmed)), confirmed) <==> Agree(reported, before)
  {
    var now := reported + Span(first, end, Singly(confirmed));
    if Agree(now, confirmed) {
      forall t | t in reported ensures t in before && reported[t] == before[t] {
        assert t in now;
      }
    }
  }

  /** A nack that came early is reported as an ack when a multiple ack passes over it. */
  lemma NackOverridden()
    ensures var ops := [Listen, Publish, Publish, ConfirmOne(Confirmation(2, false)),
                        ConfirmMultiple(Confirmation(2, true))];
            && Disciplined(ops) && Confirmed(ops) == map[2 := false, 1 := true]
            && Run(INITIAL, ops).logs == [[Confirmation(1, true), Confirmation(2, true)]]
  {
    var nack, ack := ConfirmOne(Confirmation(2, false)), ConfirmMultiple(Confirmation(2, true));
    var a := [Listen, Publish, Publish];
    assert a[..2] == [Listen, Publish] && a[..2][..1] == [Listen];
    assert Run(INITIAL, [Listen]) == State(map[], 0, 1, [[]]);
    assert Run(INITIAL, a[..2]) == State(map[], 1, 1, [[]]);
    assert Run(INITIAL, a) == State(map[], 2, 1, [[]]) && Published(a) == 2 && Confirmed(a) == map[] && Disciplined(a);
    var b := [Listen, Publish, Publish, nack];
    assert b[..3] == a;
    var s := State(map[2 := Confirmation(2, false)], 2, 1, [[]]);
    assert Run(INITIAL, b) == s && Confirmed(b) == map[2 := false] && Disciplined(b) && Published(b) == 2;
    var c := [Listen, Publish, Publish, nack, ack];
    assert c[..4] == b;
    assert Covered(map[2 := false], 2, true) == map[2 := false, 1 := true];
    BothTold(s);
  }

  lemma BothTold(s: State)
    requires s.logs == [[]] && s.expecting == 1
    ensures Multiple(s, Confirmation(2, true)).logs == [[Confirmation(1, true), Confirmation(2, true)]]
  {
    MultipleTells(s, Confirmation(2, true));
    assert Entries(3, 3, Together(true)) == [] && Entries(2, 3, Together(true)) == [Confirmation(2, true)];
    assert Entries(1, 3, Together(true)) == [Confirmation(1, true), Confirmation(2, true)];
    var told := Multiple(s, Confirmation(2, true)).logs;
    var none: seq<Confirmation> := [];
    var both := Entries(1, 3, Together(true));
    assert |told| == 1 && told[0] == s.logs[0] + both && s.logs[0] == none && none + both == both;
    assert told == [told[0]];
  }

  // ---------------------------------------------------------------- each tag confirmed once

  /** In step with the confirmations, and listeners were told the flags that were given. */
  ghost predicate Faithful(s: State, confirmed: map<nat, bool>) {
    && Tracks(s, confirmed)
    && (forall t :: t in s.sequencer ==> s.sequencer[t].ack == confirmed[t])
    && (forall l :: 0 <= l < |s.logs| ==> Flagged(s.logs[l], confirmed))
  }

  predicate Flagged(log: seq<Confirmation>, confirmed: map<nat, bool>) {
    forall i :: 0 <= i < |log| ==> log[i].tag in confirmed && log[i].ack == confirmed[log[i].tag]
  }

  lemma FaithfulConfirm(s: State, c: Confirmation, confirmed: map<nat, bool>)
    requires Faithful(s, confirmed) && c.tag == s.expecting && c.tag in confirmed && confirmed[c.tag] == c.ack
    ensures Faithful(Confirm(s, c), confirmed)
  {
    TracksConfirm(s, c, confirmed);
  }

  lemma {:induction false} FaithfulResequence(s: State, confirmed: map<nat, bool>)
    requires Faithful(s, confirmed)
    ensures Faithful(Resequence(s), confirmed)
    decreases s.published + 1 - s.expecting
  {
    if s.expecting <= s.published && s.expecting in s.sequencer {
      FaithfulConfirm(s, s.sequencer[s.expecting], confirmed);
      FaithfulResequence(Confirm(s, s.sequencer[s.expecting]), confirmed);
    }
  }

  lemma FaithfulMore(s: State, confirmed: map<nat, bool>, c: Confirmation)
    requires forall l :: 0 <= l < |s.logs| ==> Flagged(s.logs[l], confirmed)
    requires c.tag !in confirmed
    ensures forall l :: 0 <= l < |s.logs| ==> Flagged(s.logs[l], confirmed[c.tag := c.ack])
  {
    forall l | 0 <= l < |s.logs| ensures Flagged(s.logs[l], confirmed[c.tag := c.ack]) {
      assert Flagged(s.logs[l], confirmed);
    }
  }

  lemma FaithfulOne(s: State, c: Confirmation, confirmed: map<nat, bool>)
    requires Faithful(s, confirmed) && c.tag !in confirmed && 1 <= c.tag <= s.published
    ensures Faithful(One(s, c), confirmed[c.tag := c.ack])
  {
    var more := confirmed[c.tag := c.ack];
    FaithfulMore(s, confirmed, c);
    if s.expecting == c.tag {
      ConfirmKeeps(s, c);
      FaithfulResequence(Confirm(s, c), more);
    } else {
      FaithfulResequence(s.(sequencer := s.sequencer[c.tag := c]), more);
    }
  }

  /** Throughout a run of single confirmations the expected tag is the least one not
      confirmed. */
  lemma {:induction false} ExpectingIsLeast(ops: seq<Op>)
    requires Disciplined(ops) && OneByOne(ops)
    ensures var s, m := Run(INITIAL, ops), Confirmed(ops);
            && Faithful(s, m) && s.published == Published(ops)
            && s.expecting !in m && forall t :: 1 <= t < s.expecting ==> t in m
    decreases |ops|
  {
    LeastExactly(ops);
    if ops != [] {
      var n := |ops| - 1;
      ExpectingIsLeast(ops[..n]);
      LeastExactly(ops[..n]);
      var s, m := Run(INITIAL, ops[..n]), Confirmed(ops[..n]);
      match ops[n] {
        case ConfirmOne(c) => FaithfulOne(s, c, m);
        case Listen => StepKeeps(s, Listen);
        case Publish => StepKeeps(s, Publish);
      }
    }
  }

  /** When every published tag is confirmed, a listener that was there from the start has
      the tags 1..n, each with its own flag, and nothing is kept back. */
  lemma AllConfirmed(ops: seq<Op>)
    requires Disciplined([Listen] + ops) && OneByOne(ops)
    requires forall t :: 1 <= t <= Published([Listen] + ops) ==> t in Confirmed([Listen] + ops)
    ensures var s, n, m := Run(INITIAL, [Listen] + ops), Published([Listen] + ops), Confirmed([Listen] + ops);
            && s.sequencer == map[] && s.expecting == n + 1
            && |s.logs| > 0 && |s.logs[0]| == n
            && forall i :: 0 <= i < n ==> i + 1 in m && s.logs[0][i] == Confirmation(i + 1, m[i + 1])
  {
    var all := [Listen] + ops;
    var s, n, m := Run(INITIAL, all), Published(all), Confirmed(all);
    ExpectingIsLeast(all);
    ListenerLog([], ops);
    assert [] + [Listen] + ops == all;
    assert s.expecting > n;
    assert n + 1 !in m;
    assert s.expecting == n + 1;
    assert s.sequencer == map[];
    assert Flagged(s.logs[0], m);
    forall i | 0 <= i < n ensures i + 1 in m && s.logs[0][i] == Confirmation(i + 1, m[i + 1]) {
      assert s.logs[0][i].tag == i + 1;
    }
  }

  // ---------------------------------------------------------------- a confirmation that waits

  lemma ConfirmAlone(s: State, log: seq<Confirmation>, c: Confirmation)
    requires s.logs == [log] && s.expecting !in s.sequencer
    ensures Confirm(s, c) == State(s.sequencer, s.published, s.expecting + 1, [log + [c]])
  {
    assert s.sequencer - {s.expecting} == s.sequencer;
    assert Told(s.logs, c) == [log + [c]];
  }

  /** Tag 3 has come early, 1 and 2 are still out. */
  const EARLY: State := State(map[3 := Confirmation(3, true)], 3, 1, [[]])

  lemma EarlyRun()
    ensures Run(INITIAL, [Listen, Publish, Publish, Publish, ConfirmOne(Confirmation(3, true))]) == EARLY
  {
    var a := [Listen, Publish, Publish, Publish];
    assert Run(INITIAL, a) == State(map[], 3, 1, [[]]) by {
      assert a[..3] == [Listen, Publish, Publish];
      assert a[..3][..2] == [Listen, Publish];
      assert a[..3][..2][..1] == [Listen];
      assert Run(INITIAL, [Listen]) == State(map[], 0, 1, [[]]);
      assert Run(INITIAL, [Listen, Publish]) == State(map[], 1, 1, [[]]);
      assert Run(INITIAL, [Listen, Publish, Publish]) == State(map[], 2, 1, [[]]);
    }
    var b := a + [ConfirmOne(Confirmation(3, true))];
    assert b[..4] == a;
    assert b == [Listen, Publish, Publish, Publish, ConfirmOne(Confirmation(3, true))];
  }

  /** Confirming 1 and 2 together leaves 3 waiting, though nothing is left to confirm; the next
      single confirmation, of a fourth publishing, releases it. */
  lemma EarlyTagWaits()
    ensures var c1, c2, c3, c4 :=
              Confirmation(1, true), Confirmation(2, true), Confirmation(3, true), Confirmation(4, true);
            var waiting := Step(EARLY, ConfirmMultiple(c2));
            && waiting == State(map[3 := c3], 3, 3, [[c1, c2]])
            && Step(Step(waiting, Publish), ConfirmOne(c4)) == State(map[], 4, 5, [[c1, c2, c3, c4]])
  {
    var c1, c2, c3, c4 := Confirmation(1, true), Confirmation(2, true), Confirmation(3, true), Confirmation(4, true);
    var log: seq<Confirmation> := [];
    ConfirmAlone(EARLY, log, c1);
    var s2 := State(EARLY.sequencer, 3, 2, [log + [c1]]);
    ConfirmAlone(s2, log + [c1], c2);
    var s3 := State(EARLY.sequencer, 3, 3, [[c1, c2]]);
    assert log + [c1] + [c2] == [c1, c2];
    assert Multiple(s3, c2) == s3 && Multiple(s2, c2) == s3 && Multiple(EARLY, c2) == s3;
    var s4 := State(map[3 := c3, 4 := c4], 4, 3, [[c1, c2]]);
    assert s3.sequencer[4 := c4] == s4.sequencer;
    Released(s4, [c1, c2], c3);
    var s5 := State(map[4 := c4], 4, 4, [[c1, c2] + [c3]]);
    assert s4.sequencer - {3} == s5.sequencer;
    Released(s5, [c1, c2] + [c3], c4);
    assert s5.sequencer - {4} == map[];
    assert [c1, c2] + [c3] + [c4] == [c1, c2, c3, c4];
  }

  lemma Released(s: State, log: seq<Confirmation>, c: Confirmation)
    requires s.logs == [log] && s.expecting in s.sequencer && s.sequencer[s.expecting] == c
    requires s.expecting <= s.published
    ensures Resequence(s) == Resequence(State(s.sequencer - {s.expecting}, s.published, s.expecting + 1, [log + [c]]))
  {
    assert Told(s.logs, c) == [log + [c]];
  }
}
