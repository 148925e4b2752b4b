/** Concurrent users of the cache: the S3 and memcache steps of Get, Set and Delete
    (cache.go) in any interleaving, with evictions and failing calls. */
module BundlerRace {
  import opened Basics
  import opened BundlerStore

  /** Where a call stands: the next step it takes, or the result of a Get. */
  datatype Call =
    | Idle
    | GetMc(k: string)
    | GetS3(k: string)
    | GetFill(k: string, b: Blob)
    | GetDone(k: string, result: Option<Blob>)
    | SetS3(k: string, b: Blob)
    | SetMc(k: string, b: Blob)
    | DelS3(k: string)
    | DelMc(k: string)

  datatype State = State(s3: map<string, Blob>, mc: map<string, Blob>, calls: map<nat, Call>)

  function At(s: State, i: nat): Call {
    if i in s.calls then s.calls[i] else Idle
  }

  /** The stores are as given and call i has moved to c. */
  predicate Moved(s: State, t: State, i: nat, s3: map<string, Blob>, mc: map<string, Blob>, c: Call) {
    t == State(s3, mc, s.calls[i := c])
  }

  /** A new call begins. */
  ghost predicate Begins(H: Blob -> string, s: State, t: State, i: nat) {
    || (exists k :: Moved(s, t, i, s.s3, s.mc, GetMc(k)))
    || (exists k, b :: Right(H, k, b) && Moved(s, t, i, s.s3, s.mc, SetS3(k, b)))
    || (exists k :: Moved(s, t, i, s.s3, s.mc, DelS3(k)))
  }

  /** A Get goes on. A failing call to a store may have taken effect. */
  predicate GetStep(s: State, t: State, i: nat, c: Call) {
    match c
    case GetMc(k) =>
      || (k in s.mc && Moved(s, t, i, s.s3, s.mc, GetDone(k, Some(s.mc[k]))))
      || (k !in s.mc && Moved(s, t, i, s.s3, s.mc, GetS3(k)))
      || Moved(s, t, i, s.s3, s.mc, GetDone(k, None))
    case GetS3(k) =>
      || (k in s.s3 && Moved(s, t, i, s.s3, s.mc, GetFill(k, s.s3[k])))
      || Moved(s, t, i, s.s3, s.mc, GetDone(k, None))
    case GetFill(k, b) =>
      || Moved(s, t, i, s.s3, s.mc[k := b], GetDone(k, Some(b)))
      || Moved(s, t, i, s.s3, s.mc[k := b], GetDone(k, None))
      || Moved(s, t, i, s.s3, s.mc, GetDone(k, None))
    case GetDone(_, _) => Moved(s, t, i, s.s3, s.mc, Idle)
    case _ => false
  }

  /** A Set or Delete goes on, under the same conditions. */
  predicate WriteStep(s: State, t: State, i: nat, c: Call) {
    match c
    case SetS3(k, b) =>
      || Moved(s, t, i, s.s3[k := b], s.mc, SetMc(k, b))
      || Moved(s, t, i, s.s3[k := b], s.mc, Idle)
      || Moved(s, t, i, s.s3, s.mc, Idle)
    case SetMc(k, b) => Moved(s, t, i, s.s3, s.mc[k := b], Idle) || Moved(s, t, i, s.s3, s.mc, Idle)
    case DelS3(k) =>
      || Moved(s, t, i, s.s3 - {k}, s.mc, DelMc(k))
      || Moved(s, t, i, s.s3 - {k}, s.mc, Idle)
      || Moved(s, t, i, s.s3, s.mc, Idle)
    case DelMc(k) => Moved(s, t, i, s.s3, s.mc - {k}, Idle) || Moved(s, t, i, s.s3, s.mc, Idle)
    case _ => false
  }

  /** One step of call i. */
  ghost predicate CallStep(H: Blob -> string, s: State, t: State, i: nat) {
    || (At(s, i).Idle? && Begins(H, s, t, i))
    || GetStep(s, t, i, At(s, i))
    || WriteStep(s, t, i, At(s, i))
  }

  ghost predicate Evicted(s: State, t: State) {
    t.s3 == s.s3 && t.calls == s.calls && Submap(t.mc, s.mc)
  }

  ghost predicate Next(H: Blob -> string, s: State, t: State) {
    Evicted(s, t) || exists i :: CallStep(H, s, t, i)
  }

  /** What a call carries is right. */
  ghost predicate CallRight(H: Blob -> string, c: Call) {
    match c
    case GetFill(k, b) => Right(H, k, b)
    case SetS3(k, b) => Right(H, k, b)
    case SetMc(k, b) => Right(H, k, b)
    case GetDone(k, r) => r.Some? ==> Right(H, k, r.value)
    case _ => true
  }

  ghost predicate Inv(H: Blob -> string, s: State) {
    && AllRight(H, s.s3) && AllRight(H, s.mc)
    && forall i :: i in s.calls ==> CallRight(H, s.calls[i])
  }

  lemma StoreKept(H: Blob -> string, m: map<string, Blob>, k: string, b: Blob)
    ensures AllRight(H, m) ==>
      && AllRight(H, m - {k})
      && (Right(H, k, b) ==> AllRight(H, m[k := b]))
  {
  }

  lemma MovedKeeps(H: Blob -> string, s: State, t: State, i: nat, s3: map<string, Blob>, mc: map<string, Blob>, c: Call)
    ensures Inv(H, s) && Moved(s, t, i, s3, mc, c) && AllRight(H, s3) && AllRight(H, mc) && CallRight(H, c) ==>
      Inv(H, t)
  {
  }

  lemma GetKeeps(H: Blob -> string, s: State, t: State, i: nat, c: Call)
    requires Inv(H, s) && CallRight(H, c) && GetStep(s, t, i, c)
    ensures Inv(H, t)
  {
    if c.GetFill? {
      StoreKept(H, s.mc, c.k, c.b);
    }
    MovedKeeps(H, s, t, i, t.s3, t.mc, t.calls[i]);
  }

  lemma WriteKeeps(H: Blob -> string, s: State, t: State, i: nat, c: Call)
    requires Inv(H, s) && CallRight(H, c) && WriteStep(s, t, i, c)
    ensures Inv(H, t)
  {
    var b := if c.SetS3? || c.SetMc? then c.b else "";
    StoreKept(H, s.s3, c.k, b);
    StoreKept(H, s.mc, c.k, b);
    MovedKeeps(H, s, t, i, t.s3, t.mc, t.calls[i]);
  }

  lemma CallStepKeeps(H: Blob -> string, s: State, t: State, i: nat)
    requires Inv(H, s) && CallStep(H, s, t, i)
    ensures Inv(H, t)
  {
    var c := At(s, i);
    assert CallRight(H, c);
    if GetStep(s, t, i, c) {
      GetKeeps(H, s, t, i, c);
    } else if WriteStep(s, t, i, c) {
      WriteKeeps(H, s, t, i, c);
    } else {
      MovedKeeps(H, s, t, i, t.s3, t.mc, t.calls[i]);
    }
  }

  ghost predicate IsRun(H: Blob -> string, ss: seq<State>) {
    |ss| > 0 && forall n :: 0 < n < |ss| ==> Next(H, ss[n - 1], ss[n])
  }

  lemma {:induction false} RunKeeps(H: Blob -> string, ss: seq<State>)
    requires IsRun(H, ss) && Inv(H, ss[0])
    ensures Inv(H, ss[|ss| - 1])
    decreases |ss|
  {
    if |ss| > 1 {
      var init := ss[..|ss| - 1];
      RunKeeps(H, init);
      var s, t := init[|init| - 1], ss[|ss| - 1];
      assert Next(H, s, t);
      if i :| CallStep(H, s, t, i) {
        CallStepKeeps(H, s, t, i);
      }
    }
  }

  /** Under every interleaving a Get of a hash that succeeds returns the content with that
      hash. */
  lemma GetIsRight(H: Blob -> string, ss: seq<State>, i: nat, app: string, sub: string, h: string, b: Blob)
    requires IsRun(H, ss) && Inv(H, ss[0]) && NoSlash(app) && NoSlash(sub) && IsHash(h)
    requires At(ss[|ss| - 1], i) == GetDone(Prefixed(app, sub, h), Some(b))
    ensures H(b) == h
  {
    RunKeeps(H, ss);
    assert Right(H, Prefixed(app, sub, h), b);
  }

  // ---------------------------------------------------------------- memcache within S3

  function Final(ss: seq<State>): State
    requires ss != []
  {
    ss[|ss| - 1]
  }

  /** What call i does next when no store fails. */
  function Act(s: State, i: nat): State {
    var c := At(s, i);
    match c
    case Idle => s
    case GetMc(k) => Go(s, i, s.s3, s.mc, if k in s.mc then GetDone(k, Some(s.mc[k])) else GetS3(k))
    case GetS3(k) => Go(s, i, s.s3, s.mc, if k in s.s3 then GetFill(k, s.s3[k]) else GetDone(k, None))
    case GetFill(k, b) => Go(s, i, s.s3, s.mc[k := b], GetDone(k, Some(b)))
    case GetDone(_, _) => Go(s, i, s.s3, s.mc, Idle)
    case SetS3(k, b) => Go(s, i, s.s3[k := b], s.mc, SetMc(k, b))
    case SetMc(k, b) => Go(s, i, s.s3, s.mc[k := b], Idle)
    case DelS3(k) => Go(s, i, s.s3 - {k}, s.mc, DelMc(k))
    case DelMc(k) => Go(s, i, s.s3, s.mc - {k}, Idle)
  }

  function Go(s: State, i: nat, s3: map<string, Blob>, mc: map<string, Blob>, c: Call): State {
    State(s3, mc, s.calls[i := c])
  }

  /** A step without a fault, of a call that is under way. */
  ghost predicate Acts(s: State, t: State, i: nat) {
    !At(s, i).Idle? && t == Act(s, i)
  }

  ghost predicate CleanNext(H: Blob -> string, s: State, t: State) {
    Evicted(s, t) || exists i :: Acts(s, t, i) || (At(s, i).Idle? && Begins(H, s, t, i))
  }

  /** Steps without faults are steps of the machine. */
  lemma CleanIsNext(H: Blob -> string, s: State, t: State)
    requires CleanNext(H, s, t)
    ensures Next(H, s, t)
  {
    if !Evicted(s, t) {
      var i :| Acts(s, t, i) || (At(s, i).Idle? && Begins(H, s, t, i));
      assert CallStep(H, s, t, i);
    }
  }

  /** The call is about to put b into memcache under k. */
  predicate Fills(c: Call, k: string) {
    (c.GetFill? || c.SetMc?) && c.k == k
  }

  /** The call's next step changes S3 at k. */
  predicate Changes(s: State, c: Call, k: string) {
    || (c.DelS3? && c.k == k)
    || (c.SetS3? && c.k == k && !(k in s.s3 && s.s3[k] == c.b))
  }

  /** No other call is about to fill the key that this step changes in S3. */
  ghost predicate Safe(s: State, i: nat) {
    forall j, k :: j != i && Changes(s, At(s, i), k) ==> !Fills(At(s, j), k)
  }

  ghost predicate SafeNext(H: Blob -> string, s: State, t: State) {
    Evicted(s, t) || exists i :: (Acts(s, t, i) && Safe(s, i)) || (At(s, i).Idle? && Begins(H, s, t, i))
  }

  ghost predicate IsSafeRun(H: Blob -> string, ss: seq<State>) {
    |ss| > 0 && forall n :: 0 < n < |ss| ==> SafeNext(H, ss[n - 1], ss[n])
  }

  predicate Current(s: State, k: string, b: Blob) {
    k in s.s3 && s.s3[k] == b
  }

  /** A write of k has changed S3 and is still to change memcache. */
  ghost predicate PendingWrite(s: State, k: string) {
    exists i :: At(s, i) == DelMc(k) || (At(s, i).SetMc? && At(s, i).k == k)
  }

  /** What is about to be filled in is what S3 has. */
  ghost predicate FillsCurrent(s: State) {
    forall i :: At(s, i).GetFill? || At(s, i).SetMc? ==> Current(s, At(s, i).k, At(s, i).b)
  }

  /** An entry of memcache is what S3 has, or a write is on its way to it. */
  ghost predicate EntriesCurrent(s: State) {
    forall k :: k in s.mc ==> Current(s, k, s.mc[k]) || PendingWrite(s, k)
  }

  ghost predicate Settling(s: State) {
    FillsCurrent(s) && EntriesCurrent(s)
  }

  ghost predicate NoWritePending(s: State) {
    forall i :: !At(s, i).SetMc? && !At(s, i).DelMc?
  }

  /** A pending write of another call stays pending. */
  lemma StillPending(s: State, t: State, i: nat, k: string)
    requires PendingWrite(s, k) && forall j :: j != i ==> At(t, j) == At(s, j)
    requires !(At(s, i) == DelMc(k) || (At(s, i).SetMc? && At(s, i).k == k))
    ensures PendingWrite(t, k)
  {
    var j :| At(s, j) == DelMc(k) || (At(s, j).SetMc? && At(s, j).k == k);
    assert At(t, j) == At(s, j);
  }

  lemma ActElsewhere(s: State, i: nat, j: nat)
    ensures j != i ==> At(Act(s, i), j) == At(s, j)
  {
  }

  lemma ActFills(s: State, i: nat)
    requires FillsCurrent(s) && Safe(s, i)
    ensures FillsCurrent(Act(s, i))
  {
    var t, c := Act(s, i), At(s, i);
    forall j | At(t, j).GetFill? || At(t, j).SetMc? ensures Current(t, At(t, j).k, At(t, j).b) {
      if j != i {
        ActElsewhere(s, i, j);
        assert Fills(At(s, j), At(s, j).k);
        assert !Changes(s, c, At(s, j).k);
      }
    }
  }

  lemma ActEntries(s: State, i: nat, k: string)
    requires Settling(s) && !At(s, i).Idle? && k in Act(s, i).mc
    ensures var t := Act(s, i); Current(t, k, t.mc[k]) || PendingWrite(t, k)
  {
    var t, c := Act(s, i), At(s, i);
    forall j | j != i ensures At(t, j) == At(s, j) {
      ActElsewhere(s, i, j);
    }
    if (c.SetS3? || c.DelS3?) && c.k == k {
      assert At(t, i) == if c.SetS3? then SetMc(k, c.b) else DelMc(k);
    } else if (c.GetFill? || c.SetMc?) && c.k == k {
      assert Current(s, k, c.b);
    } else {
      assert k in s.mc && t.mc[k] == s.mc[k];
      if !Current(s, k, s.mc[k]) {
        StillPending(s, t, i, k);
      }
    }
  }

  lemma SafeKeeps(H: Blob -> string, s: State, t: State)
    requires Settling(s) && SafeNext(H, s, t)
    ensures Settling(t)
  {
    if Evicted(s, t) {
      EvictedKeeps(s, t);
    } else {
      var i :| (Acts(s, t, i) && Safe(s, i)) || (At(s, i).Idle? && Begins(H, s, t, i));
      if Acts(s, t, i) && Safe(s, i) {
        ActFills(s, i);
        forall k | k in t.mc ensures Current(t, k, t.mc[k]) || PendingWrite(t, k) {
          ActEntries(s, i, k);
        }
      } else {
        BeginsKeeps(H, s, t, i);
      }
    }
  }

  lemma EvictedKeeps(s: State, t: State)
    requires Settling(s) && Evicted(s, t)
    ensures Settling(t)
  {
    forall j ensures At(t, j) == At(s, j) {}
    forall k | k in t.mc ensures Current(t, k, t.mc[k]) || PendingWrite(t, k) {
      if PendingWrite(s, k) {
        var j :| At(s, j) == DelMc(k) || (At(s, j).SetMc? && At(s, j).k == k);
        assert At(t, j) == At(s, j);
      }
    }
  }

  lemma BeginsKeeps(H: Blob -> string, s: State, t: State, i: nat)
    requires Settling(s) && At(s, i).Idle? && Begins(H, s, t, i)
    ensures Settling(t)
  {
    assert t.s3 == s.s3 && t.mc == s.mc;
    assert forall j :: j != i ==> At(t, j) == At(s, j);
    assert At(t, i).GetMc? || At(t, i).SetS3? || At(t, i).DelS3?;
    forall k | k in t.mc ensures Current(t, k, t.mc[k]) || PendingWrite(t, k) {
      if !Current(s, k, s.mc[k]) {
        StillPending(s, t, i, k);
      }
    }
  }

  /** In every run without faults in which no call changes S3 under a fill in hand, an entry
      of memcache that S3 does not have has a write on its way to it, and whenever no write is
      pending memcache is within S3. */
  lemma {:induction false} SafeRunsStayWithin(H: Blob -> string, ss: seq<State>)
    requires IsSafeRun(H, ss) && Settling(ss[0])
    ensures var last := Final(ss);
            && Settling(last)
            && (forall k :: k in last.mc && k !in last.s3 ==> PendingWrite(last, k))
            && (NoWritePending(last) ==> Submap(last.mc, last.s3))
    decreases |ss|
  {
    if |ss| > 1 {
      var init := ss[..|ss| - 1];
      SafeRunsStayWithin(H, init);
      SafeKeeps(H, Final(init), Final(ss));
    }
  }

  // ---------------------------------------------------------------- one call alone

  /** Call i goes on until it has a result or is done; nobody else moves. */
  function Alone(s: State, i: nat): State
    decreases Left(At(s, i))
  {
    LeftLess(s, i);
    if At(s, i).Idle? || At(s, i).GetDone? then s else Alone(Act(s, i), i)
  }

  lemma GoGo(s: State, i: nat, s3: map<string, Blob>, mc: map<string, Blob>, c: Call, d: Call)
    ensures Go(Go(s, i, s3, mc, c), i, s3, mc, d) == Go(s, i, s3, mc, d)
    ensures At(Go(s, i, s3, mc, c), i) == c
  {
  }

  /** What the calls are for: alone and without faults, a Get gives what memcache has, else what
      S3 has, and that is cached then, else nothing. */
  lemma GetAlone(s: State, i: nat, k: string)
    requires At(s, i) == GetMc(k)
    ensures Alone(s, i) ==
      if k in s.mc then Go(s, i, s.s3, s.mc, GetDone(k, Some(s.mc[k])))
      else if k in s.s3 then Go(s, i, s.s3, s.mc[k := s.s3[k]], GetDone(k, Some(s.s3[k])))
      else Go(s, i, s.s3, s.mc, GetDone(k, None))
  {
    if k !in s.mc {
      var t := Go(s, i, s.s3, s.mc, GetS3(k));
      assert Act(s, i) == t && Alone(s, i) == Alone(t, i);
      if k in s.s3 {
        var b := s.s3[k];
        GoGo(s, i, s.s3, s.mc, GetS3(k), GetFill(k, b));
        var u := Go(s, i, s.s3, s.mc, GetFill(k, b));
        assert Act(t, i) == u && Alone(t, i) == Alone(u, i);
        assert u.calls[i := GetDone(k, Some(b))] == s.calls[i := GetDone(k, Some(b))];
        assert Act(u, i) == Go(s, i, s.s3, s.mc[k := b], GetDone(k, Some(b))) && Alone(u, i) == Alone(Act(u, i), i);
        assert Alone(Act(u, i), i) == Act(u, i);
      } else {
        GoGo(s, i, s.s3, s.mc, GetS3(k), GetDone(k, None));
        assert Act(t, i) == Go(s, i, s.s3, s.mc, GetDone(k, None)) && Alone(t, i) == Alone(Act(t, i), i);
        assert Alone(Act(t, i), i) == Act(t, i);
      }
    }
  }

  /** A Set puts its content into both stores, a Delete takes it out of both. */
  lemma WriteAlone(s: State, i: nat, k: string, b: Blob)
    ensures At(s, i) == SetS3(k, b) ==> Alone(s, i) == Go(s, i, s.s3[k := b], s.mc[k := b], Idle)
    ensures At(s, i) == DelS3(k) ==> Alone(s, i) == Go(s, i, s.s3 - {k}, s.mc - {k}, Idle)
  {
    if At(s, i) == SetS3(k, b) {
      var t := Go(s, i, s.s3[k := b], s.mc, SetMc(k, b));
      assert Act(s, i) == t && Alone(s, i) == Alone(t, i);
      assert t.calls[i := Idle] == s.calls[i := Idle];
      assert Act(t, i) == Go(s, i, s.s3[k := b], s.mc[k := b], Idle) && Alone(t, i) == Alone(Act(t, i), i);
      assert Alone(Act(t, i), i) == Act(t, i);
    } else if At(s, i) == DelS3(k) {
      var t := Go(s, i, s.s3 - {k}, s.mc, DelMc(k));
      assert Act(s, i) == t && Alone(s, i) == Alone(t, i);
      assert t.calls[i := Idle] == s.calls[i := Idle];
      assert Act(t, i) == Go(s, i, s.s3 - {k}, s.mc - {k}, Idle) && Alone(t, i) == Alone(Act(t, i), i);
      assert Alone(Act(t, i), i) == Act(t, i);
    }
  }

  // ---------------------------------------------------------------- ... and not otherwise

  ghost predicate IsCleanRun(H: Blob -> string, ss: seq<State>) {
    |ss| > 0 && forall n :: 0 < n < |ss| ==> CleanNext(H, ss[n - 1], ss[n])
  }

  ghost predicate AtRest(s: State) {
    forall i :: At(s, i).Idle?
  }

  /** The calls under way go on, one step at a time: no call begins and nothing fails. */
  ghost predicate IsActRun(ss: seq<State>) {
    |ss| > 0 && forall n :: 0 < n < |ss| ==> GoesOn(ss[n - 1], ss[n])
  }

  ghost predicate GoesOn(s: State, t: State) {
    exists i :: Acts(s, t, i)
  }

  lemma ActRunIsClean(H: Blob -> string, ss: seq<State>)
    requires IsActRun(ss)
    ensures IsCleanRun(H, ss)
  {
    forall n | 0 < n < |ss| ensures CleanNext(H, ss[n - 1], ss[n]) {
      assert GoesOn(ss[n - 1], ss[n]);
      var i :| Acts(ss[n - 1], ss[n], i);
    }
  }

  lemma ActAppend(ss: seq<State>, i: nat)
    requires IsActRun(ss) && !At(Final(ss), i).Idle?
    ensures IsActRun(ss + [Act(Final(ss), i)])
  {
    assert Acts(Final(ss), Act(Final(ss), i), i);
  }

  /** S3 does not have b under k, and no call under way is going to put it there. */
  ghost predicate Gone(s: State, k: string, b: Blob) {
    !Current(s, k, b) && forall i :: At(s, i) != SetS3(k, b)
  }

  lemma ActGone(s: State, i: nat, k: string, b: Blob)
    requires Gone(s, k, b) && !At(s, i).Idle?
    ensures Gone(Act(s, i), k, b)
  {
    forall j ensures At(Act(s, i), j) != SetS3(k, b) {
      ActElsewhere(s, i, j);
    }
  }

  /** Steps call i still has to take, at most. */
  function Left(c: Call): nat {
    match c
    case Idle => 0
    case GetMc(_) => 4
    case GetS3(_) => 3
    case GetFill(_, _) => 2
    case GetDone(_, _) => 1
    case SetS3(_, _) => 2
    case SetMc(_, _) => 1
    case DelS3(_) => 2
    case DelMc(_) => 1
  }

  lemma LeftLess(s: State, i: nat)
    ensures !At(s, i).Idle? ==> Left(At(Act(s, i), i)) < Left(At(s, i)) && Act(s, i).calls.Keys <= s.calls.Keys + {i}
  {
  }

  /** Any call can be brought to its end alone. */
  lemma {:induction false} Finish(ss: seq<State>, i: nat, k: string, b: Blob) returns (tt: seq<State>)
    requires IsActRun(ss)
    ensures IsActRun(tt) && ss <= tt && (Gone(Final(ss), k, b) ==> Gone(Final(tt), k, b))
    ensures var s, t := Final(ss), Final(tt); At(t, i).Idle? && forall j :: j != i ==> At(t, j) == At(s, j)
    decreases Left(At(Final(ss), i))
  {
    var s := Final(ss);
    if At(s, i).Idle? {
      tt := ss;
    } else {
      ActAppend(ss, i);
      if Gone(s, k, b) {
        ActGone(s, i, k, b);
      }
      forall j | j != i ensures At(Act(s, i), j) == At(s, j) {
        ActElsewhere(s, i, j);
      }
      LeftLess(s, i);
      tt := Finish(ss + [Act(s, i)], i, k, b);
    }
  }

  /** All calls but those to keep can be brought to their end. */
  lemma {:induction false} FinishOthers(ss: seq<State>, keep: set<nat>, todo: set<nat>, k: string, b: Blob)
    returns (tt: seq<State>)
    requires IsActRun(ss) && keep !! todo
    requires forall i :: i !in keep && i !in todo ==> At(Final(ss), i).Idle?
    ensures IsActRun(tt) && ss <= tt && (Gone(Final(ss), k, b) ==> Gone(Final(tt), k, b))
    ensures forall i :: At(Final(tt), i) == if i in keep then At(Final(ss), i) else Idle
    decreases |todo|
  {
    if todo == {} {
      tt := ss;
      forall i: nat ensures At(Final(tt), i) == if i in keep then At(Final(ss), i) else Idle {
        assert i !in todo;
      }
    } else {
      var i :| i in todo;
      var rr := Finish(ss, i, k, b);
      tt := FinishOthers(rr, keep, todo - {i}, k, b);
    }
  }

  /** The fill, when all else is at rest. */
  lemma FillLast(ss: seq<State>, j: nat, k: string, b: Blob) returns (tt: seq<State>)
    requires IsActRun(ss) && Gone(Final(ss), k, b)
    requires var s := Final(ss); Fills(At(s, j), k) && At(s, j).b == b && forall i :: i != j ==> At(s, i).Idle?
    ensures IsActRun(tt) && ss <= tt
    ensures Stale(Final(tt), k)
  {
    var s := Final(ss);
    var e := Act(s, j);
    ActAppend(ss, j);
    forall i: nat | i != j ensures At(e, i).Idle? {
      ActElsewhere(s, j, i);
    }
    tt := ss + [e];
    if At(e, j).GetDone? {
      ActAppend(tt, j);
      forall i: nat | i != j ensures At(Act(e, j), i).Idle? {
        ActElsewhere(e, j, i);
      }
      tt := tt + [Act(e, j)];
    }
  }

  /** A fill of b that nobody else is going to put into S3 goes last. */
  lemma FillWithout(ss: seq<State>, p: nat, k: string, b: Blob) returns (tt: seq<State>)
    requires IsActRun(ss) && Gone(Final(ss), k, b) && Fills(At(Final(ss), p), k) && At(Final(ss), p).b == b
    ensures IsActRun(tt) && ss <= tt && Stale(Final(tt), k)
  {
    var rest := FinishOthers(ss, {p}, Final(ss).calls.Keys - {p}, k, b);
    assert p in {p};
    tt := FillLast(rest, p, k, b);
  }

  predicate Writes(c: Call, k: string) {
    (c.SetS3? || c.DelS3?) && c.k == k
  }

  /** A write of something else goes last but for the fill. */
  lemma WriteThenFill(ss: seq<State>, p: nat, q: nat, k: string, b: Blob) returns (tt: seq<State>)
    requires IsActRun(ss) && p != q && Fills(At(Final(ss), p), k) && At(Final(ss), p).b == b
    requires Writes(At(Final(ss), q), k) && At(Final(ss), q) != SetS3(k, b)
    ensures IsActRun(tt) && ss <= tt && Stale(Final(tt), k)
  {
    var rest := FinishOthers(ss, {p, q}, Final(ss).calls.Keys - {p, q}, k, b);
    var s := Final(rest);
    assert p in {p, q} && q in {p, q};
    ActAppend(rest, q);
    forall l: nat ensures At(Act(s, q), l) != SetS3(k, b) {
      ActElsewhere(s, q, l);
      assert l != p && l != q ==> At(s, l) == Idle;
    }
    ActElsewhere(s, q, p);
    tt := FillWithout(rest + [Act(s, q)], p, k, b);
  }

  /** At rest, memcache has under k what S3 has not. */
  ghost predicate Stale(s: State, k: string) {
    AtRest(s) && k in s.mc && !Current(s, k, s.mc[k])
  }

  /** From s the calls under way can go on by themselves, call i first, and end up stale. */
  ghost predicate CanGoStale(s: State, i: nat, k: string) {
    exists ss :: IsActRun(ss) && [s, Act(s, i)] <= ss && Stale(Final(ss), k)
  }

  /** Call i deletes b, some other call is to put b back, and no other write of k is under way. */
  ghost predicate Heals(s: State, i: nat, k: string, b: Blob) {
    && At(s, i).DelS3?
    && (exists l :: l != i && At(s, l) == SetS3(k, b))
    && (forall l :: l != i && Writes(At(s, l), k) ==> At(s, l) == SetS3(k, b))
  }

  /** Whatever the calls under way do, S3 ends up with b under k, and memcache with b or nothing. */
  ghost predicate Restoring(s: State, k: string, b: Blob) {
    && (if k in s.s3 then s.s3[k] == b else exists l :: At(s, l) == SetS3(k, b))
    && (forall l :: Carries(At(s, l), k) ==> At(s, l).b == b)
    && (forall l :: At(s, l) != DelS3(k))
    && (k in s.mc ==> s.mc[k] == b || PendingWrite(s, k))
  }

  predicate Carries(c: Call, k: string) {
    (c.SetS3? || c.SetMc? || c.GetFill?) && c.k == k
  }

  lemma RestoringS3(s: State, i: nat, k: string, b: Blob)
    requires Restoring(s, k, b) && !At(s, i).Idle?
    ensures var t := Act(s, i); if k in t.s3 then t.s3[k] == b else exists l :: At(t, l) == SetS3(k, b)
  {
    var t := Act(s, i);
    assert At(s, i) != DelS3(k) && (Carries(At(s, i), k) ==> At(s, i).b == b);
    if k !in t.s3 {
      var l :| At(s, l) == SetS3(k, b);
      ActElsewhere(s, i, l);
      assert At(t, l) == SetS3(k, b);
    }
  }

  lemma RestoringCalls(s: State, i: nat, k: string, b: Blob, l: nat)
    requires Restoring(s, k, b) && !At(s, i).Idle?
    ensures var t := Act(s, i); At(t, l) != DelS3(k) && (Carries(At(t, l), k) ==> At(t, l).b == b)
  {
    ActElsewhere(s, i, l);
    assert Carries(At(s, i), k) ==> At(s, i).b == b;
    assert Carries(At(s, l), k) ==> At(s, l).b == b;
  }

  lemma RestoringMc(s: State, i: nat, k: string, b: Blob)
    requires Restoring(s, k, b) && !At(s, i).Idle?
    ensures var t := Act(s, i); k in t.mc ==> t.mc[k] == b || PendingWrite(t, k)
  {
    var t, c := Act(s, i), At(s, i);
    assert Carries(c, k) ==> c.b == b;
    forall j | j != i ensures At(t, j) == At(s, j) {
      ActElsewhere(s, i, j);
    }
    if k in t.mc && t.mc[k] != b {
      StillPending(s, t, i, k);
    }
  }

  lemma {:induction false} RestoringRun(ss: seq<State>, k: string, b: Blob)
    requires IsActRun(ss) && Restoring(ss[0], k, b)
    ensures Restoring(Final(ss), k, b)
    decreases |ss|
  {
    if |ss| > 1 {
      var init := ss[..|ss| - 1];
      RestoringRun(init, k, b);
      var s := Final(init);
      assert GoesOn(s, Final(ss));
      var i :| Acts(s, Final(ss), i);
      RestoringS3(s, i, k, b);
      RestoringMc(s, i, k, b);
      forall l: nat
        ensures At(Act(s, i), l) != DelS3(k) && (Carries(At(Act(s, i), l), k) ==> At(Act(s, i), l).b == b)
      {
        RestoringCalls(s, i, k, b, l);
      }
    }
  }

  lemma HealsRestores(s: State, i: nat, j: nat, k: string)
    requires Settling(s) && Changes(s, At(s, i), k) && Fills(At(s, j), k) && Heals(s, i, k, At(s, j).b)
    ensures Restoring(Act(s, i), k, At(s, j).b)
  {
    var t, b := Act(s, i), At(s, j).b;
    assert Current(s, k, b) && At(s, i) == DelS3(k);
    forall l ensures At(t, l) != DelS3(k) && (Carries(At(t, l), k) ==> At(t, l).b == b) {
      ActElsewhere(s, i, l);
      assert l != i && Writes(At(s, l), k) ==> At(s, l) == SetS3(k, b);
      assert At(s, l).GetFill? || At(s, l).SetMc? ==> Current(s, At(s, l).k, At(s, l).b);
    }
    var l :| l != i && At(s, l) == SetS3(k, b);
    ActElsewhere(s, i, l);
    assert At(t, l) == SetS3(k, b);
    if k in t.mc && !Current(s, k, s.mc[k]) {
      forall m | m != i ensures At(t, m) == At(s, m) {
        ActElsewhere(s, i, m);
      }
      StillPending(s, t, i, k);
    }
  }

  lemma GoesStale(s: State, i: nat, j: nat, k: string) returns (ss: seq<State>)
    requires Settling(s) && i != j && Changes(s, At(s, i), k) && Fills(At(s, j), k)
    requires !Heals(s, i, k, At(s, j).b)
    ensures IsActRun(ss) && [s, Act(s, i)] <= ss && Stale(Final(ss), k)
  {
    var t, b := Act(s, i), At(s, j).b;
    var one := [s];
    ActAppend(one, i);
    var start := [s, t];
    assert start == one + [t] && Current(s, k, b);
    ActElsewhere(s, i, j);
    if q :| q != i && Writes(At(s, q), k) && At(s, q) != SetS3(k, b) {
      ActElsewhere(s, i, q);
      ss := WriteThenFill(start, j, q, k, b);
    } else if q :| q != i && At(s, q) == SetS3(k, b) {
      ActElsewhere(s, i, q);
      ss := WriteThenFill(start, i, q, k, At(s, i).b);
    } else {
      forall l: nat ensures At(t, l) != SetS3(k, b) {
        ActElsewhere(s, i, l);
      }
      ss := FillWithout(start, j, k, b);
    }
  }

  /** The other direction, exactly: when a step changes S3 under a fill in hand, the calls under
      way can go on by themselves, without any fault, to a state at rest in which memcache has
      what S3 has not, if and only if they are not about to put the deleted content back. */
  lemma UnsafeGoesStale(s: State, i: nat, j: nat, k: string)
    requires Settling(s) && i != j && Changes(s, At(s, i), k) && Fills(At(s, j), k)
    ensures CanGoStale(s, i, k) <==> !Heals(s, i, k, At(s, j).b)
  {
    if Heals(s, i, k, At(s, j).b) {
      HealsRestores(s, i, j, k);
      forall ss | IsActRun(ss) && [s, Act(s, i)] <= ss ensures !Stale(Final(ss), k) {
        RestoringRest(ss, k, At(s, j).b);
      }
    } else {
      var ss := GoesStale(s, i, j, k);
    }
  }

  lemma RestoringRest(ss: seq<State>, k: string, b: Blob)
    requires IsActRun(ss) && |ss| > 1 && Restoring(ss[1], k, b)
    ensures !Stale(Final(ss), k)
  {
    forall n | 0 < n < |ss[1..]| ensures GoesOn(ss[1..][n - 1], ss[1..][n]) {
      assert ss[1..][n] == ss[n + 1] && ss[1..][n - 1] == ss[n];
    }
    RestoringRun(ss[1..], k, b);
  }

  lemma CleanJoin(H: Blob -> string, ss: seq<State>, tt: seq<State>)
    requires IsCleanRun(H, ss) && IsCleanRun(H, tt) && Final(ss) == tt[0]
    ensures IsCleanRun(H, ss + tt[1..])
  {
    var rr := ss + tt[1..];
    forall n | 0 < n < |rr| ensures CleanNext(H, rr[n - 1], rr[n]) {
      if n >= |ss| {
        assert rr[n] == tt[n - |ss| + 1] && rr[n - 1] == tt[n - |ss|];
      }
    }
  }

  /** A Get that has read b from S3, and a Delete that is about to take it away there. */
  function InHand(k: string, b: Blob): State {
    State(map[k := b], map[], map[0 := GetFill(k, b), 1 := DelS3(k)])
  }

  lemma InHandUnsafe(k: string, b: Blob)
    ensures var s := InHand(k, b);
            && Settling(s) && Changes(s, At(s, 1), k) && Fills(At(s, 0), k)
            && !Heals(s, 1, k, b)
  {
  }

  lemma ToInHand(H: Blob -> string, k: string, b: Blob) returns (ss: seq<State>)
    ensures IsCleanRun(H, ss) && ss[0] == State(map[k := b], map[], map[]) && Final(ss) == InHand(k, b)
  {
    var s0 := State(map[k := b], map[], map[]);
    var s1 := Go(s0, 0, s0.s3, s0.mc, GetMc(k));
    assert Moved(s0, s1, 0, s0.s3, s0.mc, GetMc(k)) && Begins(H, s0, s1, 0);
    var s2 := Act(s1, 0);
    assert Acts(s1, s2, 0);
    var s3 := Act(s2, 0);
    assert Acts(s2, s3, 0);
    var s4 := Go(s3, 1, s3.s3, s3.mc, DelS3(k));
    assert Moved(s3, s4, 1, s3.s3, s3.mc, DelS3(k)) && Begins(H, s3, s4, 1);
    ss := [s0, s1, s2, s3, s4];
    assert s4 == InHand(k, b);
  }

  /** It does happen, from stores at rest with memcache within S3: a Get reads the blob from S3,
      a Delete runs through, and the Get puts back what it read. */
  lemma StaleAfterDelete(H: Blob -> string, k: string, b: Blob) returns (ss: seq<State>)
    ensures IsCleanRun(H, ss) && ss[0] == State(map[k := b], map[], map[])
    ensures AtRest(Final(ss)) && !Submap(Final(ss).mc, Final(ss).s3)
  {
    hide IsActRun, IsCleanRun, Act;
    var start := ToInHand(H, k, b);
    InHandUnsafe(k, b);
    var rest := GoesStale(InHand(k, b), 1, 0, k);
    ActRunIsClean(H, rest);
    CleanJoin(H, start, rest);
    ss := start + rest[1..];
    assert Final(ss) == Final(rest);
  }
}
