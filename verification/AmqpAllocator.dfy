/** Channel numbers: the rolling allocator (allocator.go), the registry of channels kept
    beside it and the tuned maximum (connection.go). */
module AmqpAllocator {
  import opened Basics

  /** The first number of [from, limit) that is not taken. */
  function FirstFree(taken: set<int>, from: int, limit: int): (r: Option<int>)
    ensures r.Some? ==> from <= r.value < limit && r.value !in taken && forall k :: from <= k < r.value ==> k in taken
    ensures r.None? ==> forall k :: from <= k < limit ==> k in taken
    decreases limit - from
  {
    if from >= limit then None
    else if from !in taken then Some(from)
    else FirstFree(taken, from + 1, limit)
  }

  /** The first free number of low..high in rolling order: from the last one given on, then
      from the bottom. */
  function Rolling(taken: set<int>, last: int, low: int, high: int): Option<int> {
    var r := FirstFree(taken, last, high + 1);
    if r.Some? then r else FirstFree(taken, low, last)
  }

  /** A number is found exactly when one is free. */
  lemma RollingFinds(taken: set<int>, last: int, low: int, high: int)
    requires low <= last <= high + 1
    ensures var r := Rolling(taken, last, low, high);
            && (r.None? <==> forall k :: low <= k <= high ==> k in taken)
            && (r.Some? ==> low <= r.value <= high && r.value !in taken)
  {
  }

  class Allocator {
    var pool: set<int>     // bits of the big integer
    var last: int
    const low: int
    const high: int

    predicate Valid()
      reads this
    {
      && low <= last <= high + 1
      && forall b :: b in pool ==> 0 <= b
    }

    /** The numbers whose bit is set. */
    function Taken(): (r: set<int>)
      reads this
      ensures forall n :: n in r <==> n - low in pool
    {
      set b | b in pool :: b + low
    }

    /** `newAllocator`. */
    constructor (low: int, high: int)
      requires low <= high + 1
      ensures Valid() && this.low == low && this.high == high && Taken() == {}
    {
      pool, last := {}, low;
      this.low, this.high := low, high;
    }

    method Reserved(n: int) returns (r: bool)
      ensures r == (n in Taken())
    {
      r := n - low in pool;
    }

    method Reserve(n: int) returns (ok: bool)
      requires Valid() && low <= n
      modifies `pool
      ensures Valid() && ok == (n !in old(Taken()))
      ensures Taken() == old(Taken()) + {n}
    {
      var r := Reserved(n);
      if !r {
        pool := pool + {n - low};
      }
      ok := !r;
    }

    /** `release`. Setting a negative bit panics. */
    method Release(n: int)
      requires Valid() && low <= n
      modifies `pool
      ensures Valid() && Taken() == old(Taken()) - {n}
    {
      pool := pool - {n - low};
    }

    /** One of the two loops of `next`. */
    method Scan(limit: int) returns (ok: bool)
      requires Valid() && last <= limit <= high + 1
      modifies this
      ensures Valid()
      ensures ok <==> FirstFree(old(Taken()), old(last), limit).Some?
      ensures ok ==> FirstFree(old(Taken()), old(last), limit) == Some(last) && Taken() == old(Taken()) + {last}
      ensures !ok ==> last == limit && Taken() == old(Taken())
    {
      while last < limit
        invariant Valid() && last <= limit && Taken() == old(Taken())
        invariant FirstFree(Taken(), last, limit) == FirstFree(old(Taken()), old(last), limit)
        decreases limit - last
      {
        ok := Reserve(last);
        if ok {
          return;
        }
        assert Taken() == old(Taken());
        last := last + 1;
      }
      ok := false;
    }

    /** `next`: a number that was free, the first in rolling order, is marked; or none was
        free, and then nothing changes. */
    method Next() returns (n: int, ok: bool)
      requires Valid()
      modifies this
      ensures Valid()
      ensures ok ==>
        && low <= n <= high && n !in old(Taken()) && Taken() == old(Taken()) + {n}
        && last == n && Rolling(old(Taken()), old(last), low, high) == Some(n)
      ensures !ok ==>
        && (forall k :: low <= k <= high ==> k in old(Taken()))
        && Taken() == old(Taken()) && last == old(last)
    {
      RollingFinds(Taken(), last, low, high);
      var wrapped := last;
      ok := Scan(high + 1);
      if ok {
        return last, true;
      }
      last := low;
      ok := Scan(wrapped);
      n := if ok then last else 0;
    }
  }

  // ---------------------------------------------------------------- tuning

  const MAX_CHANNEL_MAX: int := 65535

  function Max(a: int, b: int): int { if a > b then a else b }

  function Min(a: int, b: int): int { if a < b then a else b }

  function Pick(client: int, server: int): int {
    if client == 0 || server == 0 then Max(client, server) else Min(client, server)
  }

  /** The channel maximum that `openTune` settles on. */
  function TunedMax(client: int, server: int): int {
    var picked := Pick(client, server);
    Min(if picked == 0 then MAX_CHANNEL_MAX else picked, MAX_CHANNEL_MAX)
  }

  /** Conversion to uint16. */
  function Uint16(n: int): nat { n % 65536 }

  /** The tuned maximum is a channel number that survives the conversion exactly when the
      client did not ask for a negative one, or the server left the choice open. Then it is
      the greatest within what each side asked for, 0 meaning no limit. */
  lemma TunedMaxFits(client: int, server: int)
    requires 0 <= server <= 65535
    ensures 1 <= TunedMax(client, server) <= 65535 <==> client >= 0 || server == 0
    ensures client >= 0 ==>
      var m := TunedMax(client, server);
      Uint16(m) == m && Allowed(client, server, m) && forall k :: Allowed(client, server, k) ==> k <= m
    ensures client < 0 && server == 0 ==> TunedMax(client, server) == 65535
  {
  }

  /** A channel number within what both sides asked for. */
  predicate Allowed(client: int, server: int, k: int) {
    1 <= k <= 65535 && (client != 0 ==> k <= client) && (server != 0 ==> k <= server)
  }

  // ---------------------------------------------------------------- the registry

  /** The channel registry of a connection. `C` stands for the channel objects. */
  class Registry<C> {
    var channels: map<int, C>
    const allocator: Allocator

    /** The numbers marked are exactly those registered, and all are channel numbers. */
    ghost predicate Valid()
      reads this, allocator
    {
      && allocator.Valid() && allocator.low == 1 && 1 <= allocator.high <= 65535
      && channels.Keys == allocator.Taken()
      && forall id :: id in channels ==> 1 <= id <= allocator.high
    }

    /** `openComplete`. */
    constructor (client: int, server: int)
      requires 0 <= server <= 65535 && (client >= 0 || server == 0)
      ensures Valid() && fresh(allocator) && channels == map[]
      ensures allocator.high == TunedMax(client, server)
    {
      TunedMaxFits(client, server);
      allocator := new Allocator(1, TunedMax(client, server));
      channels := map[];
    }

    /** `allocateChannel`: registers the channel under a number nobody had, or fails with all
        numbers in use and nothing changed. */
    method Allocate(ch: C) returns (id: Option<int>)
      requires Valid()
      modifies this, allocator
      ensures Valid()
      ensures id.Some? ==>
        && 1 <= id.value <= allocator.high && id.value !in old(channels)
        && channels == old(channels)[id.value := ch]
      ensures id.None? ==>
        && channels == old(channels) && allocator.last == old(allocator.last)
        && forall k :: 1 <= k <= allocator.high ==> k in channels
    {
      var n, ok := allocator.Next();
      if !ok {
        return None;
      }
      assert Uint16(n) == n;
      channels := channels[Uint16(n) := ch];
      id := Some(Uint16(n));
    }

    /** `releaseChannel`. */
    method Release(id: int)
      requires Valid() && 1 <= id <= 65535
      modifies this, allocator
      ensures Valid() && channels == old(channels) - {id}
    {
      channels := channels - {id};
      allocator.Release(id);
    }
  }

  datatype Op<C> = OpenChannel(ch: C) | CloseChannel(id: int)

  /** The channels that are open after these requests and answers. */
  function Open<C>(ops: seq<Op<C>>, ids: seq<Option<int>>): map<int, C>
    requires |ops| == |ids|
  {
    if ops == [] then map[]
    else
      var n := |ops| - 1;
      After(Open(ops[..n], ids[..n]), ops[n], ids[n])
  }

  function After<C>(open: map<int, C>, op: Op<C>, id: Option<int>): map<int, C> {
    match op
    case OpenChannel(ch) => if id.Some? then open[id.value := ch] else open
    case CloseChannel(k) => open - {k}
  }

  /** The answer to a request: a number that no open channel has, or a refusal because all
      numbers are in use. */
  predicate Answers<C>(open: map<int, C>, op: Op<C>, id: Option<int>, high: int) {
    op.OpenChannel? ==>
      if id.Some? then 1 <= id.value <= high && id.value !in open
      else forall k :: 1 <= k <= high ==> k in open
  }

  lemma OpenMore<C>(ops: seq<Op<C>>, ids: seq<Option<int>>, n: nat, id: Option<int>)
    ensures n < |ops| && |ids| == n ==> ops[..n + 1][..n] == ops[..n] && (ids + [id])[..n] == ids
  {
  }

  method Serve<C>(reg: Registry<C>, op: Op<C>) returns (id: Option<int>)
    requires reg.Valid() && (op.CloseChannel? ==> 1 <= op.id <= 65535)
    modifies reg, reg.allocator
    ensures reg.Valid() && reg.channels == After(old(reg.channels), op, id)
    ensures Answers(old(reg.channels), op, id, reg.allocator.high)
  {
    id := None;
    match op {
      case OpenChannel(ch) =>
        id := reg.Allocate(ch);
      case CloseChannel(k) =>
        reg.Release(k);
    }
  }

  /** Every run: each request is answered rightly for the channels open at that point, while
      the marked numbers stay the registered ones throughout. */
  method Run<C>(client: int, server: int, ops: seq<Op<C>>) returns (ids: seq<Option<int>>)
    requires 0 <= server <= 65535 && (client >= 0 || server == 0)
    requires forall i :: 0 <= i < |ops| && ops[i].CloseChannel? ==> 1 <= ops[i].id <= 65535
    ensures |ids| == |ops|
    ensures forall i :: 0 <= i < |ops| ==> Answers(Open(ops[..i], ids[..i]), ops[i], ids[i], TunedMax(client, server))
  {
    var reg := new Registry<C>(client, server);
    ids := [];
    for n := 0 to |ops|
      invariant reg.Valid() && fresh(reg) && fresh(reg.allocator) && reg.allocator.high == TunedMax(client, server)
      invariant |ids| == n && reg.channels == Open(ops[..n], ids)
      invariant forall i :: 0 <= i < n ==> Answers(Open(ops[..i], ids[..i]), ops[i], ids[i], TunedMax(client, server))
    {
      var id := Serve(reg, ops[n]);
      OpenMore(ops, ids, n, id);
      assert forall i :: 0 <= i < n ==> (ids + [id])[..i] == ids[..i];
      ids := ids + [id];
    }
    assert ops[..|ops|] == ops;
  }
}
