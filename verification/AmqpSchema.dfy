/** The generated method codec: the field grouping of spec/gen.go and the `enc-*`
    and `dec-*` templates, run over a schema instead of expanded into Go. */
module AmqpSchema {
  import opened Basics
  import opened Octets
  import opened AmqpFields

  /** The AMQP types with a template (`shortshort` is an octet). */
  datatype Kind = KBit | KOctet | KShort | KLong | KLonglong | KTimestamp | KShortstr | KLongstr | KTable

  datatype Val = VBit(bit: bool) | VNum(n: nat) | VTime(seconds: int) | VStr(text: Bytes) | VTab(table: Table)

  datatype SpecField = SpecField(name: string, kind: Kind)
  datatype Fieldset = Fieldset(kind: Kind, fields: seq<SpecField>)

  // ---------------------------------------------------------------- single values

  function Width(k: Kind): nat {
    match k
    case KOctet => 1
    case KShort => 2
    case KLong => 4
    case _ => 8
  }

  /** v is a value of kind k that the writer does not cut off. */
  ghost predicate HasKind(k: Kind, v: Val) {
    match k
    case KBit => v.VBit?
    case KTimestamp => v.VTime? && InSigned(v.seconds, 8)
    case KShortstr => v.VStr? && |v.text| < Pow256(1)
    case KLongstr => v.VStr? && |v.text| < Pow256(4)
    case KTable => v.VTab? && Fits(Tab(v.table))
    case _ => v.VNum? && v.n < Pow256(Width(k))
  }

  function ReadVal(k: Kind, s: Bytes): (r: Read<Val>)
    requires k != KBit
    ensures |r.rest| <= |s|
  {
    match k
    case KTimestamp => MapRead(ReadUint(s, 8), (n: nat) => VTime(Signed(n, 8)))
    case KShortstr => MapRead(ReadString(s, 1), (b: Bytes) => VStr(b))
    case KLongstr => MapRead(ReadString(s, 4), (b: Bytes) => VStr(b))
    case KTable => MapRead(ReadTable(s), (t: Table) => VTab(t))
    case _ => MapRead(ReadUint(s, Width(k)), (n: nat) => VNum(n))
  }

  ghost predicate ValDecodes(k: Kind, b: Bytes, v: Val)
    requires k != KBit
  {
    forall suffix: Bytes :: ReadVal(k, b + suffix) == Got(v, suffix)
  }

  method WriteVal(k: Kind, v: Val) returns (b: Bytes)
    requires k != KBit && HasKind(k, v)
    ensures ValDecodes(k, b, v)
  {
    if k == KTable {
      b := WriteTable(v.table);
      forall suffix: Bytes
        ensures ReadVal(k, b + suffix) == Got(v, suffix)
      {
        assert ReadTable(b + suffix) == Got(v.table, suffix);
      }
    } else {
      b := FlatBytes(k, v);
      forall suffix: Bytes
        ensures ReadVal(k, b + suffix) == Got(v, suffix)
      {
        FlatDecodes(k, v, suffix);
      }
    }
  }

  function FlatBytes(k: Kind, v: Val): Bytes
    requires k != KBit && k != KTable
    requires k == KTimestamp ==> v.VTime? && InSigned(v.seconds, 8)
    requires k == KShortstr || k == KLongstr ==> v.VStr?
    requires k != KTimestamp && k != KShortstr && k != KLongstr ==> v.VNum?
  {
    if k == KTimestamp then Put(Unsigned(v.seconds, 8), 8)
    else if k == KShortstr then WriteString(v.text, 1)
    else if k == KLongstr then WriteString(v.text, 4)
    else Put(v.n, Width(k))
  }

  lemma FlatDecodes(k: Kind, v: Val, suffix: Bytes)
    requires k != KBit && k != KTable && HasKind(k, v)
    ensures ReadVal(k, FlatBytes(k, v) + suffix) == Got(v, suffix)
  {
    if k == KTimestamp {
      SignedDecodes(v.seconds, 8, suffix);
    } else if k == KShortstr {
      ReadWriteString(v.text, 1, suffix);
    } else if k == KLongstr {
      ReadWriteString(v.text, 4, suffix);
    } else {
      ReadPut(v.n, Width(k), suffix);
    }
  }

  // ---------------------------------------------------------------- grouping

  /** Consecutive fields of one type, in order. */
  function Group(fields: seq<SpecField>): (f: seq<Fieldset>)
    ensures f == [] <==> fields == []
  {
    if fields == [] then []
    else Extend(Group(fields[..|fields| - 1]), fields[|fields| - 1])
  }

  function Extend(f: seq<Fieldset>, x: SpecField): (g: seq<Fieldset>)
    ensures g != []
  {
    if f != [] && f[|f| - 1].kind == x.kind
    then f[..|f| - 1] + [Fieldset(x.kind, f[|f| - 1].fields + [x])]
    else f + [Fieldset(x.kind, [x])]
  }

  function Flatten(f: seq<Fieldset>): seq<SpecField> {
    if f == [] then [] else Flatten(f[..|f| - 1]) + f[|f| - 1].fields
  }

  predicate Uniform(run: Fieldset) {
    run.fields != [] && forall j :: 0 <= j < |run.fields| ==> run.fields[j].kind == run.kind
  }

  /** Runs are non-empty, of one type, and no two neighbours could be joined. */
  predicate MaximalRuns(f: seq<Fieldset>) {
    && (forall i :: 0 <= i < |f| ==> Uniform(f[i]))
    && (forall i :: 0 < i < |f| ==> f[i - 1].kind != f[i].kind)
  }

  lemma ExtendFlatten(f: seq<Fieldset>, x: SpecField)
    ensures Flatten(Extend(f, x)) == Flatten(f) + [x]
  {
    var g := Extend(f, x);
    if f != [] && f[|f| - 1].kind == x.kind {
      assert g[..|g| - 1] == f[..|f| - 1];
      Concat3(Flatten(f[..|f| - 1]), f[|f| - 1].fields, [x]);
    } else {
      assert g[..|g| - 1] == f;
    }
  }

  lemma ExtendRuns(f: seq<Fieldset>, x: SpecField)
    requires MaximalRuns(f)
    ensures MaximalRuns(Extend(f, x))
  {
    assert f != [] ==> Uniform(f[|f| - 1]);
  }

  /** Grouping keeps every field in order ... */
  lemma {:induction false} GroupFlattens(fields: seq<SpecField>)
    ensures Flatten(Group(fields)) == fields
  {
    if fields != [] {
      var init, x := fields[..|fields| - 1], fields[|fields| - 1];
      GroupFlattens(init);
      FlattensMore(Group(init), init, x, fields);
    }
  }

  lemma FlattensMore(g: seq<Fieldset>, init: seq<SpecField>, x: SpecField, fields: seq<SpecField>)
    requires Flatten(g) == init && |fields| == |init| + 1 && init == fields[..|init|] && x == fields[|init|]
    ensures Flatten(Extend(g, x)) == fields
  {
    ExtendFlatten(g, x);
  }

  /** ... and makes maximal runs. */
  lemma {:induction false} GroupIsMaximal(fields: seq<SpecField>)
    ensures MaximalRuns(Group(fields))
  {
    if fields != [] {
      var init := fields[..|fields| - 1];
      GroupIsMaximal(init);
      ExtendRuns(Group(init), fields[|fields| - 1]);
    }
  }

  /** Taking the last field off maximal runs leaves maximal runs that Extend undoes. */
  lemma ShortenRuns(f: seq<Fieldset>) returns (g: seq<Fieldset>, x: SpecField)
    requires f != [] && MaximalRuns(f)
    ensures MaximalRuns(g) && f == Extend(g, x)
  {
    var init, last := f[..|f| - 1], f[|f| - 1];
    assert Uniform(last);
    var most := last.fields[..|last.fields| - 1];
    x := last.fields[|last.fields| - 1];
    assert last.fields == most + [x];
    assert f == init + [last];
    if most == [] {
      g := init;
    } else {
      g := init + [Fieldset(last.kind, most)];
      assert Uniform(g[|g| - 1]);
      assert g[..|g| - 1] == init;
    }
  }

  /** Maximal runs over the same fields are the same runs, so grouping leaves no freedom. */
  lemma {:induction false} RunsUnique(f: seq<Fieldset>)
    requires MaximalRuns(f)
    ensures f == Group(Flatten(f))
    decreases |Flatten(f)|
  {
    if f != [] {
      var g, x := ShortenRuns(f);
      ExtendFlatten(g, x);
      RunsUnique(g);
      assert (Flatten(g) + [x])[..|Flatten(g)|] == Flatten(g);
    }
  }

  /** Joining x to the set at i, or putting it behind, extends the sets up to i. */
  lemma CompactStep(f: seq<Fieldset>, i: nat, x: SpecField)
    requires i + 1 < |f|
    ensures f[i].kind == x.kind ==>
      f[i := Fieldset(x.kind, f[i].fields + [x])][..i + 1] == Extend(f[..i + 1], x)
    ensures f[i].kind != x.kind ==>
      f[i + 1 := Fieldset(x.kind, [x])][..i + 2] == Extend(f[..i + 1], x)
  {
  }

  lemma GroupFirst(fields: seq<SpecField>)
    requires fields != []
    ensures Group(fields[..1]) == [Fieldset(fields[0].kind, [fields[0]])]
  {
    assert fields[..1] == [fields[0]] && [fields[0]][..0] == [];
  }

  /** `Fieldsets`: one set per field, then compaction in place. */
  method Fieldsets(fields: seq<SpecField>) returns (f: seq<Fieldset>)
    ensures f == Group(fields)
    ensures Flatten(f) == fields && MaximalRuns(f)
  {
    f := Singles(fields);
    if |fields| > 0 {
      f := Compact(f, fields);
    }
    GroupFlattens(fields);
    GroupIsMaximal(fields);
  }

  method Singles(fields: seq<SpecField>) returns (f: seq<Fieldset>)
    ensures |f| == |fields|
    ensures forall m :: 0 <= m < |f| ==> f[m] == Fieldset(fields[m].kind, [fields[m]])
  {
    f := [];
    for n := 0 to |fields|
      invariant |f| == n
      invariant forall m :: 0 <= m < n ==> f[m] == Fieldset(fields[m].kind, [fields[m]])
    {
      f := f + [Fieldset(fields[n].kind, [fields[n]])];
    }
  }

  /** f[..i + 1] holds the runs of the fields before j, the sets from j on are untouched. */
  ghost predicate Compacting(f: seq<Fieldset>, fields: seq<SpecField>, i: nat, j: nat) {
    && i < j <= |f| == |fields|
    && f[..i + 1] == Group(fields[..j])
    && forall m :: j <= m < |f| ==> f[m] == Fieldset(fields[m].kind, [fields[m]])
  }

  lemma CompactJoin(f: seq<Fieldset>, fields: seq<SpecField>, i: nat, j: nat)
    requires j < |f| && Compacting(f, fields, i, j) && f[i].kind == f[j].kind
    ensures Compacting(f[i := Fieldset(f[i].kind, f[i].fields + f[j].fields)], fields, i, j + 1)
  {
    assert fields[..j + 1][..j] == fields[..j];
    CompactStep(f, i, fields[j]);
  }

  lemma CompactMove(f: seq<Fieldset>, fields: seq<SpecField>, i: nat, j: nat)
    requires j < |f| && Compacting(f, fields, i, j) && f[i].kind != f[j].kind
    ensures Compacting(f[i + 1 := f[j]], fields, i + 1, j + 1)
  {
    assert fields[..j + 1][..j] == fields[..j];
    CompactStep(f, i, fields[j]);
  }

  /** The compaction loop: i stays behind j. */
  method Compact(sets: seq<Fieldset>, ghost fields: seq<SpecField>) returns (f: seq<Fieldset>)
    requires |sets| == |fields| > 0
    requires forall m :: 0 <= m < |sets| ==> sets[m] == Fieldset(fields[m].kind, [fields[m]])
    ensures f == Group(fields)
  {
    f := sets;
    var i, j := 0, 1;
    GroupFirst(fields);
    while j < |f|
      invariant 0 <= i && 0 < j && Compacting(f, fields, i, j)
      decreases |f| - j
    {
      if f[i].kind == f[j].kind {
        CompactJoin(f, fields, i, j);
        f := f[i := Fieldset(f[i].kind, f[i].fields + f[j].fields)];
      } else {
        CompactMove(f, fields, i, j);
        f := f[i + 1 := f[j]];
        i := i + 1;
      }
      j := j + 1;
    }
    assert fields[..j] == fields;
    f := f[..i + 1];
  }

  // ---------------------------------------------------------------- the codec over runs

  function BitsOf(n: nat, count: nat): (v: seq<Val>)
    ensures |v| == count
  {
    if count == 0 then [] else BitsOf(n, count - 1) + [VBit(Bit(n, count - 1))]
  }

  /** The `dec-*` templates: a run of bits is one octet, anything else one value a field. */
  function ReadRun(k: Kind, count: nat, s: Bytes, before: seq<Val>): (r: Read<seq<Val>>)
    requires k != KBit
    ensures |r.rest| <= |s|
  {
    if count == 0 then Got(before, s)
    else
      match ReadVal(k, s)
      case Failed(e, rest) => Failed(e, rest)
      case Got(v, s1) => ReadRun(k, count - 1, s1, before + [v])
  }

  function ReadSets(f: seq<Fieldset>, s: Bytes, before: seq<Val>): (r: Read<seq<Val>>)
    ensures |r.rest| <= |s|
  {
    if f == [] then Got(before, s)
    else if f[0].kind == KBit then
      match ReadUint(s, 1)
      case Failed(e, rest) => Failed(e, rest)
      case Got(bits, s1) => ReadSets(f[1..], s1, before + BitsOf(bits, |f[0].fields|))
    else
      match ReadRun(f[0].kind, |f[0].fields|, s, before)
      case Failed(e, rest) => Failed(e, rest)
      case Got(vals, s1) => ReadSets(f[1..], s1, vals)
  }

  ghost predicate Typed(f: seq<Fieldset>, args: seq<Val>) {
    if f == [] then args == []
    else
      var n := |f[0].fields|;
      n <= |args| && (forall i :: 0 <= i < n ==> HasKind(f[0].kind, args[i])) && Typed(f[1..], args[n..])
  }

  /** How many runs of bits there are: they all share one `bits` variable. */
  function BitRuns(f: seq<Fieldset>): nat {
    if f == [] then 0 else (if f[0].kind == KBit then 1 else 0) + BitRuns(f[1..])
  }

  /** The condition every generated method meets: at most one run of bits, of at most eight. */
  ghost predicate OneOctetOfBits(f: seq<Fieldset>) {
    BitRuns(f) <= 1 && forall i :: 0 <= i < |f| && f[i].kind == KBit ==> |f[i].fields| <= 8
  }

  ghost predicate RunDecodes(k: Kind, args: seq<Val>, b: Bytes)
    requires k != KBit
  {
    forall suffix: Bytes, before: seq<Val> ::
      ReadRun(k, |args|, b + suffix, before) == Got(before + args, suffix)
  }

  ghost predicate SetsDecode(f: seq<Fieldset>, args: seq<Val>, b: Bytes) {
    forall suffix: Bytes, before: seq<Val> ::
      ReadSets(f, b + suffix, before) == Got(before + args, suffix)
  }

  /** After b the reader has the values `done` of a run of n, whatever follows. */
  ghost predicate RunStarted(k: Kind, n: nat, done: seq<Val>, b: Bytes)
    requires k != KBit && |done| <= n
  {
    forall suffix: Bytes, before: seq<Val> ::
      ReadRun(k, n, b + suffix, before) == ReadRun(k, n - |done|, suffix, before + done)
  }

  lemma RunAppendAt(k: Kind, n: nat, done: seq<Val>, b: Bytes, v: Val, c: Bytes, suffix: Bytes, before: seq<Val>)
    requires k != KBit && |done| < n
    requires ReadRun(k, n, b + (c + suffix), before) == ReadRun(k, n - |done|, c + suffix, before + done)
    requires ReadVal(k, c + suffix) == Got(v, suffix)
    ensures ReadRun(k, n, b + c + suffix, before) == ReadRun(k, n - |done + [v]|, suffix, before + (done + [v]))
  {
    Concat3(b, c, suffix);
    Concat3(before, done, [v]);
  }

  lemma RunAppend(k: Kind, n: nat, done: seq<Val>, b: Bytes, v: Val, c: Bytes)
    requires k != KBit && |done| < n && RunStarted(k, n, done, b) && ValDecodes(k, c, v)
    ensures RunStarted(k, n, done + [v], b + c)
  {
    forall suffix: Bytes, before: seq<Val>
      ensures ReadRun(k, n, b + c + suffix, before) == ReadRun(k, n - |done + [v]|, suffix, before + (done + [v]))
    {
      RunStartedAt(k, n, done, b, c + suffix, before);
      ValDecodesAt(k, c, v, suffix);
      RunAppendAt(k, n, done, b, v, c, suffix, before);
    }
  }

  lemma RunStartedAt(k: Kind, n: nat, done: seq<Val>, b: Bytes, suffix: Bytes, before: seq<Val>)
    ensures k != KBit && |done| <= n && RunStarted(k, n, done, b) ==>
      ReadRun(k, n, b + suffix, before) == ReadRun(k, n - |done|, suffix, before + done)
  {
  }

  lemma ValDecodesAt(k: Kind, b: Bytes, v: Val, suffix: Bytes)
    ensures k != KBit && ValDecodes(k, b, v) ==> ReadVal(k, b + suffix) == Got(v, suffix)
  {
  }

  lemma RunStarts(k: Kind, n: nat)
    requires k != KBit
    ensures RunStarted(k, n, [], [])
  {
    forall suffix: Bytes, before: seq<Val>
      ensures ReadRun(k, n, [] + suffix, before) == ReadRun(k, n, suffix, before + [])
    {
      assert [] + suffix == suffix && before + [] == before;
    }
  }

  /** The values of one run, written one after the other. */
  method WriteRun(k: Kind, args: seq<Val>) returns (b: Bytes)
    requires k != KBit && forall i :: 0 <= i < |args| ==> HasKind(k, args[i])
    ensures RunDecodes(k, args, b)
  {
    b := [];
    RunStarts(k, |args|);
    assert args[..0] == [];
    for i := 0 to |args|
      invariant RunStarted(k, |args|, args[..i], b)
    {
      var c := WriteVal(k, args[i]);
      RunAppend(k, |args|, args[..i], b, args[i], c);
      assert args[..i + 1] == args[..i] + [args[i]];
      b := b + c;
    }
    assert args[..|args|] == args;
  }

  /** `enc-bit`: the octet of a run of bits. */
  method PackBits(args: seq<Val>, bits0: nat) returns (bits: nat)
    requires |args| <= 8 && bits0 < 256
    requires forall i :: 0 <= i < |args| ==> args[i].VBit?
    ensures bits < 256
    ensures forall i :: 0 <= i < |args| ==> Bit(bits, i) == (args[i].bit || Bit(bits0, i))
  {
    bits := bits0;
    var off := 0;
    Pow2Values();
    while off < |args|
      invariant 0 <= off <= |args|
      invariant bits < 256
      invariant forall i :: 0 <= i < off ==> Bit(bits, i) == (args[i].bit || Bit(bits0, i))
      invariant forall i :: off <= i < |args| ==> Bit(bits, i) == Bit(bits0, i)
    {
      if args[off].bit {
        forall i | 0 <= i < |args|
          ensures Bit(SetBit(bits, off), i) == (i == off || Bit(bits, i))
        {
          SetBitBits(bits, off, i);
        }
        SetBitBound(bits, off, 8);
        bits := SetBit(bits, off);
      }
      off := off + 1;
    }
  }

  lemma {:induction false} BitsOfPacked(bits: nat, args: seq<Val>)
    requires forall i :: 0 <= i < |args| ==> args[i] == VBit(Bit(bits, i))
    ensures BitsOf(bits, |args|) == args
  {
    if args != [] {
      BitsOfPacked(bits, args[..|args| - 1]);
    }
  }

  /** One set, read as `head` at the front of the stream, in front of the others. */
  lemma SetsPrepend(f: seq<Fieldset>, args: seq<Val>, b: Bytes, more: seq<Val>, c: Bytes)
    requires f != [] && SetsDecode(f[1..], more, c)
    requires forall suffix: Bytes, before: seq<Val> ::
      ReadSets(f, b + suffix, before) == ReadSets(f[1..], suffix, before + args)
    ensures SetsDecode(f, args + more, b + c)
  {
    forall suffix: Bytes, before: seq<Val>
      ensures ReadSets(f, b + c + suffix, before) == Got(before + (args + more), suffix)
    {
      Concat3(b, c, suffix);
      Concat3(before, args, more);
      assert ReadSets(f, b + (c + suffix), before) == ReadSets(f[1..], c + suffix, before + args);
    }
  }

  lemma BitsRead(f: seq<Fieldset>, bits: nat, args: seq<Val>, suffix: Bytes, before: seq<Val>)
    requires f != [] && f[0].kind == KBit && |args| == |f[0].fields|
    requires bits < Pow256(1) && BitsOf(bits, |args|) == args
    ensures ReadSets(f, Put(bits, 1) + suffix, before) == ReadSets(f[1..], suffix, before + args)
  {
    ReadPut(bits, 1, suffix);
  }

  /** A generated `write`: every run through its `enc-*` template, `bits` shared by all. */
  method WriteSets(f: seq<Fieldset>, args: seq<Val>, bits: nat) returns (b: Bytes)
    requires Typed(f, args) && OneOctetOfBits(f)
    requires BitRuns(f) == 1 ==> bits == 0
    requires bits < 256
    ensures SetsDecode(f, args, b)
    decreases |f|
  {
    if |f| == 0 {
      b := [];
      forall suffix: Bytes, before: seq<Val>
        ensures ReadSets(f, b + suffix, before) == Got(before + args, suffix)
      {
        assert b + suffix == suffix && before + args == before;
      }
      return;
    }
    var n := |f[0].fields|;
    ghost var tail := f[1..];
    assert forall i :: 0 <= i < |tail| ==> tail[i] == f[i + 1];
    assert args == args[..n] + args[n..];
    if f[0].kind == KBit {
      var packed := PackBits(args[..n], bits);
      forall i | 0 <= i < n
        ensures args[..n][i] == VBit(Bit(packed, i))
      {
        ZeroBits(i);
      }
      BitsOfPacked(packed, args[..n]);
      var c := WriteSets(f[1..], args[n..], packed);
      Pow256Values();
      forall suffix: Bytes, before: seq<Val>
        ensures ReadSets(f, Put(packed, 1) + suffix, before) == ReadSets(f[1..], suffix, before + args[..n])
      {
        BitsRead(f, packed, args[..n], suffix, before);
      }
      SetsPrepend(f, args[..n], Put(packed, 1), args[n..], c);
      b := Put(packed, 1) + c;
    } else {
      var run := WriteRun(f[0].kind, args[..n]);
      var c := WriteSets(f[1..], args[n..], bits);
      SetsPrepend(f, args[..n], run, args[n..], c);
      b := run + c;
    }
  }

  // ---------------------------------------------------------------- whole methods

  /** The arguments match their fields one by one. */
  ghost predicate WellTyped(fields: seq<SpecField>, args: seq<Val>) {
    |args| == |fields| && forall i :: 0 <= i < |args| ==> HasKind(fields[i].kind, args[i])
  }

  lemma {:induction false} FlattenFirst(f: seq<Fieldset>)
    requires f != []
    ensures Flatten(f) == f[0].fields + Flatten(f[1..])
  {
    if |f| > 1 {
      FlattenFirst(f[..|f| - 1]);
      assert f[..|f| - 1][1..] == f[1..][..|f| - 2];
      assert f[1..][|f| - 2] == f[|f| - 1];
      var a, b, c := f[0].fields, Flatten(f[1..][..|f| - 2]), f[|f| - 1].fields;
      assert a + b + c == a + (b + c);
    } else {
      assert f[..0] == [] && f[1..] == [];
    }
  }

  lemma {:induction false} TypedRuns(f: seq<Fieldset>, args: seq<Val>)
    requires MaximalRuns(f) && WellTyped(Flatten(f), args)
    ensures Typed(f, args)
    decreases |f|
  {
    if f != [] {
      FlattenFirst(f);
      var n, tail := |f[0].fields|, f[1..];
      assert forall i :: 0 <= i < |tail| ==> tail[i] == f[i + 1];
      forall i | 0 <= i < n
        ensures HasKind(f[0].kind, args[i])
      {
        assert Flatten(f)[i] == f[0].fields[i];
      }
      assert forall i :: 0 <= i < |args| - n ==> Flatten(tail)[i] == Flatten(f)[n + i];
      TypedRuns(tail, args[n..]);
    }
  }

  /** What a generated method's `write` puts on the wire, its `read` gets back. */
  method WriteArgs(fields: seq<SpecField>, args: seq<Val>) returns (b: Bytes)
    requires WellTyped(fields, args) && OneOctetOfBits(Group(fields))
    ensures SetsDecode(Group(fields), args, b)
  {
    var f := Fieldsets(fields);
    TypedRuns(f, args);
    b := WriteSets(f, args, 0);
  }
}
