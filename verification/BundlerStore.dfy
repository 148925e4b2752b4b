/** The three stores behind the bundler: file rows (db.go), S3 (s3.go) and memcache,
    and the cache of cache.go in front of the last two. Every external call may fail. */
module BundlerStore {
  import opened Basics

  type Blob = string
  type Files = map<string, string>  // name -> hash

  /** A row of the files table; sub "" marks a development file. The unique index over
      (app, sub, name) makes the table a map. */
  datatype Row = Row(app: string, sub: string, name: string)

  datatype World = World(rows: map<Row, string>, s3: map<string, Blob>, mc: map<string, Blob>)

  /** How calls to an external store may go wrong: not at all, without effect, or with an
      error although the effect took place. */
  datatype Faults = Never | Clean | Torn

  // ---------------------------------------------------------------- keys

  predicate NoSlash(s: string) {
    '/' !in s
  }

  /** `Cache.prefixed`. */
  function Prefixed(app: string, sub: string, key: string): string {
    if sub == "" then app + "/" + key else app + "/" + (sub + "/" + key)
  }

  lemma SplitAtSlash(a: string, x: string, b: string, y: string)
    requires NoSlash(a) && NoSlash(b) && a + "/" + x == b + "/" + y
    ensures a == b && x == y
  {
    var s := a + "/" + x;
    assert s[|a|] == '/' && s[|b|] == '/';
    assert a == s[..|a|] && b == s[..|b|] && x == s[|a| + 1..] && y == s[|b| + 1..];
  }

  /** No two of (app, submission, key) share a key in S3 and memcache. */
  lemma PrefixedInjective(a: string, s: string, k: string, b: string, t: string, l: string)
    requires NoSlash(a) && NoSlash(s) && NoSlash(k) && NoSlash(b) && NoSlash(t) && NoSlash(l)
    requires Prefixed(a, s, k) == Prefixed(b, t, l)
    ensures a == b && s == t && k == l
  {
    var x := if s == "" then k else s + "/" + k;
    var y := if t == "" then l else t + "/" + l;
    SplitAtSlash(a, x, b, y);
    assert (t + "/" + l)[|t|] == '/' && (s + "/" + k)[|s|] == '/';
    if s != "" && t != "" {
      SplitAtSlash(s, k, t, l);
    }
  }

  /** Bundle footers share the namespace with the blobs: their names are not hashes. */
  predicate IsFooter(key: string) {
    "bundle-footer" <= key
  }

  predicate IsHash(h: string) {
    h != "" && NoSlash(h) && !IsFooter(h)
  }

  /** If k is the key of a blob, b is the content with that hash. */
  ghost predicate Right(H: Blob -> string, k: string, b: Blob) {
    forall app, sub, h ::
      NoSlash(app) && NoSlash(sub) && IsHash(h) && k == Prefixed(app, sub, h) ==> H(b) == h
  }

  ghost predicate AllRight(H: Blob -> string, m: map<string, Blob>) {
    forall k :: k in m ==> Right(H, k, m[k])
  }

  lemma RightAt(H: Blob -> string, app: string, sub: string, h: string, b: Blob)
    requires NoSlash(app) && NoSlash(sub) && NoSlash(h) && (IsHash(h) ==> H(b) == h)
    ensures Right(H, Prefixed(app, sub, h), b)
  {
    forall a, s, l | NoSlash(a) && NoSlash(s) && IsHash(l) && Prefixed(app, sub, h) == Prefixed(a, s, l)
      ensures H(b) == l
    {
      PrefixedInjective(app, sub, h, a, s, l);
    }
  }

  // ---------------------------------------------------------------- rows

  /** `GetFiles`: the rows of one app and submission. */
  function FilesOf(rows: map<Row, string>, app: string, sub: string): Files {
    map n | n in NamesOf(rows, app, sub) :: rows[Row(app, sub, n)]
  }

  function NamesOf(rows: map<Row, string>, app: string, sub: string): (names: set<string>)
    ensures forall n :: n in names <==> Row(app, sub, n) in rows
  {
    var names := set r | r in rows && r.app == app && r.sub == sub :: r.name;
    assert forall n :: Row(app, sub, n) in rows ==> Row(app, sub, n).name in names;
    names
  }

  lemma FilesOfAt(rows: map<Row, string>, app: string, sub: string, name: string)
    ensures name in FilesOf(rows, app, sub) <==> Row(app, sub, name) in rows
    ensures name in FilesOf(rows, app, sub) ==> FilesOf(rows, app, sub)[name] == rows[Row(app, sub, name)]
  {
  }

  lemma FilesOfPut(rows: map<Row, string>, app: string, sub: string, name: string, hash: string)
    ensures FilesOf(rows[Row(app, sub, name) := hash], app, sub) == FilesOf(rows, app, sub)[name := hash]
  {
    var now := rows[Row(app, sub, name) := hash];
    forall n
      ensures n in FilesOf(now, app, sub) <==> n in FilesOf(rows, app, sub)[name := hash]
      ensures n in FilesOf(now, app, sub) ==> FilesOf(now, app, sub)[n] == FilesOf(rows, app, sub)[name := hash][n]
    {
      FilesOfAt(now, app, sub, n);
      FilesOfAt(rows, app, sub, n);
    }
  }

  lemma FilesOfDelete(rows: map<Row, string>, app: string, sub: string, name: string)
    ensures FilesOf(rows - {Row(app, sub, name)}, app, sub) == FilesOf(rows, app, sub) - {name}
  {
    var now := rows - {Row(app, sub, name)};
    forall n
      ensures n in FilesOf(now, app, sub) <==> n in FilesOf(rows, app, sub) - {name}
      ensures n in FilesOf(now, app, sub) ==> FilesOf(now, app, sub)[n] == FilesOf(rows, app, sub)[n]
    {
      FilesOfAt(now, app, sub, n);
      FilesOfAt(rows, app, sub, n);
    }
  }

  // ---------------------------------------------------------------- what a step may touch

  /** Rows and S3 are the same outside one (app, submission). */
  ghost predicate Within(w: World, v: World, app: string, sub: string) {
    RowsWithin(w.rows, v.rows, app, sub) && BlobsWithin(w.s3, v.s3, app, sub)
  }

  ghost predicate RowsWithin(a: map<Row, string>, b: map<Row, string>, app: string, sub: string) {
    forall r: Row :: !(r.app == app && r.sub == sub) ==> (r in a <==> r in b) && (r in a ==> a[r] == b[r])
  }

  ghost predicate BlobsWithin(a: map<string, Blob>, b: map<string, Blob>, app: string, sub: string) {
    forall k :: !KeyOf(k, app, sub) ==> (k in a <==> k in b) && (k in a ==> a[k] == b[k])
  }

  ghost predicate KeyOf(k: string, app: string, sub: string) {
    exists key :: NoSlash(key) && k == Prefixed(app, sub, key)
  }

  /** f has some of the files of g. */
  predicate SomeOf(f: Files, g: Files) {
    forall n :: n in f ==> n in g && f[n] == g[n]
  }

  ghost predicate Submap(m: map<string, Blob>, n: map<string, Blob>) {
    forall k :: k in m ==> k in n && m[k] == n[k]
  }

  /** Nothing new but possibly b under k. */
  ghost predicate Merged(now: map<string, Blob>, before: map<string, Blob>, k: string, b: Blob) {
    forall l :: l in now ==> (l in before && now[l] == before[l]) || (l == k && now[l] == b)
  }

  /** How the services behave: S3, memcache, reading and writing the database, and whether memcache
      drops entries. */
  datatype Services = Services(s3: Faults, mc: Faults, dbRead: Faults, dbWrite: Faults, evicts: bool)

  const WORKING := Services(Never, Never, Never, Never, true)

  /** The stores as the handlers see them. */
  class Store {
    const H: Blob -> string  // SHA-256
    const hasMemcache: bool  // nil when testing
    const s3Faults: Faults
    const mcFaults: Faults
    const dbReads: Faults    // of SELECTs
    const dbFaults: Faults   // of INSERTs, UPDATEs and DELETEs
    const evicts: bool       // memcache may drop entries
    var rows: map<Row, string>
    var s3: map<string, Blob>
    var mc: map<string, Blob>
    ghost var trace: seq<Files>  // what `GetFiles` has shown

    constructor (H: Blob -> string, hasMemcache: bool, services: Services, w: World)
      ensures this.H == H && this.hasMemcache == hasMemcache
      ensures Services(s3Faults, mcFaults, dbReads, dbFaults, evicts) == services && trace == []
      ensures W() == w
    {
      this.H := H;
      this.hasMemcache := hasMemcache;
      s3Faults := services.s3;
      mcFaults := services.mc;
      dbReads := services.dbRead;
      dbFaults := services.dbWrite;
      evicts := services.evicts;
      trace := [];
      rows := w.rows;
      s3 := w.s3;
      mc := w.mc;
    }

    ghost function W(): World
      reads this
    {
      World(rows, s3, mc)
    }

    predicate Reliable() {
      s3Faults == Never && mcFaults == Never && dbReads == Never && dbFaults == Never
    }

    /** Memcache holds nothing that S3 does not, if there is a memcache. */
    ghost predicate InStep()
      reads this
    {
      hasMemcache ==> Submap(mc, s3)
    }

    ghost predicate Good()
      reads this
    {
      AllRight(H, s3) && AllRight(H, mc)
    }

    // -------------------------------------------------------------- external calls

    /** Whether a call fails, and whether it took effect all the same. */
    method Fault(f: Faults) returns (fails: bool, effect: bool)
      ensures f == Never ==> !fails
      ensures fails && effect ==> f == Torn
    {
      fails := *;
      effect := *;
      fails := fails && f != Never;
      effect := effect && f == Torn;
    }

    /** Memcache may have dropped anything since it was last asked. */
    method Evict()
      modifies `mc
      ensures Submap(mc, old(mc)) && (!evicts ==> mc == old(mc))
    {
      var keep: set<string> := *;
      if evicts {
        mc := map k | k in mc && k in keep :: mc[k];
      }
    }

    method S3Write(k: string, b: Blob) returns (ok: bool)
      modifies `s3
      ensures ok ==> s3 == old(s3)[k := b]
      ensures !ok ==> s3 == old(s3) || (s3Faults == Torn && s3 == old(s3)[k := b])
      ensures s3Faults == Never ==> ok
    {
      var fails, effect := Fault(s3Faults);
      ok := !fails;
      if ok || effect {
        s3 := s3[k := b];
      }
    }

    method S3Delete(k: string) returns (ok: bool)
      modifies `s3
      ensures ok ==> s3 == old(s3) - {k}
      ensures !ok ==> s3 == old(s3) || (s3Faults == Torn && s3 == old(s3) - {k})
      ensures s3Faults == Never ==> ok
    {
      var fails, effect := Fault(s3Faults);
      ok := !fails;
      if ok || effect {
        s3 := s3 - {k};
      }
    }

    /** A missing key is an error too. */
    method S3Get(k: string) returns (r: Option<Blob>)
      ensures r.Some? ==> k in s3 && r.value == s3[k]
      ensures s3Faults == Never && k in s3 ==> r.Some?
    {
      var fails, _ := Fault(s3Faults);
      r := if fails || k !in s3 then None else Some(s3[k]);
    }

    method McSet(k: string, b: Blob) returns (ok: bool)
      modifies `mc
      ensures Merged(mc, old(mc), k, b)
      ensures mcFaults == Never ==> ok
      ensures ok ==> k in mc && mc[k] == b
      ensures !ok && mcFaults != Torn ==> Submap(mc, old(mc))
    {
      Evict();
      var fails, effect := Fault(mcFaults);
      ok := !fails;
      if ok || effect {
        mc := mc[k := b];
      }
    }

    /** A missing key is not an error for `Cache.Delete`. */
    method McDelete(k: string) returns (ok: bool)
      modifies `mc
      ensures Submap(mc, old(mc))
      ensures ok ==> k !in mc
      ensures mcFaults == Never ==> ok
    {
      Evict();
      var fails, effect := Fault(mcFaults);
      ok := !fails;
      if ok || effect {
        mc := mc - {k};
      }
    }

    // -------------------------------------------------------------- db.go

    /** `GetFiles`: on an error the map is nil. The loop over the rows does not look at their
        error, so a query that is cut short gives some of the files and no error. */
    method GetFiles(app: string, sub: string) returns (ok: bool, files: Files)
      modifies `trace
      ensures trace == old(trace) + [files]
      ensures SomeOf(files, FilesOf(rows, app, sub))
      ensures !ok ==> files == map[]
      ensures dbReads == Never ==> ok && files == FilesOf(rows, app, sub)
    {
      var fails, _ := Fault(dbReads);
      var seen: set<string> := *;
      var all := FilesOf(rows, app, sub);
      ok := !fails;
      files := if fails then map[] else if dbReads == Never then all else map n | n in all && n in seen :: all[n];
      trace := trace + [files];
    }

    /** `AddFile`: INSERT, refused by the unique index when the row exists. */
    method AddFile(app: string, sub: string, name: string, hash: string) returns (ok: bool)
      modifies `rows
      ensures ok ==> Row(app, sub, name) !in old(rows) && rows == old(rows)[Row(app, sub, name) := hash]
      ensures !ok ==>
                (rows == old(rows)
                 || (Row(app, sub, name) !in old(rows) && rows == old(rows)[Row(app, sub, name) := hash]))
      ensures dbFaults == Never && Row(app, sub, name) !in old(rows) ==> ok
    {
      var fails, effect := Fault(dbFaults);
      if Row(app, sub, name) in rows {
        return false;
      }
      ok := !fails;
      if ok || effect {
        rows := rows[Row(app, sub, name) := hash];
      }
    }

    /** `UpdateFile`: UPDATE, which succeeds without effect when there is no such row. */
    method UpdateFile(app: string, sub: string, name: string, hash: string) returns (ok: bool)
      modifies `rows
      ensures Row(app, sub, name) !in old(rows) ==> rows == old(rows)
      ensures ok && Row(app, sub, name) in old(rows) ==> rows == old(rows)[Row(app, sub, name) := hash]
      ensures !ok ==> rows == old(rows) || rows == old(rows)[Row(app, sub, name) := hash]
      ensures dbFaults == Never ==> ok
    {
      var fails, effect := Fault(dbFaults);
      ok := !fails;
      if (ok || effect) && Row(app, sub, name) in rows {
        rows := rows[Row(app, sub, name) := hash];
      }
    }

    /** `DeleteFile`. */
    method DeleteFile(app: string, sub: string, name: string) returns (ok: bool)
      modifies `rows
      ensures ok ==> rows == old(rows) - {Row(app, sub, name)}
      ensures !ok ==> rows == old(rows) || rows == old(rows) - {Row(app, sub, name)}
      ensures dbFaults == Never ==> ok
    {
      var fails, effect := Fault(dbFaults);
      ok := !fails;
      if ok || effect {
        rows := rows - {Row(app, sub, name)};
      }
    }

    // -------------------------------------------------------------- cache.go

    /** `Cache.Set`: S3 first, then memcache. When memcache does not fail it stays within S3,
        except exactly when S3 reports a failure that took effect and memcache has another
        content under that key. */
    method Set(app: string, sub: string, key: string, b: Blob) returns (ok: bool)
      modifies `s3, `mc
      ensures var k := Prefixed(app, sub, key);
              && (s3 == old(s3) || s3 == old(s3)[k := b])
              && (ok ==> s3 == old(s3)[k := b]) && (ok && hasMemcache ==> k in mc && mc[k] == b)
              && Merged(mc, old(mc), k, b)
      ensures Reliable() ==> ok
      ensures hasMemcache && mcFaults == Never && old(Submap(mc, s3)) ==>
        var k := Prefixed(app, sub, key);
        Submap(mc, s3) <==> ok || s3 == old(s3) || k !in old(mc) || old(mc)[k] == b
    {
      var k := Prefixed(app, sub, key);
      ok := S3Write(k, b);
      if ok && hasMemcache {
        ok := McSet(k, b);
      }
    }

    /** `Cache.Delete`: S3 first, then memcache, with the same exception. */
    method Delete(app: string, sub: string, key: string) returns (ok: bool)
      modifies `s3, `mc
      ensures var k := Prefixed(app, sub, key);
              && (s3 == old(s3) || s3 == old(s3) - {k})
              && (ok ==> s3 == old(s3) - {k})
              && (ok && hasMemcache ==> k !in mc)
              && Submap(mc, old(mc))
      ensures Reliable() ==> ok
      ensures hasMemcache && mcFaults == Never && old(Submap(mc, s3)) ==>
        (Submap(mc, s3) <==> ok || s3 == old(s3) || Prefixed(app, sub, key) !in old(mc))
    {
      var k := Prefixed(app, sub, key);
      ok := S3Delete(k);
      if ok && hasMemcache {
        ok := McDelete(k);
      }
    }

    /** `Cache.Get` with `cacheMiss`: memcache, else S3 and then memcache again. While
        memcache holds nothing that S3 does not, a result is what a plain read of S3 gives,
        and without faults there is no result only when S3 has none. What memcache has kept is
        given whatever S3 does, and what is given is in memcache afterwards. */
    method Get(app: string, sub: string, key: string) returns (r: Option<Blob>)
      modifies `mc
      ensures var k := Prefixed(app, sub, key);
              && (r.Some? ==> (k in old(mc) && r.value == old(mc)[k]) || (k in s3 && r.value == s3[k]))
              && (forall l :: l in mc ==>
                    (l in old(mc) && mc[l] == old(mc)[l]) || (l == k && k in s3 && mc[l] == s3[k]))
              && (Reliable() && k in s3 ==> r.Some?) && (r.Some? && hasMemcache ==> k in mc && mc[k] == r.value)
              && (hasMemcache && !evicts && mcFaults == Never && k in old(mc) ==> r == Some(old(mc)[k]))
              && (old(InStep()) && r.Some? ==> k in s3 && r.value == s3[k])
              && (old(InStep()) ==> InStep())
    {
      var k := Prefixed(app, sub, key);
      if hasMemcache {
        var fails, _ := Fault(mcFaults);
        if fails {
          return None;
        }
        Evict();
        if k in mc {
          return Some(mc[k]);
        }
      }
      r := S3Get(k);
      if r.Some? && hasMemcache {
        var ok := McSet(k, r.value);
        if !ok {
          r := None;
        }
      }
    }
  }

  /** Content stays right when nothing new comes in but right content. */
  lemma RightPut(H: Blob -> string, before: map<string, Blob>, now: map<string, Blob>, k: string, b: Blob)
    requires AllRight(H, before) && Right(H, k, b) && Merged(now, before, k, b)
    ensures AllRight(H, now)
  {
    forall l | l in now
      ensures Right(H, l, now[l])
    {
      assert l in before || l == k;
    }
  }
}
