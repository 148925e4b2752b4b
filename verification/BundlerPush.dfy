/** A push: the client's listing is compared with the stored rows and the rows, S3 and
    memcache are brought in line with it (push.go, archive.go). */
module BundlerPush {
  import opened Basics
  import opened BundlerStore

  /** What the client sent: the hash of every file, the content of the changed ones. */
  datatype Archive = Archive(listing: Files, diffs: map<string, Blob>)

  datatype Comparison = Comparison(added: seq<string>, changed: seq<string>, removed: seq<string>)

  // ---------------------------------------------------------------- archive.go

  predicate ParentPath(name: string) {
    exists i :: 2 <= i < |name| && name[i] == '/' && name[i - 1] == '.' && name[i - 2] == '.'
  }

  /** That is: "../" is somewhere in it. */
  lemma ParentPathMeans(name: string)
    ensures ParentPath(name) <==> exists a, b :: name == a + "../" + b
  {
    if ParentPath(name) {
      var i :| 2 <= i < |name| && name[i] == '/' && name[i - 1] == '.' && name[i - 2] == '.';
      assert name == name[..i - 2] + "../" + name[i + 1..];
    }
    forall a, b | name == a + "../" + b ensures ParentPath(name) {
      assert name[|a| + 2] == '/' && name[|a| + 1] == '.' && name[|a|] == '.';
    }
  }

  /** The sanity check of `parseListingFile`. */
  predicate ListingOk(listing: Files) {
    forall n :: n in listing ==> !ParentPath(n) && listing[n] != ""
  }

  /** The listing asks for a file that the rows do not have. */
  predicate Wanted(listing: Files, files: Files, n: string) {
    n in listing && (n !in files || files[n] != listing[n])
  }

  /** Everything wanted came along. */
  predicate Complete(a: Archive, files: Files) {
    forall n :: n in a.listing && Wanted(a.listing, files, n) ==> n in a.diffs
  }

  predicate Distinct(s: seq<string>) {
    forall i, j :: 0 <= i < j < |s| ==> s[i] != s[j]
  }

  /** s lists exactly the given names, each once. */
  ghost predicate Lists(s: seq<string>, names: set<string>) {
    Distinct(s) && forall n :: n in s <==> n in names
  }

  function Added(listing: Files, files: Files): set<string> {
    set n | n in listing && n !in files
  }

  function Changed(listing: Files, files: Files): set<string> {
    set n | n in listing && n in files && files[n] != listing[n]
  }

  function Removed(listing: Files, files: Files): set<string> {
    set n | n in files && n !in listing
  }

  lemma ListsAppend(s: seq<string>, names: set<string>, n: string)
    ensures Lists(s, names) && n !in names ==> Lists(s + [n], names + {n})
  {
  }

  lemma ListsStep(s: seq<string>, all: set<string>, todo: set<string>, n: string)
    requires n in todo && Lists(s, all - todo)
    ensures Lists(if n in all then s + [n] else s, all - (todo - {n}))
  {
    if n in all {
      ListsAppend(s, all - todo, n);
      assert all - todo + {n} == all - (todo - {n});
    } else {
      assert all - todo == all - (todo - {n});
    }
  }

  lemma ListsNone(all: set<string>, todo: set<string>)
    ensures all <= todo ==> Lists([], all - todo)
  {
  }

  /** `Compare`: the first loop, over the listing in any order. */
  method Classify(listing: Files, files: Files) returns (added: seq<string>, changed: seq<string>)
    ensures Lists(added, Added(listing, files)) && Lists(changed, Changed(listing, files))
  {
    added, changed := [], [];
    var todo := listing.Keys;
    ghost var a, c := Added(listing, files), Changed(listing, files);
    ListsNone(a, todo);
    ListsNone(c, todo);
    while todo != {}
      invariant todo <= listing.Keys
      invariant Lists(added, a - todo) && Lists(changed, c - todo)
      decreases |todo|
    {
      var name :| name in todo;
      ListsStep(added, a, todo, name);
      ListsStep(changed, c, todo, name);
      if name !in files {
        added := added + [name];
      } else if listing[name] != files[name] {
        changed := changed + [name];
      }
      todo := todo - {name};
    }
    assert a - {} == a && c - {} == c;
  }

  /** `Compare`: the last loop, over the rows in any order. */
  method Removals(listing: Files, files: Files) returns (removed: seq<string>)
    ensures Lists(removed, Removed(listing, files))
  {
    removed := [];
    var todo := files.Keys;
    ghost var d := Removed(listing, files);
    ListsNone(d, todo);
    while todo != {}
      invariant todo <= files.Keys && Lists(removed, d - todo)
      decreases |todo|
    {
      var name :| name in todo;
      ListsStep(removed, d, todo, name);
      if name !in listing {
        removed := removed + [name];
      }
      todo := todo - {name};
    }
    assert d - {} == d;
  }

  /** `Compare`: what to add, change and remove, if the archive holds all it must. */
  method Compare(a: Archive, files: Files) returns (r: Option<Comparison>)
    ensures r.Some? <==> ListingOk(a.listing) && Complete(a, files)
    ensures r.Some? ==> Compared(r.value, a.listing, files)
  {
    if !ListingOk(a.listing) {
      return None;
    }
    var added, changed := Classify(a.listing, files);
    var check := added + changed;
    for i := 0 to |check|
      invariant forall j :: 0 <= j < i ==> check[j] in a.diffs
    {
      if check[i] !in a.diffs {
        assert check[i] in added || check[i] in changed;
        assert Wanted(a.listing, files, check[i]);
        return None;
      }
    }
    forall n | n in a.listing && Wanted(a.listing, files, n)
      ensures n in a.diffs
    {
      assert n in added || n in changed;
      assert n in check;
    }
    var removed := Removals(a.listing, files);
    r := Some(Comparison(added, changed, removed));
  }

  // ---------------------------------------------------------------- push.go

  /** `protectHash`: another file has this hash. */
  predicate ProtectHash(files: Files, name: string, hash: string) {
    exists k :: k in files && k != name && files[k] == hash
  }

  function Look(f: Files, n: string): Option<string> {
    if n in f then Some(f[n]) else None
  }

  /** The development files of an app. */
  function Dev(w: World, app: string): Files {
    FilesOf(w.rows, app, "")
  }

  /** Development files whose blob is not in S3. */
  function Unbacked(w: World, app: string): set<string> {
    set n | n in Dev(w, app) && Prefixed(app, "", Dev(w, app)[n]) !in w.s3
  }

  predicate RowsOk(rows: map<Row, string>) {
    forall r :: r in rows ==> NoSlash(r.app) && NoSlash(r.sub) && IsHash(rows[r])
  }

  /** What every handler keeps: hashes in the rows, right content under every hash. */
  ghost predicate WorldOk(H: Blob -> string, w: World) {
    AllRight(H, w.s3) && AllRight(H, w.mc) && RowsOk(w.rows)
  }

  /** The client told the truth: every listed hash is one, and that of the content sent. */
  predicate Honest(H: Blob -> string, a: Archive) {
    && (forall n :: n in a.listing && a.listing[n] != "" ==> IsHash(a.listing[n]))
    && (forall n :: n in a.listing && n in a.diffs ==> H(a.diffs[n]) == a.listing[n])
  }

  // ---------------------------------------------------------------- progress towards a listing

  /** From w to v the named files have kept their row or got the one of the target, the
      others have kept theirs, and nothing outside the app's development files changed. */
  ghost predicate Progress(w: World, v: World, app: string, target: Files, names: set<string>) {
    && Within(w, v, app, "")
    && forall n ::
         || Look(Dev(v, app), n) == Look(Dev(w, app), n)
         || (n in names && Look(Dev(v, app), n) == Look(target, n))
  }

  ghost predicate Reached(v: World, app: string, target: Files, names: set<string>) {
    forall n :: n in names ==> Look(Dev(v, app), n) == Look(target, n)
  }

  lemma WithinTrans(u: World, v: World, w: World, app: string, sub: string)
    ensures Within(u, v, app, sub) && Within(v, w, app, sub) ==> Within(u, w, app, sub)
  {
  }

  lemma ProgressTrans(u: World, v: World, w: World, app: string, target: Files, a: set<string>, b: set<string>)
    requires Progress(u, v, app, target, a) && Progress(v, w, app, target, b)
    ensures Progress(u, w, app, target, a + b)
    ensures Reached(v, app, target, a) ==> Reached(w, app, target, a)
  {
    WithinTrans(u, v, w, app, "");
    forall n
      ensures || Look(Dev(w, app), n) == Look(Dev(u, app), n)
              || (n in a + b && Look(Dev(w, app), n) == Look(target, n))
    {
      assert || Look(Dev(v, app), n) == Look(Dev(u, app), n)
             || (n in a && Look(Dev(v, app), n) == Look(target, n));
    }
  }

  /** These files have the row of the target, and nothing else has changed. */
  ghost predicate Toward(w: World, v: World, app: string, target: Files, names: seq<string>) {
    Progress(w, v, app, target, Elems(names)) && Reached(v, app, target, Elems(names))
  }

  lemma TowardStart(w: World, app: string, target: Files, names: seq<string>)
    ensures Toward(w, w, app, target, names[..0])
  {
  }

  lemma TowardStep(w0: World, w: World, v: World, app: string, target: Files, names: seq<string>, i: nat)
    requires i < |names| && Toward(w0, w, app, target, names[..i]) && Progress(w, v, app, target, {names[i]})
    ensures Progress(w0, v, app, target, Elems(names))
    ensures Reached(v, app, target, {names[i]}) ==> Toward(w0, v, app, target, names[..i + 1])
  {
    ElemsStep(names, i);
    ProgressTrans(w0, w, v, app, target, Elems(names[..i]), {names[i]});
    ProgressWider(w0, v, app, target, Elems(names[..i + 1]), Elems(names));
  }

  /** The file of the next round is as it was. */
  lemma Untouched(w0: World, w: World, app: string, target: Files, names: seq<string>, i: nat)
    requires i < |names| && Distinct(names) && Toward(w0, w, app, target, names[..i])
    ensures Look(Dev(w, app), names[i]) == Look(Dev(w0, app), names[i])
    ensures names[i] in Dev(w, app) <==> names[i] in Dev(w0, app)
  {
    assert names[i] !in Elems(names[..i]);
  }

  lemma ProgressNone(w: World, app: string, target: Files)
    ensures Progress(w, w, app, target, {})
  {
  }

  lemma WithinRows(w: World, v: World, app: string, sub: string)
    requires Within(w, World(w.rows, v.s3, v.mc), app, sub)
    requires forall r: Row :: r.app != app || r.sub != sub ==>
      (r in w.rows <==> r in v.rows) && (r in w.rows ==> w.rows[r] == v.rows[r])
    ensures Within(w, v, app, sub)
  {
  }

  /** The row of one file replaced, its blob in place. */
  lemma ProgressPut(w: World, v: World, app: string, target: Files, name: string, hash: string)
    requires Within(w, World(w.rows, v.s3, v.mc), app, "")
    requires v.rows == w.rows[Row(app, "", name) := hash] && Look(target, name) == Some(hash)
    ensures Progress(w, v, app, target, {name}) && Reached(v, app, target, {name})
  {
    WithinRows(w, v, app, "");
    FilesOfPut(w.rows, app, "", name, hash);
    LookPut(Dev(w, app), name, hash);
  }

  lemma LookPut(f: Files, name: string, hash: string)
    ensures forall n :: Look(f[name := hash], n) == if n == name then Some(hash) else Look(f, n)
  {
    forall n
      ensures Look(f[name := hash], n) == if n == name then Some(hash) else Look(f, n)
    {
      assert n in f[name := hash] <==> n == name || n in f;
    }
  }

  lemma LookDelete(f: Files, name: string)
    ensures forall n :: Look(f - {name}, n) == if n == name then None else Look(f, n)
  {
  }

  lemma ProgressDelete(w: World, v: World, app: string, target: Files, name: string)
    requires Within(w, World(w.rows, v.s3, v.mc), app, "")
    requires v.rows == w.rows - {Row(app, "", name)} && name !in target
    ensures Progress(w, v, app, target, {name}) && Reached(v, app, target, {name})
  {
    WithinRows(w, v, app, "");
    FilesOfDelete(w.rows, app, "", name);
    LookDelete(Dev(w, app), name);
  }

  lemma ProgressSame(w: World, v: World, app: string, target: Files, names: set<string>)
    ensures Within(w, v, app, "") && v.rows == w.rows ==> Progress(w, v, app, target, names)
  {
  }

  /** S3 changed under one hash of the app only. */
  lemma WithinKey(w: World, v: World, app: string, key: string)
    requires v.rows == w.rows && NoSlash(key)
    requires forall k :: k != Prefixed(app, "", key) ==>
      (k in w.s3 <==> k in v.s3) && (k in w.s3 ==> w.s3[k] == v.s3[k])
    ensures Within(w, v, app, "")
  {
  }

  /** A blob stored (w to v), then perhaps the row (v to u). */
  lemma UpdateOutcome(w: World, v: World, u: World, app: string, target: Files, name: string, b: Blob)
    requires name in target && Within(w, v, app, "") && v.rows == w.rows && u.s3 == v.s3 && u.mc == v.mc
    requires v.s3 == w.s3 || v.s3 == w.s3[Prefixed(app, "", target[name]) := b]
    requires u.rows == w.rows
          || (u.rows == w.rows[Row(app, "", name) := target[name]] && Prefixed(app, "", target[name]) in v.s3)
    ensures Progress(w, u, app, target, {name}) && Unbacked(u, app) <= Unbacked(w, app)
    ensures u.rows == w.rows[Row(app, "", name) := target[name]] ==> Reached(u, app, target, {name})
  {
    UnbackedPut(w, u, app, name, target[name], b);
    if u.rows == w.rows[Row(app, "", name) := target[name]] {
      ProgressPut(w, u, app, target, name, target[name]);
    } else {
      ProgressSame(w, u, app, target, {name});
    }
  }

  lemma UnbackedPut(w: World, v: World, app: string, name: string, hash: string, b: Blob)
    requires v.s3 == w.s3 || v.s3 == w.s3[Prefixed(app, "", hash) := b]
    requires v.rows == w.rows || (v.rows == w.rows[Row(app, "", name) := hash] && Prefixed(app, "", hash) in v.s3)
    ensures Unbacked(v, app) <= Unbacked(w, app)
  {
    FilesOfPut(w.rows, app, "", name, hash);
  }

  /** The fetched files show another one with the hash of `name` if there is one. */
  predicate SeesSharer(fetched: Files, files: Files, name: string) {
    name in fetched && ProtectHash(files, name, fetched[name]) ==> ProtectHash(fetched, name, fetched[name])
  }

  /** The other files with this hash. */
  function Sharers(files: Files, name: string, hash: string): set<string> {
    set n | n in files && n != name && files[n] == hash
  }

  lemma PrefixedHash(app: string, a: string, b: string)
    requires Prefixed(app, "", a) == Prefixed(app, "", b)
    ensures a == b
  {
    assert a == Prefixed(app, "", a)[|app| + 1..] && b == Prefixed(app, "", b)[|app| + 1..];
  }

  /** Which files lose their blob when it is deleted, and the row perhaps with it. */
  lemma UnbackedDelete(w: World, v: World, app: string, name: string, hash: string)
    requires name in Dev(w, app) && Dev(w, app)[name] == hash
    requires v.s3 == w.s3 || v.s3 == w.s3 - {Prefixed(app, "", hash)}
    requires v.rows == w.rows || v.rows == w.rows - {Row(app, "", name)}
    ensures v.s3 == w.s3 ==> Unbacked(v, app) <= Unbacked(w, app)
    ensures Unbacked(v, app) <= Unbacked(w, app) + {name} + Sharers(Dev(w, app), name, hash)
    ensures v.rows != w.rows ==> Unbacked(v, app) <= Unbacked(w, app) + Sharers(Dev(w, app), name, hash)
    ensures v.s3 == w.s3 - {Prefixed(app, "", hash)} ==> Sharers(Dev(w, app), name, hash) <= Unbacked(v, app)
  {
    FilesOfDelete(w.rows, app, "", name);
    FilesOfAt(w.rows, app, "", name);
    forall n | n in Dev(w, app) && n != name && n !in Sharers(Dev(w, app), name, hash)
      ensures Prefixed(app, "", Dev(w, app)[n]) != Prefixed(app, "", hash)
    {
      if Prefixed(app, "", Dev(w, app)[n]) == Prefixed(app, "", hash) {
        PrefixedHash(app, Dev(w, app)[n], hash);
      }
    }
  }

  /** A blob deleted unless the fetch protects it, then perhaps the row. */
  lemma RemoveOutcome(w: World, v: World, app: string, target: Files, name: string, files: Files)
    requires name !in target && name in files && SomeOf(files, Dev(w, app)) && NoSlash(files[name])
    requires || v.s3 == w.s3
             || (v.s3 == w.s3 - {Prefixed(app, "", files[name])} && !ProtectHash(files, name, files[name]))
    requires v.rows == w.rows || v.rows == w.rows - {Row(app, "", name)}
    ensures Progress(w, v, app, target, {name})
    ensures v.rows == w.rows - {Row(app, "", name)} ==> Reached(v, app, target, {name})
    ensures SeesSharer(files, Dev(w, app), name) ==>
      && Unbacked(v, app) <= Unbacked(w, app) + {name}
      && (v.rows == w.rows - {Row(app, "", name)} ==> Unbacked(v, app) <= Unbacked(w, app))
  {
    hide Progress, Reached, Unbacked;
    FilesOfAt(w.rows, app, "", name);
    WithinKey(w, World(w.rows, v.s3, v.mc), app, files[name]);
    if v.rows == w.rows {
      ProgressSame(w, v, app, target, {name});
    } else {
      ProgressDelete(w, v, app, target, name);
    }
    UnbackedDelete(w, v, app, name, files[name]);
    if SeesSharer(files, Dev(w, app), name) && !ProtectHash(files, name, files[name]) {
      assert Sharers(Dev(w, app), name, files[name]) == {};
    }
  }

  /** What a removal that looked at `fetched` does. */
  ghost predicate RemovedBy(w: World, v: World, app: string, name: string, fetched: Files) {
    && SomeOf(fetched, Dev(w, app)) && name in fetched
    && v.rows == w.rows - {Row(app, "", name)}
    && var key := Prefixed(app, "", fetched[name]);
       v.s3 == if ProtectHash(fetched, name, fetched[name]) then w.s3 else w.s3 - {key}
  }

  lemma DevAfter(w: World, v: World, app: string, name: string)
    requires v.rows == w.rows - {Row(app, "", name)}
    ensures Dev(v, app) == Dev(w, app) - {name}
  {
    FilesOfDelete(w.rows, app, "", name);
  }

  /** After it the blob is in S3 exactly when another file has that hash, if and only if a
      sharer was seen. */
  lemma BlobSurvives(w: World, v: World, app: string, name: string, fetched: Files)
    requires RemovedBy(w, v, app, name, fetched) && Prefixed(app, "", fetched[name]) in w.s3
    ensures var hash := fetched[name];
            (Prefixed(app, "", hash) in v.s3 <==> exists n :: n in Dev(v, app) && Dev(v, app)[n] == hash)
            <==> SeesSharer(fetched, Dev(w, app), name)
  {
    var hash := fetched[name];
    DevAfter(w, v, app, name);
    if ProtectHash(Dev(w, app), name, hash) {
      var k :| k in Dev(w, app) && k != name && Dev(w, app)[k] == hash;
      assert k in Dev(v, app) && Dev(v, app)[k] == hash;
    }
  }

  /** And no other file has lost its blob, if and only if a sharer was seen. */
  lemma OthersBacked(w: World, v: World, app: string, name: string, fetched: Files)
    requires RemovedBy(w, v, app, name, fetched) && Prefixed(app, "", fetched[name]) in w.s3
    ensures Unbacked(v, app) <= Unbacked(w, app) <==> SeesSharer(fetched, Dev(w, app), name)
  {
    var hash := fetched[name];
    FilesOfAt(w.rows, app, "", name);
    UnbackedDelete(w, v, app, name, hash);
    if ProtectHash(Dev(w, app), name, hash) {
      var k :| k in Dev(w, app) && k != name && Dev(w, app)[k] == hash;
      assert k in Sharers(Dev(w, app), name, hash) && k !in Unbacked(w, app);
    } else {
      assert Sharers(Dev(w, app), name, hash) == {};
    }
  }

  /** What a removal that succeeded leaves: one row less, and if the blob was there, it still is
      exactly when another file has that hash, and no other file lost it, each if and only if
      the fetch had shown a sharer. */
  ghost predicate RemovedRight(w: World, v: World, app: string, name: string, fetched: Files) {
    && Dev(v, app) == Dev(w, app) - {name} && name in fetched && name in Dev(w, app)
    && (name !in Unbacked(w, app) ==>
          && ((Prefixed(app, "", fetched[name]) in v.s3
               <==> exists n :: n in Dev(v, app) && Dev(v, app)[n] == fetched[name])
              <==> SeesSharer(fetched, Dev(w, app), name))
          && (Unbacked(v, app) <= Unbacked(w, app) <==> SeesSharer(fetched, Dev(w, app), name)))
  }

  lemma RemovalIsRight(w: World, v: World, app: string, name: string, fetched: Files)
    requires RemovedBy(w, v, app, name, fetched)
    ensures RemovedRight(w, v, app, name, fetched)
  {
    DevAfter(w, v, app, name);
    if name !in Unbacked(w, app) {
      BlobSurvives(w, v, app, name, fetched);
      OthersBacked(w, v, app, name, fetched);
    }
  }

  // ---------------------------------------------------------------- the handler

  function Elems(s: seq<string>): set<string> {
    set n | n in s
  }

  lemma ElemsStep(s: seq<string>, i: nat)
    requires i < |s|
    ensures Elems(s[..i + 1]) == Elems(s[..i]) + {s[i]}
  {
    assert s[..i + 1] == s[..i] + [s[i]];
  }

  class PushHandler {
    const store: Store
    const app: string
    const archive: Archive
    var dirty: bool
    var log: seq<string>   // the names of the lines of progress, one a round

    constructor (store: Store, app: string, archive: Archive)
      ensures this.store == store && this.app == app && this.archive == archive && !dirty && log == []
    {
      this.store := store;
      this.app := app;
      this.archive := archive;
      dirty := false;
      log := [];
    }

    ghost predicate Sound()
      reads store
    {
      NoSlash(app) && Honest(store.H, archive) && WorldOk(store.H, store.W())
    }

    /** The archive has a hash and a content for this name. */
    predicate Sent(name: string) {
      name in archive.listing && archive.listing[name] != "" && name in archive.diffs
    }

    /** `cache.Set` of a file of the archive: only that blob changes. */
    method StoreBlob(name: string) returns (ok: bool)
      requires Sound() && Sent(name)
      modifies store`s3, store`mc
      ensures Sound() && Within(old(store.W()), store.W(), app, "")
      ensures var k := Prefixed(app, "", archive.listing[name]);
              && (store.s3 == old(store.s3) || store.s3 == old(store.s3)[k := archive.diffs[name]])
              && (ok ==> k in store.s3)
      ensures store.Reliable() ==> ok
    {
      var hash, b := archive.listing[name], archive.diffs[name];
      RightAt(store.H, app, "", hash, b);
      ok := store.Set(app, "", hash, b);
      RightPut(store.H, old(store.s3), store.s3, Prefixed(app, "", hash), b);
      RightPut(store.H, old(store.mc), store.mc, Prefixed(app, "", hash), b);
      WithinKey(old(store.W()), store.W(), app, hash);
    }

    /** `AddFile` or `UpdateFile` of the archive's hash. */
    method PutRow(name: string, add: bool) returns (ok: bool)
      requires Sound() && Sent(name) && (!add ==> name in Dev(store.W(), app))
      modifies store`rows
      ensures Sound()
      ensures var now := old(store.rows)[Row(app, "", name) := archive.listing[name]];
              && (store.rows == old(store.rows) || store.rows == now)
              && (ok ==> store.rows == now)
      ensures ok && add ==> name !in old(Dev(store.W(), app))
      ensures store.Reliable() && (add ==> name !in old(Dev(store.W(), app))) ==> ok
    {
      FilesOfAt(store.rows, app, "", name);
      if add {
        ok := store.AddFile(app, "", name, archive.listing[name]);
      } else {
        ok := store.UpdateFile(app, "", name, archive.listing[name]);
      }
    }

    /** One round of `update`: blob first, then the row. */
    method UpdateOne(name: string, add: bool) returns (ok: bool)
      requires Sound()
      requires !add ==> name in Dev(store.W(), app)
      modifies store`rows, store`s3, store`mc, `dirty
      ensures Sound() && Progress(old(store.W()), store.W(), app, archive.listing, {name})
      ensures ok ==> Reached(store.W(), app, archive.listing, {name}) && name in archive.listing
      ensures ok && add ==> name !in old(Dev(store.W(), app))
      ensures dirty == (ok || old(dirty))
      ensures Unbacked(store.W(), app) <= old(Unbacked(store.W(), app))
      ensures store.Reliable() && Sent(name) && (add ==> name !in old(Dev(store.W(), app))) ==> ok
    {
      ghost var w0 := store.W();
      if !Sent(name) {
        ProgressSame(w0, w0, app, archive.listing, {name});
        return false;
      }
      ok := StoreBlob(name);
      ghost var w1 := store.W();
      if ok {
        ok := PutRow(name, add);
      }
      if ok {
        dirty := true;
      }
      UpdateOutcome(w0, w1, store.W(), app, archive.listing, name, archive.diffs[name]);
    }

    /** `update` over the names of a comparison. */
    method Update(names: seq<string>, add: bool) returns (ok: bool)
      requires Sound() && Distinct(names)
      requires !add ==> forall n :: n in names ==> n in Dev(store.W(), app)
      modifies store`rows, store`s3, store`mc, `dirty, `log
      ensures Sound() && Progress(old(store.W()), store.W(), app, archive.listing, Elems(names))
      ensures ok ==> Reached(store.W(), app, archive.listing, Elems(names))
      ensures ok && add ==> forall n :: n in names ==> n !in old(Dev(store.W(), app))
      ensures ok ==> dirty == (names != [] || old(dirty))
      ensures Logged(old(log), log, names, ok)
      ensures Unbacked(store.W(), app) <= old(Unbacked(store.W(), app))
      ensures (store.Reliable() && forall n :: n in names ==> Sent(n) && (add ==> n !in old(Dev(store.W(), app))))
              ==> ok
    {
      hide Progress, Reached, WorldOk, Honest, Unbacked;
      ok := true;
      ghost var w0 := store.W();
      TowardStart(w0, app, archive.listing, names);
      LoggedStart(log, names);
      for i := 0 to |names|
        invariant Sound() && Toward(w0, store.W(), app, archive.listing, names[..i])
        invariant add ==> forall j :: 0 <= j < i ==> names[j] !in Dev(w0, app)
        invariant dirty == (i > 0 || old(dirty))
        invariant log == old(log) + names[..i]
        invariant Unbacked(store.W(), app) <= Unbacked(w0, app)
      {
        ghost var w := store.W();
        Untouched(w0, w, app, archive.listing, names, i);
        LoggedStep(old(log), names, i);
        log := log + [names[i]];
        ok := UpdateOne(names[i], add);
        TowardStep(w0, w, store.W(), app, archive.listing, names, i);
        if !ok {
          return;
        }
      }
      assert names[..|names|] == names;
    }

    /** One round of `remove` with the files that were fetched: the blob goes first, unless
        another of those files needs it, then the row. */
    method RemoveFetched(name: string, files: Files) returns (ok: bool)
      requires Sound() && name !in archive.listing && SomeOf(files, Dev(store.W(), app))
      modifies store`rows, store`s3, store`mc, `dirty
      ensures Sound() && Progress(old(store.W()), store.W(), app, archive.listing, {name})
      ensures ok ==> Reached(store.W(), app, archive.listing, {name}) && name in files
      ensures ok ==>
        && store.rows == old(store.rows) - {Row(app, "", name)}
        && store.s3 == (if ProtectHash(files, name, files[name]) then old(store.s3)
                        else old(store.s3) - {Prefixed(app, "", files[name])})
      ensures dirty == (ok || old(dirty))
      ensures SeesSharer(files, old(Dev(store.W(), app)), name) ==>
        && Unbacked(store.W(), app) <= old(Unbacked(store.W(), app)) + {name}
        && (ok ==> Unbacked(store.W(), app) <= old(Unbacked(store.W(), app)))
      ensures store.Reliable() && name in files ==> ok
    {
      hide Progress, Honest, Reached, Unbacked, Right, SeesSharer;
      ghost var w0 := store.W();
      FilesOfAt(store.rows, app, "", name);
      if name !in files || files[name] == "" {
        ProgressSame(w0, w0, app, archive.listing, {name});
        return false;
      }
      var hash := files[name];
      ok := true;
      if !ProtectHash(files, name, hash) {
        ok := store.Delete(app, "", hash);
      }
      if ok {
        ok := store.DeleteFile(app, "", name);
        if ok {
          dirty := true;
        }
      }
      RemoveOutcome(w0, store.W(), app, archive.listing, name, files);
    }

    /** One round of `remove`. After success the blob is in S3 exactly when another file has
        that hash, if and only if the fetch had shown such a file. */
    method RemoveOne(name: string) returns (ok: bool, ghost fetched: Files)
      requires Sound() && name !in archive.listing
      modifies store, `dirty
      ensures store.trace == old(store.trace) + [fetched]
      ensures SomeOf(fetched, old(Dev(store.W(), app)))
      ensures store.dbReads == Never ==> fetched == old(Dev(store.W(), app))
      ensures Sound() && Progress(old(store.W()), store.W(), app, archive.listing, {name})
      ensures ok ==> Reached(store.W(), app, archive.listing, {name}) && name in fetched
      ensures ok ==> RemovedRight(old(store.W()), store.W(), app, name, fetched)
      ensures dirty == (ok || old(dirty))
      ensures SeesSharer(fetched, old(Dev(store.W(), app)), name) ==>
        && Unbacked(store.W(), app) <= old(Unbacked(store.W(), app)) + {name}
        && (ok ==> Unbacked(store.W(), app) <= old(Unbacked(store.W(), app)))
      ensures store.Reliable() && name in old(Dev(store.W(), app)) ==> ok
    {
      ghost var w0 := store.W();
      var _, files := store.GetFiles(app, "");
      fetched := files;
      ok := RemoveFetched(name, files);
      if ok {
        RemovalIsRight(w0, store.W(), app, name, files);
      }
    }

    /** `remove` over the names of a comparison; `shown` is what its rounds were shown. */
    method Remove(names: seq<string>) returns (ok: bool, ghost shown: seq<Files>)
      requires Sound() && Distinct(names) && forall n :: n in names ==> n !in archive.listing
      modifies store, `dirty, `log
      ensures store.trace == old(store.trace) + shown && |shown| <= |names| && log == old(log) + names[..|shown|]
      ensures Sound() && Progress(old(store.W()), store.W(), app, archive.listing, Elems(names))
      ensures ok ==> Reached(store.W(), app, archive.listing, Elems(names))
      ensures ok ==> dirty == (names != [] || old(dirty))
      ensures RemovedSoFar(old(store.W()), store.W(), app, archive.listing, names, shown, ok, store.dbReads == Never)
      ensures (store.Reliable() && forall n :: n in names ==> n in old(Dev(store.W(), app))) ==> ok
    {
      hide Progress, Reached, WorldOk, Honest, Unbacked, Dev, SeesSharer, Removing, RemovedSoFar;
      ok, shown := true, [];
      ghost var w0 := store.W();
      RemovingStart(w0, app, archive.listing, names, store.trace, log, store.dbReads == Never);
      for i := 0 to |names|
        invariant Sound() && Toward(w0, store.W(), app, archive.listing, names[..i])
        invariant dirty == (i > 0 || old(dirty))
        invariant |shown| == i && store.trace == old(store.trace) + shown && log == old(log) + names[..i]
        invariant Removing(w0, store.W(), app, names, shown, store.dbReads == Never)
      {
        ghost var w, before := store.W(), shown;
        Untouched(w0, w, app, archive.listing, names, i);
        LoggedStep(old(log), names, i);
        ghost var fetched;
        log := log + [names[i]];
        ok, fetched := RemoveOne(names[i]);
        shown := shown + [fetched];
        Concat3(old(store.trace), before, [fetched]);
        TowardStep(w0, w, store.W(), app, archive.listing, names, i);
        RemovingStep(w0, w, store.W(), app, archive.listing, names, before, fetched, ok, store.dbReads == Never);
        if !ok {
          return;
        }
      }
      assert names[..|names|] == names;
      RemovingEnd(w0, store.W(), app, archive.listing, names, shown, store.dbReads == Never);
    }

    /** The part of `handle` between the decompression and the footers. The error of
        `GetFiles` is ignored, so a failed fetch is one that shows no files. A success leaves
        exactly the listing if and only if the fetch had shown all rows; the others stay. When
        every removal was shown a sharer of the hash it removes, if there was one, at most one
        file is without its blob that was not before, and none after a success. */
    method Reconcile() returns (ok: bool, ghost fetched: Files, ghost shown: seq<Files>)
      requires Sound()
      modifies store, `dirty, `log
      ensures store.trace == old(store.trace) + [fetched] + shown && |shown| <= |log| - |old(log)|
      ensures SomeRemoved(LastOf(log, |shown|), archive.listing, fetched)
      ensures Sound() && SomeOf(fetched, old(Dev(store.W(), app)))
      ensures Progress(old(store.W()), store.W(), app, archive.listing,
                       old(Dev(store.W(), app)).Keys + archive.listing.Keys)
      ensures ok ==> (Dev(store.W(), app) == archive.listing <==> fetched == old(Dev(store.W(), app)))
      ensures ok ==>
        && (old(Dev(store.W(), app)) - fetched.Keys).Keys !! archive.listing.Keys
        && Dev(store.W(), app) == (old(Dev(store.W(), app)) - fetched.Keys) + archive.listing
      ensures SawSharers(shown, old(Dev(store.W(), app)), archive.listing, fetched, log) ==>
        FewLost(old(store.W()), store.W(), app, archive.listing, ok)
      ensures ok && fetched == old(Dev(store.W(), app)) ==>
        dirty == (old(dirty) || old(Dev(store.W(), app)) != archive.listing)
      ensures store.dbReads == Never ==>
        && fetched == old(Dev(store.W(), app))
        && SawSharers(shown, old(Dev(store.W(), app)), archive.listing, fetched, log)
      ensures store.Reliable() && ListingOk(archive.listing) && Complete(archive, old(Dev(store.W(), app))) ==> ok
    {
      hide Progress, WorldOk, Honest, Unbacked, FewLost, FilesOf, SomeOf, Compared, AllSeen, Updated;
      hide SomeRemoved;
      ghost var w0 := store.W();
      var got, files := store.GetFiles(app, "");
      fetched, shown := files, [];
      var comp := Compare(archive, files);
      if comp.None? {
        ProgressSame(w0, store.W(), app, archive.listing, Dev(w0, app).Keys + archive.listing.Keys);
        ghost var n := Added(archive.listing, files) + Changed(archive.listing, files);
        NoneRemoved(log, archive.listing, files);
        NoneShown(w0, store.W(), app, archive.listing, Updated(Dev(w0, app), archive.listing, n), log, false);
        assert store.trace == old(store.trace) + [fetched] + shown;
        return false, fetched, shown;
      }
      AddedNew(comp.value, archive.listing, files);
      ok, shown := Apply(comp.value, files);
      NamesWithin(comp.value, archive.listing, files, Dev(w0, app));
      ProgressWider(w0, store.W(), app, archive.listing, Names(comp.value), Dev(w0, app).Keys + archive.listing.Keys);
      if ok {
        ReconcileResult(w0, store.W(), app, archive.listing, files, comp.value);
        ListingOnly(Dev(w0, app), files, archive.listing);
        DirtyMeaning(archive.listing, files, comp.value);
      }
    }

    /** Additions, changes and removals, in this order. */
    method Apply(c: Comparison, ghost files: Files) returns (ok: bool, ghost shown: seq<Files>)
      requires Sound() && Compared(c, archive.listing, files) && SomeOf(files, Dev(store.W(), app))
      modifies store, `dirty, `log
      ensures store.trace == old(store.trace) + shown && |shown| <= |log| - |old(log)|
      ensures SomeRemoved(LastOf(log, |shown|), archive.listing, files)
      ensures Sound() && Progress(old(store.W()), store.W(), app, archive.listing, Names(c))
      ensures ok ==> Reached(store.W(), app, archive.listing, Names(c))
      ensures ok ==> forall n :: n in c.added ==> n !in old(Dev(store.W(), app))
      ensures ok ==> dirty == (old(dirty) || c.added != [] || c.changed != [] || c.removed != [])
      ensures SawSharers(shown, old(Dev(store.W(), app)), archive.listing, files, log) ==>
        FewLost(old(store.W()), store.W(), app, archive.listing, ok)
      ensures store.dbReads == Never ==> SawSharers(shown, old(Dev(store.W(), app)), archive.listing, files, log)
      ensures (store.Reliable() && ListingOk(archive.listing) && Complete(archive, files)
               && forall n :: n in c.added ==> n !in old(Dev(store.W(), app))) ==> ok
    {
      hide Progress, WorldOk, Honest, Unbacked, Dev, FewLost, AllSeen, Updated, SomeRemoved;
      ghost var w0 := store.W();
      shown := [];
      ChangedSent(archive, files, c);
      ok := Update(c.added, true);
      ghost var w1 := store.W();
      OthersKeep(w0, w1, app, archive.listing, Elems(c.added));
      if !ok {
        ProgressWider(w0, w1, app, archive.listing, Elems(c.added), Names(c));
        ghost var n := Added(archive.listing, files) + Changed(archive.listing, files);
        NoneRemoved(log, archive.listing, files);
        NoneShown(w0, w1, app, archive.listing, Updated(Dev(w0, app), archive.listing, n), log, ok);
        assert store.trace == old(store.trace) + shown;
        return;
      }
      UpdatedIs(w0, w1, app, archive.listing, Elems(c.added));
      UpdatedTwice(Dev(w0, app), archive.listing, files, c);
      ok, shown := ApplyRest(c, files, w0);
      ProgressTrans(w0, w1, store.W(), app, archive.listing, Elems(c.added), Elems(c.changed) + Elems(c.removed));
      FewLostFrom(w0, w1, store.W(), app, archive.listing, ok);
    }

    /** Changes and removals, after the additions (w0 is the world before them). */
    method ApplyRest(c: Comparison, ghost files: Files, ghost w0: World) returns (ok: bool, ghost shown: seq<Files>)
      requires Sound() && Compared(c, archive.listing, files) && SomeOf(files, Dev(w0, app))
      requires forall n :: n !in Elems(c.added) && n in Dev(w0, app) ==> n in Dev(store.W(), app)
      modifies store, `dirty, `log
      ensures store.trace == old(store.trace) + shown && |shown| <= |log| - |old(log)|
      ensures SomeRemoved(LastOf(log, |shown|), archive.listing, files)
      ensures Sound() && Progress(old(store.W()), store.W(), app, archive.listing, Elems(c.changed) + Elems(c.removed))
      ensures ok ==> Reached(store.W(), app, archive.listing, Elems(c.changed) + Elems(c.removed))
      ensures ok ==> dirty == (old(dirty) || c.changed != [] || c.removed != [])
      ensures var base := Updated(old(Dev(store.W(), app)), archive.listing, Elems(c.changed));
              && (store.dbReads == Never ==> AllSeen(shown, base, LastOf(log, |shown|)))
              && (AllSeen(shown, base, LastOf(log, |shown|)) ==>
                    FewLost(old(store.W()), store.W(), app, archive.listing, ok))
      ensures store.Reliable() && ListingOk(archive.listing) && Complete(archive, files) ==> ok
    {
      hide Progress, WorldOk, Honest, Unbacked, Dev, FewLost, AllSeen, Updated, SomeRemoved;
      ghost var w1 := store.W();
      shown := [];
      ChangedSent(archive, files, c);
      RemovedThere(w0, w1, app, archive.listing, files, c);
      ok := Update(c.changed, false);
      ghost var w2 := store.W();
      OthersKeep(w1, w2, app, archive.listing, Elems(c.changed));
      if !ok {
        ProgressWider(w1, w2, app, archive.listing, Elems(c.changed), Elems(c.changed) + Elems(c.removed));
        NoneRemoved(log, archive.listing, files);
        NoneShown(w1, w2, app, archive.listing, Updated(Dev(w1, app), archive.listing, Elems(c.changed)), log, ok);
        assert store.trace == old(store.trace) + shown;
        return;
      }
      UpdatedIs(w1, w2, app, archive.listing, Elems(c.changed));
      ghost var logged := log;
      ok, shown := Remove(c.removed);
      LastLogged(logged, c.removed[..|shown|]);
      FirstRemoved(c, archive.listing, files, |shown|);
      ProgressTrans(w1, w2, store.W(), app, archive.listing, Elems(c.changed), Elems(c.removed));
      FewLostFrom(w1, w2, store.W(), app, archive.listing, ok);
    }
  }

  // ---------------------------------------------------------------- what the removals were shown

  /** A loop over names logs them one by one, all of them if it succeeds. */
  predicate Logged(before: seq<string>, now: seq<string>, names: seq<string>, all: bool) {
    && before <= now && |now| - |before| <= |names| && now == before + names[..|now| - |before|]
    && (all ==> now == before + names)
  }

  lemma LoggedStep(before: seq<string>, names: seq<string>, i: nat)
    ensures i < |names| ==> before + names[..i] + [names[i]] == before + names[..i + 1]
  {
  }

  lemma LoggedStart(before: seq<string>, names: seq<string>)
    ensures before == before + names[..0]
  {
  }

  /** Round i was shown shown[i] when it removed names[i], after the names before it were gone:
      each of them showed a sharer if there was one. */
  predicate AllSeen(shown: seq<Files>, files: Files, names: seq<string>) {
    |shown| <= |names| && forall i :: 0 <= i < |shown| ==> SeesSharer(shown[i], files - Elems(names[..i]), names[i])
  }

  lemma AllSeenStep(shown: seq<Files>, f: Files, files: Files, names: seq<string>, i: nat)
    requires |shown| == i < |names|
    ensures AllSeen(shown + [f], files, names[..i + 1]) <==>
            AllSeen(shown, files, names[..i]) && SeesSharer(f, files - Elems(names[..i]), names[i])
  {
    forall j | 0 <= j <= i ensures names[..i + 1][..j] == names[..j] && (j < i ==> names[..i][..j] == names[..j]) {}
    if AllSeen(shown + [f], files, names[..i + 1]) {
      forall j | 0 <= j < i ensures SeesSharer(shown[j], files - Elems(names[..i][..j]), names[..i][j]) {
        assert (shown + [f])[j] == shown[j];
      }
      assert (shown + [f])[i] == f;
    }
  }

  lemma WithoutStep(files: Files, names: seq<string>, i: nat)
    ensures i < |names| ==> (files - Elems(names[..i])) - {names[i]} == files - Elems(names[..i + 1])
  {
    if i < |names| {
      ElemsStep(names, i);
    }
  }

  /** The state of a removal loop after as many rounds as it was shown files. */
  ghost predicate Removing(w0: World, w: World, app: string, names: seq<string>, shown: seq<Files>, whole: bool) {
    && |shown| <= |names| && Dev(w, app) == Dev(w0, app) - Elems(names[..|shown|])
    && (AllSeen(shown, Dev(w0, app), names[..|shown|]) ==> Unbacked(w, app) <= Unbacked(w0, app))
    && (whole ==> AllSeen(shown, Dev(w0, app), names[..|shown|]))
  }

  /** How it ends: at most one file without its blob that had one, none if it succeeds. */
  ghost predicate RemovedSoFar(w0: World, v: World, app: string, listing: Files, names: seq<string>,
                               shown: seq<Files>, ok: bool, whole: bool) {
    && |shown| <= |names|
    && (AllSeen(shown, Dev(w0, app), names[..|shown|]) ==> FewLost(w0, v, app, listing, ok))
    && (whole ==> AllSeen(shown, Dev(w0, app), names[..|shown|]))
  }

  ghost predicate FewLost(w: World, v: World, app: string, listing: Files, ok: bool) {
    && OneMore(Unbacked(v, app), Unbacked(w, app), listing)
    && (ok ==> Unbacked(v, app) <= Unbacked(w, app))
  }

  lemma RemovingStart(w: World, app: string, listing: Files, names: seq<string>,
                      trace: seq<Files>, log: seq<string>, whole: bool)
    ensures trace + [] == trace && log + names[..0] == log
    ensures Toward(w, w, app, listing, names[..0]) && Removing(w, w, app, names, [], whole)
  {
    TowardStart(w, app, listing, names);
    assert Elems(names[..0]) == {} && Dev(w, app) - {} == Dev(w, app);
  }

  lemma RemovingStep(w0: World, w: World, v: World, app: string, listing: Files, names: seq<string>,
                     shown: seq<Files>, f: Files, ok: bool, whole: bool)
    requires Removing(w0, w, app, names, shown, whole) && |shown| < |names| && names[|shown|] !in listing
    requires whole ==> f == Dev(w, app)
    requires SeesSharer(f, Dev(w, app), names[|shown|]) ==>
               && Unbacked(v, app) <= Unbacked(w, app) + {names[|shown|]}
               && (ok ==> Unbacked(v, app) <= Unbacked(w, app))
    requires ok ==> Dev(v, app) == Dev(w, app) - {names[|shown|]}
    ensures RemovedSoFar(w0, v, app, listing, names, shown + [f], ok, whole)
    ensures ok ==> Removing(w0, v, app, names, shown + [f], whole)
  {
    hide AllSeen, Elems, Unbacked, Dev;
    var i := |shown|;
    AllSeenStep(shown, f, Dev(w0, app), names, i);
    WithoutStep(Dev(w0, app), names, i);
    OneMoreWith(Unbacked(v, app), Unbacked(w, app), Unbacked(w0, app), listing, names[i]);
  }

  lemma RemovingEnd(w0: World, w: World, app: string, listing: Files, names: seq<string>,
                    shown: seq<Files>, whole: bool)
    ensures Removing(w0, w, app, names, shown, whole) ==> RemovedSoFar(w0, w, app, listing, names, shown, true, whole)
  {
  }

  lemma NoneShown(w: World, v: World, app: string, listing: Files, files: Files, log: seq<string>, ok: bool)
    ensures Unbacked(v, app) <= Unbacked(w, app) ==> FewLost(w, v, app, listing, ok)
    ensures AllSeen([], files, LastOf(log, 0))
  {
  }

  function LastOf(log: seq<string>, k: nat): seq<string> {
    if k <= |log| then log[|log| - k..] else log
  }

  lemma LastLogged(before: seq<string>, names: seq<string>)
    ensures LastOf(before + names, |names|) == names
  {
  }

  /** Files the listing does not have, each once. */
  ghost predicate SomeRemoved(names: seq<string>, listing: Files, files: Files) {
    Distinct(names) && forall n :: n in names ==> n in Removed(listing, files)
  }

  lemma NoneRemoved(log: seq<string>, listing: Files, files: Files)
    ensures SomeRemoved(LastOf(log, 0), listing, files)
  {
  }

  lemma FirstRemoved(c: Comparison, listing: Files, files: Files, k: nat)
    requires Compared(c, listing, files) && k <= |c.removed|
    ensures SomeRemoved(c.removed[..k], listing, files)
  {
    forall n | n in c.removed[..k] ensures n in Removed(listing, files) {
      assert n in c.removed;
    }
  }

  /** The files once those names have the hash of the listing. */
  function Updated(files: Files, listing: Files, names: set<string>): Files {
    files + map n | n in listing && n in names :: listing[n]
  }

  lemma UpdatedIs(w: World, v: World, app: string, listing: Files, names: set<string>)
    requires Progress(w, v, app, listing, names) && Reached(v, app, listing, names) && names <= listing.Keys
    ensures Dev(v, app) == Updated(Dev(w, app), listing, names)
  {
    forall n ensures Look(Dev(v, app), n) == Look(Updated(Dev(w, app), listing, names), n) {
      assert n !in names ==> Look(Dev(v, app), n) == Look(Dev(w, app), n);
    }
    SameFiles(Dev(v, app), Updated(Dev(w, app), listing, names));
  }

  lemma UpdatedTwice(files: Files, listing: Files, fetched: Files, c: Comparison)
    requires Compared(c, listing, fetched)
    ensures Updated(Updated(files, listing, Elems(c.added)), listing, Elems(c.changed))
         == Updated(files, listing, Added(listing, fetched) + Changed(listing, fetched))
  {
    assert Elems(c.added) == Added(listing, fetched) && Elems(c.changed) == Changed(listing, fetched);
  }

  /** Every removal of a push was shown a sharer if there was one; the names it removed are the
      last ones of the log, and the rows were by then updated to the listing. */
  ghost predicate SawSharers(shown: seq<Files>, before: Files, listing: Files, fetched: Files, log: seq<string>) {
    AllSeen(shown, Updated(before, listing, Added(listing, fetched) + Changed(listing, fetched)), LastOf(log, |shown|))
  }

  /** At most one file more, and that is not a file of the listing. */
  ghost predicate OneMore(now: set<string>, before: set<string>, listing: Files) {
    now <= before || exists n :: n !in listing && now <= before + {n}
  }

  lemma OneMoreWith(now: set<string>, mid: set<string>, before: set<string>, listing: Files, name: string)
    ensures name !in listing && now <= mid + {name} && mid <= before ==> OneMore(now, before, listing)
  {
  }

  lemma FewLostFrom(w: World, m: World, v: World, app: string, listing: Files, ok: bool)
    requires Unbacked(m, app) <= Unbacked(w, app)
    ensures FewLost(m, v, app, listing, ok) ==> FewLost(w, v, app, listing, ok)
  {
    var now, mid, before := Unbacked(v, app), Unbacked(m, app), Unbacked(w, app);
    if OneMore(now, mid, listing) && !(now <= mid) {
      var n :| n !in listing && now <= mid + {n};
      assert now <= before + {n};
    }
  }

  lemma ChangedSent(a: Archive, files: Files, c: Comparison)
    requires Compared(c, a.listing, files)
    ensures ListingOk(a.listing) && Complete(a, files) ==>
      forall n :: n in c.changed || n in c.added ==> n in a.listing && a.listing[n] != "" && n in a.diffs
  {
    forall n | n in c.changed || n in c.added
      ensures Wanted(a.listing, files, n)
    {
      assert n in Changed(a.listing, files) || n in Added(a.listing, files);
    }
  }

  /** What is to be changed or removed is still there after the additions. */
  lemma RemovedThere(w: World, v: World, app: string, listing: Files, files: Files, c: Comparison)
    requires Compared(c, listing, files) && SomeOf(files, Dev(w, app))
    requires forall n :: n !in Elems(c.added) && n in Dev(w, app) ==> n in Dev(v, app)
    ensures forall n :: n in c.changed || n in c.removed ==> n in Dev(v, app)
    ensures forall n :: n in c.removed ==> n !in listing && n !in Elems(c.changed)
  {
    forall n | n in c.changed || n in c.removed
      ensures n in Dev(v, app) && (n in c.removed ==> n !in listing && n !in Elems(c.changed))
    {
      assert n in Changed(listing, files) || n in Removed(listing, files);
      assert n in files && n !in Added(listing, files);
    }
  }

  /** c is the comparison of the listing with these files. */
  ghost predicate Compared(c: Comparison, listing: Files, files: Files) {
    && Lists(c.added, Added(listing, files))
    && Lists(c.changed, Changed(listing, files))
    && Lists(c.removed, Removed(listing, files))
  }

  lemma AddedNew(c: Comparison, listing: Files, files: Files)
    requires Compared(c, listing, files)
    ensures forall n :: n in c.added ==> n !in files
  {
    assert forall n :: n in c.added ==> n in Added(listing, files);
  }

  function Names(c: Comparison): set<string> {
    Elems(c.added) + (Elems(c.changed) + Elems(c.removed))
  }

  lemma NamesWithin(c: Comparison, listing: Files, files: Files, all: Files)
    ensures Compared(c, listing, files) && SomeOf(files, all) ==> Names(c) <= all.Keys + listing.Keys
  {
  }

  lemma ProgressWider(w: World, v: World, app: string, target: Files, a: set<string>, b: set<string>)
    ensures Progress(w, v, app, target, a) && a <= b ==> Progress(w, v, app, target, b)
  {
  }

  lemma OthersKeep(w: World, v: World, app: string, target: Files, names: set<string>)
    requires Progress(w, v, app, target, names)
    ensures forall n :: n !in names && n in Dev(w, app) ==> n in Dev(v, app)
  {
    forall n | n !in names && n in Dev(w, app)
      ensures n in Dev(v, app)
    {
      assert Look(Dev(v, app), n) == Look(Dev(w, app), n);
    }
  }

  lemma SameFiles(f: Files, g: Files)
    requires forall n :: Look(f, n) == Look(g, n)
    ensures f == g
  {
    assert forall n :: n in f ==> Look(f, n) == Look(g, n);
    assert forall n :: n in g ==> Look(f, n) == Look(g, n);
  }

  /** Where one file ends up when all was added, changed and removed as the comparison with
      `files` says. */
  lemma ReconcileAt(w: World, v: World, app: string, listing: Files, files: Files, c: Comparison, n: string)
    requires Compared(c, listing, files) && SomeOf(files, Dev(w, app))
    requires Progress(w, v, app, listing, Names(c)) && Reached(v, app, listing, Names(c))
    requires n in c.added ==> n !in Dev(w, app)
    ensures Look(Dev(v, app), n) == Look((Dev(w, app) - files.Keys) + listing, n)
    ensures n in Dev(w, app) && n !in files ==> n !in listing
  {
    assert n in Names(c) <==> n in Added(listing, files) + Changed(listing, files) + Removed(listing, files);
    assert n !in Names(c) ==> Look(Dev(v, app), n) == Look(Dev(w, app), n);
  }

  /** Everything added, changed and removed as the comparison with `files` says: the rows that
      were not among those files stay beside the listing. */
  lemma ReconcileResult(w: World, v: World, app: string, listing: Files, files: Files, c: Comparison)
    requires Compared(c, listing, files) && SomeOf(files, Dev(w, app))
    requires Progress(w, v, app, listing, Names(c)) && Reached(v, app, listing, Names(c))
    requires forall n :: n in c.added ==> n !in Dev(w, app)
    ensures (Dev(w, app) - files.Keys).Keys !! listing.Keys
    ensures Dev(v, app) == (Dev(w, app) - files.Keys) + listing
  {
    forall n
      ensures Look(Dev(v, app), n) == Look((Dev(w, app) - files.Keys) + listing, n)
      ensures n in Dev(w, app) && n !in files ==> n !in listing
    {
      ReconcileAt(w, v, app, listing, files, c, n);
    }
    SameFiles(Dev(v, app), (Dev(w, app) - files.Keys) + listing);
  }

  /** That is the listing alone exactly when there were none. */
  lemma ListingOnly(all: Files, files: Files, listing: Files)
    requires SomeOf(files, all) && (all - files.Keys).Keys !! listing.Keys
    ensures (all - files.Keys) + listing == listing <==> files == all
  {
    if n :| n in all && n !in files {
      assert n in (all - files.Keys) + listing && n !in listing;
    } else {
      assert all - files.Keys == map[];
    }
  }

  lemma ListsEmpty(s: seq<string>, names: set<string>)
    requires Lists(s, names)
    ensures s == [] <==> names == {}
  {
    if s != [] {
      assert s[0] in names;
    }
  }

  lemma DirtyMeaning(listing: Files, files: Files, c: Comparison)
    requires Compared(c, listing, files)
    ensures c.added == [] && c.changed == [] && c.removed == [] <==> files == listing
  {
    ListsEmpty(c.added, Added(listing, files));
    ListsEmpty(c.changed, Changed(listing, files));
    ListsEmpty(c.removed, Removed(listing, files));
    if Added(listing, files) == {} && Changed(listing, files) == {} && Removed(listing, files) == {} {
      forall n
        ensures Look(files, n) == Look(listing, n)
      {
        assert n !in Added(listing, files) && n !in Changed(listing, files) && n !in Removed(listing, files);
      }
      SameFiles(files, listing);
    }
  }

  /** What was wanted but not sent cannot become wanted by a half-done push. */
  lemma CompleteStays(w: World, v: World, app: string, a: Archive, names: set<string>)
    requires Complete(a, Dev(w, app)) && Progress(w, v, app, a.listing, names)
    ensures Complete(a, Dev(v, app))
  {
    forall n | n in a.listing && Wanted(a.listing, Dev(v, app), n)
      ensures n in a.diffs
    {
      assert || Look(Dev(v, app), n) == Look(Dev(w, app), n)
             || (n in names && Look(Dev(v, app), n) == Look(a.listing, n));
    }
  }

  /** One push, from a world to a world. */
  method Push(H: Blob -> string, hasMemcache: bool, services: Services, w: World, app: string, archive: Archive)
    returns (ok: bool, v: World)
    requires NoSlash(app) && Honest(H, archive) && WorldOk(H, w)
    requires ListingOk(archive.listing) && Complete(archive, Dev(w, app))
    ensures WorldOk(H, v) && Complete(archive, Dev(v, app)) && Within(w, v, app, "")
    ensures services.dbRead == Never ==> OneMore(Unbacked(v, app), Unbacked(w, app), archive.listing)
    ensures services == WORKING ==> ok && Dev(v, app) == archive.listing && Unbacked(v, app) <= Unbacked(w, app)
  {
    var store := new Store(H, hasMemcache, services, w);
    var h := new PushHandler(store, app, archive);
    ghost var fetched, shown;
    ok, fetched, shown := h.Reconcile();
    v := World(store.rows, store.s3, store.mc);
    CompleteStays(w, v, app, archive, Dev(w, app).Keys + archive.listing.Keys);
  }

  /** Convergence: however often a push went wrong, and whatever went wrong with it, the same
      archive pushed again over services that work brings the rows to the listing. If only the
      reading of rows did not fail, no file is without its blob that was not before. */
  method PushRepeatedly(H: Blob -> string, hasMemcache: bool, failing: seq<Services>,
                        w: World, app: string, archive: Archive)
    returns (v: World)
    requires NoSlash(app) && Honest(H, archive) && WorldOk(H, w)
    requires ListingOk(archive.listing) && Complete(archive, Dev(w, app))
    ensures Dev(v, app) == archive.listing && Within(w, v, app, "")
    ensures (forall i :: 0 <= i < |failing| ==> failing[i].dbRead == Never) ==> Unbacked(v, app) <= Unbacked(w, app)
  {
    hide WorldOk, Within, Complete, Unbacked, Dev, Honest, OnlyUnlisted;
    v := w;
    NothingMore(w, app, archive.listing);
    var ok;
    for i := 0 to |failing|
      invariant WorldOk(H, v) && Complete(archive, Dev(v, app)) && Within(w, v, app, "")
      invariant (forall j :: 0 <= j < i ==> failing[j].dbRead == Never) ==>
        OnlyUnlisted(Unbacked(v, app), Unbacked(w, app), archive.listing)
    {
      ghost var u := v;
      ok, v := Push(H, hasMemcache, failing[i], v, app, archive);
      WithinTrans(w, u, v, app, "");
      UnlistedMore(Unbacked(v, app), Unbacked(u, app), Unbacked(w, app), archive.listing);
    }
    ghost var u := v;
    ok, v := Push(H, hasMemcache, WORKING, v, app, archive);
    WithinTrans(w, u, v, app, "");
    AllListed(v, app, archive.listing, Unbacked(u, app), Unbacked(w, app));
  }

  /** What is more is not of the listing. */
  ghost predicate OnlyUnlisted(now: set<string>, before: set<string>, listing: Files) {
    forall n :: n in now ==> n in before || n !in listing
  }

  lemma NothingMore(w: World, app: string, listing: Files)
    ensures Within(w, w, app, "") && OnlyUnlisted(Unbacked(w, app), Unbacked(w, app), listing)
  {
  }

  lemma AllListed(v: World, app: string, listing: Files, mid: set<string>, before: set<string>)
    ensures Dev(v, app) == listing && Unbacked(v, app) <= mid && OnlyUnlisted(mid, before, listing) ==>
      Unbacked(v, app) <= before
  {
  }

  lemma UnlistedMore(now: set<string>, mid: set<string>, before: set<string>, listing: Files)
    ensures OnlyUnlisted(mid, before, listing) && OneMore(now, mid, listing) ==> OnlyUnlisted(now, before, listing)
  {
  }

  // ---------------------------------------------------------------- two pushes that go wrong

  const NO_FILES: Files := map[]

  /** A world with one file; its blob may be missing. */
  function OneFile(app: string, name: string, hash: string, s3: map<string, Blob>): World {
    World(map[Row(app, "", name) := hash], s3, map[])
  }

  lemma OneFileOk(H: Blob -> string, app: string, name: string, hash: string, s3: map<string, Blob>)
    requires NoSlash(app) && IsHash(hash) && AllRight(H, s3)
    ensures WorldOk(H, OneFile(app, name, hash, s3)) && Dev(OneFile(app, name, hash, s3), app) == map[name := hash]
  {
    var none: map<Row, string> := map[];
    FilesOfPut(none, app, "", name, hash);
    assert FilesOf(none, app, "") == map[];
    assert none[Row(app, "", name) := hash] == map[Row(app, "", name) := hash];
  }

  lemma OnlyAdded(old_: string, new_: string, h: string, g: string, c: Comparison)
    ensures old_ != new_ && Compared(c, map[new_ := g], NO_FILES) ==>
      && (forall n :: n in c.added ==> n !in map[old_ := h])
      && (map[old_ := h] - NO_FILES.Keys) + map[new_ := g] == map[old_ := h, new_ := g]
  {
  }

  /** A push over a failed fetch: one old file, a listing of another one. The comparison is made
      with no files, everything it says is carried out, and the old row is still there. */
  method FetchFailureKeepsRow(H: Blob -> string, app: string, old_: string, new_: string, x: Blob, y: Blob)
    returns (store: Store)
    requires NoSlash(app) && old_ != new_ && !ParentPath(new_) && IsHash(H(x)) && IsHash(H(y))
    ensures Dev(store.W(), app) == map[old_ := H(x), new_ := H(y)] != map[new_ := H(y)]
  {
    var archive := Archive(map[new_ := H(y)], map[new_ := y]);
    OneFileOk(H, app, old_, H(x), map[]);
    store := new Store(H, false, WORKING, OneFile(app, old_, H(x), map[]));
    ghost var w0 := store.W();
    var h := new PushHandler(store, app, archive);
    assert IsHash(H(y)) ==> H(y) != "";
    var c := Compare(archive, NO_FILES);
    OnlyAdded(old_, new_, H(x), H(y), c.value);
    var ok, _ := h.Apply(c.value, NO_FILES);
    ReconcileResult(w0, store.W(), app, archive.listing, NO_FILES, c.value);
    assert old_ in map[old_ := H(x), new_ := H(y)];
  }

  lemma TwoFiles(H: Blob -> string, app: string, a: string, b: string, x: Blob)
    requires NoSlash(app) && a != b && IsHash(H(x))
    ensures var s3 := map[Prefixed(app, "", H(x)) := x];
            var w := OneFile(app, a, H(x), s3);
            var v := w.(rows := w.rows[Row(app, "", b) := H(x)]);
            && WorldOk(H, v) && Dev(v, app) == map[a := H(x), b := H(x)]
            && v.rows - {Row(app, "", b)} == w.rows && Dev(w, app) == map[a := H(x)]
  {
    var s3 := map[Prefixed(app, "", H(x)) := x];
    var w := OneFile(app, a, H(x), s3);
    RightAt(H, app, "", H(x), x);
    OneFileOk(H, app, a, H(x), s3);
    FilesOfPut(w.rows, app, "", b, H(x));
    assert Row(app, "", a) != Row(app, "", b);
  }

  /** A removal over a fetch that was cut short: two files with one content, only the one to be
      removed was fetched. It succeeds, and the other has lost its blob. */
  method CutFetchLosesBlob(H: Blob -> string, app: string, a: string, b: string, x: Blob)
    returns (store: Store, ok: bool)
    requires NoSlash(app) && a != b && IsHash(H(x))
    ensures ok && Dev(store.W(), app) == map[a := H(x)] && a in Unbacked(store.W(), app)
  {
    var key := Prefixed(app, "", H(x));
    var w := OneFile(app, a, H(x), map[key := x]);
    TwoFiles(H, app, a, b, x);
    store := new Store(H, false, WORKING, w.(rows := w.rows[Row(app, "", b) := H(x)]));
    var h := new PushHandler(store, app, Archive(map[a := H(x)], map[]));
    OnlyItself(b, H(x));
    ok := h.RemoveFetched(b, map[b := H(x)]);
    LostBlob(store.W(), w, app, a, H(x));
  }

  lemma OnlyItself(b: string, hash: string)
    ensures !ProtectHash(map[b := hash], b, hash)
  {
  }

  lemma LostBlob(v: World, w: World, app: string, a: string, hash: string)
    ensures v.rows == w.rows && Dev(w, app) == map[a := hash] && Prefixed(app, "", hash) !in v.s3 ==>
      Dev(v, app) == map[a := hash] && a in Unbacked(v, app)
  {
  }
}
