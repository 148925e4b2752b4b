/** The project directory the packager works in (FilesToTemp of utils.go): every file of a
    listing, from the archive or from the cache, written under its name. */
module BundlerTemp {
  import opened Basics
  import opened BundlerStore
  import opened BundlerPush
  import opened BundlerSubmit

  // ---------------------------------------------------------------- paths

  type Path = seq<string>

  /** A name split at its slashes. */
  function Parts(name: string): (r: seq<string>)
    ensures |r| >= 1
  {
    if name == [] then [[]]
    else if name[0] == '/' then [[]] + Parts(name[1..])
    else
      var r := Parts(name[1..]);
      [[name[0]] + r[0]] + r[1..]
  }

  /** Empty parts and "." are dropped, ".." takes the part before it away; the path does not
      lead out of the directory. */
  function Cleaned(done: Path, parts: seq<string>): Path
    decreases |parts|
  {
    if parts == [] then done
    else if parts[0] == "" || parts[0] == "." then Cleaned(done, parts[1..])
    else if parts[0] == ".." then Cleaned(if done == [] then [] else done[..|done| - 1], parts[1..])
    else Cleaned(done + [parts[0]], parts[1..])
  }

  /** `path.Join(d, name)`, below d. */
  function PathOf(name: string): Path {
    Cleaned([], Parts(name))
  }

  // ---------------------------------------------------------------- the file system

  /** The files of a directory; its sub-directories are those above its files. */
  type Dir = map<Path, Blob>

  /** No file is a directory of another one. */
  ghost predicate DirOk(dir: Dir) {
    [] !in dir && forall p, q :: p in dir && q in dir ==> !(p < q)
  }

  /** `MkdirAll` or `WriteFile` fails: the path is a directory, or it leads through a file. */
  predicate Blocked(dir: Dir, p: Path) {
    p == [] || exists q :: q in dir && (q < p || p < q)
  }

  /** `MkdirAll` and `WriteFile`, whose errors are dropped. */
  function Written(dir: Dir, p: Path, b: Blob): Dir {
    if Blocked(dir, p) then dir else dir[p := b]
  }

  lemma WrittenOk(dir: Dir, p: Path, b: Blob)
    ensures DirOk(dir) ==> DirOk(Written(dir, p, b))
  {
  }

  // ---------------------------------------------------------------- what can be written

  /** Every name has a path of its own: it is not the directory itself, not above or below
      another one, and the same as another one only if the content is the same. */
  predicate Placeable(files: Files) {
    && (forall n :: n in files ==> PathOf(n) != [])
    && (forall n, m :: n in files && m in files ==> !(PathOf(n) < PathOf(m)))
    && (forall n, m :: n in files && m in files && PathOf(n) == PathOf(m) ==> files[n] == files[m])
  }

  /** Under the path of each of the names is the content of its hash. */
  ghost predicate Holds(H: Blob -> string, files: Files, names: set<string>, dir: Dir) {
    forall n :: n in names && n in files ==> PathOf(n) in dir && H(dir[PathOf(n)]) == files[n]
  }

  /** There are no files but those. */
  ghost predicate NoOthers(files: Files, names: set<string>, dir: Dir) {
    forall p :: p in dir ==> exists n :: n in names && n in files && PathOf(n) == p
  }

  /** A directory that holds all files says that they were placeable. */
  lemma HoldsOnlyPlaceable(H: Blob -> string, files: Files, dir: Dir)
    requires DirOk(dir) && Holds(H, files, files.Keys, dir)
    ensures Placeable(files)
  {
  }

  lemma NotBlocked(files: Files, names: set<string>, dir: Dir, name: string)
    requires Placeable(files) && NoOthers(files, names, dir) && name in files
    ensures !Blocked(dir, PathOf(name))
  {
    forall q | q in dir ensures !(q < PathOf(name)) && !(PathOf(name) < q) {
      var n :| n in names && n in files && PathOf(n) == q;
    }
  }

  lemma StillNoOthers(files: Files, names: set<string>, dir: Dir, name: string, b: Blob)
    requires name in files && NoOthers(files, names, dir)
    ensures NoOthers(files, names + {name}, Written(dir, PathOf(name), b))
  {
    var now := Written(dir, PathOf(name), b);
    forall p | p in now ensures exists n :: n in names + {name} && n in files && PathOf(n) == p {
      if p in dir {
        var n :| n in names && n in files && PathOf(n) == p;
        assert n in names + {name};
      } else {
        assert name in names + {name};
      }
    }
  }

  /** Writing one more file, of placeable ones. */
  lemma OneMoreFile(H: Blob -> string, files: Files, names: set<string>, dir: Dir, name: string, b: Blob)
    requires name in files && H(b) == files[name] && NoOthers(files, names, dir)
    requires Placeable(files) && Holds(H, files, names, dir)
    ensures Holds(H, files, names + {name}, Written(dir, PathOf(name), b))
  {
    NotBlocked(files, names, dir, name);
  }

  // ---------------------------------------------------------------- FilesToTemp

  /** The content of one file: from the archive if it has the name, else from the cache. */
  method Content(store: Store, name: string, hash: string, diffs: Option<map<string, Blob>>, app: string, sub: string)
    returns (b: Option<Blob>)
    requires NoSlash(app) && NoSlash(sub) && WorldOk(store.H, store.W()) && IsHash(hash)
    requires diffs.Some? && name in diffs.value ==> store.H(diffs.value[name]) == hash
    modifies store`mc
    ensures WorldOk(store.H, store.W())
    ensures b.Some? ==> store.H(b.value) == hash
    ensures store.Reliable() && Prefixed(app, sub, hash) in store.s3 ==> b.Some?
  {
    if diffs.Some? && name in diffs.value {
      b := Some(diffs.value[name]);
    } else {
      b := store.Get(app, sub, hash);
      assert b.Some? ==> Right(store.H, Prefixed(app, sub, hash), b.value);
      assert AllRight(store.H, store.mc);
    }
  }

  /** What has been written of the files, but for those still to do. */
  ghost predicate Writing(H: Blob -> string, files: Files, todo: set<string>, dir: Dir) {
    && DirOk(dir) && NoOthers(files, files.Keys - todo, dir)
    && (Placeable(files) ==> Holds(H, files, files.Keys - todo, dir))
  }

  lemma WritingStep(H: Blob -> string, files: Files, todo: set<string>, dir: Dir, name: string, b: Blob)
    requires Writing(H, files, todo, dir) && name in todo && name in files && H(b) == files[name]
    ensures Writing(H, files, todo - {name}, Written(dir, PathOf(name), b))
  {
    WrittenOk(dir, PathOf(name), b);
    StillNoOthers(files, files.Keys - todo, dir, name, b);
    if Placeable(files) {
      OneMoreFile(H, files, files.Keys - todo, dir, name, b);
    }
    assert (files.Keys - todo) + {name} == files.Keys - (todo - {name});
  }

  /** `FilesToTemp`: writing is not checked, so it succeeds whenever all contents are there. The
      directory then has the content of every file if and only if the names are placeable. */
  method FilesToTemp(store: Store, files: Files, diffs: Option<map<string, Blob>>, app: string, sub: string)
    returns (r: Option<Dir>)
    requires NoSlash(app) && NoSlash(sub) && WorldOk(store.H, store.W())
    requires forall n :: n in files ==> IsHash(files[n])
    requires diffs.Some? ==> forall n :: n in files && n in diffs.value ==> store.H(diffs.value[n]) == files[n]
    modifies store`mc
    ensures WorldOk(store.H, store.W())
    ensures r.Some? ==> DirOk(r.value) && NoOthers(files, files.Keys, r.value)
    ensures r.Some? ==> (Holds(store.H, files, files.Keys, r.value) <==> Placeable(files))
    ensures store.Reliable() && Copied(store.s3, app, sub, files, files.Keys) ==> r.Some?
  {
    var dir: Dir := map[];
    var todo := files.Keys;
    while todo != {}
      invariant todo <= files.Keys && WorldOk(store.H, store.W()) && Writing(store.H, files, todo, dir)
      decreases |todo|
    {
      var name := Any(todo);
      var b := Content(store, name, files[name], diffs, app, sub);
      if b.None? {
        return None;
      }
      WritingStep(store.H, files, todo, dir, name, b.value);
      dir := Written(dir, PathOf(name), b.value);
      todo := todo - {name};
    }
    assert files.Keys - {} == files.Keys;
    if Holds(store.H, files, files.Keys, dir) {
      HoldsOnlyPlaceable(store.H, files, dir);
    }
    r := Some(dir);
  }

  /** Two directories that hold the same files, and no others, are the same. */
  lemma SameDirectory(H: Blob -> string, files: Files, d: Dir, e: Dir)
    requires Injective(H)
    requires Holds(H, files, files.Keys, d) && NoOthers(files, files.Keys, d)
    requires Holds(H, files, files.Keys, e) && NoOthers(files, files.Keys, e)
    ensures d == e
  {
    forall p | p in d || p in e ensures p in d && p in e && d[p] == e[p] {
      var n :| n in files.Keys && n in files && PathOf(n) == p;
    }
  }

  /** With an archive and without: whatever the stores do, two directories that are built are
      the same. Over stores that work and have the blobs, both are built. */
  method BuildTwice(store: Store, files: Files, diffs: map<string, Blob>, app: string)
    returns (with: Option<Dir>, without: Option<Dir>)
    requires NoSlash(app) && WorldOk(store.H, store.W()) && Injective(store.H)
    requires forall n :: n in files ==> IsHash(files[n])
    requires forall n :: n in files && n in diffs ==> store.H(diffs[n]) == files[n]
    requires Placeable(files)
    modifies store`mc
    ensures with.Some? ==> Holds(store.H, files, files.Keys, with.value)
    ensures with.Some? && without.Some? ==> with == without
    ensures store.Reliable() && Copied(store.s3, app, "", files, files.Keys) ==> with.Some? && without.Some?
  {
    with := FilesToTemp(store, files, Some(diffs), app, "");
    without := FilesToTemp(store, files, None, app, "");
    if with.Some? && without.Some? {
      SameDirectory(store.H, files, with.value, without.value);
    }
  }

  lemma ListingHashes(H: Blob -> string, a: Archive)
    ensures Honest(H, a) && ListingOk(a.listing) ==>
      && (forall n :: n in a.listing ==> IsHash(a.listing[n]))
      && (forall n :: n in a.listing && n in a.diffs ==> H(a.diffs[n]) == a.listing[n])
  {
  }

  /** After a push over stores that work, with every blob present and names that are placeable,
      building the directory with the archive and without it succeeds and gives the same. */
  method BuildBothWays(store: Store, app: string, archive: Archive) returns (with: Option<Dir>, without: Option<Dir>)
    requires NoSlash(app) && Honest(store.H, archive) && WorldOk(store.H, store.W()) && Injective(store.H)
    requires store.Reliable() && ListingOk(archive.listing) && Complete(archive, Dev(store.W(), app))
    requires Unbacked(store.W(), app) == {} && Placeable(archive.listing)
    modifies store
    ensures with.Some? && with == without
    ensures Holds(store.H, archive.listing, archive.listing.Keys, with.value)
  {
    var h := new PushHandler(store, app, archive);
    var ok, _, _ := h.Reconcile();
    ListingHashes(store.H, archive);
    BackedIsCopied(store.W(), app);
    assert Unbacked(store.W(), app) == {};
    with, without := BuildTwice(store, archive.listing, archive.diffs, app);
  }

  // ---------------------------------------------------------------- names that are not

  lemma Blocks(dir: Dir, q: Path, p: Path)
    ensures q in dir && (q < p || p < q) ==> Blocked(dir, p)
  {
  }

  /** A file and a directory of one name: whichever is written first stays, the other is lost
      without an error, so what is built depends on the order of the map. */
  lemma OrderMatters(p: Path, q: Path, x: Blob, y: Blob)
    requires p != [] && p < q
    ensures Written(Written(map[], p, x), q, y) == map[p := x]
    ensures Written(Written(map[], q, y), p, x) == map[q := y]
  {
    var none: Dir := map[];
    assert !Blocked(none, p) && !Blocked(none, q);
    assert none[p := x] == map[p := x] && none[q := y] == map[q := y];
    Blocks(none[p := x], p, q);
    Blocks(none[q := y], q, p);
  }

  predicate Plain(a: string) {
    NoSlash(a) && a != "" && a != "." && a != ".."
  }

  lemma {:induction false} PartsPlain(a: string)
    requires NoSlash(a)
    ensures Parts(a) == [a]
  {
    if a != [] {
      PartsPlain(a[1..]);
      assert [a[0]] + a[1..] == a;
    }
  }

  lemma {:induction false} PartsSlash(a: string, rest: string)
    requires NoSlash(a)
    ensures Parts(a + "/" + rest) == [a] + Parts(rest)
  {
    var s := a + "/" + rest;
    if a == [] {
      assert s[1..] == rest;
    } else {
      PartsSlash(a[1..], rest);
      assert s[1..] == a[1..] + "/" + rest;
      assert [a[0]] + a[1..] == a;
    }
  }

  lemma CleanFirst(done: Path, a: string, rest: seq<string>)
    ensures ([a] + rest)[1..] == rest
    ensures Plain(a) ==> Cleaned(done, [a] + rest) == Cleaned(done + [a], rest)
    ensures a == "." ==> Cleaned(done, [a] + rest) == Cleaned(done, rest)
  {
  }

  /** Such names are any "a" beside "a/b"; and "a" and "./a" are one path. */
  lemma Colliding(a: string, b: string)
    requires Plain(a) && Plain(b)
    ensures PathOf(a) == PathOf("./" + a) == [a] && PathOf(a + "/" + b) == [a, b] && [a] < [a, b]
  {
    var none: Path := [];
    PartsPlain(a);
    PartsPlain(b);
    PartsSlash(a, b);
    PartsSlash(".", a);
    assert "./" + a == "." + "/" + a;
    CleanFirst(none, a, []);
    CleanFirst(none, ".", [a]);
    CleanFirst(none, a, [b]);
    CleanFirst([a], b, []);
    assert [a] + [] == [a] && [b] + [] == [b] && none + [a] == [a] && [a] + [b] == [a, b];
  }

  /** Parts joined with slashes. */
  function Slashed(parts: seq<string>): string
    requires parts != []
  {
    if |parts| == 1 then parts[0] else parts[0] + "/" + Slashed(parts[1..])
  }

  lemma {:induction false} PartsOfSlashed(parts: seq<string>)
    requires parts != [] && forall i :: 0 <= i < |parts| ==> NoSlash(parts[i])
    ensures Parts(Slashed(parts)) == parts
  {
    if |parts| == 1 {
      PartsPlain(parts[0]);
    } else {
      PartsOfSlashed(parts[1..]);
      PartsSlash(parts[0], Slashed(parts[1..]));
      assert [parts[0]] + parts[1..] == parts;
    }
  }

  lemma {:induction false} CleanedConcat(done: Path, a: seq<string>, b: seq<string>)
    ensures Cleaned(done, a + b) == Cleaned(Cleaned(done, a), b)
    decreases |a|
  {
    if a == [] {
      assert a + b == b;
    } else {
      var next := if a[0] == "" || a[0] == "." then done
                  else if a[0] == ".." then (if done == [] then [] else done[..|done| - 1])
                  else done + [a[0]];
      assert (a + b)[1..] == a[1..] + b;
      CleanedConcat(next, a[1..], b);
    }
  }

  /** The laws of clean paths: plain parts stay as they are, empty ones and "." do not matter
      wherever they are, and ".." takes the plain part before it away. */
  lemma {:induction false} CleanPaths(a: seq<string>, p: string, b: seq<string>)
    ensures (forall i :: 0 <= i < |a| ==> Plain(a[i])) ==> Cleaned([], a) == a
    ensures p == "" || p == "." ==> Cleaned([], a + ([p] + b)) == Cleaned([], a + b)
    ensures Plain(p) ==> Cleaned([], a + ([p, ".."] + b)) == Cleaned([], a + b)
    decreases |a|
  {
    hide Cleaned;
    if forall i :: 0 <= i < |a| ==> Plain(a[i]) {
      PlainStays([], a);
    }
    CleanedConcat([], a, b);
    CleanedConcat([], a, [p] + b);
    CleanedConcat([], a, [p, ".."] + b);
    OneCleaned(Cleaned([], a), p, b);
  }

  lemma OneCleaned(done: Path, p: string, b: seq<string>)
    ensures p == "" || p == "." ==> Cleaned(done, [p] + b) == Cleaned(done, b)
    ensures Plain(p) ==> Cleaned(done, [p, ".."] + b) == Cleaned(done, b)
  {
    CleanFirst(done, p, b);
    if p == "" {
      assert ([p] + b)[0] == "";
    }
    if Plain(p) {
      assert [p, ".."] + b == [p] + ([".."] + b);
      CleanFirst(done, p, [".."] + b);
      assert ([".."] + b)[1..] == b && (done + [p])[..|done|] == done;
    }
  }

  lemma {:induction false} PlainStays(done: Path, a: seq<string>)
    requires forall i :: 0 <= i < |a| ==> Plain(a[i])
    ensures Cleaned(done, a) == done + a
    decreases |a|
  {
    if a == [] {
      assert done + a == done;
    } else {
      PlainStays(done + [a[0]], a[1..]);
      assert done + [a[0]] + a[1..] == done + a;
    }
  }

  /** A step up takes the part before it away; at the top there is nothing to take. */
  lemma StepUp(a: string, b: string)
    requires Plain(a) && Plain(b)
    ensures PathOf(a + "/" + ("../" + b)) == [b] && PathOf("../" + b) == [b]
  {
    var none: Path := [];
    PartsPlain(b);
    PartsSlash("..", b);
    assert "../" + b == ".." + "/" + b;
    PartsSlash(a, "../" + b);
    CleanFirst(none, a, [".."] + [b]);
    assert none + [a] == [a] && [a][..0] == none;
    assert ([".."] + [b])[1..] == [b];
    CleanFirst(none, b, []);
    assert [b] + [] == [b] && none + [b] == [b];
    assert Cleaned([a], [".."] + [b]) == Cleaned(none, [b]);
    assert Cleaned(none, [".."] + [b]) == Cleaned(none, [b]);
  }

  /** So no directory holds a listing with both. */
  lemma NeverBoth(a: string, b: string, files: Files)
    requires Plain(a) && Plain(b) && a in files && a + "/" + b in files
    ensures !Placeable(files)
  {
    Colliding(a, b);
    assert PathOf(a) < PathOf(a + "/" + b);
  }
}
