/** A submission: the development files of an app are copied under a submission id
    (submit.go, MakeSnapshot of db.go). */
module BundlerSubmit {
  import opened Basics
  import opened BundlerStore
  import opened BundlerPush

  const METADATA_NAME := "Siphonfile"

  ghost predicate Injective(H: Blob -> string) {
    forall a, b :: H(a) == H(b) ==> a == b
  }

  /** `SubmissionExists`: any row of any app with this submission id. */
  predicate HasSubmission(rows: map<Row, string>, sub: string) {
    exists r :: r in rows && r.sub == sub
  }

  /** `AppExists`: any row, development or submitted. */
  predicate HasApp(rows: map<Row, string>, app: string) {
    exists r :: r in rows && r.app == app
  }

  /** The blobs of these files are in S3 under the given prefix. */
  ghost predicate Copied(s3: map<string, Blob>, app: string, sub: string, files: Files, names: set<string>) {
    forall n :: n in names && n in files ==> Prefixed(app, sub, files[n]) in s3
  }

  /** From a to b, S3 has under this prefix no blob more than those of the given hashes. */
  ghost predicate AddsOnly(a: map<string, Blob>, b: map<string, Blob>, app: string, sub: string, hashes: set<string>) {
    && (forall k :: k in a ==> k in b)
    && (forall h :: IsHash(h) && Prefixed(app, sub, h) in b ==> Prefixed(app, sub, h) in a || h in hashes)
  }

  lemma AddsOne(a: map<string, Blob>, b: map<string, Blob>, c: map<string, Blob>, app: string, sub: string,
                hashes: set<string>, key: string)
    requires NoSlash(app) && NoSlash(sub) && NoSlash(key) && (IsHash(key) ==> key in hashes)
    requires AddsOnly(a, b, app, sub, hashes)
    requires forall k :: k in b ==> k in c
    requires forall k :: k in c ==> k in b || k == Prefixed(app, sub, key)
    ensures AddsOnly(a, c, app, sub, hashes)
  {
    forall h | IsHash(h) && Prefixed(app, sub, h) in c ensures Prefixed(app, sub, h) in a || h in hashes {
      if Prefixed(app, sub, h) !in b {
        PrefixedInjective(app, sub, h, app, sub, key);
      }
    }
  }

  // ---------------------------------------------------------------- bundle footers

  predicate Platform(p: string) {
    p == "ios" || p == "android"
  }

  /** `handle` takes a missing platform for iOS. */
  function Chosen(platform: string): string {
    if platform == "" then "ios" else platform
  }

  /** `BundleFooterFile`. */
  function FooterFile(platform: string): string {
    "bundle-footer-" + platform
  }

  /** Where `makeBundleFooter` puts the footer. */
  function FooterKey(platform: string): string {
    if platform == "ios" then FooterFile(platform) else "bundle-footer"
  }

  /** The submission's footer is in S3: that of iOS under its own name, that of Android under the
      old one. */
  ghost predicate FooterIs(s3: map<string, Blob>, app: string, sub: string, platform: string, footer: Blob) {
    && (platform == "ios" ==> Stored(s3, Prefixed(app, sub, "bundle-footer-ios"), footer))
    && (platform == "android" ==> Stored(s3, Prefixed(app, sub, "bundle-footer"), footer))
  }

  predicate Stored(s3: map<string, Blob>, k: string, b: Blob) {
    k in s3 && s3[k] == b
  }

  predicate SameAt(a: map<string, Blob>, b: map<string, Blob>, k: string) {
    (k in a <==> k in b) && (k in a ==> a[k] == b[k])
  }

  /** From a to b no footer of the submission has changed but perhaps one. */
  ghost predicate FootersKept(a: map<string, Blob>, b: map<string, Blob>, app: string, sub: string, but: string) {
    forall key :: NoSlash(key) && IsFooter(key) && key != but ==> SameAt(a, b, Prefixed(app, sub, key))
  }

  /** ... and that one is the platform's, and there now. */
  ghost predicate FooterSet(a: map<string, Blob>, b: map<string, Blob>, app: string, sub: string,
                            platform: string, footer: Blob) {
    FooterIs(b, app, sub, platform, footer) && FootersKept(a, b, app, sub, FooterKey(platform))
  }

  lemma FooterNames()
    ensures FooterFile("ios") == "bundle-footer-ios" && FooterFile("android") == "bundle-footer-android"
    ensures FooterKey("ios") == "bundle-footer-ios" && FooterKey("android") == "bundle-footer"
    ensures forall p :: NoSlash(p) ==> NoSlash(FooterKey(p)) && NoSlash(FooterFile(p))
    ensures forall p :: IsFooter(FooterKey(p)) && IsFooter(FooterFile(p))
  {
    assert "bundle-footer-" + "ios" == "bundle-footer-ios";
    assert "bundle-footer-" + "android" == "bundle-footer-android";
    forall p ensures IsFooter("bundle-footer-" + p) {
      assert ("bundle-footer-" + p)[..|"bundle-footer"|] == "bundle-footer";
    }
  }

  lemma OnePut(a: map<string, Blob>, b: map<string, Blob>, app: string, sub: string, key: string, blob: Blob)
    requires NoSlash(app) && NoSlash(sub) && NoSlash(key)
    requires b == a || b == a[Prefixed(app, sub, key) := blob]
    ensures FootersKept(a, b, app, sub, key) && (IsHash(key) ==> FootersKept(a, b, app, sub, ""))
  {
    forall k | NoSlash(k) && k != key ensures Prefixed(app, sub, k) != Prefixed(app, sub, key) {
      if Prefixed(app, sub, k) == Prefixed(app, sub, key) {
        PrefixedInjective(app, sub, k, app, sub, key);
      }
    }
  }

  lemma KeptTrans(a: map<string, Blob>, b: map<string, Blob>, c: map<string, Blob>, app: string, sub: string,
                  but: string)
    ensures FootersKept(a, b, app, sub, "") && FootersKept(b, c, app, sub, but) ==> FootersKept(a, c, app, sub, but)
  {
  }

  /** The rows of a snapshot that have their blob: exactly those whose hash was fetched for
      copying, or was there before. */
  ghost predicate BlobsCame(before: map<string, Blob>, now: map<string, Blob>, app: string, sub: string,
                            snap: Files, copied: Files) {
    forall n :: n in snap ==>
      (Prefixed(app, sub, snap[n]) in now <==> Prefixed(app, sub, snap[n]) in before || snap[n] in copied.Values)
  }

  lemma CameExactly(before: map<string, Blob>, now: map<string, Blob>, app: string, sub: string,
                    snap: Files, copied: Files)
    requires AddsOnly(before, now, app, sub, copied.Values) && Copied(now, app, sub, copied, copied.Keys)
    requires forall n :: n in snap ==> IsHash(snap[n])
    ensures BlobsCame(before, now, app, sub, snap, copied)
  {
    forall n | n in snap
      ensures Prefixed(app, sub, snap[n]) in now
              <==> Prefixed(app, sub, snap[n]) in before || snap[n] in copied.Values
    {
      if snap[n] in copied.Values {
        var m :| m in copied && copied[m] == snap[n];
      }
    }
  }

  /** What `GetFiles` showed in a submit: first for copying, third for the snapshot. */
  predicate Showed(before: seq<Files>, now: seq<Files>, copied: Files, snap: Files) {
    && before <= now && |now| <= |before| + 3
    && copied == ShownAt(now, |before|) && snap == ShownAt(now, |before| + 2)
  }

  function ShownAt(trace: seq<Files>, i: nat): Files {
    if i < |trace| then trace[i] else map[]
  }

  lemma HashOf(w: World, app: string, files: Files, name: string)
    requires RowsOk(w.rows) && SomeOf(files, Dev(w, app)) && name in files
    ensures IsHash(files[name])
  {
    FilesOfAt(w.rows, app, "", name);
  }

  lemma CopiedMore(s: map<string, Blob>, t: map<string, Blob>, app: string, sub: string,
                   files: Files, names: set<string>, name: string)
    requires Copied(s, app, sub, files, names) && name in files && Prefixed(app, sub, files[name]) in t
    requires forall k :: k in s ==> k in t
    ensures Copied(t, app, sub, files, names + {name})
  {
  }

  lemma WithinPut(w: World, v: World, app: string, sub: string, key: string, b: Blob)
    ensures NoSlash(key) && v.rows == w.rows && (v.s3 == w.s3 || v.s3 == w.s3[Prefixed(app, sub, key) := b]) ==>
      Within(w, v, app, sub)
  {
  }

  lemma RowsWithinPut(a: map<Row, string>, b: map<Row, string>, c: map<Row, string>,
                      app: string, sub: string, name: string, hash: string)
    ensures RowsWithin(a, b, app, sub) && (c == b || c == b[Row(app, sub, name) := hash]) ==>
      RowsWithin(a, c, app, sub)
  {
  }

  lemma WithinRow(w: World, v: World, app: string, sub: string, name: string, hash: string)
    ensures v.s3 == w.s3 && (v.rows == w.rows || v.rows == w.rows[Row(app, sub, name) := hash]) ==>
      Within(w, v, app, sub)
  {
  }

  /** The development blobs of an app are not touched by what happens in a submission. */
  lemma DevKeysKept(w: World, v: World, app: string, sub: string, hash: string)
    requires NoSlash(app) && NoSlash(sub) && sub != "" && NoSlash(hash) && Within(w, v, app, sub)
    ensures Prefixed(app, "", hash) in w.s3 <==> Prefixed(app, "", hash) in v.s3
  {
    var k := Prefixed(app, "", hash);
    forall l | NoSlash(l) ensures k != Prefixed(app, sub, l) {
      if k == Prefixed(app, sub, l) {
        PrefixedInjective(app, "", hash, app, sub, l);
      }
    }
  }

  class SubmitHandler {
    const store: Store
    const app: string
    const sub: string

    constructor (store: Store, app: string, sub: string)
      ensures this.store == store && this.app == app && this.sub == sub
    {
      this.store := store;
      this.app := app;
      this.sub := sub;
    }

    ghost predicate Sound()
      reads store
    {
      NoSlash(app) && NoSlash(sub) && WorldOk(store.H, store.W())
    }

    /** One round of `copyFiles`: out of the development cache, into the submission's. */
    method CopyOne(hash: string) returns (ok: bool)
      requires Sound() && IsHash(hash)
      modifies store`s3, store`mc
      ensures Sound() && Within(old(store.W()), store.W(), app, sub)
      ensures forall k :: k in old(store.s3) ==> k in store.s3
      ensures forall k :: k in store.s3 ==> k in old(store.s3) || k == Prefixed(app, sub, hash)
      ensures FootersKept(old(store.s3), store.s3, app, sub, "")
      ensures ok ==> Prefixed(app, sub, hash) in store.s3
      ensures store.Reliable() && old(store.InStep()) ==>
        store.InStep() && (ok <==> Prefixed(app, "", hash) in old(store.s3))
    {
      ghost var w0 := store.W();
      var b := store.Get(app, "", hash);
      assert AllRight(store.H, store.mc);
      if b.None? {
        WithinPut(w0, store.W(), app, sub, hash, "");
        OnePut(w0.s3, store.s3, app, sub, hash, "");
        return false;
      }
      assert store.H(b.value) == hash;
      RightAt(store.H, app, sub, hash, b.value);
      ghost var w1 := store.W();
      ok := store.Set(app, sub, hash, b.value);
      OnePut(w1.s3, store.s3, app, sub, hash, b.value);
      RightPut(store.H, w1.s3, store.s3, Prefixed(app, sub, hash), b.value);
      RightPut(store.H, w1.mc, store.mc, Prefixed(app, sub, hash), b.value);
      WithinPut(w0, store.W(), app, sub, hash, b.value);
    }

    /** The blobs of `done` are copied, out of the world w0. */
    ghost predicate Copying(w0: World, files: Files, done: set<string>)
      reads store
    {
      && Sound() && Within(w0, store.W(), app, sub) && store.rows == w0.rows
      && Copied(store.s3, app, sub, files, done) && AddsOnly(w0.s3, store.s3, app, sub, files.Values)
      && FootersKept(w0.s3, store.s3, app, sub, "")
    }

    /** Without faults, the blobs of `done` were there to be copied. */
    ghost predicate Clean(faultless: bool, w0: World, files: Files, done: set<string>)
      reads store
    {
      faultless ==> store.Reliable() && store.InStep() && Copied(w0.s3, app, "", files, done)
    }

    method CopyRound(name: string, files: Files, ghost faultless: bool, ghost w0: World, ghost todo: set<string>)
      returns (ok: bool)
      requires Copying(w0, files, files.Keys - todo) && Clean(faultless, w0, files, files.Keys - todo)
      requires sub != "" && name in todo && name in files && IsHash(files[name])
      modifies store`s3, store`mc
      ensures Copying(w0, files, {}) && Clean(faultless, w0, files, {})
      ensures var done := files.Keys - (todo - {name});
              ok ==> Copying(w0, files, done) && Clean(faultless, w0, files, done)
      ensures !ok && faultless ==> Prefixed(app, "", files[name]) !in w0.s3
    {
      ghost var w, done := store.W(), files.Keys - todo;
      DevKeysKept(w0, w, app, sub, files[name]);
      ok := CopyOne(files[name]);
      WithinTrans(w0, w, store.W(), app, sub);
      AddsOne(w0.s3, w.s3, store.s3, app, sub, files.Values, files[name]);
      KeptTrans(w0.s3, w.s3, store.s3, app, sub, "");
      assert done + {name} == files.Keys - (todo - {name});
      if ok {
        CopiedMore(w.s3, store.s3, app, sub, files, done, name);
        if faultless {
          CopiedMore(w0.s3, w0.s3, app, "", files, done, name);
        }
      }
    }

    /** The loop of `copyFiles`: every blob, in any order. */
    method CopyLoop(files: Files, ghost faultless: bool, ghost w0: World) returns (ok: bool)
      requires Copying(w0, files, {}) && Clean(faultless, w0, files, {})
      requires sub != "" && forall n :: n in files ==> IsHash(files[n])
      modifies store`s3, store`mc
      ensures Copying(w0, files, {}) && Clean(faultless, w0, files, {})
      ensures ok ==> Copying(w0, files, files.Keys) && Clean(faultless, w0, files, files.Keys)
      ensures !ok && faultless ==> exists n :: n in files && Prefixed(app, "", files[n]) !in w0.s3
    {
      var todo := files.Keys;
      ok := true;
      assert files.Keys - files.Keys == {};
      while todo != {}
        invariant todo <= files.Keys
        invariant Copying(w0, files, files.Keys - todo) && Clean(faultless, w0, files, files.Keys - todo)
        decreases |todo|
      {
        var name := Any(todo);
        ok := CopyRound(name, files, faultless, w0, todo);
        if !ok {
          return;
        }
        todo := todo - {name};
      }
      assert files.Keys - {} == files.Keys;
      ok := true;
    }

    /** `copyFiles` for the files that were fetched. */
    method CopyEach(files: Files) returns (ok: bool)
      requires Sound() && sub != "" && SomeOf(files, Dev(store.W(), app))
      modifies store`s3, store`mc
      ensures Sound() && Within(old(store.W()), store.W(), app, sub)
      ensures AddsOnly(old(store.s3), store.s3, app, sub, files.Values)
      ensures FootersKept(old(store.s3), store.s3, app, sub, "")
      ensures ok ==> Copied(store.s3, app, sub, files, files.Keys)
      ensures store.Reliable() && old(store.InStep()) ==>
        store.InStep() && (ok <==> Copied(old(store.s3), app, "", files, files.Keys))
    {
      ghost var w0 := store.W();
      WithinPut(w0, store.W(), app, sub, "", "");
      forall n | n in files ensures IsHash(files[n]) {
        HashOf(w0, app, files, n);
      }
      ok := CopyLoop(files, store.Reliable() && store.InStep(), w0);
    }

    /** `copyFiles`. */
    method CopyFiles() returns (ok: bool, ghost fetched: Files)
      requires Sound() && sub != ""
      modifies store`s3, store`mc, store`trace
      ensures store.trace == old(store.trace) + [fetched]
      ensures Sound() && Within(old(store.W()), store.W(), app, sub) && SomeOf(fetched, Dev(store.W(), app))
      ensures AddsOnly(old(store.s3), store.s3, app, sub, fetched.Values)
      ensures FootersKept(old(store.s3), store.s3, app, sub, "")
      ensures ok ==> Copied(store.s3, app, sub, fetched, fetched.Keys)
      ensures store.dbReads == Never ==> fetched == Dev(store.W(), app)
      ensures store.Reliable() && old(store.InStep()) ==>
        store.InStep() && (ok <==> old(Unbacked(store.W(), app)) == {})
    {
      ghost var w0 := store.W();
      var got, files := store.GetFiles(app, "");
      fetched := files;
      if !got {
        WithinPut(w0, store.W(), app, sub, "", "");
        return false, fetched;
      }
      ok := CopyEach(files);
      BackedIsCopied(w0, app);
    }

    /** `loadMetaData`: needs a Siphonfile row and its blob; `parses` says whether it is good. */
    method LoadMetadata(parses: bool) returns (ok: bool, ghost fetched: Files)
      requires Sound()
      modifies store`mc, store`trace
      ensures store.trace == old(store.trace) + [fetched]
      ensures Sound() && (ok ==> METADATA_NAME in Dev(store.W(), app) && parses)
      ensures old(store.InStep()) ==> store.InStep()
      ensures (var all := Dev(store.W(), app);
               store.Reliable() && (METADATA_NAME in all ==> Prefixed(app, sub, all[METADATA_NAME]) in store.s3)) ==>
        (ok <==> METADATA_NAME in Dev(store.W(), app) && parses)
    {
      var _, files := store.GetFiles(app, "");
      fetched := files;
      if METADATA_NAME !in files {
        return false, fetched;
      }
      var b := store.Get(app, sub, files[METADATA_NAME]);
      ok := parses && b.Some?;
    }

    /** `makeBundleFooter`: `packs` says whether the packager made one; it is stored by name, and
        success means that it is there. */
    method MakeFooter(platform: string, footer: Blob, packs: bool) returns (ok: bool)
      requires Sound()
      modifies store`s3, store`mc
      ensures Sound() && Within(old(store.W()), store.W(), app, sub)
      ensures AddsOnly(old(store.s3), store.s3, app, sub, {})
      ensures ok ==> packs && Platform(platform)
      ensures ok ==> FooterSet(old(store.s3), store.s3, app, sub, platform, footer)
      ensures !ok ==> FootersKept(old(store.s3), store.s3, app, sub, FooterKey(platform))
      ensures store.Reliable() ==> (ok <==> packs && Platform(platform))
    {
      ghost var w0 := store.W();
      FooterNames();
      if !packs || !Platform(platform) {
        WithinPut(w0, store.W(), app, sub, "", footer);
        return false;
      }
      var key := if platform == "ios" then FooterFile(platform) else "bundle-footer";
      RightAt(store.H, app, sub, key, footer);
      ok := store.Set(app, sub, key, footer);
      RightPut(store.H, w0.s3, store.s3, Prefixed(app, sub, key), footer);
      RightPut(store.H, w0.mc, store.mc, Prefixed(app, sub, key), footer);
      AddsOne(w0.s3, w0.s3, store.s3, app, sub, {}, key);
      OnePut(w0.s3, store.s3, app, sub, key, footer);
      WithinPut(w0, store.W(), app, sub, key, footer);
    }

    /** The loop of `MakeSnapshot` over the files that were fetched. */
    method SnapshotEach(files: Files) returns (ok: bool)
      requires NoSlash(app) && NoSlash(sub) && sub != "" && RowsOk(store.rows)
      requires FilesOf(store.rows, app, sub) == map[] && SomeOf(files, Dev(store.W(), app))
      modifies store`rows
      ensures SnapshotOutcome(old(store.rows), store.rows, app, sub, files, ok)
      ensures store.dbFaults == Never ==> ok
    {
      ghost var rows0 := store.rows;
      NothingLeft(files);
      SnapshotStart(rows0, app, sub, files);
      var todo := files.Keys;
      ok := true;
      while todo != {}
        invariant todo <= files.Keys && Snapshotting(rows0, store.rows, app, sub, files, todo)
        decreases |todo|
      {
        var name := Any(todo);
        ghost var rows := store.rows;
        NotYet(rows0, rows, app, sub, files, todo, name);
        ok := store.AddFile(app, sub, name, files[name]);
        SnapshotStep(rows0, rows, store.rows, app, sub, files, todo, name);
        if !ok {
          return;
        }
        todo := todo - {name};
      }
      SnapshotEnd(rows0, store.rows, app, sub, files, todo);
    }

    /** `MakeSnapshot`: a row under the submission id for every development row fetched. */
    method MakeSnapshot() returns (ok: bool, ghost fetched: Files)
      requires NoSlash(app) && NoSlash(sub) && sub != "" && RowsOk(store.rows)
      requires FilesOf(store.rows, app, sub) == map[]
      modifies store`rows, store`trace
      ensures store.trace == old(store.trace) + [fetched]
      ensures SomeOf(fetched, old(Dev(store.W(), app)))
      ensures SnapshotOutcome(old(store.rows), store.rows, app, sub, fetched, ok)
      ensures store.dbReads == Never ==> fetched == old(Dev(store.W(), app))
      ensures store.dbReads == Never && store.dbFaults == Never ==> ok
    {
      hide RowsOk, RowsWithin, FilesOf, SomeOf;
      var got, files := store.GetFiles(app, "");
      fetched := files;
      if !got {
        NothingLeft(files);
        SnapshotStart(store.rows, app, sub, files);
        SnapshotEnd(store.rows, store.rows, app, sub, files, {});
        return false, fetched;
      }
      ok := SnapshotEach(files);
    }

    /** `Submit` and `handle`. Success: the submission's rows are the development rows exactly
        if the fetch for the snapshot was whole, and a row has its blob exactly if its hash was
        among those fetched for copying (or the blob was there before). A submission id in use
        is refused and nothing changes; nothing outside (app, sub) changes in any case; no row
        is added without a Siphonfile. Over stores that work, rows are added exactly when all
        that a submission needs is there, and then it succeeds. */
    method Submit(platform: string, footer: Blob, handshake: bool, parses: bool, packs: bool)
      returns (ok: bool, ghost copied: Files, ghost snap: Files)
      requires Sound()
      modifies store
      ensures Sound() && SubmitStep(old(store.W()), store.W(), app, sub)
      ensures Showed(old(store.trace), store.trace, copied, snap)
      ensures SomeOf(copied, old(Dev(store.W(), app))) && SomeOf(snap, old(Dev(store.W(), app)))
      ensures Dev(store.W(), app) == old(Dev(store.W(), app))
      ensures ok || store.rows != old(store.rows) ==>
        && Admitted(old(store.W()), app, sub, platform, handshake && parses && packs)
        && Copied(store.s3, app, sub, copied, copied.Keys)
        && BlobsCame(old(store.s3), store.s3, app, sub, snap, copied)
        && SomeOf(FilesOf(store.rows, app, sub), snap)
        && FooterSet(old(store.s3), store.s3, app, sub, Chosen(platform), footer)
      ensures ok ==> FilesOf(store.rows, app, sub) == snap
      ensures ok ==> (FilesOf(store.rows, app, sub) == Dev(store.W(), app) <==> snap == Dev(store.W(), app))
      ensures ok && store.dbReads == Never ==> copied == Dev(store.W(), app) && snap == Dev(store.W(), app)
      ensures store.Reliable() && old(store.InStep()) ==>
        && (ok <==> Ready(old(store.W()), app, sub, platform, handshake && parses && packs))
        && (store.rows != old(store.rows) <==> ok)
    {
      hide FooterSet, BlobsCame, Copied, AllRight, RowsOk, RowsWithin, BlobsWithin, Unbacked;
      ghost var w0 := store.W();
      copied, snap := map[], map[];
      WithinRow(w0, w0, app, sub, "", "");
      if app == "" || sub == "" {
        return false, copied, snap;
      }
      var fails, _ := store.Fault(store.dbReads);
      if fails || HasSubmission(store.rows, sub) || !HasApp(store.rows, app) || !handshake {
        return false, copied, snap;
      }
      NoSubmission(store.rows, app, sub);
      ok, copied, snap := Handle(platform, footer, parses, packs);
    }

    /** The rest of `handle`, after the checks. */
    method Handle(platform: string, footer: Blob, parses: bool, packs: bool)
      returns (ok: bool, ghost copied: Files, ghost snap: Files)
      requires Sound() && app != "" && sub != "" && FilesOf(store.rows, app, sub) == map[]
      modifies store
      ensures Sound() && Within(old(store.W()), store.W(), app, sub)
      ensures Showed(old(store.trace), store.trace, copied, snap)
      ensures SomeOf(copied, old(Dev(store.W(), app))) && SomeOf(snap, old(Dev(store.W(), app)))
      ensures Dev(store.W(), app) == old(Dev(store.W(), app))
      ensures SomeOf(FilesOf(store.rows, app, sub), snap)
      ensures ok || store.rows != old(store.rows) ==>
        && METADATA_NAME in old(Dev(store.W(), app)) && Platform(Chosen(platform)) && parses && packs
        && FooterSet(old(store.s3), store.s3, app, sub, Chosen(platform), footer)
        && Copied(store.s3, app, sub, copied, copied.Keys)
        && BlobsCame(old(store.s3), store.s3, app, sub, snap, copied)
      ensures ok ==> FilesOf(store.rows, app, sub) == snap
      ensures ok && store.dbReads == Never ==> copied == Dev(store.W(), app) && snap == Dev(store.W(), app)
      ensures store.Reliable() && old(store.InStep()) ==>
        && (ok <==> old(Unbacked(store.W(), app)) == {} && METADATA_NAME in old(Dev(store.W(), app))
                    && Platform(Chosen(platform)) && parses && packs)
        && (store.rows != old(store.rows) <==> ok)
    {
      hide AllRight, RowsOk, FilesOf, Within, Unbacked, SomeOf, AddsOnly, BlobsCame, SnapshotOutcome;
      hide Showed, Copied, FooterSet;
      ghost var w0, t0 := store.W(), store.trace;
      snap := map[];
      NoneYet(t0, map[], w0, app, sub);
      ghost var meta;
      var chosen := if platform == "" then "ios" else platform;
      ok, copied, meta := Prepare(chosen, footer, parses, packs);
      ghost var w3 := store.W();
      if !ok {
        return;
      }
      ok, snap := MakeSnapshot();
      ShowedLast(t0, copied, meta, snap);
      HandleEnd(w0, w3, store.W(), app, sub, copied, snap, ok);
    }

    /** All of it but the snapshot. */
    method Prepare(platform: string, footer: Blob, parses: bool, packs: bool)
      returns (ok: bool, ghost copied: Files, ghost meta: Files)
      requires Sound() && sub != ""
      modifies store`s3, store`mc, store`trace
      ensures Sound() && Within(old(store.W()), store.W(), app, sub)
      ensures if ok then store.trace == old(store.trace) + [copied] + [meta]
              else Showed(old(store.trace), store.trace, copied, map[])
      ensures SomeOf(copied, Dev(store.W(), app))
      ensures ok ==> METADATA_NAME in Dev(store.W(), app) && Platform(platform) && parses && packs
      ensures ok ==>
        && AddsOnly(old(store.s3), store.s3, app, sub, copied.Values)
        && FooterSet(old(store.s3), store.s3, app, sub, platform, footer)
        && Copied(store.s3, app, sub, copied, copied.Keys)
      ensures store.dbReads == Never ==> copied == Dev(store.W(), app)
      ensures store.Reliable() && old(store.InStep()) ==>
        (ok <==> old(Unbacked(store.W(), app)) == {} && METADATA_NAME in Dev(store.W(), app)
                 && Platform(platform) && parses && packs)
    {
      hide WorldOk, FilesOf, RowsWithin, BlobsWithin, Unbacked, SomeOf, AddsOnly, Showed, FootersKept, FooterIs;
      ghost var w0, t0 := store.W(), store.trace;
      meta := map[];
      ok, copied := CopyFiles();
      NoneYet(t0, copied, w0, app, sub);
      if !ok {
        return;
      }
      ghost var s3 := store.s3;
      ok, meta := LoadMetadata(parses);
      ShowedNext(t0, copied, meta);
      if !ok {
        return;
      }
      ghost var w := store.W();
      ok := MakeFooter(platform, footer, packs);
      WithinTrans(w0, w, store.W(), app, sub);
      AddsMore(w0.s3, s3, store.s3, app, sub, copied);
      KeptTrans(w0.s3, s3, store.s3, app, sub, FooterKey(platform));
    }
  }

  lemma NoneYet(trace: seq<Files>, copied: Files, w: World, app: string, sub: string)
    ensures Showed(trace, trace + [copied], copied, map[]) && SomeOf(map[], Dev(w, app)) && SomeOf(map[], map[])
  {
  }

  lemma ShowedNext(trace: seq<Files>, copied: Files, meta: Files)
    ensures Showed(trace, trace + [copied] + [meta], copied, map[])
  {
  }

  lemma ShowedLast(trace: seq<Files>, copied: Files, meta: Files, snap: Files)
    ensures Showed(trace, trace + [copied] + [meta] + [snap], copied, snap)
  {
  }

  lemma AddsMore(a: map<string, Blob>, b: map<string, Blob>, c: map<string, Blob>, app: string, sub: string,
                 copied: Files)
    requires AddsOnly(a, b, app, sub, copied.Values) && AddsOnly(b, c, app, sub, {})
    ensures AddsOnly(a, c, app, sub, copied.Values)
    ensures Copied(b, app, sub, copied, copied.Keys) ==> Copied(c, app, sub, copied, copied.Keys)
  {
  }

  /** What the snapshot (w3 to v) makes of the copies (w0 to w3). */
  lemma HandleEnd(w0: World, w3: World, v: World, app: string, sub: string, copied: Files, snap: Files, ok: bool)
    requires RowsOk(w0.rows) && FilesOf(w0.rows, app, sub) == map[] && SomeOf(snap, Dev(w0, app))
    requires Within(w0, w3, app, sub) && w3.rows == w0.rows && v.s3 == w3.s3 && v.mc == w3.mc
    requires AddsOnly(w0.s3, w3.s3, app, sub, copied.Values) && Copied(w3.s3, app, sub, copied, copied.Keys)
    requires SnapshotOutcome(w3.rows, v.rows, app, sub, snap, ok)
    ensures Within(w0, v, app, sub) && Dev(v, app) == Dev(w0, app)
    ensures RowsOk(v.rows) && SomeOf(FilesOf(v.rows, app, sub), snap) && (ok ==> FilesOf(v.rows, app, sub) == snap)
    ensures BlobsCame(w0.s3, v.s3, app, sub, snap, copied)
    ensures ok && METADATA_NAME in snap ==> v.rows != w0.rows
  {
    SnapshotWithin(w0, w3, v, app, sub, snap, ok);
    HashesOf(w0, app, snap);
    CameExactly(w0.s3, w3.s3, app, sub, snap, copied);
  }

  lemma HashesOf(w: World, app: string, files: Files)
    requires RowsOk(w.rows) && SomeOf(files, Dev(w, app))
    ensures forall n :: n in files ==> IsHash(files[n])
  {
    forall n | n in files ensures IsHash(files[n]) {
      HashOf(w, app, files, n);
    }
  }

  /** What it takes to add rows: an id that no row of any app has, an app with a Siphonfile, and
      a client and packager that do their part. */
  predicate Admitted(w: World, app: string, sub: string, platform: string, others: bool) {
    && app != "" && sub != "" && !HasSubmission(w.rows, sub) && HasApp(w.rows, app)
    && METADATA_NAME in Dev(w, app) && Platform(Chosen(platform)) && others
  }

  /** What a submission needs: that, and the blobs of all files. */
  predicate Ready(w: World, app: string, sub: string, platform: string, others: bool) {
    Admitted(w, app, sub, platform, others) && Unbacked(w, app) == {}
  }

  lemma BackedIsCopied(w: World, app: string)
    ensures Unbacked(w, app) == {} <==> Copied(w.s3, app, "", Dev(w, app), Dev(w, app).Keys)
  {
    if Unbacked(w, app) == {} {
      forall n | n in Dev(w, app) ensures Prefixed(app, "", Dev(w, app)[n]) in w.s3 {
        assert n !in Unbacked(w, app);
      }
    } else {
      var n := AnyUnbacked(Unbacked(w, app));
    }
  }

  lemma AnyUnbacked(s: set<string>) returns (n: string)
    requires s != {}
    ensures n in s
  {
    n :| n in s;
  }

  lemma DevSame(w: World, v: World, app: string, sub: string)
    ensures v.rows == w.rows ==> Dev(v, app) == Dev(w, app)
  {
  }

  lemma NoSubmission(rows: map<Row, string>, app: string, sub: string)
    requires !HasSubmission(rows, sub)
    ensures FilesOf(rows, app, sub) == map[]
  {
    forall n
      ensures n !in FilesOf(rows, app, sub)
    {
      FilesOfAt(rows, app, sub, n);
    }
  }

  // ---------------------------------------------------------------- the rows of a snapshot

  /** On the way from `before`: all snapshot rows but those still to do are there. */
  ghost predicate Snapshotting(before: map<Row, string>, rows: map<Row, string>, app: string, sub: string,
                               files: Files, todo: set<string>) {
    && RowsOk(rows) && RowsWithin(before, rows, app, sub) && SomeOf(files, FilesOf(before, app, ""))
    && FilesOf(rows, app, "") == FilesOf(before, app, "") && FilesOf(rows, app, sub) == files - todo
  }

  /** What `MakeSnapshot` leaves: rows of the submission only, all of the files on success. */
  ghost predicate SnapshotOutcome(before: map<Row, string>, rows: map<Row, string>, app: string, sub: string,
                                  files: Files, ok: bool) {
    && RowsOk(rows) && RowsWithin(before, rows, app, sub)
    && FilesOf(rows, app, "") == FilesOf(before, app, "") && SomeOf(FilesOf(rows, app, sub), files)
    && (ok ==> FilesOf(rows, app, sub) == files)
  }

  lemma NothingLeft(f: Files)
    ensures f - f.Keys == map[] && f - {} == f
  {
  }

  lemma LeftSomeOf(f: Files, todo: set<string>)
    ensures SomeOf(f - todo, f)
  {
  }

  lemma LeftLess(f: Files, todo: set<string>, name: string)
    ensures name in todo && name in f ==> (f - todo)[name := f[name]] == f - (todo - {name})
  {
  }

  lemma SnapshotStart(rows: map<Row, string>, app: string, sub: string, files: Files)
    ensures RowsOk(rows) && FilesOf(rows, app, sub) == files - files.Keys && SomeOf(files, FilesOf(rows, app, "")) ==>
      Snapshotting(rows, rows, app, sub, files, files.Keys)
  {
  }

  lemma SnapshotEnd(before: map<Row, string>, rows: map<Row, string>, app: string, sub: string,
                    files: Files, todo: set<string>)
    requires Snapshotting(before, rows, app, sub, files, todo)
    ensures SnapshotOutcome(before, rows, app, sub, files, todo == {})
  {
    LeftSomeOf(files, todo);
    NothingLeft(files);
  }

  lemma NotYet(before: map<Row, string>, rows: map<Row, string>, app: string, sub: string,
               files: Files, todo: set<string>, name: string)
    requires Snapshotting(before, rows, app, sub, files, todo) && name in todo
    ensures Row(app, sub, name) !in rows
  {
    FilesOfAt(rows, app, sub, name);
    assert name !in files - todo;
  }

  /** Rows of a submission do not show among the development files. */
  lemma DevApart(a: map<Row, string>, b: map<Row, string>, app: string, sub: string, name: string, hash: string)
    requires sub != "" && b == a[Row(app, sub, name) := hash]
    ensures FilesOf(b, app, "") == FilesOf(a, app, "")
  {
    forall n
      ensures Look(FilesOf(b, app, ""), n) == Look(FilesOf(a, app, ""), n)
    {
      FilesOfAt(a, app, "", n);
      FilesOfAt(b, app, "", n);
    }
    SameFiles(FilesOf(b, app, ""), FilesOf(a, app, ""));
  }

  lemma SnapshotPut(before: map<Row, string>, rows: map<Row, string>, app: string, sub: string,
                    files: Files, todo: set<string>, name: string)
    requires NoSlash(app) && NoSlash(sub) && sub != "" && Snapshotting(before, rows, app, sub, files, todo)
    requires name in todo && name in files
    ensures Snapshotting(before, rows[Row(app, sub, name) := files[name]], app, sub, files, todo - {name})
  {
    FilesOfAt(rows, app, "", name);
    FilesOfPut(rows, app, sub, name, files[name]);
    LeftLess(files, todo, name);
    RowsWithinPut(before, rows, rows[Row(app, sub, name) := files[name]], app, sub, name, files[name]);
    DevApart(rows, rows[Row(app, sub, name) := files[name]], app, sub, name, files[name]);
  }

  lemma SnapshotStep(before: map<Row, string>, rows: map<Row, string>, now: map<Row, string>, app: string, sub: string,
                     files: Files, todo: set<string>, name: string)
    requires NoSlash(app) && NoSlash(sub) && sub != "" && Snapshotting(before, rows, app, sub, files, todo)
    requires name in todo && name in files
    requires now == rows || now == rows[Row(app, sub, name) := files[name]]
    ensures now == rows[Row(app, sub, name) := files[name]] ==>
      Snapshotting(before, now, app, sub, files, todo - {name})
    ensures SnapshotOutcome(before, now, app, sub, files, false)
  {
    if now == rows[Row(app, sub, name) := files[name]] {
      SnapshotPut(before, rows, app, sub, files, todo, name);
      SnapshotEnd(before, now, app, sub, files, todo - {name});
    } else {
      SnapshotEnd(before, rows, app, sub, files, todo);
    }
  }

  lemma SnapshotWithin(w0: World, w: World, v: World, app: string, sub: string, files: Files, ok: bool)
    requires Within(w0, w, app, sub) && w.rows == w0.rows && v.s3 == w.s3 && v.mc == w.mc
    requires SnapshotOutcome(w.rows, v.rows, app, sub, files, ok) && SomeOf(files, Dev(w0, app))
    ensures Within(w0, v, app, sub) && SomeOf(FilesOf(v.rows, app, sub), Dev(w0, app)) && Dev(v, app) == Dev(w0, app)
  {
  }

  // ---------------------------------------------------------------- all later runs

  /** What a submit may do to the stores, successful or not. */
  ghost predicate SubmitStep(w: World, v: World, app: string, sub: string) {
    && Within(w, v, app, sub)
    && (if HasSubmission(w.rows, sub) || sub == "" then v.rows == w.rows && v.s3 == w.s3
        else SomeOf(FilesOf(v.rows, app, sub), Dev(w, app)))
  }

  /** A push of any app or a submit under any id: the contracts of `Reconcile` and `Submit`. */
  ghost predicate Step(w: World, v: World) {
    || (exists app :: NoSlash(app) && Within(w, v, app, ""))
    || (exists app, sub :: NoSlash(app) && NoSlash(sub) && SubmitStep(w, v, app, sub))
  }

  ghost predicate IsRun(ws: seq<World>) {
    |ws| > 0 && forall i :: 0 < i < |ws| ==> Step(ws[i - 1], ws[i])
  }

  /** Rows and blobs of a submission are the same in both worlds. */
  ghost predicate SameSnapshot(w: World, v: World, app: string, sub: string) {
    && (forall n :: Look(FilesOf(w.rows, app, sub), n) == Look(FilesOf(v.rows, app, sub), n))
    && (forall key :: NoSlash(key) ==>
          var k := Prefixed(app, sub, key);
          (k in w.s3 <==> k in v.s3) && (k in w.s3 ==> w.s3[k] == v.s3[k]))
  }

  /** A step within another (app, submission) leaves a snapshot alone. */
  lemma WithinOther(w: World, v: World, app: string, sub: string, a: string, s: string)
    requires NoSlash(app) && NoSlash(sub) && NoSlash(a) && NoSlash(s)
    requires Within(w, v, a, s) && (a != app || s != sub)
    ensures SameSnapshot(w, v, app, sub)
  {
    forall n
      ensures Look(FilesOf(w.rows, app, sub), n) == Look(FilesOf(v.rows, app, sub), n)
    {
      FilesOfAt(w.rows, app, sub, n);
      FilesOfAt(v.rows, app, sub, n);
    }
    forall key | NoSlash(key)
      ensures var k := Prefixed(app, sub, key);
              (k in w.s3 <==> k in v.s3) && (k in w.s3 ==> w.s3[k] == v.s3[k])
    {
      var k := Prefixed(app, sub, key);
      forall l | NoSlash(l)
        ensures k != Prefixed(a, s, l)
      {
        if k == Prefixed(a, s, l) {
          PrefixedInjective(app, sub, key, a, s, l);
        }
      }
    }
  }

  lemma StepKeeps(w: World, v: World, app: string, sub: string)
    requires NoSlash(app) && NoSlash(sub) && sub != "" && Step(w, v) && FilesOf(w.rows, app, sub) != map[]
    ensures SameSnapshot(w, v, app, sub)
  {
    if a :| NoSlash(a) && Within(w, v, a, "") {
      WithinOther(w, v, app, sub, a, "");
    } else {
      var a, s :| NoSlash(a) && NoSlash(s) && SubmitStep(w, v, a, s);
      if s == sub {
        var n :| n in FilesOf(w.rows, app, sub);
        FilesOfAt(w.rows, app, sub, n);
        assert HasSubmission(w.rows, sub);
      } else {
        WithinOther(w, v, app, sub, a, s);
      }
    }
  }

  /** Once a submission has rows, no run of pushes and submits, failed ones included,
      changes its rows or its blobs. */
  lemma {:induction false} SnapshotPersists(ws: seq<World>, app: string, sub: string)
    requires NoSlash(app) && NoSlash(sub) && sub != "" && IsRun(ws) && FilesOf(ws[0].rows, app, sub) != map[]
    ensures SameSnapshot(ws[0], ws[|ws| - 1], app, sub)
    decreases |ws|
  {
    if |ws| > 1 {
      var init := ws[..|ws| - 1];
      SnapshotPersists(init, app, sub);
      var w, v := init[|init| - 1], ws[|ws| - 1];
      SameFiles(FilesOf(ws[0].rows, app, sub), FilesOf(w.rows, app, sub));
      assert Step(w, v);
      StepKeeps(w, v, app, sub);
    }
  }

  /** Byte for byte: under an injective hash the copy is the development blob. */
  lemma CopiedBytes(H: Blob -> string, w: World, app: string, sub: string, hash: string)
    requires Injective(H) && WorldOk(H, w) && NoSlash(app) && NoSlash(sub) && IsHash(hash)
    requires Prefixed(app, "", hash) in w.s3 && Prefixed(app, sub, hash) in w.s3
    ensures w.s3[Prefixed(app, sub, hash)] == w.s3[Prefixed(app, "", hash)]
  {
    var a, b := w.s3[Prefixed(app, sub, hash)], w.s3[Prefixed(app, "", hash)];
    assert Right(H, Prefixed(app, sub, hash), a) && Right(H, Prefixed(app, "", hash), b);
    assert H(a) == hash && H(b) == hash;
  }

  // ---------------------------------------------------------------- pulling a submission

  /** The footer a pull finds: the platform's own, else the one under the old name. */
  function FooterFor(s3: map<string, Blob>, app: string, sub: string, platform: string): Option<Blob> {
    var own, old_ := Prefixed(app, sub, FooterFile(platform)), Prefixed(app, sub, "bundle-footer");
    if own in s3 then Some(s3[own]) else if old_ in s3 then Some(s3[old_]) else None
  }

  /** `writeBundleFooter` of pull.go. */
  method PullFooter(store: Store, app: string, sub: string, platform: string) returns (r: Option<Blob>)
    modifies store`mc
    ensures old(store.InStep()) ==> store.InStep()
    ensures store.Reliable() && old(store.InStep()) ==> r == FooterFor(store.s3, app, sub, platform)
  {
    r := store.Get(app, sub, FooterFile(platform));
    if r.None? {
      r := store.Get(app, sub, "bundle-footer");
    }
  }

  /** After a submission into an unused namespace and any later run of pushes and submits, a pull
      finds its footer exactly for the platform it was made for, and for an Android one in any
      case: an iOS client that pulls an Android submission gets the Android footer. */
  lemma FooterPersists(ws: seq<World>, before: map<string, Blob>, app: string, sub: string,
                       platform: string, footer: Blob, client: string)
    requires NoSlash(app) && NoSlash(sub) && sub != "" && IsRun(ws) && FilesOf(ws[0].rows, app, sub) != map[]
    requires Platform(platform) && Platform(client) && FooterSet(before, ws[0].s3, app, sub, platform, footer)
    requires forall key :: NoSlash(key) && IsFooter(key) ==> Prefixed(app, sub, key) !in before
    ensures FooterFor(ws[|ws| - 1].s3, app, sub, client)
         == if client == platform || platform == "android" then Some(footer) else None
  {
    hide Step, FilesOf;
    FooterNames();
    SnapshotPersists(ws, app, sub);
    var now, last := ws[0].s3, ws[|ws| - 1].s3;
    forall key | NoSlash(key) && IsFooter(key)
      ensures Prefixed(app, sub, key) in last <==> key == FooterKey(platform)
      ensures Prefixed(app, sub, key) in last ==> last[Prefixed(app, sub, key)] == footer
    {
      assert SameAt(now, last, Prefixed(app, sub, key));
      if key != FooterKey(platform) {
        assert SameAt(before, now, Prefixed(app, sub, key));
      }
    }
    assert NoSlash("ios") && NoSlash("android") && NoSlash("bundle-footer") && IsFooter("bundle-footer");
    assert NoSlash(FooterFile(client)) && IsFooter(FooterFile(client));
    assert |"bundle-footer-ios"| == 17 && |"bundle-footer-android"| == 21 && |"bundle-footer"| == 13;
  }

  /** A corollary of SnapshotPersists, at every step k of a run: a snapshot that has some of its
      rows and not all is never completed, under this id or any other. */
  lemma PartialIsStuck(ws: seq<World>, app: string, sub: string, k: nat)
    requires NoSlash(app) && NoSlash(sub) && sub != "" && IsRun(ws) && k < |ws|
    requires FilesOf(ws[0].rows, app, sub) != map[] && FilesOf(ws[0].rows, app, sub) != Dev(ws[0], app)
    ensures FilesOf(ws[k].rows, app, sub) == FilesOf(ws[0].rows, app, sub) != Dev(ws[0], app)
  {
    RunPrefix(ws, k);
    SnapshotPersists(ws[..k + 1], app, sub);
    SameFiles(FilesOf(ws[0].rows, app, sub), FilesOf(ws[k].rows, app, sub));
  }

  lemma RunPrefix(ws: seq<World>, k: nat)
    ensures IsRun(ws) && k < |ws| ==> IsRun(ws[..k + 1])
  {
  }

  /** Such snapshots come about: with two files, of which the fetch shows one, the snapshot
      reports success and has one row. */
  method HalfSnapshot(H: Blob -> string, app: string, sub: string, a: string, b: string, x: Blob)
    returns (store: Store, ok: bool)
    requires NoSlash(app) && NoSlash(sub) && sub != "" && a != b && IsHash(H(x))
    ensures ok && Dev(store.W(), app) == map[a := H(x), b := H(x)]
    ensures FilesOf(store.rows, app, sub) == map[a := H(x)] != Dev(store.W(), app)
  {
    var w := OneFile(app, a, H(x), map[Prefixed(app, "", H(x)) := x]);
    var v := w.(rows := w.rows[Row(app, "", b) := H(x)]);
    TwoFiles(H, app, a, b, x);
    store := new Store(H, false, WORKING, v);
    var h := new SubmitHandler(store, app, sub);
    NoSubmission(store.rows, app, sub);
    ok := h.SnapshotEach(map[a := H(x)]);
    assert b in Dev(store.W(), app) && b !in map[a := H(x)];
  }

  /** The Siphonfile and another file, both with their blobs. */
  function TwoBlobs(H: Blob -> string, app: string, b: string, x: Blob, y: Blob): World {
    World(map[Row(app, "", METADATA_NAME) := H(x)][Row(app, "", b) := H(y)],
          map[Prefixed(app, "", H(x)) := x][Prefixed(app, "", H(y)) := y], map[])
  }

  lemma TwoBlobsOk(H: Blob -> string, app: string, sub: string, b: string, x: Blob, y: Blob)
    requires NoSlash(app) && NoSlash(sub) && sub != "" && b != METADATA_NAME && IsHash(H(x)) && IsHash(H(y))
    ensures var w := TwoBlobs(H, app, b, x, y);
            && WorldOk(H, w) && Dev(w, app) == map[METADATA_NAME := H(x), b := H(y)]
            && !HasSubmission(w.rows, sub) && Prefixed(app, sub, H(y)) !in w.s3
  {
    var w := OneFile(app, METADATA_NAME, H(x), map[Prefixed(app, "", H(x)) := x]);
    RightAt(H, app, "", H(x), x);
    RightAt(H, app, "", H(y), y);
    OneFileOk(H, app, METADATA_NAME, H(x), w.s3);
    FilesOfPut(w.rows, app, "", b, H(y));
    if Prefixed(app, sub, H(y)) == Prefixed(app, "", H(x)) {
      PrefixedInjective(app, sub, H(y), app, "", H(x));
    } else if Prefixed(app, sub, H(y)) == Prefixed(app, "", H(y)) {
      PrefixedInjective(app, sub, H(y), app, "", H(y));
    }
  }

  lemma NoneCame(before: map<string, Blob>, now: map<string, Blob>, app: string, sub: string,
                 hashes: set<string>, hash: string)
    ensures AddsOnly(before, now, app, sub, hashes) && IsHash(hash) && hash !in hashes ==>
      (Prefixed(app, sub, hash) in now <==> Prefixed(app, sub, hash) in before)
  {
  }

  /** And the other way round: when the fetch for copying shows the Siphonfile alone and the one
      for the snapshot all files, every part of a submission over services that work succeeds,
      and there is a row without its blob. */
  method RowWithoutBlob(H: Blob -> string, app: string, sub: string, b: string, x: Blob, y: Blob, footer: Blob)
    returns (store: Store, ok: bool)
    requires NoSlash(app) && NoSlash(sub) && sub != "" && b != METADATA_NAME
    requires IsHash(H(x)) && IsHash(H(y)) && H(x) != H(y)
    ensures ok && FilesOf(store.rows, app, sub) == Dev(store.W(), app) == map[METADATA_NAME := H(x), b := H(y)]
    ensures Prefixed(app, "", H(y)) in store.s3 && Prefixed(app, sub, H(y)) !in store.s3
  {
    hide WorldOk, FilesOf, AddsOnly;
    var w := TwoBlobs(H, app, b, x, y);
    TwoBlobsOk(H, app, sub, b, x, y);
    store := new Store(H, false, WORKING, w);
    var h := new SubmitHandler(store, app, sub);
    var fetched := map[METADATA_NAME := H(x)];
    NoSubmission(store.rows, app, sub);
    var copies := h.CopyEach(fetched);
    NoneCame(w.s3, store.s3, app, sub, fetched.Values, H(y));
    var loads, _ := h.LoadMetadata(true);
    ghost var s3 := store.s3;
    var packs := h.MakeFooter("ios", footer, true);
    NoneCame(s3, store.s3, app, sub, {}, H(y));
    var snaps := h.SnapshotEach(map[METADATA_NAME := H(x), b := H(y)]);
    ok := copies && loads && packs && snaps;
  }
}
