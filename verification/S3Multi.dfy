/** Multipart upload of a file with reuse of parts sent before (multi.go, `PutAll`). */
module S3Multi {
  import opened Basics

  /** An ETag: the quoted MD5 sum of a part's content, taken as injective, or anything else
      a server may have. */
  datatype ETag<T> = Md5(content: seq<T>) | Other(tag: string)

  datatype Part<T> = Part(n: int, etag: ETag<T>, size: int)

  /** The file in pieces of the given size, the last one shorter if need be; one empty piece
      for an empty file. */
  function Sections<T>(file: seq<T>, size: nat): (r: seq<seq<T>>)
    requires size > 0
    ensures |r| >= 1
    decreases |file|
  {
    if |file| <= size then [file] else [file[..size]] + Sections(file[size..], size)
  }

  function Concat<T>(pieces: seq<seq<T>>): seq<T> {
    if pieces == [] then [] else pieces[0] + Concat(pieces[1..])
  }

  /** The sections tile the file: together they are the file, all but the last are full, and
      none is empty unless the file is. */
  lemma {:induction false} SectionsTile<T>(file: seq<T>, size: nat)
    requires size > 0
    ensures var r := Sections(file, size);
            && Concat(r) == file
            && (forall i :: 0 <= i < |r| - 1 ==> |r[i]| == size)
            && |r[|r| - 1]| <= size
            && (file != [] ==> r[|r| - 1] != [])
            && (file == [] ==> r == [[]])
    decreases |file|
  {
    if |file| <= size {
      assert Concat([file]) == file + Concat([]);
      assert [file][1..] == [];
    } else {
      var rest := Sections(file[size..], size);
      SectionsTile(file[size..], size);
      var r := Sections(file, size);
      assert r[1..] == rest;
      assert file[..size] + file[size..] == file;
      forall i | 0 <= i < |r| - 1 ensures |r[i]| == size {
        assert i > 0 ==> r[i] == rest[i - 1];
      }
      assert r[|r| - 1] == rest[|rest| - 1];
    }
  }

  predicate Sorted<T>(parts: seq<Part<T>>) {
    forall i, j :: 0 <= i < j < |parts| ==> parts[i].n <= parts[j].n
  }

  /** An old part can stand for this section. */
  predicate Reusable<T(==)>(part: Part<T>, n: int, section: seq<T>) {
    part == Part(n, Md5(section), |section|)
  }

  predicate Has<T(==)>(old_: seq<Part<T>>, n: int, section: seq<T>) {
    exists k :: 0 <= k < |old_| && Reusable(old_[k], n, section)
  }

  /** The list tells the truth about what the server holds. */
  ghost predicate Truthful<T>(parts: seq<Part<T>>, store: map<int, seq<T>>) {
    forall k :: 0 <= k < |parts| && parts[k].etag.Md5? ==>
      parts[k].n in store && store[parts[k].n] == parts[k].etag.content
  }

  /** ... and leaves nothing out. */
  ghost predicate Complete<T>(parts: seq<Part<T>>, store: map<int, seq<T>>) {
    forall n :: n in store ==> Has(parts, n, store[n])
  }

  /** The store after sections were sent: those hold their section, all else is as it was. */
  ghost predicate Sent<T>(before: map<int, seq<T>>, after: map<int, seq<T>>, sections: seq<seq<T>>, sent: set<int>) {
    && after.Keys == before.Keys + sent
    && (forall n :: n in sent ==> 1 <= n <= |sections| && after[n] == sections[n - 1])
    && (forall n :: n in before && n !in sent ==> after[n] == before[n])
  }

  /** Of the first `done` sections exactly those without a reusable old part were sent. */
  ghost predicate OnlyMissing<T>(old_: seq<Part<T>>, sections: seq<seq<T>>, done: nat, sent: set<int>) {
    done <= |sections| && forall n :: n in sent <==> 1 <= n <= done && !Has(old_, n, sections[n - 1])
  }

  /** Sending a section that no old part has failed; it was the next one, or it arrived. */
  ghost predicate Stopped<T>(old_: seq<Part<T>>, sections: seq<seq<T>>, dealt: nat, faults: set<int>) {
    exists n :: n in faults && 1 <= n <= |sections| && !Has(old_, n, sections[n - 1]) && n - 1 <= dealt <= n
  }

  function Numbers(order: seq<int>): set<int> {
    set n | n in order
  }

  predicate Ascending(order: seq<int>) {
    forall i, j :: 0 <= i < j < |order| ==> order[i] < order[j]
  }

  /** The first `done` sections are dealt with: what has arrived since the log was `log` are
      exactly the missing ones, in order and each once, and the store has changed by them. */
  ghost predicate DealtWith<T>(before: map<int, seq<T>>, after: map<int, seq<T>>, log: seq<int>, arrived: seq<int>,
                               old_: seq<Part<T>>, sections: seq<seq<T>>, done: nat) {
    && log <= arrived && Ascending(arrived[|log|..])
    && Sent(before, after, sections, Numbers(arrived[|log|..]))
    && OnlyMissing(old_, sections, done, Numbers(arrived[|log|..]))
  }

  lemma NoneSent<T>(store: map<int, seq<T>>, log: seq<int>, old_: seq<Part<T>>, sections: seq<seq<T>>)
    ensures DealtWith(store, store, log, log, old_, sections, 0)
  {
    assert log[|log|..] == [] && Numbers([]) == {};
  }

  lemma ArrivedMore(log: seq<int>, arrived: seq<int>, n: int)
    requires log <= arrived && Ascending(arrived[|log|..]) && forall m :: m in Numbers(arrived[|log|..]) ==> m < n
    ensures var now := arrived + [n];
            && log <= now && Ascending(now[|log|..]) && Numbers(now[|log|..]) == Numbers(arrived[|log|..]) + {n}
  {
    var order, now := arrived[|log|..], (arrived + [n])[|log|..];
    assert now == order + [n];
    forall i | 0 <= i < |order| ensures order[i] < n {
      assert order[i] in Numbers(order);
    }
  }

  lemma DealtMore<T>(before: map<int, seq<T>>, after: map<int, seq<T>>, log: seq<int>, arrived: seq<int>,
                     old_: seq<Part<T>>, sections: seq<seq<T>>, done: nat)
    requires DealtWith(before, after, log, arrived, old_, sections, done) && done < |sections|
    ensures var n := done + 1;
            if Has(old_, n, sections[done]) then DealtWith(before, after, log, arrived, old_, sections, n)
            else DealtWith(before, after[n := sections[done]], log, arrived + [n], old_, sections, n)
  {
    var sent, n := Numbers(arrived[|log|..]), done + 1;
    MissingMore(old_, sections, done, sent);
    if !Has(old_, n, sections[done]) {
      ArrivedMore(log, arrived, n);
      SentMore(before, after, sections, sent, n);
    }
  }

  lemma MissingMore<T>(old_: seq<Part<T>>, sections: seq<seq<T>>, done: nat, sent: set<int>)
    requires OnlyMissing(old_, sections, done, sent) && done < |sections|
    ensures var n := done + 1;
            OnlyMissing(old_, sections, n, if Has(old_, n, sections[done]) then sent else sent + {n})
  {
  }

  lemma ResultsMore<T>(parts: seq<Part<T>>, sections: seq<seq<T>>, done: nat, part: Part<T>)
    requires Results(parts, sections, done) && done < |sections|
    requires part == Part(done + 1, Md5(sections[done]), |sections[done]|)
    ensures Results(parts + [part], sections, done + 1)
  {
  }

  /** The parts of the first `done` sections. */
  ghost predicate Results<T>(result: seq<Part<T>>, sections: seq<seq<T>>, done: nat) {
    && |result| == done <= |sections|
    && forall i :: 0 <= i < done ==> result[i] == Part(i + 1, Md5(sections[i]), |sections[i]|)
  }

  class Upload<T(==)> {
    var store: map<int, seq<T>>    // what the server holds
    var faults: set<int>           // numbers for which sending fails ...
    var arrives: set<int>          // ... and those of them that reach the server all the same
    ghost var arrived: seq<int>    // the numbers of the parts that have reached the server

    /** `putPart`, with the server's ETag. A part may have arrived though sending it failed. */
    method PutPart(n: int, section: seq<T>) returns (part: Option<Part<T>>)
      modifies `store, `arrived
      ensures Took(old(store), old(arrived), n, section) || (part.None? && Unchanged(old(store), old(arrived)))
      ensures part.None? ==> n in faults
      ensures part.Some? ==> part.value == Part(n, Md5(section), |section|)
    {
      if n in faults {
        if n in arrives {
          store, arrived := store[n := section], arrived + [n];
        }
        return None;
      }
      store, arrived := store[n := section], arrived + [n];
      part := Some(Part(n, Md5(section), |section|));
    }

    /** A part has reached the server. */
    ghost predicate Took(before: map<int, seq<T>>, log: seq<int>, n: int, section: seq<T>)
      reads `store, `arrived
    {
      store == before[n := section] && arrived == log + [n]
    }

    ghost predicate Unchanged(before: map<int, seq<T>>, log: seq<int>)
      reads `store, `arrived
    {
      store == before && arrived == log
    }

    /** The inner loop: looks for a reusable part among the old ones, from index `reuse`. */
    method Reuse(old_: seq<Part<T>>, from: nat, current: int, section: seq<T>) returns (reuse: nat, found: bool)
      requires Sorted(old_) && from <= |old_|
      requires forall k :: 0 <= k < from ==> old_[k].n < current
      ensures from <= reuse <= |old_| && found == Has(old_, current, section)
      ensures found ==> reuse < |old_| && Reusable(old_[reuse], current, section)
      ensures forall k :: 0 <= k < reuse ==> old_[k].n <= current
    {
      reuse := from;
      while reuse < |old_| && old_[reuse].n <= current
        invariant from <= reuse <= |old_|
        invariant forall k :: 0 <= k < reuse ==> old_[k].n <= current && !Reusable(old_[k], current, section)
      {
        if Reusable(old_[reuse], current, section) {
          return reuse, true;
        }
        reuse := reuse + 1;
      }
      found := false;
      assert reuse < |old_| ==> forall k :: reuse <= k < |old_| ==> old_[k].n > current;
    }

    /** One round of `PutAll`: the old part, or the section sent; None when that fails. */
    method PutSection(old_: seq<Part<T>>, from: nat, current: int, section: seq<T>)
      returns (reuse: nat, part: Option<Part<T>>)
      requires Sorted(old_) && from <= |old_|
      requires forall k :: 0 <= k < from ==> old_[k].n < current
      modifies `store, `arrived
      ensures reuse <= |old_| && forall k :: 0 <= k < reuse ==> old_[k].n <= current
      ensures part.Some? ==> part.value == Part(current, Md5(section), |section|)
      ensures part.None? ==> current in faults && !Has(old_, current, section)
      ensures || (Unchanged(old(store), old(arrived)) && (part.None? || Has(old_, current, section)))
              || (Took(old(store), old(arrived), current, section) && !Has(old_, current, section))
    {
      var found;
      reuse, found := Reuse(old_, from, current, section);
      if found {
        part := Some(old_[reuse]);
      } else {
        part := PutPart(current, section);
      }
    }

    /** One round, in terms of what has been dealt with. */
    method PutNext(old_: seq<Part<T>>, from: nat, section: seq<T>,
                   ghost before: map<int, seq<T>>, ghost log: seq<int>, ghost sections: seq<seq<T>>, done: nat)
      returns (reuse: nat, part: Option<Part<T>>, ghost dealt: nat)
      requires Sorted(old_) && from <= |old_| && forall k :: 0 <= k < from ==> old_[k].n < done + 1
      requires DealtWith(before, store, log, arrived, old_, sections, done)
      requires done < |sections| && sections[done] == section
      modifies `store, `arrived
      ensures DealtWith(before, store, log, arrived, old_, sections, dealt)
      ensures reuse <= |old_| && forall k :: 0 <= k < reuse ==> old_[k].n < done + 2
      ensures part.Some? ==> dealt == done + 1 && part.value == Part(done + 1, Md5(section), |section|)
      ensures part.None? ==> done <= dealt <= done + 1 && done + 1 in faults && !Has(old_, done + 1, section)
    {
      ghost var log0 := arrived;
      DealtMore(before, store, log, arrived, old_, sections, done);
      reuse, part := PutSection(old_, from, done + 1, section);
      dealt := if part.Some? || arrived != log0 then done + 1 else done;
    }

    /** `PutAll`, with the sorted list of old parts: gives one part for each section, numbered
        from 1, and sends exactly the sections that no old part has. When sending fails it
        stops; what arrived stays. */
    method PutAll(file: seq<T>, size: nat, old_: seq<Part<T>>)
      returns (result: Option<seq<Part<T>>>, ghost dealt: nat)
      requires size > 0 && Sorted(old_)
      modifies `store, `arrived
      ensures DealtWith(old(store), store, old(arrived), arrived, old_, Sections(file, size), dealt)
      ensures result.Some? ==>
        dealt == |Sections(file, size)| && Results(result.value, Sections(file, size), dealt)
      ensures result.None? ==> Stopped(old_, Sections(file, size), dealt, faults)
    {
      ghost var sections := Sections(file, size);
      var reuse: nat, done: nat, first, offset: nat, partSize: nat := 0, 0, true, 0, size;
      var parts: seq<Part<T>> := [];
      dealt := 0;
      NoneSent(store, arrived, old_, sections);
      while offset < |file| || first
        invariant offset <= |file| && dealt == done && reuse <= |old_| && (first ==> offset == 0)
        invariant Remaining(file, size, sections, offset, partSize, done, offset < |file| || first)
        invariant forall k :: 0 <= k < reuse ==> old_[k].n < done + 1
        invariant Results(parts, sections, done)
        invariant DealtWith(old(store), store, old(arrived), arrived, old_, sections, done)
        decreases first, |file| - offset
      {
        RemainingStep(file, size, sections, offset, done);
        first := false;
        if offset + partSize > |file| {
          partSize := |file| - offset;
        }
        var section := file[offset..offset + partSize];
        var part;
        reuse, part, dealt := PutNext(old_, reuse, section, old(store), old(arrived), sections, done);
        if part.None? {
          return None, dealt;
        }
        ResultsMore(parts, sections, done, part.value);
        parts := parts + [part.value];
        done := done + 1;
        offset := offset + partSize;
      }
      result := Some(parts);
    }

    /** `ListParts`: what the server holds, by number. */
    method ListParts() returns (parts: seq<Part<T>>)
      ensures Sorted(parts) && Truthful(parts, store) && Complete(parts, store)
    {
      parts := [];
      var left := store.Keys;
      while left != {}
        invariant left <= store.Keys && Sorted(parts) && Truthful(parts, store)
        invariant forall k, n :: 0 <= k < |parts| && n in left ==> parts[k].n < n
        invariant forall n :: n in store && n !in left ==> Has(parts, n, store[n])
        decreases left
      {
        var n := Least(left);
        ghost var was := parts;
        parts := parts + [Part(n, Md5(store[n]), |store[n]|)];
        left := left - {n};
        assert Reusable(parts[|was|], n, store[n]);
        forall m | m in store && m !in left ensures Has(parts, m, store[m]) {
          if m != n {
            HasMore(was, parts[|was|], m, store[m]);
          }
        }
      }
    }

    /** Listing the parts and uploading, after what arrived since the log was `log`. */
    method Attempt(file: seq<T>, size: nat, ghost was: map<int, seq<T>>, ghost log: seq<int>)
      returns (result: Option<seq<Part<T>>>)
      requires size > 0 && Arrivals(log, arrived, was, store, Sections(file, size))
      modifies `store, `arrived
      ensures Arrivals(log, arrived, was, store, Sections(file, size))
      ensures result.None? ==> faults != {}
      ensures var sections := Sections(file, size);
              result.Some? ==> Results(result.value, sections, |sections|) && Stored(store, sections)
    {
      ghost var sections := Sections(file, size);
      var listed := ListParts();
      ghost var between, mid, dealt := store, arrived, 0;
      result, dealt := PutAll(file, size, listed);
      ArrivalsMore(listed, was, between, store, sections, log, mid, arrived, dealt);
      if result.Some? {
        AllStored(listed, between, store, sections, Numbers(arrived[|mid|..]));
      }
    }

    /** Uploading, and again from where it stopped as often as faults stop it: in the end the
        server's parts 1..n make up the file. Exactly the sections that the server did not have
        have arrived, each once (a part that failed without arriving is sent again). */
    method PutUntilDone(file: seq<T>, size: nat, failing: seq<set<int>>) returns (result: seq<Part<T>>)
      requires size > 0
      modifies this
      ensures var sections := Sections(file, size);
              Results(result, sections, |sections|) && Stored(store, sections) && Concat(sections) == file
      ensures old(arrived) <= arrived && EachOnce(arrived[|old(arrived)|..], old(store), Sections(file, size))
    {
      ghost var sections := Sections(file, size);
      SectionsTile(file, size);
      NoArrivals(arrived, store, sections);
      for i := 0 to |failing|
        invariant Arrivals(old(arrived), arrived, old(store), store, sections)
      {
        faults := failing[i];
        var r := Attempt(file, size, old(store), old(arrived));
        if r.Some? {
          AllArrived(old(arrived), arrived, old(store), store, sections);
          return r.value;
        }
      }
      faults := {};
      var r := Attempt(file, size, old(store), old(arrived));
      AllArrived(old(arrived), arrived, old(store), store, sections);
      result := r.value;
    }
  }

  predicate Distinct(order: seq<int>) {
    forall i, j :: 0 <= i < j < |order| ==> order[i] != order[j]
  }

  /** The server has this section. */
  predicate Holds<T(==)>(store: map<int, seq<T>>, sections: seq<seq<T>>, n: int) {
    1 <= n <= |sections| && n in store && store[n] == sections[n - 1]
  }

  /** The numbers of exactly the sections that the server did not have, each once. */
  ghost predicate EachOnce<T>(order: seq<int>, before: map<int, seq<T>>, sections: seq<seq<T>>) {
    && Distinct(order)
    && forall n :: n in order <==> 1 <= n <= |sections| && !Holds(before, sections, n)
  }

  lemma ListedHas<T>(listed: seq<Part<T>>, store: map<int, seq<T>>, sections: seq<seq<T>>, n: int)
    requires Truthful(listed, store) && Complete(listed, store) && 1 <= n <= |sections|
    ensures Has(listed, n, sections[n - 1]) <==> Holds(store, sections, n)
  {
    if Has(listed, n, sections[n - 1]) {
      var k :| 0 <= k < |listed| && Reusable(listed[k], n, sections[n - 1]);
      assert listed[k].etag.Md5?;
    }
  }

  lemma OnceSoFar<T>(listed: seq<Part<T>>, before: map<int, seq<T>>, sections: seq<seq<T>>, done: nat, order: seq<int>)
    requires Truthful(listed, before) && Complete(listed, before)
    requires Ascending(order) && OnlyMissing(listed, sections, done, Numbers(order))
    ensures done <= |sections| && Distinct(order)
    ensures forall n :: n in order <==> 1 <= n <= done && !Holds(before, sections, n)
  {
    forall n ensures n in order <==> 1 <= n <= done && !Holds(before, sections, n) {
      assert n in order <==> n in Numbers(order);
      if 1 <= n <= done {
        ListedHas(listed, before, sections, n);
      }
    }
  }

  /** What has arrived since the log was `log`, while the store went from `was` to `now`: each
      part once, all of them sections that were missing and no longer are. */
  ghost predicate Arrivals<T>(log: seq<int>, arrived: seq<int>, was: map<int, seq<T>>, now: map<int, seq<T>>,
                              sections: seq<seq<T>>) {
    && log <= arrived && Distinct(arrived[|log|..])
    && (forall n :: n in arrived[|log|..] ==>
          1 <= n <= |sections| && !Holds(was, sections, n) && Holds(now, sections, n))
    && (forall n :: n !in arrived[|log|..] ==> (Holds(was, sections, n) <==> Holds(now, sections, n)))
  }

  lemma NoArrivals<T>(log: seq<int>, was: map<int, seq<T>>, sections: seq<seq<T>>)
    ensures Arrivals(log, log, was, was, sections)
  {
  }

  lemma AllArrived<T>(log: seq<int>, arrived: seq<int>, was: map<int, seq<T>>, now: map<int, seq<T>>,
                      sections: seq<seq<T>>)
    requires Arrivals(log, arrived, was, now, sections) && Stored(now, sections)
    ensures EachOnce(arrived[|log|..], was, sections)
  {
  }

  /** One more upload, with a list of all that the server has. */
  lemma ArrivalsMore<T>(listed: seq<Part<T>>, was: map<int, seq<T>>, between: map<int, seq<T>>,
                        store: map<int, seq<T>>, sections: seq<seq<T>>, log: seq<int>, mid: seq<int>,
                        arrived: seq<int>, dealt: nat)
    requires Arrivals(log, mid, was, between, sections) && Truthful(listed, between) && Complete(listed, between)
    requires DealtWith(between, store, mid, arrived, listed, sections, dealt)
    ensures Arrivals(log, arrived, was, store, sections)
  {
    hide Holds, Sent, OnlyMissing, Truthful, Complete, Ascending, Numbers;
    var one, two := mid[|log|..], arrived[|mid|..];
    assert arrived[|log|..] == one + two;
    OnceSoFar(listed, between, sections, dealt, two);
    forall n ensures n in one ==> n !in two && Holds(store, sections, n) {
      StillMissing(between, store, sections, two, n);
    }
    forall n ensures n in two ==> 1 <= n <= |sections| && !Holds(was, sections, n) && Holds(store, sections, n) {
      StillMissing(between, store, sections, two, n);
    }
    forall n ensures n !in one + two ==> (Holds(was, sections, n) <==> Holds(store, sections, n)) {
      StillMissing(between, store, sections, two, n);
    }
    DistinctJoin(one, two);
  }

  lemma StillMissing<T>(was: map<int, seq<T>>, between: map<int, seq<T>>, sections: seq<seq<T>>,
                        order: seq<int>, n: int)
    requires Sent(was, between, sections, Numbers(order))
    ensures n !in order ==> (Holds(was, sections, n) <==> Holds(between, sections, n))
    ensures n in order ==> Holds(between, sections, n)
  {
    assert n in order <==> n in Numbers(order);
  }

  lemma DistinctJoin(a: seq<int>, b: seq<int>)
    requires Distinct(a) && Distinct(b) && forall n :: n in a ==> n !in b
    ensures Distinct(a + b)
  {
    forall i, j | 0 <= i < j < |a + b| ensures (a + b)[i] != (a + b)[j] {
      if i < |a| <= j {
        assert a[i] in a && b[j - |a|] in b;
      }
    }
  }

  method Least(s: set<int>) returns (m: int)
    requires s != {}
    ensures m in s && forall n :: n in s ==> m <= n
  {
    m := Any(s);
    var left := s - {m};
    while left != {}
      invariant left <= s && m in s && forall n :: n in s && n !in left ==> m <= n
      decreases left
    {
      var k := Any(left);
      if k < m {
        m := k;
      }
      left := left - {k};
    }
  }

  lemma HasMore<T>(parts: seq<Part<T>>, p: Part<T>, n: int, section: seq<T>)
    requires Has(parts, n, section)
    ensures Has(parts + [p], n, section)
  {
    var k :| 0 <= k < |parts| && Reusable(parts[k], n, section);
    assert (parts + [p])[k] == parts[k];
  }

  /** Where the loop of `PutAll` stands in the sections; `more` is its guard. */
  ghost predicate Remaining<T>(file: seq<T>, size: nat, sections: seq<seq<T>>,
                               offset: nat, partSize: nat, done: nat, more: bool)
    requires size > 0
  {
    && offset <= |file| && done <= |sections|
    && (more ==> partSize == size && sections[done..] == Sections(file[offset..], size))
    && (!more ==> done == |sections|)
  }

  lemma RemainingStep<T>(file: seq<T>, size: nat, sections: seq<seq<T>>, offset: nat, done: nat)
    requires size > 0 && Remaining(file, size, sections, offset, size, done, true)
    ensures done < |sections|
    ensures var n := if offset + size > |file| then |file| - offset else size;
            && sections[done] == file[offset..offset + n]
            && Remaining(file, size, sections, offset + n, n, done + 1, offset + n < |file|)
  {
    var left := file[offset..];
    assert sections[done..][0] == sections[done];
    assert sections[done..][1..] == sections[done + 1..];
    assert |left| > size ==> left[size..] == file[offset + size..] && left[..size] == file[offset..offset + size];
  }

  lemma SentMore<T>(before: map<int, seq<T>>, after: map<int, seq<T>>, sections: seq<seq<T>>, sent: set<int>, n: int)
    ensures Sent(before, after, sections, sent) && 1 <= n <= |sections| ==>
      Sent(before, after[n := sections[n - 1]], sections, sent + {n})
  {
  }

  ghost predicate Stored<T>(store: map<int, seq<T>>, sections: seq<seq<T>>) {
    forall n :: 1 <= n <= |sections| ==> Holds(store, sections, n)
  }

  /** After a successful upload with a truthful list the server holds every section. */
  lemma AllStored<T>(old_: seq<Part<T>>, before: map<int, seq<T>>, after: map<int, seq<T>>,
                     sections: seq<seq<T>>, sent: set<int>)
    requires Truthful(old_, before) && Sent(before, after, sections, sent)
    requires OnlyMissing(old_, sections, |sections|, sent)
    ensures Stored(after, sections)
  {
    forall n | 1 <= n <= |sections| ensures Holds(after, sections, n) {
      if n !in sent {
        var k :| 0 <= k < |old_| && Reusable(old_[k], n, sections[n - 1]);
        assert old_[k].etag.Md5?;
      }
    }
  }

  /** A second upload of the file with a complete list sends nothing that was sent before. */
  lemma NotSentAgain<T>(listed: seq<Part<T>>, before: map<int, seq<T>>, after: map<int, seq<T>>, sections: seq<seq<T>>,
                        sent: set<int>, done: nat, again: set<int>)
    requires Sent(before, after, sections, sent) && Complete(listed, after)
    requires OnlyMissing(listed, sections, done, again)
    ensures sent !! again
  {
    forall n | n in sent ensures n !in again {
      assert after[n] == sections[n - 1] && Has(listed, n, after[n]);
    }
  }
}
