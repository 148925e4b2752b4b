/** Writing a text under several overlapping selections (godoc's format.go): a k-way merge
    of the selections' starts and ends drives a writer that delays one segment so that
    neighbours under the same selections are written as one. */
module GodocFormat {
  import opened Basics

  const INFINITY: nat := 2_000_000_000

  /** Bits in a Go int: `1 << uint(index)` is 0 from here on. */
  const WORD: nat := 64

  datatype Segment = Segment(start: nat, end: nat)

  /** What a Selection gives: consecutive, non-overlapping, non-empty segments. */
  predicate IsSelection(s: seq<Segment>) {
    && (forall i :: 0 <= i < |s| ==> s[i].start < s[i].end)
    && (forall i, j :: 0 <= i < j < |s| ==> s[i].end <= s[j].start)
  }

  type Selection = s: seq<Segment> | IsSelection(s) witness []

  predicate Covers(s: seq<Segment>, q: nat) {
    exists i :: 0 <= i < |s| && s[i].start <= q < s[i].end
  }

  /** The selections that cover a byte, as far as the bit set can hold them. */
  function Bits(sels: seq<Selection>, q: nat): set<nat> {
    set i: nat | i < |sels| && i < WORD && Covers(sels[i], q)
  }

  // ---------------------------------------------------------------- the merger

  /** The rest of one selection: `open` when the start of left[0] has been reported. */
  datatype Cursor = Cursor(left: Selection, open: bool)

  /** A Cursor as the merger's segment: a reported offset is replaced by infinity. */
  function View(c: Cursor): Segment {
    if c.left == [] then Segment(INFINITY, INFINITY)
    else if c.open then Segment(INFINITY, c.left[0].end)
    else c.left[0]
  }

  predicate Sound(c: Cursor) {
    c.open ==> c.left != []
  }

  function Head(s: Segment): nat {
    if s.start < s.end then s.start else s.end
  }

  /** The cursor after its next change was reported. */
  function Moved(c: Cursor): Cursor
    requires c.left != []
  {
    if c.open then Cursor(c.left[1..], false) else Cursor(c.left, true)
  }

  class Merger {
    var segments: seq<Segment>
    var rests: seq<seq<Segment>>      // what the selection functions will still return
    ghost var cursors: seq<Cursor>

    ghost predicate Valid()
      reads this
    {
      && |segments| == |rests| == |cursors|
      && forall i :: 0 <= i < |cursors| ==>
        && Sound(cursors[i])
        && segments[i] == View(cursors[i])
        && rests[i] == if cursors[i].left == [] then [] else cursors[i].left[1..]
    }

    /** `newMerger`. */
    constructor (selections: seq<Selection>)
      ensures Valid() && |cursors| == |selections|
      ensures forall i :: 0 <= i < |selections| ==> cursors[i] == Cursor(selections[i], false)
    {
      segments := seq(|selections|, i requires 0 <= i < |selections| =>
        if selections[i] == [] then Segment(INFINITY, INFINITY) else selections[i][0]);
      rests := seq(|selections|, i requires 0 <= i < |selections| =>
        if selections[i] == [] then [] else selections[i][1..]);
      cursors := seq(|selections|, i requires 0 <= i < |selections| => Cursor(selections[i], false));
    }

    /** The least offset below infinity, at its first selection; the scan of `next`. */
    method Least() returns (index: int, offs: nat, start: bool)
      requires Valid()
      ensures -1 <= index < |cursors|
      ensures index < 0 ==> offs == INFINITY
      ensures index >= 0 ==>
        && offs == Head(segments[index]) < INFINITY && start == !cursors[index].open && cursors[index].left != []
      ensures forall i :: 0 <= i < |cursors| ==> offs <= Head(segments[i])
    {
      offs, index, start := INFINITY, -1, false;
      for i := 0 to |segments|
        invariant -1 <= index < i && offs <= INFINITY
        invariant index < 0 ==> offs == INFINITY
        invariant index >= 0 ==>
          && offs == Head(segments[index]) < INFINITY && start == !cursors[index].open && cursors[index].left != []
        invariant forall j :: 0 <= j < i ==> offs <= Head(segments[j])
      {
        if segments[i].start < offs {
          offs, index, start := segments[i].start, i, true;
        } else if segments[i].end < offs {
          offs, index, start := segments[i].end, i, false;
        }
      }
    }

    /** `next`: reports the least change that is left and moves that selection alone. */
    method Next() returns (index: int, offs: nat, start: bool)
      requires Valid()
      modifies this
      ensures Valid() && |cursors| == |old(cursors)| && -1 <= index < |cursors|
      ensures index < 0 ==>
        cursors == old(cursors) && forall i :: 0 <= i < |cursors| ==> INFINITY <= Head(View(cursors[i]))
      ensures index >= 0 ==>
        && old(cursors[index].left) != []
        && cursors == old(cursors)[index := Moved(old(cursors[index]))]
        && start == !old(cursors[index].open)
        && offs == Head(View(old(cursors[index]))) < INFINITY
        && forall i :: 0 <= i < |cursors| ==> offs <= Head(View(old(cursors[i])))
    {
      index, offs, start := Least();
      if index < 0 {
        return;
      }
      cursors := cursors[index := Moved(cursors[index])];
      segments := segments[index := segments[index].(start := INFINITY)];
      if start {
        return;
      }
      segments := segments[index := segments[index].(end := INFINITY)];
      if rests[index] != [] {
        segments := segments[index := rests[index][0]];
        rests := rests[index := rests[index][1..]];
      }
    }
  }

  // ---------------------------------------------------------------- what a cursor says

  /** Whether what is left covers q, for q from the last change on. */
  predicate Covering(c: Cursor, q: nat)
  {
    if c.open && c.left != [] then q < c.left[0].end || Covers(c.left[1..], q) else Covers(c.left, q)
  }

  /** Up to the next change nothing changes. */
  lemma CoveringNow(c: Cursor, q: nat)
    ensures Sound(c) && q < Head(View(c)) && q < INFINITY ==> Covering(c, q) == c.open
  {
  }

  /** Reporting a change does not change what is covered from there on. */
  lemma CoveringMoved(c: Cursor, q: nat)
    requires Sound(c) && c.left != [] && Head(View(c)) <= q && Head(View(c)) < INFINITY
    ensures Covering(Moved(c), q) == Covering(c, q)
  {
    var d := Moved(c);
    if c.open {
      assert d.left == c.left[1..];
    } else {
      assert forall i :: 1 <= i < |c.left| ==> c.left[i] == c.left[1..][i - 1];
      assert Covers(c.left, q) ==> (q < c.left[0].end || Covers(c.left[1..], q));
    }
  }

  /** The next change after a move is not before it. */
  lemma MovedLater(c: Cursor)
    ensures Sound(c) && c.left != [] && Head(View(c)) < INFINITY ==>
      Sound(Moved(c)) && Head(View(c)) <= Head(View(Moved(c)))
  {
  }

  datatype Tag = Tag(offs: nat, start: bool)

  /** The changes of a selection up to offset n, in order. */
  function Tags(s: seq<Segment>, n: nat): seq<Tag> {
    if s == [] then []
    else
      var open := if s[0].start <= n then [Tag(s[0].start, true)] else [];
      var close := if s[0].end <= n then [Tag(s[0].end, false)] else [];
      open + close + Tags(s[1..], n)
  }

  function TagsLeft(c: Cursor, n: nat): seq<Tag>
    requires Sound(c)
  {
    if !c.open then Tags(c.left, n)
    else
      var close := if c.left[0].end <= n then [Tag(c.left[0].end, false)] else [];
      close + Tags(c.left[1..], n)
  }

  lemma TagsMoved(c: Cursor, n: nat)
    requires Sound(c) && c.left != [] && Head(View(c)) <= n < INFINITY
    ensures Sound(Moved(c)) && TagsLeft(c, n) == [Tag(Head(View(c)), !c.open)] + TagsLeft(Moved(c), n)
  {
  }

  /** No change up to n is left. */
  lemma {:induction false} TagsNone(c: Cursor, n: nat)
    requires Sound(c) && n < INFINITY && n < Head(View(c))
    ensures TagsLeft(c, n) == []
  {
    if c.left != [] {
      forall i | 0 <= i < |c.left[1..]| ensures c.left[1..][i].start > n {
        assert c.left[1..][i] == c.left[i + 1];
        assert c.left[0].end <= c.left[i + 1].start;
      }
      TagsBeyond(c.left[1..], n);
    }
  }

  lemma {:induction false} TagsBeyond(s: Selection, n: nat)
    requires forall i :: 0 <= i < |s| ==> s[i].start > n
    ensures Tags(s, n) == []
  {
    if s != [] {
      TagsBeyond(s[1..], n);
    }
  }

  // ---------------------------------------------------------------- what is written

  /** A call of the segment writer or of the link writer. */
  datatype Call<T> = Text(text: seq<T>, bits: set<nat>) | Link(tag: Tag)

  function Texts<T>(out: seq<Call<T>>): seq<T> {
    if out == [] then []
    else Texts(out[..|out| - 1]) + if out[|out| - 1].Text? then out[|out| - 1].text else []
  }

  function Links<T>(out: seq<Call<T>>): seq<Tag> {
    if out == [] then []
    else Links(out[..|out| - 1]) + if out[|out| - 1].Link? then [out[|out| - 1].tag] else []
  }

  /** Every byte of [from, to) has these selections. */
  predicate Uniform(sels: seq<Selection>, from: nat, to: nat, bits: set<nat>) {
    forall q :: from <= q < to ==> Bits(sels, q) == bits
  }

  /** The bit set says all about a byte exactly when no selection over it is numbered
      beyond the word. */
  lemma BitsComplete(sels: seq<Selection>, q: nat)
    ensures Bits(sels, q) == (set i: nat | i < |sels| && Covers(sels[i], q))
      <==> forall i: nat :: WORD <= i < |sels| ==> !Covers(sels[i], q)
  {
    forall i: nat | WORD <= i < |sels| && Covers(sels[i], q)
      ensures i in (set i: nat | i < |sels| && Covers(sels[i], q)) && i !in Bits(sels, q)
    {
    }
  }

  lemma UniformJoin(sels: seq<Selection>, a: nat, b: nat, c: nat, bits: set<nat>)
    ensures Uniform(sels, a, b, bits) && Uniform(sels, b, c, bits) ==> Uniform(sels, a, c, bits)
  {
  }

  /** The call fits behind those before it: a text is not empty, its bytes all have its
      selections and differ in them from a text directly before; a tag is where it says. */
  predicate FitsBehind<T>(before: seq<Call<T>>, c: Call<T>, sels: seq<Selection>) {
    var at := |Texts(before)|;
    match c
    case Text(t, bits) =>
      && t != [] && Uniform(sels, at, at + |t|, bits)
      && (before != [] && before[|before| - 1].Text? ==> before[|before| - 1].bits != bits)
    case Link(tag) => tag.offs == at
  }

  predicate Good<T>(out: seq<Call<T>>, sels: seq<Selection>) {
    forall j :: 0 <= j < |out| ==> FitsBehind(out[..j], out[j], sels)
  }

  lemma Append<T>(out: seq<Call<T>>, c: Call<T>, sels: seq<Selection>)
    requires Good(out, sels) && FitsBehind(out, c, sels)
    ensures Good(out + [c], sels)
    ensures Texts(out + [c]) == Texts(out) + if c.Text? then c.text else []
    ensures Links(out + [c]) == Links(out) + if c.Link? then [c.tag] else []
  {
    assert (out + [c])[..|out|] == out;
    forall j | 0 <= j < |out + [c]| ensures FitsBehind((out + [c])[..j], (out + [c])[j], sels) {
      assert j < |out| ==> (out + [c])[..j] == out[..j];
    }
  }

  // ---------------------------------------------------------------- FormatSelections

  /** The local state of `FormatSelections`: the text up to lastOffs is written except for
      the delayed [begin, lastOffs). */
  datatype Writer<T> = Writer(out: seq<Call<T>>, lastOffs: nat, begin: nat, end: nat, bits: set<nat>)

  ghost predicate Written<T>(w: Writer<T>, text: seq<T>, sels: seq<Selection>) {
    && w.begin <= w.end == w.lastOffs <= |text|
    && Texts(w.out) == text[..w.begin] && Good(w.out, sels)
    && Uniform(sels, w.begin, w.end, w.bits)
    && (w.out != [] && w.out[|w.out| - 1].Text? ==> w.begin < w.end && w.out[|w.out| - 1].bits != w.bits)
  }

  class Formatter<T> {
    const text: seq<T>
    ghost const sels: seq<Selection>
    var out: seq<Call<T>>
    var bitset: set<nat>
    var lastOffs: nat
    var begin: nat
    var end: nat
    var lastBits: set<nat>

    constructor (text: seq<T>, ghost sels: seq<Selection>)
      ensures this.text == text && this.sels == sels
      ensures Valid() && lastOffs == 0 && bitset == {} && out == []
    {
      this.text, this.sels := text, sels;
      out, bitset, lastOffs, begin, end, lastBits := [], {}, 0, 0, 0, {};
    }

    ghost function State(): Writer<T>
      reads this
    {
      Writer(out, lastOffs, begin, end, lastBits)
    }

    ghost predicate Valid()
      reads this
    {
      Written(State(), text, sels)
    }

    /** `flush`. */
    method Flush()
      requires Valid()
      modifies `out, `begin
      ensures begin == end && Texts(out) == text[..end] && Good(out, sels)
      ensures Links(out) == old(Links(out))
      ensures old(begin) < end ==> out != [] && out[|out| - 1] == Text(text[old(begin)..end], lastBits)
      ensures old(begin) == end ==> out == old(out)
    {
      if begin < end {
        var c := Text(text[begin..end], lastBits);
        Append(out, c, sels);
        out := out + [c];
      }
      begin := end;
    }

    /** `segment`. */
    method Segment(to: nat)
      requires Valid() && lastOffs <= to <= |text| && Uniform(sels, lastOffs, to, bitset)
      modifies `out, `begin, `end, `lastBits, `lastOffs
      ensures Valid() && lastOffs == to && Links(out) == old(Links(out))
    {
      if lastOffs < to {
        if end != lastOffs || lastBits != bitset {
          Flush();
          begin := lastOffs;
        } else {
          UniformJoin(sels, begin, lastOffs, to, bitset);
        }
        end := to;
        lastBits := bitset;
        lastOffs := to;
      }
    }

    /** The link tag, with everything before it written. */
    method WriteLink(tag: Tag)
      requires Valid() && tag.offs == lastOffs
      modifies `out, `begin
      ensures Valid() && Links(out) == old(Links(out)) + [tag]
    {
      Flush();
      Append(out, Link(tag), sels);
      out := out + [Link(tag)];
    }

    /** One round of the loop of `FormatSelections`: a change of selection `index`. */
    method Change(index: nat, offs: nat, start: bool, link: bool)
      requires Valid() && lastOffs <= offs <= |text| && Uniform(sels, lastOffs, offs, bitset)
      modifies this
      ensures Valid() && lastOffs == offs
      ensures Links(out) == old(Links(out)) + if link then [Tag(offs, start)] else []
      ensures bitset == if link then old(bitset) else Masked(old(bitset), index, start)
    {
      Segment(offs);
      if link {
        WriteLink(Tag(offs, start));
      } else {
        bitset := Masked(bitset, index, start);
      }
    }
  }

  /** Setting or clearing bit `1 << uint(index)`. */
  function Masked(bits: set<nat>, index: nat, start: bool): set<nat> {
    if index >= WORD then bits else if start then bits + {index} else bits - {index}
  }

  function OpenBits(cursors: seq<Cursor>, count: nat): set<nat> {
    set i: nat | i < count && i < |cursors| && i < WORD && cursors[i].open
  }

  /** The cursors agree with the selections from offset `from` on. */
  ghost predicate Tracks(cursors: seq<Cursor>, sels: seq<Selection>, from: nat) {
    && |sels| <= |cursors|
    && (forall i :: 0 <= i < |cursors| ==> Sound(cursors[i]) && from <= Head(View(cursors[i])))
    && (forall i, q: nat :: 0 <= i < |sels| && from <= q ==> Covering(cursors[i], q) == Covers(sels[i], q))
  }

  lemma TracksBits(cursors: seq<Cursor>, sels: seq<Selection>, from: nat, q: nat)
    requires Tracks(cursors, sels, from) && from <= q < INFINITY
    requires forall i :: 0 <= i < |cursors| ==> q < Head(View(cursors[i]))
    ensures Bits(sels, q) == OpenBits(cursors, |sels|)
  {
    forall i: nat | i < |sels| ensures Covers(sels[i], q) == cursors[i].open {
      assert Covering(cursors[i], q) == Covers(sels[i], q);
      CoveringNow(cursors[i], q);
    }
  }

  /** Up to the next change all bytes have the open selections. */
  lemma TracksUniform(cursors: seq<Cursor>, sels: seq<Selection>, from: nat, to: nat)
    requires Tracks(cursors, sels, from) && to <= INFINITY
    requires forall i :: 0 <= i < |cursors| ==> to <= Head(View(cursors[i]))
    ensures Uniform(sels, from, to, OpenBits(cursors, |sels|))
  {
    forall q | from <= q < to ensures Bits(sels, q) == OpenBits(cursors, |sels|) {
      TracksBits(cursors, sels, from, q);
    }
  }

  /** Reporting a change of selection `index` at `to`, the least one. */
  lemma TracksMoved(cursors: seq<Cursor>, sels: seq<Selection>, from: nat, index: nat, to: nat)
    requires Tracks(cursors, sels, from) && index < |cursors| && cursors[index].left != []
    requires to == Head(View(cursors[index])) < INFINITY
    requires forall i :: 0 <= i < |cursors| ==> to <= Head(View(cursors[i]))
    ensures Tracks(cursors[index := Moved(cursors[index])], sels, to)
  {
    var moved := cursors[index := Moved(cursors[index])];
    MovedLater(cursors[index]);
    forall i, q: nat | 0 <= i < |sels| && to <= q ensures Covering(moved[i], q) == Covers(sels[i], q) {
      if i == index {
        CoveringMoved(cursors[i], q);
      }
      assert from <= q;
      assert Covering(cursors[i], q) == Covers(sels[i], q);
    }
  }

  /** The mask arithmetic keeps the open selections. */
  lemma OpenMoved(cursors: seq<Cursor>, count: nat, index: nat)
    requires index < |cursors| && cursors[index].left != []
    ensures var moved := cursors[index := Moved(cursors[index])];
            && (count <= index ==> OpenBits(moved, count) == OpenBits(cursors, count))
            && (index < count ==>
                  OpenBits(moved, count) == Masked(OpenBits(cursors, count), index, !cursors[index].open))
  {
  }

  /** Changes still to be reported. */
  function Changes(cursors: seq<Cursor>): nat {
    if cursors == [] then 0
    else 2 * |cursors[0].left| + (if cursors[0].open then 0 else 1) + Changes(cursors[1..])
  }

  lemma {:induction false} ChangesMoved(cursors: seq<Cursor>, index: nat)
    requires index < |cursors| && cursors[index].left != []
    ensures Changes(cursors[index := Moved(cursors[index])]) < Changes(cursors)
  {
    var moved := cursors[index := Moved(cursors[index])];
    if index == 0 {
      assert moved[1..] == cursors[1..];
    } else {
      ChangesMoved(cursors[1..], index - 1);
      assert moved[1..] == cursors[1..][index - 1 := Moved(cursors[index])];
    }
  }

  /** The tags written and those still to come are those of the links selection. */
  predicate TagsGo(cursors: seq<Cursor>, count: nat, links: Option<Selection>, written: seq<Tag>, n: nat)
  {
    match links
    case None => written == [] && |cursors| == count
    case Some(l) =>
      |cursors| == count + 1 && Sound(cursors[count]) && written + TagsLeft(cursors[count], n) == Tags(l, n)
  }

  lemma TagsGoMoved(cursors: seq<Cursor>, count: nat, links: Option<Selection>, written: seq<Tag>, n: nat, index: nat)
    requires TagsGo(cursors, count, links, written, n) && index < |cursors| && cursors[index].left != []
    requires Sound(cursors[index]) && Head(View(cursors[index])) <= n < INFINITY
    ensures var moved := cursors[index := Moved(cursors[index])];
            var tag := Tag(Head(View(cursors[index])), !cursors[index].open);
            TagsGo(moved, count, links, if index == count then written + [tag] else written, n)
  {
    if index == count {
      TagsMoved(cursors[index], n);
      var tag := Tag(Head(View(cursors[index])), !cursors[index].open);
      var l := TagsLeft(Moved(cursors[index]), n);
      assert written + ([tag] + l) == (written + [tag]) + l;
    }
  }

  /** What the loop of `FormatSelections` keeps, about the merger and the bit set. */
  ghost predicate Going(cursors: seq<Cursor>, sels: seq<Selection>, links: Option<Selection>, n: nat,
                        lastOffs: nat, bitset: set<nat>, written: seq<Tag>) {
    && Tracks(cursors, sels, lastOffs) && bitset == OpenBits(cursors, |sels|)
    && TagsGo(cursors, |sels|, links, written, n)
  }

  lemma GoingChange(cursors: seq<Cursor>, sels: seq<Selection>, links: Option<Selection>, n: nat,
                    lastOffs: nat, bitset: set<nat>, written: seq<Tag>, index: nat)
    requires n < INFINITY && Going(cursors, sels, links, n, lastOffs, bitset, written)
    requires index < |cursors| && cursors[index].left != [] && Head(View(cursors[index])) <= n
    requires forall i :: 0 <= i < |cursors| ==> Head(View(cursors[index])) <= Head(View(cursors[i]))
    ensures var offs, start := Head(View(cursors[index])), !cursors[index].open;
            var link := links.Some? && index == |sels|;
            && lastOffs <= offs && Uniform(sels, lastOffs, offs, bitset)
            && Going(cursors[index := Moved(cursors[index])], sels, links, n, offs,
                     if link then bitset else Masked(bitset, index, start),
                     written + if link then [Tag(offs, start)] else [])
            && Changes(cursors[index := Moved(cursors[index])]) < Changes(cursors)
  {
    var offs := Head(View(cursors[index]));
    TracksUniform(cursors, sels, lastOffs, offs);
    TracksMoved(cursors, sels, lastOffs, index, offs);
    TagsGoMoved(cursors, |sels|, links, written, n, index);
    OpenMoved(cursors, |sels|, index);
    ChangesMoved(cursors, index);
    assert written + [] == written;
  }

  lemma GoingEnd(cursors: seq<Cursor>, sels: seq<Selection>, links: Option<Selection>, n: nat,
                 lastOffs: nat, bitset: set<nat>, written: seq<Tag>)
    requires n < INFINITY && Going(cursors, sels, links, n, lastOffs, bitset, written)
    requires forall i :: 0 <= i < |cursors| ==> n < Head(View(cursors[i]))
    ensures Uniform(sels, lastOffs, n, bitset)
    ensures written == if links.Some? then Tags(links.value, n) else []
  {
    TracksUniform(cursors, sels, lastOffs, n);
    if links.Some? {
      TagsNone(cursors[|sels|], n);
      assert written + [] == written;
    }
  }

  /** `FormatSelections`: the calls of the two writers, in order. The texts make up the
      input; each call's bits are the selections over each of its bytes; the tags are those
      of the links selection, each at its own offset; and two texts with no tag between
      them have different selections. */
  method FormatSelections<T>(text: seq<T>, links: Option<Selection>, selections: seq<Selection>)
    returns (out: seq<Call<T>>)
    requires |text| < INFINITY
    ensures Texts(out) == text
    ensures Links(out) == if links.Some? then Tags(links.value, |text|) else []
    ensures forall j :: 0 <= j < |out| && out[j].Text? ==>
      out[j].text != [] && forall q :: |Texts(out[..j])| <= q < |Texts(out[..j])| + |out[j].text| ==>
        out[j].bits == Bits(selections, q)
    ensures forall j :: 0 <= j < |out| && out[j].Link? ==> out[j].tag.offs == |Texts(out[..j])|
    ensures forall j :: 0 < j < |out| && out[j - 1].Text? && out[j].Text? ==> out[j - 1].bits != out[j].bits
  {
    out := WriterCalls(text, links, selections);
    forall j | 0 <= j < |out|
      ensures out[j].Text? ==>
        out[j].text != [] && forall q :: |Texts(out[..j])| <= q < |Texts(out[..j])| + |out[j].text| ==>
          out[j].bits == Bits(selections, q)
      ensures out[j].Link? ==> out[j].tag.offs == |Texts(out[..j])|
      ensures j > 0 && out[j - 1].Text? && out[j].Text? ==> out[j - 1].bits != out[j].bits
    {
      assert FitsBehind(out[..j], out[j], selections);
      assert j > 0 ==> out[..j][|out[..j]| - 1] == out[j - 1];
    }
  }

  lemma GoingStart(cursors: seq<Cursor>, sels: seq<Selection>, links: Option<Selection>, n: nat)
    requires var all := if links.Some? then sels + [links.value] else sels;
             |cursors| == |all| && forall i :: 0 <= i < |all| ==> cursors[i] == Cursor(all[i], false)
    ensures Going(cursors, sels, links, n, 0, {}, [])
  {
    assert OpenBits(cursors, |sels|) == {};
    if links.Some? {
      assert [] + Tags(links.value, n) == Tags(links.value, n);
    }
  }

  /** One round of the loop: false when there is no change left in the text. */
  method Round<T>(changes: Merger, f: Formatter<T>, links: Option<Selection>, count: nat) returns (more: bool)
    requires changes.Valid() && f.Valid() && count == |f.sels| && |f.text| < INFINITY
    requires Going(changes.cursors, f.sels, links, |f.text|, f.lastOffs, f.bitset, Links(f.out))
    modifies changes, f
    ensures changes.Valid() && f.Valid()
    ensures more ==>
      && Going(changes.cursors, f.sels, links, |f.text|, f.lastOffs, f.bitset, Links(f.out))
      && Changes(changes.cursors) < old(Changes(changes.cursors))
    ensures !more ==>
      && Uniform(f.sels, f.lastOffs, |f.text|, f.bitset)
      && Links(f.out) == if links.Some? then Tags(links.value, |f.text|) else []
  {
    ghost var cursors := changes.cursors;
    var index, offs, start := changes.Next();
    if index < 0 || offs > |f.text| {
      GoingEnd(cursors, f.sels, links, |f.text|, f.lastOffs, f.bitset, Links(f.out));
      return false;
    }
    GoingChange(cursors, f.sels, links, |f.text|, f.lastOffs, f.bitset, Links(f.out), index);
    f.Change(index, offs, start, links.Some? && index == count);
    more := true;
  }

  /** The loop of `FormatSelections`. */
  method WriterCalls<T>(text: seq<T>, links: Option<Selection>, selections: seq<Selection>) returns (out: seq<Call<T>>)
    requires |text| < INFINITY
    ensures Texts(out) == text && Good(out, selections)
    ensures Links(out) == if links.Some? then Tags(links.value, |text|) else []
  {
    var changes := new Merger(if links.Some? then selections + [links.value] else selections);
    var f := new Formatter(text, selections);
    GoingStart(changes.cursors, selections, links, |text|);
    var more := true;
    while more
      invariant changes.Valid() && f.Valid()
      invariant more ==> Going(changes.cursors, selections, links, |text|, f.lastOffs, f.bitset, Links(f.out))
      invariant !more ==>
        && Uniform(selections, f.lastOffs, |text|, f.bitset)
        && Links(f.out) == if links.Some? then Tags(links.value, |text|) else []
      decreases more, Changes(changes.cursors)
    {
      more := Round(changes, f, links, |selections|);
    }
    f.Segment(|text|);
    f.Flush();
    assert text[..|text|] == text;
    out := f.out;
  }
}
