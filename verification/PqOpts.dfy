/** Connection strings: `ParseURL` joins options into one (url.go), `parseOpts` takes it apart
    (conn.go). */
module PqOpts {
  import opened Basics

  datatype Opt = Opt(key: string, value: string)

  /** `unicode.IsSpace`. */
  predicate IsSpace(c: char) {
    var n := c as int;
    9 <= n <= 13 || n == 0x20 || n == 0x85 || n == 0xA0 || n == 0x1680 || 0x2000 <= n <= 0x200A
    || n == 0x2028 || n == 0x2029 || n == 0x202F || n == 0x205F || n == 0x3000
  }

  // ---------------------------------------------------------------- writing

  function EscapeChar(c: char): string {
    if c == ' ' || c == '\'' || c == '\\' then ['\\', c] else [c]
  }

  /** `escaper.Replace`. */
  function Escape(v: string): string {
    if v == [] then [] else EscapeChar(v[0]) + Escape(v[1..])
  }

  function OptText(o: Opt): string {
    o.key + "=" + Escape(o.value)
  }

  /** `strings.Join(kvs, " ")`. */
  function Joined(opts: seq<Opt>): string {
    if opts == [] then []
    else if |opts| == 1 then OptText(opts[0])
    else OptText(opts[0]) + " " + Joined(opts[1..])
  }

  // ---------------------------------------------------------------- reading, on the rest of the text

  function SkipSpaces(s: string): (r: string)
    ensures |r| <= |s| && (r != [] ==> !IsSpace(r[0]))
  {
    if s == [] || !IsSpace(s[0]) then s else SkipSpaces(s[1..])
  }

  /** The key in front, up to white space or "=". */
  function KeyOf(s: string): string {
    if s == [] || IsSpace(s[0]) || s[0] == '=' then [] else [s[0]] + KeyOf(s[1..])
  }

  function AfterKey(s: string): (r: string)
    ensures |r| <= |s|
  {
    if s == [] || IsSpace(s[0]) || s[0] == '=' then s else AfterKey(s[1..])
  }

  datatype Piece = Piece(text: string, rest: string)

  function Cons(c: char, p: Option<Piece>): Option<Piece> {
    if p.None? then None else Some(Piece([c] + p.value.text, p.value.rest))
  }

  /** A value without quotes, up to white space; None when it ends in a backslash. */
  function Unquoted(s: string): (p: Option<Piece>)
    ensures p.Some? ==> |p.value.rest| <= |s|
  {
    if s == [] then Some(Piece([], []))
    else if IsSpace(s[0]) then Some(Piece([], s[1..]))
    else if s[0] != '\\' then Cons(s[0], Unquoted(s[1..]))
    else if |s| == 1 then None
    else Cons(s[1], Unquoted(s[2..]))
  }

  /** A value in quotes, behind the opening one; None when it is not closed. */
  function Quoted(s: string): (p: Option<Piece>)
    ensures p.Some? ==> |p.value.rest| <= |s|
  {
    if s == [] then None
    else if s[0] == '\'' then Some(Piece([], s[1..]))
    else if s[0] != '\\' then Cons(s[0], Quoted(s[1..]))
    else if |s| == 1 then None
    else Cons(s[1], Quoted(s[2..]))
  }

  /** The value behind "=", s not being empty. */
  function ValueOf(s: string): (p: Option<Piece>)
    requires s != []
    ensures p.Some? ==> |p.value.rest| <= |s|
  {
    if s[0] == '\'' then Quoted(s[1..]) else Unquoted(s)
  }

  /** What is behind the "=" after a key; None when there is none. */
  function AfterEquals(s: string): (r: Option<string>)
    ensures r.Some? ==> |r.value| < |s|
  {
    var t := if s != [] && IsSpace(s[0]) then SkipSpaces(s[1..]) else s;
    if t == [] || t[0] != '=' then None else Some(t[1..])
  }

  /** All options, in the order they are set; None is an error. */
  function Parse(s: string): Option<seq<Opt>>
    decreases |s|
  {
    var t := SkipSpaces(s);
    if t == [] then Some([])
    else
      var u := AfterEquals(AfterKey(t));
      if u.None? then None
      else
        var v := SkipSpaces(u.value);
        if v == [] then Some([Opt(KeyOf(t), [])])
        else
          var p := ValueOf(v);
          if p.None? then None else First(Opt(KeyOf(t), p.value.text), Parse(p.value.rest))
  }

  function First(o: Opt, r: Option<seq<Opt>>): Option<seq<Opt>> {
    if r.None? then None else Some([o] + r.value)
  }

  // ---------------------------------------------------------------- the scanner

  class Scanner {
    const s: string
    var i: nat

    ghost predicate Valid()
      reads this
    {
      i <= |s|
    }

    ghost function Rest(): string
      reads this
      requires Valid()
    {
      s[i..]
    }

    constructor (s: string)
      ensures Valid() && Rest() == s
    {
      this.s := s;
      i := 0;
    }

    /** `Next`. */
    method Next() returns (r: char, ok: bool)
      requires Valid()
      modifies this
      ensures Valid()
      ensures ok <==> old(Rest()) != []
      ensures ok ==> old(Rest()) == [r] + Rest()
      ensures !ok ==> r == 0 as char && Rest() == []
    {
      if i >= |s| {
        return 0 as char, false;
      }
      r, ok := s[i], true;
      i := i + 1;
    }

    /** `SkipSpaces`. */
    method SkipBlank() returns (r: char, ok: bool)
      requires Valid()
      modifies this
      ensures Valid()
      ensures ok <==> SkipSpaces(old(Rest())) != []
      ensures ok ==> SkipSpaces(old(Rest())) == [r] + Rest()
      ensures !ok ==> r == 0 as char && Rest() == []
    {
      r, ok := Next();
      while IsSpace(r) && ok
        invariant Valid()
        invariant ok ==> SkipSpaces(old(Rest())) == SkipSpaces([r] + Rest())
        invariant !ok ==> SkipSpaces(old(Rest())) == [] && r == 0 as char && Rest() == []
        decreases |s| - i, ok
      {
        assert ([r] + Rest())[1..] == Rest();
        r, ok := Next();
      }
    }
  }

  /** What the scanner holds: the character in hand, if there is one, and the rest. */
  ghost function Ahead(r: char, ok: bool, rest: string): string {
    if ok then [r] + rest else []
  }

  lemma KeyStep(r: char, rest: string)
    requires !IsSpace(r) && r != '='
    ensures KeyOf([r] + rest) == [r] + KeyOf(rest) && AfterKey([r] + rest) == AfterKey(rest)
  {
    assert ([r] + rest)[1..] == rest;
  }

  /** The key loop. */
  method ScanKey(sc: Scanner, r0: char) returns (key: string, r: char, ok: bool)
    requires sc.Valid()
    modifies sc
    ensures sc.Valid()
    ensures key == KeyOf([r0] + old(sc.Rest())) && Ahead(r, ok, sc.Rest()) == AfterKey([r0] + old(sc.Rest()))
    ensures !ok ==> r == 0 as char && sc.Rest() == []
    ensures ok ==> IsSpace(r) || r == '='
  {
    key, r, ok := [], r0, true;
    ghost var all := [r0] + sc.Rest();
    while !IsSpace(r) && r != '='
      invariant sc.Valid() && ok
      invariant key + KeyOf([r] + sc.Rest()) == KeyOf(all) && AfterKey([r] + sc.Rest()) == AfterKey(all)
      decreases |sc.s| - sc.i
    {
      KeyStep(r, sc.Rest());
      ghost var was, k := sc.Rest(), r;
      assert key + ([r] + KeyOf(was)) == (key + [r]) + KeyOf(was);
      key := key + [r];
      r, ok := sc.Next();
      if !ok {
        assert key + [] == key;
        return;
      }
    }
    assert key + [] == key;
  }

  lemma UnquotedStep(done: string, r: char, rest: string)
    ensures !IsSpace(r) && r != '\\' ==> Behind(done, Unquoted([r] + rest)) == Behind(done + [r], Unquoted(rest))
    ensures r == '\\' && rest != [] ==>
      Behind(done, Unquoted([r] + rest)) == Behind(done + [rest[0]], Unquoted(rest[1..]))
  {
    assert ([r] + rest)[1..] == rest;
    if r == '\\' && rest != [] {
      assert ([r] + rest)[2..] == rest[1..];
      BehindCons(done, rest[0], Unquoted(rest[1..]));
    } else {
      BehindCons(done, r, Unquoted(rest));
    }
  }

  lemma QuotedStep(done: string, r: char, rest: string)
    ensures r != '\'' && r != '\\' ==> Behind(done, Quoted([r] + rest)) == Behind(done + [r], Quoted(rest))
    ensures r == '\\' && rest != [] ==> Behind(done, Quoted([r] + rest)) == Behind(done + [rest[0]], Quoted(rest[1..]))
  {
    assert ([r] + rest)[1..] == rest;
    if r == '\\' && rest != [] {
      assert ([r] + rest)[2..] == rest[1..];
      BehindCons(done, rest[0], Quoted(rest[1..]));
    } else {
      BehindCons(done, r, Quoted(rest));
    }
  }

  function Behind(done: string, p: Option<Piece>): Option<Piece> {
    if p.None? then None else Some(Piece(done + p.value.text, p.value.rest))
  }

  lemma BehindCons(done: string, c: char, p: Option<Piece>)
    ensures Behind(done, Cons(c, p)) == Behind(done + [c], p)
  {
    if p.Some? {
      assert done + ([c] + p.value.text) == (done + [c]) + p.value.text;
    }
  }

  lemma BehindNothing(p: Option<Piece>)
    ensures Behind([], p) == p
  {
    if p.Some? {
      assert [] + p.value.text == p.value.text;
    }
  }

  /** The loop for a value without quotes; false is the error. */
  method ScanUnquoted(sc: Scanner, r0: char) returns (val: string, fine: bool)
    requires sc.Valid()
    modifies sc
    ensures sc.Valid()
    ensures var p := Unquoted([r0] + old(sc.Rest()));
            if fine then p == Some(Piece(val, sc.Rest())) else p == None
  {
    val, fine := [], true;
    var r, ok := r0, true;
    ghost var all := [r0] + sc.Rest();
    BehindNothing(Unquoted(all));
    while !IsSpace(r)
      invariant sc.Valid()
      invariant Behind(val, Unquoted([r] + sc.Rest())) == Unquoted(all)
      decreases |sc.s| - sc.i
    {
      UnquotedStep(val, r, sc.Rest());
      ghost var was := sc.Rest();
      if r == '\\' {
        r, ok := sc.Next();
        if !ok {
          return [], false;
        }
        assert was[1..] == sc.Rest();
      }
      val := val + [r];
      r, ok := sc.Next();
      if !ok {
        assert val + [] == val;
        return;
      }
    }
    assert val + [] == val;
    assert ([r] + sc.Rest())[1..] == sc.Rest();
  }

  /** The loop for a value in quotes. */
  method ScanQuoted(sc: Scanner) returns (val: string, fine: bool)
    requires sc.Valid()
    modifies sc
    ensures sc.Valid()
    ensures var p := Quoted(old(sc.Rest()));
            if fine then p == Some(Piece(val, sc.Rest())) else p == None
  {
    val := [];
    ghost var all := sc.Rest();
    BehindNothing(Quoted(all));
    while true
      invariant sc.Valid()
      invariant Behind(val, Quoted(sc.Rest())) == Quoted(all)
      decreases |sc.s| - sc.i
    {
      var r, ok := sc.Next();
      if !ok {
        return [], false;
      }
      QuotedStep(val, r, sc.Rest());
      if r == '\'' {
        assert ([r] + sc.Rest())[1..] == sc.Rest() && val + [] == val;
        return val, true;
      }
      if r == '\\' {
        ghost var was := sc.Rest();
        r, ok := sc.Next();
        assert ok ==> was[1..] == sc.Rest();
      }
      val := val + [r];
    }
  }

  /** One option: None at the end of the text. */
  datatype Step = End | Fail | Set(o: Opt, last: bool)

  /** What one round of the loop of `parseOpts` finds. */
  function StepOf(s: string): Step {
    var t := SkipSpaces(s);
    if t == [] then End
    else
      var u := AfterEquals(AfterKey(t));
      if u.None? then Fail
      else
        var v := SkipSpaces(u.value);
        if v == [] then Set(Opt(KeyOf(t), []), true)
        else
          var p := ValueOf(v);
          if p.None? then Fail else Set(Opt(KeyOf(t), p.value.text), false)
  }

  function RestOf(s: string): string
    requires StepOf(s).Set? && !StepOf(s).last
  {
    ValueOf(SkipSpaces(AfterEquals(AfterKey(SkipSpaces(s))).value)).value.rest
  }

  lemma ParseStep(s: string)
    ensures Parse(s) ==
      match StepOf(s) {
        case End => Some([])
        case Fail => None
        case Set(o, last) => if last then Some([o]) else First(o, Parse(RestOf(s)))
      }
  {
  }

  /** The "=" behind a key, with white space before it. */
  method ScanEquals(sc: Scanner, r0: char, ok0: bool) returns (fine: bool)
    requires sc.Valid() && (!ok0 ==> r0 == 0 as char && sc.Rest() == []) && (ok0 ==> IsSpace(r0) || r0 == '=')
    modifies sc
    ensures sc.Valid()
    ensures var e := AfterEquals(Ahead(r0, ok0, old(sc.Rest())));
            if fine then e == Some(sc.Rest()) else e == None
  {
    var r, ok := r0, ok0;
    assert ok0 ==> ([r0] + sc.Rest())[1..] == sc.Rest();
    if r != '=' {
      r, ok := sc.SkipBlank();
    }
    fine := r == '=' && ok;
    assert ok ==> ([r] + sc.Rest())[1..] == sc.Rest();
  }

  /** One round of the loop of `parseOpts`. */
  method ScanOpt(sc: Scanner) returns (step: Step)
    requires sc.Valid()
    modifies sc
    ensures sc.Valid() && step == StepOf(old(sc.Rest()))
    ensures step.Set? && !step.last ==> sc.Rest() == RestOf(old(sc.Rest()))
    ensures step.Set? && !step.last ==> |sc.Rest()| < |old(sc.Rest())|
  {
    var r, ok := sc.SkipBlank();
    if !ok {
      return End;
    }
    var key;
    key, r, ok := ScanKey(sc, r);
    var fine := ScanEquals(sc, r, ok);
    if !fine {
      return Fail;
    }
    r, ok := sc.SkipBlank();
    if !ok {
      return Set(Opt(key, []), true);
    }
    var val;
    if r != '\'' {
      val, fine := ScanUnquoted(sc, r);
    } else {
      assert ([r] + sc.Rest())[1..] == sc.Rest();
      val, fine := ScanQuoted(sc);
    }
    step := if fine then Set(Opt(key, val), false) else Fail;
  }

  /** `parseOpts`: the options it sets, in order; None when it gives an error. */
  method ParseOpts(name: string) returns (opts: Option<seq<Opt>>)
    ensures opts == Parse(name)
  {
    var sc := new Scanner(name);
    var done: seq<Opt> := [];
    OptsNothing(Parse(name));
    while true
      invariant sc.Valid() && fresh(sc)
      invariant OptsBehind(done, Parse(sc.Rest())) == Parse(name)
      decreases |sc.Rest()|
    {
      ghost var rest := sc.Rest();
      ParseStep(rest);
      var step := ScanOpt(sc);
      match step {
        case End =>
          assert done + [] == done;
          return Some(done);
        case Fail =>
          return None;
        case Set(o, last) =>
          if last {
            return Some(done + [o]);
          }
          OptsFirst(done, o, Parse(sc.Rest()));
          done := done + [o];
      }
    }
  }

  function OptsBehind(done: seq<Opt>, r: Option<seq<Opt>>): Option<seq<Opt>> {
    if r.None? then None else Some(done + r.value)
  }

  lemma OptsFirst(done: seq<Opt>, o: Opt, r: Option<seq<Opt>>)
    ensures OptsBehind(done, First(o, r)) == OptsBehind(done + [o], r)
  {
    if r.Some? {
      assert done + ([o] + r.value) == (done + [o]) + r.value;
    }
  }

  lemma OptsNothing(r: Option<seq<Opt>>)
    ensures OptsBehind([], r) == r
  {
    if r.Some? {
      assert [] + r.value == r.value;
    }
  }

  // ---------------------------------------------------------------- what is joined is parsed back

  predicate GoodKey(k: string) {
    forall i :: 0 <= i < |k| ==> !IsSpace(k[i]) && k[i] != '='
  }

  /** White space other than a blank is not escaped. */
  predicate GoodValue(v: string) {
    forall i :: 0 <= i < |v| ==> v[i] == ' ' || !IsSpace(v[i])
  }

  lemma {:induction false} KeyReads(k: string, rest: string)
    requires GoodKey(k)
    ensures KeyOf(k + "=" + rest) == k && AfterKey(k + "=" + rest) == "=" + rest
  {
    var s := k + "=" + rest;
    if k != [] {
      KeyReads(k[1..], rest);
      assert s[1..] == k[1..] + "=" + rest;
    } else {
      assert s == "=" + rest;
    }
  }

  /** The escaped value reads back up to white space or the end. */
  lemma {:induction false} ValueReads(v: string, rest: string)
    requires GoodValue(v)
    ensures Unquoted(Escape(v) + rest) == Behind(v, Unquoted(rest))
    decreases |v|
  {
    if v == [] {
      assert Escape(v) + rest == rest;
      BehindNothing(Unquoted(rest));
    } else {
      ValueReads(v[1..], rest);
      var tail := Escape(v[1..]) + rest;
      assert Escape(v) + rest == EscapeChar(v[0]) + tail;
      CharReads(v[0], tail);
      BehindBehind(v, Unquoted(rest));
    }
  }

  lemma CharReads(c: char, tail: string)
    requires c == ' ' || !IsSpace(c)
    ensures Unquoted(EscapeChar(c) + tail) == Cons(c, Unquoted(tail))
  {
    var s := EscapeChar(c) + tail;
    if |EscapeChar(c)| == 2 {
      assert s[0] == '\\' && s[1] == c && s[2..] == tail;
    } else {
      assert s[1..] == tail;
    }
  }

  lemma BehindBehind(v: string, p: Option<Piece>)
    requires v != []
    ensures Cons(v[0], Behind(v[1..], p)) == Behind(v, p)
  {
    if p.Some? {
      assert [v[0]] + (v[1..] + p.value.text) == v + p.value.text;
    }
  }

  lemma NoSpaces(s: string)
    ensures s != [] && !IsSpace(s[0]) ==> SkipSpaces(s) == s
  {
  }

  lemma KeyAndEquals(k: string, v: string)
    requires GoodKey(k)
    ensures var s := k + "=" + v;
            s != [] && SkipSpaces(s) == s && KeyOf(s) == k && AfterEquals(AfterKey(s)) == Some(v)
  {
    var s := k + "=" + v;
    assert s[0] == if k == [] then '=' else k[0];
    NoSpaces(s);
    KeyReads(k, v);
    assert ("=" + v)[1..] == v;
  }

  lemma ValueInFront(v: string, rest: string)
    requires GoodValue(v) && v != [] && (rest == [] || rest[0] == ' ')
    ensures var s := Escape(v) + rest;
            && s != [] && SkipSpaces(s) == s
            && ValueOf(s) == Some(Piece(v, if rest == [] then [] else rest[1..]))
  {
    var s := Escape(v) + rest;
    assert s[0] == Escape(v)[0] == EscapeChar(v[0])[0];
    NoSpaces(s);
    ValueReads(v, rest);
    assert v + [] == v;
  }

  /** An option in front, behind it the end or a blank: it is the next one parsed. */
  lemma OptReads(o: Opt, rest: string)
    requires GoodKey(o.key) && GoodValue(o.value) && o.value != []
    requires rest == [] || rest[0] == ' '
    ensures Parse(OptText(o) + rest) == First(o, Parse(if rest == [] then [] else rest[1..]))
  {
    var v := Escape(o.value) + rest;
    assert OptText(o) + rest == o.key + "=" + v;
    KeyAndEquals(o.key, v);
    ValueInFront(o.value, rest);
  }

  predicate Good(opts: seq<Opt>) {
    forall i :: 0 <= i < |opts| ==> GoodKey(opts[i].key) && GoodValue(opts[i].value) && opts[i].value != []
  }

  /** Every list of options that was joined is parsed back to the same list. */
  lemma {:induction false} JoinedParses(opts: seq<Opt>)
    requires Good(opts)
    ensures Parse(Joined(opts)) == Some(opts)
    decreases |opts|
  {
    if |opts| == 1 {
      OptReads(opts[0], []);
      assert OptText(opts[0]) + [] == OptText(opts[0]);
      assert [opts[0]] + [] == opts;
    } else if |opts| > 1 {
      var rest := " " + Joined(opts[1..]);
      assert Joined(opts) == OptText(opts[0]) + rest;
      assert rest[1..] == Joined(opts[1..]);
      OptReads(opts[0], rest);
      JoinedParses(opts[1..]);
      assert [opts[0]] + opts[1..] == opts;
    }
  }

  // ---------------------------------------------------------------- every way to write them

  predicate White(w: string) {
    forall i :: 0 <= i < |w| ==> IsSpace(w[i])
  }

  /** In quotes, quotes and backslashes are escaped. */
  function InQuotes(v: string): string {
    if v == [] then [] else QuotedOne(v[0]) + InQuotes(v[1..])
  }

  function QuotedOne(c: char): string {
    if c == '\'' || c == '\\' then ['\\', c] else [c]
  }

  /** Without them, all white space as well. */
  function Escaped(v: string): string {
    if v == [] then [] else EscapedOne(v[0]) + Escaped(v[1..])
  }

  function EscapedOne(c: char): string {
    if IsSpace(c) || c == '\'' || c == '\\' then ['\\', c] else [c]
  }

  /** The white space before the key and around "=", and whether the value is in quotes. */
  datatype Form = Form(before: string, left: string, right: string, quotes: bool)

  predicate FormOk(f: Form, o: Opt) {
    White(f.before) && White(f.left) && White(f.right) && GoodKey(o.key) && (!f.quotes ==> o.value != [])
  }

  function ValueText(v: string, quotes: bool): string {
    if quotes then "'" + InQuotes(v) + "'" else Escaped(v)
  }

  function Written(opts: seq<Opt>, fs: seq<Form>, behind: string): string
    requires |fs| == |opts|
    decreases |opts|
  {
    if opts == [] then behind
    else
      fs[0].before + (opts[0].key + (fs[0].left + ("=" + (fs[0].right
        + (ValueText(opts[0].value, fs[0].quotes) + Written(opts[1..], fs[1..], behind))))))
  }

  /** Every option can be written so, and white space follows each value without quotes. */
  predicate Writable(opts: seq<Opt>, fs: seq<Form>, behind: string) {
    && |fs| == |opts| && White(behind)
    && (forall i :: 0 <= i < |opts| ==> FormOk(fs[i], opts[i]))
    && (forall i :: 0 <= i < |opts| - 1 ==> !fs[i].quotes ==> fs[i + 1].before != [])
  }

  lemma {:induction false} SkipWhite(w: string, s: string)
    requires White(w)
    ensures SkipSpaces(w + s) == SkipSpaces(s)
  {
    if w == [] {
      assert w + s == s;
    } else {
      SkipWhite(w[1..], s);
      assert (w + s)[1..] == w[1..] + s;
    }
  }

  lemma {:induction false} KeyUpTo(k: string, s: string)
    requires GoodKey(k) && s != [] && (IsSpace(s[0]) || s[0] == '=')
    ensures KeyOf(k + s) == k && AfterKey(k + s) == s
  {
    if k == [] {
      assert k + s == s;
    } else {
      KeyUpTo(k[1..], s);
      assert (k + s)[1..] == k[1..] + s;
    }
  }

  lemma EqualsReads(left: string, s: string)
    requires White(left)
    ensures AfterEquals(left + ("=" + s)) == Some(s)
  {
    var e := "=" + s;
    assert e[1..] == s && SkipSpaces(e) == e;
    if left == [] {
      assert left + e == e;
    } else {
      SkipWhite(left[1..], e);
      assert (left + e)[1..] == left[1..] + e;
    }
  }

  /** Up to the value: key, "=" and the white space around them. */
  lemma UpToValue(k: string, f: Form, v: string)
    requires White(f.before) && White(f.left) && White(f.right) && GoodKey(k) && (v != [] ==> !IsSpace(v[0]))
    ensures var s := f.before + (k + (f.left + ("=" + (f.right + v))));
            var t := SkipSpaces(s);
            && t != [] && KeyOf(t) == k && AfterEquals(AfterKey(t)) == Some(f.right + v)
            && SkipSpaces(f.right + v) == v
  {
    var e := f.left + ("=" + (f.right + v));
    assert e[0] == if f.left == [] then '=' else f.left[0];
    SkipWhite(f.before, k + e);
    assert (k + e)[0] == if k == [] then e[0] else k[0];
    KeyUpTo(k, e);
    EqualsReads(f.left, f.right + v);
    SkipWhite(f.right, v);
    if k == [] && f.left != [] {
      SkipWhite(f.left, "=" + (f.right + v));
      assert k + e == e;
    }
  }

  lemma QuotedChar(c: char, tail: string)
    ensures Quoted(QuotedOne(c) + tail) == Cons(c, Quoted(tail))
  {
    var s := QuotedOne(c) + tail;
    if c == '\'' || c == '\\' {
      assert s[0] == '\\' && s[1] == c && s[2..] == tail;
    } else {
      assert s[0] == c && s[1..] == tail;
    }
  }

  lemma {:induction false} QuotedRest(v: string, rest: string)
    ensures Quoted(InQuotes(v) + rest) == Behind(v, Quoted(rest))
  {
    hide QuotedOne, Quoted;
    if v == [] {
      assert InQuotes(v) + rest == rest;
      BehindNothing(Quoted(rest));
    } else {
      QuotedRest(v[1..], rest);
      Concat3(QuotedOne(v[0]), InQuotes(v[1..]), rest);
      QuotedChar(v[0], InQuotes(v[1..]) + rest);
      BehindBehind(v, Quoted(rest));
    }
  }

  lemma QuotedReads(v: string, rest: string)
    ensures Quoted(InQuotes(v) + ("'" + rest)) == Some(Piece(v, rest))
    ensures Quoted(InQuotes(v)) == None
  {
    QuotedRest(v, "'" + rest);
    QuotedRest(v, []);
    assert ("'" + rest)[1..] == rest && v + [] == v && InQuotes(v) + [] == InQuotes(v);
  }

  lemma EscapedChar(c: char, tail: string)
    ensures Unquoted(EscapedOne(c) + tail) == Cons(c, Unquoted(tail))
    ensures !IsSpace(EscapedOne(c)[0]) && EscapedOne(c)[0] != '\''
  {
    var s := EscapedOne(c) + tail;
    if |EscapedOne(c)| == 2 {
      assert s[0] == '\\' && s[1] == c && s[2..] == tail;
    } else {
      assert s[0] == c && s[1..] == tail;
    }
  }

  lemma {:induction false} EscapedReads(v: string, rest: string)
    ensures Unquoted(Escaped(v) + rest) == Behind(v, Unquoted(rest))
  {
    hide EscapedOne, Unquoted, IsSpace;
    if v == [] {
      assert Escaped(v) + rest == rest;
      BehindNothing(Unquoted(rest));
    } else {
      EscapedReads(v[1..], rest);
      Concat3(EscapedOne(v[0]), Escaped(v[1..]), rest);
      EscapedChar(v[0], Escaped(v[1..]) + rest);
      BehindBehind(v, Unquoted(rest));
    }
  }

  /** What follows a value, perhaps without the white space that ended it. */
  predicate LeftOver(left: string, rest: string) {
    left == rest || (rest != [] && IsSpace(rest[0]) && left == rest[1..])
  }

  lemma QuotedValue(v: string, rest: string)
    ensures var s := ValueText(v, true) + rest;
            s != [] && !IsSpace(s[0]) && ValueOf(s) == Some(Piece(v, rest))
  {
    var s := ValueText(v, true) + rest;
    assert s == "'" + (InQuotes(v) + ("'" + rest));
    assert s[1..] == InQuotes(v) + ("'" + rest);
    QuotedReads(v, rest);
  }

  lemma EscapedValue(v: string, rest: string)
    requires v != [] && (rest == [] || IsSpace(rest[0]))
    ensures var s := ValueText(v, false) + rest;
            && s != [] && !IsSpace(s[0]) && ValueOf(s).Some? && ValueOf(s).value.text == v
            && LeftOver(ValueOf(s).value.rest, rest)
  {
    hide EscapedOne, IsSpace;
    var s := Escaped(v) + rest;
    EscapedReads(v, rest);
    EscapedChar(v[0], Escaped(v[1..]));
    assert EscapedOne(v[0]) != [] by { EscapedLength(v[0]); }
    assert s[0] == EscapedOne(v[0])[0];
    assert v + [] == v;
  }

  lemma EscapedLength(c: char)
    ensures EscapedOne(c) != []
  {
  }

  /** The value, with what follows it: one blank may be used up. */
  lemma TextReads(v: string, quotes: bool, rest: string)
    requires !quotes ==> v != [] && (rest == [] || IsSpace(rest[0]))
    ensures var s := ValueText(v, quotes) + rest;
            && s != [] && !IsSpace(s[0]) && ValueOf(s).Some? && ValueOf(s).value.text == v
            && LeftOver(ValueOf(s).value.rest, rest)
  {
    hide IsSpace, ValueText, ValueOf;
    if quotes {
      QuotedValue(v, rest);
    } else {
      EscapedValue(v, rest);
    }
  }

  lemma ParseSkips(s: string)
    requires s != [] && IsSpace(s[0])
    ensures Parse(s) == Parse(s[1..])
  {
  }

  lemma NextIsWhite(opts: seq<Opt>, fs: seq<Form>, behind: string)
    requires opts != [] && Writable(opts, fs, behind) && !fs[0].quotes
    ensures var rest := Written(opts[1..], fs[1..], behind); rest == [] || IsSpace(rest[0])
  {
    if |opts| > 1 {
      assert fs[1..][0] == fs[1] && fs[0 + 1].before != [];
      var rest := Written(opts[1..], fs[1..], behind);
      assert rest[0] == fs[1].before[0];
    }
  }

  /** However options are written, with any white space around keys, "=" and values, with quotes
      or without, they are parsed to the list of them. */
  lemma {:induction false} WrittenParses(opts: seq<Opt>, fs: seq<Form>, behind: string)
    requires Writable(opts, fs, behind)
    ensures Parse(Written(opts, fs, behind)) == Some(opts)
    decreases |opts|
  {
    if opts == [] {
      SkipWhite(behind, []);
      assert behind + [] == behind;
    } else {
      var o, f, rest := opts[0], fs[0], Written(opts[1..], fs[1..], behind);
      assert forall i :: 0 <= i < |opts| - 1 ==> opts[1..][i] == opts[i + 1] && fs[1..][i] == fs[i + 1];
      WrittenParses(opts[1..], fs[1..], behind);
      if !f.quotes {
        NextIsWhite(opts, fs, behind);
      }
      FormParses(o, f, rest);
      assert [o] + opts[1..] == opts;
    }
  }

  lemma FormParses(o: Opt, f: Form, rest: string)
    requires FormOk(f, o) && (!f.quotes ==> rest == [] || IsSpace(rest[0]))
    ensures Parse(f.before + (o.key + (f.left + ("=" + (f.right + (ValueText(o.value, f.quotes) + rest))))))
         == First(o, Parse(rest))
  {
    hide ValueText, FormOk, White;
    var v := ValueText(o.value, f.quotes) + rest;
    FormParts(o, f);
    TextReads(o.value, f.quotes, rest);
    UpToValue(o.key, f, v);
    if rest != [] && IsSpace(rest[0]) {
      ParseSkips(rest);
    }
  }

  lemma FormParts(o: Opt, f: Form)
    requires FormOk(f, o)
    ensures White(f.before) && White(f.left) && White(f.right) && GoodKey(o.key) && (!f.quotes ==> o.value != [])
  {
  }

  /** A last option without a value has the empty one; a key without "=", an open quote and a
      backslash at the end are errors. */
  lemma BadOrEmptyLast(k: string, f: Form, v: string)
    requires White(f.before) && White(f.left) && White(f.right) && GoodKey(k)
    ensures Parse(f.before + (k + (f.left + ("=" + (f.right + []))))) == Some([Opt(k, [])])
    ensures k != [] ==> Parse(f.before + k) == None
    ensures Parse(f.before + (k + (f.left + ("=" + (f.right + ("'" + InQuotes(v))))))) == None
    ensures Parse(f.before + (k + (f.left + ("=" + (f.right + (Escaped(v) + "\\")))))) == None
  {
    UpToValue(k, f, []);
    if k != [] {
      KeyAlone(f.before, k);
    }
    var q, e := "'" + InQuotes(v), Escaped(v) + "\\";
    UpToValue(k, f, q);
    QuotedReads(v, []);
    assert q[1..] == InQuotes(v);
    EscapedReads(v, "\\");
    assert e[0] == if v == [] then '\\' else Escaped(v)[0];
    UpToValue(k, f, e);
  }

  lemma {:induction false} KeyAlone(w: string, k: string)
    requires White(w) && GoodKey(k) && k != []
    ensures Parse(w + k) == None
  {
    SkipWhite(w, k);
    KeyToEnd(k);
  }

  lemma {:induction false} KeyToEnd(k: string)
    requires GoodKey(k)
    ensures AfterKey(k) == []
  {
    if k != [] {
      KeyToEnd(k[1..]);
    }
  }

  // ---------------------------------------------------------------- exactly when

  lemma FirstIs(s: string)
    ensures Parse(s).Some? && Parse(s).value != [] ==> StepOf(s).Set? && Parse(s).value[0] == StepOf(s).o
  {
    ParseStep(s);
  }

  lemma {:induction false} KeyOfGood(s: string)
    ensures GoodKey(KeyOf(s))
  {
    if s != [] {
      KeyOfGood(s[1..]);
    }
  }

  /** No key that was parsed has white space or "=" in it. */
  lemma {:induction false} ParsedKeysGood(s: string)
    ensures Parse(s).Some? ==> forall i :: 0 <= i < |Parse(s).value| ==> GoodKey(Parse(s).value[i].key)
    decreases |s|
  {
    ParseStep(s);
    KeyOfGood(SkipSpaces(s));
    if StepOf(s).Set? && !StepOf(s).last {
      RestShorter(s);
      ParsedKeysGood(RestOf(s));
    }
  }

  lemma RestShorter(s: string)
    ensures StepOf(s).Set? && !StepOf(s).last ==> |RestOf(s)| < |s|
  {
  }

  /** Up to the first white space that was not escaped. */
  lemma {:induction false} SpaceStops(v: string, tail: string)
    requires v != [] && !GoodValue(v)
    ensures var p := Unquoted(Escape(v) + tail); p.Some? && |p.value.text| < |v|
    decreases |v|
  {
    var rest := Escape(v[1..]) + tail;
    assert Escape(v) + tail == EscapeChar(v[0]) + rest;
    if v[0] != ' ' && IsSpace(v[0]) {
      assert (Escape(v) + tail)[0] == v[0];
    } else {
      CharReads(v[0], rest);
      assert !GoodValue(v[1..]) by {
        var i :| 0 <= i < |v| && v[i] != ' ' && IsSpace(v[i]);
        assert v[1..][i - 1] == v[i];
      }
      SpaceStops(v[1..], tail);
    }
  }

  /** The spaces before a value are skipped; what is left of it is w. */
  lemma {:induction false} SpacesSkipped(v: string, tail: string) returns (w: string)
    ensures |w| <= |v| && (w != [] ==> w[0] == ' ' || !IsSpace(w[0]))
    ensures SkipSpaces(Escape(v) + tail) == if w == [] then SkipSpaces(tail) else Escape(w) + tail
    ensures v != [] && (v[0] == ' ' || !IsSpace(v[0])) ==> w == v
    decreases |v|
  {
    var s := Escape(v) + tail;
    if v == [] {
      w := v;
      assert s == tail;
    } else if v[0] == ' ' || !IsSpace(v[0]) {
      w := v;
      assert s[0] == Escape(v)[0] == EscapeChar(v[0])[0];
      NoSpaces(s);
    } else {
      assert s[0] == v[0] && s[1..] == Escape(v[1..]) + tail;
      w := SpacesSkipped(v[1..], tail);
    }
  }

  /** A value read where a key was meant begins with a character of that key, or with "=". */
  lemma KeyAsValue(k: string, rest: string)
    requires GoodKey(k)
    ensures var s := k + "=" + rest;
            s != [] && SkipSpaces(s) == s
            && var p := ValueOf(s); p.Some? && p.value.text != [] ==> !IsSpace(p.value.text[0])
  {
    var s := k + "=" + rest;
    KeyAndEquals(k, rest);
    NotSpaceAt(k, rest, 0);
    if |s| > 1 {
      assert s[1..][0] == s[1];
      if k != [] {
        NotSpaceAt(k, rest, 1);
      }
      if |s| > 2 {
        assert s[1..][1] == s[2];
        if |k| > 1 {
          NotSpaceAt(k, rest, 2);
        }
      }
    }
  }

  lemma NotSpaceAt(k: string, rest: string, i: nat)
    requires GoodKey(k) && i <= |k|
    ensures !IsSpace((k + "=" + rest)[i])
  {
    assert (k + "=" + rest)[i] == if i < |k| then k[i] else '=';
  }

  /** The value read from s, if there is one, is not v. */
  predicate ReadsOther(s: string, v: string) {
    s != [] ==> ValueOf(s).Some? ==> ValueOf(s).value.text != v
  }

  lemma ReadsShorter(v: string, tail: string)
    requires v != [] && !GoodValue(v) && (v[0] == ' ' || !IsSpace(v[0]))
    ensures ReadsOther(Escape(v) + tail, v)
  {
    SpaceStops(v, tail);
    assert (Escape(v) + tail)[0] == Escape(v)[0] == EscapeChar(v[0])[0];
  }

  lemma ReadsOtherStart(w: string, tail: string, v: string)
    requires w != [] && (w[0] == ' ' || !IsSpace(w[0])) && v != [] && v[0] != w[0]
    ensures ReadsOther(Escape(w) + tail, v)
  {
    var rest := Escape(w[1..]) + tail;
    assert Escape(w) + tail == EscapeChar(w[0]) + rest;
    CharReads(w[0], rest);
    assert (EscapeChar(w[0]) + rest)[0] == EscapeChar(w[0])[0];
  }

  lemma ReadsKey(opts: seq<Opt>, v: string)
    requires v != [] && IsSpace(v[0]) && (opts != [] ==> GoodKey(opts[0].key))
    ensures ReadsOther(SkipSpaces(Behind1(opts)), v)
  {
    if opts != [] {
      assert Behind1(opts)[0] == ' ' && Behind1(opts)[1..] == Joined(opts);
      var rest := JoinedFirst(opts);
      KeyAsValue(opts[0].key, rest);
    }
  }

  /** What is read for a value with such white space in it is another value. */
  lemma BadValueDiffers(v: string, opts: seq<Opt>)
    requires v != [] && !GoodValue(v) && (opts != [] ==> GoodKey(opts[0].key))
    ensures ReadsOther(SkipSpaces(Escape(v) + Behind1(opts)), v)
  {
    var w := SpacesSkipped(v, Behind1(opts));
    if v[0] == ' ' || !IsSpace(v[0]) {
      ReadsShorter(v, Behind1(opts));
    } else if w != [] {
      ReadsOtherStart(w, Behind1(opts), v);
    } else {
      ReadsKey(opts, v);
    }
  }

  /** What is behind an option in the joined text. */
  function Behind1(opts: seq<Opt>): string {
    if opts == [] then [] else " " + Joined(opts)
  }

  lemma JoinedFirst(opts: seq<Opt>) returns (rest: string)
    requires opts != []
    ensures rest == Escape(opts[0].value) + Behind1(opts[1..])
    ensures Joined(opts) == opts[0].key + "=" + rest == OptText(opts[0]) + Behind1(opts[1..])
  {
    var o, tail := opts[0], Behind1(opts[1..]);
    rest := Escape(o.value) + tail;
    Concat3(o.key + "=", Escape(o.value), tail);
    if |opts| == 1 {
      assert OptText(o) + [] == OptText(o);
    } else {
      Concat3(OptText(o), " ", Joined(opts[1..]));
    }
  }

  predicate NonEmptyValues(opts: seq<Opt>) {
    forall i :: 0 <= i < |opts| ==> opts[i].value != []
  }

  /** A first option with a bad value spoils the list. */
  lemma BadFirst(opts: seq<Opt>)
    requires opts != [] && NonEmptyValues(opts) && !GoodValue(opts[0].value)
    requires forall i :: 0 <= i < |opts| ==> GoodKey(opts[i].key)
    ensures Parse(Joined(opts)) != Some(opts)
  {
    var rest := JoinedFirst(opts);
    KeyAndEquals(opts[0].key, rest);
    BadValueDiffers(opts[0].value, opts[1..]);
    FirstIs(Joined(opts));
  }

  lemma {:induction false} GoodKeysExactly(opts: seq<Opt>)
    requires NonEmptyValues(opts) && forall i :: 0 <= i < |opts| ==> GoodKey(opts[i].key)
    ensures Parse(Joined(opts)) == Some(opts) ==> Good(opts)
    decreases |opts|
  {
    if opts != [] && Parse(Joined(opts)) == Some(opts) {
      if !GoodValue(opts[0].value) {
        BadFirst(opts);
      } else {
        var rest := JoinedFirst(opts);
        var tail := Behind1(opts[1..]);
        OptReads(opts[0], tail);
        if opts[1..] != [] {
          assert tail[1..] == Joined(opts[1..]);
        }
        var r := Parse(Joined(opts[1..]));
        assert Some(opts) == First(opts[0], r);
        assert opts[1..] == r.value;
        GoodKeysExactly(opts[1..]);
      }
    }
  }

  /** Every list of options with values, joined, is parsed back to the same list if and only if
      no key has white space or "=" in it and no value white space other than blanks. */
  lemma JoinedExactly(opts: seq<Opt>)
    requires NonEmptyValues(opts)
    ensures Parse(Joined(opts)) == Some(opts) <==> Good(opts)
  {
    if Good(opts) {
      JoinedParses(opts);
    } else if Parse(Joined(opts)) == Some(opts) {
      ParsedKeysGood(Joined(opts));
      GoodKeysExactly(opts);
    }
  }

  /** The same for one option. */
  lemma SurvivesExactly(o: Opt)
    requires o.value != []
    ensures Parse(OptText(o)) == Some([o]) <==> GoodKey(o.key) && GoodValue(o.value)
  {
    JoinedExactly([o]);
    assert [o][0] == o;
  }

  // ---------------------------------------------------------------- the settings they make

  /** `accrue`: options with an empty value are dropped. */
  function Accrued(opts: seq<Opt>): seq<Opt> {
    if opts == [] then []
    else Accrued(opts[..|opts| - 1]) + if opts[|opts| - 1].value == [] then [] else [opts[|opts| - 1]]
  }

  /** The effect of setting them one after the other. */
  function Settings(opts: seq<Opt>): map<string, string> {
    if opts == [] then map[]
    else Settings(opts[..|opts| - 1])[opts[|opts| - 1].key := opts[|opts| - 1].value]
  }

  predicate OneValueEach(opts: seq<Opt>) {
    forall o, p :: o in opts && p in opts && o.key == p.key ==> o == p
  }

  lemma {:induction false} SettingsOf(opts: seq<Opt>)
    requires OneValueEach(opts)
    ensures forall o :: o in opts ==> o.key in Settings(opts) && Settings(opts)[o.key] == o.value
    ensures forall k :: k in Settings(opts) ==> Opt(k, Settings(opts)[k]) in opts
    decreases |opts|
  {
    if opts != [] {
      var n := |opts| - 1;
      assert opts == opts[..n] + [opts[n]];
      assert forall o :: o in opts[..n] ==> o in opts;
      SettingsOf(opts[..n]);
    }
  }

  lemma SameMembers(a: seq<Opt>, b: seq<Opt>)
    requires multiset(a) == multiset(b)
    ensures forall o :: o in a ==> o in b
  {
    forall o | o in a ensures o in b {
      assert o in multiset(a);
    }
  }

  lemma SettingsSame(a: seq<Opt>, b: seq<Opt>)
    requires OneValueEach(a)
    requires forall o :: o in a <==> o in b
    ensures Settings(a) == Settings(b)
  {
    SettingsOf(a);
    SettingsOf(b);
    forall k | k in Settings(b) ensures k in Settings(a) && Settings(a)[k] == Settings(b)[k] {
      assert Opt(k, Settings(b)[k]) in a;
    }
    forall k | k in Settings(a) ensures k in Settings(b) {
      assert Opt(k, Settings(a)[k]) in b;
    }
  }

  lemma {:induction false} AccruedValues(opts: seq<Opt>)
    ensures NonEmptyValues(Accrued(opts))
  {
    if opts != [] {
      AccruedValues(opts[..|opts| - 1]);
    }
  }

  lemma SameGood(a: seq<Opt>, b: seq<Opt>)
    requires forall o :: o in a <==> o in b
    ensures Good(a) <==> Good(b)
    ensures NonEmptyValues(b) ==> NonEmptyValues(a)
  {
    assert forall i :: 0 <= i < |a| ==> a[i] in b;
    assert forall i :: 0 <= i < |b| ==> b[i] in a;
  }

  /** `accrue` for the options of a URL, and the sorted list joined; the sorting is the
      library's, so any order is allowed for. */
  lemma UrlThenParse(opts: seq<Opt>, order: seq<Opt>)
    requires multiset(order) == multiset(Accrued(opts))
    ensures Parse(Joined(order)) == Some(order) <==> Good(Accrued(opts))
    ensures OneValueEach(Accrued(opts)) ==> Settings(order) == Settings(Accrued(opts))
  {
    SameMembers(order, Accrued(opts));
    SameMembers(Accrued(opts), order);
    AccruedValues(opts);
    SameGood(order, Accrued(opts));
    JoinedExactly(order);
    if OneValueEach(Accrued(opts)) {
      SettingsSame(Accrued(opts), order);
    }
  }
}
