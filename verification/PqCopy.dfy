/** COPY FROM STDIN in text format (encode.go, copy.go): rows are escaped into a buffer that
    is sent as CopyData messages when it grows and when the statement is closed. */
module PqCopy {
  import opened Basics
  import opened Octets
  import B = PqBytea

  const TAB: Octet := 9
  const NEWLINE: Octet := 10
  const RETURN: Octet := 13

  // ---------------------------------------------------------------- escaping

  predicate Special(c: Octet) {
    c == B.BACKSLASH || c == NEWLINE || c == RETURN || c == TAB
  }

  function EscapeChar(c: Octet): Bytes {
    if c == B.BACKSLASH then [B.BACKSLASH, B.BACKSLASH]
    else if c == NEWLINE then [B.BACKSLASH, 110]
    else if c == RETURN then [B.BACKSLASH, 114]
    else if c == TAB then [B.BACKSLASH, 116]
    else [c]
  }

  function Escaped(text: Bytes): Bytes {
    if text == [] then [] else EscapeChar(text[0]) + Escaped(text[1..])
  }

  lemma {:induction false} EscapedPlain(text: Bytes)
    requires forall k :: 0 <= k < |text| ==> !Special(text[k])
    ensures Escaped(text) == text
  {
    if text != [] {
      EscapedPlain(text[1..]);
    }
  }

  lemma EscapedStep(done: Bytes, text: Bytes, i: nat)
    requires i < |text|
    ensures done + Escaped(text[i..]) == (done + EscapeChar(text[i])) + Escaped(text[i + 1..])
  {
    assert text[i..][1..] == text[i + 1..];
    assert Escaped(text[i..]) == EscapeChar(text[i]) + Escaped(text[i + 1..]);
  }

  lemma {:induction false} EscapedFrom(text: Bytes, n: nat)
    requires n <= |text| && forall k :: 0 <= k < n ==> !Special(text[k])
    ensures Escaped(text) == text[..n] + Escaped(text[n..])
    decreases n
  {
    if n == 0 {
      assert text[0..] == text;
    } else {
      EscapedFrom(text, n - 1);
      EscapedStep(text[..n - 1], text, n - 1);
      assert text[..n - 1] + [text[n - 1]] == text[..n];
    }
  }

  /** `appendEscapedText`: text without special characters goes in as it is. */
  method AppendEscapedText(buf: Bytes, text: Bytes) returns (result: Bytes)
    ensures result == buf + Escaped(text)
  {
    var start := 0;
    while start < |text| && !Special(text[start])
      invariant start <= |text| && forall k :: 0 <= k < start ==> !Special(text[k])
    {
      start := start + 1;
    }
    EscapedFrom(text, start);
    if start == |text| {
      EscapedPlain(text);
      return buf + text;
    }
    result := buf + text[..start];
    for i := start to |text|
      invariant result + Escaped(text[i..]) == buf + Escaped(text)
    {
      EscapedStep(result, text, i);
      result := result + EscapeChar(text[i]);
    }
    assert text[|text|..] == [] && result + [] == result;
  }

  // ---------------------------------------------------------------- values and rows

  /** A value given to Exec. `Plain` stands for those printed by the standard library without
      any special character: integers, floats, booleans and times. */
  datatype Value = Null | Text(text: Bytes) | Bytea(bytes: Bytes) | Plain(printed: Bytes)

  predicate Printed(v: Value) {
    v.Plain? ==> forall k :: 0 <= k < |v.printed| ==> !Special(v.printed[k])
  }

  type Cell = v: Value | Printed(v) witness Null

  /** What the server is to see: NULL or a text. */
  function Meaning(version: int, v: Cell): Option<Bytes> {
    match v
    case Null => None
    case Text(t) => Some(t)
    case Bytea(b) => Some(B.Encoded(version, b))
    case Plain(p) => Some(p)
  }

  const NULL_MARK: Bytes := [B.BACKSLASH, 78]

  function CellText(version: int, v: Cell): Bytes {
    var m := Meaning(version, v);
    if m.None? then NULL_MARK else Escaped(m.value)
  }

  /** `appendEncodedText`. */
  method AppendEncodedText(version: int, buf: Bytes, v: Cell) returns (result: Bytes)
    ensures result == buf + CellText(version, v)
  {
    match v
    case Null => result := buf + NULL_MARK;
    case Text(t) => result := AppendEscapedText(buf, t);
    case Bytea(b) =>
      var e := B.EncodeBytea(version, b);
      result := AppendEscapedText(buf, e);
    case Plain(p) =>
      EscapedPlain(p);
      result := buf + p;
  }

  /** A row: its cells, tabs between them, a newline behind. */
  function RowText(version: int, row: seq<Cell>): Bytes {
    if row == [] then []
    else if |row| == 1 then CellText(version, row[0]) + [NEWLINE]
    else CellText(version, row[0]) + [TAB] + RowText(version, row[1..])
  }

  function RowsText(version: int, rows: seq<seq<Cell>>): Bytes {
    if rows == [] then [] else RowsText(version, rows[..|rows| - 1]) + RowText(version, rows[|rows| - 1])
  }

  // ---------------------------------------------------------------- the server's side

  /** COPY text format: a backslash sequence stands for one character. */
  function Unescaped(s: Bytes): Bytes {
    if s == [] then []
    else if s[0] != B.BACKSLASH || |s| == 1 then [s[0]] + Unescaped(s[1..])
    else
      var c := s[1];
      [if c == 'n' as int then '\n' as int else if c == 'r' as int then '\r' as int
       else if c == 't' as int then '\t' as int else c] + Unescaped(s[2..])
  }

  function ReadCell(s: Bytes): Option<Bytes> {
    if s == ['\\' as int, 'N' as int] then None else Some(Unescaped(s))
  }

  /** Index of the first tab or newline. */
  function CellEnd(s: Bytes): (n: nat)
    ensures n <= |s|
  {
    if s == [] || s[0] == '\t' as int || s[0] == '\n' as int then 0 else 1 + CellEnd(s[1..])
  }

  /** The rows of a COPY text: tabs part cells, newlines end rows; `cells` are those already
      read of the current row. None if the text stops within a row. */
  function ReadRows(s: Bytes, cells: seq<Option<Bytes>>): Option<seq<seq<Option<Bytes>>>>
    decreases |s|
  {
    if s == [] then if cells == [] then Some([]) else None
    else
      var n := CellEnd(s);
      if n == |s| then None
      else
        var more := cells + [ReadCell(s[..n])];
        if s[n] == '\t' as int then ReadRows(s[n + 1..], more)
        else
          var rest := ReadRows(s[n + 1..], []);
          if rest.None? then None else Some([more] + rest.value)
  }

  function Meanings(version: int, row: seq<Cell>): (m: seq<Option<Bytes>>)
    ensures |m| == |row|
  {
    if row == [] then [] else [Meaning(version, row[0])] + Meanings(version, row[1..])
  }

  // ---------------------------------------------------------------- what the escaping keeps

  predicate Clean(s: Bytes) {
    forall k :: 0 <= k < |s| ==> s[k] != TAB && s[k] != NEWLINE && s[k] != RETURN
  }

  /** Escaped text has no raw tab, newline or carriage return and reads back as the text. */
  lemma {:induction false} EscapedReads(text: Bytes)
    ensures Clean(Escaped(text)) && Unescaped(Escaped(text)) == text
  {
    if text != [] {
      EscapedReads(text[1..]);
      EscapedChar(text[0], Escaped(text[1..]));
      assert [text[0]] + text[1..] == text;
    }
  }

  lemma EscapedChar(c: Octet, rest: Bytes)
    ensures Unescaped(EscapeChar(c) + rest) == [c] + Unescaped(rest)
    ensures Clean(rest) ==> Clean(EscapeChar(c) + rest)
  {
    var e := EscapeChar(c);
    assert (e + rest)[|e|..] == rest;
  }

  /** Escaped text is never the mark for NULL. */
  lemma EscapedIsNotNull(text: Bytes)
    ensures Escaped(text) != NULL_MARK
  {
    if text != [] {
      var e := EscapeChar(text[0]);
      assert Escaped(text)[0] == e[0];
      assert |e| == 2 ==> Escaped(text)[1] == e[1];
    }
  }

  lemma CellReads(version: int, v: Cell)
    ensures Clean(CellText(version, v)) && ReadCell(CellText(version, v)) == Meaning(version, v)
  {
    var m := Meaning(version, v);
    if m.Some? {
      EscapedReads(m.value);
      EscapedIsNotNull(m.value);
    }
  }

  lemma {:induction false} CellEndIs(s: Bytes, c: Octet, rest: Bytes)
    requires Clean(s) && (c == TAB || c == NEWLINE)
    ensures CellEnd(s + [c] + rest) == |s|
  {
    if s != [] {
      CellEndIs(s[1..], c, rest);
      assert (s + [c] + rest)[1..] == s[1..] + [c] + rest;
    }
  }

  type Read1 = Option<Bytes>
  type ReadAll = Option<seq<seq<Read1>>>

  /** These rows before those. */
  function Before(rows: seq<seq<Read1>>, r: ReadAll): ReadAll {
    if r.None? then None else Some(rows + r.value)
  }

  lemma BeforeBefore(a: seq<seq<Read1>>, b: seq<seq<Read1>>, r: ReadAll)
    ensures Before(a, Before(b, r)) == Before(a + b, r)
  {
    if r.Some? {
      assert a + (b + r.value) == (a + b) + r.value;
    }
  }

  /** One cell off the front. */
  lemma ReadsCell(version: int, v: Cell, c: Octet, rest: Bytes, cells: seq<Read1>)
    requires c == TAB || c == NEWLINE
    ensures var s := CellText(version, v) + [c] + rest;
            var more := cells + [Meaning(version, v)];
            ReadRows(s, cells) == if c == TAB then ReadRows(rest, more) else Before([more], ReadRows(rest, []))
  {
    var t := CellText(version, v);
    var s := t + [c] + rest;
    CellReads(version, v);
    CellEndIs(t, c, rest);
    assert s[..|t|] == t && s[|t|] == c && s[|t| + 1..] == rest;
  }

  lemma MeaningsFirst(version: int, row: seq<Cell>, cells: seq<Read1>)
    ensures row != [] ==>
      (cells + [Meaning(version, row[0])]) + Meanings(version, row[1..]) == cells + Meanings(version, row)
  {
  }

  lemma {:induction false} ReadsRow(version: int, row: seq<Cell>, rest: Bytes, cells: seq<Read1>)
    requires row != []
    ensures ReadRows(RowText(version, row) + rest, cells) ==
            Before([cells + Meanings(version, row)], ReadRows(rest, []))
    decreases |row|
  {
    var t, m := CellText(version, row[0]), Meaning(version, row[0]);
    MeaningsFirst(version, row, cells);
    if |row| == 1 {
      ReadsCell(version, row[0], NEWLINE, rest, cells);
      assert Meanings(version, row[1..]) == [];
      assert (cells + [m]) + [] == cells + [m];
      assert RowText(version, row) == t + [NEWLINE];
    } else {
      var tail := RowText(version, row[1..]);
      ReadsCell(version, row[0], TAB, tail + rest, cells);
      Concat3(t + [TAB], tail, rest);
      ReadsRow(version, row[1..], rest, cells + [m]);
      assert RowText(version, row) == t + [TAB] + tail;
    }
  }

  function AllMeanings(version: int, rows: seq<seq<Cell>>): seq<seq<Read1>> {
    seq(|rows|, i requires 0 <= i < |rows| => Meanings(version, rows[i]))
  }

  lemma AllMeaningsLast(version: int, rows: seq<seq<Cell>>)
    requires rows != []
    ensures AllMeanings(version, rows) ==
            AllMeanings(version, rows[..|rows| - 1]) + [Meanings(version, rows[|rows| - 1])]
  {
  }

  /** The text of any rows reads as exactly those rows, in order. */
  lemma {:induction false} ReadsRows(version: int, rows: seq<seq<Cell>>, rest: Bytes)
    requires forall i :: 0 <= i < |rows| ==> rows[i] != []
    ensures ReadRows(RowsText(version, rows) + rest, []) == Before(AllMeanings(version, rows), ReadRows(rest, []))
    decreases |rows|
  {
    if rows == [] {
      assert RowsText(version, rows) + rest == rest;
      assert AllMeanings(version, rows) == [];
      BeforeNone(ReadRows(rest, []));
    } else {
      var n := |rows| - 1;
      var row := RowText(version, rows[n]);
      ReadsRows(version, rows[..n], row + rest);
      ReadsRow(version, rows[n], rest, []);
      RowsTextLast(version, rows, rest);
      Glue(version, rows, ReadRows(rest, []), ReadRows(row + rest, []), ReadRows(RowsText(version, rows) + rest, []));
    }
  }

  lemma RowsTextLast(version: int, rows: seq<seq<Cell>>, rest: Bytes)
    requires rows != []
    ensures var n := |rows| - 1;
            RowsText(version, rows) + rest == RowsText(version, rows[..n]) + (RowText(version, rows[n]) + rest)
  {
    var n := |rows| - 1;
    Concat3(RowsText(version, rows[..n]), RowText(version, rows[n]), rest);
  }

  lemma Glue(version: int, rows: seq<seq<Cell>>, last: ReadAll, mid: ReadAll, whole: ReadAll)
    requires rows != []
    requires mid == Before([[] + Meanings(version, rows[|rows| - 1])], last)
    requires whole == Before(AllMeanings(version, rows[..|rows| - 1]), mid)
    ensures whole == Before(AllMeanings(version, rows), last)
  {
    var m := Meanings(version, rows[|rows| - 1]);
    assert [] + m == m;
    AllMeaningsLast(version, rows);
    BeforeBefore(AllMeanings(version, rows[..|rows| - 1]), [m], last);
  }

  lemma BeforeNone(r: ReadAll)
    ensures Before([], r) == r
  {
    if r.Some? {
      assert [] + r.value == r.value;
    }
  }

  // ---------------------------------------------------------------- the wire

  datatype Message = Message(typ: Octet, payload: Bytes)

  const COPY_DATA: Octet := 100
  const COPY_DONE: Octet := 99

  /** A message: its type, its length with the length's own four octets (cast to uint32), its
      payload. */
  function Framed(m: Message): Bytes {
    [m.typ] + Put(|m.payload| + 4, 4) + m.payload
  }

  function FramedAll(ms: seq<Message>): Bytes {
    if ms == [] then [] else FramedAll(ms[..|ms| - 1]) + Framed(ms[|ms| - 1])
  }

  /** The server's reader of messages. */
  function ReadMessages(s: Bytes): Option<seq<Message>>
    decreases |s|
  {
    if s == [] then Some([])
    else if |s| < 5 || Get(s[1..5]) < 4 || |s| < 1 + Get(s[1..5]) then None
    else
      var n := Get(s[1..5]);
      var rest := ReadMessages(s[1 + n..]);
      if rest.None? then None else Some([Message(s[0], s[5..1 + n])] + rest.value)
  }

  predicate Sized(m: Message) {
    |m.payload| + 4 < 0x1_0000_0000
  }

  function Ahead(ms: seq<Message>, r: Option<seq<Message>>): Option<seq<Message>> {
    if r.None? then None else Some(ms + r.value)
  }

  lemma AheadAhead(ms: seq<Message>, r: Option<seq<Message>>)
    requires ms != []
    ensures Ahead(ms[..|ms| - 1], Ahead([ms[|ms| - 1]], r)) == Ahead(ms, r)
  {
    if r.Some? {
      assert ms[..|ms| - 1] + ([ms[|ms| - 1]] + r.value) == ms + r.value;
    }
  }

  lemma ReadsMessage(m: Message, s: Bytes)
    requires Sized(m)
    ensures ReadMessages(Framed(m) + s) == Ahead([m], ReadMessages(s))
  {
    var t, n := Framed(m) + s, |m.payload| + 4;
    Pow256Values();
    GetPut(n, 4);
    assert t[1..5] == Put(n, 4);
    assert t[5..1 + n] == m.payload;
    assert t[1 + n..] == s;
  }

  lemma FramedLast(ms: seq<Message>, s: Bytes)
    requires ms != []
    ensures FramedAll(ms) + s == FramedAll(ms[..|ms| - 1]) + (Framed(ms[|ms| - 1]) + s)
  {
    hide Framed;
    Concat3(FramedAll(ms[..|ms| - 1]), Framed(ms[|ms| - 1]), s);
  }

  lemma {:induction false} ReadsMessages(ms: seq<Message>, s: Bytes)
    requires forall i :: 0 <= i < |ms| ==> Sized(ms[i])
    ensures ReadMessages(FramedAll(ms) + s) == Ahead(ms, ReadMessages(s))
    decreases |ms|
  {
    if ms == [] {
      assert FramedAll(ms) + s == s;
      assert ReadMessages(s).Some? ==> ms + ReadMessages(s).value == ReadMessages(s).value;
    } else {
      var k := |ms| - 1;
      ReadsMessages(ms[..k], Framed(ms[k]) + s);
      ReadsMessage(ms[k], s);
      FramedLast(ms, s);
      AheadAhead(ms, ReadMessages(s));
    }
  }

  /** The payloads of the CopyData messages, together. */
  function Payloads(ms: seq<Message>): Bytes {
    if ms == [] then []
    else Payloads(ms[..|ms| - 1]) + if ms[|ms| - 1].typ == COPY_DATA then ms[|ms| - 1].payload else []
  }

  lemma PayloadsMore(ms: seq<Message>, m: Message)
    ensures FramedAll(ms + [m]) == FramedAll(ms) + Framed(m)
    ensures Payloads(ms + [m]) == Payloads(ms) + if m.typ == COPY_DATA then m.payload else []
  {
    assert (ms + [m])[..|ms|] == ms;
  }

  const FLUSH_SIZE: nat := 63 * 1024

  /** The length of a message with this row fits its field. */
  predicate Fits(version: int, row: seq<Cell>) {
    |RowText(version, row)| + FLUSH_SIZE < 0x1_0000_0000
  }

  predicate AllSized(messages: seq<Message>) {
    forall k :: 0 <= k < |messages| ==> Sized(messages[k])
  }

  predicate AllData(messages: seq<Message>) {
    forall k :: 0 <= k < |messages| ==> Sized(messages[k]) && messages[k].typ == COPY_DATA
  }

  /** The wire carries the messages, and what was sent and what is buffered is `due`. */
  ghost predicate Consistent(buffer: Bytes, wire: Bytes, messages: seq<Message>, due: Bytes) {
    && |buffer| >= 5 && buffer[0] == COPY_DATA
    && wire == FramedAll(messages)
    && Payloads(messages) + buffer[5..] == due
  }

  /** The buffer with its length filled in. */
  function Patched(buffer: Bytes): (b: Bytes)
    requires |buffer| >= 5
    ensures |b| == |buffer| && b[0] == buffer[0] && b[5..] == buffer[5..]
  {
    [buffer[0]] + Put(|buffer| - 1, 4) + buffer[5..]
  }

  /** The patched buffer on the wire is one more message; the buffer is due once more, unless
      it is cut down to its header. */
  lemma FlushKeeps(buffer: Bytes, wire: Bytes, messages: seq<Message>, due: Bytes)
    requires Consistent(buffer, wire, messages, due)
    ensures var b, more := Patched(buffer), messages + [Message(COPY_DATA, buffer[5..])];
            && Consistent(b, wire + b, more, due + buffer[5..])
            && Consistent(b[..5], wire + b, more, due)
            && Payloads(more) == due
  {
    var b, m := Patched(buffer), Message(COPY_DATA, buffer[5..]);
    PayloadsMore(messages, m);
    assert b == Framed(m);
    assert b[..5][5..] == [] && due + [] == due;
  }

  lemma RowKeeps(buffer: Bytes, wire: Bytes, messages: seq<Message>, due: Bytes, t: Bytes)
    requires Consistent(buffer, wire, messages, due)
    ensures Consistent(buffer + t, wire, messages, due + t)
  {
    Behind(Payloads(messages), buffer, t);
  }

  lemma RowsTextAdd(version: int, rows: seq<seq<Cell>>, row: seq<Cell>)
    ensures RowsText(version, rows + [row]) == RowsText(version, rows) + RowText(version, row)
  {
    assert (rows + [row])[..|rows|] == rows;
  }

  lemma Behind(p: Bytes, buffer: Bytes, t: Bytes)
    ensures |buffer| >= 5 ==> p + (buffer + t)[5..] == (p + buffer[5..]) + t
  {
  }

  lemma FramedDone()
    ensures Framed(Message(COPY_DONE, [])) == [COPY_DONE, 0, 0, 0, 4]
  {
    assert Put(0, 2) == [0, 0];
    assert Put(0, 3) == [0, 0, 0];
    assert Put(4, 4) == [0, 0, 0, 4];
  }

  lemma DoneKeeps(buffer: Bytes, wire: Bytes, messages: seq<Message>, due: Bytes)
    requires Consistent(buffer, wire, messages, due)
    ensures var more := messages + [Message(COPY_DONE, [])];
            Consistent(buffer, wire + [COPY_DONE, 0, 0, 0, 4], more, due) && Payloads(more) == Payloads(messages)
  {
    PayloadsMore(messages, Message(COPY_DONE, []));
    FramedDone();
    assert Payloads(messages) + [] == Payloads(messages);
  }

  lemma MoreMessages(ms: seq<Message>, a: Message, b: Message)
    ensures ms + [a] + [b] == ms + [a, b]
  {
  }

  lemma RowTextStep(version: int, row: seq<Cell>, i: nat, was: Bytes)
    requires i < |row|
    ensures var now := was + CellText(version, row[i]) + [if i < |row| - 1 then TAB else NEWLINE];
            now + RowText(version, row[i + 1..]) == was + RowText(version, row[i..])
  {
    assert row[i..][1..] == row[i + 1..] && row[i..][0] == row[i];
  }

  /** The loop of `Exec` over the values of a row. */
  method AppendRow(version: int, buf: Bytes, row: seq<Cell>) returns (b: Bytes)
    ensures b == buf + RowText(version, row)
  {
    b := buf;
    assert row[0..] == row;
    for i := 0 to |row|
      invariant b + RowText(version, row[i..]) == buf + RowText(version, row)
    {
      RowTextStep(version, row, i, b);
      b := AppendEncodedText(version, b, row[i]);
      b := b + [if i < |row| - 1 then TAB else NEWLINE];
    }
    assert row[|row|..] == [] && b + [] == b;
  }

  datatype Result = Fine | AlreadyClosed | BadConn | ServerFailed

  class CopyIn {
    const version: int
    var buffer: Bytes
    var wire: Bytes            // all that was sent
    var closed: bool
    var bad: bool              // the connection's flag
    var err: bool              // set by the reader of responses
    ghost var rows: seq<seq<Cell>>
    ghost var messages: seq<Message>
    ghost var due: Bytes       // what was sent and what is still in the buffer

    ghost predicate Valid()
      reads this
    {
      Consistent(buffer, wire, messages, due)
    }

    /** Nothing was or will be sent but the rows, each once. */
    ghost predicate OnlyRows()
      reads this
    {
      due == RowsText(version, rows)
    }

    constructor (version: int)
      ensures Valid() && OnlyRows() && rows == [] && messages == [] && |buffer| == 5 && wire == []
      ensures this.version == version && !closed && !bad && !err
    {
      this.version := version;
      buffer, wire := [COPY_DATA, 0, 0, 0, 0], [];
      closed, bad, err := false, false, false;
      rows, messages, due := [], [], [];
    }

    /** `flush`: the length goes into the header. The buffer stays as it is. */
    method Flush()
      requires Valid()
      modifies `buffer, `wire, `messages, `due
      ensures Valid() && buffer == Patched(old(buffer)) && due == old(due) + old(buffer)[5..]
      ensures messages == old(messages) + [Message(COPY_DATA, old(buffer)[5..])] && Payloads(messages) == old(due)
      ensures Consistent(buffer[..5], wire, messages, old(due))
    {
      FlushKeeps(buffer, wire, messages, due);
      messages := messages + [Message(COPY_DATA, buffer[5..])];
      due := due + buffer[5..];
      buffer := Patched(buffer);
      wire := wire + buffer;
    }

    /** `Exec` with values: the row goes behind what is buffered, and all of it is sent when
        that is more than the flush size; then the buffer is cut down to its header. */
    method ExecRow(row: seq<Cell>)
      requires Valid() && row != []
      modifies `buffer, `wire, `messages, `rows, `due
      ensures Valid() && rows == old(rows) + [row] && |buffer| <= FLUSH_SIZE
      ensures due == old(due) + RowText(version, row)
      ensures messages == old(messages)
        || messages == old(messages) + [Message(COPY_DATA, (old(buffer) + RowText(version, row))[5..])]
      ensures AllData(old(messages)) && |old(buffer)| <= FLUSH_SIZE && Fits(version, row) ==> AllData(messages)
    {
      RowKeeps(buffer, wire, messages, due, RowText(version, row));
      rows := rows + [row];
      due := due + RowText(version, row);
      ghost var all := due;
      buffer := AppendRow(version, buffer, row);
      if |buffer| > FLUSH_SIZE {
        Flush();
        buffer := buffer[..5];
        due := all;
      }
    }

    /** `Exec`: a row, or no values to end the copying. */
    method Exec(row: seq<Cell>) returns (r: Result)
      requires Valid()
      modifies `buffer, `wire, `messages, `rows, `closed, `due
      ensures Valid()
      ensures r == Fine <==> !old(closed) && !bad && !err
      ensures r != Fine ==> rows == old(rows) && messages == old(messages) && due == old(due) && closed == old(closed)
      ensures r == Fine && row != [] ==>
        && rows == old(rows) + [row] && due == old(due) + RowText(version, row)
        && !closed && |buffer| <= FLUSH_SIZE && old(messages) <= messages
        && (AllData(old(messages)) && |old(buffer)| <= FLUSH_SIZE && Fits(version, row) ==> AllData(messages))
      ensures r == Fine && row == [] ==>
        rows == old(rows) && closed && Ended(old(messages), old(buffer)) && Payloads(messages) == old(due)
    {
      if closed {
        return AlreadyClosed;
      }
      if bad {
        return BadConn;
      }
      if err {
        return ServerFailed;
      }
      if row == [] {
        r := Close();
        closed := true;
      } else {
        ExecRow(row);
        r := Fine;
      }
    }

    /** The rest of the buffer was sent, and CopyDone. */
    ghost predicate Ended(before: seq<Message>, rest: Bytes)
      requires |rest| >= 5
      reads this
    {
      messages == before + [Message(COPY_DATA, rest[5..]), Message(COPY_DONE, [])]
    }

    /** `Close`: the buffer, then CopyDone. It does not say that the statement is closed and
        does not empty the buffer, which is therefore due again. */
    method Close() returns (r: Result)
      requires Valid()
      modifies `buffer, `wire, `messages, `due
      ensures Valid()
      ensures closed || bad ==> r != Fine && messages == old(messages) && due == old(due) && buffer == old(buffer)
      ensures !closed && !bad ==>
        && (r == Fine <==> !err) && Ended(old(messages), old(buffer)) && Payloads(messages) == old(due)
        && due == old(due) + old(buffer)[5..] && buffer[5..] == old(buffer)[5..]
    {
      if closed {
        return AlreadyClosed;
      }
      if bad {
        return BadConn;
      }
      Flush();
      SendDone(old(messages), old(buffer));
      r := if err then ServerFailed else Fine;
    }

    /** CopyDone. */
    method SendDone(ghost before: seq<Message>, ghost rest: Bytes)
      requires Valid() && |rest| >= 5 && messages == before + [Message(COPY_DATA, rest[5..])]
      modifies `wire, `messages
      ensures Valid() && Ended(before, rest) && Payloads(messages) == old(Payloads(messages))
    {
      DoneKeeps(buffer, wire, messages, due);
      MoreMessages(before, Message(COPY_DATA, rest[5..]), Message(COPY_DONE, []));
      wire := wire + [COPY_DONE, 0, 0, 0, 4];
      messages := messages + [Message(COPY_DONE, [])];
    }
  }

  /** Closing twice sends the buffer twice: what is sent is what is due exactly when nothing was
      buffered. After `Exec` without values the second call is refused instead. (The server has
      left copy-in mode by then, and the second call does not return: the end of the copying is
      reported once.) */
  method CloseTwice(ci: CopyIn, byExec: bool)
    requires ci.Valid() && !ci.closed && !ci.bad && !ci.err
    modifies ci
    ensures byExec ==> Payloads(ci.messages) == old(ci.due)
    ensures !byExec ==> Payloads(ci.messages) == old(ci.due) + old(ci.buffer)[5..]
    ensures Payloads(ci.messages) == old(ci.due) <==> byExec || |old(ci.buffer)| == 5
  {
    var r;
    if byExec {
      r := ci.Exec([]);
    } else {
      r := ci.Close();
    }
    r := ci.Close();
  }

  predicate Copyable(version: int, table: seq<seq<Cell>>) {
    forall i :: 0 <= i < |table| ==> table[i] != [] && Fits(version, table[i])
  }

  lemma TableStep(table: seq<seq<Cell>>, i: nat)
    ensures i < |table| ==> table[..i] + [table[i]] == table[..i + 1]
  {
  }

  /** Rows one after the other. */
  method ExecAll(ci: CopyIn, table: seq<seq<Cell>>)
    requires ci.Valid() && ci.OnlyRows() && !ci.closed && !ci.bad && !ci.err
    requires ci.rows == [] && ci.messages == [] && |ci.buffer| == 5 && Copyable(ci.version, table)
    modifies ci
    ensures ci.Valid() && ci.OnlyRows() && !ci.closed && !ci.bad && !ci.err
    ensures ci.rows == table && |ci.buffer| <= FLUSH_SIZE && AllData(ci.messages)
  {
    for i := 0 to |table|
      invariant ci.Valid() && ci.OnlyRows() && !ci.closed && !ci.bad && !ci.err
      invariant ci.rows == table[..i] && |ci.buffer| <= FLUSH_SIZE && AllData(ci.messages)
    {
      TableStep(table, i);
      RowsTextAdd(ci.version, table[..i], table[i]);
      var r := ci.Exec(table[i]);
    }
    assert table[..|table|] == table;
  }

  /** What the server does with the octets: None if they are no messages, not all CopyData but for
      the CopyDone at their end, or the payloads are no rows. */
  function ServerRows(wire: Bytes): ReadAll {
    var r := ReadMessages(wire);
    if r.None? || !CopyStream(r.value) then None else ReadRows(Payloads(r.value), [])
  }

  predicate CopyStream(ms: seq<Message>) {
    && ms != [] && ms[|ms| - 1] == Message('c' as int, [])
    && forall k :: 0 <= k < |ms| - 1 ==> ms[k].typ == 'd' as int
  }

  /** A whole COPY: whatever the rows and wherever the buffer was flushed, the server reads from
      the wire exactly those rows, and the end. */
  method CopyAll(version: int, table: seq<seq<Cell>>) returns (wire: Bytes)
    requires Copyable(version, table)
    ensures ServerRows(wire) == Some(AllMeanings(version, table))
  {
    hide Payloads, FramedAll, RowsText, AllMeanings, ReadMessages, ReadRows;
    var ci := new CopyIn(version);
    ExecAll(ci, table);
    ghost var before, rest := ci.messages, ci.buffer;
    var r := ci.Exec([]);
    wire := ci.wire;
    StreamIs(before, rest);
    ServerReads(version, table, ci.messages);
  }

  lemma StreamIs(before: seq<Message>, rest: Bytes)
    requires AllData(before) && 5 <= |rest| <= FLUSH_SIZE
    ensures var ms := before + [Message(COPY_DATA, rest[5..]), Message(COPY_DONE, [])];
            CopyStream(ms) && AllSized(ms)
  {
  }

  /** What the server makes of well-sized messages that carry the text of the rows. */
  lemma ServerReads(version: int, table: seq<seq<Cell>>, messages: seq<Message>)
    requires forall i :: 0 <= i < |table| ==> table[i] != []
    requires AllSized(messages)
    requires Payloads(messages) == RowsText(version, table)
    ensures ReadMessages(FramedAll(messages)) == Some(messages)
    ensures ReadRows(Payloads(messages), []) == Some(AllMeanings(version, table))
  {
    ReadsMessages(messages, []);
    ReadsRows(version, table, []);
    assert FramedAll(messages) + [] == FramedAll(messages) && messages + [] == messages;
    assert Payloads(messages) + [] == Payloads(messages);
    assert AllMeanings(version, table) + [] == AllMeanings(version, table);
  }
}
