/** The two text forms of a bytea value (encode.go). */
module PqBytea {
  import opened Basics
  import opened Octets

  const BACKSLASH: Octet := 92
  const LETTER_X: Octet := 120

  function Then(a: Bytes, r: Option<Bytes>): Option<Bytes> {
    if r.Some? then Some(a + r.value) else None
  }

  // ---------------------------------------------------------------- hex

  function HexDigit(n: nat): (c: Octet)
    requires n < 16
    ensures HexValue(c) == Some(n) && c != BACKSLASH
  {
    if n < 10 then 48 + n else 87 + n
  }

  function HexValue(c: Octet): (r: Option<nat>)
    ensures r.Some? ==> r.value < 16
  {
    if 48 <= c <= 57 then Some(c - 48)
    else if 97 <= c <= 102 then Some(c - 87)
    else if 65 <= c <= 70 then Some(c - 55)
    else None
  }

  function Hex(v: Bytes): Bytes {
    if v == [] then [] else [HexDigit(v[0] / 16), HexDigit(v[0] % 16)] + Hex(v[1..])
  }

  /** `hex.Decode`: an odd length or another character is an error. */
  function Unhex(s: Bytes): Option<Bytes> {
    if s == [] then Some([])
    else if |s| == 1 then None
    else
      var a, b := HexValue(s[0]), HexValue(s[1]);
      if a.None? || b.None? then None
      else Then([a.value * 16 + b.value], Unhex(s[2..]))
  }

  lemma {:induction false} UnhexHex(v: Bytes)
    ensures Unhex(Hex(v)) == Some(v)
  {
    if v != [] {
      UnhexHex(v[1..]);
      assert Hex(v)[2..] == Hex(v[1..]);
      assert [v[0]] + v[1..] == v;
    }
  }

  // ---------------------------------------------------------------- escape

  /** "\\%03o". */
  function Octal(b: Octet): Bytes {
    [BACKSLASH, 48 + b / 64, 48 + b / 8 % 8, 48 + b % 8]
  }

  function EscapeOctet(b: Octet): Bytes {
    if b == BACKSLASH then [BACKSLASH, BACKSLASH]
    else if b < 0x20 || b > 0x7e then Octal(b)
    else [b]
  }

  function Escape(v: Bytes): Bytes {
    if v == [] then [] else EscapeOctet(v[0]) + Escape(v[1..])
  }

  predicate OctalDigit(c: Octet) { 48 <= c <= 55 }

  function DigitValue(c: Octet): int { c - 48 }

  /** `strconv.ParseInt(s, 8, 9)` on three characters: a sign is accepted, and the value must
      be one of a 9-bit signed integer. */
  function ParseOctal(s: Bytes): Option<int>
    requires |s| == 3
  {
    if s[0] == 43 || s[0] == 45 then
      if OctalDigit(s[1]) && OctalDigit(s[2])
      then var n := DigitValue(s[1]) * 8 + DigitValue(s[2]); Some(if s[0] == 45 then -n else n)
      else None
    else if OctalDigit(s[0]) && OctalDigit(s[1]) && OctalDigit(s[2]) then
      var n := DigitValue(s[0]) * 64 + DigitValue(s[1]) * 8 + DigitValue(s[2]);
      if n < 256 then Some(n) else None
    else None
  }

  /** The escape form read character by character. */
  function Unescape(s: Bytes): Option<Bytes> {
    if s == [] then Some([])
    else if s[0] != BACKSLASH then Then([s[0]], Unescape(s[1..]))
    else if |s| >= 2 && s[1] == BACKSLASH then Then([BACKSLASH], Unescape(s[2..]))
    else if |s| < 4 then None
    else
      var n := ParseOctal(s[1..4]);
      if n.None? then None else Then([n.value % 256], Unescape(s[4..]))
  }

  lemma UnescapeOctet(b: Octet, rest: Bytes)
    ensures Unescape(EscapeOctet(b) + rest) == Then([b], Unescape(rest))
  {
    var s := EscapeOctet(b) + rest;
    if b == BACKSLASH {
      assert s[2..] == rest;
    } else if b < 0x20 || b > 0x7e {
      assert s[1..4] == [48 + b / 64, 48 + b / 8 % 8, 48 + b % 8];
      assert s[4..] == rest;
      assert ParseOctal(s[1..4]) == Some(b);
    } else {
      assert s[1..] == rest;
    }
  }

  lemma {:induction false} UnescapeEscape(v: Bytes)
    ensures Unescape(Escape(v)) == Some(v)
  {
    if v != [] {
      UnescapeEscape(v[1..]);
      UnescapeOctet(v[0], Escape(v[1..]));
      assert [v[0]] + v[1..] == v;
    }
  }

  predicate LooksHex(s: Bytes) {
    |s| >= 2 && s[0] == BACKSLASH && s[1] == LETTER_X
  }

  /** The escape form is never taken for the hex form. */
  lemma EscapeIsNotHex(v: Bytes)
    ensures !LooksHex(Escape(v))
  {
    if v != [] {
      var e := EscapeOctet(v[0]);
      assert Escape(v)[0] == e[0];
      assert |e| >= 2 ==> Escape(v)[1] == e[1];
    }
  }

  // ---------------------------------------------------------------- both

  function Encoded(serverVersion: int, v: Bytes): Bytes {
    if serverVersion >= 90000 then [BACKSLASH, LETTER_X] + Hex(v) else Escape(v)
  }

  function Parsed(s: Bytes): Option<Bytes> {
    if LooksHex(s) then Unhex(s[2..]) else Unescape(s)
  }

  /** Every byte string survives, in the form that fits any server. */
  lemma ByteaRoundTrip(serverVersion: int, v: Bytes)
    ensures Parsed(Encoded(serverVersion, v)) == Some(v)
  {
    if serverVersion >= 90000 {
      UnhexHex(v);
      assert ([BACKSLASH, LETTER_X] + Hex(v))[2..] == Hex(v);
    } else {
      EscapeIsNotHex(v);
      UnescapeEscape(v);
    }
  }

  /** Two lower-case hex digits for each octet, behind a backslash and an x: what servers from 9.0
      on print and take. */
  predicate HexForm(s: Bytes, n: nat) {
    && |s| == 2 + 2 * n && s[0] == '\\' as int && s[1] == 'x' as int
    && forall i :: 2 <= i < |s| ==> '0' as int <= s[i] <= '9' as int || 'a' as int <= s[i] <= 'f' as int
  }

  /** Printable characters only: what any server takes. */
  predicate Printable(s: Bytes) {
    forall i :: 0 <= i < |s| ==> 0x20 <= s[i] <= 0x7e
  }

  lemma {:induction false} HexIsHex(v: Bytes)
    ensures |Hex(v)| == 2 * |v|
    ensures forall i :: 0 <= i < |Hex(v)| ==> 48 <= Hex(v)[i] <= 57 || 97 <= Hex(v)[i] <= 102
  {
    if v != [] {
      HexIsHex(v[1..]);
    }
  }

  lemma {:induction false} EscapeIsPrintable(v: Bytes)
    ensures Printable(Escape(v))
  {
    if v != [] {
      EscapeIsPrintable(v[1..]);
    }
  }

  /** `encodeBytea`: what it gives is in the form for that server's version, and read back by
      `parseBytea` as v. */
  method EncodeBytea(serverVersion: int, v: Bytes) returns (result: Bytes)
    ensures result == Encoded(serverVersion, v) && Parsed(result) == Some(v)
    ensures serverVersion >= 90000 ==> HexForm(result, |v|)
    ensures serverVersion < 90000 ==> Printable(result) && !LooksHex(result)
  {
    ByteaRoundTrip(serverVersion, v);
    HexIsHex(v);
    EscapeIsPrintable(v);
    EscapeIsNotHex(v);
    if serverVersion >= 90000 {
      result := [BACKSLASH, LETTER_X] + Hex(v);
    } else {
      result := EscapeAll(v);
    }
  }

  lemma EscapeOne(done: Bytes, v: Bytes, i: nat)
    requires i < |v|
    ensures done + Escape(v[i..]) == (done + EscapeOctet(v[i])) + Escape(v[i + 1..])
  {
    assert v[i..][1..] == v[i + 1..];
    assert Escape(v[i..]) == EscapeOctet(v[i]) + Escape(v[i + 1..]);
  }

  method EscapeAll(v: Bytes) returns (result: Bytes)
    ensures result == Escape(v)
  {
    result := [];
    assert v[0..] == v;
    for i := 0 to |v|
      invariant result + Escape(v[i..]) == Escape(v)
    {
      EscapeOne(result, v, i);
      if v[i] == BACKSLASH {
        result := result + [BACKSLASH, BACKSLASH];
      } else if v[i] < 0x20 || v[i] > 0x7e {
        result := result + Octal(v[i]);
      } else {
        result := result + [v[i]];
      }
    }
    assert v[|v|..] == [] && result + [] == result;
  }

  /** One octet as text: itself if it can be, a doubled backslash, or three octal digits. */
  function EscapeAs(b: Octet, octal: bool): Bytes {
    if octal then Octal(b) else if b == BACKSLASH then [BACKSLASH, BACKSLASH] else [b]
  }

  function EscapeEach(v: Bytes, octal: seq<bool>): Bytes
    requires |octal| == |v|
  {
    if v == [] then [] else EscapeAs(v[0], octal[0]) + EscapeEach(v[1..], octal[1..])
  }

  function HexCase(n: nat, upper: bool): (c: Octet)
    requires n < 16
  {
    if n < 10 then '0' as int + n else (if upper then 'A' as int else 'a' as int) + n - 10
  }

  function HexEach(v: Bytes, upper: seq<bool>): Bytes
    requires |upper| == |v|
  {
    if v == [] then []
    else [HexCase(v[0] / 16, upper[0]), HexCase(v[0] % 16, upper[0])] + HexEach(v[1..], upper[1..])
  }

  lemma OctalReads(b: Octet, rest: Bytes)
    ensures Unescape(Octal(b) + rest) == Then([b], Unescape(rest))
  {
    var s := Octal(b) + rest;
    assert s[1..4] == [48 + b / 64, 48 + b / 8 % 8, 48 + b % 8];
    assert s[4..] == rest;
    assert ParseOctal(s[1..4]) == Some(b);
  }

  /** Whichever octets are in octal, the bytes are read. */
  lemma {:induction false} AnyEscapeParses(v: Bytes, octal: seq<bool>)
    requires |octal| == |v|
    ensures Unescape(EscapeEach(v, octal)) == Some(v)
  {
    if v != [] {
      var rest := EscapeEach(v[1..], octal[1..]);
      AnyEscapeParses(v[1..], octal[1..]);
      if octal[0] {
        OctalReads(v[0], rest);
      } else if v[0] == BACKSLASH {
        assert ([BACKSLASH, BACKSLASH] + rest)[2..] == rest;
      } else {
        assert ([v[0]] + rest)[1..] == rest;
      }
      assert [v[0]] + v[1..] == v;
    }
  }

  /** And whichever hex digits are in upper case. */
  lemma {:induction false} AnyHexParses(v: Bytes, upper: seq<bool>)
    requires |upper| == |v|
    ensures Unhex(HexEach(v, upper)) == Some(v)
  {
    if v != [] {
      AnyHexParses(v[1..], upper[1..]);
      assert HexEach(v, upper)[2..] == HexEach(v[1..], upper[1..]);
      assert [v[0]] + v[1..] == v;
    }
  }

  lemma ThenThen(a: Bytes, b: Bytes, r: Option<Bytes>)
    ensures Then(a, Then(b, r)) == Then(a + b, r)
  {
    if r.Some? {
      assert a + (b + r.value) == (a + b) + r.value;
    }
  }

  lemma ThenNothing(r: Option<Bytes>)
    ensures Then([], r) == r
  {
    if r.Some? {
      assert [] + r.value == r.value;
    }
  }

  /** A run without backslashes stands for itself. */
  lemma {:induction false} RawRun(s: Bytes, n: nat)
    requires n <= |s| && forall k :: 0 <= k < n ==> s[k] != BACKSLASH
    ensures Unescape(s) == Then(s[..n], Unescape(s[n..]))
    decreases n
  {
    if n == 0 {
      assert s[0..] == s && s[..0] == [];
      ThenNothing(Unescape(s));
    } else {
      var t := s[1..];
      RawRun(t, n - 1);
      assert t[n - 1..] == s[n..];
      assert [s[0]] + t[..n - 1] == s[..n];
      ThenThen([s[0]], t[..n - 1], Unescape(s[n..]));
    }
  }

  /** `bytes.IndexByte(s, '\\')`, or the length. */
  method RunLength(s: Bytes) returns (n: nat)
    ensures n <= |s| && (forall k :: 0 <= k < n ==> s[k] != BACKSLASH) && (n < |s| ==> s[n] == BACKSLASH)
  {
    n := 0;
    while n < |s| && s[n] != BACKSLASH
      invariant n <= |s| && forall k :: 0 <= k < n ==> s[k] != BACKSLASH
    {
      n := n + 1;
    }
  }

  /** `parseBytea`, which takes raw runs in one go; None is the error it panics with. */
  method ParseBytea(bytes: Bytes) returns (r: Option<Bytes>)
    ensures r == Parsed(bytes)
  {
    if LooksHex(bytes) {
      return Unhex(bytes[2..]);
    }
    var s, result: Bytes := bytes, [];
    ThenNothing(Unescape(s));
    while |s| > 0
      invariant Then(result, Unescape(s)) == Unescape(bytes)
      decreases |s|
    {
      if s[0] == BACKSLASH {
        if |s| >= 2 && s[1] == BACKSLASH {
          ThenThen(result, [BACKSLASH], Unescape(s[2..]));
          result := result + [BACKSLASH];
          s := s[2..];
        } else {
          if |s| < 4 {
            return None;
          }
          var n := ParseOctal(s[1..4]);
          if n.None? {
            return None;
          }
          ThenThen(result, [n.value % 256], Unescape(s[4..]));
          result := result + [n.value % 256];
          s := s[4..];
        }
      } else {
        var n := RunLength(s);
        RawRun(s, n);
        ThenThen(result, s[..n], Unescape(s[n..]));
        result := result + s[..n];
        s := s[n..];
      }
    }
    assert result + [] == result;
    r := Some(result);
  }
}
