/** Octets, big-endian integers and the reader primitives under the codecs
    (`encoding/binary` and `io.ReadFull` as the AMQP client and the Postgres driver use them). */
module Octets {

  type Octet = b: int | 0 <= b < 256
  type Bytes = seq<Octet>

  /** Why a read stopped. `EOF` and `UnexpectedEOF` are kept apart because the
      array reader swallows the first and reports the second. `Panic` stands for
      `make([]byte, n)` with a negative n. */
  datatype ReadError = EOF | UnexpectedEOF | Syntax | BadFrame | UnknownMethod | HeartbeatPayload | Panic

  /** The outcome of reading from a stream: what is left is part of it, also after a failure. */
  datatype Read<T> = Got(value: T, rest: Bytes) | Failed(error: ReadError, rest: Bytes)

  function Pow256(k: nat): (p: nat)
    ensures p > 0
  {
    if k == 0 then 1 else 256 * Pow256(k - 1)
  }

  /** The low k octets of n, most significant first: a cast to a k-octet unsigned
      integer is part of it. */
  function Put(n: nat, k: nat): (b: Bytes)
    ensures |b| == k
  {
    if k == 0 then [] else Put(n / 256, k - 1) + [n % 256]
  }

  function Get(b: Bytes): (n: nat)
    ensures n < Pow256(|b|)
  {
    if b == [] then 0 else Get(b[..|b| - 1]) * 256 + b[|b| - 1]
  }

  lemma {:induction false} GetPut(n: nat, k: nat)
    requires n < Pow256(k)
    ensures Get(Put(n, k)) == n
  {
    if k > 0 {
      GetPut(n / 256, k - 1);
      assert Put(n, k)[..k - 1] == Put(n / 256, k - 1);
    }
  }

  /** Signed values in k octets, in two's complement. */
  predicate InSigned(v: int, k: nat) {
    0 <= 2 * v + Pow256(k) < 2 * Pow256(k)
  }

  function Unsigned(v: int, k: nat): (u: nat)
    requires InSigned(v, k)
    ensures u < Pow256(k)
  {
    if v < 0 then v + Pow256(k) else v
  }

  function Signed(u: nat, k: nat): int {
    if 2 * u < Pow256(k) then u else u - Pow256(k)
  }

  lemma Pow256Values()
    ensures Pow256(1) == 0x100 && Pow256(2) == 0x1_0000 && Pow256(4) == 0x1_0000_0000
  {
    assert Pow256(3) == 256 * Pow256(2);
  }

  /** `io.ReadFull` of n octets: nothing at all is EOF, a part is UnexpectedEOF. */
  function ReadFull(s: Bytes, n: nat): (r: Read<Bytes>)
    ensures r.Got? ==> s == r.value + r.rest && |r.value| == n
    ensures r.Failed? ==> r.rest == [] && |s| < n
  {
    if n <= |s| then Got(s[..n], s[n..])
    else if s == [] then Failed(EOF, [])
    else Failed(UnexpectedEOF, [])
  }

  /** `binary.Read` of an unsigned integer of k octets. */
  function ReadUint(s: Bytes, k: nat): (r: Read<nat>)
    ensures r.Got? ==> |s| == k + |r.rest| && r.value < Pow256(k)
    ensures r.Failed? ==> r.rest == []
  {
    match ReadFull(s, k)
    case Got(b, rest) => Got(Get(b), rest)
    case Failed(e, rest) => Failed(e, rest)
  }

  /** A string behind a length of k octets: `readShortstr` (k = 1), `readLongstr` (k = 4). */
  function ReadString(s: Bytes, k: nat): (r: Read<Bytes>)
    ensures r.Got? ==> |s| == k + |r.value| + |r.rest|
    ensures r.Failed? ==> r.rest == []
  {
    match ReadUint(s, k)
    case Got(n, s1) => ReadFull(s1, n)
    case Failed(e, rest) => Failed(e, rest)
  }

  /** What is written with `Put` is read back, whatever follows. */
  lemma ReadPut(n: nat, k: nat, suffix: Bytes)
    requires n < Pow256(k)
    ensures ReadUint(Put(n, k) + suffix, k) == Got(n, suffix)
  {
    GetPut(n, k);
    assert (Put(n, k) + suffix)[..k] == Put(n, k);
    assert (Put(n, k) + suffix)[k..] == suffix;
  }

  /** `writeShortstr` (k = 1) and `writeLongstr` (k = 4): the length is cast to k
      octets and only that many octets of the string are written. */
  function WriteString(v: Bytes, k: nat): Bytes {
    Put(|v|, k) + v[..if |v| < Pow256(k) then |v| else |v| % Pow256(k)]
  }

  lemma ReadWriteString(v: Bytes, k: nat, suffix: Bytes)
    requires |v| < Pow256(k)
    ensures |WriteString(v, k)| == k + |v|
    ensures ReadString(WriteString(v, k) + suffix, k) == Got(v, suffix)
  {
    assert WriteString(v, k) + suffix == Put(|v|, k) + (v + suffix);
    ReadPut(|v|, k, v + suffix);
    assert (v + suffix)[..|v|] == v && (v + suffix)[|v|..] == suffix;
  }

  /** A string too long for its length octets does not survive: the exact limit. */
  lemma StringLimit(v: Bytes, k: nat)
    ensures ReadString(WriteString(v, k), k) == Got(v, []) <==> |v| < Pow256(k)
  {
    if |v| < Pow256(k) {
      ReadWriteString(v, k, []);
      assert WriteString(v, k) + [] == WriteString(v, k);
    } else {
      var r := ReadString(WriteString(v, k), k);
      assert |WriteString(v, k)| == k + |v| % Pow256(k);
    }
  }

  /** Bit i of n, and `n | 1 << i`. */
  predicate Bit(n: nat, i: nat) {
    if i == 0 then n % 2 == 1 else Bit(n / 2, i - 1)
  }

  function SetBit(n: nat, i: nat): (m: nat)
    ensures m >= n
  {
    if i == 0 then n - n % 2 + 1 else 2 * SetBit(n / 2, i - 1) + n % 2
  }

  function Pow2(k: nat): (p: nat)
    ensures p > 0
  {
    if k == 0 then 1 else 2 * Pow2(k - 1)
  }

  lemma {:induction false} SetBitBits(n: nat, i: nat, j: nat)
    ensures Bit(SetBit(n, i), j) == (j == i || Bit(n, j))
  {
    if i > 0 && j > 0 {
      SetBitBits(n / 2, i - 1, j - 1);
    }
  }

  lemma {:induction false} SetBitBound(n: nat, i: nat, k: nat)
    requires i < k && n < Pow2(k)
    ensures SetBit(n, i) < Pow2(k)
  {
    if i > 0 {
      SetBitBound(n / 2, i - 1, k - 1);
    }
  }

  lemma {:induction false} ZeroBits(i: nat)
    ensures !Bit(0, i)
  {
    if i > 0 {
      ZeroBits(i - 1);
    }
  }

  lemma Pow2Values()
    ensures Pow2(8) == 256 && Pow2(16) == 65536
  {
    assert Pow2(4) == 16;
    assert Pow2(12) == 256 * Pow2(4) by {
      assert Pow2(12) == 16 * Pow2(8);
    }
    assert Pow2(16) == 16 * Pow2(12);
  }
}
