/** MD5 streaming: buffering, padding and the length, around an arbitrary round function (md5.cc). */
module Md5 {
  import opened Bytes

  type Word = w: nat | w < 0x1_0000_0000

  datatype Hash = Hash(a: Word, b: Word, c: Word, d: Word)

  const INIT := Hash(0x67452301, 0xefcdab89, 0x98badcfe, 0x10325476)

  /** The round function, on a hash and a block of 64 bytes. */
  type Transform = (Hash, seq<Byte>) -> Hash

  // ---- the message digest (RFC 1321)

  function Zeros(n: nat): (z: seq<Byte>)
    ensures |z| == n
  {
    seq(n, i => 0)
  }

  /** Sections 3.1 and 3.2 of RFC 1321: a one bit, zero bits up to 448 modulo 512, and the number of bits modulo 2^64,
      low byte first. */
  function Padded(message: seq<Byte>): seq<Byte> {
    message + [0x80] + Zeros((55 - |message|) % 64) + LE(8 * |message| % 0x1_0000_0000_0000_0000, 8)
  }

  lemma WholeBlocks(n: nat)
    ensures (n + 1 + (55 - n) % 64 + 8) % 64 == 0
  {
    var q := (55 - n) / 64;
    assert n + 1 + (55 - n) % 64 + 8 == 64 * (1 - q);
  }

  lemma PaddedLength(message: seq<Byte>)
    ensures |Padded(message)| % 64 == 0 && |message| + 9 <= |Padded(message)| < |message| + 73
  {
    hide LE, Zeros;
    WholeBlocks(|message|);
  }

  /** What a padded message is made of: the message, a byte with the highest bit set, zero bytes as few as possible, and
      the number of bits in the last eight bytes. */
  lemma PaddedParts(message: seq<Byte>)
    ensures var p := Padded(message);
            var n := |message|;
            && |p| % 64 == 0 && n + 9 <= |p| < n + 73
            && p[..n] == message && p[n] == 128 && (forall i :: n < i < |p| - 8 ==> p[i] == 0)
            && UnLE(p[|p| - 8..]) == 8 * n % 0x1_0000_0000_0000_0000
  {
    hide LE;
    PaddedLength(message);
    var p, bits := Padded(message), 8 * |message| % 0x1_0000_0000_0000_0000;
    Pow256Values();
    LEUnLE(bits, 8);
    assert p[|p| - 8..] == LE(bits, 8);
  }

  /** Below 2^61 bytes the padded message tells the message. */
  lemma PaddedInjective(m: seq<Byte>, n: seq<Byte>)
    requires Padded(m) == Padded(n) && |m| < 0x2000_0000_0000_0000 && |n| < 0x2000_0000_0000_0000
    ensures m == n
  {
    hide LE;
    var p := Padded(m);
    assert p[|p| - 8..] == LE(8 * |m|, 8) == LE(8 * |n|, 8);
    Pow256Values();
    LEUnLE(8 * |m|, 8);
    LEUnLE(8 * |n|, 8);
    assert p[..|m|] == m && p[..|n|] == n;
  }

  /** The hash of whole blocks, one after the other. */
  function Hashed(transform: Transform, s: seq<Byte>): Hash
    requires |s| % 64 == 0
    decreases |s|
  {
    if s == [] then INIT else transform(Hashed(transform, s[..|s| - 64]), s[|s| - 64..])
  }

  function DigestBytes(h: Hash): seq<Byte> { LE(h.a, 4) + LE(h.b, 4) + LE(h.c, 4) + LE(h.d, 4) }

  /** The start value is the one of section 3.3 of RFC 1321, which lists the bytes of the four words. */
  lemma StartBytes()
    ensures DigestBytes(INIT) == [0x01, 0x23, 0x45, 0x67] + [0x89, 0xab, 0xcd, 0xef] + [0xfe, 0xdc, 0xba, 0x98]
                                   + [0x76, 0x54, 0x32, 0x10]
  {
    FourBytes(0x01, 0x23, 0x45, 0x67);
    FourBytes(0x89, 0xab, 0xcd, 0xef);
    FourBytes(0xfe, 0xdc, 0xba, 0x98);
    FourBytes(0x76, 0x54, 0x32, 0x10);
  }

  lemma FourBytes(a: Byte, b: Byte, c: Byte, d: Byte)
    ensures LE(a + 256 * (b + 256 * (c + 256 * d)), 4) == [a, b, c, d]
  {
    hide LE;
    ByteFirst(a, b + 256 * (c + 256 * d), 3);
    ByteFirst(b, c + 256 * d, 2);
    ByteFirst(c, d, 1);
    ByteFirst(d, 0, 0);
  }

  lemma ByteFirst(b: Byte, x: nat, n: nat)
    ensures LE(b + 256 * x, n + 1) == [b] + LE(x, n)
  {
    NextByte(b, x);
  }

  /** Every four bytes of a digest are the word of that place, low byte first. */
  lemma DigestWords(h: Hash)
    ensures var d := DigestBytes(h);
            && |d| == 16 && UnLE(d[..4]) == h.a && UnLE(d[4..8]) == h.b && UnLE(d[8..12]) == h.c && UnLE(d[12..]) == h.d
  {
    hide LE, UnLE;
    Pow256Values();
    LEUnLE(h.a, 4);
    LEUnLE(h.b, 4);
    LEUnLE(h.c, 4);
    LEUnLE(h.d, 4);
    var d := DigestBytes(h);
    assert d[..4] == LE(h.a, 4) && d[4..8] == LE(h.b, 4) && d[8..12] == LE(h.c, 4) && d[12..] == LE(h.d, 4);
  }

  function HashOf(transform: Transform, message: seq<Byte>): Hash {
    PaddedLength(message);
    Hashed(transform, Padded(message))
  }

  function Digest(transform: Transform, message: seq<Byte>): seq<Byte> { DigestBytes(HashOf(transform, message)) }

  // ---- the bit count in two words

  /** Two words hold the number of bits modulo 2^64. */
  predicate Counts(low: Word, high: Word, bytes: nat) {
    low + 0x1_0000_0000 * high == 8 * bytes % 0x1_0000_0000_0000_0000
  }

  function Low(low: Word, len: Word): Word { (low + len * 8 % 0x1_0000_0000) % 0x1_0000_0000 }

  /** One carry, seen because the sum wraps below `low`, and the bits of the length that the shift pushed out. */
  function High(low: Word, high: Word, len: Word): Word {
    ((if Low(low, len) < low then (high + 1) % 0x1_0000_0000 else high) + len / 0x2000_0000) % 0x1_0000_0000
  }

  lemma LowSplit(low: Word, len: Word)
    ensures low + len * 8 % 0x1_0000_0000 == Low(low, len) + (if Low(low, len) < low then 0x1_0000_0000 else 0)
  {
  }

  lemma HighSplit(low: Word, high: Word, len: Word) returns (out: nat)
    ensures high + (if Low(low, len) < low then 1 else 0) + len / 0x2000_0000
              == High(low, high, len) + 0x1_0000_0000 * out
  {
    hide Low;
    out := (high + (if Low(low, len) < low then 1 else 0) + len / 0x2000_0000) / 0x1_0000_0000;
  }

  lemma Remainder(x: nat, r: nat, q: nat)
    requires x == r + 0x1_0000_0000_0000_0000 * q && r < 0x1_0000_0000_0000_0000
    ensures x % 0x1_0000_0000_0000_0000 == r
  {
  }

  lemma CountsOn(low: Word, high: Word, bytes: nat, len: Word)
    requires Counts(low, high, bytes)
    ensures Counts(Low(low, len), High(low, high, len), bytes + len)
  {
    hide Low, High;
    var low': nat, high': nat := Low(low, len), High(low, high, len);
    LowSplit(low, len);
    var out := HighSplit(low, high, len);
    assert len * 8 == len * 8 % 0x1_0000_0000 + 0x1_0000_0000 * (len / 0x2000_0000);
    var q := 8 * bytes / 0x1_0000_0000_0000_0000;
    Remainder(8 * (bytes + len), low' + 0x1_0000_0000 * high', q + out);
  }

  lemma BytesIn(low: Word, high: Word, bytes: nat)
    requires Counts(low, high, bytes)
    ensures low / 8 % 64 == bytes % 64
  {
    var q := 8 * bytes / 0x1_0000_0000_0000_0000;
    assert 8 * bytes == low + 0x1_0000_0000 * (high + 0x1_0000_0000 * q);
    var k := high + 0x1_0000_0000 * q;
    assert bytes == low / 8 + 64 * (0x80_0000 * k);
  }

  lemma LengthBytes(low: Word, high: Word, bytes: nat)
    requires Counts(low, high, bytes)
    ensures LE(low, 4) + LE(high, 4) == LE(8 * bytes % 0x1_0000_0000_0000_0000, 8)
  {
    hide LE;
    Pow256Values();
    LEJoin(low, high, 4, 4);
  }

  lemma Regroup(p: nat, high: nat)
    ensures 256 * p * high == 256 * (p * high)
  {
  }

  lemma NextByte(low: nat, p: nat)
    ensures (low + 256 * p) % 256 == low % 256 && (low + 256 * p) / 256 == low / 256 + p
  {
  }

  lemma {:induction false} LEJoin(low: nat, high: nat, m: nat, n: nat)
    requires low < Pow256(m)
    ensures LE(low, m) + LE(high, n) == LE(low + Pow256(m) * high, m + n)
  {
    if m > 0 {
      var p := Pow256(m - 1) * high;
      Regroup(Pow256(m - 1), high);
      NextByte(low, p);
      LEJoin(low / 256, high, m - 1, n);
      assert LE(low, m) + LE(high, n) == [low % 256] + (LE(low / 256, m - 1) + LE(high, n));
    } else {
      assert low == 0;
      assert [] + LE(high, n) == LE(high, n);
    }
  }

  // ---- the context

  class Context {
    const transform: Transform
    var hash: Hash
    var low: Word
    var high: Word
    const data: array<Byte>
    /** Everything passed to Update, and the blocks passed to the round function, joined. */
    ghost var message: seq<Byte>
    ghost var blocks: seq<Byte>

    /** The hash is that of the blocks. */
    ghost predicate Hashing()
      reads this`hash, this`blocks
    {
      data.Length == 64 && |blocks| % 64 == 0 && hash == Hashed(transform, blocks)
    }

    /** The blocks and the used part of the buffer are the message, and the count is its length. */
    ghost predicate Valid()
      reads this, data
    {
      && Hashing()
      && Counts(low, high, |message|)
      && message == blocks + data[..|message| % 64]
    }

    constructor (transform: Transform)
      ensures Valid() && fresh(data) && this.transform == transform && message == []
    {
      this.transform := transform;
      hash, low, high := INIT, 0, 0;
      data := new Byte[64];
      message, blocks := [], [];
    }

    method TransformBlock()
      requires Hashing()
      modifies this`hash, this`blocks
      ensures Hashing() && blocks == old(blocks) + data[..]
    {
      hash := transform(hash, data[..]);
      blocks := blocks + data[..];
      assert blocks[..|blocks| - 64] == old(blocks) && blocks[|blocks| - 64..] == data[..];
    }

    /** Copies bytes into the buffer. */
    method Put(at: nat, b: seq<Byte>)
      requires at + |b| <= data.Length
      modifies data
      ensures data[..at + |b|] == old(data[..at]) + b
      ensures data[at + |b|..] == old(data[at + |b|..])
    {
      forall i | 0 <= i < |b| { data[at + i] := b[i]; }
    }

    /** Fills up the buffer, if enough comes for that; `p` bytes are taken. */
    method Top(t: nat, buf: seq<Byte>) returns (p: nat)
      requires Hashing() && 0 < t < 64 && |buf| >= 64 - t
      modifies this`hash, this`blocks, data
      ensures Hashing() && p == 64 - t && blocks + buf[p..] == old(blocks + data[..t]) + buf
    {
      hide Hashed;
      ghost var used := data[..t];
      p := 64 - t;
      Put(t, buf[..p]);
      assert data[..64] == data[..];
      TransformBlock();
      assert buf[..p] + buf[p..] == buf;
      assert old(blocks) + (used + buf[..p]) + buf[p..] == old(blocks) + used + (buf[..p] + buf[p..]);
    }

    /** Hashes whole blocks straight from the input and keeps the rest in the buffer. */
    method Whole(buf: seq<Byte>)
      requires Hashing()
      modifies this`hash, this`blocks, data
      ensures Hashing() && exists p: nat :: p <= |buf| < p + 64
                                         && p % 64 == 0 && blocks == old(blocks) + buf[..p]
                                              && data[..|buf| - p] == buf[p..]
    {
      hide Hashed;
      var p := 0;
      assert blocks == old(blocks) + buf[..0];
      while |buf| - p >= 64
        invariant 0 <= p <= |buf| && p % 64 == 0
        invariant Hashing() && blocks == old(blocks) + buf[..p]
      {
        Put(0, buf[p..p + 64]);
        assert data[..] == data[..64] == buf[p..p + 64];
        TransformBlock();
        Further(old(blocks), buf, p);
        p := p + 64;
      }
      Put(0, buf[p..]);
      assert data[..|buf| - p] == buf[p..];
    }

    /** The case that completes the buffer, or starts with an empty one. */
    method AbsorbLong(t: nat, buf: seq<Byte>)
      requires Hashing() && t < 64 && (t == 0 || t + |buf| >= 64)
      modifies this`hash, this`blocks, data
      ensures Hashing() && blocks + data[..(t + |buf|) % 64] == old(blocks + data[..t]) + buf
    {
      hide Hashed, Hashing;
      Length();
      ghost var front := blocks + data[..t];
      var p := 0;
      if t > 0 {
        p := Top(t, buf);
      } else {
        assert blocks == front && buf[0..] == buf;
      }
      ghost var before, rest, n := blocks, buf[p..], (t + |buf|) % 64;
      Whole(buf[p..]);
      ghost var q: nat :| q <= |rest| < q + 64 && q % 64 == 0 && blocks == before + rest[..q]
          && data[..|rest| - q] == rest[q..];
      Leftover(t, |buf|, p, q);
      Cut(before, rest, q);
    }

    /** Hashes and keeps what comes, with the count already moved on. */
    method Absorb(t: nat, buf: seq<Byte>)
      requires Hashing() && t < 64
      modifies this`hash, this`blocks, data
      ensures Hashing() && blocks + data[..(t + |buf|) % 64] == old(blocks + data[..t]) + buf
    {
      hide Hashed, Hashing;
      Length();
      if 0 < t && |buf| < 64 - t {
        ghost var used := data[..t];
        Put(t, buf);
        assert (t + |buf|) % 64 == t + |buf|;
        assert blocks + (used + buf) == blocks + used + buf;
      } else {
        AbsorbLong(t, buf);
      }
    }

    lemma Length()
      requires Hashing()
      ensures data.Length == 64
    {
    }

    method Update(buf: seq<Byte>)
      requires Valid() && |buf| < 0x1_0000_0000
      modifies this, data
      ensures Valid() && message == old(message) + buf
    {
      hide Hashed, Hashing, Counts, Low, High;
      Length();
      BytesIn(low, high, |message|);
      CountsOn(low, high, |message|, |buf|);
      var t := low / 8 % 64;
      low, high := Low(low, |buf|), High(low, high, |buf|);
      Leftover(|message| % 64, |buf|, 0, 0);
      message := message + buf;
      Absorb(t, buf);
    }

    /** Padding that overflows into a second block. */
    method PadTwo(used: nat)
      requires Hashing() && 56 <= used < 64
      modifies this`hash, this`blocks, data
      ensures Hashing() && blocks + data[..56] == old(blocks + data[..used]) + [0x80] + Zeros((55 - used) % 64)
    {
      hide Hashed, Zeros;
      ghost var tail := data[..used];
      Put(used, [0x80]);
      var count := 64 - 1 - used;
      Put(64 - count, Zeros(count));
      assert data[..64] == data[..];
      TransformBlock();
      Put(0, Zeros(56));
      ZerosJoin(count, 56);
      assert data[..56] == Zeros(56);
      Regrouped(old(blocks), tail, [0x80], Zeros(count), Zeros(56));
    }

    /** The padding, up to the last 8 bytes of a block. */
    method Pad(used: nat)
      requires Hashing() && used < 64
      modifies this`hash, this`blocks, data
      ensures Hashing() && blocks + data[..56] == old(blocks + data[..used]) + [0x80] + Zeros((55 - used) % 64)
    {
      hide Hashed, Zeros;
      if 64 - 1 - used < 8 {
        PadTwo(used);
        return;
      }
      ghost var tail := data[..used];
      Put(used, [0x80]);
      var count := 64 - 1 - used;
      Put(64 - count, Zeros(count - 8));
      Regrouped(blocks, tail, [0x80], Zeros(count - 8), []);
      assert Zeros(count - 8) + [] == Zeros(count - 8);
      assert tail + [0x80] + Zeros(count - 8) + [] == tail + [0x80] + Zeros(count - 8);
    }

    /** The last 8 bytes of the last block. */
    method PutLength()
      requires Hashing()
      modifies this`hash, this`blocks, data
      ensures Hashing() && blocks == old(blocks + data[..56]) + (LE(low, 4) + LE(high, 4))
    {
      hide Hashed, LE;
      ghost var front := data[..56];
      Put(56, LE(low, 4));
      Put(60, LE(high, 4));
      assert data[..] == data[..64];
      TransformBlock();
      Regrouped(old(blocks), front, LE(low, 4), LE(high, 4), []);
      assert front + LE(low, 4) + LE(high, 4) + [] == front + LE(low, 4) + LE(high, 4);
      assert LE(high, 4) + [] == LE(high, 4);
      assert old(blocks) + front + LE(low, 4) + LE(high, 4) == old(blocks) + front + (LE(low, 4) + LE(high, 4));
    }

    /** Returns the digest of the whole message; the last line of the source clears only the first 8 bytes of the
        context. */
    method Final() returns (digest: seq<Byte>)
      requires Valid()
      modifies this, data
      ensures digest == Digest(transform, old(message))
      ensures blocks == Padded(old(message))
      ensures hash == Hash(0, 0, HashOf(transform, old(message)).c, HashOf(transform, old(message)).d)
    {
      hide Hashed, Counts, Zeros, LE, Hashing;
      Length();
      BytesIn(low, high, |message|);
      LengthBytes(low, high, |message|);
      var count := low / 8 % 64;
      PaddedBy(message, count);
      Pad(count);
      PutLength();
      Hashes();
      digest := DigestBytes(hash);
      hash := Hash(0, 0, hash.c, hash.d);
    }

    lemma Hashes()
      requires Hashing()
      ensures |blocks| % 64 == 0 && hash == Hashed(transform, blocks)
    {
    }
  }

  lemma PaddedBy(message: seq<Byte>, used: nat)
    requires used == |message| % 64
    ensures (55 - used) % 64 == (55 - |message|) % 64
  {
  }

  /** What the buffer holds after `p` and then `q` bytes went to the round function. */
  lemma Leftover(t: nat, len: nat, p: nat, q: nat)
    requires t < 64 && q % 64 == 0
    ensures p == (if t > 0 then 64 - t else 0) && p + q <= len < p + q + 64 ==> (t + len) % 64 == len - p - q
    ensures forall n: nat :: n % 64 == t ==> (n + len) % 64 == (t + len) % 64
  {
  }

  lemma Cut(a: seq<Byte>, b: seq<Byte>, q: nat)
    requires q <= |b|
    ensures a + b[..q] + b[q..] == a + b
  {
  }

  lemma Further(a: seq<Byte>, b: seq<Byte>, p: nat)
    requires p + 64 <= |b|
    ensures a + b[..p] + b[p..p + 64] == a + b[..p + 64]
  {
  }

  lemma Regrouped(a: seq<Byte>, b: seq<Byte>, c: seq<Byte>, d: seq<Byte>, e: seq<Byte>)
    ensures a + (b + c + d) + e == a + b + c + (d + e)
    ensures a + (b + c + d) + e == a + (b + c + d + e)
  {
  }

  lemma ZerosJoin(m: nat, n: nat)
    ensures Zeros(m) + Zeros(n) == Zeros(m + n)
  {
  }

  /** However the message is split, the digest is that of the whole. */
  method DigestOf(transform: Transform, parts: seq<seq<Byte>>) returns (digest: seq<Byte>)
    requires forall i :: 0 <= i < |parts| ==> |parts[i]| < 0x1_0000_0000
    ensures digest == Digest(transform, Concat(parts))
  {
    var ctx := new Context(transform);
    for i := 0 to |parts|
      invariant ctx.Valid() && fresh(ctx) && fresh(ctx.data) && ctx.transform == transform
      invariant ctx.message == Concat(parts[..i])
    {
      assert parts[..i + 1][..i] == parts[..i];
      ctx.Update(parts[i]);
    }
    assert parts[..|parts|] == parts;
    digest := ctx.Final();
  }
}
