/** The streaming hash of the test tools: sections 5.1.1 and 6.2.2 of FIPS 180-4, and a context that gets
    the message in pieces. */
module Sha256 {

  type word = bv32

  // ---------------------------------------------------------------- the functions of section 4.1.2

  function RotRight(a: word, n: bv6): word
    requires 0 < n < 32
  {
    (a >> n) | (a << (32 - n))
  }

  /** Addition of 32-bit words; it wraps. */
  function Add(x: word, y: word): word { x + y }

  function Ch(x: word, y: word, z: word): word { (x & y) ^ (!x & z) }

  function Maj(x: word, y: word, z: word): word { (x & y) ^ (x & z) ^ (y & z) }

  function Ep0(x: word): word { RotRight(x, 2) ^ RotRight(x, 13) ^ RotRight(x, 22) }

  function Ep1(x: word): word { RotRight(x, 6) ^ RotRight(x, 11) ^ RotRight(x, 25) }

  function Sig0(x: word): word { RotRight(x, 7) ^ RotRight(x, 18) ^ (x >> 3) }

  function Sig1(x: word): word { RotRight(x, 17) ^ RotRight(x, 19) ^ (x >> 10) }

  // The constants of section 4.2.2, in four parts.

  const FIRST: seq<word> := [
    0x428a2f98, 0x71374491, 0xb5c0fbcf, 0xe9b5dba5, 0x3956c25b, 0x59f111f1, 0x923f82a4, 0xab1c5ed5,
    0xd807aa98, 0x12835b01, 0x243185be, 0x550c7dc3, 0x72be5d74, 0x80deb1fe, 0x9bdc06a7, 0xc19bf174
  ]

  const SECOND: seq<word> := [
    0xe49b69c1, 0xefbe4786, 0x0fc19dc6, 0x240ca1cc, 0x2de92c6f, 0x4a7484aa, 0x5cb0a9dc, 0x76f988da,
    0x983e5152, 0xa831c66d, 0xb00327c8, 0xbf597fc7, 0xc6e00bf3, 0xd5a79147, 0x06ca6351, 0x14292967
  ]

  const THIRD: seq<word> := [
    0x27b70a85, 0x2e1b2138, 0x4d2c6dfc, 0x53380d13, 0x650a7354, 0x766a0abb, 0x81c2c92e, 0x92722c85,
    0xa2bfe8a1, 0xa81a664b, 0xc24b8b70, 0xc76c51a3, 0xd192e819, 0xd6990624, 0xf40e3585, 0x106aa070
  ]

  const FOURTH: seq<word> := [
    0x19a4c116, 0x1e376c08, 0x2748774c, 0x34b0bcb5, 0x391c0cb3, 0x4ed8aa4a, 0x5b9cca4f, 0x682e6ff3,
    0x748f82ee, 0x78a5636f, 0x84c87814, 0x8cc70208, 0x90befffa, 0xa4506ceb, 0xbef9a3f7, 0xc67178f2
  ]

  const K: seq<word> := (FIRST + SECOND) + (THIRD + FOURTH)

  /** The working variables, and a hash value. */
  datatype Vars = Vars(a: word, b: word, c: word, d: word, e: word, f: word, g: word, h: word)

  /** Section 5.3.3. */
  const INITIAL := Vars(0x6a09e667, 0xbb67ae85, 0x3c6ef372, 0xa54ff53a, 0x510e527f, 0x9b05688c, 0x1f83d9ab, 0x5be0cd19)

  // ---------------------------------------------------------------- the hash of a whole message

  type Block = b: seq<bv8> | |b| == 64 witness seq(64, _ => 0)

  function Word(b0: bv8, b1: bv8, b2: bv8, b3: bv8): word {
    (b0 as word << 24) | (b1 as word << 16) | (b2 as word << 8) | b3 as word
  }

  function Next(w2: word, w7: word, w15: word, w16: word): word {
    Add(Add(Add(Sig1(w2), w7), Sig0(w15)), w16)
  }

  /** The message schedule. */
  function W(b: Block, t: nat): word {
    if t < 16 then Word(b[4 * t], b[4 * t + 1], b[4 * t + 2], b[4 * t + 3])
    else Next(W(b, t - 2), W(b, t - 7), W(b, t - 15), W(b, t - 16))
  }

  function Round(s: Vars, k: word, w: word): Vars {
    var t1 := Add(Add(Add(Add(s.h, Ep1(s.e)), Ch(s.e, s.f, s.g)), k), w);
    var t2 := Add(Ep0(s.a), Maj(s.a, s.b, s.c));
    Vars(Add(t1, t2), s.a, s.b, s.c, Add(s.d, t1), s.e, s.f, s.g)
  }

  /** The working variables after `t` rounds. */
  function Rounds(b: Block, s: Vars, t: nat): Vars
    requires t <= |K|
  {
    if t == 0 then s else Round(Rounds(b, s, t - 1), K[t - 1], W(b, t - 1))
  }

  function Plus(s: Vars, t: Vars): Vars {
    Vars(Add(s.a, t.a), Add(s.b, t.b), Add(s.c, t.c), Add(s.d, t.d), Add(s.e, t.e), Add(s.f, t.f), Add(s.g, t.g),
         Add(s.h, t.h))
  }

  function Compress(s: Vars, b: Block): Vars {
    Plus(s, Rounds(b, s, |K|))
  }

  /** The hash value after all blocks of `m`. */
  function Blocks(m: seq<bv8>): Vars
    requires |m| % 64 == 0
  {
    if m == [] then INITIAL
    else
      assert |m| >= 64;
      Compress(Blocks(m[..|m| - 64]), m[|m| - 64..])
  }

  function Zeros(n: nat): (s: seq<bv8>)
    ensures |s| == n
  {
    seq(n, _ => 0)
  }

  /** The low byte of a number. */
  function Low(n: nat): bv8 {
    (n % 256) as bv8
  }

  /** `n` shifted right by `k` bytes. */
  function Shifted(n: nat, k: nat): nat {
    if k == 0 then n else Shifted(n / 256, k - 1)
  }

  /** The low `k` bytes of a number, most significant first. */
  function LowBytes(n: nat, k: nat): (s: seq<bv8>)
    ensures |s| == k
    ensures forall i | 0 <= i < k :: s[i] == Low(Shifted(n, k - 1 - i))
  {
    if k == 0 then [] else LowBytes(n / 256, k - 1) + [Low(n)]
  }

  function Power256(k: nat): nat {
    if k == 0 then 1 else 256 * Power256(k - 1)
  }

  /** What does not fit is dropped. */
  lemma {:induction false} LowBytesWrap(n: nat, w: nat, k: nat)
    ensures LowBytes(n + Power256(k) * w, k) == LowBytes(n, k)
  {
    hide Low;
    if k > 0 {
      var p := Power256(k - 1) * w;
      assert Power256(k) * w == 256 * p;
      assert (n + 256 * p) / 256 == n / 256 + p;
      LowBytesWrap(n / 256, w, k - 1);
      assert Low(n + 256 * p) == Low(n) by { LowPeriod(n, p); }
    }
  }

  lemma LowPeriod(n: nat, p: nat)
    ensures Low(n + 256 * p) == Low(n)
  {
    assert (n + 256 * p) % 256 == n % 256;
  }

  /** The range of an unsigned 64-bit number. */
  const WRAP: nat := 0x1_0000_0000_0000_0000

  lemma Range()
    ensures Power256(8) == WRAP
  {
    assert Power256(2) == 0x1_0000;
    assert Power256(5) == 0x1_0000 * 0x100_0000;
  }

  /** The length field: a 64-bit number, most significant byte first. */
  function Length(n: nat): (s: seq<bv8>)
    ensures |s| == 8
  {
    LowBytes(n, 8)
  }

  lemma LengthWraps(n: nat)
    ensures Length(n % WRAP) == Length(n)
  {
    hide LowBytes;
    Range();
    LowBytesWrap(n % WRAP, n / WRAP, 8);
    assert n == n % WRAP + WRAP * (n / WRAP);
  }

  /** The number of zero bytes of the padding. */
  function Gap(n: nat): nat {
    (119 - n % 64) % 64
  }

  /** Section 5.1.1: a one bit, zeros, and the length in bits. */
  function Pad(m: seq<bv8>): seq<bv8> {
    m + [0x80] + Zeros(Gap(|m|)) + Length(8 * |m|)
  }

  lemma GapIs(n: nat)
    ensures Gap(n) == if n % 64 < 56 then 55 - n % 64 else 119 - n % 64
    ensures (n + 1 + Gap(n) + 8) % 64 == 0
  {
    var q, r := n / 64, n % 64;
    assert n == 64 * q + r;
    var g := if r < 56 then 55 - r else 119 - r;
    assert Gap(n) == g;
    assert n + 1 + g + 8 == 64 * (if r < 56 then q + 1 else q + 2);
  }

  /** The padding fills the last block. */
  lemma PadFits(m: seq<bv8>)
    ensures |Pad(m)| % 64 == 0
  {
    hide Gap;
    GapIs(|m|);
  }

  /** With fewer zero bytes it would not. */
  lemma GapIsLeast(n: nat, k: nat)
    requires k < Gap(n)
    ensures (n + 1 + k + 8) % 64 != 0
  {
    hide Gap;
    GapIs(n);
    var d := Gap(n) - k;
    assert 0 < d < 64 && n + 1 + Gap(n) + 8 == (n + 1 + k + 8) + d;
  }

  /** 24 - 8 * i. */
  function ByteShift(i: nat): bv6
    requires i < 4
  {
    if i == 0 then 24 else if i == 1 then 16 else if i == 2 then 8 else 0
  }

  /** Byte `i` of a word, most significant first. */
  function ByteAt(w: word, i: nat): bv8
    requires i < 4
  {
    ((w >> ByteShift(i)) & 0xff) as bv8
  }

  function Big(w: word): (s: seq<bv8>)
    ensures |s| == 4
  {
    [ByteAt(w, 0), ByteAt(w, 1), ByteAt(w, 2), ByteAt(w, 3)]
  }

  function Pick(v: Vars, i: nat): word
    requires i < 8
  {
    match i
    case 0 => v.a
    case 1 => v.b
    case 2 => v.c
    case 3 => v.d
    case 4 => v.e
    case 5 => v.f
    case 6 => v.g
    case _ => v.h
  }

  /** The bytes of the first `n` words. */
  function Output(v: Vars, n: nat): (s: seq<bv8>)
    requires n <= 8
    ensures |s| == 4 * n
  {
    if n == 0 then [] else Output(v, n - 1) + Big(Pick(v, n - 1))
  }

  lemma {:induction false} OutputAt(v: Vars, n: nat, k: nat)
    requires n <= 8 && k < 4 * n
    ensures Output(v, n)[k] == ByteAt(Pick(v, k / 4), k % 4)
  {
    hide Pick, ByteAt;
    if k < 4 * (n - 1) {
      OutputAt(v, n - 1, k);
    } else {
      assert k / 4 == n - 1;
    }
  }

  function Digest(m: seq<bv8>): seq<bv8> {
    PadFits(m);
    Output(Blocks(Pad(m)), 8)
  }

  lemma BlocksSnoc(m: seq<bv8>, b: Block)
    requires |m| % 64 == 0
    ensures |m + b| % 64 == 0 && Blocks(m + b) == Compress(Blocks(m), b)
  {
    hide Compress;
    assert (m + b)[..|m + b| - 64] == m && (m + b)[|m + b| - 64..] == b;
  }

  /** The padded message when the rest of the message, of fewer than 56 bytes, fits in the last block. */
  lemma PadOne(m: seq<bv8>, n: nat)
    requires n <= |m| && n % 64 == 0 && |m| - n < 56
    ensures var last := m[n..] + [0x80] + Zeros(55 - (|m| - n)) + Length(8 * |m|);
      |last| == 64 && Pad(m) == m[..n] + last
  {
    hide Gap, Length;
    GapIs(|m|);
    var last := m[n..] + [0x80] + Zeros(55 - (|m| - n)) + Length(8 * |m|);
    assert m == m[..n] + m[n..];
    assert Pad(m) == m[..n] + last;
  }

  /** The padded message when the padding runs over into one more block. */
  lemma PadTwo(m: seq<bv8>, n: nat)
    requires n <= |m| && n % 64 == 0 && 56 <= |m| - n < 64
    ensures var first := m[n..] + [0x80] + Zeros(63 - (|m| - n));
      var second := Zeros(56) + Length(8 * |m|);
      |first| == 64 && |second| == 64 && Pad(m) == m[..n] + first + second
  {
    hide Gap, Length;
    GapIs(|m|);
    var first := m[n..] + [0x80] + Zeros(63 - (|m| - n));
    assert m == m[..n] + m[n..];
    assert Zeros(Gap(|m|)) == Zeros(63 - (|m| - n)) + Zeros(56);
    assert Pad(m) == m[..n] + first + (Zeros(56) + Length(8 * |m|));
  }

  // ---------------------------------------------------------------- the context

  /** The first `i` words of the schedule. */
  predicate Scheduled(m: seq<word>, b: Block, i: nat) {
    i <= |m| && forall t | 0 <= t < i :: m[t] == W(b, t)
  }

  lemma ScheduleStep(m: seq<word>, b: Block, i: nat, m': seq<word>)
    requires 16 <= i < |m| && Scheduled(m, b, i)
    requires m' == m[i := Next(m[i - 2], m[i - 7], m[i - 15], m[i - 16])]
    ensures Scheduled(m', b, i + 1)
  {
    hide Next;
  }

  class Context {
    const data: array<bv8>
    var datalen: nat
    var bitlen: nat
    const state: array<word>
    /** Everything given to Update so far. */
    ghost var message: seq<bv8>

    ghost predicate Arrays()
    {
      data.Length == 64 && state.Length == 8
    }

    ghost predicate Sized()
      reads this
    {
      Arrays() && datalen < 64
    }

    ghost function Current(): Vars
      requires Arrays()
      reads state
    {
      Vars(state[0], state[1], state[2], state[3], state[4], state[5], state[6], state[7])
    }

    /** The buffer holds the bytes after the last full block, and the state is the hash of those blocks. */
    ghost predicate Valid()
      reads this, data, state
    {
      && Sized() && datalen <= |message| && (|message| - datalen) % 64 == 0
      && data[..datalen] == message[|message| - datalen..]
      && bitlen == 8 * (|message| - datalen) % WRAP
      && Current() == Blocks(message[..|message| - datalen])
    }

    constructor ()
      ensures Valid() && message == [] && fresh(data) && fresh(state)
    {
      data := new bv8[64];
      state := new word[] [0x6a09e667, 0xbb67ae85, 0x3c6ef372, 0xa54ff53a, 0x510e527f, 0x9b05688c, 0x1f83d9ab,
        0x5be0cd19];
      datalen, bitlen, message := 0, 0, [];
      new;
      hide Blocks;
      NoBlocks();
      assert message[..0] == [] && data[..0] == [] && message[0..] == [];
    }

    static lemma NoBlocks()
      ensures Blocks([]) == INITIAL
    {
    }

    method Schedule(b: Block) returns (m: array<word>)
      ensures fresh(m) && m.Length == 64 && Scheduled(m[..], b, 64)
    {
      hide Next, Word, W;
      m := new word[64];
      var i, j := 0, 0;
      while i < 16
        invariant 0 <= i <= 16 && j == 4 * i && fresh(m)
        invariant Scheduled(m[..], b, i)
      {
        m[i] := Word(b[j], b[j + 1], b[j + 2], b[j + 3]);
        FirstWords(b, i);
        i, j := i + 1, j + 4;
      }
      while i < 64
        invariant 16 <= i <= 64 && fresh(m)
        invariant Scheduled(m[..], b, i)
      {
        ghost var before := m[..];
        m[i] := Next(m[i - 2], m[i - 7], m[i - 15], m[i - 16]);
        ScheduleStep(before, b, i, m[..]);
        i := i + 1;
      }
    }

    lemma FirstWords(b: Block, t: nat)
      requires t < 16
      ensures W(b, t) == Word(b[4 * t], b[4 * t + 1], b[4 * t + 2], b[4 * t + 3])
    {
    }

    method Transform(block: Block)
      requires Arrays()
      modifies state
      ensures Current() == Compress(old(Current()), block)
    {
      hide Ep0, Ep1, Ch, Maj, W, Add;
      var m := Schedule(block);
      var a, b, c, d, e, f, g, h := state[0], state[1], state[2], state[3], state[4], state[5], state[6], state[7];
      var i := 0;
      while i < 64
        invariant 0 <= i <= 64 && Current() == old(Current())
        invariant Scheduled(m[..], block, 64)
        invariant Vars(a, b, c, d, e, f, g, h) == Rounds(block, Current(), i)
      {
        assert m[..][i] == W(block, i);
        var t1 := Add(Add(Add(Add(h, Ep1(e)), Ch(e, f, g)), K[i]), m[i]);
        var t2 := Add(Ep0(a), Maj(a, b, c));
        h := g;
        g := f;
        f := e;
        e := Add(d, t1);
        d := c;
        c := b;
        b := a;
        a := Add(t1, t2);
        i := i + 1;
      }
      state[0], state[1], state[2], state[3] := Add(state[0], a), Add(state[1], b), Add(state[2], c), Add(state[3], d);
      state[4], state[5], state[6], state[7] := Add(state[4], e), Add(state[5], f), Add(state[6], g), Add(state[7], h);
    }

    /** One turn of the loop of sha256_update. */
    method Push(b: bv8)
      requires Valid()
      modifies this, data, state
      ensures Valid() && message == old(message) + [b]
    {
      hide Blocks, Compress;
      ghost var n := |message| - datalen;
      ghost var m := message + [b];
      data[datalen] := b;
      datalen := datalen + 1;
      message := m;
      assert m[n..] == old(data[..datalen]) + [b] && m[..n] == old(message)[..n];
      assert data[..datalen] == m[n..];
      if datalen == 64 {
        Transform(data[..]);
        BlocksSnoc(m[..n], data[..]);
        assert m == m[..n] + data[..] && m[..|m|] == m && m[|m|..] == [];
        bitlen := (bitlen + 512) % WRAP;
        datalen := 0;
        MoreBits(n);
      }
    }

    lemma MoreBits(n: nat)
      ensures (8 * n % WRAP + 512) % WRAP == 8 * (n + 64) % WRAP
    {
    }

    /** sha256_update. Its counter has 32 bits, so it does not end on longer pieces. */
    method Update(piece: seq<bv8>)
      requires Valid() && |piece| < 0x1_0000_0000
      modifies this, data, state
      ensures Valid() && message == old(message) + piece
    {
      hide Blocks;
      var i := 0;
      while i < |piece|
        invariant 0 <= i <= |piece|
        invariant Valid() && message == old(message) + piece[..i]
      {
        Push(piece[i]);
        assert piece[..i] + [piece[i]] == piece[..i + 1];
        i := i + 1;
      }
      assert piece[..i] == piece;
    }

    /** A one bit after the message, and zeros up to `end`. */
    method PadTo(end: nat)
      requires Sized() && datalen < end <= 64
      modifies data
      ensures data[..end] == old(data[..datalen]) + [0x80] + Zeros(end - 1 - datalen)
    {
      var i := datalen;
      data[i] := 0x80;
      i := i + 1;
      while i < end
        invariant datalen < i <= end
        invariant data[..i] == old(data[..datalen]) + [0x80] + Zeros(i - 1 - datalen)
      {
        data[i] := 0;
        i := i + 1;
      }
    }

    /** The last eight bytes of the buffer: the length in bits. */
    method PutLength()
      requires Sized()
      modifies data
      ensures data[..56] == old(data[..56]) && data[56..] == Length(bitlen)
    {
      hide Low, Shifted, LowBytes, Length;
      data[63] := Low(Shifted(bitlen, 0));
      data[62] := Low(Shifted(bitlen, 1));
      data[61] := Low(Shifted(bitlen, 2));
      data[60] := Low(Shifted(bitlen, 3));
      data[59] := Low(Shifted(bitlen, 4));
      data[58] := Low(Shifted(bitlen, 5));
      data[57] := Low(Shifted(bitlen, 6));
      data[56] := Low(Shifted(bitlen, 7));
      LastEight(data[..]);
      LengthBytes(bitlen);
    }

    static lemma LastEight(s: Block)
      ensures s[56..] == [s[56], s[57], s[58], s[59], s[60], s[61], s[62], s[63]]
    {
    }

    static lemma LengthBytes(n: nat)
      ensures Length(n) == [Low(Shifted(n, 7)), Low(Shifted(n, 6)), Low(Shifted(n, 5)), Low(Shifted(n, 4)),
                            Low(Shifted(n, 3)), Low(Shifted(n, 2)), Low(Shifted(n, 1)), Low(Shifted(n, 0))]
    {
      hide Low, Shifted, LowBytes;
      var s := LowBytes(n, 8);
      assert s == [s[0], s[1], s[2], s[3], s[4], s[5], s[6], s[7]];
    }

    method ClearBuffer()
      requires Sized()
      modifies data
      ensures data[..56] == Zeros(56)
    {
      forall i | 0 <= i < 56 {
        data[i] := 0;
      }
    }

    /** What is in the buffer and the state before the length is appended. */
    static ghost predicate Filled(m: seq<bv8>, n: nat, mid: Vars, front: seq<bv8>)
      requires n <= |m| < n + 64 && n % 64 == 0
    {
      if |m| - n < 56 then front == m[n..] + [0x80] + Zeros(55 - (|m| - n)) && mid == Blocks(m[..n])
      else front == Zeros(56) && mid == Compress(Blocks(m[..n]), m[n..] + [0x80] + Zeros(63 - (|m| - n)))
    }

    static lemma LastBlocks(m: seq<bv8>, n: nat, mid: Vars, front: seq<bv8>)
      requires n <= |m| < n + 64 && n % 64 == 0 && Filled(m, n, mid, front)
      ensures |front + Length(8 * |m|)| == 64 && |Pad(m)| % 64 == 0
      ensures Compress(mid, front + Length(8 * |m|)) == Blocks(Pad(m))
    {
      hide Compress, Pad, Length, Blocks;
      var last := front + Length(8 * |m|);
      if |m| - n < 56 {
        PadOne(m, n);
        BlocksSnoc(m[..n], last);
      } else {
        PadTwo(m, n);
        var first := m[n..] + [0x80] + Zeros(63 - (|m| - n));
        BlocksSnoc(m[..n], first);
        BlocksSnoc(m[..n] + first, last);
      }
    }

    /** The first part of sha256_final: the padding, up to the length. */
    method FillBlock()
      requires Valid()
      modifies data, state
      ensures Filled(message, |message| - datalen, Current(), data[..56])
    {
      hide Compress, Blocks;
      ghost var n := |message| - datalen;
      assert message[n..] == data[..datalen];
      if datalen < 56 {
        PadTo(56);
      } else {
        PadTo(64);
        assert data[..64] == data[..];
        Transform(data[..]);
        ClearBuffer();
      }
    }

    /** The last block. */
    method Finish()
      requires Valid()
      modifies this, data, state
      ensures message == old(message) && |Pad(message)| % 64 == 0 && Current() == Blocks(Pad(message))
    {
      hide Blocks, Compress, Pad, Length, Filled;
      ghost var n := |message| - datalen;
      FillBlock();
      ghost var mid, front := Current(), data[..56];
      bitlen := (bitlen + datalen * 8) % WRAP;
      assert (8 * n % WRAP + datalen * 8) % WRAP == 8 * (n + datalen) % WRAP;
      LengthWraps(8 * |message|);
      PutLength();
      assert data[..] == data[..56] + data[56..];
      LastBlocks(message, n, mid, front);
      Transform(data[..]);
    }

    /** sha256_final: the digest of everything given to Update. */
    method Final(hash: array<bv8>)
      requires Valid() && hash.Length >= 32 && hash != data
      modifies this, data, state, hash
      ensures hash[..32] == Digest(message) && message == old(message)
    {
      hide Blocks, Pad, Output;
      Finish();
      WriteHash(hash);
    }

    /** The first `i` columns of `hash`: the bytes 0 to `i` of each word. */
    static ghost predicate Columns(s: seq<bv8>, v: Vars, i: nat)
      requires |s| >= 32 && i <= 4
    {
      forall t | 0 <= t < i :: Column(s, v, t)
    }

    static ghost predicate Column(s: seq<bv8>, v: Vars, t: nat)
      requires |s| >= 32 && t < 4
    {
      && s[t] == ByteAt(v.a, t) && s[t + 4] == ByteAt(v.b, t) && s[t + 8] == ByteAt(v.c, t) &&
        s[t + 12] == ByteAt(v.d, t)
      && s[t + 16] == ByteAt(v.e, t) && s[t + 20] == ByteAt(v.f, t) && s[t + 24] == ByteAt(v.g, t)
      && s[t + 28] == ByteAt(v.h, t)
    }

    /** One turn of the last loop: byte `i` of every word. */
    method WriteColumn(hash: array<bv8>, i: nat)
      requires Arrays() && hash.Length >= 32 && i < 4
      modifies hash
      ensures Column(hash[..], Current(), i)
      ensures forall t | 0 <= t < i :: Column(old(hash[..]), Current(), t) ==> Column(hash[..], Current(), t)
    {
      hide ByteAt;
      hash[i] := ByteAt(state[0], i);
      hash[i + 4] := ByteAt(state[1], i);
      hash[i + 8] := ByteAt(state[2], i);
      hash[i + 12] := ByteAt(state[3], i);
      hash[i + 16] := ByteAt(state[4], i);
      hash[i + 20] := ByteAt(state[5], i);
      hash[i + 24] := ByteAt(state[6], i);
      hash[i + 28] := ByteAt(state[7], i);
    }

    static lemma ColumnsAt(s: seq<bv8>, v: Vars, k: nat)
      requires |s| >= 32 && Columns(s, v, 4) && k < 32
      ensures s[k] == ByteAt(Pick(v, k / 4), k % 4)
    {
      hide ByteAt;
      assert Column(s, v, k % 4);
      assert k == k % 4 + 4 * (k / 4);
    }

    /** The state, most significant bytes first. */
    method WriteHash(hash: array<bv8>)
      requires Arrays() && hash.Length >= 32
      modifies hash
      ensures hash[..32] == Output(Current(), 8)
    {
      hide ByteAt, Pick, Output, Column;
      var i := 0;
      while i < 4
        invariant 0 <= i <= 4
        invariant Columns(hash[..], Current(), i)
      {
        WriteColumn(hash, i);
        i := i + 1;
      }
      forall k | 0 <= k < 32 ensures hash[k] == Output(Current(), 8)[k] {
        ColumnsAt(hash[..], Current(), k);
        OutputAt(Current(), 8, k);
      }
    }
  }

  /** The pieces of a message, one after the other. */
  function Whole(pieces: seq<seq<bv8>>): seq<bv8> {
    if pieces == [] then [] else Whole(pieces[..|pieces| - 1]) + pieces[|pieces| - 1]
  }

  /** However a message is split into calls of sha256_update, the result is the digest of the whole. */
  method HashPieces(pieces: seq<seq<bv8>>) returns (digest: seq<bv8>)
    requires forall p | p in pieces :: |p| < 0x1_0000_0000
    ensures digest == Digest(Whole(pieces))
  {
    hide Digest;
    var ctx := new Context();
    var i := 0;
    while i < |pieces|
      invariant 0 <= i <= |pieces| && ctx.Valid() && fresh(ctx) && fresh(ctx.data) && fresh(ctx.state)
      invariant ctx.message == Whole(pieces[..i])
    {
      ctx.Update(pieces[i]);
      assert pieces[..i + 1][..i] == pieces[..i];
      i := i + 1;
    }
    assert pieces[..i] == pieces;
    var hash := new bv8[32];
    ctx.Final(hash);
    digest := hash[..];
    assert hash[..32] == hash[..];
  }
}
