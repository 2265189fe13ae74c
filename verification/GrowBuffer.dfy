/** The growing buffer of the test tools: room is made by rounding up to a power of two with shifts and
    ors. */
module GrowBuffer {
  import opened Bytes

  // ---------------------------------------------------------------- bits of natural numbers

  function Bit(v: nat, i: nat): bool {
    if i == 0 then v % 2 == 1 else Bit(v / 2, i - 1)
  }

  function Or(a: nat, b: nat): nat {
    if a == 0 then b
    else if b == 0 then a
    else 2 * Or(a / 2, b / 2) + (if a % 2 == 1 || b % 2 == 1 then 1 else 0)
  }

  function Shr(v: nat, k: nat): nat {
    if k == 0 then v else Shr(v / 2, k - 1)
  }

  function Pow2(n: nat): (p: nat)
    ensures p >= 1
  {
    if n == 0 then 1 else 2 * Pow2(n - 1)
  }

  lemma {:induction false} NoBits(i: nat)
    ensures !Bit(0, i)
  {
    if i > 0 {
      NoBits(i - 1);
    }
  }

  lemma {:induction false} OrBit(a: nat, b: nat, i: nat)
    ensures Bit(Or(a, b), i) <==> Bit(a, i) || Bit(b, i)
    decreases i
  {
    NoBits(i);
    if a != 0 && b != 0 && i > 0 {
      OrBit(a / 2, b / 2, i - 1);
    }
  }

  lemma {:induction false} OrGrows(a: nat, b: nat)
    ensures Or(a, b) >= a
  {
    if a != 0 && b != 0 {
      OrGrows(a / 2, b / 2);
    }
  }

  lemma {:induction false} ShrBit(v: nat, k: nat, i: nat)
    ensures Bit(Shr(v, k), i) == Bit(v, i + k)
    decreases k
  {
    if k > 0 {
      ShrBit(v / 2, k - 1, i);
    }
  }

  /** The highest bit of a positive number. */
  lemma {:induction false} TopBit(v: nat) returns (e: nat)
    requires v > 0
    ensures Bit(v, e) && forall i | i > e :: !Bit(v, i)
    ensures Pow2(e) <= v < Pow2(e + 1)
  {
    if v == 1 {
      e := 0;
      forall i: nat | i > 0 ensures !Bit(1, i) {
        NoBits(i - 1);
      }
    } else {
      var d := TopBit(v / 2);
      e := d + 1;
      forall i: nat | i > e ensures !Bit(v, i) {
        assert !Bit(v / 2, i - 1);
      }
    }
  }

  /** A number whose `n` lowest bits are set and no others. */
  lemma {:induction false} AllOnes(r: nat, n: nat)
    requires forall i: nat :: Bit(r, i) <==> i < n
    ensures r == Pow2(n) - 1
    decreases n
  {
    if n == 0 {
      if r > 0 {
        var e := TopBit(r);
      }
    } else {
      assert Bit(r, 0);
      forall i: nat ensures Bit(r / 2, i) <==> i < n - 1 {
        assert Bit(r, i + 1) <==> i + 1 < n;
      }
      AllOnes(r / 2, n - 1);
    }
  }

  // ---------------------------------------------------------------- rounding up

  /** One of the bits `i` to `i + w - 1` of `v` is set. */
  predicate Window(v: nat, i: nat, w: nat) {
    w > 0 && (Window(v, i, w - 1) || Bit(v, i + w - 1))
  }

  lemma {:induction false} WindowSplit(v: nat, i: nat, a: nat, b: nat)
    ensures Window(v, i, a + b) <==> Window(v, i, a) || Window(v, i + a, b)
    decreases b
  {
    if b > 0 {
      WindowSplit(v, i, a, b - 1);
    }
  }

  /** The highest bit decides what a window sees. */
  lemma {:induction false} WindowTop(v: nat, e: nat, i: nat, w: nat)
    requires Bit(v, e) && forall j | j > e :: !Bit(v, j)
    ensures i <= e < i + w ==> Window(v, i, w)
    ensures e < i ==> !Window(v, i, w)
  {
    if w > 0 {
      WindowTop(v, e, i, w - 1);
    }
  }

  /** Every bit of `r` says whether one of the `w` bits of `v` from there on is set. */
  ghost predicate Smeared(r: nat, v: nat, w: nat) {
    forall i: nat :: Bit(r, i) <==> Window(v, i, w)
  }

  /** One shift and or doubles the windows. */
  lemma SmearStep(r: nat, v: nat, w: nat)
    requires Smeared(r, v, w)
    ensures Smeared(Or(r, Shr(r, w)), v, 2 * w)
  {
    hide Window, Bit, Or, Shr;
    forall i: nat ensures Bit(Or(r, Shr(r, w)), i) <==> Window(v, i, 2 * w) {
      OrBit(r, Shr(r, w), i);
      ShrBit(r, w, i);
      WindowSplit(v, i, w, w);
    }
  }

  /** The rounding of the capacity: `v--`, five shifts and ors, `v++`. */
  method RoundUp(c: nat) returns (v: nat)
    requires c >= 1
    ensures v >= c
    ensures c <= 0x1_0000_0000 ==> v < 2 * c && exists n :: v == Pow2(n)
  {
    v := c - 1;
    ghost var u := v;
    SmearOne(u);
    OrGrows(v, Shr(v, 1));
    SmearStep(v, u, 1);
    v := Or(v, Shr(v, 1));
    OrGrows(v, Shr(v, 2));
    SmearStep(v, u, 2);
    v := Or(v, Shr(v, 2));
    OrGrows(v, Shr(v, 4));
    SmearStep(v, u, 4);
    v := Or(v, Shr(v, 4));
    OrGrows(v, Shr(v, 8));
    SmearStep(v, u, 8);
    v := Or(v, Shr(v, 8));
    OrGrows(v, Shr(v, 16));
    SmearStep(v, u, 16);
    v := Or(v, Shr(v, 16));
    if c <= 0x1_0000_0000 {
      SmearedOnes(v, u);
    }
    v := v + 1;
  }

  lemma SmearOne(v: nat)
    ensures Smeared(v, v, 1)
  {
    forall i: nat ensures Bit(v, i) <==> Window(v, i, 1) {
      assert !Window(v, i, 0);
    }
  }

  /** 32 bits are enough to fill a number below 2^32 from its highest bit down. */
  lemma SmearedOnes(r: nat, v: nat)
    requires Smeared(r, v, 32) && v < 0x1_0000_0000
    ensures r < 2 * v + 1 && exists n :: r + 1 == Pow2(n)
  {
    hide Bit, Window;
    if v == 0 {
      forall i: nat ensures !Bit(r, i) {
        EmptyWindow(i, 32);
      }
      AllOnes(r, 0);
      assert r + 1 == Pow2(0);
    } else {
      var e := TopBit(v);
      Below32(e, v);
      forall i: nat ensures Bit(r, i) <==> i < e + 1 {
        WindowTop(v, e, i, 32);
      }
      AllOnes(r, e + 1);
      assert r + 1 == Pow2(e + 1);
    }
  }

  lemma {:induction false} EmptyWindow(i: nat, w: nat)
    ensures !Window(0, i, w)
  {
    if w > 0 {
      EmptyWindow(i, w - 1);
      NoBits(i + w - 1);
    }
  }

  lemma {:induction false} Pow2Order(a: nat, b: nat)
    requires a <= b
    ensures Pow2(a) <= Pow2(b)
  {
    if a < b {
      Pow2Order(a, b - 1);
    }
  }

  lemma Pow32()
    ensures Pow2(32) == 0x1_0000_0000
  {
    PowSum(8, 8);
    PowSum(16, 16);
    assert Pow2(8) == 0x100;
  }

  lemma {:induction false} PowSum(a: nat, b: nat)
    ensures Pow2(a + b) == Pow2(a) * Pow2(b)
    decreases b
  {
    if b > 0 {
      PowSum(a, b - 1);
      assert 2 * (Pow2(a) * Pow2(b - 1)) == Pow2(a) * (2 * Pow2(b - 1));
    }
  }

  lemma Below32(e: nat, v: nat)
    requires Pow2(e) <= v < 0x1_0000_0000
    ensures e < 32
  {
    hide Pow2;
    Pow32();
    if e >= 32 {
      Pow2Order(32, e);
    }
  }

  // ---------------------------------------------------------------- the buffer

  function Max(a: nat, b: nat): nat {
    if a < b then b else a
  }

  function Flat(pieces: seq<Str>): Str {
    if pieces == [] then [] else Flat(pieces[..|pieces| - 1]) + pieces[|pieces| - 1]
  }

  lemma FlatNone(pieces: seq<Str>)
    ensures Flat(pieces[..0]) == []
  {
  }

  lemma FlatSnoc(pieces: seq<Str>, i: nat)
    requires i < |pieces|
    ensures Flat(pieces[..i + 1]) == Flat(pieces[..i]) + pieces[i]
  {
    assert pieces[..i + 1][..i] == pieces[..i];
  }

  class Buffer {
    var bytes: array?<byte>
    var cap: nat
    var len: nat
    /** The greatest length so far. */
    ghost var peak: nat
    /** The bytes that reallocations have copied. */
    ghost var moved: nat

    /** The text ends with a NUL inside the buffer. As long as fewer than 2^31 bytes were needed, the capacity
        is a power of two below four times the greatest length, and all the copying together is no more. */
    ghost predicate Valid()
      reads this, bytes
    {
      && (bytes == null ==> len == 0 && cap == 0)
      && (bytes != null ==> bytes.Length == cap && len + 1 <= cap && bytes[len] == '\0')
      && len <= peak && moved <= cap
      && (bytes != null && peak < 0x8000_0000 ==> cap < 4 * (peak + 1) && exists n :: cap == Pow2(n))
    }

    ghost function Contents(): Str
      requires Valid()
      reads this, bytes
    {
      if bytes == null then [] else bytes[..len]
    }

    constructor ()
      ensures Valid() && Contents() == [] && peak == 0 && bytes == null
    {
      bytes, cap, len, peak, moved := null, 0, 0, 0, 0;
    }

    /** realloc: a longer array that begins with the old bytes. */
    method Reallocate(size: nat)
      requires Valid() && size >= cap && size > len
      modifies this`bytes, this`moved
      ensures fresh(bytes) && bytes != null && bytes.Length == size
      ensures bytes[..len] == old(Contents()) && moved == old(moved) + cap
    {
      var room := new byte[size](_ => '\0');
      var i := 0;
      while bytes != null && i < cap
        invariant 0 <= i <= cap && bytes == old(bytes) && moved == old(moved)
        invariant bytes != null ==> room[..i] == bytes[..i]
        invariant bytes == null ==> i == 0
      {
        room[i] := bytes[i];
        i := i + 1;
      }
      if bytes != null {
        assert room[..len] == room[..cap][..len] == bytes[..cap][..len];
      }
      bytes := room;
      moved := moved + cap;
    }

    /** Room for `n` more bytes and a NUL. */
    method Grow(n: nat)
      requires Valid() && (bytes == null || len + n + 1 >= cap)
      modifies this`bytes, this`cap, this`moved
      ensures fresh(bytes) && bytes != null && bytes.Length == cap && len + n + 1 <= cap
      ensures bytes[..len] == old(Contents()) && moved <= cap && cap >= 2 * old(cap)
      ensures len + n < 0x8000_0000 ==> cap < 4 * (len + n + 1) && exists k :: cap == Pow2(k)
    {
      hide Pow2;
      var v := RoundUp(cap + len + n + 1);
      Reallocate(v);
      cap := v;
    }

    /** buf_strnappend. */
    method Append(s: Str)
      requires Valid()
      modifies this, bytes
      ensures Valid() && Contents() == old(Contents()) + s
      ensures len == old(len) + |s| && peak == Max(old(peak), len)
      ensures bytes == old(bytes) || fresh(bytes)
    {
      hide Pow2;
      var pos := len;
      if bytes == null || len + |s| + 1 >= cap {
        Grow(|s|);
      }
      len := len + |s|;
      peak := Max(peak, len);
      Copy(pos, s);
      bytes[len] := '\0';
      assert bytes[..len] == bytes[..pos] + s;
    }

    /** Any number of appends: the contents are the concatenation, and as long as they stay below 2^31 bytes
        what all the reallocations copied is below four times their length. */
    method AppendAll(pieces: seq<Str>)
      requires Valid()
      modifies this, bytes
      ensures Valid() && Contents() == old(Contents()) + Flat(pieces)
      ensures peak == Max(old(peak), len)
      ensures bytes == old(bytes) || fresh(bytes)
      ensures bytes != null && peak < 0x8000_0000 ==> moved < 4 * (peak + 1)
    {
      hide Valid, Contents, Flat;
      FlatNone(pieces);
      LenBelowPeak();
      var i := 0;
      while i < |pieces|
        invariant 0 <= i <= |pieces| && Valid() && Contents() == old(Contents()) + Flat(pieces[..i])
        invariant len >= old(len) && peak == Max(old(peak), len)
        invariant bytes == old(bytes) || fresh(bytes)
      {
        Append(pieces[i]);
        FlatSnoc(pieces, i);
        i := i + 1;
      }
      assert pieces[..i] == pieces;
      FewMoves();
    }

    lemma LenBelowPeak()
      requires Valid()
      ensures len <= peak
    {
    }

    lemma FewMoves()
      requires Valid()
      ensures bytes != null && peak < 0x8000_0000 ==> moved < 4 * (peak + 1)
    {
    }

    /** memcpy. */
    method Copy(pos: nat, s: Str)
      requires bytes != null && pos + |s| <= bytes.Length
      modifies bytes
      ensures bytes[..pos + |s|] == old(bytes[..pos]) + s
      ensures bytes[pos + |s|..] == old(bytes[pos + |s|..])
    {
      var i := 0;
      while i < |s|
        invariant 0 <= i <= |s|
        invariant bytes[..pos + i] == old(bytes[..pos]) + s[..i]
        invariant bytes[pos + |s|..] == old(bytes[pos + |s|..])
      {
        bytes[pos + i] := s[i];
        i := i + 1;
      }
      assert s[..i] == s;
    }

    /** xml_ctx_clear: the text is dropped, the room is kept. */
    method Clear()
      requires Valid()
      modifies this`len, bytes
      ensures Valid() && Contents() == [] && bytes == old(bytes)
    {
      if bytes != null {
        bytes[0] := '\0';
      }
      len := 0;
    }
  }
}
