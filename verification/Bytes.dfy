/** Go strings as byte sequences. A byte is written as the character with that code, so that
    string literals can be used directly. */
module Bytes {

  type byte = c: char | c as int < 256

  type Str = seq<byte>

  datatype Option<+T> = None | Some(value: T)

  lemma Assoc(a: Str, b: Str, c: Str)
    ensures a + b + c == a + (b + c)
  {
  }

  /** Five pieces printed one after the other. */
  lemma Printed5(p: Str, a: Str, b: Str, c: Str, d: Str, e: Str)
    ensures p + a + b + c + d + e == p + (a + b + c + d + e)
  {
    Assoc(p, a + b + c + d, e);
    Assoc(p, a + b + c, d);
    Assoc(p, a + b, c);
    Assoc(p, a, b);
  }

  /** `sub` occurs in `s` at offset `i`. */
  predicate At(s: Str, sub: Str, i: nat) {
    i + |sub| <= |s| && s[i..i + |sub|] == sub
  }

  /** `sub` occurs somewhere in `s`. */
  predicate Contains(s: Str, sub: Str) {
    exists i | 0 <= i <= |s| :: At(s, sub, i)
  }

  /** The offset of the first occurrence of `sub` in `s`, or -1 (strings.Index). */
  method Index(s: Str, sub: Str) returns (k: int)
    ensures -1 <= k <= |s|
    ensures k >= 0 ==> At(s, sub, k) && forall i | 0 <= i < k :: !At(s, sub, i)
    ensures k < 0 <==> !Contains(s, sub)
  {
    k := 0;
    while k <= |s|
      invariant 0 <= k <= |s| + 1
      invariant forall i | 0 <= i < k :: !At(s, sub, i)
    {
      if k + |sub| <= |s| && s[k..k + |sub|] == sub {
        assert At(s, sub, k) && 0 <= k <= |s|;
        return;
      }
      k := k + 1;
    }
    k := -1;
  }

  lemma AtTail(s: Str, sub: Str, i: nat)
    requires s != []
    ensures At(s, sub, i + 1) <==> At(s[1..], sub, i)
  {
    if i + 1 + |sub| <= |s| {
      assert s[i + 1..i + 1 + |sub|] == s[1..][i..i + |sub|];
    }
  }

  /** The first occurrence of `sub` in `s`, or the length of `s` when there is none. */
  function Find(s: Str, sub: Str): (k: nat)
    ensures k <= |s|
    ensures forall i | 0 <= i < k :: !At(s, sub, i)
    ensures k < |s| ==> At(s, sub, k)
  {
    if s == [] || At(s, sub, 0) then 0
    else
      var k := Find(s[1..], sub);
      assert forall i | 1 <= i < k + 1 :: !At(s, sub, i) by {
        forall i | 1 <= i < k + 1 ensures !At(s, sub, i) {
          AtTail(s, sub, i - 1);
        }
      }
      AtTail(s, sub, k);
      k + 1
  }

  /** A first occurrence is unique. */
  lemma FindAt(s: Str, sub: Str, k: nat)
    requires At(s, sub, k) && k < |s|
    requires forall i | 0 <= i < k :: !At(s, sub, i)
    ensures Find(s, sub) == k
  {
    var f := Find(s, sub);
    assert f >= k;
  }
}
