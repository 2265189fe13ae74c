/** The validators of check.go: loops over the runes of a string, with early returns. */
module Check {
  import opened Bytes
  import opened Utf8

  /** Every rune that a `range` loop visits satisfies `ok`. */
  predicate AllRunes(s: Str, ok: int -> bool) {
    s == [] || (ok(DecodeRune(s).code) && AllRunes(s[DecodeRune(s).width..], ok))
  }

  lemma {:induction false} AllRunesHolds(s: Str, ok: int -> bool)
    ensures AllRunes(s, ok) <==> forall d | d in Runes(s) :: ok(d.code)
    decreases |s|
  {
    if s != [] {
      var d := DecodeRune(s);
      AllRunesHolds(s[d.width..], ok);
      assert Runes(s)[0] == d;
      assert forall e :: e in Runes(s) <==> e == d || e in Runes(s[d.width..]);
    }
  }

  /** One turn of a loop that visits the runes of `s` from offset `i` on. */
  lemma AllRunesStep(s: Str, i: nat, ok: int -> bool)
    requires i < |s|
    ensures var d := DecodeRune(s[i..]);
      i + d.width <= |s| && (AllRunes(s[i..], ok) <==> ok(d.code) && AllRunes(s[i + d.width..], ok))
  {
    var d := DecodeRune(s[i..]);
    assert s[i..][d.width..] == s[i + d.width..];
  }

  /** The table of gentables.go: 1 may start a name, 2 may follow, 0 may not occur. */
  function NameClass(r: int): int {
    if r == ':' as int || r == '_' as int || 'A' as int <= r <= 'Z' as int || 'a' as int <= r <= 'z' as int ||
       0xC0 <= r <= 0xD6 || 0xD8 <= r <= 0xF6 || 0xF8 <= r <= 0x2FF || 0x370 <= r <= 0x37D then 1
    else if r == '-' as int || r == '.' as int || '0' as int <= r <= '9' as int || r == 0xB7 ||
            0x300 <= r <= 0x36F || 0x203F <= r <= 0x2040 then 2
    else 0
  }

  predicate InName(r: int) {
    NameClass(r) != 0
  }

  /** What CheckName accepts. The empty string is accepted. */
  predicate ValidName(name: Str) {
    name == [] || (NameClass(DecodeRune(name).code) == 1 && AllRunes(name, InName))
  }

  method CheckName(name: Str) returns (ok: bool)
    ensures ok == ValidName(name)
  {
    hide DecodeRune;
    assert name[0..] == name;
    var start, next := 0, 0;
    while next < |name|
      invariant 0 <= start <= next <= |name|
      invariant next == 0 ==> start == 0
      invariant next > 0 ==> start == 0 && next == DecodeRune(name).width && NameClass(DecodeRune(name).code) == 1
      decreases |name| - next
    {
      start := next;
      var d := DecodeRune(name[start..]);
      if start == 0 {
        if d.code > 0xFFFF || NameClass(d.code) != 1 {
          return false;
        }
      } else {
        break;
      }
      next := start + d.width;
    }
    if start > 0 {
      AllRunesStep(name, 0, InName);
    }
    ok := CheckNameFrom(name, start);
  }

  /** The second loop of CheckName. */
  method CheckNameFrom(name: Str, start: nat) returns (ok: bool)
    requires start <= |name|
    ensures ok == AllRunes(name[start..], InName)
  {
    hide DecodeRune;
    var i := start;
    while i < |name|
      invariant start <= i <= |name|
      invariant AllRunes(name[start..], InName) == AllRunes(name[i..], InName)
    {
      var d := DecodeRune(name[i..]);
      AllRunesStep(name, i, InName);
      if d.code > 0xFFFF || !InName(d.code) {
        return false;
      }
      i := i + d.width;
    }
    return true;
  }

  /** Production [5] of XML 1.0 over runes: NameStartChar ([4]) then NameChar ([4a]). */
  predicate NameStartChar(r: int) {
    r == ':' as int || r == '_' as int || 'A' as int <= r <= 'Z' as int || 'a' as int <= r <= 'z' as int ||
    0xC0 <= r <= 0xD6 || 0xD8 <= r <= 0xF6 || 0xF8 <= r <= 0x2FF || 0x370 <= r <= 0x37D || 0x37F <= r <= 0x1FFF ||
    0x200C <= r <= 0x200D || 0x2070 <= r <= 0x218F || 0x2C00 <= r <= 0x2FEF || 0x3001 <= r <= 0xD7FF ||
    0xF900 <= r <= 0xFDCF || 0xFDF0 <= r <= 0xFFFD || 0x10000 <= r <= 0xEFFFF
  }

  predicate NameChar(r: int) {
    NameStartChar(r) || r == '-' as int || r == '.' as int || '0' as int <= r <= '9' as int || r == 0xB7 ||
    0x300 <= r <= 0x36F || 0x203F <= r <= 0x2040
  }

  predicate XmlName(s: Str) {
    s != [] && NameStartChar(DecodeRune(s).code) && AllRunes(s, NameChar)
  }

  /** An accepted non-empty name is well-formed UTF-8 and matches production [5]. */
  lemma ValidNameSound(s: Str)
    requires ValidName(s) && s != []
    ensures XmlName(s) && WellFormed(s)
  {
    InNameSound(s);
  }

  lemma {:induction false} InNameSound(s: Str)
    requires AllRunes(s, InName)
    ensures AllRunes(s, NameChar) && WellFormed(s)
    decreases |s|
  {
    if s != [] {
      InNameSound(s[DecodeRune(s).width..]);
    }
  }

  /** The runes of production [5] that the table knows. */
  predicate InTable(r: int) {
    r <= 0x37D || r == 0x203F || r == 0x2040
  }

  lemma {:induction false} NameRunesIff(s: Str)
    requires AllRunes(s, NameChar)
    ensures AllRunes(s, InName) <==> AllRunes(s, InTable)
    decreases |s|
  {
    hide DecodeRune;
    if s != [] {
      NameRunesIff(s[DecodeRune(s).width..]);
    }
  }

  /** A name of production [5] is accepted if and only if it has no rune above U+037D, but for U+203F and U+2040. */
  lemma ValidNameIff(s: Str)
    requires XmlName(s)
    ensures ValidName(s) <==> AllRunes(s, InTable)
  {
    hide DecodeRune;
    NameRunesIff(s);
  }

  /** The table stops early: a name made of U+4E00 matches production [5] and is refused. */
  lemma ValidNameIncomplete()
    ensures XmlName(EncodeRune(0x4E00)) && !ValidName(EncodeRune(0x4E00))
  {
    var s := EncodeRune(0x4E00);
    DecodeEncode(0x4E00, []);
    assert s + [] == s;
    assert s[DecodeRune(s).width..] == [];
  }

  /** Every ASCII byte of an accepted name is a letter, a digit or one of ":_-.". */
  lemma NameBytes(s: Str, i: nat)
    requires AllRunes(s, InName) && i < |s| && s[i] as int < 0x80
    ensures InName(s[i] as int)
  {
    AsciiIsRune(s, i);
    AllRunesHolds(s, InName);
  }

  lemma {:induction false} LowerCaseRunes(s: Str)
    requires forall i | 0 <= i < |s| :: 'a' <= s[i] <= 'z'
    ensures AllRunes(s, InName)
  {
    hide DecodeRune;
    if s != [] {
      LowerCaseRunes(s[1..]);
    }
  }

  /** A lower-case word passes CheckName. */
  lemma LowerCaseName(s: Str)
    requires forall i | 0 <= i < |s| :: 'a' <= s[i] <= 'z'
    ensures ValidName(s)
  {
    hide DecodeRune, AllRunes;
    LowerCaseRunes(s);
  }

  lemma {:induction false} AllRunesConcat(a: Str, b: Str, ok: int -> bool)
    requires AllRunes(a, ok) && AllRunes(b, ok) && WellFormed(a)
    ensures AllRunes(a + b, ok)
    decreases |a|
  {
    if a == [] {
      assert a + b == b;
    } else {
      var w := DecodeRune(a).width;
      DecodePrefix(a, a[w..] + b);
      assert a + b == a[..w] + (a[w..] + b);
      assert (a + b)[w..] == a[w..] + b;
      AllRunesConcat(a[w..], b, ok);
    }
  }

  /** Production [2] of XML 1.0. */
  predicate IsChar(r: int) {
    r == 0x9 || r == 0xA || r == 0xD || 0x20 <= r <= 0xD7FF || 0xE000 <= r <= 0xFFFD || 0x10000 <= r <= 0x10FFFF
  }

  predicate Discouraged(r: int) {
    0x7F <= r <= 0x84 || 0x86 <= r <= 0x9F || 0xFDD0 <= r <= 0xFDEF ||
      (0x1FFFE <= r <= 0x10FFFF && r % 0x10000 >= 0xFFFE)
  }

  /** Accepts a string iff all its runes are Chars. The strict flag is ignored in the result:
      the ranges it adds were accepted one test earlier. */
  method CheckChars(chars: Str, strict: bool) returns (ok: bool)
    ensures ok == AllRunes(chars, IsChar)
  {
    hide DecodeRune;
    var i := 0;
    assert chars[0..] == chars;
    while i < |chars|
      invariant 0 <= i <= |chars|
      invariant AllRunes(chars, IsChar) == AllRunes(chars[i..], IsChar)
    {
      var d := DecodeRune(chars[i..]);
      AllRunesStep(chars, i, IsChar);
      if !IsChar(d.code) && !(strict && Discouraged(d.code)) {
        return false;
      }
      i := i + d.width;
    }
    return true;
  }

  /** CheckChars does not demand UTF-8: a stray byte decodes as U+FFFD, which is a Char. */
  lemma CharsNotWellFormed()
    ensures AllRunes([Byte(0xFF)], IsChar) && !WellFormed([Byte(0xFF)])
  {
    var s := [Byte(0xFF)];
    assert s[DecodeRune(s).width..] == [];
  }

  predicate PubIdChar(r: int) {
    r == 0x20 || r == 0xD || r == 0xA || 'A' as int <= r <= 'Z' as int || 'a' as int <= r <= 'z' as int ||
    '0' as int <= r <= '9' as int || (0 <= r < 0x80 && r as char in "'-()+,./:=?;!*#@$_%")
  }

  method CheckPubID(pubid: Str) returns (ok: bool)
    ensures ok == AllRunes(pubid, PubIdChar)
  {
    hide DecodeRune, PubIdChar;
    var i := 0;
    assert pubid[0..] == pubid;
    while i < |pubid|
      invariant 0 <= i <= |pubid|
      invariant AllRunes(pubid, PubIdChar) == AllRunes(pubid[i..], PubIdChar)
    {
      var d := DecodeRune(pubid[i..]);
      AllRunesStep(pubid, i, PubIdChar);
      if !PubIdChar(d.code) {
        return false;
      }
      i := i + d.width;
    }
    return true;
  }

  predicate Letter(r: int) {
    'A' as int <= r <= 'Z' as int || 'a' as int <= r <= 'z' as int
  }

  predicate EncodingChar(r: int) {
    Letter(r) || r == '-' as int || r == '.' as int || r == '_' as int || '0' as int <= r <= '9' as int
  }

  /** Production [81] of XML 1.0, or empty. */
  predicate ValidEncoding(s: Str) {
    s == [] || (Letter(DecodeRune(s).code) && AllRunes(s, EncodingChar))
  }

  method CheckEncoding(encoding: Str) returns (ok: bool)
    ensures ok == ValidEncoding(encoding)
  {
    hide DecodeRune;
    var i := 0;
    assert encoding[0..] == encoding;
    while i < |encoding|
      invariant 0 <= i <= |encoding|
      invariant i > 0 ==> Letter(DecodeRune(encoding).code)
      invariant AllRunes(encoding, EncodingChar) == AllRunes(encoding[i..], EncodingChar)
    {
      var d := DecodeRune(encoding[i..]);
      AllRunesStep(encoding, i, EncodingChar);
      if !Letter(d.code) && (i == 0 || !EncodingChar(d.code)) {
        return false;
      }
      i := i + d.width;
    }
    return true;
  }
}
