/** What the tables and constants of the escaping and checking code hold, said in numbers. */
module Tables {
  import opened Bytes
  import opened Utf8
  import opened Check
  import opened Escape
  import opened Printer
  import opened Document

  // ---------------------------------------------------------------- classes of characters

  /** Production [2] by what it leaves out: the control characters but for tab, line feed and carriage return, the
      surrogates, U+FFFE and U+FFFF, and what is beyond the last plane. */
  lemma CharIff(r: int)
    requires Scalar(r)
    ensures IsChar(r) <==> !(r <= 0x8 || r == 0xB || r == 0xC || 0xE <= r <= 0x1F || r == 0xFFFE || r == 0xFFFF)
    ensures IsChar(r) ==> !(0xD800 <= r <= 0xDFFF) && r <= 0x10FFFF
  {
  }

  /** Production [13] by what it leaves out of the printable characters: the double quote, the ampersand, the angle
      and square brackets, the backslash, the caret, the backquote, braces, the bar and the tilde. */
  lemma PubIdCharIff(r: int)
    ensures PubIdChar(r) <==>
      || r == 0xA || r == 0xD
      || (0x20 <= r <= 0x7E && r != 0x22 && r != 0x26 && r != 0x3C && r != 0x3E && !(0x5B <= r <= 0x5E) && r != 0x60 &&
          !(0x7B <= r <= 0x7E))
  {
  }

  lemma {:induction false} AsciiRunes(s: Str, ok: int -> bool)
    requires forall b | b in s :: b as int < 0x80
    ensures AllRunes(s, ok) <==> forall b | b in s :: ok(b as int)
  {
    hide DecodeRune;
    if s != [] {
      assert s[0] in s && forall b | b in s[1..] :: b in s;
      assert forall b | b in s :: b == s[0] || b in s[1..];
      AsciiRunes(s[1..], ok);
    }
  }

  /** The public identifiers of XHTML pass. */
  lemma XhtmlAccepted()
    ensures AllRunes("-//W3C//DTD XHTML 1.0//EN", PubIdChar)
  {
    hide AllRunes;
    AsciiRunes("-//W3C//DTD XHTML 1.0//EN", PubIdChar);
  }

  /** The characters of production [81], and those it may start with. */
  lemma EncodingCharIff(r: int)
    ensures EncodingChar(r) <==>
      0x30 <= r <= 0x39 || 0x41 <= r <= 0x5A || 0x61 <= r <= 0x7A || r == 0x2D || r == 0x2E || r == 0x5F
    ensures Letter(r) <==> EncodingChar(r) && r >= 0x41 && r != 0x5F
  {
  }

  /** The ASCII characters of a name, and those it may start with. */
  lemma NameCharIff(r: int)
    requires 0 <= r < 0x80
    ensures InName(r) <==> 0x2D <= r <= 0x2E || 0x30 <= r <= 0x3A || 0x41 <= r <= 0x5A || r == 0x5F || 0x61 <= r <= 0x7A
    ensures NameClass(r) == 1 <==> InName(r) && r >= 0x3A
  {
  }

  /** The bytes of an attribute value that end its fast prefix: white space and control characters, bytes beyond ASCII,
      the double quote, the ampersand, the angle brackets, braces, the bar and the backslash. The apostrophe does not,
      so it is escaped only after one of these. */
  lemma FastIff(b: byte)
    ensures var n := b as int;
      Fast(b) <==>
        0x21 <= n <= 0x7E && n != 0x22 && n != 0x26 && n != 0x3C && n != 0x3E && n != 0x5C && !(0x7B <= n <= 0x7D)
  {
  }

  /** The reserved target, in any case. */
  lemma XmlIff(target: Str)
    ensures IsXml(target) <==>
      target in {"xml", "xmL", "xMl", "xML", "Xml", "XmL", "XMl", "XML"}
  {
    if IsXml(target) {
      assert target == [target[0], target[1], target[2]];
    }
  }

  /** Literals are quoted with '"', and with '\'' if they hold one. */
  lemma QuoteChosen(s: Str)
    ensures '"' !in s ==> Literal(s) == "\"" + s + "\""
    ensures '"' in s ==> Literal(s) == "'" + s + "'"
  {
  }

  // ---------------------------------------------------------------- runes that are replaced

  /** A rune that XML cannot hold, or a byte that is none. */
  predicate Unfit(r: Rune) {
    r == Rune(0xFFFD, 1) || !IsChar(r.code)
  }

  /** The rune number of U+FFFD takes the place of such runes. */
  function Fitted(rs: seq<Rune>): seq<int> {
    if rs == [] then [] else [if Unfit(rs[0]) then 0xFFFD else rs[0].code] + Fitted(rs[1..])
  }

  function Codes(rs: seq<Rune>): seq<int> {
    if rs == [] then [] else [rs[0].code] + Codes(rs[1..])
  }

  lemma ReplacementBytes()
    ensures REPLACEMENT == [Byte(0xEF), Byte(0xBF), Byte(0xBD)]
  {
  }

  lemma ReplacementDecodes(rest: Str)
    ensures DecodeRune([Byte(0xEF), Byte(0xBF), Byte(0xBD)] + rest) == Rune(0xFFFD, 3)
  {
  }

  lemma OneRune(s: Str, rest: Str)
    requires s != []
    ensures SaneRune(s) != []
    ensures var d := DecodeRune(SaneRune(s) + rest);
      && d.code == (if Unfit(DecodeRune(s)) then 0xFFFD else DecodeRune(s).code)
      && d.width == |SaneRune(s)| && (SaneRune(s) + rest)[d.width..] == rest
  {
    hide DecodeRune, IsChar;
    if Unfit(DecodeRune(s)) {
      ReplacementBytes();
      ReplacementDecodes(rest);
    } else {
      DecodePrefix(s, rest);
    }
  }

  /** What reading gives back, rune by rune: the runes of the string, with U+FFFD for each bad byte and each rune
      that is no Char. */
  lemma {:induction false} SanitisedRunes(s: Str)
    ensures Codes(Runes(Sanitise(s))) == Fitted(Runes(s))
    decreases |s|
  {
    hide DecodeRune, SaneRune, Unfit;
    if s != [] {
      var rest := s[DecodeRune(s).width..];
      SanitisedRunes(rest);
      OneRune(s, Sanitise(rest));
    }
  }

  /** What is printed in place of such a rune: U+FFFD, as its three bytes. */
  lemma UnfitPrinted(s: Str, attr: bool)
    requires s != [] && Unfit(DecodeRune(s))
    ensures |EscapeMap(s, attr)| >= 3 && EscapeMap(s, attr)[..3] == [Byte(0xEF), Byte(0xBF), Byte(0xBD)]
    ensures DecodeRune(EscapeMap(s, attr)) == Rune(0xFFFD, 3)
  {
    hide DecodeRune;
    var rest := EscapeMap(s[DecodeRune(s).width..], attr);
    ReplacementBytes();
    ReplacementDecodes(rest);
    assert EscapeMap(s, attr) == [Byte(0xEF), Byte(0xBF), Byte(0xBD)] + rest;
  }

  // ---------------------------------------------------------------- escaping, rune by rune

  /** What a rune is printed as. */
  function Printed(r: Rune, attr: bool): Str
    requires Scalar(r.code)
  {
    if r.code == 34 then "&#34;"
    else if r.code == 39 then "&#39;"
    else if r.code == 38 then "&amp;"
    else if r.code == 60 then "&lt;"
    else if r.code == 62 then "&gt;"
    else if r.code == 9 && attr then "&#x9;"
    else if r.code == 10 && attr then "&#xA;"
    else if r.code == 13 && attr then "&#xD;"
    else if Unfit(r) then EncodeRune(0xFFFD)
    else EncodeRune(r.code)
  }

  predicate Scalars(rs: seq<Rune>) {
    forall r | r in rs :: Scalar(r.code)
  }

  function AllPrinted(rs: seq<Rune>, attr: bool): Str
    requires Scalars(rs)
  {
    if rs == [] then [] else Printed(rs[0], attr) + AllPrinted(rs[1..], attr)
  }

  lemma {:induction false} RunesScalar(s: Str)
    ensures Scalars(Runes(s))
    decreases |s|
  {
    hide DecodeRune;
    if s != [] {
      RunesScalar(s[DecodeRune(s).width..]);
    }
  }

  lemma OnePrinted(s: Str, attr: bool)
    requires s != []
    ensures EscapedRune(s, attr) == Printed(DecodeRune(s), attr)
  {
    hide DecodeRune, EncodeRune, IsChar;
    if !DecodeRune(s).Bad() {
      EncodeDecode(s);
    }
  }

  /** Escaping prints the runes of a string one by one: five of them, and in attributes eight, as references, those that
      XML cannot hold as U+FFFD, and all others in UTF-8 as they were. */
  lemma {:induction false} EscapedRunes(s: Str, attr: bool)
    ensures Scalars(Runes(s)) && EscapeMap(s, attr) == AllPrinted(Runes(s), attr)
    decreases |s|
  {
    hide DecodeRune, EscapedRune, Printed;
    RunesScalar(s);
    if s != [] {
      EscapedRunes(s[DecodeRune(s).width..], attr);
      OnePrinted(s, attr);
    }
  }

  // ---------------------------------------------------------------- UTF-8

  predicate Continuation(b: byte) {
    0x80 <= b as int < 0xC0
  }

  /** The first byte tells how many there are, and the others are continuation bytes. */
  lemma EncodedShape(r: int)
    requires Scalar(r)
    ensures var e := EncodeRune(r);
      && |e| == (if r < 0x80 then 1 else if r < 0x800 then 2 else if r < 0x10000 then 3 else 4)
      && (|e| == 1 ==> e[0] as int < 0x80) && (|e| == 2 ==> 0xC2 <= e[0] as int < 0xE0)
      && (|e| == 3 ==> 0xE0 <= e[0] as int < 0xF0) && (|e| == 4 ==> 0xF0 <= e[0] as int < 0xF5)
      && forall i | 1 <= i < |e| :: Continuation(e[i])
  {
  }

  /** Byte by byte, `a` comes before `b`. */
  predicate Before(a: Str, b: Str) {
    a != [] && b != [] && (a[0] < b[0] || (a[0] == b[0] && Before(a[1..], b[1..])))
  }

  lemma {:induction false} FirstDifference(a: Str, b: Str, k: nat)
    requires DiffersAt(a, b, k)
    ensures Before(a, b)
  {
    if k > 0 {
      assert a[0] == a[..k][0] && b[0] == b[..k][0];
      assert a[1..][..k - 1] == a[..k][1..] && b[1..][..k - 1] == b[..k][1..];
      FirstDifference(a[1..], b[1..], k - 1);
    }
  }

  /** The first byte in which the forms of two characters differ. */
  function Difference(r: int, t: int): nat {
    if t < 0x80 || r < 0x80 || (r < 0x800 <= t) || (r < 0x10000 <= t) then 0
    else if t < 0x800 then (if r / 0x40 < t / 0x40 then 0 else 1)
    else if t < 0x10000 then
      if r / 0x1000 < t / 0x1000 then 0 else if r / 0x40 % 0x40 < t / 0x40 % 0x40 then 1 else 2
    else
      if r / 0x40000 < t / 0x40000 then 0 else if r / 0x1000 % 0x40 < t / 0x1000 % 0x40 then 1
      else if r / 0x40 % 0x40 < t / 0x40 % 0x40 then 2 else 3
  }

  lemma DigitsInOrder(r: int, t: int)
    requires 0 <= r < t < 0x110000
    ensures r / 0x40000 <= t / 0x40000
    ensures r / 0x40000 == t / 0x40000 ==> r / 0x1000 <= t / 0x1000
    ensures r / 0x1000 <= t / 0x1000 && r / 0x40 <= t / 0x40
    ensures r / 0x1000 == t / 0x1000 ==> r / 0x40 % 0x40 <= t / 0x40 % 0x40
    ensures r / 0x40000 == t / 0x40000 ==> r / 0x1000 % 0x40 <= t / 0x1000 % 0x40
    ensures r / 0x40 == t / 0x40 ==> r % 0x40 < t % 0x40
  {
    Digits(r);
    Digits(t);
  }

  predicate DiffersAt(a: Str, b: Str, k: nat) {
    k < |a| && k < |b| && a[..k] == b[..k] && a[k] < b[k]
  }

  lemma ShortDiffer(r: int, t: int)
    requires Scalar(r) && Scalar(t) && r < t && (t < 0x800 || r < 0x800)
    ensures DiffersAt(EncodeRune(r), EncodeRune(t), Difference(r, t))
  {
    Digits(r);
    Digits(t);
    DigitsInOrder(r, t);
  }

  lemma ThreeDiffer(r: int, t: int)
    requires Scalar(r) && Scalar(t) && r < t && 0x800 <= r && t < 0x10000
    ensures DiffersAt(EncodeRune(r), EncodeRune(t), Difference(r, t))
  {
    Digits(r);
    Digits(t);
    DigitsInOrder(r, t);
  }

  lemma LongDiffer(r: int, t: int)
    requires Scalar(r) && Scalar(t) && r < t && 0x800 <= r && t >= 0x10000
    ensures DiffersAt(EncodeRune(r), EncodeRune(t), Difference(r, t))
  {
    Digits(r);
    Digits(t);
    DigitsInOrder(r, t);
  }

  /** The order of UTF-8 strings is the order of the characters (section 1 of RFC 3629). */
  lemma EncodedInOrder(r: int, t: int)
    requires Scalar(r) && Scalar(t) && r < t
    ensures Before(EncodeRune(r), EncodeRune(t))
  {
    hide EncodeRune, Difference, Before, DiffersAt;
    if t < 0x800 || r < 0x800 {
      ShortDiffer(r, t);
    } else if t < 0x10000 {
      ThreeDiffer(r, t);
    } else {
      LongDiffer(r, t);
    }
    FirstDifference(EncodeRune(r), EncodeRune(t), Difference(r, t));
  }
}
