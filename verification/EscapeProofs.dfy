/** Escaping loses nothing but what XML cannot hold. */
module EscapeProofs {
  import opened Bytes
  import opened Utf8
  import opened Check
  import opened Escape

  /** The bytes that are written as references. */
  predicate Special(b: byte, attr: bool) {
    b == '"' || b == '\'' || b == '&' || b == '<' || b == '>' || (attr && (b == '\t' || b == '\n' || b == '\r'))
  }

  /** The reference that stands for a special byte. */
  function RefName(b: byte): Str
    requires Special(b, true)
  {
    match b
    case '"' => "#34"
    case '\'' => "#39"
    case '&' => "amp"
    case '<' => "lt"
    case '>' => "gt"
    case '\t' => "#x9"
    case '\n' => "#xA"
    case _ => "#xD"
  }

  lemma TwoDigits(c: byte, d: byte, base: nat)
    requires Digit(c, base).Some? && Digit(d, base).Some?
    ensures Number([c, d], base) == Some(Digit(c, base).value * base + Digit(d, base).value)
  {
    assert [c][..0] == [];
    assert Number([c], base) == Digit(c, base);
    assert [c, d][..1] == [c];
  }

  /** A reader takes the reference for the byte it stands for. */
  lemma RefNameReads(b: byte)
    requires Special(b, true)
    ensures RefName(b) != [] && ';' !in RefName(b)
    ensures Reference(RefName(b)) == Some([b])
  {
    var name := RefName(b);
    if b == '"' || b == '\'' {
      assert name[1..] == [name[1], name[2]];
      TwoDigits(name[1], name[2], 10);
      assert EncodeRune(b as int) == [b];
    } else if b == '\t' || b == '\n' || b == '\r' {
      assert name[2..] == [name[2]];
      assert [name[2]][..0] == [];
      assert Number([name[2]], 16) == Digit(name[2], 16);
      assert EncodeRune(b as int) == [b];
    }
  }

  lemma ReferenceReads(name: Str, text: Str, rest: Str)
    requires name != [] && ';' !in name && Reference(name) == Some(text)
    ensures ReadUnit(['&'] + name + [';'] + rest) == Some(Unit(text, rest))
  {
    hide Reference;
    var s := ['&'] + name + [';'] + rest;
    var k := |name| + 1;
    assert s[0] == '&' && s[k] == ';' && s[1..k] == name && s[k + 1..] == rest;
    assert s[k..k + 1] == ";";
    forall i | 0 <= i < k ensures !At(s, ";", i) {
      assert s[i] == if i == 0 then '&' else name[i - 1];
    }
    FindAt(s, ";", k);
  }

  lemma EscapedSpecial(b: byte, attr: bool)
    requires Special(b, attr)
    ensures Escaped(Rune(b as int, 1), attr) == Some(['&'] + RefName(b) + [';'])
    ensures IsChar(b as int)
  {
    var e := ['&'] + RefName(b) + [';'];
    assert e[0] == '&' && e[|e| - 1] == ';';
    assert forall i | 0 <= i < |RefName(b)| :: e[i + 1] == RefName(b)[i];
    assert Escaped(Rune(b as int, 1), attr).value == e;
  }

  /** A rune that is not written as a reference is written as its sanitised form. */
  lemma EscapedOrdinary(s: Str, attr: bool)
    requires s != [] && !Special(s[0], attr)
    ensures EscapedRune(s, attr) == SaneRune(s)
  {
    hide DecodeRune;
  }

  predicate Verbatim(b: byte, attr: bool) {
    b != '<' && b != '&' && b != '>' && b != '"' && (attr ==> b != '\t' && b != '\n' && b != '\r')
  }

  lemma OrdinaryBytes(s: Str, attr: bool)
    requires s != [] && !Special(s[0], attr)
    ensures SaneRune(s) != [] && forall b | b in SaneRune(s) :: Verbatim(b, attr)
  {
    hide DecodeRune;
    var d := DecodeRune(s);
    assert forall b | b in REPLACEMENT :: b as int >= 0x80;
    if d.code < 0x80 {
      assert s[..1] == [s[0]];
    } else {
      assert forall b | b in s[..d.width] :: b as int >= 0x80;
    }
  }

  lemma SpecialRune(s: Str, attr: bool)
    requires s != [] && Special(s[0], attr)
    ensures DecodeRune(s) == Rune(s[0] as int, 1)
    ensures EscapedRune(s, attr) == ['&'] + RefName(s[0]) + [';']
    ensures SaneRune(s) == [s[0]]
  {
    hide Escaped;
    EscapedSpecial(s[0], attr);
    assert s[..1] == [s[0]];
  }

  // ---------------------------------------------------------------- undoing the escapes

  lemma DecodeByte(b: byte, rest: Str)
    requires b != '<' && b != '&'
    ensures Decode([b] + rest) == Prepend([b], Decode(rest))
  {
    var s := [b] + rest;
    assert s[..1] == [b] && s[1..] == rest;
  }

  lemma {:induction false} DecodeVerbatim(raw: Str, rest: Str)
    requires forall b | b in raw :: b != '<' && b != '&'
    ensures Decode(raw + rest) == Prepend(raw, Decode(rest))
  {
    hide Decode;
    if raw == [] {
      assert raw + rest == rest;
      assert Decode(rest).Some? ==> raw + Decode(rest).value == Decode(rest).value;
    } else {
      assert raw + rest == [raw[0]] + (raw[1..] + rest);
      assert raw[0] in raw && forall b | b in raw[1..] :: b in raw;
      DecodeByte(raw[0], raw[1..] + rest);
      DecodeVerbatim(raw[1..], rest);
      PrependTwice([raw[0]], raw[1..], Decode(rest));
      assert [raw[0]] + raw[1..] == raw;
    }
  }

  lemma PrependTwice(a: Str, b: Str, o: Option<Str>)
    ensures Prepend(a, Prepend(b, o)) == Prepend(a + b, o)
  {
    if o.Some? {
      assert a + (b + o.value) == a + b + o.value;
    }
  }

  lemma DecodeStep(s: Str, attr: bool, rest: Str)
    requires s != []
    ensures Decode(EscapedRune(s, attr) + rest) == Prepend(SaneRune(s), Decode(rest))
  {
    hide EscapedRune, SaneRune, Reference, DecodeRune;
    if Special(s[0], attr) {
      SpecialRune(s, attr);
      RefNameReads(s[0]);
      ReferenceReads(RefName(s[0]), [s[0]], rest);
    } else {
      EscapedOrdinary(s, attr);
      OrdinaryBytes(s, attr);
      DecodeVerbatim(SaneRune(s), rest);
    }
  }

  /** Decoding the references of escaped text gives the text, up to U+FFFD replacement. */
  lemma {:induction false} DecodeEscaped(s: Str, attr: bool)
    ensures Decode(EscapeMap(s, attr)) == Some(Sanitise(s))
    decreases |s|
  {
    hide EscapedRune, SaneRune, ReadUnit, DecodeRune;
    if s != [] {
      var rest := s[DecodeRune(s).width..];
      DecodeEscaped(rest, attr);
      DecodeStep(s, attr, EscapeMap(rest, attr));
    }
  }

  /** A string is well-formed UTF-8 made of Chars exactly if there is nothing to replace in it. */
  lemma {:induction false} SaneIffText(s: Str)
    ensures Sanitise(s) == s <==> WellFormed(s) && AllRunes(s, IsChar)
    ensures |Sanitise(s)| >= |s|
    decreases |s|
  {
    hide IsChar, DecodeRune, SaneRune;
    if s != [] {
      var w := DecodeRune(s).width;
      SaneIffText(s[w..]);
      SaneRuneIff(s);
      SameSplit(s, w, SaneRune(s), Sanitise(s[w..]));
    }
  }

  lemma SameSplit(s: Str, w: nat, a: Str, b: Str)
    requires w <= |s| && |a| >= w && |b| >= |s[w..]|
    ensures a + b == s <==> a == s[..w] && b == s[w..]
  {
    assert s == s[..w] + s[w..];
    if a + b == s {
      assert (a + b)[..w] == a && (a + b)[w..] == b;
    }
  }

  lemma SaneRuneIff(s: Str)
    requires s != []
    ensures var d := DecodeRune(s);
      |SaneRune(s)| >= d.width && (SaneRune(s) == s[..d.width] <==> IsChar(d.code) && !d.Bad())
  {
  }

  /** The bytes of escaped text: no '<', '>' or '"', and no tab or line end in an attribute. */
  lemma {:induction false} EscapedBytes(s: Str, attr: bool)
    ensures forall b | b in EscapeMap(s, attr) :: b == '&' || Verbatim(b, attr)
    decreases |s|
  {
    hide EscapedRune, SaneRune, DecodeRune;
    if s != [] {
      EscapedBytes(s[DecodeRune(s).width..], attr);
      if Special(s[0], attr) {
        SpecialRune(s, attr);
      } else {
        EscapedOrdinary(s, attr);
        OrdinaryBytes(s, attr);
      }
    }
  }

  lemma SaneRuneIsText(s: Str)
    requires s != []
    ensures WellFormed(SaneRune(s)) && AllRunes(SaneRune(s), IsChar)
  {
    var d := DecodeRune(s);
    if IsChar(d.code) && !d.Bad() {
      DecodePrefix(s, []);
      assert s[..d.width] + [] == s[..d.width];
      assert s[..d.width][d.width..] == [];
    } else {
      ReplacementIsText();
    }
  }

  lemma ReplacementIsText()
    ensures WellFormed(REPLACEMENT) && AllRunes(REPLACEMENT, IsChar)
  {
    DecodeEncode(0xFFFD, []);
    assert REPLACEMENT + [] == REPLACEMENT;
    assert REPLACEMENT[DecodeRune(REPLACEMENT).width..] == [];
  }

  /** The sanitised text is UTF-8 made of Chars. */
  lemma {:induction false} SanitisedIsText(s: Str)
    ensures WellFormed(Sanitise(s)) && AllRunes(Sanitise(s), IsChar)
    decreases |s|
  {
    hide SaneRune, DecodeRune;
    if s != [] {
      SanitisedIsText(s[DecodeRune(s).width..]);
      SaneRuneIsText(s);
      WellFormedConcat(SaneRune(s), Sanitise(s[DecodeRune(s).width..]));
      AllRunesConcat(SaneRune(s), Sanitise(s[DecodeRune(s).width..]), IsChar);
    }
  }

  lemma {:induction false} PrintableIsText(s: Str)
    requires forall b | b in s :: 0x20 <= b as int < 0x7F
    ensures WellFormed(s) && AllRunes(s, IsChar)
  {
    if s != [] {
      assert s[0] in s && forall b | b in s[1..] :: b in s;
      assert DecodeRune(s).width == 1;
      PrintableIsText(s[1..]);
    }
  }

  lemma RefBytes(b: byte)
    requires Special(b, true)
    ensures forall c | c in RefName(b) :: 0x20 <= c as int < 0x7F && c != '&' && c != ';'
  {
  }

  lemma EscapedRuneIsText(s: Str, attr: bool)
    requires s != []
    ensures WellFormed(EscapedRune(s, attr)) && AllRunes(EscapedRune(s, attr), IsChar)
  {
    hide EscapedRune, SaneRune, RefName, WellFormed, AllRunes;
    if Special(s[0], attr) {
      SpecialRune(s, attr);
      RefBytes(s[0]);
      PrintableIsText(['&'] + RefName(s[0]) + [';']);
    } else {
      EscapedOrdinary(s, attr);
      SaneRuneIsText(s);
    }
  }

  /** Whatever the bytes that go in, what comes out is UTF-8 made of Chars. */
  lemma {:induction false} EscapedIsText(s: Str, attr: bool)
    ensures WellFormed(EscapeMap(s, attr)) && AllRunes(EscapeMap(s, attr), IsChar)
    decreases |s|
  {
    hide EscapedRune, DecodeRune;
    if s != [] {
      var rest := s[DecodeRune(s).width..];
      EscapedIsText(rest, attr);
      EscapedRuneIsText(s, attr);
      WellFormedConcat(EscapedRune(s, attr), EscapeMap(rest, attr));
      AllRunesConcat(EscapedRune(s, attr), EscapeMap(rest, attr), IsChar);
    }
  }

  /** The references that the escaping methods write: five, and three more for white space in attributes. */
  const REFERENCES: seq<Str> := ["&#34;", "&#39;", "&amp;", "&lt;", "&gt;", "&#x9;", "&#xA;", "&#xD;"]

  /** One of them begins at offset `i`. */
  predicate ReferenceAt(t: Str, i: nat, attr: bool) {
    exists k | 0 <= k < (if attr then 8 else 5) :: At(t, REFERENCES[k], i)
  }

  lemma ReferenceListed(b: byte, attr: bool)
    requires Special(b, attr)
    ensures exists k | 0 <= k < (if attr then 8 else 5) :: REFERENCES[k] == ['&'] + RefName(b) + [';']
  {
    var r := ['&'] + RefName(b) + [';'];
    match b {
      case '"' => assert r == REFERENCES[0];
      case '\'' => assert r == REFERENCES[1];
      case '&' => assert r == REFERENCES[2];
      case '<' => assert r == REFERENCES[3];
      case '>' => assert r == REFERENCES[4];
      case '\t' => assert r == REFERENCES[5];
      case '\n' => assert r == REFERENCES[6];
      case _ => assert r == REFERENCES[7];
    }
  }

  lemma NoAmpersand(s: Str, attr: bool)
    requires s != [] && !Special(s[0], attr)
    ensures '&' !in EscapedRune(s, attr)
  {
    hide EscapedRune, SaneRune;
    EscapedOrdinary(s, attr);
    OrdinaryBytes(s, attr);
  }

  lemma FirstReference(s: Str, attr: bool, rest: Str, i: nat)
    requires s != [] && i < |EscapedRune(s, attr)| && EscapedRune(s, attr)[i] == '&'
    ensures ReferenceAt(EscapedRune(s, attr) + rest, i, attr)
  {
    hide EscapedRune, SaneRune, RefName;
    assert EscapedRune(s, attr)[i] in EscapedRune(s, attr);
    if !Special(s[0], attr) {
      NoAmpersand(s, attr);
    }
    SpecialRune(s, attr);
    RefBytes(s[0]);
    var name := RefName(s[0]);
    var r := ['&'] + name + [';'];
    assert r[i] == if i == 0 then '&' else if i <= |name| then name[i - 1] else ';';
    assert (r + rest)[0..|r|] == r;
    ReferenceListed(s[0], attr);
  }

  lemma LaterReference(a: Str, t: Str, i: nat, attr: bool)
    requires ReferenceAt(t, i, attr)
    ensures ReferenceAt(a + t, |a| + i, attr)
  {
    var k :| 0 <= k < (if attr then 8 else 5) && At(t, REFERENCES[k], i);
    var r := REFERENCES[k];
    assert (a + t)[|a| + i..|a| + i + |r|] == t[i..i + |r|];
  }

  /** Every ampersand that comes out begins a reference. */
  lemma {:induction false} AmpersandsAreReferences(s: Str, attr: bool, i: nat)
    requires i < |EscapeMap(s, attr)| && EscapeMap(s, attr)[i] == '&'
    ensures ReferenceAt(EscapeMap(s, attr), i, attr)
    decreases |s|
  {
    hide EscapedRune, DecodeRune, ReferenceAt;
    var first, rest := EscapedRune(s, attr), EscapeMap(s[DecodeRune(s).width..], attr);
    if i < |first| {
      FirstReference(s, attr, rest, i);
    } else {
      AmpersandsAreReferences(s[DecodeRune(s).width..], attr, i - |first|);
      LaterReference(first, rest, i - |first|, attr);
    }
  }

  // ---------------------------------------------------------------- attribute values

  lemma AttByte(b: byte, rest: Str)
    requires b != '<' && b != '&' && b != '\t' && b != '\n' && b != '\r'
    ensures AttValue([b] + rest) == Prepend([b], AttValue(rest))
  {
    var s := [b] + rest;
    assert s[..1] == [b] && s[1..] == rest;
  }

  lemma {:induction false} AttVerbatim(raw: Str, rest: Str)
    requires forall b | b in raw :: Verbatim(b, true)
    ensures AttValue(raw + rest) == Prepend(raw, AttValue(rest))
  {
    hide AttValue;
    if raw == [] {
      assert raw + rest == rest;
      assert AttValue(rest).Some? ==> raw + AttValue(rest).value == AttValue(rest).value;
    } else {
      assert raw + rest == [raw[0]] + (raw[1..] + rest);
      assert raw[0] in raw && forall b | b in raw[1..] :: b in raw;
      AttByte(raw[0], raw[1..] + rest);
      AttVerbatim(raw[1..], rest);
      PrependTwice([raw[0]], raw[1..], AttValue(rest));
      assert [raw[0]] + raw[1..] == raw;
    }
  }

  lemma AttStep(s: Str, rest: Str)
    requires s != []
    ensures AttValue(EscapedRune(s, true) + rest) == Prepend(SaneRune(s), AttValue(rest))
  {
    hide EscapedRune, SaneRune, Reference, DecodeRune;
    if Special(s[0], true) {
      SpecialRune(s, true);
      RefNameReads(s[0]);
      ReferenceReads(RefName(s[0]), [s[0]], rest);
    } else {
      EscapedOrdinary(s, true);
      OrdinaryBytes(s, true);
      AttVerbatim(SaneRune(s), rest);
    }
  }

  lemma {:induction false} AttEscaped(s: Str)
    ensures AttValue(EscapeMap(s, true)) == Some(Sanitise(s))
    decreases |s|
  {
    hide EscapedRune, SaneRune, ReadUnit, DecodeRune;
    if s != [] {
      var rest := s[DecodeRune(s).width..];
      AttEscaped(rest);
      AttStep(s, EscapeMap(rest, true));
    }
  }

  lemma FastByteIsSane(s: Str)
    requires s != [] && Fast(s[0])
    ensures DecodeRune(s).width == 1 && SaneRune(s) == [s[0]]
  {
    hide DecodeRune;
    assert s[..1] == [s[0]];
  }

  /** The fast bytes of a value are already sane. */
  lemma {:induction false} FastIsSane(s: Str, k: nat)
    requires k <= |s| && forall i | 0 <= i < k :: Fast(s[i])
    ensures Sanitise(s) == s[..k] + Sanitise(s[k..])
  {
    hide DecodeRune, SaneRune, Fast;
    if k == 0 {
      assert s[0..] == s;
      assert s[..0] + Sanitise(s) == Sanitise(s);
    } else {
      FastByteIsSane(s);
      FastIsSane(s[1..], k - 1);
      assert s[1..][k - 1..] == s[k..];
      assert s[..k] == [s[0]] + s[1..][..k - 1];
      assert [s[0]] + (s[1..][..k - 1] + Sanitise(s[k..])) == s[..k] + Sanitise(s[k..]);
    }
  }

  lemma {:induction false} NoReturns(s: Str)
    requires '\r' !in s
    ensures LineEnds(s) == s
  {
    if s != [] {
      NoReturns(s[1..]);
    }
  }

  /** Attribute values survive a conforming reader: whatever part of the value went down the fast
      path, the quoted text holds no quote, and line-end handling, white-space normalisation and
      reference replacement return the sanitised value with its tabs and line ends. */
  lemma AttributeSurvives(s: Str)
    ensures '"' !in EscapeAttr(s) && '<' !in EscapeAttr(s) && '>' !in EscapeAttr(s)
    ensures AttValue(LineEnds(EscapeAttr(s))) == Some(Sanitise(s))
  {
    hide AttValue, Sanitise;
    var k := FastPrefix(s);
    FastIsSane(s, k);
    EscapedBytes(s[k..], true);
    AttEscaped(s[k..]);
    assert forall b | b in s[..k] :: Fast(b);
    assert forall b | b in EscapeAttr(s) :: b in s[..k] || b in EscapeMap(s[k..], true);
    NoReturns(EscapeAttr(s));
    AttVerbatim(s[..k], EscapeMap(s[k..], true));
  }

  // ---------------------------------------------------------------- text and line ends

  lemma {:induction false} LineEndsSkip(a: Str, b: Str)
    requires '\r' !in a
    ensures LineEnds(a + b) == a + LineEnds(b)
  {
    if a == [] {
      assert a + b == b;
    } else {
      assert (a + b)[1..] == a[1..] + b;
      LineEndsSkip(a[1..], b);
    }
  }

  /** A line feed starts the image of a text iff it starts the text. */
  lemma LeadingLineFeed(s: Str)
    ensures (EscapeMap(s, false) != [] && EscapeMap(s, false)[0] == '\n') <==> (s != [] && s[0] == '\n')
    ensures (Sanitise(s) != [] && Sanitise(s)[0] == '\n') <==> (s != [] && s[0] == '\n')
  {
    hide DecodeRune, EscapedRune;
    if s != [] {
      if Special(s[0], false) {
        SpecialRune(s, false);
      } else {
        EscapedOrdinary(s, false);
        OrdinaryBytes(s, false);
        assert REPLACEMENT[0] as int >= 0x80;
      }
    }
  }

  lemma ReturnRune(s: Str)
    requires s != [] && (s[0] == '\r' || s[0] == '\n')
    ensures DecodeRune(s).width == 1 && EscapedRune(s, false) == [s[0]] && SaneRune(s) == [s[0]]
  {
    EscapedOrdinary(s, false);
    assert s[..1] == [s[0]];
  }

  lemma NoReturnInRune(s: Str)
    requires s != [] && s[0] != '\r'
    ensures '\r' !in EscapedRune(s, false) && '\r' !in SaneRune(s)
  {
    hide DecodeRune, EscapedRune;
    var d := DecodeRune(s);
    if Special(s[0], false) {
      SpecialRune(s, false);
    } else {
      EscapedOrdinary(s, false);
      assert forall b | b in REPLACEMENT :: b as int >= 0x80;
      if d.code < 0x80 {
        assert s[..1] == [s[0]];
      } else {
        assert forall b | b in s[..d.width] :: b as int >= 0x80;
      }
    }
  }

  /** What a reader that handles line ends first takes from written text. */
  lemma {:induction false} TextReads(s: Str)
    ensures Decode(LineEnds(EscapeMap(s, false))) == Some(LineEnds(Sanitise(s)))
    decreases |s|
  {
    hide DecodeRune, EscapedRune, SaneRune, Decode, LineEnds;
    if s == [] {
      EmptyReads();
    } else {
      var rest := s[DecodeRune(s).width..];
      var e, t := EscapeMap(rest, false), Sanitise(rest);
      TextReads(rest);
      if s[0] != '\r' {
        NoReturnInRune(s);
        LineEndsSkip(EscapedRune(s, false), e);
        LineEndsSkip(SaneRune(s), t);
        DecodeStep(s, false, LineEnds(e));
      } else {
        ReturnRune(s);
        LeadingLineFeed(rest);
        if rest != [] && rest[0] == '\n' {
          ReturnRune(rest);
          var rest' := rest[1..];
          ReturnPair(EscapeMap(rest', false));
          ReturnPair(Sanitise(rest'));
          TextReads(rest');
          DecodeByte('\n', LineEnds(EscapeMap(rest', false)));
        } else {
          LoneReturn(e);
          LoneReturn(t);
          DecodeByte('\n', LineEnds(e));
        }
      }
    }
  }

  lemma EmptyReads()
    ensures Decode(LineEnds([])) == Some(LineEnds([]))
  {
  }

  lemma ReturnPair(t: Str)
    ensures LineEnds(['\r'] + (['\n'] + t)) == ['\n'] + LineEnds(t)
  {
    assert (['\r'] + (['\n'] + t))[2..] == t;
  }

  lemma LoneReturn(t: Str)
    requires !(t != [] && t[0] == '\n')
    ensures LineEnds(['\r'] + t) == ['\n'] + LineEnds(t)
  {
    assert (['\r'] + t)[1..] == t;
  }

  lemma {:induction false} ReturnsVanish(s: Str)
    ensures '\r' !in LineEnds(s)
    decreases |s|
  {
    if s != [] {
      if s[0] == '\r' {
        ReturnsVanish(if |s| > 1 && s[1] == '\n' then s[2..] else s[1..]);
      } else {
        ReturnsVanish(s[1..]);
      }
    }
  }

  lemma {:induction false} SanitiseKeepsReturns(s: Str)
    ensures '\r' in Sanitise(s) <==> '\r' in s
    decreases |s|
  {
    hide DecodeRune, SaneRune;
    if s != [] {
      var d := DecodeRune(s);
      SanitiseKeepsReturns(s[d.width..]);
      assert s == s[..d.width] + s[d.width..];
      if s[0] == '\r' {
        ReturnRune(s);
        assert SaneRune(s)[0] == '\r';
        assert Sanitise(s)[0] == '\r';
      } else {
        NoReturnInRune(s);
        assert '\r' !in s[..d.width] by {
          if d.code < 0x80 {
            assert s[..1] == [s[0]];
          }
        }
      }
    }
  }

  /** Text survives a reader that handles line ends exactly when it holds no carriage return:
      EscapeString lets it through, and section 2.11 turns it into a line feed. */
  lemma TextSurvivesIff(s: Str)
    ensures Decode(LineEnds(EscapeMap(s, false))) == Some(Sanitise(s)) <==> '\r' !in s
  {
    TextReads(s);
    SanitiseKeepsReturns(s);
    if '\r' in s {
      ReturnsVanish(Sanitise(s));
    } else {
      NoReturns(Sanitise(s));
    }
  }
}
