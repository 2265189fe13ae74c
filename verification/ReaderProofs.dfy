/** A reader recovers the forest that was printed. */
module ReaderProofs {
  import opened Bytes
  import opened Utf8
  import opened Check
  import opened Escape
  import opened EscapeProofs
  import opened Printer
  import opened Document
  import opened Reader

  // ---------------------------------------------------------------- character data

  lemma TextJoins(kids: seq<XNode>, a: Str, b: Str)
    ensures JoinText(JoinText(kids, a), b) == JoinText(kids, a + b)
  {
    if b == [] {
      assert a + b == a;
    } else if a == [] {
      assert a + b == b;
    } else {
      var k := JoinText(kids, a);
      var n := |k| - 1;
      assert k[..n] == if kids != [] && kids[|kids| - 1].XText? then kids[..|kids| - 1] else kids;
      if kids != [] && kids[|kids| - 1].XText? {
        Assoc(kids[|kids| - 1].text, a, b);
      }
    }
  }

  function AddText(o: Open, text: Str): Open {
    WithKids(o, JoinText(o.kids, text))
  }

  lemma AddTextTwice(o: Open, a: Str, b: Str)
    ensures AddText(AddText(o, a), b) == AddText(o, a + b)
    ensures AddText(o, []) == o
  {
    hide JoinText;
    TextJoins(o.kids, a, b);
    assert JoinText(o.kids, []) == o.kids by { NoText(o.kids); }
  }

  lemma NoText(kids: seq<XNode>)
    ensures JoinText(kids, []) == kids
  {
  }

  /** Every '>' comes after a '<'. */
  predicate Quiet(s: Str) {
    forall i | 0 <= i < |s| && s[i] == '>' :: exists j | 0 <= j < i :: s[j] == '<'
  }

  lemma QuietMark(s: Str)
    requires s == [] || s[0] == '<'
    ensures Quiet(s)
  {
  }

  lemma QuietText(raw: Str, rest: Str)
    requires '>' !in raw && Quiet(rest)
    ensures Quiet(raw + rest)
  {
    var s := raw + rest;
    assert forall i | 0 <= i < |raw| :: s[i] in raw;
    forall i | |raw| <= i < |s| && s[i] == '>' ensures exists j | 0 <= j < i :: s[j] == '<' {
      assert rest[i - |raw|] == '>';
      var j :| 0 <= j < i - |raw| && rest[j] == '<';
      assert s[|raw| + j] == '<';
    }
  }

  lemma ReadOne(o: Open, s: Str, text: Str, rest: Str)
    requires s != [] && s[0] != '<' && Quiet(s) && ReadUnit(s) == Some(Unit(text, rest))
    ensures ReadFrom(o, s) == ReadFrom(AddText(o, text), rest)
  {
    hide ReadUnit, JoinText, StartsWith, Quiet;
    QuietNoClose(s);
  }

  lemma QuietNoClose(s: Str)
    requires s != [] && s[0] != '<' && Quiet(s)
    ensures !StartsWith(s, "]]>")
  {
    assert |s| >= 3 ==> s[..3] == [s[0], s[1], s[2]];
  }

  lemma {:induction false} ReadVerbatim(o: Open, raw: Str, rest: Str)
    requires (forall b | b in raw :: b != '<' && b != '&' && b != '>') && Quiet(rest)
    ensures ReadFrom(o, raw + rest) == ReadFrom(AddText(o, raw), rest)
    decreases raw
  {
    hide ReadFrom, AddText, Quiet;
    if raw == [] {
      assert raw + rest == rest;
      AddTextTwice(o, [], []);
    } else {
      var s := raw + rest;
      assert raw[0] in raw && forall b | b in raw[1..] :: b in raw;
      assert s[..1] == [raw[0]] && s[1..] == raw[1..] + rest;
      QuietText(raw, rest);
      ReadOne(o, s, [raw[0]], raw[1..] + rest);
      ReadVerbatim(AddText(o, [raw[0]]), raw[1..], rest);
      AddTextTwice(o, [raw[0]], raw[1..]);
      assert [raw[0]] + raw[1..] == raw;
    }
  }

  lemma ReadRune(o: Open, s: Str, rest: Str)
    requires s != [] && Quiet(rest)
    ensures ReadFrom(o, EscapedRune(s, false) + rest) == ReadFrom(AddText(o, SaneRune(s)), rest)
  {
    hide EscapedRune, SaneRune, Reference, DecodeRune, ReadFrom, ReadUnit, AddText, Quiet;
    if Special(s[0], false) {
      SpecialRune(s, false);
      RefNameReads(s[0]);
      RefBytes(s[0]);
      QuietText(['&'] + RefName(s[0]) + [';'], rest);
      ReferenceReads(RefName(s[0]), [s[0]], rest);
      ReadOne(o, ['&'] + RefName(s[0]) + [';'] + rest, [s[0]], rest);
    } else {
      EscapedOrdinary(s, false);
      OrdinaryBytes(s, false);
      ReadVerbatim(o, SaneRune(s), rest);
    }
  }

  /** Printed text is read as its sanitised form. */
  lemma {:induction false} ReadText(o: Open, s: Str, rest: Str)
    requires Quiet(rest)
    ensures ReadFrom(o, EscapeMap(s, false) + rest) == ReadFrom(AddText(o, Sanitise(s)), rest)
    decreases |s|
  {
    hide EscapedRune, SaneRune, DecodeRune, ReadFrom, AddText, Quiet;
    if s == [] {
      assert [] + rest == rest;
      AddTextTwice(o, [], []);
    } else {
      var t := s[DecodeRune(s).width..];
      Assoc(EscapedRune(s, false), EscapeMap(t, false), rest);
      EscapedBytes(t, false);
      QuietText(EscapeMap(t, false), rest);
      ReadRune(o, s, EscapeMap(t, false) + rest);
      ReadText(AddText(o, SaneRune(s)), t, rest);
      AddTextTwice(o, SaneRune(s), Sanitise(t));
    }
  }

  // ---------------------------------------------------------------- names

  lemma {:induction false} NameStopsAt(name: Str, more: Str)
    requires forall i | 0 <= i < |name| :: NameByte(name[i])
    requires more != [] ==> !NameByte(more[0])
    ensures NameLength(name + more) == |name|
  {
    hide NameByte;
    if name == [] {
      assert name + more == more;
    } else {
      assert (name + more)[1..] == name[1..] + more;
      NameStopsAt(name[1..], more);
    }
  }

  /** What the reader makes of an accepted name. */
  lemma NameReads(name: Str, more: Str)
    requires ValidName(name) && name != []
    requires more != [] ==> !NameByte(more[0])
    ensures NameLength(name + more) == |name|
    ensures (name + more)[..|name|] == name && (name + more)[|name|..] == more
    ensures XmlName(name) && NameByte(name[0])
  {
    hide AllRunes, DecodeRune, NameClass;
    ValidNameSound(name);
    forall i | 0 <= i < |name| ensures NameByte(name[i]) {
      if (name[i] as int) < 0x80 {
        NameBytes(name, i);
      }
    }
    NameStopsAt(name, more);
  }

  lemma Delimiters(b: byte)
    requires NameByte(b)
    ensures !Escape.Space(b) && b !in "<>/!?=&;'\""
  {
  }

  // ---------------------------------------------------------------- attributes

  lemma QuotedReads(body: Str, end: byte, rest: Str)
    requires end !in body
    ensures ReadTo(body + [end] + rest, [end]) == Some(Delimited(body, rest))
  {
    var s := body + [end] + rest;
    assert s[|body|..|body| + 1] == [end];
    forall i | 0 <= i < |body| ensures !At(s, [end], i) {
      assert s[i] == body[i] && body[i] in body;
      assert s[i..i + 1][0] == s[i];
    }
    FindAt(s, [end], |body|);
    assert s[..|body|] == body && s[|body| + 1..] == rest;
  }

  /** A value in quotes, as it was when line ends have been handled. */
  lemma ValueReads(value: Str)
    ensures '"' !in EscapeAttr(value) && '\r' !in EscapeAttr(value) && '>' !in EscapeAttr(value)
    ensures AttValue(EscapeAttr(value)) == Some(Sanitise(value))
  {
    hide AttValue, Sanitise;
    AttributeSurvives(value);
    EscapedBytes(value[FastPrefix(value)..], true);
    assert forall b | b in value[..FastPrefix(value)] :: Fast(b);
    assert forall b | b in EscapeAttr(value) ::
      b in value[..FastPrefix(value)] || b in EscapeMap(value[FastPrefix(value)..], true);
    NoReturns(EscapeAttr(value));
  }

  lemma AttPieces(name: Str, esc: Str, more: Str)
    ensures " " + name + "=\"" + esc + "\"" + more == " " + (name + ("=\"" + (esc + ['"'] + more)))
  {
    Assoc(" " + name + "=\"" + esc, "\"", more);
    Assoc(" " + name + "=\"", esc, "\"" + more);
    Assoc(" " + name, "=\"", esc + ("\"" + more));
    Assoc(" ", name, "=\"" + (esc + ("\"" + more)));
    Assoc(esc, ['"'], more);
  }

  lemma AttReads(a: Att, more: Str)
    requires ValidName(a.name) && a.name != []
    ensures ReadAtt(a.name + ("=\"" + (EscapeAttr(a.value) + ['"'] + more))) ==
      Some(OneAtt(Att(a.name, Sanitise(a.value)), more))
  {
    hide AttValue, Sanitise, EscapeAttr, ValidName, XmlName, ReadTo, NameByte;
    var v := EscapeAttr(a.value) + ['"'] + more;
    var t := a.name + ("=\"" + v);
    var n := |a.name|;
    assert !NameByte('=') by { EqualsEnds(); }
    NameReads(a.name, "=\"" + v);
    ValueReads(a.value);
    QuotedReads(EscapeAttr(a.value), '"', more);
    assert t[n..] == "=\"" + v && t[n] == '=' && t[n + 1] == '"';
    assert t[n + 2..] == v;
  }

  lemma EqualsEnds()
    ensures !NameByte('=') && !NameByte('>') && !NameByte('/') && !NameByte(' ')
  {
  }

  lemma TagSpace(t: Str, more: Str)
    requires t != [] && NameByte(t[0])
    ensures SkipSpace(" " + t) == t
    ensures !StartsWith(t, ">") && !StartsWith(t, "/>")
  {
    Delimiters(t[0]);
    assert (" " + t)[1..] == t;
    assert t[..1][0] == t[0];
    assert |t| >= 2 ==> t[..2][0] == t[0];
  }

  lemma AttsStep(a: Att, more: Str)
    requires ValidName(a.name) && a.name != []
    ensures ReadAtts(AttBytes(a.name, a.value) + more) ==
      match ReadAtts(more)
      case None => None
      case Some(m) => Some(TagRest([Att(a.name, Sanitise(a.value))] + m.atts, m.empty, m.rest))
  {
    hide Sanitise, EscapeAttr, ValidName, XmlName, ReadAtt, NameByte, StartsWith, SkipSpace;
    var t := a.name + ("=\"" + (EscapeAttr(a.value) + ['"'] + more));
    AttPieces(a.name, EscapeAttr(a.value), more);
    NameReads(a.name, []);
    TagSpace(t, more);
    AttReads(a, more);
  }

  lemma AttsFirst(atts: seq<Att>)
    requires atts != []
    ensures AttsBytes(atts) == AttBytes(atts[0].name, atts[0].value) + AttsBytes(atts[1..])
  {
    hide AttBytes;
    AttsConcat([atts[0]], atts[1..]);
    assert [atts[0]] + atts[1..] == atts;
    assert [atts[0]][..0] == [];
    assert [] + AttBytes(atts[0].name, atts[0].value) == AttBytes(atts[0].name, atts[0].value);
  }

  lemma EqualsStops(t: Str)
    requires t != [] && t[0] == '='
    ensures ReadAtts(" " + t).None?
  {
    hide XmlName, NameByte;
    EqualsEnds();
    NoName();
    assert (" " + t)[1..] == t && t[..0] == [];
    assert SkipSpace(" " + t) == t;
    assert t[..1][0] == '=' && (|t| >= 2 ==> t[..2][0] == '=');
  }

  /** An attribute without a name stops the reader. */
  lemma UnnamedStops(value: Str, more: Str)
    ensures ReadAtts(AttBytes([], value) + more).None?
  {
    hide EscapeAttr, ReadAtts;
    var t := "=\"" + (EscapeAttr(value) + ['"'] + more);
    AttPieces([], EscapeAttr(value), more);
    assert [] + t == t;
    EqualsStops(t);
  }

  /** The attributes of a tag, up to its end: a reader gets all of them if all have names, and otherwise stops. */
  lemma {:induction false} AttsRead(atts: seq<Att>, empty: bool, rest: Str)
    requires NamesOk(atts)
    ensures ReadAtts(AttsBytes(atts) + ((if empty then "/>" else ">") + rest)) ==
      if AllNamed(atts) then Some(TagRest(SaneAtts(atts), empty, rest)) else None
  {
    hide AttBytes, ValidName, Sanitise;
    var end := (if empty then "/>" else ">") + rest;
    if atts == [] {
      assert [] + end == end;
      TagEnds(empty, rest);
    } else {
      hide AttsBytes, ReadAtts;
      AttsFirst(atts);
      var a := atts[0];
      assert a in atts && forall b | b in atts[1..] :: b in atts;
      Assoc(AttBytes(a.name, a.value), AttsBytes(atts[1..]), end);
      AttsRead(atts[1..], empty, rest);
      if a.name == [] {
        UnnamedStops(a.value, AttsBytes(atts[1..]) + end);
      } else {
        AttsStep(a, AttsBytes(atts[1..]) + end);
        assert forall b | b in atts :: b == a || b in atts[1..];
      }
    }
  }

  lemma TagEnds(empty: bool, rest: Str)
    ensures ReadAtts((if empty then "/>" else ">") + rest) == Some(TagRest([], empty, rest))
  {
    if empty {
      var s := "/>" + rest;
      assert s[..1] == "/" && s[..2] == "/>" && s[2..] == rest;
    } else {
      var s := ">" + rest;
      assert s[..1] == ">" && s[1..] == rest;
    }
  }

  lemma {:induction false} AttsHoldNoReturn(atts: seq<Att>)
    requires NamesOk(atts)
    ensures '\r' !in AttsBytes(atts)
  {
    hide ValidName, EscapeAttr, AttBytes;
    if atts != [] {
      var n := |atts| - 1;
      assert atts[n] in atts && forall a | a in atts[..n] :: a in atts;
      AttsHoldNoReturn(atts[..n]);
      ValueReads(atts[n].value);
      NameHoldsNoReturn(atts[n].name);
      AttHoldsNoReturn(atts[n]);
    }
  }

  lemma AttHoldsNoReturn(a: Att)
    requires '\r' !in a.name && '\r' !in EscapeAttr(a.value)
    ensures '\r' !in AttBytes(a.name, a.value)
  {
    hide EscapeAttr;
  }

  lemma NameHoldsNoReturn(name: Str)
    requires ValidName(name)
    ensures '\r' !in name
  {
    hide AllRunes, DecodeRune;
    forall i | 0 <= i < |name| ensures name[i] != '\r' {
      if name[i] == '\r' {
        NameBytes(name, i);
      }
    }
  }

  // ---------------------------------------------------------------- what is printed is text

  lemma TextConcat(a: Str, b: Str)
    requires IsText(a) && IsText(b)
    ensures IsText(a + b)
  {
    WellFormedConcat(a, b);
    AllRunesConcat(a, b, IsChar);
  }

  lemma TextConcat3(a: Str, b: Str, c: Str)
    requires IsText(a) && IsText(b) && IsText(c)
    ensures IsText(a + b + c)
  {
    hide IsText;
    TextConcat(a, b);
    TextConcat(a + b, c);
  }

  lemma PrintableText(s: Str)
    requires forall b | b in s :: 0x20 <= b as int < 0x7F
    ensures IsText(s)
  {
    PrintableIsText(s);
  }

  lemma NameIsText(name: Str)
    requires ValidName(name)
    ensures IsText(name)
  {
    hide DecodeRune, AllRunes, NameClass, IsChar, WellFormed;
    if name == [] {
      PrintableText([]);
    } else {
      ValidNameSound(name);
      AllRunesHolds(name, InName);
      AllRunesHolds(name, IsChar);
      forall d | d in Runes(name) ensures IsChar(d.code) {
        NameCharIsChar(d.code);
      }
    }
  }

  lemma NameCharIsChar(r: int)
    requires InName(r)
    ensures IsChar(r)
  {
  }

  lemma AttIsText(a: Att)
    requires ValidName(a.name)
    ensures IsText(AttBytes(a.name, a.value))
  {
    hide IsText, ValidName, EscapeMap;
    var n := FastPrefix(a.value);
    PrintableText(a.value[..n]);
    assert IsText(EscapeMap(a.value[n..], true)) by {
      EscapedText(a.value[n..], true);
    }
    TextConcat(a.value[..n], EscapeMap(a.value[n..], true));
    NameIsText(a.name);
    PrintableText(" ");
    PrintableText("=\"");
    PrintableText("\"");
    TextConcat3(" ", a.name, "=\"");
    TextConcat3(" " + a.name + "=\"", EscapeAttr(a.value), "\"");
  }

  lemma EscapedText(s: Str, attr: bool)
    ensures IsText(EscapeMap(s, attr))
  {
    hide EscapeMap;
    EscapedIsText(s, attr);
  }

  lemma {:induction false} AttsAreText(atts: seq<Att>)
    requires NamesOk(atts)
    ensures IsText(AttsBytes(atts))
  {
    hide IsText, AttBytes, ValidName;
    if atts == [] {
      PrintableText([]);
    } else {
      var n := |atts| - 1;
      assert atts[n] in atts && forall a | a in atts[..n] :: a in atts;
      AttsAreText(atts[..n]);
      AttIsText(atts[n]);
      TextConcat(AttsBytes(atts[..n]), AttBytes(atts[n].name, atts[n].value));
    }
  }

  lemma {:induction false} TextBefore(a: Str, b: Str)
    requires IsText(a + b) && (b != [] ==> b[0] as int < 0x80)
    ensures IsText(a)
    decreases |a|
  {
    hide DecodeRune, IsChar;
    if a != [] {
      var s := a + b;
      var w := DecodeRune(s).width;
      RuneInside(a, b);
      DecodePrefix(s, a[w..]);
      assert s[..w] + a[w..] == a;
      assert s[w..] == a[w..] + b;
      TextBefore(a[w..], b);
    }
  }

  /** A rune does not reach into an ASCII byte. */
  lemma RuneInside(a: Str, b: Str)
    requires a != [] && (b != [] ==> b[0] as int < 0x80)
    ensures DecodeRune(a + b).width <= |a|
  {
    hide DecodeRune;
    assert b != [] ==> (a + b)[|a|] == b[0];
  }

  lemma {:induction false} TextAfter(a: Str, b: Str)
    requires IsText(a + b) && forall i | 0 <= i < |a| :: a[i] as int < 0x80
    ensures IsText(b)
  {
    hide DecodeRune, IsChar;
    if a == [] {
      assert a + b == b;
    } else {
      assert (a + b)[1..] == a[1..] + b;
      TextAfter(a[1..], b);
    }
  }

  /** What follows a text that is part of one. */
  lemma {:induction false} TextStrip(a: Str, b: Str)
    requires IsText(a) && IsText(a + b)
    ensures IsText(b)
    decreases |a|
  {
    hide DecodeRune, IsChar;
    if a == [] {
      assert a + b == b;
    } else {
      var w := DecodeRune(a).width;
      DecodePrefix(a, a[w..] + b);
      assert a + b == a[..w] + (a[w..] + b);
      assert (a + b)[w..] == a[w..] + b;
      TextStrip(a[w..], b);
    }
  }

  // ---------------------------------------------------------------- delimited sections

  /** The terminator after `body` is the first one: none begins inside the body. */
  predicate EndsFirst(body: Str, end: Str) {
    Find(body + end, end) == |body|
  }

  lemma EarlyIsEarly(body: Str, end: Str, rest: Str, i: nat)
    requires i < |body|
    ensures At(body + end + rest, end, i) <==> At(body + end, end, i)
  {
    assert (body + end + rest)[i..i + |end|] == (body + end)[i..i + |end|];
  }

  lemma EndsHere(body: Str, end: Str, rest: Str)
    ensures At(body + end, end, |body|) && At(body + end + rest, end, |body|)
    ensures (body + end + rest)[..|body|] == body && (body + end + rest)[|body| + |end|..] == rest
  {
    assert (body + end)[|body|..|body| + |end|] == end;
    assert (body + end + rest)[|body|..|body| + |end|] == end;
  }

  /** Scanning to the first terminator recovers a body exactly when no terminator begins inside it. */
  lemma DelimitedReads(body: Str, end: Str, rest: Str)
    requires end != []
    ensures ReadTo(body + end + rest, end) == Some(Delimited(body, rest)) <==> EndsFirst(body, end)
  {
    hide At;
    var t, s := body + end, body + end + rest;
    EndsHere(body, end, rest);
    forall i | 0 <= i < |body| ensures At(s, end, i) <==> At(t, end, i) {
      EarlyIsEarly(body, end, rest, i);
    }
    FirstIs(s, end, |body|);
    FirstIs(t, end, |body|);
  }

  lemma FirstIs(s: Str, sub: Str, k: nat)
    requires k < |s| && At(s, sub, k)
    ensures Find(s, sub) == k <==> forall i | 0 <= i < k :: !At(s, sub, i)
  {
    if forall i | 0 <= i < k :: !At(s, sub, i) {
      FindAt(s, sub, k);
    }
  }

  lemma EndsFirstIf(body: Str, end: Str)
    requires end != [] && forall i | 0 <= i < |body| :: !At(body + end, end, i)
    ensures EndsFirst(body, end)
  {
    assert (body + end)[|body|..|body| + |end|] == end;
    FindAt(body + end, end, |body|);
  }

  lemma NotIn(s: Str, sub: Str, i: nat)
    requires !Contains(s, sub) && i + |sub| <= |s|
    ensures s[i..i + |sub|] != sub
  {
    assert 0 <= i <= |s| && !At(s, sub, i);
  }

  /** The first "-->" after a comment that is written in one piece is its end, even when the comment ends
      in a hyphen. */
  lemma CommentEndsFirst(s: Str)
    requires CommentOk(s)
    ensures EndsFirst(s, "-->")
  {
    hide AllRunes, Contains;
    var t := s + "-->";
    forall i | 0 <= i < |s| ensures !At(t, "-->", i) {
      assert t[i..i + 3][0] == t[i] && t[i..i + 3][1] == t[i + 1] && t[i..i + 3][2] == t[i + 2];
      if i + 2 <= |s| {
        NotIn(s, "--", i);
        assert s[i..i + 2] == [t[i], t[i + 1]];
      } else {
        assert t[i + 2] == '-';
      }
    }
    EndsFirstIf(s, "-->");
  }

  /** The same for the content of a CDATA section, even when it ends in "]" or "]]". */
  lemma CDataEndsFirst(s: Str)
    requires CDataOk(s)
    ensures EndsFirst(s, "]]>")
  {
    hide AllRunes, Contains;
    var t := s + "]]>";
    forall i | 0 <= i < |s| ensures !At(t, "]]>", i) {
      assert t[i..i + 3][0] == t[i] && t[i..i + 3][1] == t[i + 1] && t[i..i + 3][2] == t[i + 2];
      if i + 3 <= |s| {
        NotIn(s, "]]>", i);
        assert s[i..i + 3] == [t[i], t[i + 1], t[i + 2]];
      } else {
        assert t[i + 2] == ']';
      }
    }
    EndsFirstIf(s, "]]>");
  }

  lemma NoStraddle(body: Str, end: Str, i: nat)
    requires end != [] && end[|end| - 1] !in end[..|end| - 1] && i < |body| < i + |end|
    ensures !At(body + end, end, i)
  {
    var t, n := body + end, |end| - 1;
    var k := i + n - |body|;
    assert t[i + n] == end[k] && end[..n][k] == end[k];
    assert i + |end| <= |t| ==> t[i..i + |end|][n] == t[i + n];
  }

  /** A terminator that cannot overlap itself comes first exactly if the body does not hold it. */
  lemma EndsFirstIff(body: Str, end: Str)
    requires end != [] && end[|end| - 1] !in end[..|end| - 1]
    ensures EndsFirst(body, end) <==> !Contains(body, end)
  {
    hide Contains;
    var t := body + end;
    EndsHere(body, end, []);
    FirstIs(t, end, |body|);
    forall i | 0 <= i < |body| ensures At(t, end, i) <==> At(body, end, i) {
      if i + |end| <= |body| {
        assert t[i..i + |end|] == body[i..i + |end|];
      } else {
        NoStraddle(body, end, i);
      }
    }
    ContainsInside(body, end);
  }

  lemma ContainsInside(s: Str, sub: Str)
    requires sub != []
    ensures Contains(s, sub) <==> exists i | 0 <= i < |s| :: At(s, sub, i)
  {
    if Contains(s, sub) {
      var i :| 0 <= i <= |s| && At(s, sub, i);
      assert i < |s|;
    }
  }

  /** A comment made of accepted pieces ends at its own terminator if and only if the pieces together do not hold it;
      a CDATA section likewise. Two accepted pieces can make one. */
  lemma PiecesEndFirst(body: Str)
    ensures EndsFirst(body, "-->") <==> !Contains(body, "-->")
    ensures EndsFirst(body, "]]>") <==> !Contains(body, "]]>")
    ensures EndsFirst(body, "?>") <==> !Contains(body, "?>")
  {
    hide EndsFirst, Contains;
    assert "-->"[..2] == "--" && "]]>"[..2] == "]]" && "?>"[..1] == "?";
    EndsFirstIff(body, "-->");
    EndsFirstIff(body, "]]>");
    EndsFirstIff(body, "?>");
  }

  /** Each piece of a comment is accepted, and the comment made of them ends too early. */
  lemma TwoPiecesCanEndEarly()
    ensures CommentOk("-") && CommentOk("->") && !EndsFirst("-" + "->", "-->")
  {
    assert "-"[DecodeRune("-").width..] == [];
    assert "->"[DecodeRune("->").width..] == ">";
    assert ">"[DecodeRune(">").width..] == [];
    var t := "-" + "->" + "-->";
    assert t[0..3] == "-->";
    assert At(t, "-->", 0);
  }

  // ---------------------------------------------------------------- comments and CDATA sections

  /** Production [15]: no two hyphens in a row, and none at the end. */
  predicate CommentBody(s: Str) {
    !Contains(s, "--") && (s != [] ==> s[|s| - 1] != '-')
  }

  /** The first two hyphens after a body are those of its end exactly if it is a comment's. */
  lemma HyphensFirstIff(body: Str)
    ensures EndsFirst(body, "--") <==> CommentBody(body)
  {
    hide Contains, At;
    var t := body + "--";
    EndsHere(body, "--", []);
    FirstIs(t, "--", |body|);
    ContainsInside(body, "--");
    forall i | 0 <= i < |body| ensures At(t, "--", i) <==> At(body, "--", i) || (i == |body| - 1 && body[i] == '-') {
      HyphensAt(body, i);
    }
  }

  lemma HyphensAt(body: Str, i: nat)
    requires i < |body|
    ensures At(body + "--", "--", i) <==> At(body, "--", i) || (i == |body| - 1 && body[i] == '-')
  {
    var t := body + "--";
    assert t[i..i + 2] == [t[i], t[i + 1]];
    assert i + 2 <= |body| ==> body[i..i + 2] == t[i..i + 2];
  }

  /** The reader takes a comment as a whole if and only if production [15] allows it. */
  lemma CommentReadsIff(body: Str, rest: Str)
    ensures Reader.ReadComment(body + "-->" + rest) == Some(Lexed(TNode(XComment(body)), rest)) <==> CommentBody(body)
  {
    hide EndsFirst, ReadTo, CommentBody;
    var s := body + "--" + (">" + rest);
    assert "--" + (">" + rest) == "-->" + rest;
    Assoc(body, "--", ">" + rest);
    Assoc(body, "-->", rest);
    assert s == body + "-->" + rest;
    HyphensFirstIff(body);
    DelimitedReads(body, "--", ">" + rest);
    assert (">" + rest)[..1] == ">" && (">" + rest)[1..] == rest;
    var d := ReadTo(s, "--");
    if d.Some? && StartsWith(d.value.rest, ">") && d.value.body == body {
      ReadToSplits(s, "--");
      assert s[|body| + 2..] == ">" + rest;
    }
  }

  lemma ReadToSplits(s: Str, end: Str)
    requires end != [] && ReadTo(s, end).Some?
    ensures var d := ReadTo(s, end).value;
      |d.body| + |end| <= |s| && d.body == s[..|d.body|] && d.rest == s[|d.body| + |end|..]
  {
  }

  /** The reader takes a CDATA section as a whole if and only if it does not hold its end. */
  lemma CDataReadsIff(body: Str, rest: Str)
    ensures Reader.ReadCData(body + "]]>" + rest) == Some(Lexed(TNode(XCData(body)), rest)) <==> !Contains(body, "]]>")
  {
    hide EndsFirst, ReadTo, Contains;
    PiecesEndFirst(body);
    DelimitedReads(body, "]]>", rest);
  }

  lemma ReadNode(o: Open, s: Str, node: XNode, rest: Str)
    requires s != [] && NextToken(s) == Some(Lexed(TNode(node), rest))
    ensures ReadFrom(o, s) == ReadFrom(WithKids(o, o.kids + [node]), rest)
  {
    hide NextToken;
  }

  /** A delimited section is text exactly if its body is. */
  lemma SectionIsTextIff(open: Str, body: Str, end: Str)
    requires (forall b | b in open + end :: 0x20 <= b as int < 0x7F) && end != []
    ensures IsText(open + body + end) <==> IsText(body)
  {
    hide IsText;
    assert forall b | b in open :: b in open + end;
    assert forall b | b in end :: b in open + end;
    assert end[0] in end && forall i | 0 <= i < |open| :: open[i] in open;
    PrintableText(open);
    PrintableText(end);
    if IsText(body) {
      TextConcat3(open, body, end);
    } else if IsText(open + body + end) {
      TextBefore(open + body, end);
      TextAfter(open, body);
      assert false;
    }
  }

  /** What enforcing leaves to the caller: a comment that was accepted in one piece is one of production [15] exactly if
      it does not end in a hyphen and is UTF-8. */
  lemma AcceptedCommentIff(s: Str)
    requires CommentOk(s)
    ensures CommentBody(s) && IsText(s) <==> (s != [] ==> s[|s| - 1] != '-') && WellFormed(s)
  {
  }

  /** A comment that is accepted and that no conforming reader takes. */
  lemma HyphenComment(rest: Str)
    ensures CommentOk("-") && !CommentBody("-")
    ensures Reader.ReadComment("-" + "-->" + rest) != Some(Lexed(TNode(XComment("-")), rest))
  {
    hide Reader.ReadComment;
    assert "-"[DecodeRune("-").width..] == [];
    CommentReadsIff("-", rest);
  }

  /** For CDATA sections it is UTF-8 alone. */
  lemma AcceptedCDataIff(s: Str)
    requires CDataOk(s)
    ensures !Contains(s, "]]>") && IsText(s) <==> WellFormed(s)
  {
  }

  lemma CommentReads(o: Open, body: Str, rest: Str)
    requires CommentBody(body)
    ensures ReadFrom(o, "<!--" + body + "-->" + rest) == ReadFrom(WithKids(o, o.kids + [XComment(body)]), rest)
  {
    hide ReadFrom, ReadTo, EndsFirst, Reader.ReadComment, CommentBody;
    var s := "<!--" + body + "-->" + rest;
    CommentReadsIff(body, rest);
    assert s[4..] == body + "-->" + rest;
    assert s[..4] == "<!--";
    ReadNode(o, s, XComment(body), rest);
  }

  lemma CDataReads(o: Open, body: Str, rest: Str)
    requires !Contains(body, "]]>")
    ensures ReadFrom(o, "<![CDATA[" + body + "]]>" + rest) == ReadFrom(WithKids(o, o.kids + [XCData(body)]), rest)
  {
    hide ReadFrom, ReadTo, EndsFirst, Reader.ReadCData, Contains;
    var s := "<![CDATA[" + body + "]]>" + rest;
    CDataReadsIff(body, rest);
    assert s[9..] == body + "]]>" + rest;
    assert s[..9] == "<![CDATA[";
    assert s[..4] == "<![C";
    ReadNode(o, s, XCData(body), rest);
  }

  // ---------------------------------------------------------------- processing instructions

  /** The first "?>" after a processing instruction is its end. */
  lemma PIEndsFirst(target: Str, content: Str)
    requires PIOk(target, content)
    ensures EndsFirst(target + " " + content, "?>")
  {
    hide Contains, AllRunes, DecodeRune, NameClass;
    var body := target + " " + content;
    var t := body + "?>";
    forall i | 0 <= i < |body| ensures !At(t, "?>", i) {
      assert t[i..i + 2][0] == t[i] && t[i..i + 2][1] == t[i + 1];
      if i < |target| {
        assert t[i] == target[i];
        QuestionMark();
        if target[i] == '?' {
          NameBytes(target, i);
        }
      } else if i > |target| && i + 1 < |body| {
        var j := i - |target| - 1;
        NotIn(content, "?>", j);
        assert content[j..j + 2] == [t[i], t[i + 1]];
      }
    }
    EndsFirstIf(body, "?>");
  }

  lemma QuestionMark()
    ensures !InName('?' as int)
  {
  }

  lemma PIHoldsNone(target: Str, content: Str)
    requires ValidName(target)
    ensures Contains(target + " " + content, "?>") ==> Contains(content, "?>")
  {
    hide AllRunes, DecodeRune, NameClass;
    var body := target + " " + content;
    ContainsInside(body, "?>");
    if Contains(body, "?>") {
      var i :| 0 <= i < |body| && At(body, "?>", i);
      assert body[i..i + 2][0] == body[i];
      if i < |target| {
        assert target[i] == '?';
        QuestionMark();
        NameBytes(target, i);
      }
      var j := i - |target| - 1;
      assert content[j..j + 2] == body[i..i + 2];
      assert At(content, "?>", j);
    }
  }

  /** The reader takes a processing instruction as a whole if and only if it is accepted and has a target. */
  lemma PIReadsIff(target: Str, content: Str, rest: Str)
    requires ValidName(target)
    ensures var read := ReadPI(target + " " + content + "?>" + rest);
      read == Some(Lexed(TNode(XPI(target, SkipSpace(content))), rest)) <==> PIOk(target, content) && target != []
  {
    hide ReadPI, PIOk;
    if target == [] {
      UnnamedPI(content, rest);
    } else {
      NamedPIReadsIff(target, content, rest);
    }
  }

  /** An instruction without a target is accepted, and no reader takes it. */
  lemma UnnamedPI(content: Str, rest: Str)
    ensures PIOk([], content) <==> !Contains(content, "?>")
    ensures ReadPI([] + " " + content + "?>" + rest).None?
  {
    hide ReadTo, XmlName, SkipSpace, NameByte, Contains, NameClass;
    var s := [] + " " + content + "?>" + rest;
    EqualsEnds();
    NoName();
    var d := ReadTo(s, "?>");
    if d.Some? {
      ReadToSplits(s, "?>");
      assert d.value.body != [] ==> d.value.body[0] == ' ';
      assert d.value.body[..0] == [];
    }
  }

  lemma NoName()
    ensures ValidName([]) && !XmlName([])
  {
  }

  lemma NamedPIReadsIff(target: Str, content: Str, rest: Str)
    requires ValidName(target) && target != []
    ensures var read := ReadPI(target + " " + content + "?>" + rest);
      read == Some(Lexed(TNode(XPI(target, SkipSpace(content))), rest)) <==> PIOk(target, content)
  {
    hide ReadTo, EndsFirst, ValidName, XmlName, SkipSpace, NameByte, Contains, IsXml;
    var body := target + " " + content;
    var s := body + "?>" + rest;
    EqualsEnds();
    NameReads(target, " " + content);
    PIPieces(target, content, rest);
    PiecesEndFirst(body);
    PIHoldsNone(target, content);
    if PIOk(target, content) {
      PIEndsFirst(target, content);
    }
    DelimitedReads(body, "?>", rest);
    var d := ReadTo(s, "?>");
    if d.Some? && d.value.rest == rest {
      ReadToSplits(s, "?>");
      assert d.value.body == s[..|body|] == body;
    }
    PIEarly(target, content);
  }

  lemma PIEarly(target: Str, content: Str)
    ensures Contains(content, "?>") ==> Contains(target + " " + content, "?>")
  {
    var body := target + " " + content;
    if Contains(content, "?>") {
      var j :| 0 <= j <= |content| && At(content, "?>", j);
      assert body[|target| + 1 + j..|target| + 1 + j + 2] == content[j..j + 2];
      assert At(body, "?>", |target| + 1 + j);
    }
  }

  lemma PIPieces(target: Str, content: Str, rest: Str)
    ensures "<?" + target + " " + content + "?>" + rest == "<?" + (target + " " + content + "?>" + rest)
    ensures target + " " + content == target + (" " + content)
    ensures SkipSpace(" " + content) == SkipSpace(content)
  {
    Printed5("<?", target, " ", content, "?>", rest);
    Assoc(target, " ", content);
    assert (" " + content)[1..] == content;
  }

  lemma ReadInstruction(o: Open, target: Str, content: Str, rest: Str)
    requires PIOk(target, content) && target != []
    ensures ReadFrom(o, "<?" + target + " " + content + "?>" + rest) ==
            ReadFrom(WithKids(o, o.kids + [XPI(target, SkipSpace(content))]), rest)
  {
    hide ReadFrom, ReadPI, ValidName, SkipSpace, Contains, IsXml;
    var body := target + " " + content;
    var s := "<?" + (body + "?>" + rest);
    PIPieces(target, content, rest);
    PIReadsIff(target, content, rest);
    assert s[2..] == body + "?>" + rest && s[..2] == "<?";
    assert |s| >= 4 ==> s[..4][1] == '?';
    assert |s| >= 9 ==> s[..9][1] == '?';
    ReadNode(o, s, XPI(target, SkipSpace(content)), rest);
  }

  // ---------------------------------------------------------------- elements

  lemma TagStart(name: Str, more: Str)
    requires ValidName(name) && name != []
    ensures var s := "<" + (name + more);
      s[1..] == name + more && !StartsWith(s, "<!--") && !StartsWith(s, "<![CDATA[") && !StartsWith(s, "<?") &&
        !StartsWith(s, "</")
  {
    hide ValidName, NameByte, XmlName;
    var s := "<" + (name + more);
    NameReads(name, []);
    Delimiters(name[0]);
    assert s[1] == name[0];
    assert s[..2][1] == s[1];
    assert |s| >= 4 ==> s[..4][1] == s[1];
    assert |s| >= 9 ==> s[..9][1] == s[1];
  }

  /** What follows the name in a tag does not belong to it. */
  lemma AfterName(atts: seq<Att>, empty: bool, rest: Str)
    ensures var more := AttsBytes(atts) + ((if empty then "/>" else ">") + rest);
      more != [] && !NameByte(more[0])
  {
    hide NameByte, AttBytes;
    EqualsEnds();
    if atts != [] {
      hide AttsBytes;
      AttsFirst(atts);
      AttBytesSpace(atts[0]);
    }
  }

  lemma AttBytesSpace(a: Att)
    ensures AttBytes(a.name, a.value) != [] && AttBytes(a.name, a.value)[0] == ' '
  {
  }

  /** The start tag of a named element with accepted attributes: a reader takes it as a whole if and only if every
      attribute has a name and no two have the same, and otherwise stops. */
  lemma StartTagReadsIff(name: Str, atts: seq<Att>, empty: bool, rest: Str)
    requires ValidName(name) && name != [] && NamesOk(atts)
    ensures var s := "<" + (name + (AttsBytes(atts) + ((if empty then "/>" else ">") + rest)));
      NextToken(s) ==
        if AllNamed(atts) && DistinctAtts(atts) then Some(Lexed(TStart(name, SaneAtts(atts), empty), rest)) else None
  {
    hide ValidName, XmlName, ReadAtts, NameByte, AttsBytes, StartsWith, AllNamed, NamesOk;
    var more := AttsBytes(atts) + ((if empty then "/>" else ">") + rest);
    TagStart(name, more);
    AfterName(atts, empty, rest);
    NameReads(name, more);
    AttsRead(atts, empty, rest);
    SaneNames(atts);
  }

  lemma {:induction false} SaneNames(atts: seq<Att>)
    ensures |SaneAtts(atts)| == |atts| && forall i | 0 <= i < |atts| :: SaneAtts(atts)[i].name == atts[i].name
  {
    if atts != [] {
      SaneNames(atts[1..]);
    }
  }

  /** Attributes that are accepted and that no reader takes: one without a name, and two with the same. */
  lemma RefusedAttributes(v: Str, w: Str, rest: Str)
    ensures var atts := [Att([], v)];
      NamesOk(atts) && NextToken("<" + ("a" + (AttsBytes(atts) + ("/>" + rest)))).None?
    ensures var atts := [Att("b", v), Att("b", w)];
      NamesOk(atts) && NextToken("<" + ("a" + (AttsBytes(atts) + ("/>" + rest)))).None?
  {
    hide ValidName, NextToken, AttsBytes;
    NoName();
    LowerCaseName("a");
    LowerCaseName("b");
    var one, two := [Att([], v)], [Att("b", v), Att("b", w)];
    assert one[0] in one && two[0].name == two[1].name;
    StartTagReadsIff("a", one, true, rest);
    StartTagReadsIff("a", two, true, rest);
  }

  lemma EndTagReads(name: Str, rest: Str)
    requires ValidName(name) && name != []
    ensures NextToken("</" + (name + (">" + rest))) == Some(Lexed(TEnd(name), rest))
  {
    hide ValidName, XmlName, NameByte, NameLength;
    EqualsEnds();
    NameReads(name, ">" + rest);
    var s := "</" + (name + (">" + rest));
    assert s[2..] == name + (">" + rest) && s[..2] == "</";
    assert |s| >= 4 ==> s[..4][1] == '/';
    assert |s| >= 9 ==> s[..9][1] == '/';
    assert (">" + rest)[..1] == ">" && (">" + rest)[1..] == rest;
  }

  lemma ReadStart(o: Open, s: Str, name: Str, atts: seq<Att>, empty: bool, rest: Str)
    requires s != [] && NextToken(s) == Some(Lexed(TStart(name, atts, empty), rest))
    ensures ReadFrom(o, s) ==
      ReadFrom(if empty then WithKids(o, o.kids + [XElem(name, atts, [])]) else Inside(o, name, atts, []), rest)
  {
    hide NextToken;
  }
}
