/** A parser for content specifications, productions [46] to [51] of XML 1.0, and what it makes of printed
    ones. */
module ContentParser {
  import opened Bytes
  import opened Utf8
  import opened Check
  import opened Reader
  import opened ReaderProofs
  import opened ContentModel

  /** What a content particle ([48]) stands for. */
  predicate Particle(m: Model) {
    match m.typ
    case Name => XmlName(m.name) && m.children == []
    case Seq => m.name == [] && |m.children| >= 1 && forall c | c in m.children :: Particle(c)
    case Choice => m.name == [] && |m.children| >= 2 && forall c | c in m.children :: Particle(c)
    case _ => false
  }

  /** A name inside mixed content ([51]). */
  predicate MixedName(m: Model) {
    m.typ.Name? && m.quant.One? && XmlName(m.name) && m.children == []
  }

  /** What a content specification ([46]) stands for: choices of at least two, sequences of at least one,
      mixed content only at the root, over names without a quantifier, and with a star unless there are none. */
  predicate Specification(m: Model) {
    match m.typ
    case EmptyModel => m.quant.One? && m.name == [] && m.children == []
    case AnyModel => m.quant.One? && m.name == [] && m.children == []
    case Mixed => m.name == [] && (forall c | c in m.children :: MixedName(c)) &&
      (m.quant.Rep? || (m.quant.One? && m.children == []))
    case Name => false
    case _ => Particle(m)
  }

  // ---------------------------------------------------------------- parsing

  datatype Quantified = Quantified(quant: Quant, rest: Str)

  function ReadQuant(s: Str): (q: Quantified)
    ensures |q.rest| <= |s|
  {
    if StartsWith(s, "?") then Quantified(Opt, s[1..])
    else if StartsWith(s, "*") then Quantified(Rep, s[1..])
    else if StartsWith(s, "+") then Quantified(Plus, s[1..])
    else Quantified(One, s)
  }

  datatype Parsed = Parsed(model: Model, rest: Str)

  datatype ParsedList = ParsedList(models: seq<Model>, rest: Str)

  /** Name, choice or seq, with a quantifier. */
  function ReadCp(s: Str): (r: Option<Parsed>)
    ensures r.Some? ==> |r.value.rest| < |s| && Particle(r.value.model)
    ensures r.Some? && StartsWith(s, "(") ==> !r.value.model.typ.Name?
    decreases |s|, 1
  {
    if StartsWith(s, "(") then
      match ReadGroup(s[1..])
      case None => None
      case Some(g) =>
        var q := ReadQuant(g.rest);
        Some(Parsed(g.model.(quant := q.quant), q.rest))
    else
      var n := NameLength(s);
      if !XmlName(s[..n]) then None
      else
        var q := ReadQuant(s[n..]);
        Some(Parsed(Model(Name, q.quant, s[..n], []), q.rest))
  }

  /** The rest of a choice or a seq, after its '('. */
  function ReadGroup(s: Str): (r: Option<Parsed>)
    ensures r.Some? ==> |r.value.rest| < |s| && Particle(r.value.model) && !r.value.model.typ.Name?
    decreases |s|, 2
  {
    match ReadCp(SkipSpace(s))
    case None => None
    case Some(first) =>
      var t := SkipSpace(first.rest);
      if t == [] || t[0] !in "|,)" then None
      else if t[0] == ')' then Some(Parsed(Model(Seq, One, [], [first.model]), t[1..]))
      else
        match ReadMore(t[0], t)
        case None => None
        case Some(more) =>
          if more.models == [] then None
          else
            Some(Parsed(Model(if t[0] == '|' then Choice else Seq, One, [], [first.model] + more.models), more.rest))
  }

  /** Particles, each after a separator, and ')'. */
  function ReadMore(sep: byte, s: Str): (r: Option<ParsedList>)
    ensures r.Some? ==> |r.value.rest| < |s| && forall c | c in r.value.models :: Particle(c)
    decreases |s|, 0
  {
    if s == [] then None
    else if s[0] == ')' then Some(ParsedList([], s[1..]))
    else if s[0] != sep then None
    else
      match ReadCp(SkipSpace(s[1..]))
      case None => None
      case Some(first) =>
        match ReadMore(sep, SkipSpace(first.rest))
        case None => None
        case Some(more) => Some(ParsedList([first.model] + more.models, more.rest))
  }

  /** Names, each after a '|', and ')'. */
  function ReadNames(s: Str): (r: Option<ParsedList>)
    ensures r.Some? ==> |r.value.rest| < |s| && forall c | c in r.value.models :: MixedName(c)
    decreases |s|
  {
    if s == [] then None
    else if s[0] == ')' then Some(ParsedList([], s[1..]))
    else if s[0] != '|' then None
    else
      var t := SkipSpace(s[1..]);
      var n := NameLength(t);
      if !XmlName(t[..n]) then None
      else
        match ReadNames(SkipSpace(t[n..]))
        case None => None
        case Some(more) => Some(ParsedList([Model(Name, One, t[..n], [])] + more.models, more.rest))
  }

  /** Mixed content, after "#PCDATA". */
  function ReadMixed(s: Str): (r: Option<Model>)
    ensures r.Some? ==> Specification(r.value)
  {
    match ReadNames(SkipSpace(s))
    case None => None
    case Some(names) =>
      if names.rest == "*" then Some(Model(Mixed, Rep, [], names.models))
      else if names.rest == [] && names.models == [] then Some(Model(Mixed, One, [], []))
      else None
  }

  /** A whole content specification. */
  function ReadSpec(s: Str): (r: Option<Model>)
    ensures r.Some? ==> Specification(r.value)
  {
    if s == "EMPTY" then Some(Model(EmptyModel, One, [], []))
    else if s == "ANY" then Some(Model(AnyModel, One, [], []))
    else if !StartsWith(s, "(") then None
    else if StartsWith(SkipSpace(s[1..]), "#PCDATA") then ReadMixed(SkipSpace(s[1..])[7..])
    else
      match ReadCp(s)
      case None => None
      case Some(p) => if p.rest == [] then Some(p.model) else None
  }

  // ---------------------------------------------------------------- parsing what was printed

  lemma XmlNameEnds(name: Str, rest: Str)
    requires XmlName(name) && (rest != [] ==> !NameByte(rest[0]))
    ensures NameLength(name + rest) == |name|
    ensures (name + rest)[..|name|] == name && (name + rest)[|name|..] == rest
    ensures name != [] && NameByte(name[0])
  {
    hide DecodeRune, AllRunes, NameStartChar;
    forall i | 0 <= i < |name| ensures NameByte(name[i]) {
      if (name[i] as int) < 0x80 {
        AsciiIsRune(name, i);
        AllRunesHolds(name, NameChar);
        AsciiNameChar(name[i] as int);
      }
    }
    NameStopsAt(name, rest);
  }

  lemma AsciiNameChar(r: int)
    requires 0 <= r < 0x80 && NameChar(r)
    ensures InName(r)
  {
  }

  /** What can follow a particle in a list. */
  predicate Stops(rest: Str) {
    rest == [] || rest[0] == '|' || rest[0] == ',' || rest[0] == ')'
  }

  lemma PunctuationEnds(b: byte)
    requires b in "|,)?*+"
    ensures !NameByte(b)
  {
  }

  lemma QuantReads(q: Quant, rest: Str)
    requires Stops(rest)
    ensures ReadQuant(QuantBytes(q) + rest) == Quantified(q, rest)
    ensures var s := QuantBytes(q) + rest; s != [] ==> s[0] in "|,)?*+"
  {
    var s := QuantBytes(q) + rest;
    if q.One? {
      assert s == rest;
      assert rest != [] ==> rest[..1] == [rest[0]];
    } else {
      assert s[..1] == QuantBytes(q) && s[1..] == rest;
    }
  }

  /** The first byte of a printed particle. */
  lemma ItemStarts(m: Model, rest: Str)
    requires Particle(m)
    ensures var s := ItemBytes(m) + rest;
      s != [] && SkipSpace(s) == s && s[0] != '#' && (StartsWith(s, "(") <==> !m.typ.Name?)
  {
    hide XmlName, NameByte, ListBytes, QuantBytes;
    var s := ItemBytes(m) + rest;
    if m.typ.Name? {
      XmlNameEnds(m.name, []);
      Delimiters(m.name[0]);
      NotParen(m.name[0]);
      assert s[0] == m.name[0];
      assert s[..1] == [s[0]];
    } else {
      assert GroupBytes(m)[0] == '(';
      assert s[..1] == "(";
    }
  }

  lemma NotParen(b: byte)
    requires NameByte(b)
    ensures b != '(' && b != '#'
  {
  }

  /** What follows a particle in a list. */
  lemma ListStops(ms: seq<Model>, sep: byte, rest: Str)
    requires sep == '|' || sep == ','
    ensures var s := ListBytes(ms, [sep], false) + (")" + rest);
      s != [] && Stops(s) && SkipSpace(s) == s && s[0] == (if ms == [] then ')' else sep)
  {
    hide ItemBytes;
  }

  lemma NameItemReads(m: Model, rest: Str)
    requires Particle(m) && m.typ.Name? && Stops(rest)
    ensures ReadCp(ItemBytes(m) + rest) == Some(Parsed(m, rest))
  {
    hide XmlName, NameByte, NameLength, ReadGroup, ReadQuant, QuantBytes, Stops;
    var tail := QuantBytes(m.quant) + rest;
    QuantReads(m.quant, rest);
    if tail != [] {
      PunctuationEnds(tail[0]);
    }
    XmlNameEnds(m.name, tail);
    Assoc(m.name, QuantBytes(m.quant), rest);
    ItemStarts(m, rest);
  }

  lemma {:induction false} ItemReads(m: Model, rest: Str)
    requires Particle(m) && Stops(rest)
    ensures ReadCp(ItemBytes(m) + rest) == Some(Parsed(m, rest))
    decreases m, 1
  {
    hide ReadGroup, ReadQuant, QuantBytes, Stops, GroupBytes;
    if m.typ.Name? {
      NameItemReads(m, rest);
    } else {
      var tail := QuantBytes(m.quant) + rest;
      var list := ListBytes(m.children, Separator(m), true);
      QuantReads(m.quant, rest);
      GroupText(m, tail);
      Assoc(GroupBytes(m), QuantBytes(m.quant), rest);
      var s := ItemBytes(m) + rest;
      assert s == "(" + (list + (")" + tail));
      assert s[1..] == list + (")" + tail) && s[..1] == "(";
      GroupReads(m, tail);
      assert m.(quant := One).(quant := m.quant) == m;
    }
  }

  lemma GroupText(m: Model, tail: Str)
    requires m.typ.Choice? || m.typ.Seq?
    ensures GroupBytes(m) + tail == "(" + (ListBytes(m.children, Separator(m), true) + (")" + tail))
  {
    hide ListBytes;
    var list := ListBytes(m.children, Separator(m), true);
    assert GroupBytes(m) == "(" + [] + list + ")";
    assert "(" + [] == "(";
    Assoc("(" + list, ")", tail);
    Assoc("(", list, ")" + tail);
  }

  lemma FirstItem(ms: seq<Model>, sep: Str, tail: Str)
    requires ms != []
    ensures ListBytes(ms, sep, true) + tail == ItemBytes(ms[0]) + (ListBytes(ms[1..], sep, false) + tail)
    ensures ListBytes(ms, sep, false) + tail == sep + (ItemBytes(ms[0]) + (ListBytes(ms[1..], sep, false) + tail))
  {
    hide ItemBytes;
    var more := ListBytes(ms[1..], sep, false);
    assert [] + ItemBytes(ms[0]) == ItemBytes(ms[0]);
    Assoc(ItemBytes(ms[0]), more, tail);
    Assoc(sep + ItemBytes(ms[0]), more, tail);
    Assoc(sep, ItemBytes(ms[0]), more + tail);
  }

  lemma {:induction false} GroupReads(m: Model, tail: Str)
    requires Particle(m) && !m.typ.Name?
    ensures ReadGroup(ListBytes(m.children, Separator(m), true) + (")" + tail)) == Some(Parsed(m.(quant := One), tail))
    decreases m, 0
  {
    hide ReadCp, ReadMore, SkipSpace, ItemBytes, ListBytes;
    var sep := Separator(m)[0];
    var cs := m.children;
    var more := ListBytes(cs[1..], [sep], false) + (")" + tail);
    assert [sep] == Separator(m) && cs[0] in cs;
    FirstItem(cs, [sep], ")" + tail);
    ItemStarts(cs[0], more);
    ListStops(cs[1..], sep, tail);
    ItemReads(cs[0], more);
    if |cs| == 1 {
      assert cs == [cs[0]];
      assert ListBytes([], [sep], false) == [] by { NoMore([sep]); }
      assert more == ")" + tail && more[1..] == tail;
    } else {
      MoreReads(cs[1..], sep, tail);
      assert [cs[0]] + cs[1..] == cs;
    }
  }

  lemma NoMore(sep: Str)
    ensures ListBytes([], sep, false) == []
  {
  }

  lemma {:induction false} MoreReads(ms: seq<Model>, sep: byte, tail: Str)
    requires (sep == '|' || sep == ',') && forall m | m in ms :: Particle(m)
    ensures ReadMore(sep, ListBytes(ms, [sep], false) + (")" + tail)) == Some(ParsedList(ms, tail))
    decreases ms
  {
    hide ReadCp, SkipSpace, ItemBytes, Particle;
    var s := ListBytes(ms, [sep], false) + (")" + tail);
    if ms == [] {
      assert s == ")" + tail && s[1..] == tail;
    } else {
      hide ListBytes;
      var more := ListBytes(ms[1..], [sep], false) + (")" + tail);
      assert ms[0] in ms && forall m | m in ms[1..] :: m in ms;
      FirstItem(ms, [sep], ")" + tail);
      assert s[1..] == ItemBytes(ms[0]) + more && s[0] == sep;
      ItemStarts(ms[0], more);
      ListStops(ms[1..], sep, tail);
      ItemReads(ms[0], more);
      MoreReads(ms[1..], sep, tail);
      assert [ms[0]] + ms[1..] == ms;
    }
  }

  lemma {:induction false} NamesRead(ms: seq<Model>, tail: Str)
    requires forall m | m in ms :: MixedName(m)
    ensures ReadNames(ListBytes(ms, "|", false) + (")" + tail)) == Some(ParsedList(ms, tail))
    decreases ms
  {
    hide XmlName, NameByte, NameLength, SkipSpace;
    var s := ListBytes(ms, "|", false) + (")" + tail);
    if ms == [] {
      assert s == ")" + tail && s[1..] == tail;
    } else {
      hide ListBytes;
      var more := ListBytes(ms[1..], "|", false) + (")" + tail);
      var m := ms[0];
      assert m in ms && forall n | n in ms[1..] :: n in ms;
      FirstItem(ms, "|", ")" + tail);
      assert ItemBytes(m) == m.name;
      assert s[1..] == m.name + more && s[0] == '|';
      ListStops(ms[1..], '|', tail);
      PunctuationEnds(more[0]);
      XmlNameEnds(m.name, more);
      MixedStarts(m, more);
      NamesRead(ms[1..], tail);
      assert m == Model(Name, One, m.name, []);
      assert [ms[0]] + ms[1..] == ms;
    }
  }

  lemma MixedStarts(m: Model, more: Str)
    requires MixedName(m)
    ensures SkipSpace(m.name + more) == m.name + more
  {
    hide XmlName, NameByte;
    XmlNameEnds(m.name, []);
    Delimiters(m.name[0]);
  }

  lemma MixedText(m: Model)
    requires m.typ.Mixed?
    ensures GroupBytes(m) + QuantBytes(m.quant) ==
      "(" + ("#PCDATA" + (ListBytes(m.children, "|", false) + (")" + QuantBytes(m.quant))))
  {
    hide ListBytes, QuantBytes;
    var list, q := ListBytes(m.children, "|", false), QuantBytes(m.quant);
    Assoc("(" + "#PCDATA" + list, ")", q);
    Assoc("(" + "#PCDATA", list, ")" + q);
    Assoc("(", "#PCDATA", list + (")" + q));
  }

  lemma {:induction false} MixedReads(m: Model)
    requires Specification(m) && m.typ.Mixed?
    ensures ReadSpec(DeclBytes(m)) == Some(m)
  {
    hide ReadNames, ReadCp, ListBytes, GroupBytes;
    var list := ListBytes(m.children, "|", false) + (")" + QuantBytes(m.quant));
    var s := DeclBytes(m);
    MixedText(m);
    assert s == "(" + ("#PCDATA" + list);
    assert s[1..] == "#PCDATA" + list && s[..1] == "(" && s[0] == '(';
    assert s[1..][..7] == "#PCDATA" && s[1..][7..] == list;
    ListStops(m.children, '|', QuantBytes(m.quant));
    NamesRead(m.children, QuantBytes(m.quant));
  }

  lemma {:induction false} ParticleReads(m: Model)
    requires Particle(m) && !m.typ.Name?
    ensures ReadSpec(DeclBytes(m)) == Some(m)
  {
    hide ReadCp, ReadMixed, ItemBytes, ListBytes;
    var s := DeclBytes(m);
    var list := ListBytes(m.children, Separator(m), true) + (")" + QuantBytes(m.quant));
    GroupText(m, QuantBytes(m.quant));
    assert s == "(" + list && s[1..] == list && s[..1] == "(" && s[0] == '(';
    FirstItem(m.children, Separator(m), ")" + QuantBytes(m.quant));
    var more := ListBytes(m.children[1..], Separator(m), false) + (")" + QuantBytes(m.quant));
    assert m.children[0] in m.children;
    ItemStarts(m.children[0], more);
    assert list == ItemBytes(m.children[0]) + more;
    assert |list| >= 7 ==> list[..7][0] == list[0];
    GroupItem(m);
    ItemReads(m, []);
    assert ItemBytes(m) + [] == ItemBytes(m);
  }

  lemma {:induction false} GroupItem(m: Model)
    requires Particle(m) && !m.typ.Name?
    ensures DeclBytes(m) == ItemBytes(m)
  {
    hide GroupBytes, QuantBytes;
  }

  /** Reading back a printed element declaration gives the model it was printed from, quantifiers and all,
      exactly when the model is one that productions [46] to [51] can express. */
  lemma {:induction false} ModelReadsIff(m: Model)
    requires Declarable(m)
    ensures ReadSpec(DeclBytes(m)) == Some(m) <==> Specification(m)
  {
    hide ReadSpec, DeclBytes, Particle, Printable;
    if Specification(m) {
      if m.typ.Mixed? {
        MixedReads(m);
      } else if m.typ.Choice? || m.typ.Seq? {
        ParticleReads(m);
      } else {
        WordReads(m);
      }
    }
  }

  lemma {:induction false} WordReads(m: Model)
    requires Specification(m) && (m.typ.EmptyModel? || m.typ.AnyModel?)
    ensures ReadSpec(DeclBytes(m)) == Some(m)
  {
  }
}
