/** A reader gets a document type declaration back from its text, with everything that is declared in it. */
module DoctypeReads {
  import opened Bytes
  import opened Check
  import opened Escape
  import opened Printer
  import opened Nodes
  import opened Document
  import opened Leaves
  import opened Reader
  import opened ReaderProofs
  import opened TreeReads
  import opened Exact
  import opened Literals
  import opened Doctype
  import opened Enforced
  import opened RoundTrip

  // ---------------------------------------------------------------- names and white space

  lemma SpaceThen(t: Str)
    requires t != [] && !Escape.Space(t[0])
    ensures AfterSpace(" " + t) == Some(t) && SkipSpace(t) == t
  {
    assert (" " + t)[1..] == t;
  }

  lemma NameFirst(name: Str, more: Str)
    requires ValidName(name) && name != [] && more != [] && !NameByte(more[0])
    ensures ReadName(name + more) == Some(Delimited(name, more))
    ensures AfterSpace(" " + (name + more)) == Some(name + more)
  {
    hide ValidName, NameByte, XmlName, NameLength, AfterSpace;
    NameReads(name, more);
    Delimiters(name[0]);
    assert (name + more)[0] == name[0];
    SpaceThen(name + more);
  }

  lemma NamedFirst(name: Str, more: Str)
    requires ValidName(name) && name != []
    ensures ReadNamed(" " + (name + (" " + more))) == Some(Delimited(name, SkipSpace(more)))
  {
    hide ValidName, NameByte, ReadName;
    EqualsEnds();
    NameFirst(name, " " + more);
    assert (" " + more)[1..] == more;
  }

  lemma Closes<T>(value: T, rest: Str)
    ensures Close(value, ">" + rest) == Some(Read(value, rest))
  {
    assert (">" + rest)[..1] == ">" && (">" + rest)[1..] == rest;
  }

  // ---------------------------------------------------------------- element declarations

  /** A content specification that ends where it should. */
  predicate SpecClear(spec: Str) {
    '>' !in spec && spec != [] && !Escape.Space(spec[0])
  }

  lemma {:induction false} SkipStops(s: Str)
    ensures SkipSpace(s) != [] ==> !Escape.Space(SkipSpace(s)[0])
  {
    if s != [] && Escape.Space(s[0]) {
      SkipStops(s[1..]);
    }
  }

  lemma UpToSplits(s: Str, end: byte)
    ensures var d := ReadTo(s, [end]); d.Some? ==> end !in d.value.body && d.value.body <= s
  {
    var k := Find(s, [end]);
    forall i | 0 <= i < k ensures s[i] != end {
      assert !At(s, [end], i);
      assert s[i..i + 1] == [s[i]];
    }
  }

  /** An element declaration is read back if and only if its specification is clear. */
  lemma ElementReads(name: Str, spec: Str, rest: Str)
    requires ValidName(name) && name != []
    ensures var d := ReadElement(" " + (name + (" " + (spec + [('>')] + rest))));
      && (SpecClear(spec) ==> d == Some(Read(XElement(name, spec), rest)))
      && (!SpecClear(spec) && d.Some? ==> d.value.value != XElement(name, spec))
  {
    hide ValidName, ReadTo, SkipSpace, ReadNamed;
    var more := spec + ['>'] + rest;
    NamedFirst(name, more);
    UpToSplits(SkipSpace(more), '>');
    SkipStops(more);
    if SpecClear(spec) {
      QuotedReads(spec, '>', rest);
      assert more[0] == spec[0];
      SpaceThen(more);
    }
  }

  // ---------------------------------------------------------------- attribute lists

  /** Attribute types that a reader can tell from what is around them. */
  predicate TypeClear(typ: Str) {
    typ != [] && !Escape.Space(typ[0]) && forall b | b in typ :: !EndsType(b)
  }

  lemma {:induction false} TypeStops(typ: Str, more: Str)
    requires (forall b | b in typ :: !EndsType(b)) && more != [] && EndsType(more[0])
    ensures TypeLength(typ + more) == |typ|
  {
    hide EndsType;
    if typ == [] {
      assert typ + more == more;
    } else {
      assert typ[0] in typ && forall b | b in typ[1..] :: b in typ;
      assert (typ + more)[1..] == typ[1..] + more;
      TypeStops(typ[1..], more);
    }
  }

  lemma ValueReadsBack(value: Str, more: Str)
    ensures ReadValue("\"" + EscapeAttr(value) + "\"" + more) == Some(Read(Sanitise(value), more))
  {
    hide ReadLiteral, AttValue, EscapeAttr, Sanitise;
    ValueReads(value);
    assert "\"" == ['"'];
    QuotedReadsIff(EscapeAttr(value), '"', more);
  }

  lemma DefaultStarts(d: AttDecl, more: Str)
    requires LeafFinishes(DTDAttr(d), true)
    ensures DefaultBytes(d) != [] && EndsType(DefaultBytes(d)[0]) && !Escape.Space(DefaultBytes(d)[0])
    ensures (DefaultBytes(d) + more)[0] == DefaultBytes(d)[0]
  {
    hide EscapeAttr;
  }

  lemma FixedReads(value: Str, more: Str)
    ensures ReadDefault("#FIXED \"" + EscapeAttr(value) + "\"" + more) == Some(Read(XFixed(Sanitise(value)), more))
  {
    hide ReadValue, EscapeAttr, Sanitise;
    var q := "\"" + EscapeAttr(value) + "\"" + more;
    var s := "#FIXED \"" + EscapeAttr(value) + "\"" + more;
    assert s == "#FIXED" + (" " + q);
    assert s[..6] == "#FIXED" && s[6..] == " " + q;
    assert |s| >= 9 ==> s[..9][1] == 'F';
    assert |s| >= 8 ==> s[..8][1] == 'F';
    assert "#REQUIRED"[1] == 'R' && "#IMPLIED"[1] == 'I';
    SpaceThen(q);
    ValueReadsBack(value, more);
  }

  lemma PlainReads(value: Str, more: Str)
    ensures ReadDefault("\"" + EscapeAttr(value) + "\"" + more) == Some(Read(XValue(Sanitise(value)), more))
  {
    hide ReadValue, EscapeAttr, Sanitise;
    var s := "\"" + EscapeAttr(value) + "\"" + more;
    assert s[0] == '"';
    assert |s| >= 9 ==> s[..9][0] == '"';
    assert |s| >= 8 ==> s[..8][0] == '"';
    assert |s| >= 6 ==> s[..6][0] == '"';
    ValueReadsBack(value, more);
  }

  lemma WordReads(more: Str)
    ensures ReadDefault("#REQUIRED" + more) == Some(Read(XRequired, more))
    ensures ReadDefault("#IMPLIED" + more) == Some(Read(XImplied, more))
  {
    var s, t := "#REQUIRED" + more, "#IMPLIED" + more;
    assert s[..9] == "#REQUIRED" && s[9..] == more;
    assert t[..8] == "#IMPLIED" && t[8..] == more;
    assert |t| >= 9 ==> t[..9][1] == 'I';
    assert "#REQUIRED"[1] == 'R';
  }

  lemma DefaultReads(d: AttDecl, more: Str)
    requires LeafFinishes(DTDAttr(d), true)
    ensures ReadDefault(DefaultBytes(d) + more) == Some(Read(DefOf(d).dflt, more))
  {
    hide ReadDefault, EscapeAttr, Sanitise;
    FixedReads(d.value, more);
    PlainReads(d.value, more);
    WordReads(more);
  }

  lemma AttDefPieces(d: AttDecl, more: Str)
    ensures LeafBytes(DTDAttr(d)) + more == " " + (d.name + (" " + (d.typ + " " + (DefaultBytes(d) + more))))
  {
    hide DefaultBytes;
    var dflt := DefaultBytes(d);
    Assoc(" " + d.name + " " + d.typ + " ", dflt, more);
    Assoc(" " + d.name + " " + d.typ, " ", dflt + more);
    Assoc(" " + d.name + " ", d.typ, " " + (dflt + more));
    Assoc(d.typ, " ", dflt + more);
    Assoc(" " + d.name, " ", d.typ + (" " + (dflt + more)));
    Assoc(" ", d.name, " " + (d.typ + (" " + (dflt + more))));
  }

  lemma TypeReads(d: AttDecl, more: Str)
    requires LeafFinishes(DTDAttr(d), true) && TypeClear(d.typ)
    ensures var t := d.typ + " " + (DefaultBytes(d) + more);
      && TypeLength(t) == |d.typ| + 1 && t[|d.typ|] == ' ' && t[..|d.typ|] == d.typ
      && t[|d.typ| + 1..] == DefaultBytes(d) + more && t != [] && !Escape.Space(t[0])
  {
    hide DefaultBytes, TypeLength, EndsType;
    DefaultStarts(d, more);
    assert !EndsType(' ') by { SpaceEndsNoType(); }
    var t := d.typ + " " + (DefaultBytes(d) + more);
    assert forall b | b in d.typ + " " :: b in d.typ || b == ' ';
    TypeStops(d.typ + " ", DefaultBytes(d) + more);
    assert t[0] == d.typ[0];
  }

  lemma SpaceEndsNoType()
    ensures !EndsType(' ')
  {
  }

  lemma TypeIsClear(s: Str, k: nat)
    requires 2 <= k <= TypeLength(s) && !Escape.Space(s[0])
    ensures TypeClear(s[..k - 1])
  {
    hide EndsType;
    assert s[..k - 1][0] == s[0];
  }

  /** An attribute declaration is read back, with its default, if and only if its type is clear. */
  lemma AttDefReads(d: AttDecl, more: Str)
    requires LeafOk(DTDAttr(d), true)
    ensures var t := d.name + (" " + (d.typ + " " + (DefaultBytes(d) + more)));
      && (TypeClear(d.typ) ==> ReadAttDef(t) == Some(Read(DefOf(d), more)))
      && (!TypeClear(d.typ) && ReadAttDef(t).Some? ==> ReadAttDef(t).value.value != DefOf(d))
  {
    hide ValidName, NameByte, ReadName, ReadDefault, DefaultBytes, TypeLength, TypeClear, SkipSpace, LeafFinishes;
    var u := d.typ + " " + (DefaultBytes(d) + more);
    EqualsEnds();
    NameFirst(d.name, " " + u);
    assert (" " + u)[1..] == u;
    if TypeClear(d.typ) {
      TypeReads(d, more);
      SpaceThen(u);
      DefaultReads(d, more);
    } else {
      var t := SkipSpace(u);
      var k := TypeLength(t);
      SkipStops(u);
      if k >= 2 {
        TypeIsClear(t, k);
      }
    }
  }

  predicate DefsClear(kids: seq<Tree>)
    requires AttDefs(kids)
  {
    forall k | k in kids :: TypeClear(k.leaf.att.typ)
  }

  lemma AttDefSpace(d: AttDecl, more: Str)
    requires LeafOk(DTDAttr(d), true)
    ensures var s := LeafBytes(DTDAttr(d)) + more;
      SkipSpace(s) == s[1..] && !StartsWith(s[1..], ">") &&
      s[1..] == d.name + (" " + (d.typ + " " + (DefaultBytes(d) + more)))
  {
    hide ValidName, NameByte, DefaultBytes, LeafFinishes, LeafBytes;
    AttDefPieces(d, more);
    var t := d.name + (" " + (d.typ + " " + (DefaultBytes(d) + more)));
    NameReads(d.name, []);
    Delimiters(d.name[0]);
    assert t[0] == d.name[0];
    SpaceThen(t);
    assert (" " + t)[1..] == t;
    assert t[..1][0] == t[0];
  }

  lemma {:induction false} AttDefsRead(kids: seq<Tree>, rest: Str)
    requires AttDefs(kids)
    ensures var d := ReadAttDefs(RenderAll(kids) + (">" + rest));
      && (DefsClear(kids) ==> d == Some(Read(DefsOf(kids), rest)))
      && (!DefsClear(kids) && d.Some? ==> d.value.value != DefsOf(kids))
    decreases kids
  {
    hide LeafBytes, DefOf, ReadAttDef, TypeClear, SkipSpace, StartsWith, LeafOk;
    if kids == [] {
      assert RenderAll(kids) + (">" + rest) == ">" + rest;
      ListEnds(rest);
    } else {
      hide RenderAll;
      var d := kids[0].leaf.att;
      var more := RenderAll(kids[1..]) + (">" + rest);
      assert kids[0] in kids && forall k | k in kids[1..] :: k in kids;
      assert forall k | k in kids :: k == kids[0] || k in kids[1..];
      RenderFirst(kids);
      LeafText(kids[0]);
      assert kids[0].leaf == DTDAttr(d);
      Assoc(LeafBytes(DTDAttr(d)), RenderAll(kids[1..]), ">" + rest);
      AttDefSpace(d, more);
      AttDefReads(d, more);
      AttDefsRead(kids[1..], rest);
      var first := ReadAttDef((LeafBytes(DTDAttr(d)) + more)[1..]);
      if first.Some? && ReadAttDefs(first.value.rest).Some? {
        HeadAndTail(first.value.value, ReadAttDefs(first.value.rest).value.value, DefOf(d), DefsOf(kids[1..]));
      }
    }
  }

  lemma HeadAndTail<T>(x: T, xs: seq<T>, y: T, ys: seq<T>)
    ensures [x] + xs == [y] + ys <==> x == y && xs == ys
  {
    if [x] + xs == [y] + ys {
      assert ([x] + xs)[0] == x && ([y] + ys)[0] == y && ([x] + xs)[1..] == xs && ([y] + ys)[1..] == ys;
    }
  }

  lemma ListEnds(rest: Str)
    ensures SkipSpace(">" + rest) == ">" + rest && StartsWith(">" + rest, ">") && (">" + rest)[1..] == rest
  {
    assert (">" + rest)[..1] == ">";
  }

  /** An attribute list is read back if and only if all types in it are clear. */
  lemma AttListReads(name: Str, kids: seq<Tree>, rest: Str)
    requires ValidName(name) && name != [] && AttDefs(kids)
    ensures var d := ReadAttList(" " + (name + (RenderAll(kids) + (">" + rest))));
      && (DefsClear(kids) ==> d == Some(Read(XAttList(name, DefsOf(kids)), rest)))
      && (!DefsClear(kids) && d.Some? ==> d.value.value != XAttList(name, DefsOf(kids)))
  {
    hide ValidName, NameByte, ReadName, AfterSpace, ReadAttDefs, RenderAll, DefsClear, DefsOf, AttDefs;
    var more := RenderAll(kids) + (">" + rest);
    DefsStart(kids, rest);
    NameFirst(name, more);
    AttDefsRead(kids, rest);
  }

  lemma DefsStart(kids: seq<Tree>, rest: Str)
    requires AttDefs(kids)
    ensures var more := RenderAll(kids) + (">" + rest); more != [] && !NameByte(more[0])
  {
    hide NameByte, LeafBytes, LeafOk;
    EqualsEnds();
    if kids == [] {
      assert RenderAll(kids) + (">" + rest) == ">" + rest;
    } else {
      hide RenderAll;
      var d := kids[0].leaf.att;
      assert kids[0] in kids;
      RenderFirst(kids);
      LeafText(kids[0]);
      assert kids[0].leaf == DTDAttr(d);
      AttDefPieces(d, []);
      assert LeafBytes(DTDAttr(d)) + [] == LeafBytes(DTDAttr(d));
    }
  }

  // ---------------------------------------------------------------- entities and notations

  lemma IdsUnquoted(pub: Str, sys: Str, more: Str)
    requires pub != [] || sys != []
    ensures ReadLiteral(ExternalId(pub, sys) + more).None?
    ensures var s := ExternalId(pub, sys) + more; s != [] && !Escape.Space(s[0])
  {
    hide Literal;
    var s := ExternalId(pub, sys) + more;
    assert s[0] == if pub == [] then 'S' else 'P';
  }

  lemma NoNData(rest: Str)
    ensures ReadNData(">" + rest).None?
  {
  }

  lemma NDataReads(nd: Str, rest: Str)
    requires ValidName(nd) && nd != []
    ensures ReadNData(" NDATA " + nd + (">" + rest)) == Some(Delimited(nd, ">" + rest))
  {
    hide ValidName, NameByte, ReadName;
    var more := nd + (">" + rest);
    var s := " NDATA " + nd + (">" + rest);
    EqualsEnds();
    assert s == " " + ("NDATA" + (" " + more));
    SpaceThen("NDATA" + (" " + more));
    assert ("NDATA" + (" " + more))[..5] == "NDATA" && ("NDATA" + (" " + more))[5..] == " " + more;
    NameFirst(nd, ">" + rest);
  }

  function EntityOf(l: Leaf): XEntity
    requires l.DTDEntity?
  {
    if l.systemID != [] || l.publicID != [] then External(l.publicID, l.systemID, l.ndataID) else Internal(l.content)
  }

  lemma ExternalReads(l: Leaf, rest: Str)
    requires l.DTDEntity? && LeafFinishes(l, true) && (l.systemID != [] || l.publicID != [])
    ensures ReadEntityDef(EntityPart(l) + (">" + rest)) == Some(Read(EntityOf(l), ">" + rest))
  {
    hide ReadLiteral, ReadIds, ExternalId, ExternalIdOk, ValidName, ReadNData;
    var nd: Str := if l.ndataID != [] then " NDATA " + l.ndataID else [];
    var more := nd + (">" + rest);
    Assoc(ExternalId(l.publicID, l.systemID), nd, ">" + rest);
    AcceptedIdsRead(l.publicID, l.systemID, more);
    IdsUnquoted(l.publicID, l.systemID, more);
    assert l.systemID != [] by { SystemThere(l.publicID, l.systemID); }
    if l.ndataID != [] {
      NDataReads(l.ndataID, rest);
    } else {
      assert more == ">" + rest;
      NoNData(rest);
    }
  }

  lemma SystemThere(pub: Str, sys: Str)
    requires ExternalIdOk(pub, sys) && (pub != [] || sys != [])
    ensures sys != []
  {
  }

  lemma InternalReads(l: Leaf, rest: Str)
    requires l.DTDEntity? && LeafFinishes(l, true) && l.systemID == [] && l.publicID == []
    ensures ReadEntityDef(EntityPart(l) + (">" + rest)) == Some(Read(EntityOf(l), ">" + rest))
  {
    hide ReadLiteral, ReadIds, Literal;
    LiteralReadsIff(l.content, ">" + rest);
  }

  lemma TextStarts(l: Leaf, more: Str)
    requires l.DTDEntity?
    ensures var s := EntityPart(l) + more; SkipSpace(s) == s
  {
    hide ExternalId, Literal;
    if l.systemID != [] || l.publicID != [] {
      IdsUnquoted(l.publicID, l.systemID, []);
      assert ExternalId(l.publicID, l.systemID) + [] == ExternalId(l.publicID, l.systemID);
    } else {
      QuoteStarts(l.content);
    }
  }

  lemma QuoteStarts(s: Str)
    ensures Literal(s) != [] && !Escape.Space(Literal(s)[0])
  {
  }

  lemma EntityPieces(l: Leaf, rest: Str)
    requires l.DTDEntity?
    ensures LeafBytes(l) + rest ==
      "<!ENTITY" + ((if l.isPE then " %" else []) + (" " + (l.name + (" " + (EntityPart(l) + (">" + rest))))))
  {
    hide ExternalId, Literal;
    var pe: Str := if l.isPE then "% " else [];
    var text := EntityPart(l);
    Assoc("<!ENTITY " + pe + l.name + " " + text, ">", rest);
    Assoc("<!ENTITY " + pe + l.name + " ", text, ">" + rest);
    Assoc("<!ENTITY " + pe + l.name, " ", text + (">" + rest));
    Assoc("<!ENTITY " + pe, l.name, " " + (text + (">" + rest)));
    var more := l.name + (" " + (text + (">" + rest)));
    assert "<!ENTITY " + pe + more == "<!ENTITY" + ((if l.isPE then " %" else []) + (" " + more));
  }

  lemma EntityDefReads(l: Leaf, rest: Str)
    requires l.DTDEntity? && LeafFinishes(l, true)
    ensures ReadEntityDef(SkipSpace(EntityPart(l) + (">" + rest))) == Some(Read(EntityOf(l), ">" + rest))
  {
    hide ReadEntityDef, EntityPart, LeafFinishes, EntityOf, SkipSpace;
    TextStarts(l, ">" + rest);
    if l.systemID != [] || l.publicID != [] {
      ExternalReads(l, rest);
    } else {
      InternalReads(l, rest);
    }
  }

  /** A parameter entity is told by the percent sign before its name. */
  lemma EntityFront(pe: bool, name: Str, more: Str)
    requires ValidName(name) && name != []
    ensures var named := " " + (name + more);
      var t := AfterSpace((if pe then " %" else []) + named);
      t.Some? && StartsWith(t.value, "%") == pe && (pe ==> t.value[1..] == named)
  {
    hide ValidName, AfterSpace;
    var named := " " + (name + more);
    if pe {
      assert " %" + named == " " + ("%" + named);
      SpaceThen("%" + named);
      assert ("%" + named)[..1] == "%" && ("%" + named)[1..] == named;
    } else {
      assert [] + named == named;
      NoPercent(name, more);
    }
  }

  /** Every accepted entity declaration is read back. */
  lemma EntityReads(l: Leaf, rest: Str)
    requires l.DTDEntity? && LeafOk(l, true)
    ensures ReadEntity((if l.isPE then " %" else []) + (" " + (l.name + (" " + (EntityPart(l) + (">" + rest)))))) ==
      Some(Read(XEntityDecl(l.name, l.isPE, EntityOf(l)), rest))
  {
    hide ValidName, ReadNamed, ReadEntityDef, EntityPart, LeafFinishes, EntityOf, AfterSpace, StartsWith, SkipSpace,
      Close;
    var text := EntityPart(l) + (">" + rest);
    NamedFirst(l.name, text);
    EntityFront(l.isPE, l.name, " " + text);
    EntityDefReads(l, rest);
    Closes(XEntityDecl(l.name, l.isPE, EntityOf(l)), rest);
    var named := " " + (l.name + (" " + text));
    assert [] + named == named;
  }

  lemma NoPercent(name: Str, more: Str)
    requires ValidName(name) && name != []
    ensures AfterSpace(" " + (name + more)) == Some(name + more) && !StartsWith(name + more, "%")
  {
    hide ValidName, NameByte, XmlName, NameLength;
    NameReads(name, []);
    NamePercent(name[0]);
    assert (name + more)[0] == name[0];
    SpaceThen(name + more);
    assert (name + more)[..1][0] == name[0];
  }

  lemma NamePercent(b: byte)
    requires NameByte(b)
    ensures b != '%' && !Escape.Space(b)
  {
  }

  function NotationIds(l: Leaf): Str
    requires l.Notation?
  {
    if l.systemID != [] then ExternalId(l.publicID, l.systemID) else PublicId(l.publicID, l.systemID)
  }

  /** A notation with a public identifier alone is not asked for its characters. */
  predicate NotationClear(l: Leaf)
    requires l.Notation?
  {
    l.systemID == [] ==> '"' !in l.publicID
  }

  lemma NotationPieces(l: Leaf, rest: Str)
    requires l.Notation? && LeafAccepted(l)
    ensures LeafBytes(l) + rest == "<!NOTATION" + (" " + (l.name + (" " + (NotationIds(l) + (">" + rest)))))
  {
    hide ExternalId, PublicId, ValidName;
    var ids := NotationIds(l);
    assert LeafBytes(l) == "<!NOTATION " + l.name + " " + ids + ">";
    Assoc("<!NOTATION " + l.name + " " + ids, ">", rest);
    Assoc("<!NOTATION " + l.name + " ", ids, ">" + rest);
    Assoc("<!NOTATION " + l.name, " ", ids + (">" + rest));
    Assoc("<!NOTATION ", l.name, " " + (ids + (">" + rest)));
    var more := l.name + (" " + (ids + (">" + rest)));
    assert "<!NOTATION " + more == "<!NOTATION" + (" " + more);
  }

  /** Between double quotes there is none. */
  lemma PublicHoldsNoQuote(pub: Str, more: Str)
    ensures var r := ReadIds(PublicId(pub, []) + more); r.Some? ==> '"' !in r.value.publicID
  {
    hide Literal;
    var s := PublicId(pub, []) + more;
    assert s[..7] == "PUBLIC " && s[7] == '"';
    assert s[7..][0] == '"' && s[7..][..1] == ['"'];
    UpToSplits(s[7..][1..], '"');
  }

  lemma NotationIdsRead(l: Leaf, rest: Str)
    requires l.Notation? && LeafOk(l, true)
    ensures var r := ReadIds(NotationIds(l) + (">" + rest));
      && (NotationClear(l) ==> r == Some(Ids(l.publicID, l.systemID, ">" + rest)))
      && (!NotationClear(l) && r.Some? ==> r.value.publicID != l.publicID)
  {
    hide ReadIds, ExternalId, PublicId, ValidName, ExternalIdOk;
    if l.systemID != [] {
      AcceptedIdsRead(l.publicID, l.systemID, ">" + rest);
    } else {
      assert (">" + rest)[..1] == ">";
      PublicReads(l.publicID, [], ">" + rest);
      PublicHoldsNoQuote(l.publicID, ">" + rest);
    }
  }

  lemma IdsStart(l: Leaf, more: Str)
    requires l.Notation? && LeafAccepted(l)
    ensures var s := NotationIds(l) + more; SkipSpace(s) == s
  {
    hide Literal, ValidName;
    var s := NotationIds(l) + more;
    assert s[0] == 'S' || s[0] == 'P';
  }

  /** A notation declaration is read back if and only if it is clear. */
  lemma NotationReads(l: Leaf, rest: Str)
    requires l.Notation? && LeafOk(l, true)
    ensures var d := ReadNotation(" " + (l.name + (" " + (NotationIds(l) + (">" + rest)))));
      var x := XNotation(l.name, l.publicID, l.systemID);
      && (NotationClear(l) ==> d == Some(Read(x, rest)))
      && (!NotationClear(l) && d.Some? ==> d.value.value != x)
  {
    hide ValidName, ReadNamed, ReadIds, NotationIds, NotationClear, LeafFinishes;
    var text := NotationIds(l) + (">" + rest);
    NamedFirst(l.name, text);
    IdsStart(l, ">" + rest);
    NotationIdsRead(l, rest);
    Closes(XNotation(l.name, l.publicID, l.systemID), rest);
  }

  // ---------------------------------------------------------------- any declaration

  /** What an enforcing writer lets into a DTD. */
  predicate DeclShaped(t: Tree) {
    match t
    case Leaf(l) => (l.DTDElem? || l.DTDEntity? || l.Notation?) && LeafOk(l, true)
    case Branch(h, _, kids, _, made) =>
      && !made.stale
      && if h.HAttList? then h.name != [] && ValidName(h.name) && AttDefs(kids) else h.HComment? && Pieces(kids)
  }

  /** What it leaves to the caller. */
  predicate DeclClear(t: Tree)
    requires DeclShaped(t)
  {
    match t
    case Leaf(l) => if l.DTDElem? then SpecClear(l.decl) else if l.Notation? then NotationClear(l) else true
    case Branch(h, _, kids, _, _) => if h.HAttList? then DefsClear(kids) else CommentBody(BodyOf(kids))
  }

  function DeclOf(t: Tree): XDecl
    requires DeclShaped(t)
  {
    match t
    case Leaf(l) =>
      if l.DTDElem? then XElement(l.name, l.decl)
      else if l.DTDEntity? then XEntityDecl(l.name, l.isPE, EntityOf(l))
      else XNotation(l.name, l.publicID, l.systemID)
    case Branch(h, _, kids, _, _) => if h.HAttList? then XAttList(h.name, DefsOf(kids)) else XRemark(BodyOf(kids))
  }

  lemma Starts(p: Str, x: Str, q: Str, i: nat)
    requires i < |p| && i < |q| && p[i] != q[i]
    ensures !StartsWith(p + x, q)
  {
    var s := p + x;
    if |q| <= |s| {
      assert s[..|q|][i] == p[i];
    }
  }

  lemma StartsHere(p: Str, x: Str)
    ensures StartsWith(p + x, p) && (p + x)[|p|..] == x
  {
    assert (p + x)[..|p|] == p;
  }

  lemma ElementStarts(x: Str)
    ensures ReadMarkup("<!ELEMENT" + x) == ReadElement(x)
  {
    hide StartsWith, ReadElement, ReadAttList, ReadEntity, ReadNotation, ReadRemark;
    StartsHere("<!ELEMENT", x);
  }

  lemma AttListStarts(x: Str)
    ensures ReadMarkup("<!ATTLIST" + x) == ReadAttList(x)
  {
    hide StartsWith, ReadElement, ReadAttList, ReadEntity, ReadNotation, ReadRemark;
    StartsHere("<!ATTLIST", x);
    Starts("<!ATTLIST", x, "<!ELEMENT", 2);
  }

  lemma EntityStarts(x: Str)
    ensures ReadMarkup("<!ENTITY" + x) == ReadEntity(x)
  {
    hide StartsWith, ReadElement, ReadAttList, ReadEntity, ReadNotation, ReadRemark;
    StartsHere("<!ENTITY", x);
    Starts("<!ENTITY", x, "<!ELEMENT", 3);
    Starts("<!ENTITY", x, "<!ATTLIST", 2);
  }

  lemma NotationStarts(x: Str)
    ensures ReadMarkup("<!NOTATION" + x) == ReadNotation(x)
  {
    hide StartsWith, ReadElement, ReadAttList, ReadEntity, ReadNotation, ReadRemark;
    StartsHere("<!NOTATION", x);
    Starts("<!NOTATION", x, "<!ELEMENT", 2);
    Starts("<!NOTATION", x, "<!ATTLIST", 2);
    Starts("<!NOTATION", x, "<!ENTITY", 2);
  }

  lemma RemarkStarts(x: Str)
    ensures ReadMarkup("<!--" + x) == ReadRemark(x)
  {
    hide StartsWith, ReadElement, ReadAttList, ReadEntity, ReadNotation, ReadRemark;
    StartsHere("<!--", x);
    Starts("<!--", x, "<!ELEMENT", 2);
    Starts("<!--", x, "<!ATTLIST", 2);
    Starts("<!--", x, "<!ENTITY", 2);
    Starts("<!--", x, "<!NOTATION", 2);
  }

  lemma ElementPieces(name: Str, spec: Str, rest: Str)
    ensures LeafBytes(DTDElem(name, spec)) + rest == "<!ELEMENT" + (" " + (name + (" " + (spec + [('>')] + rest))))
  {
    Assoc("<!ELEMENT " + name + " " + spec, ">", rest);
    Assoc("<!ELEMENT " + name + " ", spec, ">" + rest);
    Assoc("<!ELEMENT " + name, " ", spec + (">" + rest));
    Assoc("<!ELEMENT ", name, " " + (spec + (">" + rest)));
    assert ">" == ['>'];
    Assoc(spec, ['>'], rest);
    var more := name + (" " + (spec + (['>'] + rest)));
    assert "<!ELEMENT " + more == "<!ELEMENT" + (" " + more);
  }

  lemma AttListPieces(t: Tree, rest: Str)
    requires t.Branch? && t.head.HAttList? && !t.made.stale
    ensures Render(t) + rest == "<!ATTLIST" + (" " + (t.head.name + (RenderAll(t.kids) + (">" + rest))))
  {
    hide RenderAll;
    var name, k := t.head.name, RenderAll(t.kids);
    assert Render(t) == "<!ATTLIST " + name + [] + k + ">";
    assert "<!ATTLIST " + name + [] == "<!ATTLIST " + name;
    Assoc("<!ATTLIST " + name + k, ">", rest);
    Assoc("<!ATTLIST " + name, k, ">" + rest);
    Assoc("<!ATTLIST ", name, k + (">" + rest));
    var more := name + (k + (">" + rest));
    assert "<!ATTLIST " + more == "<!ATTLIST" + (" " + more);
  }

  lemma RemarkReads(body: Str, rest: Str)
    ensures var d := ReadRemark(body + "-->" + rest);
      && (CommentBody(body) ==> d == Some(Read(XRemark(body), rest)))
      && (!CommentBody(body) && d.Some? ==> d.value.value != XRemark(body))
  {
    hide Reader.ReadComment, CommentBody;
    CommentReadsIff(body, rest);
    ReadCommentBody(body + "-->" + rest);
  }

  /** A declaration is read back from its text if and only if it is clear; otherwise the reader gets another one, or
      stops. */
  lemma DeclReads(t: Tree, rest: Str)
    requires DeclShaped(t)
    ensures var d := ReadMarkup(Render(t) + rest);
      && (DeclClear(t) ==> d == Some(Read(DeclOf(t), rest)))
      && (!DeclClear(t) && d.Some? ==> d.value.value != DeclOf(t))
  {
    hide ReadMarkup, LeafBytes, Render, RenderAll, ValidName, LeafFinishes, SpecClear, NotationClear, DefsClear,
      CommentBody, BodyOf, AttDefs, EntityPart, EntityOf, NotationIds, DefsOf, Pieces;
    match t {
      case Leaf(l) =>
        LeafText(t);
        if l.DTDElem? {
          var x := " " + (l.name + (" " + (l.decl + ['>'] + rest)));
          ElementPieces(l.name, l.decl, rest);
          ElementStarts(x);
          ElementReads(l.name, l.decl, rest);
        } else if l.DTDEntity? {
          EntityPieces(l, rest);
          EntityStarts((if l.isPE then " %" else []) + (" " + (l.name + (" " + (EntityPart(l) + (">" + rest))))));
          EntityReads(l, rest);
        } else {
          NotationPieces(l, rest);
          NotationStarts(" " + (l.name + (" " + (NotationIds(l) + (">" + rest)))));
          NotationReads(l, rest);
        }
      case Branch(h, _, kids, _, _) =>
        if h.HAttList? {
          AttListPieces(t, rest);
          AttListStarts(" " + (h.name + (RenderAll(kids) + (">" + rest))));
          AttListReads(h.name, kids, rest);
        } else {
          SectionText(t);
          Assoc("<!--", BodyOf(kids), "-->");
          Assoc("<!--", BodyOf(kids) + "-->", rest);
          RemarkStarts(BodyOf(kids) + "-->" + rest);
          RemarkReads(BodyOf(kids), rest);
        }
    }
  }

  // ---------------------------------------------------------------- whole DTDs

  predicate AllDeclShaped(ts: seq<Tree>) {
    ts == [] || (DeclShaped(ts[0]) && AllDeclShaped(ts[1..]))
  }

  predicate AllDeclClear(ts: seq<Tree>)
    requires AllDeclShaped(ts)
  {
    ts == [] || (DeclClear(ts[0]) && AllDeclClear(ts[1..]))
  }

  function DeclsOf(ts: seq<Tree>): seq<XDecl>
    requires AllDeclShaped(ts)
  {
    if ts == [] then [] else [DeclOf(ts[0])] + DeclsOf(ts[1..])
  }

  lemma DeclStarts(t: Tree, rest: Str)
    requires DeclShaped(t)
    ensures var s := Render(t) + rest; SkipSpace(s) == s && !StartsWith(s, "]")
  {
    hide LeafBytes, RenderAll, ValidName, LeafOk, AttDefs, Pieces, EntityPart, NotationIds;
    var s := Render(t) + rest;
    assert Render(t) != [] && Render(t)[0] == '<' by { DeclMark(t); }
    assert s[0] == '<' && s[..1][0] == '<';
  }

  lemma DeclMark(t: Tree)
    requires DeclShaped(t)
    ensures Render(t) != [] && Render(t)[0] == '<'
  {
    hide RenderAll, ValidName, AttDefs, Pieces, ExternalId, PublicId, Literal, LeafFinishes;
  }

  lemma {:induction false} SubsetReads(ts: seq<Tree>, rest: Str)
    requires AllDeclShaped(ts)
    ensures var d := ReadSubset(RenderAll(ts) + ("]" + rest));
      && (AllDeclClear(ts) ==> d == Some(Read(DeclsOf(ts), rest)))
      && (!AllDeclClear(ts) && d.Some? ==> d.value.value != DeclsOf(ts))
    decreases ts
  {
    hide Render, ReadMarkup, DeclShaped, DeclClear, DeclOf, SkipSpace, StartsWith;
    if ts == [] {
      assert RenderAll(ts) + ("]" + rest) == "]" + rest;
      SubsetEnds(rest);
    } else {
      hide RenderAll;
      var more := RenderAll(ts[1..]) + ("]" + rest);
      RenderFirst(ts);
      Assoc(Render(ts[0]), RenderAll(ts[1..]), "]" + rest);
      DeclStarts(ts[0], more);
      DeclReads(ts[0], more);
      SubsetReads(ts[1..], rest);
      var first := ReadMarkup(Render(ts[0]) + more);
      if first.Some? && ReadSubset(first.value.rest).Some? {
        HeadAndTail(first.value.value, ReadSubset(first.value.rest).value.value, DeclOf(ts[0]), DeclsOf(ts[1..]));
      }
    }
  }

  lemma SubsetEnds(rest: Str)
    ensures SkipSpace("]" + rest) == "]" + rest && StartsWith("]" + rest, "]") && ("]" + rest)[1..] == rest
  {
    assert ("]" + rest)[..1] == "]";
  }

  /** What an enforcing writer makes of a DTD. */
  predicate DtdShaped(t: Tree) {
    && t.Branch? && t.head.HDTD? && !t.made.stale && AllDeclShaped(t.kids)
    && t.head.name != [] && ValidName(t.head.name) && ExternalIdOk(t.head.publicID, t.head.systemID)
  }

  function DoctypeOf(t: Tree): XDoctype
    requires DtdShaped(t)
  {
    XDoctype(t.head.name, t.head.publicID, t.head.systemID, if t.kids == [] then None else Some(DeclsOf(t.kids)))
  }

  /** What follows the name and the identifiers. */
  function DtdTail(t: Tree, rest: Str): Str
    requires t.Branch?
  {
    if t.kids == [] then ">" + rest else " [" + (RenderAll(t.kids) + ("]" + (">" + rest)))
  }

  lemma BodyReads(t: Tree, rest: Str)
    requires DtdShaped(t)
    ensures var h := t.head;
      ReadBody(h.name, h.publicID, h.systemID, DtdTail(t, rest)) == Some(Read(DoctypeOf(t), rest)) <==>
        AllDeclClear(t.kids)
  {
    hide RenderAll, AllDeclShaped, ValidName, ExternalIdOk, AllDeclClear, DeclsOf, ReadSubset;
    var h := t.head;
    if t.kids == [] {
      assert AllDeclClear([]) by { NothingClear(); }
      ListEnds(rest);
      assert (">" + rest)[..1] != "[";
      Closes(XDoctype(h.name, h.publicID, h.systemID, None), rest);
    } else {
      var more := RenderAll(t.kids) + ("]" + (">" + rest));
      var s := "[" + more;
      assert " [" + more == " " + s && (" " + s)[1..] == s && s[..1] == "[" && s[1..] == more;
      assert SkipSpace(" " + s) == s;
      SubsetReads(t.kids, ">" + rest);
      Closes(XDoctype(h.name, h.publicID, h.systemID, Some(DeclsOf(t.kids))), rest);
    }
  }

  lemma NothingClear()
    ensures AllDeclShaped([]) && AllDeclClear([])
  {
  }

  lemma NothingPrinted()
    ensures RenderAll([]) == []
  {
  }

  /** What stands between the name of a DTD and its subset or end. */
  function DtdIds(h: Head): Str
    requires h.HDTD?
  {
    if h.publicID != [] || h.systemID != [] then " " + ExternalId(h.publicID, h.systemID) else []
  }

  /** Without declarations there are no brackets. */
  lemma EmptyDtdText(t: Tree, rest: Str)
    requires t.Branch? && t.head.HDTD? && !t.made.stale && t.kids == []
    ensures Render(t) + rest == "<!DOCTYPE " + t.head.name + DtdIds(t.head) + (">" + rest)
  {
    hide RenderAll, ExternalId;
    NothingPrinted();
    var open := "<!DOCTYPE " + t.head.name + DtdIds(t.head);
    assert Render(t) == open + [] + [] + ">";
    assert open + [] + [] == open;
    Assoc(open, ">", rest);
  }

  /** With them, the brackets open and close. */
  lemma FullDtdText(t: Tree, rest: Str)
    requires t.Branch? && t.head.HDTD? && !t.made.stale && t.kids != []
    ensures Render(t) + rest ==
      "<!DOCTYPE " + t.head.name + DtdIds(t.head) + (" [" + (RenderAll(t.kids) + ("]" + (">" + rest))))
  {
    hide RenderAll, ExternalId;
    var open, k := "<!DOCTYPE " + t.head.name + DtdIds(t.head), RenderAll(t.kids);
    assert Render(t) == open + " [" + k + "]>";
    Assoc(open + " [" + k, "]>", rest);
    Assoc(open + " [", k, "]>" + rest);
    Assoc(open, " [", k + ("]>" + rest));
    assert "]>" + rest == "]" + (">" + rest);
  }

  lemma DtdText(t: Tree, rest: Str)
    requires t.Branch? && t.head.HDTD? && !t.made.stale
    ensures Render(t) + rest == "<!DOCTYPE" + (" " + (t.head.name + (DtdIds(t.head) + DtdTail(t, rest))))
  {
    hide RenderAll, Render, DtdIds;
    var name, ids, tail := t.head.name, DtdIds(t.head), DtdTail(t, rest);
    if t.kids == [] {
      EmptyDtdText(t, rest);
    } else {
      FullDtdText(t, rest);
    }
    Assoc("<!DOCTYPE " + name, ids, tail);
    Assoc("<!DOCTYPE ", name, ids + tail);
    var more := name + (ids + tail);
    assert "<!DOCTYPE " + more == "<!DOCTYPE" + (" " + more);
  }

  lemma NoIds(s: Str)
    requires s != [] && s[0] == '['
    ensures ReadIds(s).None?
  {
    assert |s| >= 7 ==> s[..7][0] == '[';
  }

  lemma TailEndsName(t: Tree, rest: Str)
    requires t.Branch?
    ensures var s := DtdTail(t, rest);
      && s != [] && !NameByte(s[0]) && (AfterSpace(s).Some? ==> ReadIds(AfterSpace(s).value).None?)
  {
    hide RenderAll, NameByte, ReadIds;
    EqualsEnds();
    if t.kids != [] {
      var s := "[" + (RenderAll(t.kids) + ("]" + (">" + rest)));
      assert DtdTail(t, rest) == " " + s;
      SpaceThen(s);
      NoIds(s);
    }
  }

  /** A document type declaration is read back from its text, with its name, its identifiers and all that is declared in
      it, if and only if its declarations are clear. */
  lemma DoctypeReadsIff(t: Tree, rest: Str)
    requires DtdShaped(t)
    ensures ReadDoctype(Render(t) + rest) == Some(Read(DoctypeOf(t), rest)) <==> AllDeclClear(t.kids)
  {
    hide Render, RenderAll, AllDeclShaped, ValidName, ExternalIdOk, AllDeclClear, DeclsOf, ReadIds, ReadBody, ReadName,
      AfterSpace, DtdTail, ExternalId, DoctypeOf, NameByte;
    var h, tail := t.head, DtdTail(t, rest);
    var some := h.publicID != [] || h.systemID != [];
    var ids := DtdIds(h);
    var more := h.name + (ids + tail);
    DtdText(t, rest);
    StartsHere("<!DOCTYPE", " " + more);
    TailEndsName(t, rest);
    EqualsEnds();
    NameFirst(h.name, ids + tail);
    BodyReads(t, rest);
    if some {
      var s := ExternalId(h.publicID, h.systemID) + tail;
      Assoc(" ", ExternalId(h.publicID, h.systemID), tail);
      IdsUnquoted(h.publicID, h.systemID, tail);
      SpaceThen(s);
      AcceptedIdsRead(h.publicID, h.systemID, tail);
      SystemThere(h.publicID, h.systemID);
    } else {
      assert ids + tail == tail;
    }
  }

  // ---------------------------------------------------------------- every DTD of an enforcing writer

  lemma SoundDecl(t: Tree)
    requires Sound(t) && DTDNode in Parents(TreeKind(t))
    ensures DeclShaped(t)
  {
    hide ValidName, LeafOk, AllSound, NamesOk, AllNamed;
    if t.Branch? {
      if t.head.HAttList? {
        SoundDefs(t.kids);
      } else {
        SoundPieces(t.kids, CommentNode);
      }
    }
  }

  lemma {:induction false} SoundDefs(kids: seq<Tree>)
    requires AllSound(kids, DTDAttListNode)
    ensures AttDefs(kids)
  {
    hide LeafOk;
    if kids != [] {
      SoundDefs(kids[1..]);
      assert forall k | k in kids :: k == kids[0] || k in kids[1..];
    }
  }

  lemma {:induction false} SoundDecls(ts: seq<Tree>)
    requires AllSound(ts, DTDNode)
    ensures AllDeclShaped(ts)
  {
    hide Sound, DeclShaped, Parents;
    if ts != [] {
      SoundDecl(ts[0]);
      SoundDecls(ts[1..]);
    }
  }

  /** Every DTD that an enforcing writer builds is read back if and only if its declarations are clear. */
  lemma SoundDoctypeReads(t: Tree, rest: Str)
    requires Sound(t) && t.Branch? && t.head.HDTD?
    ensures DtdShaped(t)
    ensures ReadDoctype(Render(t) + rest) == Some(Read(DoctypeOf(t), rest)) <==> AllDeclClear(t.kids)
  {
    hide Render, AllSound, AllDeclShaped, ValidName, ExternalIdOk, AllDeclClear, ReadDoctype, DoctypeOf, NamesOk;
    SoundDecls(t.kids);
    DoctypeReadsIff(t, rest);
  }
}
