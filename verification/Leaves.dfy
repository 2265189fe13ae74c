/** The write methods of the nodes that never go on the stack: their checks and what they print. */
module Leaves {
  import opened Bytes
  import opened Check
  import opened Escape
  import opened Printer
  import opened Document

  /** The checks made before anything is printed. */
  method CheckLeaf(l: Leaf, strict: bool) returns (ok: bool)
    ensures ok == LeafAccepted(l)
  {
    hide AllRunes, ValidName, Contains, IsXml;
    match l {
      case Text(_) =>
        ok := true;
      case CommentContent(s) =>
        ok := CheckBody(s, "--", strict);
      case CDataContent(s) =>
        ok := CheckBody(s, "]]>", strict);
      case PI(target, content) =>
        ok := CheckPI(target, content);
      case DTDElem(name, decl) =>
        ok := CheckName(name);
        ok := ok && name != [] && decl != [];
      case DTDEntity(name, _, _, _, _, _) =>
        ok := CheckName(name);
        ok := ok && name != [];
      case DTDAttr(d) =>
        ok := CheckName(d.name);
        ok := ok && d.name != [] && d.typ != [];
      case Notation(name, sys, pub) =>
        ok := CheckName(name);
        ok := ok && name != [] && (pub != [] || sys != []);
    }
  }

  method CheckBody(s: Str, end: Str, strict: bool) returns (ok: bool)
    ensures ok <==> !Contains(s, end) && AllRunes(s, IsChar)
  {
    var k := Index(s, end);
    if k >= 0 {
      return false;
    }
    ok := CheckChars(s, strict);
  }

  method CheckPI(target: Str, content: Str) returns (ok: bool)
    ensures ok <==> PIOk(target, content)
  {
    hide ValidName;
    if IsXml(target) {
      return false;
    }
    ok := CheckName(target);
    if !ok {
      return;
    }
    var k := Index(content, "?>");
    ok := k < 0;
  }

  method PrintElemDecl(p: Printer, name: Str, decl: Str)
    requires p.Valid()
    modifies p
    ensures p.Valid() && p.breaks == old(p.breaks)
    ensures p.plain == old(p.plain) + LeafBytes(DTDElem(name, decl))
  {
    hide Joined, Plain, Breaks;
    Printed5(p.plain, "<!ELEMENT ", name, " ", decl, ">");
    p.WriteString("<!ELEMENT ");
    p.WriteString(name);
    p.WriteString(" ");
    p.WriteString(decl);
    p.WriteString(">");
  }

  /** The external identifier and notation of an unparsed or external entity. */
  method PrintExternal(p: Printer, l: Leaf, enforce: bool) returns (ok: bool)
    requires p.Valid() && l.DTDEntity? && (l.systemID != [] || l.publicID != [])
    modifies p
    ensures p.Valid() && p.breaks == old(p.breaks)
    ensures ok <==> LeafFinishes(l, enforce)
    ensures ok ==> p.plain == old(p.plain) + (ExternalId(l.publicID, l.systemID) +
                                              (if l.ndataID != [] then " NDATA " + l.ndataID else []))
  {
    hide Joined, Plain, Breaks, ExternalId, ExternalIdOk, ValidName;
    if enforce && l.content != [] {
      return false;
    }
    ok := p.WriteExternalID(l.publicID, l.systemID, enforce);
    if !ok {
      return;
    }
    if l.ndataID != [] {
      if l.isPE {
        return false;
      }
      p.WriteString(" NDATA ");
      if enforce {
        ok := CheckName(l.ndataID);
        if !ok {
          return;
        }
      }
      p.WriteString(l.ndataID);
    }
  }

  method PrintEntityStart(p: Printer, isPE: bool, name: Str)
    requires p.Valid()
    modifies p
    ensures p.Valid() && p.breaks == old(p.breaks)
    ensures p.plain == old(p.plain) + ("<!ENTITY " + (if isPE then "% " else []) + name + " ")
  {
    hide Joined, Plain, Breaks;
    Printed5(p.plain, "<!ENTITY ", if isPE then "% " else [], name, " ", []);
    p.WriteString("<!ENTITY ");
    if isPE {
      p.WriteString("% ");
    }
    p.WriteString(name);
    p.WriteString(" ");
  }

  function EntityPart(l: Leaf): Str
    requires l.DTDEntity?
  {
    if l.systemID != [] || l.publicID != [] then
      ExternalId(l.publicID, l.systemID) + (if l.ndataID != [] then " NDATA " + l.ndataID else [])
    else Literal(l.content)
  }

  method PrintEntityPart(p: Printer, l: Leaf, enforce: bool) returns (ok: bool)
    requires p.Valid() && l.DTDEntity?
    modifies p
    ensures p.Valid() && p.breaks == old(p.breaks)
    ensures ok <==> LeafFinishes(l, enforce)
    ensures ok ==> p.plain == old(p.plain) + EntityPart(l)
  {
    hide Joined, Plain, Breaks, ExternalId, ExternalIdOk, ValidName, Literal;
    if l.systemID != [] || l.publicID != [] {
      ok := PrintExternal(p, l, enforce);
    } else {
      if enforce && l.ndataID != [] {
        return false;
      }
      ok := p.WriteLiteral(l.content, enforce);
    }
  }

  method PrintEntity(p: Printer, l: Leaf, enforce: bool) returns (ok: bool)
    requires p.Valid() && l.DTDEntity?
    modifies p
    ensures p.Valid() && p.breaks == old(p.breaks)
    ensures ok <==> LeafFinishes(l, enforce)
    ensures ok ==> p.plain == old(p.plain) + LeafBytes(l)
  {
    hide Joined, Plain, Breaks, ExternalId, LeafFinishes, Literal;
    ghost var start: Str := "<!ENTITY " + (if l.isPE then "% " else []) + l.name + " ";
    Assoc(p.plain, start, EntityPart(l));
    Assoc(p.plain, start + EntityPart(l), ">");
    PrintEntityStart(p, l.isPE, l.name);
    ok := PrintEntityPart(p, l, enforce);
    if ok {
      p.WriteString(">");
    }
  }

  method PrintAttDecl(p: Printer, d: AttDecl) returns (ok: bool)
    requires p.Valid()
    modifies p
    ensures p.Valid() && p.breaks == old(p.breaks)
    ensures ok <==> LeafFinishes(DTDAttr(d), true)
    ensures ok ==> p.plain == old(p.plain) + LeafBytes(DTDAttr(d))
  {
    hide Joined, Plain, Breaks, DefaultBytes;
    Printed5(p.plain, " ", d.name, " ", d.typ, " ");
    Assoc(p.plain, " " + d.name + " " + d.typ + " ", DefaultBytes(d));
    p.WriteString(" ");
    p.WriteString(d.name);
    p.WriteString(" ");
    p.WriteString(d.typ);
    p.WriteString(" ");
    ok := PrintDefault(p, d);
  }

  method PrintDefault(p: Printer, d: AttDecl) returns (ok: bool)
    requires p.Valid()
    modifies p
    ensures p.Valid() && p.breaks == old(p.breaks)
    ensures ok <==> LeafFinishes(DTDAttr(d), true)
    ensures ok ==> p.plain == old(p.plain) + DefaultBytes(d)
  {
    hide Joined, Plain, Breaks, EscapeAttr;
    var dflt := d.default;
    if dflt == Infer {
      if d.value != [] {
        dflt := Default;
      } else {
        dflt := Implied;
      }
    }
    if dflt == Default {
      p.WriteString("\"");
      p.EscapeAttrString(d.value);
      p.WriteString("\"");
    } else if dflt == Fixed {
      p.WriteString("#FIXED \"");
      p.EscapeAttrString(d.value);
      p.WriteString("\"");
    } else if d.value != [] {
      return false;
    } else if dflt == Required {
      p.WriteString("#REQUIRED");
    } else {
      p.WriteString("#IMPLIED");
    }
    ok := true;
  }

  method PrintNotation(p: Printer, name: Str, systemID: Str, publicID: Str, enforce: bool) returns (ok: bool)
    requires p.Valid()
    modifies p
    ensures p.Valid() && p.breaks == old(p.breaks)
    ensures ok <==> LeafFinishes(Notation(name, systemID, publicID), enforce)
    ensures ok ==> p.plain == old(p.plain) + LeafBytes(Notation(name, systemID, publicID))
  {
    hide Joined, Plain, Breaks, ExternalId, ExternalIdOk, PublicId;
    ghost var id := if systemID != [] then ExternalId(publicID, systemID)
                    else if publicID != [] then PublicId(publicID, systemID) else [];
    Printed5(p.plain, "<!NOTATION ", name, " ", id, ">");
    p.WriteString("<!NOTATION ");
    p.WriteString(name);
    p.WriteString(" ");
    ok := true;
    if systemID != [] {
      ok := p.WriteExternalID(publicID, systemID, enforce);
    } else if publicID != [] {
      ok := p.WritePublicID(publicID, systemID, enforce);
    } else {
      p.WriteString([]);
    }
    if ok {
      p.WriteString(">");
    }
  }
}
