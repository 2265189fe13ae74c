/** The content models of element declarations: the printer of the test tools and a parser for sections
    3.2.1 and 3.2.2 of XML 1.0. */
module ContentModel {
  import opened Bytes
  import opened GrowBuffer

  datatype ModelType = EmptyModel | AnyModel | Mixed | Name | Choice | Seq

  datatype Quant = One | Opt | Rep | Plus

  /** What expat hands over: a tree of particles. */
  datatype Model = Model(typ: ModelType, quant: Quant, name: Str, children: seq<Model>)

  // ---------------------------------------------------------------- printing

  function QuantBytes(q: Quant): Str {
    match q
    case One => []
    case Opt => "?"
    case Rep => "*"
    case Plus => "+"
  }

  predicate Group(m: Model) {
    m.typ.Mixed? || m.typ.Choice? || m.typ.Seq?
  }

  /** The models that can be printed: no EMPTY or ANY inside. */
  predicate Printable(m: Model)
    decreases m, 0
  {
    Group(m) && forall c | c in m.children :: PrintableItem(c)
  }

  predicate PrintableItem(c: Model)
    decreases c, 1
  {
    c.typ.Name? || Printable(c)
  }

  function Separator(m: Model): Str {
    if m.typ.Seq? then "," else "|"
  }

  function GroupBytes(m: Model): Str
    decreases m, 0
  {
    "(" + (if m.typ.Mixed? then "#PCDATA" else []) + ListBytes(m.children, Separator(m), !m.typ.Mixed?) + ")"
  }

  function ListBytes(ms: seq<Model>, sep: Str, first: bool): Str
    decreases ms
  {
    if ms == [] then []
    else (if first then [] else sep) + ItemBytes(ms[0]) + ListBytes(ms[1..], sep, false)
  }

  function ItemBytes(m: Model): Str
    decreases m, 1
  {
    (if m.typ.Name? then m.name else GroupBytes(m)) + QuantBytes(m.quant)
  }

  predicate Declarable(m: Model) {
    m.typ.EmptyModel? || m.typ.AnyModel? || Printable(m)
  }

  function DeclBytes(m: Model): Str {
    if m.typ.EmptyModel? then "EMPTY"
    else if m.typ.AnyModel? then "ANY"
    else GroupBytes(m) + QuantBytes(m.quant)
  }

  // ---------------------------------------------------------------- the callbacks

  /** The part of the test builder's context that the printer uses. */
  class Collector {
    const content: Buffer
    var collect: bool
    var failed: bool

    ghost predicate Valid()
      reads this, content, content.bytes
    {
      content.Valid()
    }

    constructor ()
      ensures Valid() && fresh(content) && content.bytes == null && !collect && !failed
    {
      content := new Buffer();
      collect, failed := false, false;
    }

    /** xml_ctx_append. */
    method Append(s: Str)
      requires Valid()
      modifies content, content.bytes
      ensures Valid() && (content.bytes == old(content.bytes) || fresh(content.bytes))
      ensures content.Contents() == if collect then old(content.Contents()) + s else old(content.Contents())
    {
      if collect {
        content.Append(s);
      }
    }

    method AppendQuant(q: Quant)
      requires Valid() && collect
      modifies content, content.bytes
      ensures Valid() && (content.bytes == old(content.bytes) || fresh(content.bytes))
      ensures content.Contents() == old(content.Contents()) + QuantBytes(q)
    {
      match q {
        case One =>
        case Opt => Append("?");
        case Rep => Append("*");
        case Plus => Append("+");
      }
    }

    /** The body of the loop of xml_element_decl_child. */
    method Item(child: Model) returns (ok: bool)
      requires Valid() && collect
      modifies this`failed, content, content.bytes
      ensures Valid() && (content.bytes == old(content.bytes) || fresh(content.bytes))
      ensures PrintableItem(child) ==>
        ok && failed == old(failed) && content.Contents() == old(content.Contents()) + ItemBytes(child)
      ensures (!PrintableItem(child) || old(failed)) ==> failed
      decreases child, 2
    {
      hide Printable, GroupBytes;
      if child.typ.Name? {
        Append(child.name);
      } else if Group(child) {
        ElementDeclChild(child);
      } else {
        failed := true;
        NotPrintable(child);
        return false;
      }
      ghost var base := content.Contents();
      AppendQuant(child.quant);
      ok := true;
      if PrintableItem(child) {
        var body := if child.typ.Name? then child.name else GroupBytes(child);
        Assoc(old(content.Contents()), body, QuantBytes(child.quant));
      }
    }

    static lemma NotPrintable(m: Model)
      requires !Group(m)
      ensures !Printable(m)
    {
    }

    /** The loop of xml_element_decl_child. */
    method Items(model: Model, sep: Str) returns (ok: bool)
      requires Valid() && collect && Group(model)
      modifies this`failed, content, content.bytes
      ensures Valid() && (content.bytes == old(content.bytes) || fresh(content.bytes))
      ensures Printable(model) ==>
        ok && failed == old(failed) &&
        content.Contents() == old(content.Contents()) + ListBytes(model.children, sep, !model.typ.Mixed?)
      ensures (!Printable(model) || old(failed)) ==> failed
      decreases model, 0
    {
      hide PrintableItem, ItemBytes, ListBytes, Buffer.Valid, Buffer.Contents;
      NoList(sep);
      var first := !model.typ.Mixed?;
      var i := 0;
      assert model.children[0..] == model.children;
      while i < |model.children|
        invariant 0 <= i <= |model.children| && Valid() && (content.bytes == old(content.bytes) || fresh(content.bytes))
        invariant first == (i == 0 && !model.typ.Mixed?)
        invariant old(failed) ==> failed
        invariant (forall c | c in model.children[..i] :: PrintableItem(c)) || failed
        invariant Printable(model) ==> failed == old(failed)
        invariant Printable(model) ==>
          content.Contents() + ListBytes(model.children[i..], sep, first) ==
          old(content.Contents()) + ListBytes(model.children, sep, !model.typ.Mixed?)
      {
        var child := model.children[i];
        ListStep(content.Contents(), model.children, i, sep, first);
        if !first {
          Append(sep);
        } else {
          first := false;
        }
        ok := Item(child);
        assert child in model.children;
        if !ok {
          return;
        }
        assert model.children[..i + 1] == model.children[..i] + [child];
        i := i + 1;
      }
      assert model.children[..i] == model.children && model.children[i..] == [];
      ok := true;
    }

    static lemma NoList(sep: Str)
      ensures ListBytes([], sep, false) == [] && ListBytes([], sep, true) == []
    {
    }

    static lemma ListStep(before: Str, ms: seq<Model>, i: nat, sep: Str, first: bool)
      requires i < |ms|
      ensures before + ListBytes(ms[i..], sep, first) ==
        (if first then before else before + sep) + ItemBytes(ms[i]) + ListBytes(ms[i + 1..], sep, false)
    {
      hide ItemBytes;
      assert ms[i..][1..] == ms[i + 1..];
      var rest := ListBytes(ms[i + 1..], sep, false);
      if first {
        assert [] + ItemBytes(ms[i]) == ItemBytes(ms[i]);
        Assoc(before, ItemBytes(ms[i]), rest);
      } else {
        Assoc(before, sep + ItemBytes(ms[i]), rest);
        Assoc(before, sep, ItemBytes(ms[i]));
      }
    }

    /** xml_element_decl_child. */
    method ElementDeclChild(model: Model)
      requires Valid() && collect
      modifies this`failed, content, content.bytes
      ensures Valid() && (content.bytes == old(content.bytes) || fresh(content.bytes))
      ensures Printable(model) ==>
        failed == old(failed) && content.Contents() == old(content.Contents()) + GroupBytes(model)
      ensures (!Printable(model) || old(failed)) ==> failed
      decreases model, 1
    {
      hide Printable, ListBytes, GroupBytes, Buffer.Valid, Buffer.Contents;
      Append("(");
      if model.typ.Mixed? {
        Append("#PCDATA");
      }
      assert !model.typ.Mixed? ==> old(content.Contents()) + "(" + [] == old(content.Contents()) + "(";
      if !Group(model) {
        NotPrintable(model);
        failed := true;
        return;
      }
      var sep: Str := if model.typ.Seq? then "," else "|";
      var ok := Items(model, sep);
      if !ok {
        return;
      }
      Append(")");
      GroupPieces(old(content.Contents()), model);
    }

    static lemma GroupPieces(before: Str, m: Model)
      ensures var list := ListBytes(m.children, Separator(m), !m.typ.Mixed?);
        before + "(" + (if m.typ.Mixed? then "#PCDATA" else []) + list + ")" == before + GroupBytes(m)
    {
      hide ListBytes;
      var pc: Str := if m.typ.Mixed? then "#PCDATA" else [];
      var list := ListBytes(m.children, Separator(m), !m.typ.Mixed?);
      Assoc(before + "(" + pc, list, ")");
      Assoc(before + "(", pc, list + ")");
      Assoc(before, "(", pc + (list + ")"));
      Assoc("(" + pc, list, ")");
      Assoc("(", pc, list + ")");
    }

    /** The switch of xml_element_decl. */
    method Spec(model: Model) returns (ok: bool)
      requires Valid() && collect
      modifies this`failed, content, content.bytes
      ensures Valid() && (content.bytes == old(content.bytes) || fresh(content.bytes))
      ensures Declarable(model) ==>
        ok && failed == old(failed) && content.Contents() == old(content.Contents()) + DeclBytes(model)
      ensures (!Declarable(model) || old(failed)) ==> failed
    {
      hide Printable, GroupBytes;
      ok := true;
      if model.typ.EmptyModel? {
        Append("EMPTY");
      } else if model.typ.AnyModel? {
        Append("ANY");
      } else if Group(model) {
        ElementDeclChild(model);
        AppendQuant(model.quant);
        Assoc(old(content.Contents()), GroupBytes(model), QuantBytes(model.quant));
      } else {
        NotPrintable(model);
        failed := true;
        ok := false;
      }
    }

    /** xml_element_decl: the content of the command that is written. */
    method ElementDecl(model: Model) returns (decl: Str)
      requires Valid()
      modifies this, content, content.bytes
      ensures Valid() && (content.bytes == old(content.bytes) || fresh(content.bytes))
      ensures Declarable(model) ==>
        failed == old(failed) && decl == DeclBytes(model) && content.Contents() == [] && !collect
      ensures (!Declarable(model) || old(failed)) ==> failed
    {
      hide Declarable, DeclBytes;
      content.Clear();
      collect := true;
      decl := [];
      var ok := Spec(model);
      if !ok {
        return;
      }
      if content.bytes != null && content.len > 0 {
        decl := content.bytes[..content.len];
      }
      collect := false;
      content.Clear();
    }
  }
}
