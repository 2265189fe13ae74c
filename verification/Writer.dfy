/** Writer (writer.go, node.go and the start/open/opened/end methods of the node kinds). */
module Writer {
  import opened Bytes
  import opened Check
  import opened Nodes
  import opened Printer
  import opened Indenter
  import opened Document
  import opened Trees
  import opened TreeProofs
  import opened Lines
  import opened LineProofs
  import opened NodeSlice
  import opened Leaves

  /** A call with outcome `o` took the document from `z0` to `z1`. */
  predicate Follows(o: Outcome, ok: bool, z0: Zip, c0: nat, z1: Zip, c1: nat, clean: bool) {
    match o
    case Done(z, c) => ok && clean && z1 == z && c1 == c
    case Refused => !ok && clean && z1 == z0 && c1 == c0
    case Broken => !clean
  }

  /** Termination: what is still to be written from an element's content. */
  function Weight(v: Startable): nat {
    1 + if v.ElemStart? then ItemsWeight(v.elem.content) else 0
  }

  function ItemsWeight(items: seq<Writable>): nat {
    if items == [] then 0
    else 1 + ItemWeight(items[0]) + ItemsWeight(items[1..])
  }

  function ItemWeight(w: Writable): nat {
    match w
    case WStart(v) => Weight(v)
    case _ => 0
  }

  lemma {:induction false} ItemWeighs(items: seq<Writable>, i: nat)
    requires i < |items|
    ensures ItemWeight(items[i]) < ItemsWeight(items)
  {
    if i > 0 {
      ItemWeighs(items[1..], i - 1);
    }
  }

  class Writer {
    const cfg: Config
    const grow: Growth
    const printer: Printer
    const indenter: StandardIndenter?
    var nodes: seq<Node>
    var cap: nat
    /** The arrays that append has left behind; pointers into them stay valid. */
    var retired: seq<seq<Node>>
    var current: int
    var last: Event
    /** The document built so far, while every call has succeeded and fitted the tree. */
    ghost var doc: Zip
    ghost var clean: bool

    /** What the indenter has done. */
    ghost function PenNow(): Pen
      reads this, printer, indenter
    {
      Pen(printer.breaks, if indenter == null then [] else indenter.stack)
    }

    /** Without an indenter there are no line breaks. */
    ghost predicate Printing()
      reads this, printer, indenter
    {
      && printer.Valid()
      && (if indenter == null then printer.breaks == [] else indenter.Valid())
    }

    ghost predicate Core()
      reads this, printer, indenter
    {
      && -1 <= current < |nodes| <= cap
      && NodesOk(nodes, current)
      && Printing()
    }

    ghost predicate Loose()
      reads this, printer, indenter
    {
      Core() && (indenter != null ==> indenter.depth == Levels(nodes, current))
    }

    /** What holds of the node slice and the indenter in every state, also after errors. */
    ghost predicate Struct()
      reads this, printer, indenter
    {
      Loose() && (current >= 0 && nodes[current].state == StateOpen ==> nodes[current].children == 0)
    }

    /** The indenter has put in exactly the line breaks of the laid out document, its stack counts the nodes
        that began on lines of their own, and the last event is that of the document. */
    ghost predicate Marked()
      reads this, printer, indenter
    {
      indenter != null ==> Like(last, LastOf(doc)) && PenNow() == PenOf(doc, cfg.newline, indenter.unit)
    }

    ghost predicate Track()
      reads this, printer, indenter
    {
      Match(nodes, current, doc.stack, cfg.newline) && printer.plain == ZipBytes(doc) && Marked()
    }

    ghost predicate Inv()
      reads this, printer, indenter
    {
      Struct() && (clean ==> Track())
    }

    /** The invariant between calls. */
    ghost predicate Valid()
      reads this, printer, indenter
    {
      Inv() && (clean ==> Settled(doc))
    }

    constructor (cfg: Config, grow: Growth, indenter: StandardIndenter?)
      requires indenter != null ==> indenter.Valid() && indenter.stack == [0]
      ensures Valid() && clean && doc == Zip([], Bottom) && cap == 8
      ensures this.cfg == cfg && this.grow == grow && this.indenter == indenter && fresh(printer)
      ensures printer.out == [] && printer.breaks == []
    {
      this.cfg, this.grow, this.indenter := cfg, grow, indenter;
      printer := new Printer();
      nodes := seq(8, _ => CLEARED);
      cap, retired, current := 8, [], -1;
      last := Event(StateOpen, NoNode, 0);
      doc, clean := Zip([], Bottom), true;
    }

    /** What is still to be written by the innermost node. */
    function TopWeight(): nat
      reads this
    {
      if 0 <= current < |nodes| && nodes[current].state == StateOpen then Weight(nodes[current].start) else 0
    }

    /** The indenter after it has been told of an event. */
    ghost function PenTold(next: Event): Pen
      requires indenter != null && indenter.Valid()
      reads this, printer, indenter
    {
      Tell(PenNow(), last, next, |printer.plain|, cfg.newline, indenter.unit)
    }

    method WriteIndent(next: Event)
      requires Printing() &&
        (indenter != null && Indenting(next.kind) && next.state == StateEnded ==> indenter.depth > 0)
      modifies printer, indenter
      ensures Printing() && printer.plain == old(printer.plain)
      ensures if indenter == null then PenNow() == old(PenNow()) else
        indenter.depth == DepthAfter(old(indenter.depth), next) && PenNow() == old(PenTold(next))
    {
      hide Tell, PenOf, LastOf;
      if indenter != null {
        indenter.Indent(printer, cfg.newline, last, next);
      }
    }

    /** The events of attributes and raw strings. */
    method WriteSilent(kind: NodeKind)
      requires Printing() && (kind == AttrNode || kind == RawNode)
      modifies printer, indenter
      ensures Printing() && printer.plain == old(printer.plain) && PenNow() == old(PenNow())
    {
      hide Tell, PenOf, LastOf;
      if indenter != null {
        TellNothing(PenNow(), last, kind, |printer.plain|, cfg.newline, indenter.unit);
      }
      WriteIndent(Event(StateOpen, kind, 0));
    }

    method CheckParent(kind: NodeKind) returns (ok: bool)
      requires Core()
      ensures ok <==> (if current >= 0 then nodes[current].kind else NoNode) in Parents(kind)
      ensures clean && Match(nodes, current, doc.stack, cfg.newline) ==> (ok <==> TopKind(doc.stack) in Parents(kind))
    {
      hide Parents, PenOf, LastOf, Tell;
      var currentKind := NoNode;
      if current >= 0 {
        currentKind := nodes[current].kind;
      }
      ok := currentKind in Parents(kind);
    }

    /** append(w.nodes, node{}) */
    method Append()
      requires |nodes| <= cap
      modifies this`nodes, this`cap, this`retired
      ensures nodes == old(nodes) + [CLEARED] && |nodes| <= cap
      ensures if |old(nodes)| == old(cap) then cap == Larger(old(cap), grow) && retired == old(retired) + [old(nodes)]
              else cap == old(cap) && retired == old(retired)
    {
      if |nodes| == cap {
        retired := retired + [nodes];
        cap := Larger(cap, grow);
      }
      nodes := nodes + [CLEARED];
    }

    /** The search of Attr.write in the namespaces of the current node. */
    static method SearchNs(nss: seq<Ns>, a: Attr) returns (found: bool, fail: bool)
      requires a.uri != []
      ensures AddNs(nss, a) == if fail then None else Some(if found then nss else nss + [Ns(a.prefix, a.uri, false)])
    {
      found, fail := false, false;
      var i := 0;
      assert nss[0..] == nss;
      while i < |nss|
        invariant i <= |nss| && !found && !fail
        invariant Lookup(nss, a.prefix) == Lookup(nss[i..], a.prefix)
      {
        if a.prefix == nss[i].prefix {
          found := true;
          if a.uri != nss[i].uri {
            fail := true;
          }
          break;
        }
        assert nss[i..][1..] == nss[i + 1..];
        i := i + 1;
      }
    }

    /** The namespace bookkeeping of Attr.write. */
    method RecordNs(a: Attr) returns (ok: bool)
      requires Struct()
      modifies this`nodes
      ensures Struct() && Tagged(old(nodes), nodes, current, a, ok, true)
    {
      hide NodesOk, Levels, Lookup, PenOf, LastOf, Tell;
      if current >= 0 {
        assert nodes[current := nodes[current].(namespaces := nodes[current].namespaces)] == nodes;
      }
      if a.uri != [] && current >= 0 {
        var found, fail := SearchNs(nodes[current].namespaces, a);
        if fail {
          return false;
        } else if !found {
          SetNamespaces(nodes, current, nodes[current].namespaces + [Ns(a.prefix, a.uri, false)]);
          nodes := nodes[current := nodes[current].(namespaces := nodes[current].namespaces +
            [Ns(a.prefix, a.uri, false)])];
        }
      }
      ok := true;
    }

    /** Attr.write after the check of the parent. The namespace is recorded before the name is
        checked. */
    method TagAttr(a: Attr) returns (ok: bool)
      requires Struct()
      modifies this`nodes, this`last, printer, indenter
      ensures Struct() && Tagged(old(nodes), nodes, current, a, ok, AttrNameOk(a))
      ensures last == if ok && indenter != null then Event(StateEnded, AttrNode, 0) else old(last)
      ensures PenNow() == old(PenNow())
      ensures printer.plain == if ok then
        old(printer.plain) + AttBytes(FullName(a.prefix, a.name), a.value) else old(printer.plain)
    {
      hide NodesOk, Levels, ValidName, AttBytes, AddNs, FullName, PenOf, LastOf, Tell;
      WriteSilent(AttrNode);
      var name := FullName(a.prefix, a.name);
      ok := RecordNs(a);
      if !ok {
        return;
      }
      ok := printer.PrintAttr(name, a.value, cfg.enforce);
      if ok && indenter != null {
        last := Event(StateEnded, AttrNode, 0);
      }
    }

    predicate AttrNameOk(a: Attr) {
      cfg.enforce ==> ValidName(FullName(a.prefix, a.name))
    }

    /** The ghost half of Attr.write: the attribute joins the start tag. */
    ghost method AddToTag(att: Att, n0: seq<Node>)
      requires Struct() && clean && doc.stack.Push? && !doc.stack.top.entered && doc.stack.top.head.HElem?
      requires 0 <= current < |n0| && Match(n0, current, doc.stack, cfg.newline) && |nodes| > current
      requires nodes == n0[current := n0[current].(namespaces := nodes[current].namespaces)]
      requires printer.plain == ZipBytes(doc) + AttBytes(att.name, att.value)
      requires indenter != null ==>
        Like(last, Event(StateEnded, AttrNode, 0)) && PenNow() == PenOf(doc, cfg.newline, indenter.unit)
      modifies this`doc
      ensures Inv() && doc == old(doc).(stack := WithAtt(old(doc).stack, att, nodes[current].namespaces))
    {
      hide NodesOk, Levels, Match, ZipBytes, AttBytes, AttsBytes, NodeMatches, HeadKind, PenOf, LastOf, Tell;
      MatchTop(n0, current, doc.stack, cfg.newline);
      AttrBytesAdded(doc, att, nodes[current].namespaces, true);
      MatchNamespaces(n0, current, nodes[current].namespaces, doc.stack, doc.stack.top.atts + [att], true, cfg.newline);
      ghost var s := WithAtt(doc.stack, att, nodes[current].namespaces);
      if indenter != null {
        LastTagged(doc, s.top);
        PenAttr(doc, s.top, cfg.newline, indenter.unit);
      }
      doc := doc.(stack := s);
    }

    static function WithAtt(s: Stack, att: Att, nss: seq<Ns>): Stack
      requires s.Push?
    {
      s.(top := s.top.(atts := s.top.atts + [att], nss := nss, tagged := true))
    }

    /** The innermost node is an element whose start tag can still grow. */
    static predicate Growing(z: Zip) {
      z.stack.Push? && !z.stack.top.entered && z.stack.top.head.HElem?
    }

    /** Attr.write. Nothing asks whether the start tag is still open. */
    method WriteAttr(a: Attr) returns (ok: bool)
      requires Inv()
      modifies this`nodes, this`last, this`doc, this`clean, printer, indenter
      ensures Inv() && Retagged(old(nodes), nodes, current)
      ensures if old(clean) then
        Follows(AttrCall(old(doc), cap, a, cfg), ok, old(doc), cap, doc, cap, clean) else !clean
      ensures ok && old(clean) && Growing(old(doc)) ==> clean
    {
      hide NodesOk, Levels, Match, ZipBytes, ValidName, AttBytes, AddNs, Parents, AttsBytes, FullName, NodeMatches,
        PenOf, LastOf, Tell;
      ghost var o := AttrCall(doc, cap, a, cfg);
      if clean {
        MatchTop(nodes, current, doc.stack, cfg.newline);
        if doc.stack.Push? {
        }
      }
      if cfg.enforce {
        ok := CheckParent(AttrNode);
        if !ok {
          return;
        }
      }
      ok := TagAttr(a);
      if clean && o.Done? {
        AddToTag(Att(FullName(a.prefix, a.name), a.value), old(nodes));
      } else if o.Broken? {
        clean := false;
      } else if clean && current >= 0 {
        assert nodes == old(nodes);
      }
    }

    // ---------------------------------------------------------------- leaves

    /** Raw.write: it does not call Next. */
    method PutRaw(s: Str)
      requires Printing()
      modifies this`last, printer, indenter
      ensures Printing() && PenNow() == old(PenNow())
      ensures printer.plain == old(printer.plain) + s
    {
      WriteSilent(RawNode);
      printer.WriteString(s);
      if indenter != null {
        last := Event(StateEnded, RawNode, 0);
      }
    }

    method PrintPI(target: Str, content: Str)
      requires Printing()
      modifies this`last, printer, indenter
      ensures Printing() && PenNow() == old(PenNow())
      ensures printer.plain == old(printer.plain) + LeafBytes(PI(target, content))
    {
      Printed5(printer.plain, "<?", target, " ", content, "?>");
      printer.WriteString("<?");
      printer.WriteString(target);
      printer.WriteString(" ");
      PutRaw(content);
      printer.WriteString("?>");
    }

    method PrintLeaf(l: Leaf) returns (ok: bool)
      requires Printing()
      modifies this`last, printer, indenter
      ensures Printing() && PenNow() == old(PenNow())
      ensures ok <==> LeafFinishes(l, cfg.enforce)
      ensures ok ==> printer.plain == old(printer.plain) + LeafBytes(l)
    {
      ok := true;
      match l {
        case Text(s) => printer.EscapeString(s);
        case CommentContent(s) => printer.WriteString(s);
        case CDataContent(s) => printer.WriteString(s);
        case PI(target, content) => PrintPI(target, content);
        case DTDElem(name, decl) => PrintElemDecl(printer, name, decl);
        case DTDEntity(_, _, _, _, _, _) => ok := PrintEntity(printer, l, cfg.enforce);
        case DTDAttr(d) => ok := PrintAttDecl(printer, d);
        case Notation(name, sys, pub) => ok := PrintNotation(printer, name, sys, pub, cfg.enforce);
      }
    }

    // ---------------------------------------------------------------- node.opened

    /** The declarations printed by Elem.opened: one for each namespace not yet written. */
    method PrintDeclarations() returns (ok: bool)
      requires Loose() && current >= 0
      modifies this`nodes, printer
      ensures Loose() && printer.breaks == old(printer.breaks)
      ensures ok <==> DeclarationsOk(old(nodes[current].namespaces), cfg.enforce)
      ensures nodes == old(nodes)[current := old(nodes[current]).(namespaces := nodes[current].namespaces)]
      ensures ok ==> nodes[current].namespaces == Declared(old(nodes[current].namespaces))
      ensures ok ==> printer.plain == old(printer.plain) + AttsBytes(Undeclared(old(nodes[current].namespaces)))
    {
      hide NodesOk, Levels, Undeclared, AttsBytes, DeclarationsOk, PenOf, LastOf, Tell;
      var nss;
      ok, nss := PrintUndeclared(nodes[current].namespaces);
      SetNamespaces(nodes, current, nss);
      nodes := nodes[current := nodes[current].(namespaces := nss)];
    }

    method PrintUndeclared(nss: seq<Ns>) returns (ok: bool, nss': seq<Ns>)
      requires printer.Valid()
      modifies printer
      ensures printer.Valid() && printer.breaks == old(printer.breaks)
      ensures ok <==> DeclarationsOk(nss, cfg.enforce)
      ensures ok ==> nss' == Declared(nss)
      ensures ok ==> printer.plain == old(printer.plain) + AttsBytes(Undeclared(nss))
    {
      hide Undeclared, AttsBytes, DeclarationsOk, ValidName, AttBytes, PenOf, LastOf, Tell;
      nss' := nss;
      var i := 0;
      assert nss[0..] == nss;
      while i < |nss|
        invariant i <= |nss| == |nss'|
        invariant forall j | 0 <= j < |nss| :: nss'[j] == if j < i then nss[j].(written := true) else nss[j]
        invariant printer.Valid() && printer.breaks == old(printer.breaks)
        invariant printer.plain + AttsBytes(Undeclared(nss[i..])) == old(printer.plain) + AttsBytes(Undeclared(nss))
        invariant DeclarationsOk(nss, cfg.enforce) == DeclarationsOk(nss[i..], cfg.enforce)
      {
        UndeclaredStep(nss, i, cfg.enforce);
        if !nss[i].written {
          Assoc(printer.plain, AttBytes("xmlns:" + nss[i].prefix, nss[i].uri), AttsBytes(Undeclared(nss[i + 1..])));
          ok := printer.PrintAttr("xmlns:" + nss[i].prefix, nss[i].uri, cfg.enforce);
          if !ok {
            return;
          }
          nss' := nss'[i := nss[i].(written := true)];
        } else {
          assert nss[i].(written := true) == nss[i];
        }
        i := i + 1;
      }
      ok := true;
      NoneUndeclared(cfg.enforce);
      assert nss[i..] == [];
      assert nss' == Declared(nss);
      assert printer.plain + [] == printer.plain;
    }

    /** What node.opened prints before any content. */
    function EnterText(n: Node): Str {
      (if n.start.ElemStart? then AttsBytes(Undeclared(n.namespaces)) else []) +
      OpenedBytes(HeadOf(n.start, cfg.newline), n.children > 0 || Pending(n.start) != [], n.full)
    }

    static function OpenedEvent(n: Node): Event {
      Event(StateOpened, n.kind, n.children)
    }

    method EnterState()
      requires Loose() && current >= 0 && nodes[current].state == StateOpen
      modifies this`nodes, printer, indenter
      ensures Struct() && printer.plain == old(printer.plain)
      ensures nodes == old(nodes)[current := old(nodes[current]).(state := StateOpened)]
      ensures indenter != null ==> PenNow() == old(PenTold(OpenedEvent(nodes[current])))
    {
      hide Levels, NodesOk, PenOf, LastOf, Tell;
      var n := nodes[current];
      SetOpened(nodes, current, n.namespaces);
      nodes := nodes[current := n.(state := StateOpened, namespaces := n.namespaces)];
      WriteIndent(OpenedEvent(n));
    }

    /** The opened methods of the node kinds, up to the content. */
    method EnterPrint() returns (ok: bool)
      requires Struct() && current >= 0 && nodes[current].state == StateOpened
      modifies this`nodes, printer
      ensures Loose() && |nodes| == |old(nodes)| && PenNow() == old(PenNow())
      ensures nodes == old(nodes)[current := old(nodes[current]).(namespaces := nodes[current].namespaces)]
      ensures ok ==> nodes[current] == EnteredNode(old(nodes[current]))
      ensures ok <==> (old(nodes[current]).start.ElemStart? ==>
        DeclarationsOk(old(nodes[current].namespaces), cfg.enforce))
      ensures ok ==> printer.plain == old(printer.plain) + EnterText(old(nodes[current]))
    {
      hide Undeclared, AttsBytes, DeclarationsOk, Levels, NodesOk, Declared, PenOf, LastOf, Tell;
      var n := nodes[current];
      ok := true;
      assert nodes[current := n] == nodes;
      match n.start {
        case ElemStart(e) =>
          ok := PrintDeclarations();
          if !ok {
            return;
          }
          Assoc(old(printer.plain), AttsBytes(Undeclared(n.namespaces)),
            OpenedBytes(HeadOf(n.start, cfg.newline), n.children > 0 || Pending(n.start) != [], n.full));
          if n.children == 0 && !n.full && e.content == [] {
            printer.WriteString("/>");
          } else {
            printer.WriteString(">");
          }
        case DTD(_, _, _) =>
          if n.children > 0 {
            printer.WriteString(" [");
          }
        case _ =>
      }
    }

    /** node.opened up to the content: the state, the event, the rest of the start tag. */
    method Enter() returns (ok: bool)
      requires Loose() && current >= 0 && nodes[current].state == StateOpen
      modifies this`nodes, printer, indenter
      ensures Struct() && |nodes| == |old(nodes)|
      ensures indenter != null ==> PenNow() == old(PenTold(OpenedEvent(nodes[current])))
      ensures ok ==> nodes == old(nodes)[current := EnteredNode(old(nodes[current]))]
      ensures ok <==> (old(nodes[current]).start.ElemStart? ==>
        DeclarationsOk(old(nodes[current].namespaces), cfg.enforce))
      ensures ok ==> printer.plain == old(printer.plain) + EnterText(old(nodes[current]))
    {
      hide Undeclared, AttsBytes, DeclarationsOk, Levels, NodesOk, OpenedBytes, Pending, HeadOf, Declared, PenOf,
        LastOf, Tell;
      EnterState();
      ok := EnterPrint();
    }

    /** The text of the partial document while its innermost node may be without children. */
    ghost predicate TrackTop(kids: bool)
      reads this, printer, indenter
    {
      && Match(nodes, current, doc.stack, cfg.newline) && Marked()
      && doc.stack.Push? && doc.stack.top.entered
      && printer.plain == Before(doc) + FrameBytes(doc.stack.top, kids)
    }

    /** The ghost half of Enter: the innermost open node is entered. */
    ghost method EnterDoc(n: Node, kids: bool)
      requires Struct() && current >= 0 && n.state == StateOpen && clean
      requires kids == (n.children > 0 || Pending(n.start) != [])
      requires nodes[current] == EnteredNode(n)
      requires Match(nodes[current := n], current, doc.stack, cfg.newline)
      requires printer.plain == ZipBytes(doc) + EnterText(n)
      requires indenter != null ==>
        PenNow() == PenOf(EnteredZip(doc), cfg.newline, indenter.unit) && Like(last, LastOf(doc))
      modifies this`doc
      ensures TrackTop(kids)
      ensures doc == old(doc).(stack := Push(old(doc).stack.below, Opened(old(doc).stack.top)))
    {
      hide Undeclared, Declared, Levels, NodesOk, Match, Pending, ZipBytes, FrameBytes, EnterText, HeadOf, PenOf,
        LastOf, Tell;
      var n0 := nodes[current := n];
      MatchTop(n0, current, doc.stack, cfg.newline);
      var f := doc.stack.top;
      LastEntered(doc);
      MatchEntered(n0, current, doc.stack, cfg.newline);
      assert n0[current := EnteredNode(n)] == nodes;
      EnteredText(doc, n, kids);
      doc := doc.(stack := Push(doc.stack.below, Opened(f)));
    }

    lemma EnteredText(z: Zip, n: Node, kids: bool)
      requires z.stack.Push? && !z.stack.top.entered && NodeMatches(n, z.stack.top, cfg.newline)
      requires kids == (n.children > 0 || Pending(n.start) != [])
      ensures ZipBytes(z) + EnterText(n) == Before(z) + FrameBytes(Opened(z.stack.top), kids)
    {
      hide Undeclared, AttsBytes, Pending, StackBytes, RenderAll, OpenBytes, OpenedBytes, ZipBytes, FrameBytes,
        HeadOf, Opened;
      var f := z.stack.top;
      SplitTop(z);
      EnterBytes(f, kids);
      HeadIsElem(f.start, cfg.newline);
      var decls := if f.head.HElem? then AttsBytes(Undeclared(f.nss)) else [];
      Regroup4(Before(z), FrameBytes(f, true), decls, OpenedBytes(f.head, kids, f.full));
    }

    // ---------------------------------------------------------------- the open methods

    /** A node has just been put on the slice; the document does not hold it yet. */
    ghost predicate Slotted(v: Startable)
      reads this, printer, indenter
    {
      && Struct() && current >= 0 && nodes[current] == FreshNode(v)
      && (clean ==> Inner(nodes, current - 1, doc.stack, cfg.newline) && printer.plain == ZipBytes(doc))
      && (indenter != null ==> last == Event(StateOpen, StartKind(v), 0) && (clean ==> PenNow() == PenStarted(v)))
    }

    /** The indenter after it has been told of the start of a node. */
    ghost function PenStarted(v: Startable): Pen
      requires indenter != null
      reads this, indenter
    {
      Tell(PenOf(doc, cfg.newline, indenter.unit), LastOf(doc), Event(StateOpen, StartKind(v), 0), |ZipBytes(doc)|,
        cfg.newline, indenter.unit)
    }

    /** The node just started joins the document, with its start tag as far as it is printed. */
    ghost method PushDoc(v: Startable, atts: seq<Att>)
      requires Struct() && current >= 0 && nodes[current] == FreshNode(v) && clean
      requires Inner(nodes, current - 1, doc.stack, cfg.newline)
      requires printer.plain == ZipBytes(doc) + OpenBytes(HeadOf(v, cfg.newline), atts)
      requires indenter != null ==> last == Event(StateOpen, StartKind(v), 0) && PenNow() == PenStarted(v)
      modifies this`doc
      ensures Inv() && doc == old(doc).(stack := Push(old(doc).stack, Fresh(v, cfg.newline, Tag(atts, []))))
    {
      hide Inner, ZipBytes, OpenBytes, HeadOf, Levels, NodesOk, PenOf, Tell, HeadKind, LastOf;
      var f := Fresh(v, cfg.newline, Tag(atts, []));
      PushBytes(doc, f);
      HeadKindOf(v, cfg.newline);
      if indenter != null {
        TellStart(doc, f, LastOf(doc), cfg.newline, indenter.unit);
        LastStarted(doc, f);
      }
      doc := doc.(stack := Push(doc.stack, f));
    }

    method PrintVersion(d: DocDecl)
      requires printer.Valid()
      modifies printer
      ensures printer.Valid() && printer.breaks == old(printer.breaks)
      ensures printer.plain == old(printer.plain) + AttsBytes(VersionAtts(d, cfg))
    {
      hide AttBytes, ValidName, PenOf, LastOf, Tell;
      LowerCaseName("version");
      AttsOne(Att("version", DocVersion(d, cfg)));
      if !d.suppressVersion {
        var version := [];
        if d.forcedVersion.Some? {
          version := d.forcedVersion.value;
        } else {
          version := cfg.version;
          if version == [] {
            version := "1.0";
          }
        }
        var _ := printer.PrintAttr("version", version, cfg.enforce);
      }
    }

    method PrintEncoding(d: DocDecl) returns (ok: bool)
      requires printer.Valid()
      modifies printer
      ensures printer.Valid() && printer.breaks == old(printer.breaks)
      ensures ok <==> StartTag(Doc(d), cfg).Some?
      ensures ok ==> printer.plain == old(printer.plain) + AttsBytes(EncodingAtts(d, cfg))
    {
      hide AttBytes, ValidName, PenOf, LastOf, Tell;
      LowerCaseName("encoding");
      AttsOne(Att("encoding", DocEncoding(d, cfg)));
      ok := true;
      if !d.suppressEncoding {
        var enc := [];
        if d.forcedEncoding.Some? {
          enc := d.forcedEncoding.value;
        } else {
          enc := cfg.encoding;
        }
        if enc != [] {
          if cfg.enforce {
            ok := CheckEncoding(enc);
            if !ok {
              return;
            }
          }
          ok := printer.PrintAttr("encoding", enc, cfg.enforce);
        }
      }
    }

    method PrintStandalone(d: DocDecl)
      requires printer.Valid()
      modifies printer
      ensures printer.Valid() && printer.breaks == old(printer.breaks)
      ensures printer.plain == old(printer.plain) + AttsBytes(StandaloneAtts(d))
    {
      hide AttBytes, ValidName, PenOf, LastOf, Tell;
      LowerCaseName("standalone");
      AttsOne(Att("standalone", "yes"));
      AttsOne(Att("standalone", "no"));
      if d.standalone.Some? {
        var v: Str := "yes";
        if !d.standalone.value {
          v := "no";
        }
        var _ := printer.PrintAttr("standalone", v, cfg.enforce);
      }
    }

    /** Doc.open: the XML declaration. */
    method OpenDoc(d: DocDecl) returns (ok: bool)
      requires printer.Valid()
      modifies printer
      ensures printer.Valid() && printer.breaks == old(printer.breaks)
      ensures ok <==> StartTag(Doc(d), cfg).Some?
      ensures ok ==> printer.plain == old(printer.plain) + OpenBytes(HDoc(cfg.newline), DocAtts(d, cfg))
    {
      hide AttsBytes, VersionAtts, EncodingAtts, StandaloneAtts, StartTag, PenOf, LastOf, Tell;
      ghost var v, e, a := VersionAtts(d, cfg), EncodingAtts(d, cfg), StandaloneAtts(d);
      AttsConcat(v + e, a);
      AttsConcat(v, e);
      printer.WriteString("<?xml");
      PrintVersion(d);
      ok := PrintEncoding(d);
      if !ok {
        return;
      }
      PrintStandalone(d);
      var space: Str := [];
      if d.suppressVersion && (d.suppressEncoding || DocEncoding(d, cfg) == []) && d.standalone.None? {
        space := " ";
      }
      NoDecls(d, cfg);
      DeclPieces(old(printer.plain), "<?xml", AttsBytes(v), AttsBytes(e), AttsBytes(a), space, "?>", cfg.newline);
      printer.WriteString(space);
      printer.WriteString("?>");
      printer.WriteString(cfg.newline);
    }

    /** DTD.open. */
    method OpenDTD(name: Str, publicID: Str, systemID: Str) returns (ok: bool)
      requires printer.Valid()
      modifies printer
      ensures printer.Valid() && printer.breaks == old(printer.breaks)
      ensures ok <==> StartTag(DTD(name, publicID, systemID), cfg).Some?
      ensures ok ==> printer.plain == old(printer.plain) + OpenBytes(HDTD(name, publicID, systemID), [])
    {
      hide ValidName, ExternalId, ExternalIdOk, PenOf, LastOf, Tell;
      if cfg.enforce {
        if name == [] {
          return false;
        }
        ok := CheckName(name);
        if !ok {
          return;
        }
      }
      printer.WriteString("<!DOCTYPE ");
      printer.WriteString(name);
      ok := OpenExternal(publicID, systemID);
      Assoc(old(printer.plain), "<!DOCTYPE ", name);
      Assoc(old(printer.plain), "<!DOCTYPE " + name, ExternalPart(publicID, systemID));
    }

    function ExternalPart(pub: Str, sys: Str): Str {
      if pub != [] || sys != [] then " " + ExternalId(pub, sys) else []
    }

    method OpenExternal(publicID: Str, systemID: Str) returns (ok: bool)
      requires printer.Valid()
      modifies printer
      ensures printer.Valid() && printer.breaks == old(printer.breaks)
      ensures ok <==> (cfg.enforce ==> ExternalIdOk(publicID, systemID))
      ensures ok ==> printer.plain == old(printer.plain) + ExternalPart(publicID, systemID)
    {
      hide ExternalId, ExternalIdOk, PenOf, LastOf, Tell;
      ExternalIdNone();
      if publicID != [] || systemID != [] {
        Assoc(printer.plain, " ", ExternalId(publicID, systemID));
        printer.WriteString(" ");
        ok := printer.WriteExternalID(publicID, systemID, cfg.enforce);
      } else {
        ok := true;
      }
    }

    lemma ExternalIdNone()
      ensures ExternalIdOk([], [])
    {
    }

    /** DTDAttList.open. */
    method OpenAttList(name: Str, attrs: seq<AttDecl>) returns (ok: bool)
      requires printer.Valid()
      modifies printer
      ensures printer.Valid() && printer.breaks == old(printer.breaks)
      ensures ok <==> StartTag(DTDAttList(name, attrs), cfg).Some?
      ensures ok ==> printer.plain == old(printer.plain) + OpenBytes(HAttList(name), [])
    {
      hide ValidName, PenOf, LastOf, Tell;
      if cfg.enforce {
        if name == [] {
          return false;
        }
        ok := CheckName(name);
        if !ok {
          return;
        }
      }
      Assoc(printer.plain, "<!ATTLIST ", name);
      printer.WriteString("<!ATTLIST ");
      printer.WriteString(name);
      ok := true;
    }

    /** The open method of a node that is not an element. */
    method OpenOther(v: Startable) returns (ok: bool)
      requires Slotted(v) && !v.ElemStart?
      modifies this`doc, this`clean, printer
      ensures Inv()
      ensures if old(clean) && StartTag(v, cfg).Some? then
          ok && clean && doc == old(doc).(stack := Push(old(doc).stack, Fresh(v, cfg.newline, StartTag(v, cfg).value)))
        else !clean
      ensures ok && old(clean) ==> clean
    {
      hide Inner, Match, ZipBytes, OpenBytes, Levels, NodesOk, ValidName, DocAtts, ValidEncoding, ExternalIdOk,
        PenOf, LastOf, Tell;
      ghost var atts := if StartTag(v, cfg).Some? then StartTag(v, cfg).value.atts else [];
      match v {
        case Comment(_) =>
          OpenComments();
          printer.WriteString("<!--");
          ok := true;
        case CData(_) =>
          OpenComments();
          printer.WriteString("<![CDATA[");
          ok := true;
        case Doc(d) => ok := OpenDoc(d);
        case DTD(name, pub, sys) => ok := OpenDTD(name, pub, sys);
        case DTDAttList(name, attrs) => ok := OpenAttList(name, attrs);
      }
      if ok && clean {
        PushDoc(v, atts);
      } else {
        clean := false;
      }
    }

    lemma OpenComments()
      ensures OpenBytes(HComment, []) == "<!--" && OpenBytes(HCData, []) == "<![CDATA["
    {
    }

    /** The document after an element has been started with this tag. */
    static function Started(z: Zip, e: Elem, newline: Str, tag: Tag): Zip {
      z.(stack := Push(z.stack, Fresh(ElemStart(e), newline, tag)))
    }

    /** The loop of Elem.open over the attributes given with the element. */
    method OpenAttrs(e: Elem, ghost z: Zip) returns (ok: bool)
      requires Inv() && (clean ==> doc == Started(z, e, cfg.newline, FirstTag(e)))
      modifies this`nodes, this`last, this`doc, this`clean, printer, indenter
      ensures Inv() && Retagged(old(nodes), nodes, current)
      ensures var t := AddAttrs(FirstTag(e), e.attrs, cfg.enforce);
        if old(clean) && t.Some? then ok && clean && doc == Started(z, e, cfg.newline, t.value) else !clean
      ensures ok && old(clean) ==> clean
    {
      hide Inner, Match, ZipBytes, OpenBytes, Levels, NodesOk, ValidName, FirstTag, FullName, AddAttrs, PenOf,
        LastOf, Tell;
      var i := 0;
      ghost var tag := FirstTag(e);
      assert e.attrs[0..] == e.attrs;
      while i < |e.attrs|
        invariant i <= |e.attrs| && Inv() && Retagged(old(nodes), nodes, current)
        invariant clean ==>
          old(clean) && AddAttrs(tag, e.attrs[i..], cfg.enforce) == AddAttrs(FirstTag(e), e.attrs, cfg.enforce)
        invariant clean ==> doc == Started(z, e, cfg.newline, tag)
        invariant old(clean) ==> clean
      {
        HeadIsElem(ElemStart(e), cfg.newline);
        AddAttrsStep(tag, e.attrs, i, cfg.enforce);
        if clean {
          AttrCallFresh(doc, cap, e, tag, e.attrs[i], cfg);
        }
        ok := WriteAttr(e.attrs[i]);
        if !ok {
          clean := false;
          return;
        }
        if clean {
          tag := AddAttr(tag, e.attrs[i], cfg.enforce).value;
        }
        i := i + 1;
      }
      AddAttrsEnd(tag, cfg.enforce);
      assert e.attrs[i..] == [];
      ok := true;
    }

    /** Elem.open: the name, the element's own namespace, the attributes given with it. */
    method OpenElem(e: Elem) returns (ok: bool)
      requires Slotted(ElemStart(e))
      modifies this`nodes, this`last, this`doc, this`clean, printer, indenter
      ensures Inv() && Retagged(old(nodes), nodes, current)
      ensures if old(clean) && ElemTag(e, cfg.enforce).Some? then
          ok && clean &&
          doc == old(doc).(stack := Push(old(doc).stack,
            Fresh(ElemStart(e), cfg.newline, ElemTag(e, cfg.enforce).value)))
        else !clean
      ensures ok && old(clean) ==> clean
    {
      hide Inner, Match, ZipBytes, OpenBytes, Levels, NodesOk, ValidName, FirstTag, FullName, AddAttrs, PenOf,
        LastOf, Tell;
      ok := OpenElemName(e);
      if ok {
        ok := OpenAttrs(e, old(doc));
      }
    }

    /** The first lines of Elem.open: the name. */
    method PrintElemName(e: Elem) returns (ok: bool)
      requires Slotted(ElemStart(e))
      modifies this`doc, this`clean, printer
      ensures Inv()
      ensures ok <==> (cfg.enforce ==> FullName(e.prefix, e.name) != [] && ValidName(FullName(e.prefix, e.name)))
      ensures if old(clean) && ok then
        clean && doc == old(doc).(stack := Push(old(doc).stack, NamedFrame(e, cfg.newline)))
        else !clean
    {
      hide Inner, Match, ZipBytes, Levels, NodesOk, ValidName, FullName, AttBytes, OpenBytes, PenOf, LastOf, Tell;
      var name := FullName(e.prefix, e.name);
      if cfg.enforce {
        ok := name != [];
        if ok {
          ok := CheckName(name);
        }
        if !ok {
          clean := false;
          return;
        }
      }
      PrintTagName(name);
      ok := true;
      if clean {
        PushDoc(ElemStart(e), []);
      }
    }

    method PrintTagName(name: Str)
      requires printer.Valid()
      modifies printer
      ensures printer.Valid() && printer.breaks == old(printer.breaks)
      ensures printer.plain == old(printer.plain) + OpenBytes(HElem(name), [])
    {
      Assoc(printer.plain, "<", name);
      assert OpenBytes(HElem(name), []) == "<" + name;
      printer.WriteString("<");
      printer.WriteString(name);
    }

    static function NamedFrame(e: Elem, newline: Str): Frame {
      Fresh(ElemStart(e), newline, Tag([], []))
    }

    /** Elem.open up to the attributes. */
    method OpenElemName(e: Elem) returns (ok: bool)
      requires Slotted(ElemStart(e))
      modifies this`nodes, this`doc, this`clean, printer
      ensures Inv() && Retagged(old(nodes), nodes, current)
      ensures ok <==> (cfg.enforce ==> ElemNameOk(e))
      ensures if old(clean) && ok then clean &&
          doc == old(doc).(stack := Push(old(doc).stack, Fresh(ElemStart(e), cfg.newline, FirstTag(e))))
        else !clean
    {
      hide Inner, Match, ZipBytes, Levels, NodesOk, ValidName, FullName, AttBytes, PenOf, LastOf, Tell;
      ok := PrintElemName(e);
      if ok && e.prefix != [] && e.uri != [] {
        ok := OpenOwnNs(Ns(e.prefix, e.uri, true));
      }
    }

    method PrintOwnNs(ns: Ns) returns (ok: bool)
      requires Struct() && current >= 0
      modifies this`nodes, printer
      ensures Struct() && PenNow() == old(PenNow()) &&
        nodes == old(nodes)[current := old(nodes[current]).(namespaces := [ns])]
      ensures ok <==> (cfg.enforce ==> ValidName("xmlns:" + ns.prefix))
      ensures ok ==> printer.plain == old(printer.plain) + AttBytes(NsAtt(ns).name, ns.uri)
    {
      hide Levels, NodesOk, ValidName, AttBytes, PenOf, LastOf, Tell;
      SetNamespaces(nodes, current, [ns]);
      nodes := nodes[current := nodes[current].(namespaces := [ns])];
      ok := printer.PrintAttr("xmlns:" + ns.prefix, ns.uri, cfg.enforce);
    }

    /** The declaration of an element's own namespace. */
    method OpenOwnNs(ns: Ns) returns (ok: bool)
      requires Inv() && current >= 0
      requires clean ==> Untagged(doc)
      modifies this`nodes, this`doc, this`clean, printer
      ensures Inv() && Retagged(old(nodes), nodes, current)
      ensures ok <==> (cfg.enforce ==> ValidName("xmlns:" + ns.prefix))
      ensures clean ==> old(clean) && ok && doc == WithOwnNs(old(doc), NsAtt(ns), ns)
      ensures old(clean) && ok ==> clean
    {
      hide Match, ZipBytes, Levels, NodesOk, ValidName, AttBytes, NsAtt, PenOf, LastOf, Tell;
      ok := PrintOwnNs(ns);
      if ok && clean {
        assert doc.stack.top.atts + [NsAtt(ns)] == [NsAtt(ns)];
        AttrBytesAdded(doc, NsAtt(ns), [ns], doc.stack.top.tagged);
        MatchNamespaces(old(nodes), current, [ns], doc.stack, [NsAtt(ns)], doc.stack.top.tagged, cfg.newline);
        NsAttValue(ns);
        if indenter != null {
          PenAttr(doc, WithOwnNs(doc, NsAtt(ns), ns).stack.top, cfg.newline, indenter.unit);
        }
        doc := WithOwnNs(doc, NsAtt(ns), ns);
      } else {
        clean := false;
      }
    }

    lemma NsAttValue(ns: Ns)
      ensures NsAtt(ns).value == ns.uri
    {
    }

    /** The innermost node is an element whose start tag holds its name only. */
    static predicate Untagged(z: Zip) {
      z.stack.Push? && !z.stack.top.entered && z.stack.top.head.HElem? && z.stack.top.atts == []
    }

    static function WithOwnNs(z: Zip, a: Att, ns: Ns): Zip {
      if z.stack.Bottom? then z else z.(stack := z.stack.(top := z.stack.top.(atts := [a], nss := [ns])))
    }

    // ---------------------------------------------------------------- opening, and the content of elements

    /** The state, the event and the start tag of node.opened, and their effect on the document. */
    method EnterNode() returns (ok: bool)
      requires Loose() && current >= 0 && nodes[current].state == StateOpen && (clean ==> Track())
      modifies this`nodes, this`doc, this`clean, printer, indenter
      ensures Struct()
      ensures ok ==> nodes == EnteredSlots(old(nodes), current)
      ensures clean ==> old(clean) && ok && doc == EnteredZip(old(doc))
      ensures clean ==> TrackTop(old(nodes[current]).children > 0 || Pending(old(nodes[current]).start) != [])
      ensures old(clean) ==>
        (clean <==> (old(nodes[current]).start.ElemStart? ==> DeclarationsOk(old(doc).stack.top.nss, cfg.enforce)))
      ensures !ok ==> !clean
      ensures ok && old(clean) ==> clean
    {
      hide Undeclared, AttsBytes, Levels, NodesOk, AllOpened, Match, ZipBytes, FrameBytes, DeclarationsOk,
        EnterText, EnteredNode, Before, Opened, PenOf, Tell, LastOf;
      ghost var n := nodes[current];
      if clean {
        MatchTop(nodes, current, doc.stack, cfg.newline);
        if indenter != null {
          TellOpened(doc, last, n.children, |printer.plain|, cfg.newline, indenter.unit);
        }
      }
      ok := Enter();
      if !ok {
        clean := false;
      } else if clean {
        assert nodes[current := n] == old(nodes);
        EnterDoc(n, n.children > 0 || Pending(n.start) != []);
      }
    }

    /** node.opened, up to what it remembers: the innermost node is entered and writes the content it was
        given. */
    method OpenContent() returns (ok: bool)
      requires Loose() && current >= 0 && nodes[current].state == StateOpen && (clean ==> Track())
      modifies this, printer, indenter
      ensures Struct()
      ensures ok ==> current == old(current) && Wrote(EnteredSlots(old(nodes), current), old(retired), old(cap),
        nodes, retired, current, Pending(old(nodes[current]).start))
      ensures if old(clean) && OpenTopOk(old(doc), cfg) then
          ok && clean && Remembered(Moved(doc, cap)) == OpenTop(old(doc), old(cap), cfg, grow) &&
          TrackTop(old(nodes[current]).children > 0 || Pending(old(nodes[current]).start) != [])
        else !clean
      ensures clean ==> doc.stack.Push? && doc.stack.top.told == None
      ensures ok && old(clean) ==> clean
      decreases Weight(nodes[current].start), 1, 0
    {
      hide Undeclared, AttsBytes, Levels, NodesOk, AllOpened, Match, ZipBytes, FrameBytes, ItemsOk, LeavesOk,
        ItemTrees, LeafTrees, DeclarationsOk, OpenTop, OpenTopOk, AddItems, AttachAll, Before, Declared, PenOf,
        LastOf, Tell;
      var v := nodes[current].start;
      if clean {
        MatchTop(nodes, current, doc.stack, cfg.newline);
        HeadIsElem(v, cfg.newline);
        if v.ElemStart? {
          OpenTopElem(doc, cap, cfg, grow);
        } else {
          OpenTopOther(doc, cap, cfg, grow);
        }
      }
      ok := EnterNode();
      if !ok {
        return;
      }
      if Pending(v) != [] {
        ok := WritePending(v);
      } else {
        NoItems(doc, cap, cfg, grow);
      }
    }

    /** node.opened. */
    method NodeOpened() returns (ok: bool)
      requires Loose() && current >= 0 && nodes[current].state == StateOpen && (clean ==> Track())
      modifies this, printer, indenter
      ensures Struct()
      ensures ok ==> current == old(current) && Wrote(EnteredSlots(old(nodes), current), old(retired), old(cap),
        nodes, retired, current, Pending(old(nodes[current]).start))
      ensures if old(clean) && OpenTopOk(old(doc), cfg) then
          ok && clean && Moved(doc, cap) == OpenTop(old(doc), old(cap), cfg, grow) &&
          TrackTop(old(nodes[current]).children > 0 || Pending(old(nodes[current]).start) != [])
        else !clean
      ensures ok && old(clean) ==> clean
      decreases Weight(nodes[current].start), 1, 1
    {
      hide Levels, NodesOk, Match, ZipBytes, FrameBytes, OpenTop, OpenTopOk, Before, Load, PenOf, LastOf, Pending,
        EnteredNode, KeepsTop, Tell;
      ghost var n := nodes[current];
      var p := Pointer(|retired|, current);
      ok := OpenContent();
      Remember(p);
      if clean {
        WroteKind(old(nodes), old(retired), old(cap), nodes, retired, current, Pending(n.start));
        OpenedTold(n, p, n.children > 0 || Pending(n.start) != []);
      }
    }

    /** The document holds what the writer remembers of the opening of its innermost node. */
    ghost method OpenedTold(n: Node, p: Pointer, kids: bool)
      requires Struct() && current >= 0 && clean && Match(nodes, current, doc.stack, cfg.newline)
      requires doc.stack.Push? && doc.stack.top.entered && doc.stack.top.told == None
      requires printer.plain == Before(doc) + FrameBytes(doc.stack.top, kids)
      requires indenter != null ==> PenNow() == PenOf(doc, cfg.newline, indenter.unit)
      requires var m := Load(nodes, retired, p);
        m.kind == nodes[current].kind && (indenter != null ==> last == OpenedEvent(m.(state := StateOpened)))
      modifies this`doc
      ensures TrackTop(kids) && Moved(doc, cap) == Remembered(Moved(old(doc), cap))
    {
      hide Levels, NodesOk, Match, ZipBytes, PenOf, LastOf, HeadKind, Load, OpenBytes, OpenedBytes;
      MatchTop(nodes, current, doc.stack, cfg.newline);
      MatchTold(nodes, current, doc.stack, cfg.newline);
      if indenter != null {
        PenRemembered(doc, cfg.newline, indenter.unit);
      }
      doc := doc.(stack := doc.stack.(top := Told(doc.stack.top)));
    }

    /** The last lines of node.opened, which goes through the pointer it was called with. */
    method Remember(p: Pointer)
      requires Struct()
      modifies this`last
      ensures Struct()
      ensures var n := Load(nodes, retired, p);
        last == if indenter != null then Event(n.state, n.kind, n.children) else old(last)
    {
      if indenter != null {
        var n := Load(nodes, retired, p);
        last := Event(n.state, n.kind, n.children);
      }
    }

    /** The content of a node that has been entered. */
    method WritePending(v: Startable) returns (ok: bool)
      requires Struct() && current >= 0 && nodes[current].state == StateOpened && nodes[current].start == v
      requires Pending(v) != [] && (clean ==> TrackTop(true) && doc.stack.top.head.HElem? == v.ElemStart?)
      modifies this, printer, indenter
      ensures Struct()
      ensures ok ==> current == old(current)
      ensures ok ==> Wrote(old(nodes), old(retired), old(cap), nodes, retired, current, Pending(v))
      ensures if old(clean) &&
        (if v.ElemStart? then ItemsOk(v.elem.content, cfg) else LeavesOk(Pending(v), cfg.enforce)) then
          ok && clean && TrackTop(true) &&
          Moved(doc, cap) == (if v.ElemStart? then AddItems(old(doc), old(cap), v.elem.content, cfg, grow)
                              else Moved(AttachAll(old(doc), LeafTrees(Pending(v))), old(cap)))
        else !clean
      ensures clean ==> doc.stack.Push? && doc.stack.top.told == old(doc).stack.top.told
      ensures ok && old(clean) ==> clean
      decreases Weight(v), 0
    {
      hide Levels, NodesOk, Match, ZipBytes, FrameBytes, ItemsOk, LeavesOk, ItemTrees, LeafTrees, AddItems,
        AttachAll, Before, PenOf, LastOf, Tell;
      if clean {
        SplitTop(doc);
        AddedTold(doc, cap, v, cfg, grow);
      }
      if v.ElemStart? {
        ok := WriteContent(v.elem.content);
      } else {
        PendingFits(v);
        TopKindOk(nodes, current);
        ok := WriteLeaves(Pending(v));
      }
      if clean {
        SplitTop(doc);
      }
    }

    /** Writer.Next: counts a child of the innermost node, and opens it if need be. */
    method Next() returns (ok: bool)
      requires Inv()
      modifies this, printer, indenter
      ensures Inv()
      ensures ok ==> current == old(current) && |nodes| >= |old(nodes)|
      ensures ok && current >= 0 ==> nodes[current].state == StateOpened && nodes[current].children > 0
      ensures ok ==> OneMore(old(nodes), nodes, current)
      ensures if old(clean) && OpenTopOk(old(doc), cfg) then
          ok && clean && Moved(doc, cap) == OpenTop(old(doc), old(cap), cfg, grow)
        else !clean
      ensures IsOpened(old(nodes), old(current)) ==>
        ok && nodes == CountChild(old(nodes), old(current)) && retired == old(retired) && cap == old(cap) &&
        clean == old(clean)
      ensures ok && old(clean) ==> clean
      decreases TopWeight(), 2
    {
      hide Levels, NodesOk, AllOpened, Match, ZipBytes, FrameBytes, OpenTop, OpenTopOk, Before, Pending, Wrote,
        PenOf, LastOf, Tell;
      ok := true;
      if clean {
        MatchTop(nodes, current, doc.stack, cfg.newline);
        OpenTopEntered(doc, cap, cfg, grow);
      }
      if current >= 0 {
        AddChild(nodes, current);
        TopKindOk(nodes, current);
        if clean {
          MatchChild(nodes, current, doc.stack, cfg.newline);
        }
        nodes := nodes[current := nodes[current].(children := nodes[current].children + 1)];
        if nodes[current].state == StateOpen {
          ghost var n0, r0, c0 := nodes, retired, cap;
          ok := NodeOpened();
          if ok {
            WroteOpened(n0, r0, c0, nodes, retired, current, Pending(n0[current].start));
            OneMoreOpened(old(nodes), r0, c0, nodes, retired, current);
          }
          if clean {
            SplitTop(doc);
          }
        }
      }
    }

    static predicate IsOpened(nodes: seq<Node>, k: int) {
      0 <= k < |nodes| && nodes[k].state == StateOpened
    }

    /** The leaves that a Comment, a CData or a DTDAttList was given. */
    method WriteLeaves(items: seq<Writable>) returns (ok: bool)
      requires Inv() && IsOpened(nodes, current)
      requires forall w | w in items :: w.WLeaf? && nodes[current].kind in Parents(LeafKind(w.leaf))
      modifies this, printer, indenter
      ensures Inv()
      ensures ok ==> current == old(current)
      ensures ok ==> Wrote(old(nodes), old(retired), old(cap), nodes, retired, current, items)
      ensures if old(clean) && LeavesOk(items, cfg.enforce) then
          ok && clean && cap == old(cap) && doc == AttachAll(old(doc), LeafTrees(items))
        else !clean
      ensures clean ==> doc.stack.Push? && doc.stack.top.entered
      ensures ok && old(clean) ==> clean
      decreases 0, 4
    {
      hide Levels, NodesOk, AllOpened, Match, ZipBytes, LeafTrees, LeavesOk, LeafOk, LeafCall, Attach, AttachAll,
        Parents, Wrote, OpenTop, OpenTopOk, PenOf, LastOf, Tell;
      var i := 0;
      assert items[0..] == items;
      while i < |items|
        invariant i <= |items| && Inv() && current == old(current) && cap == old(cap) && retired == old(retired)
        invariant Counting(old(nodes), nodes, current, i)
        invariant clean ==> old(clean)
        invariant clean ==> AttachAll(doc, LeafTrees(items[i..])) == AttachAll(old(doc), LeafTrees(items))
        invariant clean ==> LeavesOk(items[i..], cfg.enforce) == LeavesOk(items, cfg.enforce)
        invariant old(clean) ==> clean
      {
        var l := items[i].leaf;
        assert items[i] in items;
        if clean {
          MatchTop(nodes, current, doc.stack, cfg.newline);
          LeavesStep(doc, items, i, cfg.enforce);
          LeafCallEntered(doc, cap, l, cfg, grow);
          OpenTopEntered(doc, cap, cfg, grow);
        }
        ok := WriteLeaf(l);
        if !ok {
          clean := false;
          return;
        }
        i := i + 1;
      }
      ok := true;
      assert items[i..] == [];
      NoItems(doc, cap, cfg, grow);
      CountingWrote(old(nodes), old(retired), old(cap), nodes, current, items);
      if clean {
        MatchTop(nodes, current, doc.stack, cfg.newline);
      }
    }

    /** The loop of Elem.opened over its content. */
    method WriteContent(items: seq<Writable>) returns (ok: bool)
      requires Inv() && IsOpened(nodes, current)
      requires clean ==> doc.stack.Push? && doc.stack.top.head.HElem?
      modifies this, printer, indenter
      ensures Inv()
      ensures ok ==> current == old(current)
      ensures ok ==> Wrote(old(nodes), old(retired), old(cap), nodes, retired, current, items)
      ensures if old(clean) && ItemsOk(items, cfg) then
          ok && clean && Moved(doc, cap) == AddItems(old(doc), old(cap), items, cfg, grow)
        else !clean
      ensures clean ==> doc.stack.Push? && doc.stack.top.entered
      ensures ok && old(clean) ==> clean
      decreases ItemsWeight(items), 7
    {
      hide Levels, NodesOk, AllOpened, Match, ZipBytes, ItemTree, ItemOk, ItemsOk, AddItems, Counted, KeepsTop,
        ItemWeight, ItemsWeight, PenOf, LastOf, Tell;
      var i := 0;
      assert items[0..] == items;
      while i < |items|
        invariant i <= |items| && Inv() && current == old(current) && IsOpened(nodes, current)
        invariant i == 0 ==> nodes == old(nodes) && retired == old(retired) && cap == old(cap)
        invariant i > 0 ==> Counted(old(nodes), old(retired), old(cap), nodes, retired, current, items[0].WStart?, i)
        invariant clean ==> old(clean) && doc.stack.Push? && doc.stack.top.head.HElem?
        invariant clean ==> AddItems(doc, cap, items[i..], cfg, grow) == AddItems(old(doc), old(cap), items, cfg, grow)
        invariant clean ==> ItemsOk(items[i..], cfg) == ItemsOk(items, cfg)
        invariant old(clean) ==> clean
      {
        ghost var n1, r1, c1 := nodes, retired, cap;
        ItemWeighs(items, i);
        if clean {
          ItemsStep(doc, cap, items, i, cfg, grow);
        }
        ok := WriteItem(items[i]);
        if !ok {
          return;
        }
        CountedOpened(n1, r1, c1, nodes, retired, current, items[i].WStart?);
        WroteNext(old(nodes), old(retired), old(cap), n1, r1, c1, nodes, retired, current, items, i);
        i := i + 1;
      }
      ok := true;
      assert items[i..] == [];
      NoItems(doc, cap, cfg, grow);
      if clean {
        MatchTop(nodes, current, doc.stack, cfg.newline);
      }
    }

    /** One item of an element's content. */
    method WriteItem(w: Writable) returns (ok: bool)
      requires Inv() && IsOpened(nodes, current)
      requires clean ==> doc.stack.Push? && doc.stack.top.head.HElem?
      modifies this, printer, indenter
      ensures Inv()
      ensures ok ==> current == old(current)
      ensures ok ==> Counted(old(nodes), old(retired), old(cap), nodes, retired, current, w.WStart?, 1)
      ensures if old(clean) && ItemOk(w, cfg) then
          ok && clean && Moved(doc, cap) == AddItem(old(doc), old(cap), w, cfg, grow)
        else !clean
      ensures clean ==> doc.stack.Push? && doc.stack.top.head.HElem?
      ensures !ok ==> !clean
      ensures ok && old(clean) ==> clean
      decreases ItemWeight(w), 6
    {
      hide Levels, NodesOk, AllOpened, Match, ZipBytes, Attach, AttachAll, LeafOk, LeafCall, WriteCall, StartTree,
        ItemOk, PenOf, LastOf, Tell, AddItem;
      if clean {
        assert doc.stack.top.entered by {
          MatchTop(nodes, current, doc.stack, cfg.newline);
        }
        ItemMeaning(doc, cap, w, cfg, grow);
      }
      match w {
        case WLeaf(Text(s)) =>
          ok := WriteText(s);
        case WStart(v) =>
          if v.ElemStart? || v.Comment? || v.CData? {
            ok := WriteStartable(v);
          } else {
            ok, clean := false, false;
          }
        case _ =>
          ok, clean := false, false;
      }
    }

    method WriteText(s: Str) returns (ok: bool)
      requires Inv() && IsOpened(nodes, current)
      modifies this, printer, indenter
      ensures Inv()
      ensures ok ==> current == old(current)
      ensures ok ==> Counted(old(nodes), old(retired), old(cap), nodes, retired, current, false, 1)
      ensures if old(clean) && LeafCall(old(doc), old(cap), Text(s), cfg, grow).Done? then
          ok && clean && Done(doc, cap) == LeafCall(old(doc), old(cap), Text(s), cfg, grow)
        else !clean
      ensures !ok ==> !clean
      ensures ok && old(clean) ==> clean
      decreases 0, 4
    {
      hide Levels, NodesOk, AllOpened, Match, ZipBytes, LeafCall, Counted, PenOf, LastOf, Tell;
      if clean {
        MatchTop(nodes, current, doc.stack, cfg.newline);
        OpenTopEntered(doc, cap, cfg, grow);
      }
      ok := WriteLeaf(Text(s));
      if ok {
        ChildCounted(old(nodes), retired, cap, current);
      } else {
        clean := false;
      }
    }

    /** Elem.write, Comment.write, CData.write and DTDAttList.write. */
    method WriteStartable(v: Startable) returns (ok: bool)
      requires Inv() && !v.Doc? && !v.DTD?
      modifies this, printer, indenter
      ensures Inv()
      ensures if old(clean) then
        Follows(WriteCall(old(doc), old(cap), v, cfg, grow), ok, old(doc), old(cap), doc, cap, clean)
              else !clean
      ensures ok ==> current == old(current) && OneMore(old(nodes), nodes, current)
      ensures ok && IsOpened(old(nodes), old(current)) ==>
        Counted(old(nodes), old(retired), old(cap), nodes, retired, current, true, 1)
      ensures ok && old(clean) ==> clean
      decreases TopWeight() + Weight(v), 5
    {
      hide Levels, NodesOk, AllOpened, Match, ZipBytes, StartCall, EndCall, Weight, Counted, KeepsTop, PenOf,
        LastOf, Tell;
      ok := Start(v);
      if !ok {
        return;
      }
      ghost var n1, r1 := nodes, retired;
      if clean {
        StartSettled(old(doc), old(cap), v, cfg, grow);
      }
      ok := End(StartKind(v), []);
      if ok {
        OneMoreKept(old(nodes), n1, r1, nodes, retired, current);
      }
      if ok && IsOpened(old(nodes), old(current)) {
        KeepsBelow(n1, r1, nodes, retired, current);
        CountedThen(old(nodes), old(retired), old(cap), n1, r1, nodes, retired, current, true, 1, 0);
      }
    }

    // ---------------------------------------------------------------- starting

    /** Room for one more slot. */
    method Reserve()
      requires Inv()
      modifies this`nodes, this`cap, this`retired
      ensures Inv() && cap == Pushed(current + 1, old(cap), grow)
      ensures (nodes == old(nodes) && |nodes| > current + 1 && retired == old(retired)) ||
        (nodes == old(nodes) + [CLEARED] && |old(nodes)| == current + 1 &&
         retired == if current + 1 == old(cap) then old(retired) + [old(nodes)] else old(retired))
    {
      hide Levels, NodesOk, AllOpened, Match, ZipBytes, CLEARED, PenOf, LastOf, Tell;
      if |nodes| <= current + 1 {
        Extended(nodes, current, doc.stack, cfg.newline);
        Append();
      }
    }

    /** The slot is cleared and filled, and node.open raises its event. */
    method PutNode(v: Startable)
      requires Inv() && current + 1 < |nodes|
      requires current >= 0 ==> nodes[current].state == StateOpened && nodes[current].children > 0
      modifies this`nodes, this`current, this`last, printer, indenter
      ensures Slotted(v) && current == old(current) + 1 && nodes == old(nodes)[current := FreshNode(v)]
    {
      hide Levels, NodesOk, AllOpened, Match, ZipBytes, Inner, Enclosing, Indenting, PenOf, LastOf, Tell;
      PushOk(nodes, current, v);
      if clean {
        PushInner(nodes, current, v, doc.stack, cfg.newline);
        if indenter != null {
          TellLike(PenNow(), last, LastOf(doc), Event(StateOpen, StartKind(v), 0), |printer.plain|, cfg.newline,
            indenter.unit);
        }
      }
      nodes := nodes[current + 1 := FreshNode(v)];
      current := current + 1;
      WriteIndent(Event(StateOpen, StartKind(v), 0));
      if indenter != null {
        last := Event(StateOpen, StartKind(v), 0);
      }
    }

    method OpenNode(v: Startable) returns (ok: bool)
      requires Slotted(v)
      modifies this`nodes, this`last, this`doc, this`clean, printer, indenter
      ensures Inv() && Retagged(old(nodes), nodes, current)
      ensures if old(clean) && StartTag(v, cfg).Some? then
          ok && clean && doc == old(doc).(stack := Push(old(doc).stack, Fresh(v, cfg.newline, StartTag(v, cfg).value)))
        else !clean
      ensures ok && old(clean) ==> clean
    {
      hide Levels, NodesOk, AllOpened, Match, ZipBytes, Inner, HeadOf, ElemTag, PenOf, LastOf, Tell;
      if v.ElemStart? {
        ok := OpenElem(v.elem);
      } else {
        ok := OpenOther(v);
      }
    }

    /** pushBegin: the parent is checked, room is made, the innermost node counts a child. */
    method PushBegin(kind: NodeKind) returns (ok: bool)
      requires Inv()
      modifies this, printer, indenter
      ensures Inv()
      ensures ok ==> current == old(current) && current + 1 < |nodes|
      ensures ok && current >= 0 ==> nodes[current].state == StateOpened && nodes[current].children > 0
      ensures ok ==> OneMore(old(nodes), nodes, current)
      ensures if !old(clean) then !clean
              else if cfg.enforce && TopKind(old(doc).stack) !in Parents(kind) then
                !ok && clean && doc == old(doc) && cap == old(cap)
              else if OpenTopOk(old(doc), cfg) then
                ok && clean && Moved(doc, cap) ==
                  OpenTop(old(doc), Pushed(Depth(old(doc).stack), old(cap), grow), cfg, grow)
              else !clean
      ensures ok && IsOpened(old(nodes), old(current)) ==>
        Begun(old(nodes), old(retired), old(cap), nodes, retired, current)
      ensures ok && old(clean) ==> clean
      decreases TopWeight() + 1, 2
    {
      hide Levels, NodesOk, AllOpened, Match, ZipBytes, OpenTop, OpenTopOk, Parents, PenOf, LastOf, Tell;
      if clean {
        MatchDepth(nodes, current, doc.stack, cfg.newline);
      }
      if cfg.enforce {
        ok := CheckParent(kind);
        if !ok {
          return;
        }
      }
      Reserve();
      ghost var n1 := nodes;
      ok := Next();
      if ok {
        OneMoreReserved(old(nodes), n1, nodes, current);
      }
    }

    /** The start methods of the node kinds: pushBegin, the slot, pushEnd. */
    method Start(v: Startable) returns (ok: bool)
      requires Inv()
      modifies this, printer, indenter
      ensures Inv()
      ensures if old(clean) then
        Follows(StartCall(old(doc), old(cap), v, cfg, grow), ok, old(doc), old(cap), doc, cap, clean)
              else !clean
      ensures ok ==> current == old(current) + 1 && nodes[current].start == v && nodes[current].state == StateOpen
      ensures ok ==> OneMore(old(nodes), nodes, old(current)) && nodes[current].children == 0
      ensures ok && IsOpened(old(nodes), old(current)) ==>
        Counted(old(nodes), old(retired), old(cap), nodes, retired, old(current), true, 1)
      ensures ok && old(clean) ==> clean
      decreases TopWeight() + Weight(v), 3
    {
      hide Levels, NodesOk, AllOpened, Match, ZipBytes, OpenTop, OpenTopOk, StartTag, Fresh, Counted, Parents,
        Inner, Weight, Begun, PenOf, LastOf, Tell;
      WeightPositive(v);
      ok := PushBegin(StartKind(v));
      if !ok {
        return;
      }
      ghost var n1 := nodes;
      PutNode(v);
      ghost var n2 := nodes;
      ok := OpenNode(v);
      OneMoreStarted(old(nodes), n1, nodes, old(current), v);
      if IsOpened(old(nodes), old(current)) {
        StartCounted(old(nodes), old(retired), old(cap), n1, retired, n2, nodes, old(current), v);
      }
    }

    lemma WeightPositive(v: Startable)
      ensures Weight(v) >= 1
    {
    }

    // ---------------------------------------------------------------- ending

    /** The document is up to date but for the end of its innermost node, which will print `text`. */
    ghost predicate Closing(text: Str, stale: bool)
      reads this, printer, indenter
    {
      && doc.stack.Push? && TrackTop(doc.stack.top.kids != []) && (stale ==> doc.stack.top.head.HElem?)
      && var f := doc.stack.top;
         text == (if stale && !f.full then [] else EndBytes(f.head, f.kids != [], f.full))
    }

    /** node.end after opened, and the decrement in pop. `n` is the pointer that node.end holds. */
    method CloseNode(n: Pointer, prev: NodeState, ghost stale: bool)
      requires Struct() && IsOpened(nodes, current) && PointsTo(nodes, retired, n, current)
      requires clean ==> Closing(EndText(Load(nodes, retired, n), prev), stale)
      requires clean ==> (Load(nodes, retired, n).children == 0 <==> doc.stack.top.kids == [] || stale)
      modifies this, printer, indenter
      ensures Inv() && current == old(current) - 1 && cap == old(cap) && clean == old(clean)
      ensures StoredEnd(old(nodes), old(retired), nodes, retired, n)
      ensures clean ==> doc == ClosedDoc(old(doc), stale)
    {
      hide Levels, NodesOk, AllOpened, Match, Inner, ZipBytes, FrameBytes, Attach, EndBytes, Before, Indenting,
        HeadKind, EndText, PenOf, LastOf, Tell, ClosedDoc;
      var m := Load(nodes, retired, n);
      PopOk(nodes, current);
      TopKindOk(nodes, current);
      if clean {
        MatchTop(nodes, current, doc.stack, cfg.newline);
        CloseBytes(doc, stale);
        if indenter != null {
          TellEnded(doc, stale, last, m.children, cfg.newline, indenter.unit);
        }
      }
      EndEvent(m);
      PrintEnd(m, prev);
      if clean {
        CloseDoc(m, stale);
      }
      DropNode(n);
    }

    /** The ghost half of the end of a node. */
    ghost method CloseDoc(m: Node, stale: bool)
      requires current >= 0 && clean && doc.stack.Push? && Match(nodes, current, doc.stack, cfg.newline)
      requires m.kind == nodes[current].kind
      requires indenter != null ==> Like(last, Event(StateEnded, m.kind, 0))
      modifies this`doc
      ensures doc == ClosedDoc(old(doc), stale) && Match(nodes, current - 1, doc.stack, cfg.newline)
      ensures indenter != null ==> Like(last, LastOf(doc))
    {
      hide Match, Inner, HeadKind, Attach, LastOf, PenOf, Tell;
      MatchTop(nodes, current, doc.stack, cfg.newline);
      var t := Ended(doc.stack.top, stale);
      InnerAttach(nodes, current - 1, Outside(doc), t, cfg.newline);
      InnerTold(nodes, current - 1, doc.stack.below, cfg.newline);
      LastAttached(Outside(doc), t);
      doc := ClosedDoc(doc, stale);
    }

    /** The state is stored through the pointer, and the slot is given up. */
    method DropNode(n: Pointer)
      requires Core() && current >= 0 && PointsTo(nodes, retired, n, current) && AllOpened(nodes, current - 1)
      requires indenter != null ==> indenter.depth == Levels(nodes, current - 1)
      requires clean ==> Match(nodes, current - 1, doc.stack, cfg.newline) && printer.plain == ZipBytes(doc) && Marked()
      modifies this`nodes, this`retired, this`current
      ensures Inv() && current == old(current) - 1
      ensures StoredEnd(old(nodes), old(retired), nodes, retired, n)
    {
      hide Levels, NodesOk, AllOpened, Match, Inner, ZipBytes, PenOf, LastOf, Tell;
      var m := Load(nodes, retired, n).(state := StateEnded);
      SetTop(nodes, current, m, doc.stack, cfg.newline);
      DropTop(nodes, current, m, doc.stack, cfg.newline);
      if n.array_ < |retired| {
        retired := retired[n.array_ := retired[n.array_][n.index := m]];
      } else {
        nodes := nodes[n.index := m];
      }
      current := current - 1;
    }

    method EndEvent(m: Node)
      requires Printing() && (indenter != null && Indenting(m.kind) ==> indenter.depth > 0)
      modifies this`last, printer, indenter
      ensures Printing() && printer.plain == old(printer.plain)
      ensures if indenter == null then PenNow() == old(PenNow()) else
        indenter.depth == DepthAfter(old(indenter.depth), last) &&
          PenNow() == old(PenTold(Event(StateEnded, m.kind, m.children))) &&
        last == Event(StateEnded, m.kind, m.children)
    {
      WriteIndent(Event(StateEnded, m.kind, m.children));
      if indenter != null {
        last := Event(StateEnded, m.kind, m.children);
      }
    }

    method PrintEnd(m: Node, prev: NodeState)
      requires printer.Valid()
      modifies printer
      ensures printer.Valid() && printer.breaks == old(printer.breaks)
      ensures printer.plain == old(printer.plain) + EndText(m, prev)
    {
      hide FullName, PenOf, LastOf, Tell;
      match m.start {
        case Comment(_) => printer.WriteString("-->");
        case CData(_) => printer.WriteString("]]>");
        case Doc(_) =>
        case DTD(_, _, _) =>
          if m.children > 0 {
            printer.WriteString("]>");
          } else {
            printer.WriteString(">");
          }
        case DTDAttList(_, _) => printer.WriteString(">");
        case ElemStart(e) =>
          if prev != StateOpen || m.full || m.children > 0 {
            PrintEndTag(FullName(e.prefix, e.name));
          }
      }
    }

    method PrintEndTag(name: Str)
      requires printer.Valid()
      modifies printer
      ensures printer.Valid() && printer.breaks == old(printer.breaks)
      ensures printer.plain == old(printer.plain) + ("</" + name + ">")
    {
      Assoc(printer.plain, "</", name);
      Assoc(printer.plain, "</" + name, ">");
      printer.WriteString("</");
      printer.WriteString(name);
      printer.WriteString(">");
    }

    /** pop for any kind: node.end and the decrement. */
    method Pop() returns (ok: bool)
      requires Inv() && current >= 0 && (clean ==> Settled(doc))
      modifies this, printer, indenter
      ensures Inv()
      ensures if old(clean) then
        Follows(EndAnyCall(old(doc), old(cap), cfg, grow), ok, old(doc), old(cap), doc, cap, clean)
              else !clean
      ensures ok ==> current == old(current) - 1 && Keeps(old(nodes), old(retired), nodes, retired, old(current))
      ensures !ok ==> !clean
      ensures ok && old(clean) ==> clean
      decreases TopWeight(), 3
    {
      hide Levels, NodesOk, AllOpened, Match, ZipBytes, EndAnyCall, Keeps, Weight, PenOf, LastOf, Tell;
      TopKindOk(nodes, current);
      if nodes[current].state == StateOpen {
        ok := PopFresh();
      } else {
        PopEntered();
        ok := true;
      }
    }

    /** node.end for a node that is still unopened: its content is written first, and the pointer taken
        before that may be stale. */
    method PopFresh() returns (ok: bool)
      requires Inv() && current >= 0 && nodes[current].state == StateOpen
      modifies this, printer, indenter
      ensures Inv()
      ensures if old(clean) then
        Follows(EndAnyCall(old(doc), old(cap), cfg, grow), ok, old(doc), old(cap), doc, cap, clean)
              else !clean
      ensures ok ==> current == old(current) - 1 && Keeps(old(nodes), old(retired), nodes, retired, old(current))
      ensures !ok ==> !clean
      ensures ok && old(clean) ==> clean
      decreases Weight(nodes[current].start), 2
    {
      hide Levels, NodesOk, AllOpened, Match, ZipBytes, OpenTopOk, OpenTop, Pending, EndText, EndBytes, Wrote,
        Keeps, Attach, FrameBytes, Before, Stale, StoredEnd, Load, PointsTo, PenOf, LastOf, Tell;
      var n := Pointer(|retired|, current);
      ghost var z, c := doc, cap;
      if clean {
        MatchTop(nodes, current, doc.stack, cfg.newline);
      }
      ok := NodeOpened();
      if !ok {
        return;
      }
      WrotePoints(old(nodes), old(retired), old(cap), nodes, retired, current, Pending(old(nodes[current]).start));
      ghost var stale := false;
      if clean {
        ghost var f := z.stack.top;
        OpenedKids(z, c, cfg, grow);
        MatchDepth(nodes, current, doc.stack, cfg.newline);
        EndTextFresh(Load(nodes, retired, n), f, Pending(f.start) != [], current, c, cfg.newline);
        stale := Stale(f, current, c);
        CloseTopFresh(z, c, cfg, grow);
      }
      ghost var n1, r1 := nodes, retired;
      CloseNode(n, StateOpen, stale);
      StoredKeeps(old(nodes), old(retired), n1, r1, nodes, retired, n);
    }

    /** node.end for a node that has been opened before. */
    method PopEntered()
      requires Inv() && IsOpened(nodes, current) && (clean ==> Settled(doc))
      modifies this, printer, indenter
      ensures Inv() && current == old(current) - 1 && Keeps(old(nodes), old(retired), nodes, retired, old(current))
      ensures if old(clean) then
        Follows(EndAnyCall(old(doc), old(cap), cfg, grow), true, old(doc), old(cap), doc, cap, clean)
              else !clean
      ensures old(clean) ==> clean
    {
      hide Levels, NodesOk, AllOpened, Match, ZipBytes, OpenTopOk, OpenTop, EndText, EndBytes, Keeps, Attach,
        FrameBytes, Before, StoredEnd, Load, PointsTo, PenOf, LastOf, Tell;
      var n := Pointer(|retired|, current);
      PointsHere(nodes, retired, current);
      if clean {
        MatchTop(nodes, current, doc.stack, cfg.newline);
        OpenTopEntered(doc, cap, cfg, grow);
        SplitTop(doc);
        EndTextOpened(nodes[current], doc.stack.top, cfg.newline);
      }
      CloseNode(n, StateOpened, false);
      StoredKeeps(old(nodes), old(retired), old(nodes), old(retired), nodes, retired, n);
    }

    /** Writer.End: refused unless the innermost node has this kind and these names. */
    method End(kind: NodeKind, names: seq<Str>) returns (ok: bool)
      requires Inv() && (clean ==> Settled(doc))
      modifies this, printer, indenter
      ensures Inv()
      ensures if old(clean) then
        Follows(EndCall(old(doc), old(cap), kind, names, cfg, grow), ok, old(doc), old(cap), doc, cap, clean)
              else !clean
      ensures ok ==> old(current) >= 0 && current == old(current) - 1
      ensures ok ==> Keeps(old(nodes), old(retired), nodes, retired, old(current))
      ensures ok && old(clean) ==> clean
      decreases TopWeight(), 4
    {
      hide Levels, NodesOk, AllOpened, ZipBytes, EndAnyCall, Keeps, PenOf, LastOf, Tell;
      if current < 0 {
        return false;
      }
      if clean {
        MatchTop(nodes, current, doc.stack, cfg.newline);
      }
      TopKindOk(nodes, current);
      ok := NamesMatch(nodes[current].start, kind, names);
      if !ok || nodes[current].kind != kind {
        return false;
      }
      ok := Pop();
    }

    /** How many names a node of this kind has. */
    static function NamesOf(kind: NodeKind): nat {
      if kind == ElemNode then 2 else if kind == DTDNode || kind == DTDAttListNode then 1 else 0
    }

    /** The comparison of names in Writer.End, which looks at the field that belongs to `kind`. A field
        of another kind is empty. */
    static method NamesMatch(v: Startable, kind: NodeKind, names: seq<Str>) returns (ok: bool)
      ensures StartKind(v) == kind ==> (ok <==> NamesFit(v, names))
      ensures StartKind(v) != kind ==> (ok <==> |names| <= NamesOf(kind) && forall n | n in names :: n == [])
    {
      if |names| == 0 {
        ok := true;
      } else if |names| == 1 {
        var name: Str := [];
        match kind {
          case ElemNode =>
            if v.ElemStart? {
              name := v.elem.name;
            }
          case DTDNode =>
            if v.DTD? {
              name := v.name;
            }
          case DTDAttListNode =>
            if v.DTDAttList? {
              name := v.name;
            }
          case _ =>
            return false;
        }
        assert names == [names[0]] && names[0] in names;
        ok := name == names[0];
      } else if |names| == 2 {
        assert names == [names[0], names[1]] && names[0] in names && names[1] in names;
        ok := kind == ElemNode &&
          (if v.ElemStart? then
            v.elem.prefix == names[0] && v.elem.name == names[1] else names[0] == [] && names[1] == []);
      } else {
        ok := false;
      }
    }

    // ---------------------------------------------------------------- leaves, below and at the top

    /** The checks that the write method of a leaf makes first. */
    method AcceptLeaf(l: Leaf) returns (ok: bool)
      requires Inv()
      ensures clean ==> (ok <==> !(cfg.enforce && (TopKind(doc.stack) !in Parents(LeafKind(l)) || !LeafAccepted(l))))
    {
      hide Levels, NodesOk, AllOpened, ZipBytes, Match, LeafAccepted, Parents, PenOf, LastOf, Tell;
      ok := true;
      if cfg.enforce {
        ok := CheckParent(LeafKind(l));
        if ok {
          ok := CheckLeaf(l, cfg.strictChars);
        }
      }
    }

    /** The write methods of the leaves. An error of Next is dropped (writeBeginNext). */
    method WriteLeaf(l: Leaf) returns (ok: bool)
      requires Inv()
      modifies this, printer, indenter
      ensures Inv()
      ensures if old(clean) then
        Follows(LeafCall(old(doc), old(cap), l, cfg, grow), ok, old(doc), old(cap), doc, cap, clean)
              else !clean
      ensures ok && IsOpened(old(nodes), old(current)) ==>
        current == old(current) && cap == old(cap) && nodes == CountChild(old(nodes), current) &&
          retired == old(retired)
      ensures ok && clean ==> current == old(current) && OneMore(old(nodes), nodes, current)
      ensures ok && old(clean) && OpenTopOk(old(doc), cfg) ==> clean
      decreases TopWeight(), 3
    {
      hide Levels, NodesOk, AllOpened, ZipBytes, Match, LeafAccepted, LeafFinishes, OpenTop, OpenTopOk, Parents,
        Attach, LeafBytes, PenOf, LastOf, Tell;
      ok := AcceptLeaf(l);
      if !ok {
        return;
      }
      var _ := Next();
      ok := LeafBody(l);
    }

    /** What follows Next in the write method of a leaf. */
    method LeafBody(l: Leaf) returns (ok: bool)
      requires Inv() && (clean && current >= 0 ==> nodes[current].state == StateOpened && nodes[current].children > 0)
      modifies this`last, this`doc, this`clean, printer, indenter
      ensures Inv() && (ok <==> LeafFinishes(l, cfg.enforce))
      ensures if old(clean) && ok then clean && doc == Attach(old(doc), Leaf(l)) else !clean
    {
      hide Levels, NodesOk, AllOpened, Match, ZipBytes, LeafBytes, LeafFinishes, Attach, Indenting, PenOf, LastOf,
        Tell;
      if clean {
        MatchTop(nodes, current, doc.stack, cfg.newline);
        LastAttached(doc, Leaf(l));
        if indenter != null {
          TellLeaf(doc, l, last, cfg.newline, indenter.unit);
        }
      }
      WriteIndent(Event(StateOpen, LeafKind(l), 0));
      if indenter != null {
        last := Event(StateEnded, LeafKind(l), 0);
      }
      ok := PrintLeaf(l);
      if ok && indenter != null {
        last := Event(StateEnded, LeafKind(l), 0);
      }
      if ok && clean {
        AttachBytes(doc, Leaf(l));
        AttachMatch(nodes, current, doc, Leaf(l), cfg.newline);
        doc := Attach(doc, Leaf(l));
      } else {
        clean := false;
      }
    }

    // ---------------------------------------------------------------- the other calls

    /** Raw.write: whatever is written is not part of the tree. */
    method WriteRaw(s: Str)
      requires Inv()
      modifies this`last, this`clean, printer, indenter
      ensures Inv() && !clean && printer.plain == old(printer.plain) + s
    {
      hide Levels, NodesOk, AllOpened, Match, ZipBytes, PenOf, LastOf, Tell;
      PutRaw(s);
      clean := false;
    }

    method EndElemFull(names: seq<Str>) returns (ok: bool)
      requires Valid()
      modifies this, printer, indenter
      ensures Inv()
      ensures if old(clean) then
          Follows(EndCall(SetFull(old(doc)), old(cap), ElemNode, names, cfg, grow), ok, SetFull(old(doc)), old(cap),
            doc, cap, clean)
        else !clean
      ensures ok ==> SameTo(old(nodes), nodes, current)
    {
      hide Levels, NodesOk, AllOpened, Match, ZipBytes, EndCall, PenOf, LastOf, Tell;
      if clean {
        MatchTop(nodes, current, doc.stack, cfg.newline);
        FullBytes(doc);
        if indenter != null {
          PenFull(doc, cfg.newline, indenter.unit);
        }
      }
      if current >= 0 {
        MarkedFull(nodes, current);
        if clean {
          MatchFull(nodes, current, doc, cfg.newline);
        }
        nodes := nodes[current := nodes[current].(full := true)];
      }
      doc := SetFull(doc);
      ghost var n1, r1 := nodes, retired;
      ok := End(ElemNode, names);
      if ok {
        FullBelow(old(nodes), n1, r1, nodes, retired, current);
      }
    }

    /** Ends nodes while the stack is higher than `limit`: the loop of EndAll, EndDoc and EndToDepth. An empty stack
        cannot be popped, so below -1 this fails. */
    method PopTo(limit: int) returns (ok: bool)
      requires Valid()
      modifies this, printer, indenter
      ensures Valid()
      ensures ok ==> current <= limit
      ensures !ok && clean ==> current == -1 && limit < -1
      ensures ok ==> SameTo(old(nodes), nodes, current)
      ensures if old(clean) && (old(current) < Kept(limit) || OpenTopOk(old(doc), cfg)) then
          clean && Moved(doc, cap) == CloseDown(old(doc), old(cap), Kept(limit), cfg, grow)
        else !clean
      ensures limit >= -1 && clean ==> ok
      ensures ok && old(clean) ==> clean
    {
      hide Levels, NodesOk, AllOpened, Match, ZipBytes, CloseTop, OpenTopOk, Settled, Keeps, SameTo, PenOf, LastOf,
        Tell;
      SameRefl(nodes, current);
      if clean {
        MatchDepth(nodes, current, doc.stack, cfg.newline);
      }
      while current > limit
        invariant Valid() && SameTo(old(nodes), nodes, current)
        invariant clean ==> old(clean)
        invariant old(clean) ==> clean
        invariant clean ==> (current == old(current) && doc == old(doc)) || OpenTopOk(old(doc), cfg)
        invariant clean ==>
          current == Depth(doc.stack) - 1 && ((current == old(current) && doc == old(doc)) || OpenTopOk(doc, cfg))
        invariant clean ==>
          CloseDown(doc, cap, Kept(limit), cfg, grow) == CloseDown(old(doc), old(cap), Kept(limit), cfg, grow)
        decreases current + 1
      {
        if current < 0 {
          return false;
        }
        if clean {
          MatchTop(nodes, current, doc.stack, cfg.newline);
          EndSettled(doc, cap, cfg, grow);
          CloseShallower(doc, cap, cfg, grow);
        }
        ghost var n1, r1 := nodes, retired;
        ok := Pop();
        if !ok {
          return;
        }
        SameBelow(old(nodes), n1, r1, nodes, retired, current);
      }
      ok := true;
    }

    method EndAll() returns (ok: bool)
      requires Valid()
      modifies this, printer, indenter
      ensures Valid()
      ensures if old(clean) then
        Follows(EndAllCall(old(doc), old(cap), cfg, grow), ok, old(doc), old(cap), doc, cap, clean)
              else !clean
      ensures ok && old(clean) ==> clean
      ensures ok ==> current == -1 && SameTo(old(nodes), nodes, current)
    {
      hide Levels, NodesOk, AllOpened, Match, ZipBytes, CloseDown, OpenTopOk, Settled, PenOf, LastOf, Tell;
      if clean {
        MatchTop(nodes, current, doc.stack, cfg.newline);
      }
      ok := PopTo(-1);
    }

    /** EndToDepth(depth, ...), where `depth` is a value that Depth() has returned, or any other. */
    method EndToDepth(depth: int, kind: NodeKind, names: seq<Str>) returns (ok: bool)
      requires Valid()
      modifies this, printer, indenter
      ensures Inv()
      ensures old(clean) ==>
        match EndToDepthCall(old(doc), old(cap), depth, kind, names, cfg, grow)
        case Done(z, c) => ok && clean && doc == z && cap == c
        case Refused =>
          !ok && clean && Moved(doc, cap) == CloseDown(old(doc), old(cap), Kept(depth + 1), cfg, grow)
        case Broken => !ok && !clean
      ensures !old(clean) ==> !clean
      ensures ok ==> SameTo(old(nodes), nodes, current)
    {
      hide Levels, NodesOk, AllOpened, Match, ZipBytes, CloseDown, OpenTopOk, Settled, EndCall, Keeps, SameTo,
        PenOf, LastOf, Tell;
      if clean {
        MatchDepth(nodes, current, doc.stack, cfg.newline);
      }
      ok := PopTo(depth + 1);
      if clean && !ok {
        MatchTop(nodes, current, doc.stack, cfg.newline);
        EndNothing(doc, cap, kind, names, cfg, grow);
      }
      if ok {
        ghost var n1, r1 := nodes, retired;
        ok := End(kind, names);
        if ok {
          SameBelow(old(nodes), n1, r1, nodes, retired, current);
        }
      }
    }

    /** EndDoc ends every node but the outermost, which has to be a Doc. */
    method EndDoc() returns (ok: bool)
      requires Valid()
      modifies this, printer, indenter
      ensures Inv()
      ensures old(clean) ==>
        match EndToDepthCall(old(doc), old(cap), -1, DocNode, [], cfg, grow)
        case Done(z, c) => ok && clean && doc == z && cap == c
        case Refused =>
          !ok && clean && Moved(doc, cap) == CloseDown(old(doc), old(cap), 1, cfg, grow)
        case Broken => !ok && !clean
      ensures !old(clean) ==> !clean
    {
      hide Levels, NodesOk, AllOpened, Match, ZipBytes, CloseDown, OpenTopOk, Settled, EndCall, Keeps, SameTo,
        EndToDepthCall, PenOf, LastOf, Tell;
      ok := EndToDepth(-1, DocNode, []);
    }

    /** EndAny ends the innermost node, of whatever kind it is. */
    method EndAny() returns (ok: bool)
      requires Valid()
      modifies this, printer, indenter
      ensures Inv()
      ensures if old(clean) then
        Follows(EndAnyCall(old(doc), old(cap), cfg, grow), ok, old(doc), old(cap), doc, cap, clean)
              else !clean
      ensures ok && old(clean) ==> clean
      ensures ok ==> SameTo(old(nodes), nodes, current)
    {
      hide Levels, NodesOk, AllOpened, ZipBytes, CloseTop, OpenTopOk, Settled, Keeps, PenOf, LastOf, Tell;
      if current < 0 {
        return false;
      }
      ok := Pop();
      if ok {
        SameBelow(old(nodes), old(nodes), old(retired), nodes, retired, current);
      }
    }

    /** Writer.Write of one node. */
    method Put(w: Writable) returns (ok: bool)
      requires Inv() && (w.WStart? ==> !w.start.Doc? && !w.start.DTD?)
      modifies this, printer, indenter
      ensures Inv()
      ensures if old(clean) then
        Follows(PutCall(old(doc), old(cap), w, cfg, grow), ok, old(doc), old(cap), doc, cap, clean)
              else !clean
      ensures ok && clean ==> current == old(current)
      ensures ok && clean ==>
        if w.WAttr? then Retagged(old(nodes), nodes, current) else OneMore(old(nodes), nodes, current)
    {
      hide Levels, NodesOk, AllOpened, Match, ZipBytes, LeafCall, WriteCall, AttrCall, Counted, Retagged, OneMore,
        PenOf, LastOf, Tell;
      match w {
        case WLeaf(l) => ok := WriteLeaf(l);
        case WStart(v) => ok := WriteStartable(v);
        case WAttr(a) => ok := WriteAttr(a);
        case WRaw(s) =>
          WriteRaw(s);
          ok := true;
      }
    }
  }
}
