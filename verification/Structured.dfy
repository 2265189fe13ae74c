/** The two styles of doc.go: an element given with its attributes and content, and the same element
    written call by call. They agree unless the node slice has to grow at the wrong moment. */
module Structured {
  import opened Bytes
  import opened Check
  import opened Nodes
  import opened Document
  import opened Trees
  import opened TreeProofs
  import opened Runs

  /** The element without the attributes and the content it was given. */
  function Bare(e: Elem): Elem {
    e.(attrs := [], content := [])
  }

  function AttrOps(attrs: seq<Attr>): (ops: seq<Op>)
    ensures forall op | op in ops :: Typed(op)
  {
    if attrs == [] then [] else [OpPut(WAttr(attrs[0]))] + AttrOps(attrs[1..])
  }

  /** The calls of the direct style for a node and everything in it. */
  function Direct(v: Startable): (ops: seq<Op>)
    ensures forall op | op in ops :: Typed(op)
  {
    match v
    case Comment(s) =>
      [OpStart(Comment([]))] + (if s == [] then [] else [OpPut(WLeaf(CommentContent(s)))]) + [OpEnd(CommentNode, [])]
    case CData(s) =>
      [OpStart(CData([]))] + (if s == [] then [] else [OpPut(WLeaf(CDataContent(s)))]) + [OpEnd(CDataNode, [])]
    case ElemStart(e) =>
      [OpStart(ElemStart(Bare(e)))] + AttrOps(e.attrs) + DirectItems(e.content) + [OpEnd(ElemNode, [])]
    case _ => []
  }

  function DirectItem(w: Writable): (ops: seq<Op>)
    ensures forall op | op in ops :: Typed(op)
  {
    match w
    case WLeaf(l) => [OpPut(WLeaf(l))]
    case WStart(v) => Direct(v)
    case _ => []
  }

  function DirectItems(items: seq<Writable>): (ops: seq<Op>)
    ensures forall op | op in ops :: Typed(op)
  {
    if items == [] then [] else DirectItem(items[0]) + DirectItems(items[1..])
  }

  /** The tree as the direct style makes it: no end tag lost, and no child before the opening is remembered. */
  function Uncut(t: Tree): Tree {
    match t
    case Leaf(l) => Leaf(l)
    case Branch(h, atts, kids, full, made) => Branch(h, atts, UncutAll(kids), full, Made(made.tagged, Some(0), false))
  }

  function UncutAll(ts: seq<Tree>): (r: seq<Tree>)
    ensures |r| == |ts|
  {
    if ts == [] then [] else [Uncut(ts[0])] + UncutAll(ts[1..])
  }

  lemma {:induction false} UncutConcat(a: seq<Tree>, b: seq<Tree>)
    ensures UncutAll(a + b) == UncutAll(a) + UncutAll(b)
  {
    if a == [] {
      assert a + b == b;
    } else {
      assert (a + b)[1..] == a[1..] + b;
      UncutConcat(a[1..], b);
    }
  }

  /** A node of this kind can be written. */
  predicate Allowed(z: Zip, kind: NodeKind, cfg: Config) {
    OpenTopOk(z, cfg) && (cfg.enforce ==> TopKind(z.stack) in Parents(kind))
  }

  /** The innermost node is open and opened. */
  predicate Waiting(z: Zip, kind: NodeKind, cfg: Config) {
    (z.stack.Push? ==> z.stack.top.entered) && (cfg.enforce ==> TopKind(z.stack) in Parents(kind))
  }

  /** The innermost node opened without content. */
  function OpenedZip(z: Zip): Zip
    requires z.stack.Push?
  {
    z.(stack := Push(z.stack.below, Told(Opened(z.stack.top))))
  }

  // ---------------------------------------------------------------- one node, call by call

  /** The attributes, one call each. */
  lemma {:induction false} AttrSteps(z: Zip, cap: nat, e: Elem, t: Tag, attrs: seq<Attr>, cfg: Config, grow: Growth)
    requires AddAttrs(t, attrs, cfg.enforce).Some?
    ensures var f := Fresh(ElemStart(e), cfg.newline, t);
      var f' := Fresh(ElemStart(e), cfg.newline, AddAttrs(t, attrs, cfg.enforce).value);
      Steps(z.(stack := Push(z.stack, f)), cap, AttrOps(attrs), cfg, grow) == Done(z.(stack := Push(z.stack, f')), cap)
    decreases attrs
  {
    hide AddAttr, AttrCall;
    var z1 := z.(stack := Push(z.stack, Fresh(ElemStart(e), cfg.newline, t)));
    if attrs != [] {
      AttrCallFresh(z1, cap, e, t, attrs[0], cfg);
      var t' := AddAttr(t, attrs[0], cfg.enforce).value;
      AttrSteps(z, cap, e, t', attrs[1..], cfg, grow);
      var ops := AttrOps(attrs);
      assert ops[0] == OpPut(WAttr(attrs[0])) && ops[1..] == AttrOps(attrs[1..]);
    }
  }

  lemma BareTag(e: Elem, enforce: bool)
    requires ElemTag(e, enforce).Some?
    ensures ElemTag(Bare(e), enforce) == Some(FirstTag(e))
    ensures ElemTag(e, enforce) == AddAttrs(FirstTag(e), e.attrs, enforce)
  {
  }

  /** A start call on a node that is ready. */
  lemma StartWaiting(z: Zip, cap: nat, v: Startable, cfg: Config, grow: Growth)
    requires Waiting(z, StartKind(v), cfg) && StartTag(v, cfg).Some?
    ensures StartCall(z, cap, v, cfg, grow) ==
      Done(z.(stack := Push(z.stack, Fresh(v, cfg.newline, StartTag(v, cfg).value))), Pushed(Depth(z.stack), cap, grow))
  {
    hide StartTag, Parents;
    OpenTopEntered(z, Pushed(Depth(z.stack), cap, grow), cfg, grow);
  }

  /** The first call inside an element enters it; it may as well have been entered before. */
  lemma FirstItemEnters(z: Zip, cap: nat, w: Writable, cfg: Config, grow: Growth)
    requires z.stack.Push? && !z.stack.top.entered && z.stack.top.kids == [] && z.stack.top.head.HElem?
    requires z.stack.top.start.ElemStart? && z.stack.top.start.elem.content == []
    requires DeclarationsOk(z.stack.top.nss, cfg.enforce) && ItemOk(w, cfg)
    ensures DirectItem(w) != []
    ensures Step(z, cap, DirectItem(w)[0], cfg, grow) == Step(OpenedZip(z), cap, DirectItem(w)[0], cfg, grow)
  {
    hide StartTag, Parents, DeclarationsOk, LeafAccepted, LeafFinishes, ItemsOk, Undeclared, Declared;
    var op := DirectItem(w)[0];
    OpenTopElem(z, cap, cfg, grow);
    OpenTopElem(z, Pushed(Depth(z.stack), cap, grow), cfg, grow);
    NoItems(EnteredZip(z), cap, cfg, grow);
    NoItems(EnteredZip(z), Pushed(Depth(z.stack), cap, grow), cfg, grow);
    match w {
      case WLeaf(l) => assert op == OpPut(WLeaf(l));
      case WStart(v) =>
    }
  }

  /** Three runs in a row. */
  lemma StepsThree(z: Zip, cap: nat, a: seq<Op>, z1: Zip, cap1: nat, b: seq<Op>, z2: Zip, cap2: nat, c: seq<Op>,
                   cfg: Config, grow: Growth)
    requires forall op | op in a :: Typed(op)
    requires forall op | op in b :: Typed(op)
    requires forall op | op in c :: Typed(op)
    requires Steps(z, cap, a, cfg, grow) == Done(z1, cap1) && Steps(z1, cap1, b, cfg, grow) == Done(z2, cap2)
    ensures forall op | op in a + b + c :: Typed(op)
    ensures Steps(z, cap, a + b + c, cfg, grow) == Steps(z2, cap2, c, cfg, grow)
  {
    hide Steps;
    StepsConcat(z, cap, a + b, c, cfg, grow);
    StepsConcat(z, cap, a, b, cfg, grow);
  }

  lemma OneStep(z: Zip, cap: nat, op: Op, cfg: Config, grow: Growth)
    requires Typed(op)
    ensures Steps(z, cap, [op], cfg, grow) == Step(z, cap, op, cfg, grow)
  {
    hide Step;
  }

  /** A comment or a CDATA section with its content. */
  lemma SectionSteps(z: Zip, cap: nat, v: Startable, cfg: Config, grow: Growth)
    requires v.Comment? || v.CData?
    requires Waiting(z, StartKind(v), cfg) && ItemOk(WStart(v), cfg)
    ensures var g := StartTree(v, Depth(z.stack), cap, cfg, grow);
      |g.trees| == 1 && Steps(z, cap, Direct(v), cfg, grow) == Done(Attach(z, Uncut(g.trees[0])), g.cap)
  {
    hide Steps, LeafCall, Parents, LeafOk;
    var empty := if v.Comment? then Comment([]) else CData([]);
    var leaf := if v.Comment? then CommentContent(v.content) else CDataContent(v.content);
    var f := Fresh(empty, cfg.newline, Tag([], []));
    var z1, cap1 := z.(stack := Push(z.stack, f)), Pushed(Depth(z.stack), cap, grow);
    StartWaiting(z, cap, empty, cfg, grow);
    OneStep(z, cap, OpStart(empty), cfg, grow);
    var body: seq<Op> := if v.content == [] then [] else [OpPut(WLeaf(leaf))];
    var last := OpEnd(StartKind(v), []);
    OneStep(z1, cap1, last, cfg, grow);
    if v.content == [] {
      NoSteps(z1, cap1, cfg, grow);
      StepsThree(z, cap, [OpStart(empty)], z1, cap1, body, z1, cap1, [last], cfg, grow);
      EndFresh(z, cap1, empty, Tag([], []), cfg, grow);
    } else {
      SectionParents();
      SectionLeaf(z1, cap1, leaf, cfg, grow);
      var z2 := Attach(OpenedZip(z1), Leaf(leaf));
      OneStep(z1, cap1, OpPut(WLeaf(leaf)), cfg, grow);
      StepsThree(z, cap, [OpStart(empty)], z1, cap1, body, z2, cap1, [last], cfg, grow);
      OneStep(z2, cap1, last, cfg, grow);
      OpenTopEntered(z2, cap1, cfg, grow);
      assert z2.stack.top.kids == [Leaf(leaf)];
      assert LeafTrees(Pending(v)) == [Leaf(leaf)];
      assert UncutAll([Leaf(leaf)]) == [Leaf(leaf)];
    }
  }

  lemma NoSteps(z: Zip, cap: nat, cfg: Config, grow: Growth)
    ensures Steps(z, cap, [], cfg, grow) == Done(z, cap)
  {
  }

  lemma SectionParents()
    ensures CommentNode in Parents(CommentContentNode) && CDataNode in Parents(CDataContentNode)
  {
  }

  lemma SectionLeaf(z: Zip, cap: nat, l: Leaf, cfg: Config, grow: Growth)
    requires z.stack.Push? && !z.stack.top.entered && z.stack.top.kids == [] && !z.stack.top.head.HElem?
    requires z.stack.top.start == Comment([]) || z.stack.top.start == CData([])
    requires TopKind(z.stack) in Parents(LeafKind(l)) && LeafOk(l, cfg.enforce)
    ensures LeafCall(z, cap, l, cfg, grow) == Done(Attach(OpenedZip(z), Leaf(l)), cap)
  {
    hide LeafAccepted, LeafFinishes, Attach, Parents;
    OpenTopOther(z, cap, cfg, grow);
    NoItems(EnteredZip(z), cap, cfg, grow);
  }

  // ---------------------------------------------------------------- a whole element

  /** One item of content written into an open element, call by call. */
  lemma {:induction false} ItemSteps(z: Zip, cap: nat, w: Writable, cfg: Config, grow: Growth)
    requires z.stack.Push? && z.stack.top.entered && z.stack.top.head.HElem? && ItemOk(w, cfg)
    ensures var g := ItemTree(w, Depth(z.stack), cap, cfg, grow);
      Steps(z, cap, DirectItem(w), cfg, grow) == Done(AttachAll(z, UncutAll(g.trees)), g.cap)
    decreases w, 2
  {
    hide Steps, StartTree, Direct, LeafCall;
    var g := ItemTree(w, Depth(z.stack), cap, cfg, grow);
    match w {
      case WLeaf(l) =>
        OneStep(z, cap, OpPut(w), cfg, grow);
        LeafCallEntered(z, cap, l, cfg, grow);
        assert UncutAll([Leaf(l)]) == [Leaf(l)];
      case WStart(v) =>
        if v.ElemStart? {
          ElemSteps(z, cap, v.elem, cfg, grow);
        } else {
          SectionSteps(z, cap, v, cfg, grow);
        }
        assert UncutAll(g.trees) == [Uncut(g.trees[0])];
    }
  }

  lemma {:induction false} ItemsSteps(z: Zip, cap: nat, items: seq<Writable>, cfg: Config, grow: Growth)
    requires z.stack.Push? && z.stack.top.entered && z.stack.top.head.HElem? && ItemsOk(items, cfg)
    ensures var g := ItemTrees(items, Depth(z.stack), cap, cfg, grow);
      Steps(z, cap, DirectItems(items), cfg, grow) == Done(AttachAll(z, UncutAll(g.trees)), g.cap)
    decreases items, 0
  {
    hide Steps, ItemTree, DirectItem, AttachAll, ItemOk;
    if items == [] {
      NoSteps(z, cap, cfg, grow);
      NoItems(z, cap, cfg, grow);
    } else {
      var first := ItemTree(items[0], Depth(z.stack), cap, cfg, grow);
      var z1 := AttachAll(z, UncutAll(first.trees));
      ItemSteps(z, cap, items[0], cfg, grow);
      AttachAllKids(z, UncutAll(first.trees));
      DepthAttachAll(z, UncutAll(first.trees));
      var rest := ItemTrees(items[1..], Depth(z.stack), first.cap, cfg, grow);
      ItemsSteps(z1, first.cap, items[1..], cfg, grow);
      StepsConcat(z, cap, DirectItem(items[0]), DirectItems(items[1..]), cfg, grow);
      UncutConcat(first.trees, rest.trees);
      AttachAllConcat(z, UncutAll(first.trees), UncutAll(rest.trees));
    }
  }

  /** The content of an element that has just been started. */
  lemma {:induction false} ContentSteps(z: Zip, cap: nat, items: seq<Writable>, cfg: Config, grow: Growth)
    requires z.stack.Push? && !z.stack.top.entered && z.stack.top.kids == [] && z.stack.top.head.HElem?
    requires z.stack.top.start.ElemStart? && z.stack.top.start.elem.content == []
    requires DeclarationsOk(z.stack.top.nss, cfg.enforce) && ItemsOk(items, cfg) && items != []
    ensures var g := ItemTrees(items, Depth(z.stack), cap, cfg, grow);
      Steps(z, cap, DirectItems(items), cfg, grow) == Done(AttachAll(OpenedZip(z), UncutAll(g.trees)), g.cap)
    decreases items, 1
  {
    hide Step, ItemTrees, DirectItem, AttachAll, ItemOk, Opened;
    FirstItemEnters(z, cap, items[0], cfg, grow);
    var ops := DirectItems(items);
    assert ops[0] == DirectItem(items[0])[0];
    assert Steps(z, cap, ops, cfg, grow) == Steps(OpenedZip(z), cap, ops, cfg, grow);
    EnteredHead(z.stack.top);
    ItemsSteps(OpenedZip(z), cap, items, cfg, grow);
  }

  lemma EnteredHead(f: Frame)
    ensures Opened(f).head == f.head && Opened(f).entered && Opened(f).kids == f.kids && Opened(f).full == f.full
    ensures Opened(f).start == f.start
  {
  }

  /** An element with everything in it, call by call. */
  lemma {:induction false} ElemSteps(z: Zip, cap: nat, e: Elem, cfg: Config, grow: Growth)
    requires Waiting(z, ElemNode, cfg) && ItemOk(WStart(ElemStart(e)), cfg)
    ensures var g := StartTree(ElemStart(e), Depth(z.stack), cap, cfg, grow);
      |g.trees| == 1 && Steps(z, cap, Direct(ElemStart(e)), cfg, grow) == Done(Attach(z, Uncut(g.trees[0])), g.cap)
    decreases e, 1
  {
    hide Steps, Parents, ItemTrees, AddAttrs, ElemTag, ElemNameOk, FirstTag, AttachAll, Attach, DeclarationsOk,
      Undeclared, Declared, ItemsOk, DirectItems, AttrOps;
    var bare := ElemStart(Bare(e));
    var tag := ElemTag(e, cfg.enforce).value;
    var cap1 := Pushed(Depth(z.stack), cap, grow);
    var z1 := z.(stack := Push(z.stack, Fresh(bare, cfg.newline, FirstTag(e))));
    var z2 := z.(stack := Push(z.stack, Fresh(bare, cfg.newline, tag)));
    BareTag(e, cfg.enforce);
    HeadIsElem(bare, cfg.newline);
    StartWaiting(z, cap, bare, cfg, grow);
    OneStep(z, cap, OpStart(bare), cfg, grow);
    AttrSteps(z, cap1, Bare(e), FirstTag(e), e.attrs, cfg, grow);
    var last := OpEnd(ElemNode, []);
    StepsThree(z, cap, [OpStart(bare)], z1, cap1, AttrOps(e.attrs), z2, cap1, DirectItems(e.content) +
      [last], cfg, grow);
    assert [OpStart(bare)] + AttrOps(e.attrs) + (DirectItems(e.content) + [last]) == Direct(ElemStart(e));
    InsideSteps(z, cap1, e, tag, cfg, grow);
  }

  /** The content and the end of an element. */
  lemma {:induction false} InsideSteps(z: Zip, cap: nat, e: Elem, tag: Tag, cfg: Config, grow: Growth)
    requires ItemsOk(e.content, cfg) && DeclarationsOk(tag.nss, cfg.enforce)
    ensures var f := Fresh(ElemStart(e), cfg.newline, tag);
      var z' := z.(stack := Push(z.stack, Fresh(ElemStart(Bare(e)), cfg.newline, tag)));
      var g := ItemTrees(e.content, Depth(z.stack) + 1, cap, cfg, grow);
      Steps(z', cap, DirectItems(e.content) + [OpEnd(ElemNode, [])], cfg, grow) ==
      Done(Attach(z, Branch(f.head, Opened(f).atts, UncutAll(g.trees), f.full, Made(tag.tagged, Some(0), false))),
        g.cap)
    decreases e, 0
  {
    hide Steps, Attach, DeclarationsOk, Undeclared, Declared, AttachAll;
    var bare := ElemStart(Bare(e));
    var z' := z.(stack := Push(z.stack, Fresh(bare, cfg.newline, tag)));
    var last := OpEnd(ElemNode, []);
    if e.content == [] {
      assert DirectItems(e.content) + [last] == [last];
      OneStep(z', cap, last, cfg, grow);
      EndFresh(z, cap, bare, tag, cfg, grow);
      NoItems(z', cap, cfg, grow);
    } else {
      hide ItemTrees, ItemsOk, DirectItems, UncutAll;
      var g := ItemTrees(e.content, Depth(z'.stack), cap, cfg, grow);
      HeadIsElem(bare, cfg.newline);
      ContentSteps(z', cap, e.content, cfg, grow);
      var z3 := AttachAll(OpenedZip(z'), UncutAll(g.trees));
      StepsConcat(z', cap, DirectItems(e.content), [last], cfg, grow);
      OneStep(z3, g.cap, last, cfg, grow);
      AttachAllKids(OpenedZip(z'), UncutAll(g.trees));
      OpenTopEntered(z3, g.cap, cfg, grow);
      assert [] + UncutAll(g.trees) == UncutAll(g.trees);
    }
  }

  // ---------------------------------------------------------------- when the styles differ

  predicate Complete(t: Tree) {
    t.Leaf? || (!Lost(t) && AllComplete(t.kids))
  }

  predicate AllComplete(ts: seq<Tree>) {
    ts == [] || (Complete(ts[0]) && AllComplete(ts[1..]))
  }

  /** Only an element with children loses its end tag. */
  predicate CutsFit(t: Tree) {
    t.Branch? ==> (Lost(t) ==> t.head.HElem? && t.kids != []) && AllCutsFit(t.kids)
  }

  predicate AllCutsFit(ts: seq<Tree>) {
    ts == [] || (CutsFit(ts[0]) && AllCutsFit(ts[1..]))
  }

  /** A lost end tag is missed: the text is shorter than it should be, and otherwise it is as it should be. */
  lemma {:induction false} CutShortens(t: Tree)
    requires CutsFit(t)
    ensures |Render(t)| <= |Render(Uncut(t))|
    ensures if Complete(t) then Render(t) == Render(Uncut(t)) else |Render(t)| < |Render(Uncut(t))|
    decreases t, 1
  {
    hide OpenBytes, OpenedBytes, LeafBytes, RenderAll;
    if t.Branch? {
      AllCutsShorten(t.kids);
      if Lost(t) {
        assert |EndBytes(t.head, t.kids != [], t.full)| > 0;
      }
    }
  }

  lemma {:induction false} AllCutsShorten(ts: seq<Tree>)
    requires AllCutsFit(ts)
    ensures |RenderAll(ts)| <= |RenderAll(UncutAll(ts))|
    ensures if AllComplete(ts) then
      RenderAll(ts) == RenderAll(UncutAll(ts)) else |RenderAll(ts)| < |RenderAll(UncutAll(ts))|
    decreases ts, 0
  {
    hide Render, RenderAll;
    if ts == [] {
    } else {
      CutShortens(ts[0]);
      AllCutsShorten(ts[1..]);
      RenderFirst(ts);
      RenderFirst(UncutAll(ts));
    }
  }

  lemma {:induction false} StartTreeFits(v: Startable, i: nat, cap: nat, cfg: Config, grow: Growth)
    requires StartTag(v, cfg).Some? && (v.ElemStart? ==> ItemsOk(v.elem.content, cfg))
    ensures AllCutsFit(StartTree(v, i, cap, cfg, grow).trees)
    decreases v, 0
  {
    hide StartTag, ItemsOk, ItemTrees, Opened;
    var cap' := Pushed(i, cap, grow);
    HeadIsElem(v, cfg.newline);
    if v.ElemStart? {
      ItemsFit(v.elem.content, i + 1, cap', cfg, grow);
      ItemsCount(v.elem.content, i + 1, cap', cfg, grow);
    } else {
      LeavesFit(Pending(v));
    }
  }

  lemma {:induction false} LeavesFit(items: seq<Writable>)
    ensures AllCutsFit(LeafTrees(items)) && AllComplete(LeafTrees(items))
  {
    if items != [] {
      LeavesFit(items[1..]);
      if items[0].WLeaf? {
        assert LeafTrees(items)[1..] == LeafTrees(items[1..]);
      } else {
        assert LeafTrees(items) == LeafTrees(items[1..]);
      }
    }
  }

  lemma OneLeafFits(l: Leaf)
    ensures AllCutsFit([Leaf(l)]) && AllComplete([Leaf(l)])
  {
    var ts := [Leaf(l)];
    assert ts[1..] == [];
    assert AllCutsFit([]) && AllComplete([]);
    assert CutsFit(ts[0]) && Complete(ts[0]);
  }

  lemma {:induction false} ItemFits(w: Writable, i: nat, cap: nat, cfg: Config, grow: Growth)
    requires ItemOk(w, cfg)
    ensures AllCutsFit(ItemTree(w, i, cap, cfg, grow).trees)
    decreases w, 0
  {
    match w {
      case WStart(v) => StartTreeFits(v, i, cap, cfg, grow);
      case WLeaf(l) => OneLeafFits(l);
      case _ =>
    }
  }

  lemma {:induction false} ItemsFit(items: seq<Writable>, i: nat, cap: nat, cfg: Config, grow: Growth)
    requires ItemsOk(items, cfg)
    ensures AllCutsFit(ItemTrees(items, i, cap, cfg, grow).trees)
    decreases items, 0
  {
    if items != [] {
      var first := ItemTree(items[0], i, cap, cfg, grow);
      ItemFits(items[0], i, cap, cfg, grow);
      OneTree(items[0], i, cap, cfg, grow);
      ItemsFit(items[1..], i, first.cap, cfg, grow);
      var rest := ItemTrees(items[1..], i, first.cap, cfg, grow);
      assert (first.trees + rest.trees)[1..] == rest.trees && (first.trees + rest.trees)[0] == first.trees[0];
    }
  }

  /** Writing an element where it is allowed. */
  lemma WriteWaiting(z: Zip, cap: nat, v: Startable, cfg: Config, grow: Growth)
    requires v.ElemStart? && Waiting(z, ElemNode, cfg) && ItemOk(WStart(v), cfg)
    ensures var g := StartTree(v, Depth(z.stack), cap, cfg, grow);
      |g.trees| == 1 && WriteCall(z, cap, v, cfg, grow) == Done(Attach(z, g.trees[0]), g.cap)
  {
    hide ItemTrees, ElemTag, DeclarationsOk, EndCall, Stale, Finished, Parents, ItemsOk, Attach;
    var cap' := Pushed(Depth(z.stack), cap, grow);
    StartWaiting(z, cap, v, cfg, grow);
    EndFresh(z, cap', v, StartTag(v, cfg).value, cfg, grow);
    HeadIsElem(v, cfg.newline);
  }

  /** A start call opens the innermost node, which may as well have been opened before. */
  lemma StartOpens(z: Zip, cap: nat, v: Startable, cfg: Config, grow: Growth)
    requires Allowed(z, StartKind(v), cfg) && Depth(z.stack) <= cap
    ensures var m := OpenTop(z, Pushed(Depth(z.stack), cap, grow), cfg, grow);
      && (m.zip.stack.Push? ==> m.zip.stack.top.entered) && TopKind(m.zip.stack) == TopKind(z.stack)
      && Depth(m.zip.stack) == Depth(z.stack) < m.cap
      && StartCall(z, cap, v, cfg, grow) == StartCall(m.zip, m.cap, v, cfg, grow)
  {
    hide Parents, StartTag, OpenTopOk, PendingTrees;
    var cap' := Pushed(Depth(z.stack), cap, grow);
    var m := OpenTop(z, cap', cfg, grow);
    OpenTopEntered(m.zip, m.cap, cfg, grow);
    if z.stack.Push? && !z.stack.top.entered {
      PendingGrows(z.stack.top.start, Depth(z.stack.below), cap', cfg, grow);
    }
  }

  /** An element written call by call, wherever it is allowed. */
  lemma DirectSteps(z: Zip, cap: nat, e: Elem, cfg: Config, grow: Growth)
    requires Allowed(z, ElemNode, cfg) && ItemOk(WStart(ElemStart(e)), cfg) && Depth(z.stack) <= cap
    ensures var m := OpenTop(z, Pushed(Depth(z.stack), cap, grow), cfg, grow);
      var g := StartTree(ElemStart(e), Depth(z.stack), m.cap, cfg, grow);
      |g.trees| == 1 && Steps(z, cap, Direct(ElemStart(e)), cfg, grow) == Done(Attach(m.zip, Uncut(g.trees[0])), g.cap)
  {
    hide Steps, StartTree, Parents, ItemsOk, ElemTag, DeclarationsOk, OpenTop, OpenTopOk, StartCall, AttrOps,
      DirectItems, Uncut;
    var m := OpenTop(z, Pushed(Depth(z.stack), cap, grow), cfg, grow);
    StartOpens(z, cap, ElemStart(Bare(e)), cfg, grow);
    SameSteps(z, cap, m, Direct(ElemStart(e)), cfg, grow);
    ElemSteps(m.zip, m.cap, e, cfg, grow);
  }

  /** The two styles of writing an element, wherever it is allowed. `m` is the document with the innermost node
      opened, and the capacity once there is room for the element. Both styles succeed and leave the same open
      nodes; the bytes are equal exactly if the slice keeps its slots (see below). */
  lemma StylesAgree(z: Zip, cap: nat, e: Elem, cfg: Config, grow: Growth)
    requires Allowed(z, ElemNode, cfg) && ItemOk(WStart(ElemStart(e)), cfg) && Depth(z.stack) <= cap
    ensures var m := OpenTop(z, Pushed(Depth(z.stack), cap, grow), cfg, grow);
      var g := StartTree(ElemStart(e), Depth(z.stack), m.cap, cfg, grow);
      && |g.trees| == 1
      && WriteCall(z, cap, ElemStart(e), cfg, grow) == Done(Attach(m.zip, g.trees[0]), g.cap)
      && Steps(z, cap, Direct(ElemStart(e)), cfg, grow) == Done(Attach(m.zip, Uncut(g.trees[0])), g.cap)
      && Depth(Attach(m.zip, g.trees[0]).stack) == Depth(z.stack)
      && (ZipBytes(Attach(m.zip, g.trees[0])) == ZipBytes(Attach(m.zip, Uncut(g.trees[0]))) <==>
          KeepsSlots(e, Depth(z.stack), m.cap, grow))
  {
    hide Steps, StartTree, Parents, ItemsOk, ElemTag, DeclarationsOk, Render, ZipBytes, OpenTop, OpenTopOk,
      StartCall, KeepsSlots, KeepsInside, AttrOps, DirectItems;
    var v := ElemStart(e);
    var m := OpenTop(z, Pushed(Depth(z.stack), cap, grow), cfg, grow);
    var g := StartTree(v, Depth(z.stack), m.cap, cfg, grow);
    StartOpens(z, cap, v, cfg, grow);
    DirectSteps(z, cap, e, cfg, grow);
    WriteWaiting(m.zip, m.cap, v, cfg, grow);
    StartTreeFits(v, Depth(z.stack), m.cap, cfg, grow);
    CutShortens(g.trees[0]);
    AttachBytes(m.zip, g.trees[0]);
    AttachBytes(m.zip, Uncut(g.trees[0]));
    StartComplete(v, Depth(z.stack), m.cap, cfg, grow);
    KeepsBounded(e, Depth(z.stack), m.cap, grow);
  }

  lemma SameSteps(z: Zip, cap: nat, m: Moved, ops: seq<Op>, cfg: Config, grow: Growth)
    requires (forall op | op in ops :: Typed(op)) && ops != [] && ops[0].OpStart?
    requires StartCall(z, cap, ops[0].v, cfg, grow) == StartCall(m.zip, m.cap, ops[0].v, cfg, grow)
    ensures Steps(z, cap, ops, cfg, grow) == Steps(m.zip, m.cap, ops, cfg, grow)
  {
    hide StartCall;
  }

  // ---------------------------------------------------------------- when no end tag is lost

  /** The levels of the stack that a node needs. */
  function Height(v: Startable): nat {
    1 + if v.ElemStart? then ItemsHeight(v.elem.content) else 0
  }

  function ItemsHeight(items: seq<Writable>): nat {
    if items == [] then 0
    else
      var a, b := ItemHeight(items[0]), ItemsHeight(items[1..]);
      if a > b then a else b
  }

  function ItemHeight(w: Writable): nat {
    match w
    case WStart(v) => Height(v)
    case _ => 0
  }

  /** `c` is a capacity that the slice goes through when it grows from `cap`. */
  predicate Capacity(c: nat, cap: nat, grow: Growth)
    decreases c - cap
  {
    c == cap || (cap < c && Capacity(c, Larger(cap, grow), grow))
  }

  /** What is put on the stack first, `d` levels below these items: nothing, or a node of which this says whether
      it is the first item of an element that is not closed in full. `head` says so of the first item. */
  function FirstLoses(items: seq<Writable>, d: nat, head: bool): Option<bool> {
    if items == [] then None
    else
      match items[0]
      case WStart(v) =>
        if d == 0 then Some(head)
        else if FirstInside(items[0], d).Some? then FirstInside(items[0], d)
        else FirstLoses(items[1..], d, false)
      case _ => FirstLoses(items[1..], d, false)
  }

  function FirstInside(w: Writable, d: nat): Option<bool> {
    match w
    case WStart(ElemStart(e)) => if d == 0 then None else FirstLoses(e.content, d - 1, !e.full)
    case _ => None
  }

  /** For an element that is put into slot `i`: wherever the slice has to grow inside it, the node that makes it
      grow is not the first item of an element that is not closed in full. */
  predicate KeepsSlots(e: Elem, i: nat, cap: nat, grow: Growth) {
    forall c: nat | i < c <= i + ItemsHeight(e.content) && Capacity(c, cap, grow) ::
      FirstLoses(e.content, c - i - 1, !e.full) != Some(true)
  }

  ghost predicate KeepsInside(e: Elem, i: nat, cap: nat, grow: Growth) {
    forall c: nat | i < c && Capacity(c, cap, grow) :: FirstLoses(e.content, c - i - 1, !e.full) != Some(true)
  }

  /** Higher than the content there is nothing to lose. */
  lemma KeepsBounded(e: Elem, i: nat, cap: nat, grow: Growth)
    ensures KeepsSlots(e, i, cap, grow) <==> KeepsInside(e, i, cap, grow)
  {
    hide Capacity, FirstLoses, ItemsHeight;
    if KeepsSlots(e, i, cap, grow) {
      forall c: nat | i < c && Capacity(c, cap, grow) ensures FirstLoses(e.content, c - i - 1, !e.full) != Some(true) {
        FirstExists(e.content, c - i - 1, !e.full);
      }
    }
  }

  ghost predicate ItemsKeepSlots(items: seq<Writable>, i: nat, cap: nat, head: bool, grow: Growth) {
    forall c: nat | i <= c && Capacity(c, cap, grow) :: FirstLoses(items, c - i, head) != Some(true)
  }

  /** The capacity after a push to slot `m`. */
  function Reach(cap: nat, m: nat, grow: Growth): (c: nat)
    ensures c > m && c >= cap
    decreases m - cap
  {
    if m < cap then cap else Reach(Larger(cap, grow), m, grow)
  }

  lemma {:induction false} ReachTwice(cap: nat, a: nat, b: nat, grow: Growth)
    ensures Reach(Reach(cap, a, grow), b, grow) == Reach(cap, if a < b then b else a, grow)
    decreases a - cap
  {
    if a >= cap {
      ReachTwice(Larger(cap, grow), a, b, grow);
    }
  }

  /** The capacities after a push to slot `m` are those above `m`. */
  lemma {:induction false} CapacityAbove(c: nat, cap: nat, m: nat, grow: Growth)
    ensures Capacity(c, Reach(cap, m, grow), grow) <==> Capacity(c, cap, grow) && c > m
    decreases m - cap
  {
    if m >= cap {
      CapacityAbove(c, Larger(cap, grow), m, grow);
      CapacityMin(c, Larger(cap, grow), grow);
    } else {
      CapacityMin(c, cap, grow);
    }
  }

  lemma {:induction false} CapacityMin(c: nat, cap: nat, grow: Growth)
    ensures Capacity(c, cap, grow) ==> c >= cap
  {
  }

  lemma PushedReaches(i: nat, cap: nat, grow: Growth)
    requires i <= cap
    ensures Pushed(i, cap, grow) == Reach(cap, i, grow)
  {
  }

  /** The capacity after items whose highest node takes `h` levels from slot `i` on. */
  function After(cap: nat, i: nat, h: nat, grow: Growth): (c: nat)
    ensures c >= cap
  {
    if h == 0 then cap else Reach(cap, i + h - 1, grow)
  }

  lemma {:induction false} StartReach(v: Startable, i: nat, cap: nat, cfg: Config, grow: Growth)
    requires i <= cap && ItemOk(WStart(v), cfg)
    ensures StartTree(v, i, cap, cfg, grow).cap == After(cap, i, Height(v), grow)
    decreases v, 0
  {
    hide ItemTrees, Opened, DeclarationsOk, LeafOk, ElemTag, ItemsOk, Reach, LeafTrees;
    PushedReaches(i, cap, grow);
    if v.ElemStart? {
      var cap' := Pushed(i, cap, grow);
      ItemsReach(v.elem.content, i + 1, cap', cfg, grow);
      ReachTwice(cap, i, i + ItemsHeight(v.elem.content), grow);
    }
  }

  lemma {:induction false} ItemReach(w: Writable, i: nat, cap: nat, cfg: Config, grow: Growth)
    requires i <= cap && ItemOk(w, cfg)
    ensures ItemTree(w, i, cap, cfg, grow).cap == After(cap, i, ItemHeight(w), grow)
    decreases w, 0
  {
    hide StartTree, Reach;
    if w.WStart? {
      StartReach(w.start, i, cap, cfg, grow);
    }
  }

  lemma {:induction false} ItemsReach(items: seq<Writable>, i: nat, cap: nat, cfg: Config, grow: Growth)
    requires i <= cap && ItemsOk(items, cfg)
    ensures ItemTrees(items, i, cap, cfg, grow).cap == After(cap, i, ItemsHeight(items), grow)
    decreases items, 0
  {
    hide StartTree, ItemOk, Reach;
    if items != [] {
      var a, b := ItemHeight(items[0]), ItemsHeight(items[1..]);
      var first := ItemTree(items[0], i, cap, cfg, grow);
      ItemReach(items[0], i, cap, cfg, grow);
      ItemsReach(items[1..], i, first.cap, cfg, grow);
      if a > 0 && b > 0 {
        ReachTwice(cap, i + a - 1, i + b - 1, grow);
      }
    }
  }

  /** There is a node `d` levels below the items exactly if they are that high. */
  lemma {:induction false} FirstExists(items: seq<Writable>, d: nat, head: bool)
    ensures FirstLoses(items, d, head).None? <==> d >= ItemsHeight(items)
    decreases items
  {
    hide FirstInside;
    if items != [] {
      FirstExists(items[1..], d, false);
      InsideExists(items[0], d);
      if items[0].WStart? {
        assert ItemHeight(items[0]) == Height(items[0].start) >= 1;
      }
    }
  }

  lemma {:induction false} InsideExists(w: Writable, d: nat)
    ensures d > 0 ==> (FirstInside(w, d).None? <==> d >= ItemHeight(w))
    decreases w
  {
    match w {
      case WStart(ElemStart(e)) =>
        if d > 0 {
          FirstExists(e.content, d - 1, !e.full);
        }
      case _ =>
    }
  }

  /** A node that is put into slot `i` keeps all its end tags exactly if the slice keeps its slots. */
  lemma {:induction false} StartComplete(v: Startable, i: nat, cap: nat, cfg: Config, grow: Growth)
    requires i <= cap && ItemOk(WStart(v), cfg)
    ensures var g := StartTree(v, i, cap, cfg, grow);
      |g.trees| == 1 && (Complete(g.trees[0]) <==> (v.ElemStart? ==> KeepsInside(v.elem, i, cap, grow)))
    decreases v, 0
  {
    hide ItemTrees, Opened, DeclarationsOk, LeafOk, ElemTag, ItemsOk, FirstLoses, Capacity, AllComplete, LeafTrees;
    if v.ElemStart? {
      var cap' := Pushed(i, cap, grow);
      ItemsComplete(v.elem.content, i + 1, cap', !v.elem.full, cfg, grow);
      PushedReaches(i, cap, grow);
      forall c: nat ensures Capacity(c, cap', grow) <==> Capacity(c, cap, grow) && c > i {
        CapacityAbove(c, cap, i, grow);
      }
      assert KeepsInside(v.elem, i, cap, grow) <==> ItemsKeepSlots(v.elem.content, i + 1, cap', !v.elem.full, grow);
    } else {
      LeavesFit(Pending(v));
    }
  }

  lemma {:induction false} ItemComplete(w: Writable, i: nat, cap: nat, cfg: Config, grow: Growth)
    requires i <= cap && ItemOk(w, cfg) && w.WStart?
    ensures var g := StartTree(w.start, i, cap, cfg, grow);
      |g.trees| == 1 && (Complete(g.trees[0]) <==> (w.start.ElemStart? ==> KeepsInside(w.start.elem, i, cap, grow)))
    decreases w, 0
  {
    hide StartTree, KeepsInside;
    StartComplete(w.start, i, cap, cfg, grow);
  }

  lemma {:induction false} ItemsComplete(items: seq<Writable>, i: nat, cap: nat, head: bool, cfg: Config, grow: Growth)
    requires i <= cap && ItemsOk(items, cfg)
    ensures AllComplete(ItemTrees(items, i, cap, cfg, grow).trees) &&
      !(head && items != [] && items[0].WStart? && i == cap)
      <==> ItemsKeepSlots(items, i, cap, head, grow)
    decreases items, 0
  {
    hide StartTree, ItemOk, KeepsInside, ItemsKeepSlots, Capacity;
    if items == [] {
      NoneKept(i, cap, head, grow);
    } else {
      var first := ItemTree(items[0], i, cap, cfg, grow);
      var rest := ItemTrees(items[1..], i, first.cap, cfg, grow);
      OneTree(items[0], i, cap, cfg, grow);
      assert (first.trees + rest.trees)[0] == first.trees[0] && (first.trees + rest.trees)[1..] == rest.trees;
      match items[0] {
        case WStart(v) =>
          StartReach(v, i, cap, cfg, grow);
          ItemComplete(items[0], i, cap, cfg, grow);
          ItemsComplete(items[1..], i, first.cap, false, cfg, grow);
          KeptSplit(items, v, i, cap, head, grow);
        case WLeaf(_) =>
          ItemsComplete(items[1..], i, cap, false, cfg, grow);
          KeptSkip(items, i, cap, head, grow);
        case _ =>
      }
    }
  }

  lemma NoneKept(i: nat, cap: nat, head: bool, grow: Growth)
    ensures ItemsKeepSlots([], i, cap, head, grow)
  {
  }

  lemma KeptSkip(items: seq<Writable>, i: nat, cap: nat, head: bool, grow: Growth)
    requires items != [] && !items[0].WStart?
    ensures ItemsKeepSlots(items, i, cap, head, grow) <==> ItemsKeepSlots(items[1..], i, cap, false, grow)
  {
    hide Capacity;
  }

  /** The capacities inside the first item are decided there, the others by the rest. */
  lemma KeptSplit(items: seq<Writable>, v: Startable, i: nat, cap: nat, head: bool, grow: Growth)
    requires items != [] && items[0] == WStart(v) && i <= cap
    ensures ItemsKeepSlots(items, i, cap, head, grow) <==>
      && (v.ElemStart? ==> KeepsInside(v.elem, i, cap, grow))
      && ItemsKeepSlots(items[1..], i, After(cap, i, Height(v), grow), false, grow)
      && !(head && i == cap)
  {
    hide Capacity, FirstLoses, FirstInside, Reach;
    var h := Height(v);
    forall c: nat | i <= c
      ensures Capacity(c, After(cap, i, h, grow), grow) <==> Capacity(c, cap, grow) && c >= i + h
      ensures FirstLoses(items, c - i, head) ==
        if c == i then Some(head)
        else if c < i + h then FirstLoses(v.elem.content, c - i - 1, !v.elem.full)
        else FirstLoses(items[1..], c - i, false)
      ensures c >= i + h && v.ElemStart? ==> FirstLoses(v.elem.content, c - i - 1, !v.elem.full) == None
    {
      CapacityAbove(c, cap, i + h - 1, grow);
      FirstUnfolds(items, v, c - i, head);
    }
    CapacityMin(i, cap, grow);
    assert Capacity(i, cap, grow) <==> i == cap by {
      CapacitySelf(i, cap, grow);
    }
  }

  lemma CapacitySelf(i: nat, cap: nat, grow: Growth)
    requires i <= cap
    ensures Capacity(i, cap, grow) <==> i == cap
  {
  }

  lemma FirstUnfolds(items: seq<Writable>, v: Startable, d: nat, head: bool)
    requires items != [] && items[0] == WStart(v)
    ensures FirstLoses(items, d, head) ==
      if d == 0 then Some(head)
      else if d < Height(v) then FirstLoses(v.elem.content, d - 1, !v.elem.full)
      else FirstLoses(items[1..], d, false)
    ensures d >= Height(v) && v.ElemStart? ==> FirstLoses(v.elem.content, d - 1, !v.elem.full) == None
  {
    if v.ElemStart? && d > 0 {
      FirstExists(v.elem.content, d - 1, !v.elem.full);
    }
  }

  /** Content does not make a slice smaller. */
  lemma {:induction false} PendingGrows(v: Startable, i: nat, cap: nat, cfg: Config, grow: Growth)
    ensures PendingTrees(v, i, cap, cfg, grow).cap >= cap
  {
    hide ItemTrees;
    if v.ElemStart? {
      ItemsGrow(v.elem.content, i + 1, cap, cfg, grow);
    }
  }

  lemma {:induction false} ItemsGrow(items: seq<Writable>, i: nat, cap: nat, cfg: Config, grow: Growth)
    ensures ItemTrees(items, i, cap, cfg, grow).cap >= cap
    decreases items, 0
  {
    hide ItemTree;
    if items != [] {
      ItemGrows(items[0], i, cap, cfg, grow);
      ItemsGrow(items[1..], i, ItemTree(items[0], i, cap, cfg, grow).cap, cfg, grow);
    }
  }

  lemma {:induction false} ItemGrows(w: Writable, i: nat, cap: nat, cfg: Config, grow: Growth)
    ensures ItemTree(w, i, cap, cfg, grow).cap >= cap
    decreases w, 0
  {
    hide StartTag, Opened, ItemTrees;
    match w {
      case WStart(ElemStart(e)) => ItemsGrow(e.content, i + 1, Pushed(i, cap, grow), cfg, grow);
      case _ =>
    }
  }

  // ---------------------------------------------------------------- how many slots are enough

  /** With a slice that is long enough for the tree, nothing grows and nothing is lost. */
  lemma {:induction false} EnoughSlots(v: Startable, i: nat, cap: nat, cfg: Config, grow: Growth)
    requires i + Height(v) <= cap
    ensures var g := StartTree(v, i, cap, cfg, grow); AllComplete(g.trees) && g.cap == cap
    decreases v, 0
  {
    hide StartTag, ItemTrees, Opened;
    if v.ElemStart? {
      ItemsSlots(v.elem.content, i + 1, cap, cfg, grow);
      if v.elem.content != [] && v.elem.content[0].WStart? {
        assert ItemHeight(v.elem.content[0]) >= 1;
      }
    } else {
      LeavesFit(Pending(v));
    }
  }

  lemma {:induction false} ItemSlots(w: Writable, i: nat, cap: nat, cfg: Config, grow: Growth)
    requires i + ItemHeight(w) <= cap
    ensures var g := ItemTree(w, i, cap, cfg, grow); AllComplete(g.trees) && g.cap == cap
    decreases w, 0
  {
    match w {
      case WStart(v) => EnoughSlots(v, i, cap, cfg, grow);
      case WLeaf(l) => OneLeafFits(l);
      case _ =>
    }
  }

  lemma {:induction false} ItemsSlots(items: seq<Writable>, i: nat, cap: nat, cfg: Config, grow: Growth)
    requires i + ItemsHeight(items) <= cap
    ensures var g := ItemTrees(items, i, cap, cfg, grow); AllComplete(g.trees) && g.cap == cap
    decreases items, 0
  {
    if items != [] {
      var first := ItemTree(items[0], i, cap, cfg, grow);
      ItemSlots(items[0], i, cap, cfg, grow);
      ItemsSlots(items[1..], i, cap, cfg, grow);
      AllCompleteConcat(first.trees, ItemTrees(items[1..], i, cap, cfg, grow).trees);
    }
  }

  lemma {:induction false} AllCompleteConcat(a: seq<Tree>, b: seq<Tree>)
    requires AllComplete(a) && AllComplete(b)
    ensures AllComplete(a + b)
  {
    if a == [] {
      assert a + b == b;
    } else {
      assert (a + b)[1..] == a[1..] + b;
      AllCompleteConcat(a[1..], b);
    }
  }

  /** `n` elements, each the only content of the one around it. */
  function Chain(n: nat): Elem
    requires n > 0
  {
    Elem([], [], "e", [], if n == 1 then [] else [WStart(ElemStart(Chain(n - 1)))], false)
  }

  lemma ChainTag(n: nat, cfg: Config)
    requires n > 0
    ensures StartTag(ElemStart(Chain(n)), cfg) == Some(Tag([], []))
  {
    hide ValidName;
    LowerCaseName("e");
  }

  /** A chain keeps its end tags exactly when the slice is long enough for it. A new writer has 8 slots:
      nine nested elements given as content lose one. */
  lemma {:induction false} ChainComplete(n: nat, i: nat, cap: nat, cfg: Config, grow: Growth)
    requires n > 0 && i < cap
    ensures AllComplete(StartTree(ElemStart(Chain(n)), i, cap, cfg, grow).trees) <==> i + n <= cap
  {
    hide StartTag, Opened;
    var e := Chain(n);
    var g := StartTree(ElemStart(e), i, cap, cfg, grow);
    ChainTag(n, cfg);
    if n > 1 {
      var w := WStart(ElemStart(Chain(n - 1)));
      var kid := ItemTree(w, i + 1, cap, cfg, grow);
      assert e.content[1..] == [];
      assert ItemTrees(e.content, i + 1, cap, cfg, grow).trees == kid.trees + [];
      assert kid.trees + [] == kid.trees;
      if i + 1 < cap {
        ChainComplete(n - 1, i + 1, cap, cfg, grow);
      }
    }
  }
}
