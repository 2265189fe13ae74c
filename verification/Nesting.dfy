/** Which nodes can be open inside which, and what the End calls leave behind. */
module Nesting {
  import opened Bytes
  import opened Nodes
  import opened Document
  import opened Trees
  import opened TreeProofs
  import opened Runs

  /** Every open node is allowed inside the one below it. */
  predicate Legal(s: Stack) {
    s.Push? ==> Legal(s.below) && TopKind(s.below) in Parents(HeadKind(s.top.head))
  }

  /** What may stand in a node: prolog and content (productions [22] and [43]), the internal subset ([28b]), and the
      pieces of sections and attribute lists. Without a node around it anything may. */
  function Children(parent: NodeKind): set<NodeKind> {
    match parent
    case NoNode => {DocNode, DTDNode, ElemNode, CommentNode, CDataNode, DTDAttListNode, TextNode, AttrNode, PINode,
      CommentContentNode, CDataContentNode, DTDElemNode, DTDEntityNode, NotationNode, DTDAttrNode}
    case DocNode => {DTDNode, ElemNode, CommentNode, PINode}
    case ElemNode => {AttrNode, TextNode, ElemNode, CommentNode, CDataNode, PINode}
    case DTDNode => {DTDElemNode, DTDAttListNode, DTDEntityNode, NotationNode, CommentNode}
    case DTDAttListNode => {DTDAttrNode}
    case CommentNode => {CommentContentNode}
    case CDataNode => {CDataContentNode}
    case _ => {}
  }

  /** The two tables say the same. */
  lemma AllowedIff(parent: NodeKind, kind: NodeKind)
    ensures parent in Parents(kind) <==> kind in Children(parent)
  {
  }

  lemma AttachLegal(z: Zip, t: Tree)
    ensures Legal(Attach(z, t).stack) == Legal(z.stack)
    ensures Depth(Attach(z, t).stack) == Depth(z.stack)
  {
    hide Parents;
  }

  lemma OpenTopLegal(z: Zip, cap: nat, cfg: Config, grow: Growth)
    ensures Legal(OpenTop(z, cap, cfg, grow).zip.stack) == Legal(z.stack)
    ensures TopKind(OpenTop(z, cap, cfg, grow).zip.stack) == TopKind(z.stack)
    ensures Depth(OpenTop(z, cap, cfg, grow).zip.stack) == Depth(z.stack)
  {
    hide Parents, PendingTrees;
  }

  lemma CloseTopLegal(z: Zip, cap: nat, cfg: Config, grow: Growth)
    requires z.stack.Push? && Legal(z.stack)
    ensures Legal(CloseTop(z, cap, cfg, grow).zip.stack)
  {
    hide Parents, OpenTop, Attach, Stale;
    var f := z.stack.top;
    OpenTopPush(z, cap, cfg, grow);
    var g := OpenTop(z, cap, cfg, grow).zip.stack.top;
    AttachLegal(Zip(z.done, z.stack.below),
      Ended(g, !f.entered && Stale(f, Depth(z.stack.below), cap)));
  }

  lemma OpenTopPush(z: Zip, cap: nat, cfg: Config, grow: Growth)
    ensures OpenTop(z, cap, cfg, grow).zip.stack.Push? == z.stack.Push?
  {
    hide PendingTrees;
  }

  lemma OpenTopBelow(z: Zip, cap: nat, cfg: Config, grow: Growth)
    requires z.stack.Push?
    ensures var m := OpenTop(z, cap, cfg, grow);
      m.zip.done == z.done && m.zip.stack.Push? && m.zip.stack.below == z.stack.below &&
        m.zip.stack.top.head == z.stack.top.head
  {
    hide PendingTrees, Undeclared, Declared;
  }

  lemma {:induction false} CloseDownLegal(z: Zip, cap: nat, keep: nat, cfg: Config, grow: Growth)
    requires Legal(z.stack)
    ensures Legal(CloseDown(z, cap, keep, cfg, grow).zip.stack)
    decreases Depth(z.stack)
  {
    hide CloseTop, Legal;
    if Depth(z.stack) > keep {
      CloseTopLegal(z, cap, cfg, grow);
      CloseShallower(z, cap, cfg, grow);
      var m := CloseTop(z, cap, cfg, grow);
      CloseDownLegal(m.zip, m.cap, keep, cfg, grow);
    }
  }

  lemma StartLegal(z: Zip, cap: nat, v: Startable, cfg: Config, grow: Growth)
    requires cfg.enforce && Legal(z.stack)
    ensures var o := StartCall(z, cap, v, cfg, grow); o.Done? ==> Legal(o.zip.stack)
  {
    hide Parents, OpenTop, OpenTopOk, StartTag, HeadOf;
    OpenTopLegal(z, Pushed(Depth(z.stack), cap, grow), cfg, grow);
    HeadKindOf(v, cfg.newline);
  }

  lemma EndLegal(z: Zip, cap: nat, kind: NodeKind, names: seq<Str>, cfg: Config, grow: Growth)
    requires Legal(z.stack)
    ensures var o := EndCall(z, cap, kind, names, cfg, grow); o.Done? ==> Legal(o.zip.stack)
  {
    hide Parents, OpenTopOk, CloseTop, Legal;
    if z.stack.Push? {
      CloseTopLegal(z, cap, cfg, grow);
    }
  }

  lemma PutLegal(z: Zip, cap: nat, w: Writable, cfg: Config, grow: Growth)
    requires cfg.enforce && Legal(z.stack)
    ensures var o := PutCall(z, cap, w, cfg, grow); o.Done? ==> Legal(o.zip.stack)
  {
    hide Parents, OpenTop, OpenTopOk, StartCall, EndCall, LeafAccepted, LeafFinishes, Attach, AddNs;
    match w {
      case WLeaf(l) =>
        OpenTopLegal(z, cap, cfg, grow);
        AttachLegal(OpenTop(z, cap, cfg, grow).zip, Leaf(l));
      case WStart(v) =>
        StartLegal(z, cap, v, cfg, grow);
        var o := StartCall(z, cap, v, cfg, grow);
        if o.Done? {
          EndLegal(o.zip, o.cap, StartKind(v), [], cfg, grow);
        }
      case WAttr(a) =>
      case WRaw(_) =>
    }
  }

  lemma StepLegal(z: Zip, cap: nat, op: Op, cfg: Config, grow: Growth)
    requires Typed(op) && cfg.enforce && Legal(z.stack)
    ensures var o := Step(z, cap, op, cfg, grow); o.Done? ==> Legal(o.zip.stack)
  {
    hide PutCall, StartCall, EndCall, CloseDown, CloseTop, OpenTopOk, Parents, Legal;
    match op {
      case OpStart(v) => StartLegal(z, cap, v, cfg, grow);
      case OpPut(w) => PutLegal(z, cap, w, cfg, grow);
      case OpEnd(kind, names) => EndLegal(z, cap, kind, names, cfg, grow);
      case OpEndFull(names) =>
        FullLegal(z);
        EndLegal(SetFull(z), cap, ElemNode, names, cfg, grow);
      case OpEndAny => if z.stack.Push? { CloseTopLegal(z, cap, cfg, grow); }
      case OpEndAll => CloseDownLegal(z, cap, 0, cfg, grow);
      case OpEndToDepth(depth, kind, names) =>
        CloseDownLegal(z, cap, Kept(depth + 1), cfg, grow);
        var m := CloseDown(z, cap, Kept(depth + 1), cfg, grow);
        EndLegal(m.zip, m.cap, kind, names, cfg, grow);
    }
  }

  lemma FullLegal(z: Zip)
    ensures Legal(SetFull(z).stack) == Legal(z.stack)
  {
    hide Parents;
  }

  /** In every state that a run without errors reaches under Enforce, each open node is allowed inside the
      one around it, and all but the innermost are entered. */
  lemma {:induction false} RunLegal(z: Zip, cap: nat, ops: seq<Op>, cfg: Config, grow: Growth)
    requires forall op | op in ops :: Typed(op)
    requires cfg.enforce && Legal(z.stack) && InnerEntered(z.stack) && Settled(z)
    ensures var o := Steps(z, cap, ops, cfg, grow);
      o.Done? ==> Legal(o.zip.stack) && InnerEntered(o.zip.stack) && Settled(o.zip)
    decreases ops
  {
    hide Step, Legal, InnerEntered, Settled;
    if ops != [] {
      assert ops[0] in ops;
      StepLegal(z, cap, ops[0], cfg, grow);
      StepShape(z, cap, ops[0], cfg, grow);
      var o := Step(z, cap, ops[0], cfg, grow);
      if o.Done? {
        RunLegal(o.zip, o.cap, ops[1..], cfg, grow);
      }
    }
  }

  // ---------------------------------------------------------------- the language of legal stacks

  function NonElems(s: Stack): nat {
    if s.Bottom? then 0 else NonElems(s.below) + (if HeadKind(s.top.head) == ElemNode then 0 else 1)
  }

  /** Doc is only at the bottom, DTD only above it or at the bottom; Comment, CData and DTDAttList hold no
      other node; only elements nest without bound. */
  lemma {:induction false} LegalLanguage(s: Stack)
    requires Legal(s) && s.Push?
    ensures var k := HeadKind(s.top.head);
      && (k == DocNode ==> s.below.Bottom?)
      && (k == DTDNode ==> Depth(s.below) <= 1 && TopKind(s.below) in {NoNode, DocNode})
      && (k == DTDAttListNode ==> Depth(s.below) <= 2 && TopKind(s.below) in {NoNode, DTDNode})
      && TopKind(s.below) !in {CommentNode, CDataNode, DTDAttListNode}
      && (s.below.Push? && s.below.below.Push? && TopKind(s.below) == DTDNode ==> s.below.below.below.Bottom?)
      && NonElems(s) <= match k
           case DocNode => 1
           case ElemNode => 1
           case DTDNode => 2
           case CDataNode => 2
           case _ => 3
  {
    if s.below.Push? {
      LegalLanguage(s.below);
    }
  }

  // ---------------------------------------------------------------- scopes

  /** The `n` outermost open nodes. */
  function Outer(s: Stack, n: nat): Stack {
    if Depth(s) <= n then s else Outer(s.below, n)
  }

  lemma {:induction false} OuterDepth(s: Stack, n: nat)
    requires n <= Depth(s)
    ensures Depth(Outer(s, n)) == n
  {
    if Depth(s) > n {
      OuterDepth(s.below, n);
    }
  }

  /** The heads of the nodes above the `n` outermost ones, outermost first. */
  function HeadsAbove(s: Stack, n: nat): seq<Head> {
    if Depth(s) <= n then [] else HeadsAbove(s.below, n) + [s.top.head]
  }

  /** The heads of a tree and its last descendants, `k` levels deep. */
  function Spine(t: Tree, k: nat): seq<Head> {
    if k == 0 || t.Leaf? then []
    else [t.head] + (if t.kids == [] then [] else Spine(t.kids[|t.kids| - 1], k - 1))
  }

  /** Closing down to `keep` nodes makes one tree of everything above them: each node that was open becomes the
      last child of the one below it. `hs` are the heads of the `j` nodes closed before. */
  lemma {:induction false} CloseDownTree(z: Zip, cap: nat, keep: nat, cfg: Config, grow: Growth, j: nat, hs: seq<Head>)
    returns (t: Tree)
    requires Depth(z.stack) > keep && Entered(z.stack.below)
    requires j == 0 ==> hs == []
    requires j > 0 ==> z.stack.top.entered && z.stack.top.kids != []
    requires j > 0 ==> Spine(z.stack.top.kids[|z.stack.top.kids| - 1], j) == hs
    ensures CloseDown(z, cap, keep, cfg, grow).zip == Attach(Zip(z.done, Outer(z.stack, keep)), t)
    ensures Spine(t, Depth(z.stack) - keep + j) == HeadsAbove(z.stack, keep) + hs
    decreases Depth(z.stack)
  {
    hide CloseTop, Spine, HeadsAbove, Attach;
    t := CloseOne(z, cap, cfg, grow);
    var m := CloseTop(z, cap, cfg, grow);
    CloseShallower(z, cap, cfg, grow);
    TopSpine(t, j, hs);
    LastHead(z.stack, keep);
    if Depth(z.stack) - 1 > keep {
      AttachedTop(z, m.zip, t, keep);
      assert HeadsAbove(z.stack, keep) + hs == HeadsAbove(z.stack.below, keep) + ([z.stack.top.head] + hs);
      t := CloseDownTree(m.zip, m.cap, keep, cfg, grow, j + 1, [z.stack.top.head] + hs);
    }
  }

  lemma LastHead(s: Stack, keep: nat)
    requires Depth(s) > keep
    ensures HeadsAbove(s, keep) == HeadsAbove(s.below, keep) + [s.top.head]
    ensures Depth(s) == keep + 1 ==> Outer(s, keep) == s.below && HeadsAbove(s.below, keep) == []
  {
  }

  /** The stack after the innermost node has been closed. */
  lemma AttachedTop(z: Zip, m: Zip, t: Tree, keep: nat)
    requires Depth(z.stack) > keep + 1 && z.stack.below.Push? && z.stack.below.top.entered
    requires m == Attach(Zip(z.done, z.stack.below), t)
    ensures m.done == z.done && m.stack.Push? && m.stack.below == z.stack.below.below && m.stack.top.entered
    ensures m.stack.top.kids != [] && m.stack.top.kids[|m.stack.top.kids| - 1] == t
    ensures HeadsAbove(m.stack, keep) == HeadsAbove(z.stack.below, keep) && Outer(m.stack, keep) == Outer(z.stack, keep)
  {
  }

  lemma TopSpine(t: Tree, j: nat, hs: seq<Head>)
    requires t.Branch?
    requires if j == 0 then hs == [] else t.kids != [] && Spine(t.kids[|t.kids| - 1], j) == hs
    ensures Spine(t, j + 1) == [t.head] + hs
  {
  }

  /** One node more is closed last. */
  lemma {:induction false} CloseDownNext(z: Zip, cap: nat, keep: nat, cfg: Config, grow: Growth)
    requires Depth(z.stack) > keep
    ensures var m := CloseDown(z, cap, keep + 1, cfg, grow);
      m.zip.stack.Push? && CloseDown(z, cap, keep, cfg, grow) == CloseTop(m.zip, m.cap, cfg, grow)
    decreases Depth(z.stack)
  {
    hide CloseTop;
    CloseShallower(z, cap, cfg, grow);
    if Depth(z.stack) > keep + 1 {
      var m := CloseTop(z, cap, cfg, grow);
      CloseDownNext(m.zip, m.cap, keep, cfg, grow);
    }
  }

  /** EndToDepth restores the scope: when nodes have been started since Depth() was `depth`, a successful call
      returns to it, with the outer nodes as they were but for one more child. That child is a node of the kind
      asked for, and its last descendants are exactly the nodes that were open above it, each finished inside
      the one around it. */
  lemma EndToDepthScope(z: Zip, cap: nat, depth: int, kind: NodeKind, names: seq<Str>, cfg: Config, grow: Growth)
    returns (t: Tree)
    requires depth >= -1 && Depth(z.stack) >= depth + 2 && InnerEntered(z.stack)
    ensures var o := EndToDepthCall(z, cap, depth, kind, names, cfg, grow);
      o.Done? ==>
        && o.zip == Attach(Zip(z.done, Outer(z.stack, depth + 1)), t)
        && Depth(o.zip.stack) == depth + 1
        && t.Branch? && HeadKind(t.head) == kind
        && Spine(t, Depth(z.stack) - (depth + 1)) == HeadsAbove(z.stack, depth + 1)
  {
    hide OpenTop, Stale, NamesFit, OpenTopOk, CloseTop, CloseDown, Spine, HeadsAbove;
    t := CloseDownTree(z, cap, depth + 1, cfg, grow, 0, []);
    CloseDownNext(z, cap, depth + 1, cfg, grow);
    var m := CloseDown(z, cap, Kept(depth + 1), cfg, grow);
    if EndToDepthCall(z, cap, depth, kind, names, cfg, grow).Done? {
      CloseDownInner(z, cap, Kept(depth + 1), cfg, grow);
      var t' := CloseOne(m.zip, m.cap, cfg, grow);
      OuterDepth(z.stack, depth + 1);
      AttachLegal(Zip(z.done, Outer(z.stack, depth + 1)), t);
      AttachOnly(Zip(z.done, Outer(z.stack, depth + 1)), t, t');
    }
  }

  lemma AttachOnly(z: Zip, t: Tree, t': Tree)
    requires Attach(z, t) == Attach(z, t')
    ensures t == t'
  {
    if z.stack.Bottom? {
      assert (z.done + [t])[|z.done|] == (z.done + [t'])[|z.done|];
    } else {
      var k := z.stack.top.kids;
      assert (k + [t])[|k|] == (k + [t'])[|k|];
    }
  }

  /** Closing down leaves the `keep` - 1 outermost nodes alone. */
  lemma CloseDownInner(z: Zip, cap: nat, keep: nat, cfg: Config, grow: Growth)
    requires keep >= 1 && Depth(z.stack) >= keep && InnerEntered(z.stack)
    ensures var m := CloseDown(z, cap, keep, cfg, grow);
      m.zip.stack.Push? && m.zip.done == z.done && m.zip.stack.below == Outer(z.stack, keep - 1)
  {
    hide CloseTop;
    if Depth(z.stack) == keep {
      assert Outer(z.stack, keep - 1) == z.stack.below;
    } else {
      var t := CloseDownTree(z, cap, keep, cfg, grow, 0, []);
      OuterDepth(z.stack, keep);
      OuterTwice(z.stack, keep);
    }
  }

  lemma {:induction false} OuterTwice(s: Stack, n: nat)
    requires 1 <= n <= Depth(s)
    ensures Outer(s, n).Push? && Outer(s, n).below == Outer(s, n - 1)
  {
    if Depth(s) > n {
      OuterTwice(s.below, n);
    } else {
      assert Outer(s, n - 1) == s.below;
    }
  }

  /** A successful Write leaves the stack as high as it was. */
  lemma PutDepth(z: Zip, cap: nat, w: Writable, cfg: Config, grow: Growth)
    ensures var o := PutCall(z, cap, w, cfg, grow); o.Done? ==> Depth(o.zip.stack) == Depth(z.stack)
  {
    hide Parents, OpenTop, OpenTopOk, LeafAccepted, LeafFinishes, Attach, AddNs, StartTag, CloseTop, NamesFit;
    match w {
      case WLeaf(l) =>
        OpenTopLegal(z, cap, cfg, grow);
        AttachLegal(OpenTop(z, cap, cfg, grow).zip, Leaf(l));
      case WStart(v) =>
        OpenTopLegal(z, Pushed(Depth(z.stack), cap, grow), cfg, grow);
        var o := StartCall(z, cap, v, cfg, grow);
        if o.Done? {
          CloseShallower(o.zip, o.cap, cfg, grow);
        }
      case WAttr(a) =>
      case WRaw(_) =>
    }
  }

  lemma StartDepth(z: Zip, cap: nat, v: Startable, cfg: Config, grow: Growth)
    ensures var o := StartCall(z, cap, v, cfg, grow); o.Done? ==> Depth(o.zip.stack) == Depth(z.stack) + 1
  {
    hide Parents, OpenTop, OpenTopOk, StartTag;
    OpenTopLegal(z, Pushed(Depth(z.stack), cap, grow), cfg, grow);
  }

  lemma {:induction false} PutsDepth(z: Zip, cap: nat, nodes: seq<Writable>, cfg: Config, grow: Growth)
    requires forall n | n in nodes :: Typed(OpPut(n))
    ensures var o := Steps(z, cap, PutOps(nodes), cfg, grow); o.Done? ==> Depth(o.zip.stack) == Depth(z.stack)
    decreases nodes
  {
    hide PutCall, Depth;
    if nodes != [] {
      assert nodes[0] in nodes && forall n | n in nodes[1..] :: n in nodes;
      assert PutOps(nodes)[0] == OpPut(nodes[0]) && PutOps(nodes)[1..] == PutOps(nodes[1..]);
      PutDepth(z, cap, nodes[0], cfg, grow);
      var o := Step(z, cap, OpPut(nodes[0]), cfg, grow);
      if o.Done? {
        PutsDepth(o.zip, o.cap, nodes[1..], cfg, grow);
      }
    }
  }

  /** Writing any list of nodes, or a block, leaves the depth as it was. */
  lemma BlockDepth(z: Zip, cap: nat, start: Startable, nodes: seq<Writable>, cfg: Config, grow: Growth)
    requires forall n | n in nodes :: Typed(OpPut(n))
    ensures var o := Steps(z, cap, BlockOps(start, nodes), cfg, grow); o.Done? ==> Depth(o.zip.stack) == Depth(z.stack)
    ensures var o := Steps(z, cap, PutOps(nodes), cfg, grow); o.Done? ==> Depth(o.zip.stack) == Depth(z.stack)
  {
    hide Steps, StartCall, CloseTop, OpenTopOk, PutOps, BlockOps, NamesFit;
    BlockSteps(z, cap, start, nodes, cfg, grow);
    PutsDepth(z, cap, nodes, cfg, grow);
    StartDepth(z, cap, start, cfg, grow);
    var o := StartCall(z, cap, start, cfg, grow);
    if o.Done? {
      PutsDepth(o.zip, o.cap, nodes, cfg, grow);
      var p := Steps(o.zip, o.cap, PutOps(nodes), cfg, grow);
      if p.Done? && p.zip.stack.Push? {
        CloseShallower(p.zip, p.cap, cfg, grow);
      }
    }
  }
}
