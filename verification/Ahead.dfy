/** Content given in advance and line breaks, over whole runs: which calls keep line breaks away from text. */
module Ahead {
  import opened Bytes
  import opened Nodes
  import opened Document
  import opened Trees
  import opened TreeProofs
  import opened Lines
  import opened Runs
  import opened Nesting
  import opened Indented

  // ---------------------------------------------------------------- what callers pass in

  predicate InlineItem(w: Writable) {
    match w
    case WLeaf(l) => Inline(LeafKind(l))
    case WStart(v) => Inline(StartKind(v))
    case _ => false
  }

  /** No content given to an element in advance ends in text or in a CDATA section. */
  predicate MildStart(v: Startable) {
    v.ElemStart? ==> MildEnd(v.elem.content) && MildItems(v.elem.content)
  }

  predicate MildEnd(items: seq<Writable>) {
    items != [] ==> !InlineItem(items[|items| - 1])
  }

  predicate MildItem(w: Writable) {
    match w
    case WStart(v) => MildStart(v)
    case _ => true
  }

  predicate MildItems(items: seq<Writable>) {
    items == [] || (MildItem(items[0]) && MildItems(items[1..]))
  }

  predicate MildOp(op: Op) {
    match op
    case OpStart(v) => MildStart(v)
    case OpPut(w) => MildItem(w)
    case _ => true
  }

  // ---------------------------------------------------------------- what they build

  /** What the writer remembers as the opening of the node does not hide an inline child. */
  predicate Fine(kind: NodeKind, told: Option<nat>, kids: seq<Tree>) {
    told.Some? ==> told.value <= |kids| && MildKids(kind, kids[..told.value])
  }

  predicate MildKids(kind: NodeKind, kids: seq<Tree>) {
    kids != [] ==> kind == CDataNode || !Inline(TreeKind(kids[|kids| - 1]))
  }

  predicate Heedful(t: Tree) {
    t.Leaf? || (Fine(HeadKind(t.head), t.made.told, t.kids) && AllHeedful(t.kids))
  }

  predicate AllHeedful(ts: seq<Tree>) {
    ts == [] || (AllHeedful(ts[..|ts| - 1]) && Heedful(ts[|ts| - 1]))
  }

  predicate HeedfulFrame(f: Frame) {
    && HeadKind(f.head) == StartKind(f.start) && MildStart(f.start)
    && Fine(HeadKind(f.head), f.told, f.kids) && AllHeedful(f.kids) && (!f.entered ==> f.kids == [] && f.told == None)
  }

  predicate HeedfulStack(s: Stack) {
    s.Push? ==> HeedfulStack(s.below) && HeedfulFrame(s.top)
  }

  predicate HeedfulZip(z: Zip) {
    AllHeedful(z.done) && HeedfulStack(z.stack)
  }

  // ---------------------------------------------------------------- no line break astray

  lemma FineNoStray(kind: NodeKind, told: Option<nat>, kids: seq<Tree>)
    requires Fine(kind, told, kids)
    ensures !StrayInside(kind, told, kids)
  {
    hide TreeKind;
  }

  lemma FineTail(t: Tree)
    requires t.Branch? && Fine(HeadKind(t.head), t.made.told, t.kids)
    ensures !StrayTail(t)
  {
    hide TreeKind, LinesIn;
    TailKinds(t);
  }

  lemma {:induction false} HeedfulNoStray(t: Tree)
    requires Heedful(t)
    ensures NoStray(t)
    decreases t, 1
  {
    hide StrayTail, StrayInside, Fine, HeadKind;
    if t.Branch? {
      AllHeedfulNoStray(t.kids);
      FineNoStray(HeadKind(t.head), t.made.told, t.kids);
      FineTail(t);
    }
  }

  lemma {:induction false} AllHeedfulNoStray(ts: seq<Tree>)
    requires AllHeedful(ts)
    ensures AllNoStray(ts)
    decreases ts, 0
  {
    hide Heedful, NoStray;
    if ts != [] {
      AllHeedfulNoStray(ts[..|ts| - 1]);
      HeedfulNoStray(ts[|ts| - 1]);
    }
  }

  lemma FineOpen(z: Zip, kind: NodeKind)
    requires HeedfulStack(z.stack)
    ensures !StrayOpen(z, kind)
  {
    hide TreeKind, HeadKind, AllHeedful, MildStart;
  }

  lemma {:induction false} HeedfulStackNoStray(z: Zip)
    requires HeedfulZip(z)
    ensures StackNoStray(z)
    decreases z.stack
  {
    hide AllHeedful, AllNoStray, StrayOpen, StrayInside, Fine, HeadKind, MildStart;
    AllHeedfulNoStray(z.done);
    if z.stack.Push? {
      var f := z.stack.top;
      HeedfulStackNoStray(Outside(z));
      FineOpen(Outside(z), HeadKind(f.head));
      AllHeedfulNoStray(f.kids);
      FineNoStray(HeadKind(f.head), f.told, f.kids);
    }
  }

  // ---------------------------------------------------------------- content

  lemma HeedfulSnoc(ts: seq<Tree>, t: Tree)
    ensures AllHeedful(ts + [t]) <==> AllHeedful(ts) && Heedful(t)
  {
    hide Heedful;
    assert (ts + [t])[..|ts + [t]| - 1] == ts;
  }

  lemma {:induction false} HeedfulConcat(a: seq<Tree>, b: seq<Tree>)
    ensures AllHeedful(a + b) <==> AllHeedful(a) && AllHeedful(b)
  {
    hide Heedful;
    if b == [] {
      assert a + b == a;
    } else {
      var n := |b| - 1;
      HeedfulConcat(a, b[..n]);
      assert a + b == (a + b[..n]) + [b[n]];
      HeedfulSnoc(a + b[..n], b[n]);
    }
  }

  lemma OneHeedful(t: Tree)
    requires Heedful(t)
    ensures AllHeedful([t])
  {
    hide Heedful;
    assert [t][..0] == [];
  }

  lemma NoneHeedful()
    ensures AllHeedful([])
  {
  }

  /** The children that a section or an attribute list brings along. */
  lemma {:induction false} LeavesHeedful(items: seq<Writable>, kind: NodeKind)
    requires forall w | w in items :: w.WLeaf? && (kind == CDataNode || !InlineItem(w))
    ensures AllHeedful(LeafTrees(items)) && MildKids(kind, LeafTrees(items))
    decreases items
  {
    hide LeafKind;
    NoneHeedful();
    if items != [] {
      LeavesHeedful(items[1..], kind);
      var t := Leaf(items[0].leaf);
      assert items[0] in items && forall w | w in items[1..] :: w in items;
      OneHeedful(t);
      HeedfulConcat([t], LeafTrees(items[1..]));
    }
  }

  lemma PendingLeaves(v: Startable)
    requires !v.ElemStart?
    ensures forall w | w in Pending(v) :: w.WLeaf? && (StartKind(v) == CDataNode || !InlineItem(w))
  {
  }

  /** An item of an element's content is one tree of its kind. */
  lemma {:induction false} ItemHeedful(w: Writable, i: nat, cap: nat, cfg: Config, grow: Growth)
    requires ItemOk(w, cfg) && MildItem(w)
    ensures var ts := ItemTree(w, i, cap, cfg, grow).trees;
      AllHeedful(ts) && |ts| == 1 && Inline(TreeKind(ts[0])) == InlineItem(w)
    decreases w, 0
  {
    hide ItemTrees, LeafTrees, AllHeedful, DeclarationsOk, ElemTag, Undeclared, Declared, ItemsOk, Pending, MildItems,
      MildEnd, MildKids, Stale, Inline;
    if w.WLeaf? {
      OneHeedful(Leaf(w.leaf));
    } else {
      var v := w.start;
      var cap' := Pushed(i, cap, grow);
      var f := Fresh(v, cfg.newline, StartTag(v, cfg).value);
      HeadKindOf(v, cfg.newline);
      var kids;
      if v.ElemStart? {
        ItemsHeedful(v.elem.content, i + 1, cap', cfg, grow);
        kids := ItemTrees(v.elem.content, i + 1, cap', cfg, grow).trees;
      } else {
        PendingLeaves(v);
        LeavesHeedful(Pending(v), StartKind(v));
        kids := LeafTrees(Pending(v));
      }
      var t := Finished(f, kids, Stale(f, i, cap'));
      assert kids[..|kids|] == kids;
      assert Heedful(t);
      OneHeedful(t);
    }
  }

  lemma {:induction false} ItemsHeedful(items: seq<Writable>, i: nat, cap: nat, cfg: Config, grow: Growth)
    requires ItemsOk(items, cfg) && MildItems(items)
    ensures var ts := ItemTrees(items, i, cap, cfg, grow).trees;
      AllHeedful(ts) && (MildEnd(items) ==> MildKids(ElemNode, ts)) && (items != [] ==> ts != [])
    decreases items
  {
    hide ItemTree, ItemOk, AllHeedful, MildStart, Inline, TreeKind, InlineItem;
    if items == [] {
      NoneHeedful();
    } else {
      var first := ItemTree(items[0], i, cap, cfg, grow);
      ItemHeedful(items[0], i, cap, cfg, grow);
      ItemsHeedful(items[1..], i, first.cap, cfg, grow);
      HeedfulConcat(first.trees, ItemTrees(items[1..], i, first.cap, cfg, grow).trees);
    }
  }

  lemma PendingHeedful(v: Startable, i: nat, cap: nat, cfg: Config, grow: Growth)
    requires PendingOk(v, cfg) && MildStart(v)
    ensures var ts := PendingTrees(v, i, cap, cfg, grow).trees; AllHeedful(ts) && MildKids(StartKind(v), ts)
  {
    hide ItemTrees, LeafTrees, AllHeedful, ItemsOk, LeavesOk, Pending, MildItems, MildEnd, MildKids;
    if v.ElemStart? {
      ItemsHeedful(v.elem.content, i + 1, cap, cfg, grow);
    } else {
      PendingLeaves(v);
      LeavesHeedful(Pending(v), StartKind(v));
    }
  }

  // ---------------------------------------------------------------- calls

  lemma FineSnoc(kind: NodeKind, told: Option<nat>, kids: seq<Tree>, t: Tree)
    requires Fine(kind, told, kids)
    ensures Fine(kind, told, kids + [t])
  {
    hide MildKids;
    if told.Some? {
      assert (kids + [t])[..told.value] == kids[..told.value];
    }
  }

  lemma AttachHeedful(z: Zip, t: Tree)
    requires HeedfulZip(z) && Heedful(t) && (z.stack.Push? ==> z.stack.top.entered)
    ensures HeedfulZip(Attach(z, t))
  {
    hide Heedful, AllHeedful, MildStart, Fine, HeadKind;
    if z.stack.Bottom? {
      HeedfulSnoc(z.done, t);
    } else {
      var f := z.stack.top;
      HeedfulSnoc(f.kids, t);
      FineSnoc(HeadKind(f.head), f.told, f.kids, t);
    }
  }

  lemma OpenTopHeedful(z: Zip, cap: nat, cfg: Config, grow: Growth)
    requires HeedfulZip(z) && OpenTopOk(z, cfg)
    ensures var m := OpenTop(z, cap, cfg, grow).zip; HeedfulZip(m) && (m.stack.Push? ==> m.stack.top.entered)
  {
    hide AllHeedful, MildStart, MildKids, PendingTrees, PendingOk, DeclarationsOk, Undeclared, Declared;
    if z.stack.Push? && !z.stack.top.entered {
      var f := z.stack.top;
      PendingHeedful(f.start, Depth(z.stack.below), cap, cfg, grow);
      var kids := PendingTrees(f.start, Depth(z.stack.below), cap, cfg, grow).trees;
      assert [] + kids == kids && kids[..|kids|] == kids;
    }
  }

  lemma CloseTopHeedful(z: Zip, cap: nat, cfg: Config, grow: Growth)
    requires HeedfulZip(z) && OpenTopOk(z, cfg) && z.stack.Push? && InnerEntered(z.stack)
    ensures HeedfulZip(CloseTop(z, cap, cfg, grow).zip)
  {
    hide AllHeedful, MildStart, Fine, OpenTop, OpenTopOk, Attach, Stale, HeadKind;
    OpenTopHeedful(z, cap, cfg, grow);
    OpenTopBelow(z, cap, cfg, grow);
    var f, g := z.stack.top, OpenTop(z, cap, cfg, grow).zip.stack.top;
    AttachHeedful(Zip(z.done, z.stack.below), Ended(g, !f.entered && Stale(f, Depth(z.stack.below), cap)));
  }

  lemma {:induction false} CloseDownHeedful(z: Zip, cap: nat, keep: nat, cfg: Config, grow: Growth)
    requires HeedfulZip(z) && InnerEntered(z.stack)
    requires Depth(z.stack) > keep ==> OpenTopOk(z, cfg)
    ensures var m := CloseDown(z, cap, keep, cfg, grow); HeedfulZip(m.zip) && InnerEntered(m.zip.stack)
    decreases Depth(z.stack)
  {
    hide CloseTop, HeedfulZip, OpenTopOk, Settled, InnerEntered;
    if Depth(z.stack) > keep {
      CloseTopHeedful(z, cap, cfg, grow);
      CloseShallower(z, cap, cfg, grow);
      EndAnyShape(z, cap, cfg, grow);
      var m := CloseTop(z, cap, cfg, grow);
      OpenTopEntered(m.zip, m.cap, cfg, grow);
      CloseDownHeedful(m.zip, m.cap, keep, cfg, grow);
    }
  }

  lemma StartHeedful(z: Zip, cap: nat, v: Startable, cfg: Config, grow: Growth)
    requires HeedfulZip(z) && MildStart(v)
    ensures var o := StartCall(z, cap, v, cfg, grow);
      o.Done? ==> HeedfulZip(o.zip) && InnerEntered(o.zip.stack) == Entered(o.zip.stack.below)
  {
    hide AllHeedful, MildStart, OpenTop, OpenTopOk, StartTag, Parents, Fine, Entered;
    if StartCall(z, cap, v, cfg, grow).Done? {
      OpenTopHeedful(z, Pushed(Depth(z.stack), cap, grow), cfg, grow);
      HeadKindOf(v, cfg.newline);
      FreshFine(v, cfg);
    }
  }

  lemma FreshFine(v: Startable, cfg: Config)
    ensures AllHeedful([]) && Fine(HeadKind(HeadOf(v, cfg.newline)), None, [])
  {
  }

  lemma EndHeedful(z: Zip, cap: nat, kind: NodeKind, names: seq<Str>, cfg: Config, grow: Growth)
    requires HeedfulZip(z) && InnerEntered(z.stack)
    ensures var o := EndCall(z, cap, kind, names, cfg, grow); o.Done? ==> HeedfulZip(o.zip)
    ensures var o := EndAnyCall(z, cap, cfg, grow); o.Done? ==> HeedfulZip(o.zip)
  {
    hide HeedfulZip, CloseTop, OpenTopOk, NamesFit, InnerEntered;
    if z.stack.Push? && OpenTopOk(z, cfg) {
      CloseTopHeedful(z, cap, cfg, grow);
    }
  }

  lemma AttrHeedful(z: Zip, cap: nat, a: Attr, cfg: Config)
    requires HeedfulZip(z)
    ensures var o := AttrCall(z, cap, a, cfg); o.Done? ==> HeedfulZip(o.zip)
  {
    hide AllHeedful, MildStart, Fine, FullName, AddNs, Parents, HeadKind;
  }

  lemma PutHeedful(z: Zip, cap: nat, w: Writable, cfg: Config, grow: Growth)
    requires HeedfulZip(z) && InnerEntered(z.stack) && MildItem(w)
    ensures var o := PutCall(z, cap, w, cfg, grow); o.Done? ==> HeedfulZip(o.zip)
  {
    hide HeedfulZip, StartCall, EndCall, AttrCall, OpenTop, OpenTopOk, Attach, Parents, LeafAccepted, LeafFinishes,
      MildStart, InnerEntered;
    match w {
      case WLeaf(l) =>
        if LeafCall(z, cap, l, cfg, grow).Done? {
          OpenTopHeedful(z, cap, cfg, grow);
          AttachHeedful(OpenTop(z, cap, cfg, grow).zip, Leaf(l));
        }
      case WStart(v) =>
        StartHeedful(z, cap, v, cfg, grow);
        StartShape(z, cap, v, cfg, grow);
        var o := StartCall(z, cap, v, cfg, grow);
        if o.Done? {
          EndHeedful(o.zip, o.cap, StartKind(v), [], cfg, grow);
        }
      case WAttr(a) => AttrHeedful(z, cap, a, cfg);
      case WRaw(_) =>
    }
  }

  lemma FullHeedful(z: Zip)
    ensures HeedfulZip(SetFull(z)) == HeedfulZip(z) && InnerEntered(SetFull(z).stack) == InnerEntered(z.stack)
  {
    hide AllHeedful, MildStart, Fine, HeadKind;
  }

  lemma StepHeedful(z: Zip, cap: nat, op: Op, cfg: Config, grow: Growth)
    requires Typed(op) && MildOp(op) && HeedfulZip(z) && InnerEntered(z.stack)
    ensures var o := Step(z, cap, op, cfg, grow); o.Done? ==> HeedfulZip(o.zip)
  {
    hide HeedfulZip, PutCall, StartCall, EndCall, EndAnyCall, CloseDown, OpenTopOk, MildStart, InnerEntered;
    match op {
      case OpStart(v) => StartHeedful(z, cap, v, cfg, grow);
      case OpPut(w) => PutHeedful(z, cap, w, cfg, grow);
      case OpEnd(kind, names) => EndHeedful(z, cap, kind, names, cfg, grow);
      case OpEndFull(names) =>
        FullHeedful(z);
        EndHeedful(SetFull(z), cap, ElemNode, names, cfg, grow);
      case OpEndAny => EndHeedful(z, cap, NoNode, [], cfg, grow);
      case OpEndAll =>
        if EndAllCall(z, cap, cfg, grow).Done? {
          CloseDownHeedful(z, cap, 0, cfg, grow);
        }
      case OpEndToDepth(depth, kind, names) =>
        if EndToDepthCall(z, cap, depth, kind, names, cfg, grow).Done? {
          CloseDownHeedful(z, cap, Kept(depth + 1), cfg, grow);
          var m := CloseDown(z, cap, Kept(depth + 1), cfg, grow);
          EndHeedful(m.zip, m.cap, kind, names, cfg, grow);
        }
    }
  }

  lemma {:induction false} RunHeedful(z: Zip, cap: nat, ops: seq<Op>, cfg: Config, grow: Growth)
    requires forall op | op in ops :: Typed(op) && MildOp(op)
    requires HeedfulZip(z) && InnerEntered(z.stack) && Settled(z)
    ensures var o := Steps(z, cap, ops, cfg, grow); o.Done? ==> HeedfulZip(o.zip) && InnerEntered(o.zip.stack)
    decreases ops
  {
    hide HeedfulZip, InnerEntered, Settled, Step, MildOp;
    if ops != [] {
      var o := Step(z, cap, ops[0], cfg, grow);
      StepHeedful(z, cap, ops[0], cfg, grow);
      StepShape(z, cap, ops[0], cfg, grow);
      if o.Done? {
        RunHeedful(o.zip, o.cap, ops[1..], cfg, grow);
      }
    }
  }

  /** In every run in which no content given to an element in advance ends in text or in a CDATA section: after every
      call, no line break stands next to text, a CDATA section, a processing instruction or an attribute, apart from
      the one before the end of a Doc. */
  lemma BreaksKeepAway(cap: nat, ops: seq<Op>, cfg: Config, grow: Growth)
    requires forall op | op in ops :: Typed(op) && MildOp(op)
    ensures var o := Steps(Zip([], Bottom), cap, ops, cfg, grow); o.Done? ==> Away(NoNode, Laid(o.zip))
  {
    hide Steps, MildOp, Away, Laid, StackNoStray, HeedfulZip;
    var z := Zip([], Bottom);
    assert HeedfulZip(z) by { NothingHeedful(); }
    RunHeedful(z, cap, ops, cfg, grow);
    var o := Steps(z, cap, ops, cfg, grow);
    if o.Done? {
      HeedfulStackNoStray(o.zip);
      BreaksKeepAwayIff(o.zip);
    }
  }

  lemma NothingHeedful()
    ensures HeedfulZip(Zip([], Bottom))
  {
  }
}
