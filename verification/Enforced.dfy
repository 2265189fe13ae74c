/** What a writer that enforces guarantees about the document it has built, and that a reader therefore
    gets the document back from the bytes. */
module Enforced {
  import opened Bytes
  import opened Check
  import opened Nodes
  import opened Printer
  import opened Document
  import opened Trees
  import opened TreeProofs
  import opened Runs
  import opened Nesting

  // ---------------------------------------------------------------- sound trees

  predicate HeadSound(h: Head) {
    match h
    case HElem(name) => name != [] && ValidName(name)
    case HDTD(name, pub, sys) => name != [] && ValidName(name) && ExternalIdOk(pub, sys)
    case HAttList(name) => name != [] && ValidName(name)
    case _ => true
  }

  /** Every node stands where it may stand, and all that is checked of its names and content holds. Only an element
      with children can have been ended through a pointer that did not see them. */
  predicate Sound(t: Tree) {
    match t
    case Leaf(l) => LeafOk(l, true)
    case Branch(h, atts, kids, _, made) =>
      && HeadSound(h) && NamesOk(atts) && (h.HDoc? ==> AllNamed(atts)) && AllSound(kids, HeadKind(h))
      && (made.stale ==> h.HElem? && kids != [])
  }

  predicate AllSound(ts: seq<Tree>, parent: NodeKind) {
    ts == [] || (parent in Parents(TreeKind(ts[0])) && Sound(ts[0]) && AllSound(ts[1..], parent))
  }

  lemma {:induction false} SoundConcat(a: seq<Tree>, b: seq<Tree>, parent: NodeKind)
    ensures AllSound(a + b, parent) <==> AllSound(a, parent) && AllSound(b, parent)
  {
    hide Sound, Parents, TreeKind;
    if a == [] {
      assert a + b == b;
    } else {
      assert (a + b)[0] == a[0] && (a + b)[1..] == a[1..] + b;
      SoundConcat(a[1..], b, parent);
    }
  }

  lemma SoundSnoc(ts: seq<Tree>, t: Tree, parent: NodeKind)
    ensures AllSound(ts + [t], parent) <==> AllSound(ts, parent) && parent in Parents(TreeKind(t)) && Sound(t)
  {
    hide Sound, Parents, TreeKind;
    SoundConcat(ts, [t], parent);
    assert [t][1..] == [];
  }

  predicate FrameSound(f: Frame) {
    && HeadSound(f.head) && HeadKind(f.head) == StartKind(f.start) && f.head.HElem? == f.start.ElemStart?
    && NamesOk(f.atts) && (f.head.HDoc? ==> AllNamed(f.atts)) && AllSound(f.kids, HeadKind(f.head))
  }

  predicate StackSound(s: Stack) {
    s.Push? ==> StackSound(s.below) && FrameSound(s.top)
  }

  predicate ZipSound(z: Zip) {
    AllSound(z.done, NoNode) && StackSound(z.stack) && Legal(z.stack)
  }

  // ---------------------------------------------------------------- tags

  lemma {:induction false} AddAttrsSound(t: Tag, attrs: seq<Attr>)
    requires NamesOk(t.atts) && AddAttrs(t, attrs, true).Some?
    ensures NamesOk(AddAttrs(t, attrs, true).value.atts)
    decreases attrs
  {
    hide ValidName, AddNs, FullName;
    if attrs != [] {
      AddAttrsSound(AddAttr(t, attrs[0], true).value, attrs[1..]);
    }
  }

  lemma ElemTagSound(e: Elem)
    requires ElemTag(e, true).Some?
    ensures NamesOk(ElemTag(e, true).value.atts) && HeadSound(HElem(FullName(e.prefix, e.name)))
  {
    hide ValidName, AddAttrs, FullName;
    AddAttrsSound(FirstTag(e), e.attrs);
  }

  lemma DocTagSound(d: DocDecl, cfg: Config)
    ensures NamesOk(DocAtts(d, cfg)) && AllNamed(DocAtts(d, cfg))
  {
    hide ValidName, DocVersion, DocEncoding;
    LowerCaseName("version");
    LowerCaseName("encoding");
    LowerCaseName("standalone");
  }

  lemma FreshSound(v: Startable, cfg: Config)
    requires cfg.enforce && StartTag(v, cfg).Some?
    ensures FrameSound(Fresh(v, cfg.newline, StartTag(v, cfg).value))
  {
    hide ValidName, ElemTag, DocAtts, ExternalIdOk, FullName;
    match v {
      case Comment(_) =>
      case CData(_) =>
      case Doc(d) => DocTagSound(d, cfg);
      case DTD(_, _, _) =>
      case DTDAttList(_, _) =>
      case ElemStart(e) => ElemTagSound(e);
    }
  }

  lemma OpenedSound(f: Frame)
    requires FrameSound(f) && (f.head.HElem? ==> DeclarationsOk(f.nss, true))
    ensures FrameSound(Opened(f))
  {
    hide ValidName, AllSound, Undeclared, HeadSound;
  }

  // ---------------------------------------------------------------- content

  lemma {:induction false} LeavesSound(items: seq<Writable>, parent: NodeKind)
    requires LeavesOk(items, true) && forall w | w in items :: w.WLeaf? && parent in Parents(LeafKind(w.leaf))
    ensures AllSound(LeafTrees(items), parent)
    decreases items
  {
    hide Parents, LeafKind, LeafOk;
    if items != [] {
      LeavesSound(items[1..], parent);
      var rest := LeafTrees(items[1..]);
      assert items[0] in items && forall w | w in items[1..] :: w in items;
      var t := Leaf(items[0].leaf);
      assert [t] + rest == LeafTrees(items) && ([t] + rest)[1..] == rest && ([t] + rest)[0] == t;
    }
  }

  lemma SectionPending(v: Startable, cfg: Config)
    requires cfg.enforce && ItemOk(WStart(v), cfg) && !v.ElemStart?
    ensures StartTag(v, cfg) == Some(Tag([], [])) && LeavesOk(Pending(v), true) && (v.Comment? || v.CData?)
  {
    hide LeafOk;
    assert Pending(v) != [] ==> Pending(v)[1..] == [];
  }

  lemma {:induction false} ItemSound(w: Writable, i: nat, cap: nat, cfg: Config, grow: Growth)
    requires cfg.enforce && ItemOk(w, cfg)
    ensures AllSound(ItemTree(w, i, cap, cfg, grow).trees, ElemNode)
    decreases w, 0
  {
    hide ItemTrees, LeafTrees, AllSound, DeclarationsOk, ElemTag, Undeclared, ItemsOk, Pending;
    if w.WLeaf? {
      OneSound(Leaf(w.leaf), ElemNode);
    } else {
      var v := w.start;
      var cap' := Pushed(i, cap, grow);
      var tag := StartTag(v, cfg).value;
      var f := Fresh(v, cfg.newline, tag);
      var kids;
      if v.ElemStart? {
        ItemsSound(v.elem.content, i + 1, cap', cfg, grow);
        kids := ItemTrees(v.elem.content, i + 1, cap', cfg, grow).trees;
        FreshSound(v, cfg);
      } else {
        SectionPending(v, cfg);
        PendingFits(v);
        LeavesSound(Pending(v), StartKind(v));
        kids := LeafTrees(Pending(v));
        FreshSound(v, cfg);
      }
      OpenedSound(f);
      if Stale(f, i, cap') {
        StaleHasKids(f, i, i, cap', cap', cfg, grow);
      }
      var t := Finished(f, kids, Stale(f, i, cap'));
      assert Sound(t);
      OneSound(t, ElemNode);
    }
  }

  /** The pointer is stale only after content that begins with a node. */
  lemma StaleHasKids(f: Frame, i: nat, j: nat, cap: nat, cap': nat, cfg: Config, grow: Growth)
    requires Stale(f, i, cap) && PendingOk(f.start, cfg)
    ensures PendingTrees(f.start, j, cap', cfg, grow).trees != [] && f.start.ElemStart?
  {
    hide ItemOk, ElemTag, DeclarationsOk;
    var items := f.start.elem.content;
    ItemHasTree(items[0], j + 1, cap', cfg, grow);
  }

  lemma ItemHasTree(w: Writable, i: nat, cap: nat, cfg: Config, grow: Growth)
    requires ItemOk(w, cfg)
    ensures ItemTree(w, i, cap, cfg, grow).trees != []
  {
    hide ItemTrees, LeafTrees, ElemTag, DeclarationsOk, ItemsOk;
  }

  lemma OneSound(t: Tree, parent: NodeKind)
    requires Sound(t) && parent in Parents(TreeKind(t))
    ensures AllSound([t], parent)
  {
    hide Sound, Parents, TreeKind;
    assert [t][1..] == [];
  }

  lemma {:induction false} ItemsSound(items: seq<Writable>, i: nat, cap: nat, cfg: Config, grow: Growth)
    requires cfg.enforce && ItemsOk(items, cfg)
    ensures AllSound(ItemTrees(items, i, cap, cfg, grow).trees, ElemNode)
    decreases items
  {
    hide ItemTree, ItemOk, AllSound;
    if items == [] {
      NoneSound(ElemNode);
    } else {
      var first := ItemTree(items[0], i, cap, cfg, grow);
      ItemSound(items[0], i, cap, cfg, grow);
      ItemsSound(items[1..], i, first.cap, cfg, grow);
      SoundConcat(first.trees, ItemTrees(items[1..], i, first.cap, cfg, grow).trees, ElemNode);
    }
  }

  lemma NoneSound(parent: NodeKind)
    ensures AllSound([], parent)
  {
  }

  lemma PendingSound(v: Startable, i: nat, cap: nat, cfg: Config, grow: Growth)
    requires cfg.enforce && PendingOk(v, cfg)
    ensures AllSound(PendingTrees(v, i, cap, cfg, grow).trees, StartKind(v))
  {
    hide ItemTrees, LeafTrees, AllSound, ItemsOk, LeavesOk, Pending;
    if v.ElemStart? {
      ItemsSound(v.elem.content, i + 1, cap, cfg, grow);
    } else {
      PendingFits(v);
      LeavesSound(Pending(v), StartKind(v));
    }
  }

  // ---------------------------------------------------------------- calls

  lemma AttachSound(z: Zip, t: Tree)
    requires ZipSound(z) && Sound(t) && TopKind(z.stack) in Parents(TreeKind(t))
    ensures ZipSound(Attach(z, t))
  {
    hide Sound, AllSound, Parents, TreeKind, Legal, HeadSound, NamesOk;
    AttachLegal(z, t);
    if z.stack.Bottom? {
      SoundSnoc(z.done, t, NoNode);
    } else {
      SoundSnoc(z.stack.top.kids, t, HeadKind(z.stack.top.head));
    }
  }

  lemma OpenTopSound(z: Zip, cap: nat, cfg: Config, grow: Growth)
    requires cfg.enforce && ZipSound(z) && OpenTopOk(z, cfg)
    ensures ZipSound(OpenTop(z, cap, cfg, grow).zip)
    ensures TopKind(OpenTop(z, cap, cfg, grow).zip.stack) == TopKind(z.stack)
  {
    hide AllSound, Legal, HeadSound, NamesOk, PendingTrees, PendingOk, DeclarationsOk, Opened;
    OpenTopLegal(z, cap, cfg, grow);
    if z.stack.Push? && !z.stack.top.entered {
      var f := z.stack.top;
      OpenedSound(f);
      PendingSound(f.start, Depth(z.stack.below), cap, cfg, grow);
      var kids := PendingTrees(f.start, Depth(z.stack.below), cap, cfg, grow);
      SoundConcat(f.kids, kids.trees, HeadKind(f.head));
    }
  }

  lemma StaleTop(z: Zip, cap: nat, cfg: Config, grow: Growth)
    requires z.stack.Push? && OpenTopOk(z, cfg) && FrameSound(z.stack.top)
    ensures var f, m := z.stack.top, OpenTop(z, cap, cfg, grow);
      m.zip.stack.Push? && (!f.entered && Stale(f, Depth(z.stack.below), cap) ==>
        m.zip.stack.top.head.HElem? && m.zip.stack.top.kids != [])
  {
    hide AllSound, HeadSound, NamesOk, PendingTrees, PendingOk, Stale, DeclarationsOk, Undeclared, Declared;
    var f, i := z.stack.top, Depth(z.stack.below);
    if !f.entered && Stale(f, i, cap) {
      StaleHasKids(f, i, i, cap, cap, cfg, grow);
    }
  }

  lemma CloseTopSound(z: Zip, cap: nat, cfg: Config, grow: Growth)
    requires cfg.enforce && ZipSound(z) && OpenTopOk(z, cfg) && z.stack.Push?
    ensures ZipSound(CloseTop(z, cap, cfg, grow).zip)
  {
    hide AllSound, HeadSound, NamesOk, OpenTopOk, OpenTop, Attach, Stale, Parents;
    OpenTopSound(z, cap, cfg, grow);
    StaleTop(z, cap, cfg, grow);
    var m := OpenTop(z, cap, cfg, grow);
    OpenTopPush(z, cap, cfg, grow);
    OpenTopBelow(z, cap, cfg, grow);
    var f, g := z.stack.top, m.zip.stack.top;
    var t := Ended(g, !f.entered && Stale(f, Depth(z.stack.below), cap));
    AttachSound(Zip(z.done, z.stack.below), t);
  }

  lemma {:induction false} CloseDownSound(z: Zip, cap: nat, keep: nat, cfg: Config, grow: Growth)
    requires cfg.enforce && ZipSound(z) && InnerEntered(z.stack)
    requires Depth(z.stack) > keep ==> OpenTopOk(z, cfg)
    ensures ZipSound(CloseDown(z, cap, keep, cfg, grow).zip)
    decreases Depth(z.stack)
  {
    hide CloseTop, ZipSound, OpenTopOk, Settled;
    if Depth(z.stack) > keep {
      CloseTopSound(z, cap, cfg, grow);
      CloseShallower(z, cap, cfg, grow);
      EndAnyShape(z, cap, cfg, grow);
      var m := CloseTop(z, cap, cfg, grow);
      OpenTopEntered(m.zip, m.cap, cfg, grow);
      CloseDownSound(m.zip, m.cap, keep, cfg, grow);
    }
  }

  lemma StartSound(z: Zip, cap: nat, v: Startable, cfg: Config, grow: Growth)
    requires cfg.enforce && ZipSound(z)
    ensures var o := StartCall(z, cap, v, cfg, grow); o.Done? ==> ZipSound(o.zip)
  {
    hide FrameSound, AllSound, OpenTop, OpenTopOk, StartTag, Legal, Parents;
    if StartCall(z, cap, v, cfg, grow).Done? {
      OpenTopSound(z, Pushed(Depth(z.stack), cap, grow), cfg, grow);
      StartLegal(z, cap, v, cfg, grow);
      FreshSound(v, cfg);
    }
  }

  lemma EndSound(z: Zip, cap: nat, kind: NodeKind, names: seq<Str>, cfg: Config, grow: Growth)
    requires cfg.enforce && ZipSound(z)
    ensures var o := EndCall(z, cap, kind, names, cfg, grow); o.Done? ==> ZipSound(o.zip)
    ensures var o := EndAnyCall(z, cap, cfg, grow); o.Done? ==> ZipSound(o.zip)
  {
    hide ZipSound, CloseTop, OpenTopOk, NamesFit;
    if z.stack.Push? && OpenTopOk(z, cfg) {
      CloseTopSound(z, cap, cfg, grow);
    }
  }

  lemma LeafSound(z: Zip, cap: nat, l: Leaf, cfg: Config, grow: Growth)
    requires cfg.enforce && ZipSound(z)
    ensures var o := LeafCall(z, cap, l, cfg, grow); o.Done? ==> ZipSound(o.zip)
  {
    hide ZipSound, OpenTop, OpenTopOk, Attach, Parents, LeafAccepted, LeafFinishes;
    if LeafCall(z, cap, l, cfg, grow).Done? {
      OpenTopSound(z, cap, cfg, grow);
      AttachSound(OpenTop(z, cap, cfg, grow).zip, Leaf(l));
    }
  }

  lemma AttrSound(z: Zip, cap: nat, a: Attr, cfg: Config)
    requires cfg.enforce && ZipSound(z)
    ensures var o := AttrCall(z, cap, a, cfg); o.Done? ==> ZipSound(o.zip)
  {
    hide AllSound, HeadSound, ValidName, AddNs, FullName, Parents;
  }

  lemma PutSound(z: Zip, cap: nat, w: Writable, cfg: Config, grow: Growth)
    requires cfg.enforce && ZipSound(z)
    ensures var o := PutCall(z, cap, w, cfg, grow); o.Done? ==> ZipSound(o.zip)
  {
    hide ZipSound, StartCall, EndCall, LeafCall, AttrCall;
    match w {
      case WLeaf(l) => LeafSound(z, cap, l, cfg, grow);
      case WStart(v) =>
        StartSound(z, cap, v, cfg, grow);
        var o := StartCall(z, cap, v, cfg, grow);
        if o.Done? {
          EndSound(o.zip, o.cap, StartKind(v), [], cfg, grow);
        }
      case WAttr(a) => AttrSound(z, cap, a, cfg);
      case WRaw(_) =>
    }
  }

  lemma FullSound(z: Zip)
    ensures ZipSound(SetFull(z)) == ZipSound(z) && InnerEntered(SetFull(z).stack) == InnerEntered(z.stack)
  {
    hide AllSound, HeadSound, NamesOk;
  }

  /** A call of an enforcing writer keeps its document sound. */
  lemma StepSound(z: Zip, cap: nat, op: Op, cfg: Config, grow: Growth)
    requires Typed(op) && cfg.enforce && ZipSound(z) && InnerEntered(z.stack)
    ensures var o := Step(z, cap, op, cfg, grow); o.Done? ==> ZipSound(o.zip)
  {
    hide ZipSound, PutCall, StartCall, EndCall, EndAnyCall, CloseDown, OpenTopOk, InnerEntered;
    match op {
      case OpStart(v) => StartSound(z, cap, v, cfg, grow);
      case OpPut(w) => PutSound(z, cap, w, cfg, grow);
      case OpEnd(kind, names) => EndSound(z, cap, kind, names, cfg, grow);
      case OpEndFull(names) =>
        FullSound(z);
        EndSound(SetFull(z), cap, ElemNode, names, cfg, grow);
      case OpEndAny => EndSound(z, cap, NoNode, [], cfg, grow);
      case OpEndAll =>
        if EndAllCall(z, cap, cfg, grow).Done? {
          CloseDownSound(z, cap, 0, cfg, grow);
        }
      case OpEndToDepth(depth, kind, names) =>
        if EndToDepthCall(z, cap, depth, kind, names, cfg, grow).Done? {
          CloseDownSound(z, cap, Kept(depth + 1), cfg, grow);
          var m := CloseDown(z, cap, Kept(depth + 1), cfg, grow);
          EndSound(m.zip, m.cap, kind, names, cfg, grow);
        }
    }
  }

  /** The document of every error-free run of an enforcing writer is sound. */
  lemma {:induction false} RunSound(z: Zip, cap: nat, ops: seq<Op>, cfg: Config, grow: Growth)
    requires forall op | op in ops :: Typed(op)
    requires cfg.enforce && ZipSound(z) && InnerEntered(z.stack) && Settled(z)
    ensures var o := Steps(z, cap, ops, cfg, grow); o.Done? ==> ZipSound(o.zip)
    decreases ops
  {
    hide ZipSound, InnerEntered, Settled, Step;
    if ops != [] {
      var o := Step(z, cap, ops[0], cfg, grow);
      StepSound(z, cap, ops[0], cfg, grow);
      StepShape(z, cap, ops[0], cfg, grow);
      if o.Done? {
        RunSound(o.zip, o.cap, ops[1..], cfg, grow);
      }
    }
  }
}
