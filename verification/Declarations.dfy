/** Namespace declarations over whole runs: in every start tag each prefix is declared at most once, and in a
    finished tag every recorded namespace is. */
module Declarations {
  import opened Bytes
  import opened Nodes
  import opened Document
  import opened Trees
  import opened TreeProofs
  import opened Runs
  import opened Nesting
  import opened Namespaces

  // ---------------------------------------------------------------- no declarations written by hand

  predicate FreeAttr(a: Attr) {
    !DeclName(FullName(a.prefix, a.name))
  }

  predicate FreeStart(v: Startable) {
    v.ElemStart? ==> (forall a | a in v.elem.attrs :: FreeAttr(a)) && FreeItems(v.elem.content)
  }

  predicate FreeItem(w: Writable) {
    match w
    case WLeaf(_) => true
    case WStart(v) => FreeStart(v)
    case WAttr(a) => FreeAttr(a)
    case WRaw(_) => true
  }

  predicate FreeItems(items: seq<Writable>) {
    items == [] || (FreeItem(items[0]) && FreeItems(items[1..]))
  }

  predicate FreeOp(op: Op) {
    match op
    case OpStart(v) => FreeStart(v)
    case OpPut(w) => FreeItem(w)
    case _ => true
  }

  // ---------------------------------------------------------------- each declared once

  /** No two declarations are for the same prefix. */
  predicate NamesOnce(ds: seq<Att>) {
    forall i, j | 0 <= i < j < |ds| :: ds[i].name != ds[j].name
  }

  predicate Once(t: Tree) {
    match t
    case Leaf(_) => true
    case Branch(h, atts, kids, _, _) => (h.HElem? ==> NamesOnce(Decls(atts))) && AllOnce(kids)
  }

  predicate AllOnce(ts: seq<Tree>) {
    ts == [] || (Once(ts[0]) && AllOnce(ts[1..]))
  }

  lemma {:induction false} OnceConcat(a: seq<Tree>, b: seq<Tree>)
    ensures AllOnce(a + b) <==> AllOnce(a) && AllOnce(b)
  {
    hide Once;
    if a == [] {
      assert a + b == b;
    } else {
      assert (a + b)[0] == a[0] && (a + b)[1..] == a[1..] + b;
      OnceConcat(a[1..], b);
    }
  }

  lemma OnceSnoc(ts: seq<Tree>, t: Tree)
    ensures AllOnce(ts + [t]) <==> AllOnce(ts) && Once(t)
  {
    hide Once;
    OnceConcat(ts, [t]);
    assert [t][1..] == [];
  }

  /** The declarations of a start tag: while it can grow, those printed and those to come are one for each
      recorded prefix; once it is complete, those printed are. */
  predicate TagOnce(f: Frame) {
    if f.entered then Distinct(f.nss) && Decls(f.atts) == NsAtts(f.nss) else Accounted(Tag(f.atts, f.nss, f.tagged))
  }

  predicate FrameOnce(f: Frame) {
    && f.head.HElem? == f.start.ElemStart? && FreeStart(f.start) && AllOnce(f.kids)
    && (f.head.HElem? ==> TagOnce(f))
  }

  predicate StackOnce(s: Stack) {
    s.Push? ==> StackOnce(s.below) && FrameOnce(s.top)
  }

  predicate ZipOnce(z: Zip) {
    AllOnce(z.done) && StackOnce(z.stack)
  }

  // ---------------------------------------------------------------- tags

  lemma {:induction false} NotLooked(nss: seq<Ns>, p: Str, i: nat)
    requires Lookup(nss, p).None? && i < |nss|
    ensures nss[i].prefix != p
  {
    if i > 0 {
      NotLooked(nss[1..], p, i - 1);
    }
  }

  lemma {:induction false} NsAttsAt(nss: seq<Ns>)
    ensures |NsAtts(nss)| == |nss| && forall i | 0 <= i < |nss| :: NsAtts(nss)[i] == NsAtt(nss[i])
  {
    hide NsAtt;
    if nss != [] {
      NsAttsAt(nss[1..]);
    }
  }

  lemma {:induction false} DistinctApart(nss: seq<Ns>, i: nat, j: nat)
    requires Distinct(nss) && i < j < |nss|
    ensures nss[i].prefix != nss[j].prefix
  {
    if i == 0 {
      NotLooked(nss[1..], nss[0].prefix, j - 1);
    } else {
      DistinctApart(nss[1..], i - 1, j - 1);
    }
  }

  lemma PrefixInName(a: Str, b: Str)
    requires "xmlns:" + a == "xmlns:" + b
    ensures a == b
  {
    assert ("xmlns:" + a)[6..] == a && ("xmlns:" + b)[6..] == b;
  }

  lemma DistinctOnce(nss: seq<Ns>)
    requires Distinct(nss)
    ensures NamesOnce(NsAtts(nss))
  {
    hide Distinct, NsAtts;
    NsAttsAt(nss);
    forall i, j | 0 <= i < j < |nss| ensures NsAtts(nss)[i].name != NsAtts(nss)[j].name {
      DistinctApart(nss, i, j);
      if NsAtt(nss[i]).name == NsAtt(nss[j]).name {
        PrefixInName(nss[i].prefix, nss[j].prefix);
      }
    }
  }

  lemma {:induction false} LookupDeclared(nss: seq<Ns>, p: Str)
    ensures Lookup(Declared(nss), p).None? == Lookup(nss, p).None?
  {
    if nss != [] {
      assert Declared(nss)[1..] == Declared(nss[1..]);
      LookupDeclared(nss[1..], p);
    }
  }

  lemma {:induction false} DeclaredSame(nss: seq<Ns>)
    ensures NsAtts(Declared(nss)) == NsAtts(nss)
    ensures Distinct(Declared(nss)) == Distinct(nss)
  {
    if nss != [] {
      assert Declared(nss)[1..] == Declared(nss[1..]);
      DeclaredSame(nss[1..]);
      LookupDeclared(nss[1..], nss[0].prefix);
    }
  }

  /** Opening a node completes its start tag. */
  lemma OpenedOnce(f: Frame)
    requires FrameOnce(f) && !f.entered
    ensures FrameOnce(Opened(f)) && (f.head.HElem? ==> NamesOnce(Decls(Opened(f).atts)))
  {
    hide Distinct, NsAtts, Decls, Undeclared, Declared, AllOnce, FreeStart, NamesOnce;
    if f.head.HElem? {
      AccountedClosed(Tag(f.atts, f.nss, f.tagged));
      DeclaredSame(f.nss);
      DistinctOnce(f.nss);
    }
  }

  lemma EnteredOnce(f: Frame)
    requires FrameOnce(f) && f.entered && f.head.HElem?
    ensures NamesOnce(Decls(f.atts))
  {
    DistinctOnce(f.nss);
  }

  lemma FreshOnce(v: Startable, cfg: Config)
    requires FreeStart(v) && StartTag(v, cfg).Some?
    ensures FrameOnce(Fresh(v, cfg.newline, StartTag(v, cfg).value)) &&
      !Fresh(v, cfg.newline, StartTag(v, cfg).value).entered
  {
    hide Accounted, AddAttrs, FirstTag, FreeItems, ElemNameOk, DeclName;
    HeadIsElem(v, cfg.newline);
    if v.ElemStart? {
      var e := v.elem;
      FirstAccounted(e);
      assert forall a | a in e.attrs :: !DeclName(FullName(a.prefix, a.name)) by {
        forall a | a in e.attrs ensures !DeclName(FullName(a.prefix, a.name)) {
          assert FreeAttr(a);
        }
      }
      AddAllAccounted(FirstTag(e), e.attrs, cfg.enforce);
    }
  }

  // ---------------------------------------------------------------- content

  lemma {:induction false} LeavesOnce(items: seq<Writable>)
    ensures AllOnce(LeafTrees(items))
  {
    if items != [] {
      LeavesOnce(items[1..]);
      var first: seq<Tree> := if items[0].WLeaf? then [Leaf(items[0].leaf)] else [];
      OnceConcat(first, LeafTrees(items[1..]));
      assert first != [] ==> first[1..] == [];
    }
  }

  lemma OneOnce(t: Tree)
    requires Once(t)
    ensures AllOnce([t])
  {
    hide Once;
    assert [t][1..] == [];
  }

  lemma NoneOnce()
    ensures AllOnce([])
  {
  }

  lemma FinishedOnce(f: Frame, kids: seq<Tree>, stale: bool)
    requires FrameOnce(f) && !f.entered && AllOnce(kids)
    ensures Once(Finished(f, kids, stale))
  {
    hide FrameOnce, Opened, AllOnce, NamesOnce;
    OpenedOnce(f);
  }

  lemma {:induction false} StartOnceTree(v: Startable, i: nat, cap: nat, cfg: Config, grow: Growth)
    requires FreeStart(v)
    ensures AllOnce(StartTree(v, i, cap, cfg, grow).trees)
    decreases v
  {
    hide ItemTrees, LeafTrees, AllOnce, Once, FrameOnce, FreeItems, Pending, StartTag, Finished, FreeAttr;
    if StartTag(v, cfg).None? {
      NoneOnce();
    } else {
      var f := Fresh(v, cfg.newline, StartTag(v, cfg).value);
      var cap' := Pushed(i, cap, grow);
      FreshOnce(v, cfg);
      if v.ElemStart? {
        ItemsOnce(v.elem.content, i + 1, cap', cfg, grow);
        var kids := ItemTrees(v.elem.content, i + 1, cap', cfg, grow).trees;
        FinishedOnce(f, kids, Stale(f, i, cap'));
        OneOnce(Finished(f, kids, Stale(f, i, cap')));
      } else {
        LeavesOnce(Pending(v));
        FinishedOnce(f, LeafTrees(Pending(v)), Stale(f, i, cap'));
        OneOnce(Finished(f, LeafTrees(Pending(v)), Stale(f, i, cap')));
      }
    }
  }

  lemma {:induction false} ItemOnce(w: Writable, i: nat, cap: nat, cfg: Config, grow: Growth)
    requires FreeItem(w)
    ensures AllOnce(ItemTree(w, i, cap, cfg, grow).trees)
    decreases w
  {
    hide StartTree, FreeStart, AllOnce;
    NoneOnce();
    match w {
      case WLeaf(l) => OneOnce(Leaf(l));
      case WStart(v) => StartOnceTree(v, i, cap, cfg, grow);
      case WAttr(_) =>
      case WRaw(_) =>
    }
  }

  lemma {:induction false} ItemsOnce(items: seq<Writable>, i: nat, cap: nat, cfg: Config, grow: Growth)
    requires FreeItems(items)
    ensures AllOnce(ItemTrees(items, i, cap, cfg, grow).trees)
    decreases items
  {
    hide ItemTree, FreeItem, AllOnce;
    NoneOnce();
    if items != [] {
      var first := ItemTree(items[0], i, cap, cfg, grow);
      ItemOnce(items[0], i, cap, cfg, grow);
      ItemsOnce(items[1..], i, first.cap, cfg, grow);
      OnceConcat(first.trees, ItemTrees(items[1..], i, first.cap, cfg, grow).trees);
    }
  }

  lemma PendingOnce(v: Startable, i: nat, cap: nat, cfg: Config, grow: Growth)
    requires FreeStart(v)
    ensures AllOnce(PendingTrees(v, i, cap, cfg, grow).trees)
  {
    hide ItemTrees, LeafTrees, AllOnce, FreeItems, Pending;
    if v.ElemStart? {
      ItemsOnce(v.elem.content, i + 1, cap, cfg, grow);
    } else {
      LeavesOnce(Pending(v));
    }
  }

  // ---------------------------------------------------------------- calls

  lemma AttachOnce(z: Zip, t: Tree)
    requires ZipOnce(z) && Once(t)
    ensures ZipOnce(Attach(z, t))
  {
    hide Once, AllOnce, FreeStart, TagOnce;
    if z.stack.Bottom? {
      OnceSnoc(z.done, t);
    } else {
      OnceSnoc(z.stack.top.kids, t);
      SameTag(z.stack.top, z.stack.top.(kids := z.stack.top.kids + [t]));
    }
  }

  lemma SameTag(f: Frame, g: Frame)
    requires g.entered == f.entered && g.atts == f.atts && g.nss == f.nss
    ensures TagOnce(f) == TagOnce(g)
  {
  }

  lemma OpenTopOnce(z: Zip, cap: nat, cfg: Config, grow: Growth)
    requires ZipOnce(z)
    ensures var m := OpenTop(z, cap, cfg, grow).zip; ZipOnce(m) && (m.stack.Push? ==> m.stack.top.entered)
  {
    hide AllOnce, FreeStart, PendingTrees, TagOnce, Undeclared, Declared;
    if z.stack.Push? && !z.stack.top.entered {
      var f := z.stack.top;
      OpenedOnce(f);
      PendingOnce(f.start, Depth(z.stack.below), cap, cfg, grow);
      var kids := PendingTrees(f.start, Depth(z.stack.below), cap, cfg, grow).trees;
      OnceConcat(f.kids, kids);
      SameTag(Opened(f), Told(Opened(f).(kids := f.kids + kids)));
    }
  }

  lemma CloseTopOnce(z: Zip, cap: nat, cfg: Config, grow: Growth)
    requires ZipOnce(z) && z.stack.Push?
    ensures ZipOnce(CloseTop(z, cap, cfg, grow).zip)
  {
    hide AllOnce, FreeStart, OpenTop, Attach, Stale, TagOnce, NamesOnce, Decls;
    OpenTopOnce(z, cap, cfg, grow);
    OpenTopBelow(z, cap, cfg, grow);
    var m := OpenTop(z, cap, cfg, grow);
    var f, g := z.stack.top, m.zip.stack.top;
    if g.head.HElem? {
      EnteredOnce(g);
    }
    AttachOnce(Zip(z.done, z.stack.below),
      Ended(g, !f.entered && Stale(f, Depth(z.stack.below), cap)));
  }

  lemma {:induction false} CloseDownOnce(z: Zip, cap: nat, keep: nat, cfg: Config, grow: Growth)
    requires ZipOnce(z)
    ensures ZipOnce(CloseDown(z, cap, keep, cfg, grow).zip)
    decreases Depth(z.stack)
  {
    hide CloseTop, ZipOnce;
    if Depth(z.stack) > keep {
      CloseTopOnce(z, cap, cfg, grow);
      CloseShallower(z, cap, cfg, grow);
      var m := CloseTop(z, cap, cfg, grow);
      CloseDownOnce(m.zip, m.cap, keep, cfg, grow);
    }
  }

  lemma StartOnce(z: Zip, cap: nat, v: Startable, cfg: Config, grow: Growth)
    requires ZipOnce(z) && FreeStart(v)
    ensures var o := StartCall(z, cap, v, cfg, grow); o.Done? ==> ZipOnce(o.zip)
  {
    hide FrameOnce, AllOnce, OpenTop, OpenTopOk, StartTag, FreeStart, Parents;
    if StartCall(z, cap, v, cfg, grow).Done? {
      OpenTopOnce(z, Pushed(Depth(z.stack), cap, grow), cfg, grow);
      FreshOnce(v, cfg);
    }
  }

  lemma EndOnce(z: Zip, cap: nat, kind: NodeKind, names: seq<Str>, cfg: Config, grow: Growth)
    requires ZipOnce(z)
    ensures var o := EndCall(z, cap, kind, names, cfg, grow); o.Done? ==> ZipOnce(o.zip)
    ensures var o := EndAnyCall(z, cap, cfg, grow); o.Done? ==> ZipOnce(o.zip)
  {
    hide ZipOnce, CloseTop, OpenTopOk, NamesFit;
    if z.stack.Push? {
      CloseTopOnce(z, cap, cfg, grow);
    }
  }

  lemma AttrOnce(z: Zip, cap: nat, a: Attr, cfg: Config)
    requires ZipOnce(z) && FreeAttr(a)
    ensures var o := AttrCall(z, cap, a, cfg); o.Done? ==> ZipOnce(o.zip)
  {
    hide AllOnce, FreeStart, Accounted, DeclName, FullName, AddNs, Parents;
    var o := AttrCall(z, cap, a, cfg);
    if o.Done? {
      var f := z.stack.top;
      AddAccounted(Tag(f.atts, f.nss, f.tagged), a, false);
    }
  }

  lemma PutOnce(z: Zip, cap: nat, w: Writable, cfg: Config, grow: Growth)
    requires ZipOnce(z) && FreeItem(w)
    ensures var o := PutCall(z, cap, w, cfg, grow); o.Done? ==> ZipOnce(o.zip)
  {
    hide ZipOnce, StartCall, EndCall, AttrCall, OpenTop, OpenTopOk, Attach, Parents, LeafAccepted, LeafFinishes,
      FreeStart;
    match w {
      case WLeaf(l) =>
        OpenTopOnce(z, cap, cfg, grow);
        AttachOnce(OpenTop(z, cap, cfg, grow).zip, Leaf(l));
      case WStart(v) =>
        StartOnce(z, cap, v, cfg, grow);
        var o := StartCall(z, cap, v, cfg, grow);
        if o.Done? {
          EndOnce(o.zip, o.cap, StartKind(v), [], cfg, grow);
        }
      case WAttr(a) => AttrOnce(z, cap, a, cfg);
      case WRaw(_) =>
    }
  }

  lemma FullOnce(z: Zip)
    ensures ZipOnce(SetFull(z)) == ZipOnce(z)
  {
    hide AllOnce, FreeStart, Accounted, Distinct, Decls;
  }

  lemma StepOnce(z: Zip, cap: nat, op: Op, cfg: Config, grow: Growth)
    requires Typed(op) && FreeOp(op) && ZipOnce(z)
    ensures var o := Step(z, cap, op, cfg, grow); o.Done? ==> ZipOnce(o.zip)
  {
    hide ZipOnce, PutCall, StartCall, EndCall, EndAnyCall, CloseDown, OpenTopOk, FreeStart, FreeItem;
    match op {
      case OpStart(v) => StartOnce(z, cap, v, cfg, grow);
      case OpPut(w) => PutOnce(z, cap, w, cfg, grow);
      case OpEnd(kind, names) => EndOnce(z, cap, kind, names, cfg, grow);
      case OpEndFull(names) =>
        FullOnce(z);
        EndOnce(SetFull(z), cap, ElemNode, names, cfg, grow);
      case OpEndAny => EndOnce(z, cap, NoNode, [], cfg, grow);
      case OpEndAll => CloseDownOnce(z, cap, 0, cfg, grow);
      case OpEndToDepth(depth, kind, names) =>
        CloseDownOnce(z, cap, Kept(depth + 1), cfg, grow);
        var m := CloseDown(z, cap, Kept(depth + 1), cfg, grow);
        EndOnce(m.zip, m.cap, kind, names, cfg, grow);
    }
  }

  /** Over every run that writes no xmlns attribute by hand: no element, finished or still open, declares a
      prefix twice, and once its start tag is complete an open element has declared exactly the namespaces
      recorded for it. */
  lemma {:induction false} RunOnce(z: Zip, cap: nat, ops: seq<Op>, cfg: Config, grow: Growth)
    requires forall op | op in ops :: Typed(op) && FreeOp(op)
    requires ZipOnce(z)
    ensures var o := Steps(z, cap, ops, cfg, grow); o.Done? ==> ZipOnce(o.zip)
    decreases ops
  {
    hide ZipOnce, FreeOp, Step;
    if ops != [] {
      var o := Step(z, cap, ops[0], cfg, grow);
      StepOnce(z, cap, ops[0], cfg, grow);
      if o.Done? {
        RunOnce(o.zip, o.cap, ops[1..], cfg, grow);
      }
    }
  }
}
