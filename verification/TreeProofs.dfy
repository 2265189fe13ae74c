/** How the text of a partial document grows, call by call. */
module TreeProofs {
  import opened Bytes
  import opened Check
  import opened Nodes
  import opened Printer
  import opened Document
  import opened Trees

  lemma AttachBytes(z: Zip, t: Tree)
    requires z.stack.Push? ==> z.stack.top.entered
    ensures ZipBytes(Attach(z, t)) == ZipBytes(z) + Render(t)
  {
    hide Render, RenderAll, OpenBytes, OpenedBytes;
    if z.stack.Bottom? {
      RenderSnoc(z.done, t);
    } else {
      var f := z.stack.top;
      RenderSnoc(f.kids, t);
      var a, b := OpenBytes(f.head, f.atts), OpenedBytes(f.head, true, f.full);
      Assoc(b, RenderAll(f.kids), Render(t));
      Assoc(a, b + RenderAll(f.kids), Render(t));
      Assoc(StackBytes(z.stack.below), FrameBytes(f, true), Render(t));
      Assoc(RenderAll(z.done), StackBytes(z.stack), Render(t));
    }
  }

  /** One turn of the loop over the namespaces of an element. */
  lemma UndeclaredStep(nss: seq<Ns>, i: nat, enforce: bool)
    requires i < |nss|
    ensures AttsBytes(Undeclared(nss[i..])) ==
      (if nss[i].written then [] else AttBytes("xmlns:" + nss[i].prefix, nss[i].uri)) +
        AttsBytes(Undeclared(nss[i + 1..]))
    ensures DeclarationsOk(nss[i..], enforce) <==>
      (enforce && !nss[i].written ==> ValidName("xmlns:" + nss[i].prefix)) && DeclarationsOk(nss[i + 1..], enforce)
  {
    hide AttBytes, ValidName;
    assert nss[i..][1..] == nss[i + 1..];
    var rest := Undeclared(nss[i + 1..]);
    if nss[i].written {
      assert Undeclared(nss[i..]) == rest;
      assert [] + AttsBytes(rest) == AttsBytes(rest);
    } else {
      var a := NsAtt(nss[i]);
      assert Undeclared(nss[i..]) == [a] + rest;
      AttsConcat([a], rest);
      AttsOne(a);
      assert forall b | b in [a] + rest :: b == a || b in rest;
      assert ([a] + rest)[0] == a;
    }
  }

  lemma DeclPieces(p: Str, open: Str, v: Str, e: Str, a: Str, space: Str, end: Str, newline: Str)
    ensures p + open + v + e + a + space + end + newline == p + (open + (v + e + a) + space + end + newline)
  {
    Assoc(p, open, v);
    Assoc(p, open + v, e);
    Assoc(p, open + v + e, a);
    Assoc(open, v, e);
    Assoc(open, v + e, a);
    Assoc(p, open + (v + e + a), space);
    Assoc(p, open + (v + e + a) + space, end);
    Assoc(p, open + (v + e + a) + space + end, newline);
  }

  lemma AddAttrsStep(t: Tag, attrs: seq<Attr>, i: nat, enforce: bool)
    requires i < |attrs|
    ensures AddAttrs(t, attrs[i..], enforce) ==
      match AddAttr(t, attrs[i], enforce)
      case None => None
      case Some(t') => AddAttrs(t', attrs[i + 1..], enforce)
  {
    hide AddAttr;
    assert attrs[i..][1..] == attrs[i + 1..];
  }

  lemma AddAttrsEnd(t: Tag, enforce: bool)
    ensures AddAttrs(t, [], enforce) == Some(t)
  {
  }

  /** An attribute in the start tag of an element that has just been started. */
  lemma AttrCallFresh(z: Zip, cap: nat, e: Elem, t: Tag, a: Attr, cfg: Config)
    requires z.stack.Push? && z.stack.top == Fresh(ElemStart(e), cfg.newline, t)
    ensures match AddAttr(t, a, cfg.enforce)
      case Some(t') =>
        AttrCall(z, cap, a, cfg) == Done(z.(stack := z.stack.(top := Fresh(ElemStart(e), cfg.newline, t'))), cap)
      case None => !AttrCall(z, cap, a, cfg).Done?
  {
    hide ValidName, AddNs;
  }

  lemma NoDecls(d: DocDecl, cfg: Config)
    ensures DocAtts(d, cfg) == [] <==>
      d.suppressVersion && (d.suppressEncoding || DocEncoding(d, cfg) == []) && d.standalone.None?
  {
  }

  lemma HeadKindOf(v: Startable, newline: Str)
    ensures HeadKind(HeadOf(v, newline)) == StartKind(v)
  {
  }

  lemma HeadIsElem(v: Startable, newline: Str)
    ensures HeadOf(v, newline).HElem? <==> v.ElemStart?
  {
  }

  lemma Regroup4(a: Str, b: Str, c: Str, d: Str)
    ensures a + b + (c + d) == a + (b + c + d)
  {
    Assoc(b, c, d);
    Assoc(a, b, c + d);
  }

  lemma AttsOne(a: Att)
    ensures AttsBytes([a]) == AttBytes(a.name, a.value)
  {
    hide AttBytes;
    AttsSnoc([], a);
    assert [] + [a] == [a];
  }

  lemma NoneUndeclared(enforce: bool)
    ensures AttsBytes(Undeclared([])) == [] && DeclarationsOk([], enforce)
  {
  }

  lemma PushBytes(z: Zip, f: Frame)
    requires !f.entered
    ensures ZipBytes(z.(stack := Push(z.stack, f))) == ZipBytes(z) + OpenBytes(f.head, f.atts)
  {
    hide RenderAll, OpenBytes, OpenedBytes;
    var o := OpenBytes(f.head, f.atts);
    assert o + [] == o;
    Assoc(RenderAll(z.done), StackBytes(z.stack), o);
  }

  /** The text up to the innermost open node. */
  function Before(z: Zip): Str
    requires z.stack.Push?
  {
    RenderAll(z.done) + StackBytes(z.stack.below)
  }

  lemma SplitTop(z: Zip)
    requires z.stack.Push?
    ensures ZipBytes(z) == Before(z) + FrameBytes(z.stack.top, true)
  {
    hide RenderAll, FrameBytes;
    Assoc(RenderAll(z.done), StackBytes(z.stack.below), FrameBytes(z.stack.top, true));
  }

  /** A start tag with more attributes. */
  lemma TagGrows(name: Str, atts: seq<Att>, more: seq<Att>)
    ensures OpenBytes(HElem(name), atts + more) == OpenBytes(HElem(name), atts) + AttsBytes(more)
  {
    hide AttsBytes;
    AttsConcat(atts, more);
    Assoc("<" + name, AttsBytes(atts), AttsBytes(more));
  }

  /** The text after one more attribute of the innermost start tag. */
  lemma AttrBytesAdded(z: Zip, a: Att, nss: seq<Ns>, tagged: bool)
    requires z.stack.Push? && !z.stack.top.entered && z.stack.top.head.HElem?
    ensures var f := z.stack.top;
      ZipBytes(z.(stack := z.stack.(top := f.(atts := f.atts + [a], nss := nss, tagged := tagged)))) ==
      ZipBytes(z) + AttBytes(a.name, a.value)
  {
    hide RenderAll, AttsBytes, AttBytes;
    var f := z.stack.top;
    var g := f.(atts := f.atts + [a], nss := nss, tagged := tagged);
    AttsSnoc(f.atts, a);
    Assoc("<" + f.head.name, AttsBytes(f.atts), AttBytes(a.name, a.value));
    var o := OpenBytes(f.head, f.atts);
    assert o + [] == o && OpenBytes(g.head, g.atts) + [] == OpenBytes(g.head, g.atts);
    Assoc(StackBytes(z.stack.below), o, AttBytes(a.name, a.value));
    Assoc(RenderAll(z.done), StackBytes(z.stack), AttBytes(a.name, a.value));
  }

  /** The text of a node that has just been entered. */
  lemma EnterBytes(f: Frame, kids: bool)
    requires !f.entered && f.kids == []
    ensures FrameBytes(Opened(f), kids) ==
      FrameBytes(f, true) + (if f.head.HElem? then AttsBytes(Undeclared(f.nss)) else []) +
      OpenedBytes(f.head, kids, f.full)
  {
    hide OpenBytes, OpenedBytes, AttsBytes;
    if f.head.HElem? {
      TagGrows(f.head.name, f.atts, Undeclared(f.nss));
    }
    assert RenderAll([]) == [];
    assert FrameBytes(f, true) == OpenBytes(f.head, f.atts);
    var o := OpenedBytes(f.head, kids, f.full);
    assert o + [] == o;
  }

  /** The innermost node finished. */
  function ClosedDoc(z: Zip, stale: bool): Zip
    requires z.stack.Push?
  {
    Attach(Zip(z.done, z.stack.below), Ended(z.stack.top, stale))
  }

  /** The text of a finished node. */
  lemma FinishBytes(f: Frame, stale: bool)
    requires f.entered
    ensures Render(Ended(f, stale)) ==
      FrameBytes(f, f.kids != []) + (if stale && !f.full then [] else EndBytes(f.head, f.kids != [], f.full))
  {
    hide OpenBytes, OpenedBytes, EndBytes, RenderAll;
    Assoc(OpenBytes(f.head, f.atts), OpenedBytes(f.head, f.kids != [], f.full), RenderAll(f.kids));
  }

  /** The text after the innermost node has been finished. */
  lemma CloseBytes(z: Zip, stale: bool)
    requires z.stack.Push? && z.stack.top.entered
    requires z.stack.below.Push? ==> z.stack.below.top.entered
    ensures var f := z.stack.top;
      ZipBytes(ClosedDoc(z, stale)) ==
      Before(z) + FrameBytes(f, f.kids != []) +
        (if stale && !f.full then [] else EndBytes(f.head, f.kids != [], f.full))
  {
    hide FrameBytes, EndBytes, Render, RenderAll, StackBytes, Attach;
    var f := z.stack.top;
    AttachBytes(Zip(z.done, z.stack.below), Ended(f, stale));
    FinishBytes(f, stale);
    Assoc(Before(z), FrameBytes(f, f.kids != []), if stale && !f.full then
      [] else EndBytes(f.head, f.kids != [], f.full));
  }

  lemma {:induction false} AttachAllKids(z: Zip, ts: seq<Tree>)
    requires z.stack.Push?
    ensures AttachAll(z, ts) == z.(stack := z.stack.(top := z.stack.top.(kids := z.stack.top.kids + ts)))
    decreases ts
  {
    if ts == [] {
      assert z.stack.top.kids + ts == z.stack.top.kids;
    } else {
      AttachAllKids(Attach(z, ts[0]), ts[1..]);
      assert z.stack.top.kids + [ts[0]] + ts[1..] == z.stack.top.kids + ts;
    }
  }

  lemma {:induction false} AttachAllConcat(z: Zip, a: seq<Tree>, b: seq<Tree>)
    ensures AttachAll(z, a + b) == AttachAll(AttachAll(z, a), b)
    decreases a
  {
    if a == [] {
      assert a + b == b;
    } else {
      assert (a + b)[1..] == a[1..] + b;
      AttachAllConcat(Attach(z, a[0]), a[1..], b);
    }
  }

  // ---------------------------------------------------------------- opening

  /** Content changes only the children of the innermost node. */
  lemma AddedTold(z: Zip, cap: nat, v: Startable, cfg: Config, grow: Growth)
    requires z.stack.Push?
    ensures v.ElemStart? ==>
      var z' := AddItems(z, cap, v.elem.content, cfg, grow).zip; z'.stack.Push? && z'.stack.top.told == z.stack.top.told
    ensures var z' := AttachAll(z, LeafTrees(Pending(v))); z'.stack.Push? && z'.stack.top.told == z.stack.top.told
  {
    hide ItemTrees, LeafTrees, AttachAll, Pending;
    AttachAllKids(z, LeafTrees(Pending(v)));
    if v.ElemStart? {
      AttachAllKids(z, ItemTrees(v.elem.content, Depth(z.stack), cap, cfg, grow).trees);
    }
  }

  /** The innermost node entered, before its content is written. */
  function EnteredZip(z: Zip): Zip
    requires z.stack.Push?
  {
    z.(stack := Push(z.stack.below, Opened(z.stack.top)))
  }

  /** The writer remembers that the innermost node has been opened. */
  function Remembered(m: Moved): Moved {
    if m.zip.stack.Bottom? then m else m.(zip := m.zip.(stack := m.zip.stack.(top := Told(m.zip.stack.top))))
  }

  lemma OpenTopElem(z: Zip, cap: nat, cfg: Config, grow: Growth)
    requires z.stack.Push? && !z.stack.top.entered && z.stack.top.kids == [] && z.stack.top.start.ElemStart?
    requires z.stack.top.head.HElem?
    ensures OpenTop(z, cap, cfg, grow) ==
      Remembered(AddItems(EnteredZip(z), cap, z.stack.top.start.elem.content, cfg, grow))
    ensures OpenTopOk(z, cfg) <==>
      DeclarationsOk(z.stack.top.nss, cfg.enforce) && ItemsOk(z.stack.top.start.elem.content, cfg)
  {
    hide ItemTrees, ItemsOk, DeclarationsOk, AttachAll, Undeclared;
    var e := z.stack.top.start.elem;
    var g := ItemTrees(e.content, Depth(z.stack), cap, cfg, grow);
    AttachAllKids(EnteredZip(z), g.trees);
  }

  lemma OpenTopOther(z: Zip, cap: nat, cfg: Config, grow: Growth)
    requires z.stack.Push? && !z.stack.top.entered && z.stack.top.kids == [] && !z.stack.top.start.ElemStart?
    requires !z.stack.top.head.HElem?
    ensures OpenTop(z, cap, cfg, grow) ==
      Remembered(Moved(AttachAll(EnteredZip(z), LeafTrees(Pending(z.stack.top.start))), cap))
    ensures OpenTopOk(z, cfg) <==> LeavesOk(Pending(z.stack.top.start), cfg.enforce)
  {
    hide LeafTrees, LeavesOk, AttachAll, Pending;
    AttachAllKids(EnteredZip(z), LeafTrees(Pending(z.stack.top.start)));
  }

  lemma OpenTopEntered(z: Zip, cap: nat, cfg: Config, grow: Growth)
    ensures z.stack.Bottom? || z.stack.top.entered ==>
      OpenTop(z, cap, cfg, grow) == Moved(z, cap) && OpenTopOk(z, cfg)
  {
  }

  /** A node without content. */
  lemma NoItems(z: Zip, cap: nat, cfg: Config, grow: Growth)
    ensures AddItems(z, cap, [], cfg, grow) == Moved(z, cap) && ItemsOk([], cfg)
    ensures AttachAll(z, LeafTrees([])) == z && LeavesOk([], cfg.enforce)
  {
  }

  /** A leaf in a node that is already entered. */
  lemma LeafCallEntered(z: Zip, cap: nat, l: Leaf, cfg: Config, grow: Growth)
    requires z.stack.Push? && z.stack.top.entered && TopKind(z.stack) in Parents(LeafKind(l))
    ensures LeafOk(l, cfg.enforce) ==> LeafCall(z, cap, l, cfg, grow) == Done(Attach(z, Leaf(l)), cap)
    ensures !LeafOk(l, cfg.enforce) ==> !LeafCall(z, cap, l, cfg, grow).Done?
  {
    hide LeafAccepted, LeafFinishes, Attach, Parents;
  }

  lemma LeavesStep(z: Zip, items: seq<Writable>, i: nat, enforce: bool)
    requires i < |items| && items[i].WLeaf?
    ensures AttachAll(z, LeafTrees(items[i..])) == AttachAll(Attach(z, Leaf(items[i].leaf)), LeafTrees(items[i + 1..]))
    ensures LeavesOk(items[i..], enforce) <==> LeafOk(items[i].leaf, enforce) && LeavesOk(items[i + 1..], enforce)
  {
    hide Attach, LeafOk;
    assert items[i..][1..] == items[i + 1..];
    var t, rest := Leaf(items[i].leaf), LeafTrees(items[i + 1..]);
    assert LeafTrees(items[i..]) == [t] + rest;
    assert ([t] + rest)[1..] == rest;
  }

  lemma {:induction false} DepthAttachAll(z: Zip, ts: seq<Tree>)
    ensures Depth(AttachAll(z, ts).stack) == Depth(z.stack)
    decreases ts
  {
    if ts != [] {
      DepthAttachAll(Attach(z, ts[0]), ts[1..]);
    }
  }

  lemma ItemsStep(z: Zip, cap: nat, items: seq<Writable>, i: nat, cfg: Config, grow: Growth)
    requires i < |items|
    ensures var m := AddItem(z, cap, items[i], cfg, grow);
      AddItems(z, cap, items[i..], cfg, grow) == AddItems(m.zip, m.cap, items[i + 1..], cfg, grow)
    ensures ItemsOk(items[i..], cfg) <==> ItemOk(items[i], cfg) && ItemsOk(items[i + 1..], cfg)
  {
    hide ItemTree, ItemOk, AttachAll;
    assert items[i..][1..] == items[i + 1..];
    var g := ItemTree(items[i], Depth(z.stack), cap, cfg, grow);
    var rest := ItemTrees(items[i + 1..], Depth(z.stack), g.cap, cfg, grow);
    DepthAttachAll(z, g.trees);
    AttachAllConcat(z, g.trees, rest.trees);
  }

  /** The kinds of the children a node brings along. */
  lemma PendingFits(v: Startable)
    requires !v.ElemStart?
    ensures forall w | w in Pending(v) :: w.WLeaf? && StartKind(v) in Parents(LeafKind(w.leaf))
  {
  }

  // ---------------------------------------------------------------- structured style

  /** Ending a node that has just been started. */
  lemma EndFresh(z: Zip, cap: nat, v: Startable, tag: Tag, cfg: Config, grow: Growth)
    ensures var f := Fresh(v, cfg.newline, tag);
      var z' := z.(stack := Push(z.stack, f));
      var i := Depth(z.stack);
      var kids := PendingTrees(v, i, cap, cfg, grow);
      EndCall(z', cap, StartKind(v), [], cfg, grow) ==
      if OpenTopOk(z', cfg) then Done(Attach(z, Finished(f, kids.trees, Stale(f, i, cap))), kids.cap) else Broken
  {
    hide ItemTrees, ElemTag, Undeclared, Declared, OpenTopOk, LeafTrees, StartTag, Stale;
    var f := Fresh(v, cfg.newline, tag);
    var z' := z.(stack := Push(z.stack, f));
    var kids := PendingTrees(v, Depth(z.stack), cap, cfg, grow);
    assert TopKind(z'.stack) == StartKind(v);
    assert f.kids + kids.trees == kids.trees;
  }

  /** Writing an item into an open element adds its tree, and nothing else. */
  lemma WriteStart(z: Zip, cap: nat, v: Startable, cfg: Config, grow: Growth)
    requires z.stack.Push? && z.stack.top.entered && z.stack.top.head.HElem?
    requires v.ElemStart? || v.Comment? || v.CData?
    ensures ItemOk(WStart(v), cfg) ==>
      var g := StartTree(v, Depth(z.stack), cap, cfg, grow);
      WriteCall(z, cap, v, cfg, grow) == Done(AttachAll(z, g.trees), g.cap)
    ensures !ItemOk(WStart(v), cfg) ==> WriteCall(z, cap, v, cfg, grow) == Broken
  {
    hide ItemTrees, ElemTag, LeafOk, DeclarationsOk, EndCall, Stale, Finished, LeafTrees;
    assert OpenTop(z, cap, cfg, grow) == Moved(z, cap);
    if StartTag(v, cfg).Some? {
      var tag := StartTag(v, cfg).value;
      var cap' := Pushed(Depth(z.stack), cap, grow);
      EndFresh(z, cap', v, tag, cfg, grow);
      if !v.ElemStart? {
        OneLeaf(v, cfg);
      }
    }
  }

  predicate ItemsOkOf(v: Startable, cfg: Config) {
    match v
    case Comment(s) => s == [] || LeafOk(CommentContent(s), cfg.enforce)
    case CData(s) => s == [] || LeafOk(CDataContent(s), cfg.enforce)
    case ElemStart(e) => ItemsOk(e.content, cfg)
    case _ => true
  }

  lemma OneLeaf(v: Startable, cfg: Config)
    requires v.Comment? || v.CData?
    ensures LeavesOk(Pending(v), cfg.enforce) <==> ItemsOkOf(v, cfg)
  {
    hide LeafOk;
  }

  /** What writing an item into an open element amounts to. */
  lemma ItemMeaning(z: Zip, cap: nat, w: Writable, cfg: Config, grow: Growth)
    requires z.stack.Push? && z.stack.top.entered && z.stack.top.head.HElem?
    ensures match w
      case WLeaf(Text(s)) =>
        ItemOk(w, cfg) && LeafCall(z, cap, Text(s), cfg, grow) == Done(AddItem(z, cap, w, cfg, grow).zip, cap) &&
        AddItem(z, cap, w, cfg, grow).cap == cap
      case WStart(v) =>
        if v.ElemStart? || v.Comment? || v.CData? then
          WriteCall(z, cap, v, cfg, grow) ==
          if ItemOk(w, cfg) then Done(AddItem(z, cap, w, cfg, grow).zip, AddItem(z, cap, w, cfg, grow).cap) else Broken
        else !ItemOk(w, cfg)
      case _ => !ItemOk(w, cfg)
    ensures AddItem(z, cap, w, cfg, grow).zip.stack.Push? && AddItem(z, cap, w, cfg, grow).zip.stack.top.head.HElem?
  {
    hide StartTree, WriteCall, LeafCall, AttachAll;
    AttachAllKids(z, ItemTree(w, Depth(z.stack), cap, cfg, grow).trees);
    match w {
      case WLeaf(Text(s)) =>
        LeafCallEntered(z, cap, Text(s), cfg, grow);
        AttachAllKids(z, [Leaf(Text(s))]);
      case WStart(v) =>
        if v.ElemStart? || v.Comment? || v.CData? {
          WriteStart(z, cap, v, cfg, grow);
        }
      case _ =>
    }
  }

  lemma StartSettled(z: Zip, cap: nat, v: Startable, cfg: Config, grow: Growth)
    ensures var o := StartCall(z, cap, v, cfg, grow);
      o.Done? ==> o.zip.stack.Push? && !o.zip.stack.top.entered &&
                  !EndCall(o.zip, o.cap, StartKind(v), [], cfg, grow).Refused?
  {
    hide OpenTop, OpenTopOk, StartTag, Parents, CloseTop;
  }

  lemma OneTree(w: Writable, i: nat, cap: nat, cfg: Config, grow: Growth)
    requires ItemOk(w, cfg)
    ensures |ItemTree(w, i, cap, cfg, grow).trees| == 1
  {
    hide ItemTrees, ItemsOk, ElemTag, LeafOk, DeclarationsOk;
  }

  lemma {:induction false} ItemsCount(items: seq<Writable>, i: nat, cap: nat, cfg: Config, grow: Growth)
    requires ItemsOk(items, cfg)
    ensures |ItemTrees(items, i, cap, cfg, grow).trees| == |items|
    decreases items
  {
    if items != [] {
      OneTree(items[0], i, cap, cfg, grow);
      ItemsCount(items[1..], i, ItemTree(items[0], i, cap, cfg, grow).cap, cfg, grow);
    }
  }

  lemma {:induction false} LeavesCount(items: seq<Writable>, enforce: bool)
    requires LeavesOk(items, enforce)
    ensures |LeafTrees(items)| == |items|
  {
    hide LeafOk;
    if items != [] {
      LeavesCount(items[1..], enforce);
    }
  }

  /** A node that is opened with content has children from then on. */
  lemma OpenedKids(z: Zip, cap: nat, cfg: Config, grow: Growth)
    requires z.stack.Push? && !z.stack.top.entered && z.stack.top.kids == [] && OpenTopOk(z, cfg)
    ensures var z' := OpenTop(z, cap, cfg, grow).zip;
      && z'.stack.Push? && z'.done == z.done && z'.stack.below == z.stack.below
      && (z'.stack.top.kids != [] <==> Pending(z.stack.top.start) != [])
      && z'.stack.top.head == z.stack.top.head && z'.stack.top.full == z.stack.top.full
  {
    hide ItemTrees, LeafTrees, ItemsOk, LeavesOk, DeclarationsOk, Undeclared, Pending;
    var v := z.stack.top.start;
    if v.ElemStart? {
      ItemsCount(v.elem.content, Depth(z.stack.below) + 1, cap, cfg, grow);
      PendingElem(v);
    } else {
      LeavesCount(Pending(v), cfg.enforce);
    }
  }

  lemma PendingElem(v: Startable)
    requires v.ElemStart?
    ensures Pending(v) == v.elem.content
  {
  }

  lemma CloseTopFresh(z: Zip, cap: nat, cfg: Config, grow: Growth)
    requires z.stack.Push? && !z.stack.top.entered && z.stack.top.kids == [] && OpenTopOk(z, cfg)
    ensures var m := OpenTop(z, cap, cfg, grow);
      m.zip.stack.Push? &&
      EndAnyCall(z, cap, cfg, grow) == Done(ClosedDoc(m.zip, Stale(z.stack.top, Depth(z.stack.below), cap)), m.cap)
  {
    hide Attach, OpenTop, Stale;
    OpenedKids(z, cap, cfg, grow);
  }

  /** What becomes of the innermost node when it is finished. */
  lemma CloseOne(z: Zip, cap: nat, cfg: Config, grow: Growth) returns (t: Tree)
    requires z.stack.Push?
    ensures CloseTop(z, cap, cfg, grow).zip == Attach(Zip(z.done, z.stack.below), t)
    ensures t.Branch? && t.head == z.stack.top.head && (z.stack.top.entered ==> t.kids == z.stack.top.kids)
  {
    hide PendingTrees, Stale, Attach, Undeclared, Declared;
    var f := z.stack.top;
    t := Ended(OpenTop(z, cap, cfg, grow).zip.stack.top, !f.entered && Stale(f, Depth(z.stack.below), cap));
  }

  lemma EndNothing(z: Zip, cap: nat, kind: NodeKind, names: seq<Str>, cfg: Config, grow: Growth)
    requires z.stack.Bottom?
    ensures EndCall(z, cap, kind, names, cfg, grow) == Refused
  {
  }

  lemma FullBytes(z: Zip)
    ensures ZipBytes(SetFull(z)) == ZipBytes(z)
  {
    hide RenderAll, OpenBytes;
  }

  /** After a node is finished, the one around it is entered and has children. */
  lemma EndSettled(z: Zip, cap: nat, cfg: Config, grow: Growth)
    requires z.stack.Push? && (z.stack.below.Push? ==> z.stack.below.top.entered)
    ensures var o := EndAnyCall(z, cap, cfg, grow);
      o.Done? ==> Settled(o.zip) && OpenTopOk(o.zip, cfg) && (o.zip.stack.Push? ==> o.zip.stack.top.entered)
  {
    hide OpenTop, Stale;
  }
}
