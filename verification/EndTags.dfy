/** What the End calls print for an element, and which names they take. */
module EndTags {
  import opened Bytes
  import opened Nodes
  import opened Document
  import opened Trees
  import opened TreeProofs
  import opened Runs

  /** The names that an End call may give for a node. */
  predicate OwnNames(v: Startable, names: seq<Str>) {
    match v
    case ElemStart(e) => names == [] || names == [e.name] || names == [e.prefix, e.name]
    case DTD(name, _, _) => names == [] || names == [name]
    case DTDAttList(name, _) => names == [] || names == [name]
    case _ => names == []
  }

  /** An End call with names finishes the innermost node if and only if it is of that kind and the names are its own:
      for an element its local name, or its prefix and then its local name. */
  lemma EndNamesIff(z: Zip, cap: nat, kind: NodeKind, names: seq<Str>, cfg: Config, grow: Growth)
    requires z.stack.Push? && OpenTopOk(z, cfg)
    ensures EndCall(z, cap, kind, names, cfg, grow).Done? <==>
      kind == HeadKind(z.stack.top.head) && OwnNames(z.stack.top.start, names)
  {
    hide OpenTopOk, CloseTop;
  }

  /** An element that has children: the end tag that is printed has the names that were given to the call. */
  lemma EndTagNames(z: Zip, cap: nat, prefix: Str, name: Str, cfg: Config, grow: Growth)
    requires z.stack.Push? && z.stack.top.entered && z.stack.top.kids != [] && InnerEntered(z.stack)
    requires z.stack.top.start.ElemStart? && z.stack.top.head == HeadOf(z.stack.top.start, cfg.newline)
    ensures var o := EndCall(z, cap, ElemNode, [prefix, name], cfg, grow);
      o.Done? ==>
        ZipBytes(o.zip) == ZipBytes(z) + ("</" + (if prefix == [] then name else prefix + ":" + name) + ">")
  {
    hide ZipBytes, FrameBytes, Attach;
    var o := EndCall(z, cap, ElemNode, [prefix, name], cfg, grow);
    if o.Done? {
      OpenTopEntered(z, cap, cfg, grow);
      assert o.zip == ClosedDoc(z, false);
      CloseBytes(z, false);
      SplitTop(z);
    }
  }

  lemma TagParts(z: Zip, end: Str)
    requires z.stack.Push? && !z.stack.top.entered && z.stack.top.kids == [] && z.stack.top.head.HElem?
    ensures var f := z.stack.top;
      Before(z) + (FrameBytes(f, true) + AttsBytes(Undeclared(f.nss)) + end) ==
        ZipBytes(z) + AttsBytes(Undeclared(f.nss)) + end
  {
    hide ZipBytes, FrameBytes, AttsBytes, Undeclared;
    var f := z.stack.top;
    SplitTop(z);
    Assoc(Before(z), FrameBytes(f, true) + AttsBytes(Undeclared(f.nss)), end);
    Assoc(Before(z), FrameBytes(f, true), AttsBytes(Undeclared(f.nss)));
  }

  /** The text of an element without content that is ended right after it was started. */
  lemma EmptyEnd(z: Zip, cap: nat, cfg: Config, grow: Growth)
    requires z.stack.Push? && !z.stack.top.entered && z.stack.top.kids == [] && InnerEntered(z.stack)
    requires z.stack.top.start.ElemStart? && z.stack.top.start.elem.content == []
    requires z.stack.top.head == HeadOf(z.stack.top.start, cfg.newline) && OpenTopOk(z, cfg)
    ensures var f := z.stack.top;
      var e := f.start.elem;
      var o := EndCall(z, cap, ElemNode, [], cfg, grow);
      && o.Done?
      && ZipBytes(o.zip) == ZipBytes(z) + AttsBytes(Undeclared(f.nss)) +
           if f.full then "></" + FullName(e.prefix, e.name) + ">" else "/>"
  {
    hide ZipBytes, FrameBytes, Attach, AttsBytes, Undeclared, Declared, OpenTopOk;
    var f := z.stack.top;
    var e := f.start.elem;
    var m := OpenTop(z, cap, cfg, grow);
    NoKidsOpened(z, cap, cfg, grow);
    var o := EndCall(z, cap, ElemNode, [], cfg, grow);
    assert o.zip == ClosedDoc(m.zip, false);
    CloseBytes(m.zip, false);
    EnterBytes(f, false);
    ToldBytes(Opened(f));
    assert Before(m.zip) == Before(z);
    var tag := FrameBytes(f, true) + AttsBytes(Undeclared(f.nss));
    var name := FullName(e.prefix, e.name);
    if f.full {
      Assoc(Before(z), tag + ">", "</" + name + ">");
      Assoc(tag, ">", "</" + name + ">");
      assert ">" + ("</" + name + ">") == "></" + name + ">";
      TagParts(z, "></" + name + ">");
    } else {
      assert Before(z) + (tag + "/>") + [] == Before(z) + (tag + "/>");
      TagParts(z, "/>");
    }
  }

  lemma NoKidsOpened(z: Zip, cap: nat, cfg: Config, grow: Growth)
    requires z.stack.Push? && !z.stack.top.entered && z.stack.top.kids == []
    requires z.stack.top.start.ElemStart? && z.stack.top.start.elem.content == []
    ensures OpenTop(z, cap, cfg, grow).zip == z.(stack := Push(z.stack.below, Told(Opened(z.stack.top))))
    ensures Told(Opened(z.stack.top)).kids == [] && !Stale(z.stack.top, Depth(z.stack.below), cap)
  {
    hide Undeclared, Declared;
    var f := z.stack.top;
    assert f.kids + [] == f.kids;
  }

  lemma ToldBytes(f: Frame)
    requires f.kids == []
    ensures FrameBytes(Told(f), Told(f).kids != []) == FrameBytes(f, false)
  {
  }

  /** EndElem uses the short form for an element without content, and EndElemFull the long one. */
  lemma ShortAndFull(z: Zip, cap: nat, cfg: Config, grow: Growth)
    requires z.stack.Push? && !z.stack.top.entered && z.stack.top.kids == [] && InnerEntered(z.stack)
    requires z.stack.top.start.ElemStart? && z.stack.top.start.elem.content == [] && !z.stack.top.full
    requires z.stack.top.head == HeadOf(z.stack.top.start, cfg.newline) && OpenTopOk(z, cfg)
    ensures var e := z.stack.top.start.elem;
      var tag := ZipBytes(z) + AttsBytes(Undeclared(z.stack.top.nss));
      var short, full := Step(z, cap, OpEnd(ElemNode, []), cfg, grow), Step(z, cap, OpEndFull([]), cfg, grow);
      && short.Done? && ZipBytes(short.zip) == tag + "/>"
      && full.Done? && ZipBytes(full.zip) ==
           tag + ("></" + (if e.prefix == [] then e.name else e.prefix + ":" + e.name) + ">")
  {
    hide ZipBytes, AttsBytes, Undeclared, OpenTopOk, EndCall, InnerEntered;
    EmptyEnd(z, cap, cfg, grow);
    FullKeeps(z, cfg);
    EmptyEnd(SetFull(z), cap, cfg, grow);
    FullBytes(z);
  }

  lemma FullKeeps(z: Zip, cfg: Config)
    requires z.stack.Push?
    ensures var f := SetFull(z).stack.top;
      f.full && f == z.stack.top.(full := true) && InnerEntered(SetFull(z).stack) == InnerEntered(z.stack) &&
        OpenTopOk(SetFull(z), cfg) == OpenTopOk(z, cfg)
  {
  }
}
