/** The document a writer has built so far: finished trees and a stack of open nodes, and what each
    call adds to it. Nothing here looks at the output. */
module Trees {
  import opened Bytes
  import opened Check
  import opened Nodes
  import opened Printer
  import opened Document

  // ---------------------------------------------------------------- tags and their namespaces

  datatype Ns = Ns(prefix: Str, uri: Str, written: bool)

  /** The first namespace with this prefix. */
  function Lookup(nss: seq<Ns>, prefix: Str): Option<Ns> {
    if nss == [] then None
    else if nss[0].prefix == prefix then Some(nss[0])
    else Lookup(nss[1..], prefix)
  }

  /** The namespaces after an attribute: one more for a prefix that comes with a URI for the first
      time, and None when the prefix already has a different URI. */
  function AddNs(nss: seq<Ns>, a: Attr): Option<seq<Ns>> {
    if a.uri == [] then Some(nss)
    else
      match Lookup(nss, a.prefix)
      case None => Some(nss + [Ns(a.prefix, a.uri, false)])
      case Some(n) => if n.uri == a.uri then Some(nss) else None
  }

  function NsAtt(n: Ns): Att {
    Att("xmlns:" + n.prefix, n.uri)
  }

  /** The declarations still to be printed. */
  function Undeclared(nss: seq<Ns>): seq<Att> {
    if nss == [] then []
    else (if nss[0].written then [] else [NsAtt(nss[0])]) + Undeclared(nss[1..])
  }

  function Declared(nss: seq<Ns>): seq<Ns> {
    seq(|nss|, i requires 0 <= i < |nss| => nss[i].(written := true))
  }

  predicate DeclarationsOk(nss: seq<Ns>, enforce: bool) {
    enforce ==> forall a | a in Undeclared(nss) :: ValidName(a.name)
  }

  /** What a start tag holds so far: the attributes printed, the namespaces they use, and whether attributes have
      been written into it. */
  datatype Tag = Tag(atts: seq<Att>, nss: seq<Ns>, tagged: bool := false)

  function AddAttr(t: Tag, a: Attr, enforce: bool): Option<Tag> {
    match AddNs(t.nss, a)
    case None => None
    case Some(nss) =>
      if enforce && !ValidName(FullName(a.prefix, a.name)) then None
      else Some(Tag(t.atts + [Att(FullName(a.prefix, a.name), a.value)], nss, true))
  }

  function AddAttrs(t: Tag, attrs: seq<Attr>, enforce: bool): Option<Tag>
    decreases attrs
  {
    if attrs == [] then Some(t)
    else
      match AddAttr(t, attrs[0], enforce)
      case None => None
      case Some(t') => AddAttrs(t', attrs[1..], enforce)
  }

  function FirstTag(e: Elem): Tag {
    if e.prefix != [] && e.uri != [] then Tag([NsAtt(Ns(e.prefix, e.uri, true))], [Ns(e.prefix, e.uri, true)])
    else Tag([], [])
  }

  predicate ElemNameOk(e: Elem) {
    && FullName(e.prefix, e.name) != []
    && ValidName(FullName(e.prefix, e.name))
    && (e.prefix != [] && e.uri != [] ==> ValidName("xmlns:" + e.prefix))
  }

  /** The tag an element is started with, if it can be. */
  function ElemTag(e: Elem, enforce: bool): Option<Tag> {
    if enforce && !ElemNameOk(e) then None else AddAttrs(FirstTag(e), e.attrs, enforce)
  }

  function DocVersion(d: DocDecl, cfg: Config): Str {
    match d.forcedVersion
    case Some(v) => v
    case None => if cfg.version == [] then "1.0" else cfg.version
  }

  function DocEncoding(d: DocDecl, cfg: Config): Str {
    match d.forcedEncoding
    case Some(e) => e
    case None => cfg.encoding
  }

  function VersionAtts(d: DocDecl, cfg: Config): seq<Att> {
    if d.suppressVersion then [] else [Att("version", DocVersion(d, cfg))]
  }

  function EncodingAtts(d: DocDecl, cfg: Config): seq<Att> {
    if d.suppressEncoding || DocEncoding(d, cfg) == [] then [] else [Att("encoding", DocEncoding(d, cfg))]
  }

  function StandaloneAtts(d: DocDecl): seq<Att> {
    if d.standalone.None? then [] else [Att("standalone", if d.standalone.value then "yes" else "no")]
  }

  /** What an XML declaration declares, in the order of production [23]. */
  function DocAtts(d: DocDecl, cfg: Config): seq<Att> {
    VersionAtts(d, cfg) + EncodingAtts(d, cfg) + StandaloneAtts(d)
  }

  // ---------------------------------------------------------------- open nodes

  /** An open node. Until it is opened its start tag can still grow and it has no children. `told`: how many
      children it had when the writer remembered its opening, which it does after the content given in advance. */
  datatype Frame = Frame(start: Startable, head: Head, atts: seq<Att>, nss: seq<Ns>, full: bool, entered: bool,
                         kids: seq<Tree>, tagged: bool, told: Option<nat>)

  datatype Stack = Bottom | Push(below: Stack, top: Frame)

  datatype Zip = Zip(done: seq<Tree>, stack: Stack)

  function HeadOf(v: Startable, newline: Str): Head {
    match v
    case Comment(_) => HComment
    case CData(_) => HCData
    case Doc(_) => HDoc(newline)
    case DTD(name, pub, sys) => HDTD(name, pub, sys)
    case DTDAttList(name, _) => HAttList(name)
    case ElemStart(e) => HElem(FullName(e.prefix, e.name))
  }

  function Fresh(v: Startable, newline: Str, t: Tag): Frame {
    Frame(v, HeadOf(v, newline), t.atts, t.nss, v.ElemStart? && v.elem.full, false, [], t.tagged, None)
  }

  /** The tag a node is started with, if it can be. */
  function StartTag(v: Startable, cfg: Config): Option<Tag> {
    match v
    case Comment(_) => Some(Tag([], []))
    case CData(_) => Some(Tag([], []))
    case Doc(d) =>
      if cfg.enforce && !d.suppressEncoding && !ValidEncoding(DocEncoding(d, cfg)) then None
      else Some(Tag(DocAtts(d, cfg), []))
    case DTD(name, pub, sys) =>
      if cfg.enforce && !(name != [] && ValidName(name) && ExternalIdOk(pub, sys)) then None else Some(Tag([], []))
    case DTDAttList(name, _) =>
      if cfg.enforce && !(name != [] && ValidName(name)) then None else Some(Tag([], []))
    case ElemStart(e) => ElemTag(e, cfg.enforce)
  }

  function Depth(s: Stack): nat {
    if s.Bottom? then 0 else Depth(s.below) + 1
  }

  /** The opened nodes of an indenting kind. */
  function Enclosing(s: Stack): nat {
    if s.Bottom? then 0
    else Enclosing(s.below) + (if Indenting(HeadKind(s.top.head)) && s.top.entered then 1 else 0)
  }

  function TopKind(s: Stack): NodeKind {
    if s.Bottom? then NoNode else HeadKind(s.top.head)
  }

  /** A finished tree becomes the last child of the innermost open node. */
  function Attach(z: Zip, t: Tree): Zip {
    if z.stack.Bottom? then z.(done := z.done + [t])
    else z.(stack := z.stack.(top := z.stack.top.(kids := z.stack.top.kids + [t])))
  }

  function AttachAll(z: Zip, ts: seq<Tree>): Zip
    decreases ts
  {
    if ts == [] then z else AttachAll(Attach(z, ts[0]), ts[1..])
  }

  // ---------------------------------------------------------------- content given in advance

  /** The children a node brings along; they are written when it is opened. */
  function Pending(v: Startable): seq<Writable> {
    match v
    case Comment(s) => if s == [] then [] else [WLeaf(CommentContent(s))]
    case CData(s) => if s == [] then [] else [WLeaf(CDataContent(s))]
    case DTDAttList(_, attrs) => seq(|attrs|, i requires 0 <= i < |attrs| => WLeaf(DTDAttr(attrs[i])))
    case ElemStart(e) => e.content
    case _ => []
  }

  /** Whether an item of an element's content can be written. */
  predicate ItemOk(w: Writable, cfg: Config) {
    match w
    case WLeaf(l) => l.Text?
    case WStart(Comment(s)) => s == [] || LeafOk(CommentContent(s), cfg.enforce)
    case WStart(CData(s)) => s == [] || LeafOk(CDataContent(s), cfg.enforce)
    case WStart(ElemStart(e)) =>
      && ElemTag(e, cfg.enforce).Some?
      && DeclarationsOk(ElemTag(e, cfg.enforce).value.nss, cfg.enforce)
      && ItemsOk(e.content, cfg)
    case _ => false
  }

  predicate ItemsOk(items: seq<Writable>, cfg: Config) {
    items == [] || (ItemOk(items[0], cfg) && ItemsOk(items[1..], cfg))
  }

  predicate LeavesOk(items: seq<Writable>, enforce: bool) {
    items == [] || (items[0].WLeaf? && LeafOk(items[0].leaf, enforce) && LeavesOk(items[1..], enforce))
  }

  predicate PendingOk(v: Startable, cfg: Config) {
    if v.ElemStart? then ItemsOk(v.elem.content, cfg) else LeavesOk(Pending(v), cfg.enforce)
  }

  // The node slice of a writer has a capacity. Pushing a node at index `cap` moves the slice to a
  // larger array; `grow` is what the allocator picks. A node that is ended while still unopened
  // writes its content through node.entered, and node.end goes on with a pointer taken before that.
  // When the first item of the content moves the slice, that pointer sees no children.

  type Growth = nat -> nat

  /** The capacity after an append to a full slice. */
  function Larger(cap: nat, grow: Growth): (c: nat)
    ensures c > cap
  {
    if grow(cap) > cap then grow(cap) else cap + 1
  }

  function Pushed(i: nat, cap: nat, grow: Growth): nat {
    if i == cap then Larger(cap, grow) else cap
  }

  /** Whether the pointer with which the unopened node at index `i` is ended sees none of its children. */
  predicate Stale(f: Frame, i: nat, cap: nat) {
    f.start.ElemStart? && f.start.elem.content != [] && f.start.elem.content[0].WStart? && i + 1 == cap
  }

  datatype Grown = Grown(trees: seq<Tree>, cap: nat)

  /** The trees of a content list whose items are written at index `i`. */
  function ItemTrees(items: seq<Writable>, i: nat, cap: nat, cfg: Config, grow: Growth): Grown {
    if items == [] then Grown([], cap)
    else
      var first := ItemTree(items[0], i, cap, cfg, grow);
      var rest := ItemTrees(items[1..], i, first.cap, cfg, grow);
      Grown(first.trees + rest.trees, rest.cap)
  }

  function ItemTree(w: Writable, i: nat, cap: nat, cfg: Config, grow: Growth): Grown {
    match w
    case WLeaf(l) => Grown([Leaf(l)], cap)
    case WStart(v) => StartTree(v, i, cap, cfg, grow)
    case _ => Grown([], cap)
  }

  /** The tree of a node that is started at index `i` and ended at once. */
  function StartTree(v: Startable, i: nat, cap: nat, cfg: Config, grow: Growth): Grown {
    match StartTag(v, cfg)
    case None => Grown([], cap)
    case Some(tag) =>
      var f := Fresh(v, cfg.newline, tag);
      var cap' := Pushed(i, cap, grow);
      var kids := if v.ElemStart? then ItemTrees(v.elem.content, i + 1, cap', cfg, grow)
                  else Grown(LeafTrees(Pending(v)), cap');
      Grown([Finished(f, kids.trees, Stale(f, i, cap'))], kids.cap)
  }

  function LeafTrees(items: seq<Writable>): seq<Tree> {
    if items == [] then []
    else (if items[0].WLeaf? then [Leaf(items[0].leaf)] else []) + LeafTrees(items[1..])
  }

  /** The children a node at index `i` gets when it is opened. */
  function PendingTrees(v: Startable, i: nat, cap: nat, cfg: Config, grow: Growth): Grown {
    if v.ElemStart? then ItemTrees(v.elem.content, i + 1, cap, cfg, grow)
    else Grown(LeafTrees(Pending(v)), cap)
  }

  // ---------------------------------------------------------------- opening and closing

  /** The frame with its start tag complete. */
  function Opened(f: Frame): Frame {
    if f.head.HElem? then f.(atts := f.atts + Undeclared(f.nss), nss := Declared(f.nss), entered := true)
    else f.(entered := true)
  }

  /** An unopened node that is ended: all its children were given in advance. */
  function Finished(f: Frame, kids: seq<Tree>, stale: bool): Tree {
    Branch(f.head, Opened(f).atts, kids, f.full, Made(f.tagged, Some(|kids|), stale))
  }

  /** The tree of a node that is ended now. */
  function Ended(f: Frame, stale: bool): Tree {
    Branch(f.head, f.atts, f.kids, f.full, Made(f.tagged, f.told, stale))
  }

  /** The innermost node when the writer remembers its opening. */
  function Told(f: Frame): Frame {
    f.(told := Some(|f.kids|))
  }

  datatype Moved = Moved(zip: Zip, cap: nat)

  /** One item of content written into the innermost node. */
  function AddItem(z: Zip, cap: nat, w: Writable, cfg: Config, grow: Growth): Moved {
    var g := ItemTree(w, Depth(z.stack), cap, cfg, grow);
    Moved(AttachAll(z, g.trees), g.cap)
  }

  /** A content list written into the innermost node. */
  function AddItems(z: Zip, cap: nat, items: seq<Writable>, cfg: Config, grow: Growth): Moved {
    var g := ItemTrees(items, Depth(z.stack), cap, cfg, grow);
    Moved(AttachAll(z, g.trees), g.cap)
  }

  /** The innermost node is opened, if it is not yet, and gets the children it brought along. */
  function OpenTop(z: Zip, cap: nat, cfg: Config, grow: Growth): Moved {
    if z.stack.Bottom? || z.stack.top.entered then Moved(z, cap)
    else
      var f := z.stack.top;
      var kids := PendingTrees(f.start, Depth(z.stack.below), cap, cfg, grow);
      Moved(z.(stack := Push(z.stack.below, Told(Opened(f).(kids := f.kids + kids.trees)))), kids.cap)
  }

  predicate OpenTopOk(z: Zip, cfg: Config) {
    z.stack.Push? && !z.stack.top.entered ==>
      && (z.stack.top.head.HElem? ==> DeclarationsOk(z.stack.top.nss, cfg.enforce))
      && PendingOk(z.stack.top.start, cfg)
  }

  /** The innermost node is finished. */
  function CloseTop(z: Zip, cap: nat, cfg: Config, grow: Growth): Moved
    requires z.stack.Push?
  {
    var f := z.stack.top;
    var m := OpenTop(z, cap, cfg, grow);
    Moved(Attach(Zip(z.done, z.stack.below),
                 Ended(m.zip.stack.top, !f.entered && Stale(f, Depth(z.stack.below), cap))), m.cap)
  }

  // ---------------------------------------------------------------- calls

  /** Done: the call succeeds and the document becomes this. Refused: it fails and changes nothing.
      Broken: it fails half-way, or it writes something that is not part of the tree. */
  datatype Outcome = Done(zip: Zip, cap: nat) | Refused | Broken

  function StartCall(z: Zip, cap: nat, v: Startable, cfg: Config, grow: Growth): Outcome {
    if cfg.enforce && TopKind(z.stack) !in Parents(StartKind(v)) then Refused
    else if !OpenTopOk(z, cfg) || StartTag(v, cfg).None? then Broken
    else
      var m := OpenTop(z, Pushed(Depth(z.stack), cap, grow), cfg, grow);
      Done(m.zip.(stack := Push(m.zip.stack, Fresh(v, cfg.newline, StartTag(v, cfg).value))), m.cap)
  }

  function LeafCall(z: Zip, cap: nat, l: Leaf, cfg: Config, grow: Growth): Outcome {
    if cfg.enforce && (TopKind(z.stack) !in Parents(LeafKind(l)) || !LeafAccepted(l)) then Refused
    else if !OpenTopOk(z, cfg) || !LeafFinishes(l, cfg.enforce) then Broken
    else
      var m := OpenTop(z, cap, cfg, grow);
      Done(Attach(m.zip, Leaf(l)), m.cap)
  }

  function AttrCall(z: Zip, cap: nat, a: Attr, cfg: Config): Outcome {
    var nss := if z.stack.Bottom? then [] else z.stack.top.nss;
    var bad := cfg.enforce && !ValidName(FullName(a.prefix, a.name));
    if cfg.enforce && TopKind(z.stack) !in Parents(AttrNode) then Refused
    else if z.stack.Bottom? then (if bad then Refused else Broken)
    else
      match AddNs(nss, a)
      case None => Refused
      case Some(nss') =>
        if bad then (if nss' == nss then Refused else Broken)
        else if z.stack.top.entered || !z.stack.top.head.HElem? then Broken
        else
          var f := z.stack.top;
          var att := Att(FullName(a.prefix, a.name), a.value);
          Done(z.(stack := z.stack.(top := f.(atts := f.atts + [att], nss := nss', tagged := true))), cap)
  }

  /** Whether the names given to an End call fit the node. */
  predicate NamesFit(v: Startable, names: seq<Str>) {
    match v
    case ElemStart(e) =>
      |names| == 0 || (|names| == 1 && names[0] == e.name) ||
      (|names| == 2 && names[0] == e.prefix && names[1] == e.name)
    case DTD(name, _, _) => |names| == 0 || (|names| == 1 && names[0] == name)
    case DTDAttList(name, _) => |names| == 0 || (|names| == 1 && names[0] == name)
    case _ => |names| == 0
  }

  function EndAnyCall(z: Zip, cap: nat, cfg: Config, grow: Growth): Outcome {
    if z.stack.Bottom? then Refused
    else if !OpenTopOk(z, cfg) then Broken
    else
      var m := CloseTop(z, cap, cfg, grow);
      Done(m.zip, m.cap)
  }

  function EndCall(z: Zip, cap: nat, kind: NodeKind, names: seq<Str>, cfg: Config, grow: Growth): Outcome {
    if z.stack.Bottom? || TopKind(z.stack) != kind || !NamesFit(z.stack.top.start, names) then Refused
    else EndAnyCall(z, cap, cfg, grow)
  }

  /** Elem.write, Comment.write, CData.write and DTDAttList.write: start and end. */
  function WriteCall(z: Zip, cap: nat, v: Startable, cfg: Config, grow: Growth): Outcome {
    match StartCall(z, cap, v, cfg, grow)
    case Done(z', cap') => EndCall(z', cap', StartKind(v), [], cfg, grow)
    case other => other
  }

  /** Writer.Write of one node. An attribute or a raw string outside a start tag is not part of the tree. */
  function PutCall(z: Zip, cap: nat, w: Writable, cfg: Config, grow: Growth): Outcome {
    match w
    case WLeaf(l) => LeafCall(z, cap, l, cfg, grow)
    case WStart(v) => WriteCall(z, cap, v, cfg, grow)
    case WAttr(a) => AttrCall(z, cap, a, cfg)
    case WRaw(_) => Broken
  }

  /** EndElemFull marks the innermost node before it asks whether it is an element. */
  function SetFull(z: Zip): Zip {
    if z.stack.Bottom? then z else z.(stack := z.stack.(top := z.stack.top.(full := true)))
  }

  /** All but the `keep` outermost nodes are finished, innermost first. */
  function CloseDown(z: Zip, cap: nat, keep: nat, cfg: Config, grow: Growth): Moved
    decreases Depth(z.stack)
  {
    if Depth(z.stack) <= keep then Moved(z, cap)
    else
      var m := CloseTop(z, cap, cfg, grow);
      CloseShallower(z, cap, cfg, grow);
      CloseDown(m.zip, m.cap, keep, cfg, grow)
  }

  lemma CloseShallower(z: Zip, cap: nat, cfg: Config, grow: Growth)
    requires z.stack.Push?
    ensures Depth(CloseTop(z, cap, cfg, grow).zip.stack) == Depth(z.stack) - 1
  {
  }

  function EndAllCall(z: Zip, cap: nat, cfg: Config, grow: Growth): Outcome {
    if z.stack.Push? && !OpenTopOk(z, cfg) then Broken
    else
      var m := CloseDown(z, cap, 0, cfg, grow);
      Done(m.zip, m.cap)
  }

  /** How many nodes are left when all above index `limit` have been ended. */
  function Kept(limit: int): nat {
    if limit < 0 then 0 else limit + 1
  }

  /** EndToDepth: all nodes above index `depth` + 1 are ended, whatever they are, and then one more, which
      has to be of this kind. EndDoc is the case `depth` = -1. */
  function EndToDepthCall(z: Zip, cap: nat, depth: int, kind: NodeKind, names: seq<Str>, cfg: Config,
    grow: Growth): Outcome {
    if Depth(z.stack) > Kept(depth + 1) && !OpenTopOk(z, cfg) then Broken
    else
      var m := CloseDown(z, cap, Kept(depth + 1), cfg, grow);
      EndCall(m.zip, m.cap, kind, names, cfg, grow)
  }

  /** Between calls, a node that is entered has children. */
  predicate Settled(z: Zip) {
    z.stack.Push? && z.stack.top.entered ==> z.stack.top.kids != []
  }

  // ---------------------------------------------------------------- the text of a partial document

  /** The text of an open node: `kids` says whether its children are yet to come. */
  function FrameBytes(f: Frame, kids: bool): Str {
    OpenBytes(f.head, f.atts) + (if f.entered then OpenedBytes(f.head, kids, f.full) + RenderAll(f.kids) else [])
  }

  function StackBytes(s: Stack): Str {
    if s.Bottom? then [] else StackBytes(s.below) + FrameBytes(s.top, true)
  }

  /** The text of a partial document. */
  function ZipBytes(z: Zip): Str {
    RenderAll(z.done) + StackBytes(z.stack)
  }
}
