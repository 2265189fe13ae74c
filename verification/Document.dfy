/** What a writer is asked to write, and the document it stands for: a forest of trees, printed by
    recursion. */
module Document {
  import opened Bytes
  import opened Check
  import opened Escape
  import opened Nodes
  import opened Printer

  // ---------------------------------------------------------------- what callers pass in

  datatype Attr = Attr(prefix: Str, uri: Str, name: Str, value: Str)

  datatype AttDefault = Infer | Default | Required | Implied | Fixed

  datatype AttDecl = AttDecl(name: Str, typ: Str, default: AttDefault, value: Str)

  /** The nodes that never go on the stack. */
  datatype Leaf =
    | Text(text: Str)
    | CommentContent(text: Str)
    | CDataContent(text: Str)
    | PI(target: Str, content: Str)
    | DTDElem(name: Str, decl: Str)
    | DTDEntity(name: Str, content: Str, isPE: bool, publicID: Str, systemID: Str, ndataID: Str)
    | DTDAttr(att: AttDecl)
    | Notation(name: Str, systemID: Str, publicID: Str)

  datatype DocDecl = DocDecl(suppressEncoding: bool, forcedEncoding: Option<Str>,
                             suppressVersion: bool, forcedVersion: Option<Str>, standalone: Option<bool>)

  datatype Elem = Elem(prefix: Str, uri: Str, name: Str, attrs: seq<Attr>, content: seq<Writable>, full: bool)

  datatype Startable =
    | Comment(content: Str)
    | CData(content: Str)
    | Doc(doc: DocDecl)
    | DTD(name: Str, publicID: Str, systemID: Str)
    | DTDAttList(name: Str, attrs: seq<AttDecl>)
    | ElemStart(elem: Elem)

  datatype Writable =
    | WLeaf(leaf: Leaf)
    | WStart(start: Startable)
    | WAttr(attr: Attr)
    | WRaw(raw: Str)

  /** The settings of a writer that printing depends on. */
  datatype Config = Config(enforce: bool, strictChars: bool, version: Str, encoding: Str, newline: Str)

  function FullName(prefix: Str, name: Str): Str {
    if prefix != [] then prefix + ":" + name else name
  }

  function LeafKind(l: Leaf): NodeKind {
    match l
    case Text(_) => TextNode
    case CommentContent(_) => CommentContentNode
    case CDataContent(_) => CDataContentNode
    case PI(_, _) => PINode
    case DTDElem(_, _) => DTDElemNode
    case DTDEntity(_, _, _, _, _, _) => DTDEntityNode
    case DTDAttr(_) => DTDAttrNode
    case Notation(_, _, _) => NotationNode
  }

  function StartKind(v: Startable): NodeKind {
    match v
    case Comment(_) => CommentNode
    case CData(_) => CDataNode
    case Doc(_) => DocNode
    case DTD(_, _, _) => DTDNode
    case DTDAttList(_, _) => DTDAttListNode
    case ElemStart(_) => ElemNode
  }

  /** The kinds of node that may hold a node of kind `k`; NoNode stands for an empty stack. */
  function Parents(k: NodeKind): set<NodeKind> {
    match k
    case ElemNode => {NoNode, DocNode, ElemNode}
    case CommentNode => {NoNode, DocNode, DTDNode, ElemNode}
    case CDataNode => {NoNode, ElemNode}
    case DocNode => {NoNode}
    case DTDNode => {NoNode, DocNode}
    case DTDAttListNode => {NoNode, DTDNode}
    case TextNode => {NoNode, ElemNode}
    case AttrNode => {NoNode, ElemNode}
    case CommentContentNode => {NoNode, CommentNode}
    case CDataContentNode => {NoNode, CDataNode}
    case PINode => {NoNode, DocNode, ElemNode}
    case DTDElemNode => {NoNode, DTDNode}
    case DTDEntityNode => {NoNode, DTDNode}
    case NotationNode => {NoNode, DTDNode}
    case DTDAttrNode => {NoNode, DTDAttListNode}
    case _ => {}
  }

  // ---------------------------------------------------------------- leaves

  function Lower(c: byte): byte {
    if 'A' <= c <= 'Z' then (c as int + 32) as char else c
  }

  predicate IsXml(target: Str) {
    |target| == 3 && Lower(target[0]) == 'x' && Lower(target[1]) == 'm' && Lower(target[2]) == 'l'
  }

  predicate CommentOk(s: Str) {
    !Contains(s, "--") && AllRunes(s, IsChar)
  }

  predicate CDataOk(s: Str) {
    !Contains(s, "]]>") && AllRunes(s, IsChar)
  }

  predicate PIOk(target: Str, content: Str) {
    !IsXml(target) && ValidName(target) && !Contains(content, "?>")
  }

  /** What is checked before anything is written. */
  predicate LeafAccepted(l: Leaf) {
    match l
    case Text(_) => true
    case CommentContent(s) => CommentOk(s)
    case CDataContent(s) => CDataOk(s)
    case PI(target, content) => PIOk(target, content)
    case DTDElem(name, decl) => name != [] && decl != [] && ValidName(name)
    case DTDEntity(name, _, _, _, _, _) => name != [] && ValidName(name)
    case DTDAttr(d) => d.name != [] && d.typ != [] && ValidName(d.name)
    case Notation(name, sys, pub) => name != [] && ValidName(name) && (pub != [] || sys != [])
  }

  function Resolved(d: AttDecl): AttDefault {
    if d.default == Infer then (if d.value != [] then Default else Implied) else d.default
  }

  /** What is checked while the leaf is being written. */
  predicate LeafFinishes(l: Leaf, enforce: bool) {
    match l
    case DTDEntity(_, content, isPE, pub, sys, ndata) =>
      if sys != [] || pub != [] then
        && (enforce ==> content == [] && ExternalIdOk(pub, sys))
        && (ndata != [] ==> !isPE && (enforce ==> ValidName(ndata)))
      else enforce ==> ndata == [] && OneQuoteKind(content)
    case DTDAttr(d) => Resolved(d) == Required || Resolved(d) == Implied ==> d.value == []
    case Notation(_, sys, pub) => enforce && sys != [] ==> ExternalIdOk(pub, sys)
    case _ => true
  }

  predicate LeafOk(l: Leaf, enforce: bool) {
    (enforce ==> LeafAccepted(l)) && LeafFinishes(l, enforce)
  }

  function DefaultBytes(d: AttDecl): Str {
    match Resolved(d)
    case Default => "\"" + EscapeAttr(d.value) + "\""
    case Fixed => "#FIXED \"" + EscapeAttr(d.value) + "\""
    case Required => "#REQUIRED"
    case _ => "#IMPLIED"
  }

  /** What a leaf prints. */
  function LeafBytes(l: Leaf): Str {
    match l
    case Text(s) => EscapeMap(s, false)
    case CommentContent(s) => s
    case CDataContent(s) => s
    case PI(target, content) => "<?" + target + " " + content + "?>"
    case DTDElem(name, decl) => "<!ELEMENT " + name + " " + decl + ">"
    case DTDEntity(name, content, isPE, pub, sys, ndata) =>
      "<!ENTITY " + (if isPE then "% " else []) + name + " " +
      (if sys != [] || pub != [] then ExternalId(pub, sys) + (if ndata != [] then " NDATA " + ndata else [])
       else Literal(content)) + ">"
    case DTDAttr(d) => " " + d.name + " " + d.typ + " " + DefaultBytes(d)
    case Notation(name, sys, pub) =>
      "<!NOTATION " + name + " " +
      (if sys != [] then ExternalId(pub, sys) else if pub != [] then PublicId(pub, sys) else []) + ">"
  }

  // ---------------------------------------------------------------- trees

  datatype Att = Att(name: Str, value: Str)

  /** What is checked of the names of attributes. The empty name passes. */
  predicate NamesOk(atts: seq<Att>) {
    forall a | a in atts :: ValidName(a.name)
  }

  predicate AllNamed(atts: seq<Att>) {
    forall a | a in atts :: a.name != []
  }

  datatype Head =
    | HDoc(newline: Str)
    | HElem(name: Str)
    | HComment
    | HCData
    | HDTD(name: Str, publicID: Str, systemID: Str)
    | HAttList(name: Str)

  /** How a node came to be. `tagged`: attributes were written into its start tag. `told`: how many children it
      had when the writer remembered its opening. `stale`: it was ended through a pointer that saw none of its
      children (see module Trees). */
  datatype Made = Made(tagged: bool, told: Option<nat>, stale: bool)

  /** A finished node. */
  datatype Tree =
    | Leaf(leaf: Leaf)
    | Branch(head: Head, atts: seq<Att>, kids: seq<Tree>, full: bool, made: Made)

  /** The end tag of the node was lost. */
  predicate Lost(t: Tree) {
    t.Branch? && t.made.stale && !t.full
  }

  function HeadKind(h: Head): NodeKind {
    match h
    case HDoc(_) => DocNode
    case HElem(_) => ElemNode
    case HComment => CommentNode
    case HCData => CDataNode
    case HDTD(_, _, _) => DTDNode
    case HAttList(_) => DTDAttListNode
  }

  function TreeKind(t: Tree): NodeKind {
    match t
    case Leaf(l) => LeafKind(l)
    case Branch(h, _, _, _, _) => HeadKind(h)
  }

  function AttsBytes(atts: seq<Att>): Str {
    if atts == [] then []
    else AttsBytes(atts[..|atts| - 1]) + AttBytes(atts[|atts| - 1].name, atts[|atts| - 1].value)
  }

  /** The part of a node that is printed when it is started. */
  function OpenBytes(h: Head, atts: seq<Att>): Str {
    match h
    case HDoc(newline) => "<?xml" + AttsBytes(atts) + (if atts == [] then " " else []) + "?>" + newline
    case HElem(name) => "<" + name + AttsBytes(atts)
    case HComment => "<!--"
    case HCData => "<![CDATA["
    case HDTD(name, pub, sys) =>
      "<!DOCTYPE " + name + (if pub != [] || sys != [] then " " + ExternalId(pub, sys) else [])
    case HAttList(name) => "<!ATTLIST " + name
  }

  /** The part printed before the first child, or at the end of a node that has none. */
  function OpenedBytes(h: Head, kids: bool, full: bool): Str {
    match h
    case HElem(_) => if kids || full then ">" else "/>"
    case HDTD(_, _, _) => if kids then " [" else []
    case _ => []
  }

  function EndBytes(h: Head, kids: bool, full: bool): Str {
    match h
    case HDoc(_) => []
    case HElem(name) => if kids || full then "</" + name + ">" else []
    case HComment => "-->"
    case HCData => "]]>"
    case HDTD(_, _, _) => if kids then "]>" else ">"
    case HAttList(_) => ">"
  }

  /** The text of a tree. */
  function Render(t: Tree): Str {
    match t
    case Leaf(l) => LeafBytes(l)
    case Branch(h, atts, kids, full, made) =>
      OpenBytes(h, atts) + OpenedBytes(h, kids != [], full) + RenderAll(kids) +
      (if made.stale && !full then [] else EndBytes(h, kids != [], full))
  }

  function RenderAll(ts: seq<Tree>): Str {
    if ts == [] then [] else RenderAll(ts[..|ts| - 1]) + Render(ts[|ts| - 1])
  }

  lemma RenderSnoc(ts: seq<Tree>, t: Tree)
    ensures RenderAll(ts + [t]) == RenderAll(ts) + Render(t)
  {
    assert (ts + [t])[..|ts + [t]| - 1] == ts;
  }

  lemma {:induction false} RenderConcat(a: seq<Tree>, b: seq<Tree>)
    ensures RenderAll(a + b) == RenderAll(a) + RenderAll(b)
  {
    hide Render;
    if b == [] {
      assert a + b == a;
      assert RenderAll(a) + [] == RenderAll(a);
    } else {
      hide RenderAll;
      var n := |b| - 1;
      RenderConcat(a, b[..n]);
      assert a + b == (a + b[..n]) + [b[n]];
      assert b == b[..n] + [b[n]];
      RenderSnoc(a + b[..n], b[n]);
      RenderSnoc(b[..n], b[n]);
      Assoc(RenderAll(a), RenderAll(b[..n]), Render(b[n]));
    }
  }

  lemma RenderFirst(ts: seq<Tree>)
    requires ts != []
    ensures RenderAll(ts) == Render(ts[0]) + RenderAll(ts[1..])
  {
    hide Render;
    RenderConcat([ts[0]], ts[1..]);
    assert [ts[0]] + ts[1..] == ts;
    assert [ts[0]][..0] == [];
    assert [] + Render(ts[0]) == Render(ts[0]);
  }

  lemma AttsSnoc(atts: seq<Att>, a: Att)
    ensures AttsBytes(atts + [a]) == AttsBytes(atts) + AttBytes(a.name, a.value)
  {
    assert (atts + [a])[..|atts + [a]| - 1] == atts;
  }

  lemma {:induction false} AttsConcat(a: seq<Att>, b: seq<Att>)
    ensures AttsBytes(a + b) == AttsBytes(a) + AttsBytes(b)
  {
    hide AttBytes;
    if b == [] {
      assert a + b == a;
      assert AttsBytes(a) + [] == AttsBytes(a);
    } else {
      hide AttsBytes;
      var n := |b| - 1;
      AttsConcat(a, b[..n]);
      assert a + b == (a + b[..n]) + [b[n]];
      assert b == b[..n] + [b[n]];
      AttsSnoc(a + b[..n], b[n]);
      AttsSnoc(b[..n], b[n]);
      Assoc(AttsBytes(a), AttsBytes(b[..n]), AttBytes(b[n].name, b[n].value));
    }
  }
}
