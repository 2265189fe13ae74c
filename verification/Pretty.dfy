/** What indenting is for: a document without mixed content, written call by call, is laid out with one node to a line
    and one unit to a level. */
module Pretty {
  import opened Bytes
  import opened Nodes
  import opened Document
  import opened Trees
  import opened Indenter
  import opened Lines
  import opened LineText
  import opened Writer
  import opened Runs

  /** The kinds that stand on lines of their own. */
  predicate OwnLine(k: NodeKind) {
    match k
    case ElemNode => true
    case CommentNode => true
    case DTDNode => true
    case DTDElemNode => true
    case DTDEntityNode => true
    case NotationNode => true
    case DTDAttListNode => true
    case DTDAttrNode => true
    case _ => false
  }

  predicate AllOwnLine(ts: seq<Tree>) {
    forall t | t in ts :: OwnLine(TreeKind(t))
  }

  /** The kinds that are written inside a line. */
  predicate WithinLine(k: NodeKind) {
    match k
    case TextNode => true
    case PINode => true
    case CDataNode => true
    case CDataContentNode => true
    case CommentContentNode => true
    case _ => false
  }

  predicate AllWithinLine(ts: seq<Tree>) {
    forall t | t in ts :: WithinLine(TreeKind(t))
  }

  /** Elements, DTDs and attribute lists hold nodes on lines of their own, or none; nothing was given in
      advance, and every element has its end tag. */
  predicate Regular(t: Tree)
    decreases t, 1
  {
    match t
    case Leaf(_) => true
    case Branch(h, _, kids, _, made) =>
      match h
      case HDoc(_) => AllOwnLine(kids) && made.told == Some(0) && !made.stale && AllRegular(kids)
      case HComment => AllWithinLine(kids) && !made.stale && AllRegular(kids)
      case HCData => AllWithinLine(kids) && !made.stale && AllRegular(kids)
      case _ => (AllOwnLine(kids) || AllWithinLine(kids)) && made.told == Some(0) && !made.stale && AllRegular(kids)
  }

  predicate AllRegular(ts: seq<Tree>)
    decreases ts, 0
  {
    ts == [] || (AllRegular(ts[..|ts| - 1]) && Regular(ts[|ts| - 1]))
  }

  // ---------------------------------------------------------------- the layout

  /** A node whose first line has been started: an element with children on lines of their own ends on one, at the
      level it began. */
  function PrettyTree(t: Tree, level: nat): seq<Part>
    decreases t, 1
  {
    match t
    case Leaf(l) => [Item(LeafKind(l), LeafBytes(l))]
    case Branch(h, atts, kids, full, made) =>
      var start := Start(HeadKind(h), OpenBytes(h, atts) + OpenedBytes(h, kids != [], full));
      var end := End(HeadKind(h), EndBytes(h, kids != [], full));
      match h
      case HDoc(_) => [start] + PrettyAll(kids) + [Line(0)] + [end]
      case HComment => [start] + InLine(kids, level) + [end]
      case HCData => [start] + InLine(kids, level) + [end]
      case _ =>
        if kids != [] && AllOwnLine(kids) then [start] + OnLines(kids, level + 1) + [Line(level)] + [end]
        else [start] + InLine(kids, level + 1) + [end]
  }

  /** Each node after a line break. */
  function OnLines(ts: seq<Tree>, level: nat): seq<Part>
    decreases ts, 0
  {
    if ts == [] then []
    else OnLines(ts[..|ts| - 1], level) + [Line(level)] + PrettyTree(ts[|ts| - 1], level)
  }

  function InLine(ts: seq<Tree>, level: nat): seq<Part>
    decreases ts, 0
  {
    if ts == [] then [] else InLine(ts[..|ts| - 1], level) + PrettyTree(ts[|ts| - 1], level)
  }

  /** A document, or the children of a Doc: line breaks between the nodes. */
  function PrettyAll(ts: seq<Tree>): seq<Part>
    decreases ts, 0
  {
    if ts == [] then []
    else if |ts| == 1 then PrettyTree(ts[0], 0)
    else PrettyAll(ts[..|ts| - 1]) + [Line(0)] + PrettyTree(ts[|ts| - 1], 0)
  }

  // ---------------------------------------------------------------- and what the indenter does

  lemma EndedOwnLine(k: NodeKind)
    requires OwnLine(k)
    ensures EndsLine(Event(StateEnded, k, 0)) && StartsLine(Event(StateOpen, k, 0))
  {
  }

  lemma OthersInLine(k: NodeKind)
    requires WithinLine(k)
    ensures !StartsLine(Event(StateOpen, k, 0))
  {
  }

  lemma {:induction false} LayoutIsPretty(t: Tree, last: Event, level: nat)
    requires Regular(t) && (t.Branch? && t.head.HDoc? ==> level == 0)
    ensures Layout(t, last, level) == Lead(last, TreeKind(t), level) + PrettyTree(t, level)
    decreases t, 1
  {
    hide Lead, OpenBytes, OpenedBytes, LeafBytes, OnLines, InLine, PrettyAll, Inside, AllRegular, AllOwnLine,
      AllWithinLine, Tail;
    if t.Branch? {
      var k := HeadKind(t.head);
      var start := Start(k, OpenBytes(t.head, t.atts) + OpenedBytes(t.head, t.kids != [], t.full));
      var inside := Inside(k, t.made.tagged, t.made.told, t.kids, Deeper(k, level));
      InsideIsPretty(t, level);
      TailParts(t, level);
      assert Lead(last, k, level) + [start] + inside + Tail(t, level) ==
        Lead(last, k, level) + ([start] + inside + Tail(t, level));
    }
  }

  /** The parts of a node after its start. */
  lemma {:induction false} InsideIsPretty(t: Tree, level: nat)
    requires Regular(t) && t.Branch? && (t.head.HDoc? ==> level == 0)
    ensures var k := HeadKind(t.head);
      Inside(k, t.made.tagged, t.made.told, t.kids, Deeper(k, level)) ==
        if t.head.HDoc? then PrettyAll(t.kids)
        else if Indenting(k) && t.kids != [] && AllOwnLine(t.kids) then OnLines(t.kids, level + 1)
        else InLine(t.kids, Deeper(k, level))
    decreases t, 0
  {
    hide OnLines, InLine, PrettyAll, Inside, AllRegular, AllOwnLine, AllWithinLine;
    var k := HeadKind(t.head);
    if t.head.HDoc? {
      InsideTop(k, t.made.tagged, t.made.told, t.kids);
    } else if Indenting(k) && t.kids != [] && AllOwnLine(t.kids) {
      InsideLines(k, t.made.tagged, t.kids, level + 1);
    } else {
      if t.kids == [] {
        NoneThere();
      }
      InsideInLine(k, t.made.tagged, t.made.told, t.kids, Deeper(k, level));
    }
  }

  lemma TailParts(t: Tree, level: nat)
    requires Regular(t) && t.Branch?
    ensures var k := HeadKind(t.head);
      var end := End(k, EndBytes(t.head, t.kids != [], t.full));
      forall parts: seq<Part> :: parts + Tail(t, level) ==
        if t.head.HDoc? then parts + [Line(0)] + [end]
        else if Indenting(k) && t.kids != [] && AllOwnLine(t.kids) then parts + [Line(level)] + [end]
        else parts + [end]
  {
    hide EndBytes, TailLine, AllRegular, AllOwnLine, AllWithinLine;
    TailIs(t);
  }

  lemma NoneThere()
    ensures AllWithinLine([])
  {
  }

  /** A node ends on a line of its own if its children stood on theirs, and a Doc always does. */
  lemma TailIs(t: Tree)
    requires Regular(t) && t.Branch?
    ensures TailLine(t) <==> t.head.HDoc? || (Indenting(HeadKind(t.head)) && t.kids != [] && AllOwnLine(t.kids))
  {
    hide AllRegular, LinesIn;
    var k, kids := HeadKind(t.head), t.kids;
    if Indenting(k) {
      if kids != [] && AllOwnLine(kids) {
        LinesThere(k, t.made.tagged, kids);
        EndedOwnLine(TreeKind(kids[|kids| - 1]));
      } else {
        NoLines(k, t.made.tagged, t.made.told, kids);
      }
    }
  }

  lemma {:induction false} LinesThere(k: NodeKind, tagged: bool, kids: seq<Tree>)
    requires Indenting(k) && kids != [] && AllOwnLine(kids)
    ensures LinesIn(k, tagged, Some(0), kids) > 0
  {
    var n := |kids| - 1;
    EndedOwnLine(TreeKind(kids[n]));
    if n > 0 {
      EndedOwnLine(TreeKind(kids[n - 1]));
    }
  }

  lemma {:induction false} NoLines(k: NodeKind, tagged: bool, told: Option<nat>, kids: seq<Tree>)
    requires AllWithinLine(kids) && AllRegular(kids)
    ensures LinesIn(k, tagged, told, kids) == 0
    decreases kids, 0
  {
    hide Prior;
    if kids != [] {
      var n := |kids| - 1;
      assert kids[n] in kids && forall t | t in kids[..n] :: t in kids;
      NoLines(k, tagged, told, kids[..n]);
      OthersInLine(TreeKind(kids[n]));
      InsideNone(kids[n]);
    }
  }

  /** What is in a node that does not stand on a line of its own does not either. */
  lemma {:induction false} InsideNone(t: Tree)
    requires Regular(t) && WithinLine(TreeKind(t))
    ensures t.Branch? ==> LinesIn(HeadKind(t.head), t.made.tagged, t.made.told, t.kids) == 0
    decreases t, 1
  {
    hide AllRegular;
    if t.Branch? {
      NoLines(HeadKind(t.head), t.made.tagged, t.made.told, t.kids);
    }
  }

  lemma {:induction false} InsideLines(k: NodeKind, tagged: bool, kids: seq<Tree>, level: nat)
    requires Indenting(k) && AllOwnLine(kids) && AllRegular(kids)
    ensures Inside(k, tagged, Some(0), kids, level) == OnLines(kids, level)
    decreases kids, 0
  {
    hide Layout, PrettyTree, Regular;
    if kids != [] {
      var n := |kids| - 1;
      var last := Prior(k, tagged, Some(0), kids, n);
      assert kids[n] in kids && forall t | t in kids[..n] :: t in kids;
      InsideLines(k, tagged, kids[..n], level);
      LayoutIsPretty(kids[n], last, level);
      EndedOwnLine(TreeKind(kids[n]));
      if n > 0 {
        EndedOwnLine(TreeKind(kids[n - 1]));
      }
      assert OnLines(kids[..n], level) + ([Line(level)] + PrettyTree(kids[n], level)) ==
        OnLines(kids[..n], level) + [Line(level)] + PrettyTree(kids[n], level);
    }
  }

  lemma {:induction false} InsideInLine(k: NodeKind, tagged: bool, told: Option<nat>, kids: seq<Tree>, level: nat)
    requires AllWithinLine(kids) && AllRegular(kids)
    ensures Inside(k, tagged, told, kids, level) == InLine(kids, level)
    decreases kids, 0
  {
    hide Layout, PrettyTree, Regular, Prior;
    if kids != [] {
      var n := |kids| - 1;
      assert kids[n] in kids && forall t | t in kids[..n] :: t in kids;
      InsideInLine(k, tagged, told, kids[..n], level);
      LayoutIsPretty(kids[n], Prior(k, tagged, told, kids, n), level);
      OthersInLine(TreeKind(kids[n]));
      assert [] + PrettyTree(kids[n], level) == PrettyTree(kids[n], level);
    }
  }

  /** The outermost nodes, and those in a Doc. */
  lemma {:induction false} InsideTop(k: NodeKind, tagged: bool, told: Option<nat>, kids: seq<Tree>)
    requires (k == DocNode && told == Some(0)) || (k == NoNode && !tagged && told == None)
    requires AllOwnLine(kids) && AllRegular(kids)
    ensures Inside(k, tagged, told, kids, 0) == PrettyAll(kids)
    decreases kids, 0
  {
    hide Layout, PrettyTree, Regular;
    if kids != [] {
      var n := |kids| - 1;
      var last := Prior(k, tagged, told, kids, n);
      assert kids[n] in kids && forall t | t in kids[..n] :: t in kids;
      InsideTop(k, tagged, told, kids[..n]);
      LayoutIsPretty(kids[n], last, 0);
      EndedOwnLine(TreeKind(kids[n]));
      if n > 0 {
        EndedOwnLine(TreeKind(kids[n - 1]));
        assert PrettyAll(kids[..n]) + ([Line(0)] + PrettyTree(kids[n], 0)) ==
          PrettyAll(kids[..n]) + [Line(0)] + PrettyTree(kids[n], 0);
      } else {
        assert [] + PrettyTree(kids[0], 0) == PrettyTree(kids[0], 0);
        assert Inside(k, tagged, told, kids[..0], 0) == [];
        assert [] + ([] + PrettyTree(kids[0], 0)) == PrettyTree(kids[0], 0);
      }
    }
  }

  /** A finished document without mixed content is laid out with each node on a line of its own, one level deeper than
      the node around it, and each end tag below its start tag. */
  lemma LaidIsPretty(ts: seq<Tree>, newline: Str, unit: Str)
    requires AllOwnLine(ts) && AllRegular(ts)
    ensures PrintedAs(TextOf(Laid(Zip(ts, Bottom)), newline, unit), PrettyAll(ts), newline, unit)
  {
    hide Inside, PrettyAll, TextOf, PrintedAs, AllOwnLine, AllRegular;
    InsideTop(NoNode, false, None, ts);
    TextPrinted(PrettyAll(ts), newline, unit);
  }

  /** The same inside a Doc, which ends with a new line. */
  lemma LaidDocIsPretty(t: Tree, newline: Str, unit: Str)
    requires t.Branch? && t.head.HDoc? && Regular(t)
    ensures PrintedAs(TextOf(Laid(Zip([t], Bottom)), newline, unit), PrettyTree(t, 0), newline, unit)
  {
    hide Layout, PrettyTree, TextOf, PrintedAs, Regular;
    var last := Event(StateOpen, NoNode, 0);
    LayoutIsPretty(t, last, 0);
    assert [t][..0] == [] && Inside(NoNode, false, None, [], 0) == [];
    assert [] + Layout(t, last, 0) == Layout(t, last, 0) && [] + PrettyTree(t, 0) == PrettyTree(t, 0);
    TextPrinted(PrettyTree(t, 0), newline, unit);
  }

  /** Whole runs of an indenting writer: when every call has succeeded and the document is of that kind, these are the
      bytes. */
  method WritePretty(w: Writer, ops: seq<Op>) returns (ok: bool)
    requires Ready(w) && w.clean && w.doc == Zip([], Bottom) && w.indenter != null
    requires forall op | op in ops :: Typed(op)
    modifies w, w.printer, w.indenter
    ensures ok && w.clean ==>
      && Steps(Zip([], Bottom), old(w.cap), ops + [OpEndAll], w.cfg, w.grow).Done?
      && w.doc == Steps(Zip([], Bottom), old(w.cap), ops + [OpEndAll], w.cfg, w.grow).zip && w.indenter != null
      && (AllOwnLine(w.doc.done) && AllRegular(w.doc.done) ==>
            PrintedAs(w.printer.out, PrettyAll(w.doc.done), w.cfg.newline, w.indenter.unit))
      && (RegularDoc(w.doc.done) ==>
            PrintedAs(w.printer.out, PrettyTree(w.doc.done[0], 0), w.cfg.newline, w.indenter.unit))
  {
    hide Steps, PrettyAll, PrettyTree, PrintedAs, AllOwnLine, AllRegular, Regular, TextOf, Inside, RenderAll;
    ok := RunAndClose(w, ops);
    if w.indenter != null && AllOwnLine(w.doc.done) && AllRegular(w.doc.done) {
      LaidIsPretty(w.doc.done, w.cfg.newline, w.indenter.unit);
    }
    if w.indenter != null && RegularDoc(w.doc.done) {
      LaidDocIsPretty(w.doc.done[0], w.cfg.newline, w.indenter.unit);
      assert w.doc.done == [w.doc.done[0]];
    }
  }

  predicate RegularDoc(ts: seq<Tree>) {
    |ts| == 1 && ts[0].Branch? && ts[0].head.HDoc? && Regular(ts[0])
  }
}
