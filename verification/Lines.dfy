/** The text of a document as an indenter lays it out: where line breaks go, and how deep they are. This is
    about documents alone; it knows nothing of events as they happen. */
module Lines {
  import opened Bytes
  import opened Nodes
  import opened Printer
  import opened Document
  import opened Trees
  import opened Indenter

  /** A piece of a laid out text: the start of a node, a leaf, the end of a node, or a line break. */
  datatype Part =
    | Start(kind: NodeKind, s: Str)
    | Item(kind: NodeKind, s: Str)
    | End(kind: NodeKind, s: Str)
    | Line(level: nat)

  /** The event before child `j` of a node: its opening if that was remembered then, or the end of the child
      before, or what started the node. */
  function Prior(kind: NodeKind, tagged: bool, told: Option<nat>, kids: seq<Tree>, j: nat): Event
    requires j <= |kids|
  {
    if told == Some(j) then Event(StateOpened, kind, 0)
    else if j > 0 then Event(StateEnded, TreeKind(kids[j - 1]), 0)
    else if tagged then Event(StateEnded, AttrNode, 0)
    else Event(StateOpen, kind, 0)
  }

  /** A node of this kind begins on a line of its own. */
  predicate LineBefore(last: Event, kind: NodeKind) {
    EndsLine(last) && StartsLine(Event(StateOpen, kind, 0))
  }

  function Lead(last: Event, kind: NodeKind, level: nat): seq<Part> {
    if LineBefore(last, kind) then [Line(level)] else []
  }

  function Deeper(kind: NodeKind, level: nat): nat {
    if Indenting(kind) then level + 1 else level
  }

  /** A finished node, at some level of indenting. Its end stands on a line of its own if one of its children
      began on one and the last event before it ends a line. */
  function Layout(t: Tree, last: Event, level: nat): seq<Part>
    decreases t, 1
  {
    match t
    case Leaf(l) => Lead(last, LeafKind(l), level) + [Item(LeafKind(l), LeafBytes(l))]
    case Branch(h, atts, kids, full, made) =>
      Lead(last, HeadKind(h), level) + [Start(HeadKind(h), OpenBytes(h, atts) + OpenedBytes(h, kids != [], full))] +
      Inside(HeadKind(h), made.tagged, made.told, kids, Deeper(HeadKind(h), level)) + Tail(t, level)
  }

  /** The children of a node. */
  function Inside(kind: NodeKind, tagged: bool, told: Option<nat>, kids: seq<Tree>, level: nat): seq<Part>
    decreases kids, 0
  {
    if kids == [] then []
    else
      var n := |kids| - 1;
      Inside(kind, tagged, told, kids[..n], level) + Layout(kids[n], Prior(kind, tagged, told, kids, n), level)
  }

  /** How many nodes began on a line of their own: the node itself, or, if it does not indent, those in it. */
  function LinesOf(t: Tree, last: Event): nat
    decreases t, 1
  {
    (if LineBefore(last, TreeKind(t)) then 1 else 0) +
    (if t.Branch? && !Indenting(HeadKind(t.head)) then LinesIn(HeadKind(t.head), t.made.tagged, t.made.told, t.kids)
     else 0)
  }

  function LinesIn(kind: NodeKind, tagged: bool, told: Option<nat>, kids: seq<Tree>): nat
    decreases kids, 0
  {
    if kids == [] then 0
    else
      var n := |kids| - 1;
      LinesIn(kind, tagged, told, kids[..n]) + LinesOf(kids[n], Prior(kind, tagged, told, kids, n))
  }

  predicate TailLine(t: Tree)
    requires t.Branch?
  {
    var k := HeadKind(t.head);
    k == DocNode ||
    (Indenting(k) && EndsLine(Prior(k, t.made.tagged, t.made.told, t.kids, |t.kids|)) && !t.made.stale &&
     LinesIn(k, t.made.tagged, t.made.told, t.kids) > 0)
  }

  function Tail(t: Tree, level: nat): seq<Part>
    requires t.Branch?
  {
    (if TailLine(t) then [Line(if t.head.HDoc? then 0 else level)] else []) +
    [End(HeadKind(t.head), if Lost(t) then [] else EndBytes(t.head, t.kids != [], t.full))]
  }

  // ---------------------------------------------------------------- partial documents

  /** The last event of a document. */
  function LastOf(z: Zip): Event {
    if z.stack.Bottom? then Prior(NoNode, false, None, z.done, |z.done|)
    else
      var f := z.stack.top;
      Prior(HeadKind(f.head), f.tagged, f.told, f.kids, |f.kids|)
  }

  /** A document without its innermost open node. */
  function Outside(z: Zip): Zip
    requires z.stack.Push?
  {
    Zip(z.done, z.stack.below)
  }

  /** An open node and its children. */
  function FrameLaid(f: Frame, level: nat): seq<Part> {
    [Start(HeadKind(f.head), OpenBytes(f.head, f.atts) +
      (if f.entered then OpenedBytes(f.head, true, f.full) else []))] +
    (if f.entered then Inside(HeadKind(f.head), f.tagged, f.told, f.kids, level) else [])
  }

  /** The text of a partial document, laid out. */
  function Laid(z: Zip): seq<Part>
    decreases z.stack
  {
    if z.stack.Bottom? then Inside(NoNode, false, None, z.done, 0)
    else
      Laid(Outside(z)) + Lead(LastOf(Outside(z)), HeadKind(z.stack.top.head), Enclosing(z.stack.below)) +
      FrameLaid(z.stack.top, Enclosing(z.stack))
  }

  function Bump(c: seq<nat>, n: nat): (r: seq<nat>)
    requires c != []
    ensures |r| == |c|
  {
    c[|c| - 1 := c[|c| - 1] + n]
  }

  function CountsIn(c: seq<nat>, f: Frame): (r: seq<nat>)
    requires c != []
    ensures |r| == |c| + (if Indenting(HeadKind(f.head)) && f.entered then 1 else 0)
  {
    var n := LinesIn(HeadKind(f.head), f.tagged, f.told, f.kids);
    if !f.entered then c else if Indenting(HeadKind(f.head)) then c + [n] else Bump(c, n)
  }

  /** For every level of a document, how many nodes at it began on a line of their own. */
  function Counts(z: Zip): (r: seq<nat>)
    ensures |r| == Enclosing(z.stack) + 1
    decreases z.stack
  {
    if z.stack.Bottom? then [LinesIn(NoNode, false, None, z.done)]
    else
      var lead := LineBefore(LastOf(Outside(z)), HeadKind(z.stack.top.head));
      CountsIn(Bump(Counts(Outside(z)), if lead then 1 else 0), z.stack.top)
  }

  // ---------------------------------------------------------------- the bytes

  /** The parts without the line breaks. */
  function PlainOf(parts: seq<Part>): Str {
    if parts == [] then []
    else PlainOf(parts[..|parts| - 1]) + (if parts[|parts| - 1].Line? then [] else parts[|parts| - 1].s)
  }

  /** The parts with the line breaks. */
  function TextOf(parts: seq<Part>, newline: Str, unit: Str): Str {
    if parts == [] then []
    else
      var p := parts[|parts| - 1];
      TextOf(parts[..|parts| - 1], newline, unit) + (if p.Line? then BreakText(newline, unit, p.level) else p.s)
  }

  function BreaksOf(parts: seq<Part>, newline: Str, unit: Str): seq<Break> {
    if parts == [] then []
    else
      var before, p := parts[..|parts| - 1], parts[|parts| - 1];
      BreaksOf(before, newline, unit) +
      (if p.Line? then [Break(|PlainOf(before)|, BreakText(newline, unit, p.level))] else [])
  }

  /** What an indenter has done to a document. */
  function PenOf(z: Zip, newline: Str, unit: Str): Pen {
    Pen(BreaksOf(Laid(z), newline, unit), Counts(z))
  }
}
