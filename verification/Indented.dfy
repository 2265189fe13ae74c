/** Indenting is conservative: what a laid out document looks like, and the same run with and without an
    indenter. */
module Indented {
  import opened Bytes
  import opened Check
  import opened Nodes
  import opened Document
  import opened Trees
  import opened TreeProofs
  import opened Indenter
  import opened Lines
  import opened LineText
  import opened LineProofs
  import opened NodeSlice
  import opened Tally
  import opened Writer
  import opened Runs

  // ---------------------------------------------------------------- how deep line breaks are

  predicate BeforeDocEnd(p: Part) {
    p.End? && p.kind == DocNode
  }

  function Deepened(n: int, p: Part): int {
    if p.Line? || !Indenting(p.kind) then n else if p.Start? then n + 1 else if p.End? then n - 1 else n
  }

  /** Where `n` nodes of an indenting kind are open, every line break is as deep as there are nodes open around
      what it stands before, so a start tag and its end tag are indented equally. Before the end of a Doc there is
      a new line only. */
  predicate Leveled(n: int, parts: seq<Part>)
    decreases parts
  {
    if parts == [] then true
    else if parts[0].Line? then
      && |parts| > 1 && !parts[1].Line?
      && parts[0].level == (if BeforeDocEnd(parts[1]) then 0
                            else if parts[1].End? then Deepened(n, parts[1]) else n)
      && Leveled(n, parts[1..])
    else Leveled(Deepened(n, parts[0]), parts[1..])
  }

  function NestAfter(n: int, parts: seq<Part>): int
    decreases parts
  {
    if parts == [] then n else NestAfter(Deepened(n, parts[0]), parts[1..])
  }

  /** Parts that are followed by anything. */
  predicate Complete(parts: seq<Part>) {
    parts == [] || !parts[|parts| - 1].Line?
  }

  lemma {:induction false} LeveledConcat(n: int, a: seq<Part>, b: seq<Part>)
    requires Complete(a)
    ensures Leveled(n, a + b) <==> Leveled(n, a) && Leveled(NestAfter(n, a), b)
    ensures NestAfter(n, a + b) == NestAfter(NestAfter(n, a), b)
    decreases a
  {
    if a == [] {
      assert a + b == b;
    } else {
      assert (a + b)[0] == a[0] && (a + b)[1..] == a[1..] + b;
      if |a| > 1 {
        assert (a + b)[1] == a[1];
        assert a[1..][|a[1..]| - 1] == a[|a| - 1];
      }
      LeveledConcat(Deepened(n, a[0]), a[1..], b);
    }
  }

  /** Kinds that are written inside a line. */
  predicate Inline(k: NodeKind) {
    k == TextNode || k == CDataNode || k == CDataContentNode || k == PINode || k == RawNode || k == AttrNode
  }

  /** After a node of kind `prev`, no line break stands next to text, a CDATA section or a processing instruction,
      on either side, apart from the one before the end of a Doc. Attributes are inside the parts. */
  predicate Away(prev: NodeKind, parts: seq<Part>)
    decreases parts
  {
    if parts == [] then true
    else if parts[0].Line? then
      && |parts| > 1 && !parts[1].Line?
      && (BeforeDocEnd(parts[1]) || (!Inline(prev) && !Inline(parts[1].kind)))
      && Away(prev, parts[1..])
    else Away(parts[0].kind, parts[1..])
  }

  function LastKind(prev: NodeKind, parts: seq<Part>): NodeKind
    decreases parts
  {
    if parts == [] then prev else LastKind(if parts[0].Line? then prev else parts[0].kind, parts[1..])
  }

  // ---------------------------------------------------------------- short lists

  lemma OnePart(n: int, prev: NodeKind, p: Part)
    requires !p.Line?
    ensures Leveled(n, [p]) && NestAfter(n, [p]) == Deepened(n, p)
    ensures Away(prev, [p]) && LastKind(prev, [p]) == p.kind
  {
    assert [p][1..] == [];
  }

  lemma TwoParts(n: int, prev: NodeKind, level: nat, p: Part)
    requires !p.Line?
    ensures var a := [Line(level)] + [p];
      && (Leveled(n, a) <==> level == if BeforeDocEnd(p) then 0 else if p.End? then Deepened(n, p) else n)
      && NestAfter(n, a) == Deepened(n, p)
      && (Away(prev, a) <==> BeforeDocEnd(p) || (!Inline(prev) && !Inline(p.kind)))
      && LastKind(prev, a) == p.kind
  {
    hide Inline;
    var a := [Line(level)] + [p];
    assert a[0] == Line(level) && a[1] == p && a[1..] == [p];
    OnePart(n, prev, p);
  }

  lemma LeveledLead(last: Event, kind: NodeKind, level: nat, p: Part)
    requires !p.Line? && p.kind == kind && !p.End?
    ensures Leveled(level, Lead(last, kind, level) + [p])
    ensures NestAfter(level, Lead(last, kind, level) + [p]) == Deepened(level, p)
    ensures Complete(Lead(last, kind, level) + [p])
  {
    hide Leveled, NestAfter, LineBefore;
    assert [] + [p] == [p];
    OnePart(level, NoNode, p);
    TwoParts(level, NoNode, level, p);
  }

  lemma LeveledTail(t: Tree, level: nat)
    requires t.Branch?
    ensures Leveled(Deeper(HeadKind(t.head), level), Tail(t, level))
    ensures NestAfter(Deeper(HeadKind(t.head), level), Tail(t, level)) == level
    ensures Complete(Tail(t, level)) && Tail(t, level) != []
  {
    hide EndBytes, TailLine, HeadKind, Leveled, NestAfter, Away, LastKind;
    TailKinds(t);
    var p := End(HeadKind(t.head), if Lost(t) then [] else EndBytes(t.head, t.kids != [], t.full));
    var n := Deeper(HeadKind(t.head), level);
    assert [] + [p] == [p];
    OnePart(n, NoNode, p);
    TwoParts(n, NoNode, if t.head.HDoc? then 0 else level, p);
  }

  lemma TailKinds(t: Tree)
    requires t.Branch?
    ensures TailLine(t) ==> t.head.HDoc? || Indenting(HeadKind(t.head))
    ensures t.head.HDoc? <==> HeadKind(t.head) == DocNode
  {
  }

  /** A finished node: its line breaks have the right depth, and it leaves the depth as it was. */
  lemma {:induction false} LayoutLeveled(t: Tree, last: Event, level: nat)
    ensures Leveled(level, Layout(t, last, level)) && NestAfter(level, Layout(t, last, level)) == level
    ensures Complete(Layout(t, last, level))
    decreases t, 1
  {
    hide Leveled, NestAfter, Lead, Tail, OpenBytes, OpenedBytes, LeafBytes, Inside, HeadKind, LeafKind, LineBefore;
    match t {
      case Leaf(l) =>
        LeveledLead(last, LeafKind(l), level, Item(LeafKind(l), LeafBytes(l)));
      case Branch(h, atts, kids, full, made) =>
        var k := HeadKind(h);
        var b := Start(k, OpenBytes(h, atts) + OpenedBytes(h, kids != [], full));
        var a := Lead(last, k, level) + [b];
        var c := Inside(k, made.tagged, made.told, kids, Deeper(k, level));
        LeveledLead(last, k, level, b);
        InsideLeveled(k, made.tagged, made.told, kids, Deeper(k, level));
        LeveledTail(t, level);
        LeveledConcat(level, a, c);
        LeveledConcat(level, a + c, Tail(t, level));
        CompleteConcat(a, c);
        CompleteConcat(a + c, Tail(t, level));
    }
  }

  lemma CompleteConcat(a: seq<Part>, b: seq<Part>)
    requires Complete(a) && Complete(b)
    ensures Complete(a + b)
  {
    if b == [] {
      assert a + b == a;
    } else {
      assert (a + b)[|a + b| - 1] == b[|b| - 1];
    }
  }

  lemma {:induction false} InsideLeveled(kind: NodeKind, tagged: bool, told: Option<nat>, kids: seq<Tree>, level: nat)
    ensures Leveled(level, Inside(kind, tagged, told, kids, level))
    ensures NestAfter(level, Inside(kind, tagged, told, kids, level)) == level
    ensures Complete(Inside(kind, tagged, told, kids, level))
    decreases kids, 0
  {
    hide Layout, Prior;
    if kids != [] {
      var n := |kids| - 1;
      var a := Inside(kind, tagged, told, kids[..n], level);
      var b := Layout(kids[n], Prior(kind, tagged, told, kids, n), level);
      InsideLeveled(kind, tagged, told, kids[..n], level);
      LayoutLeveled(kids[n], Prior(kind, tagged, told, kids, n), level);
      LeveledConcat(level, a, b);
      CompleteConcat(a, b);
    }
  }

  /** Every line break in a partial document has the right depth. */
  lemma {:induction false} LaidLeveled(z: Zip)
    requires InnerEntered(z.stack)
    ensures Leveled(0, Laid(z)) && Complete(Laid(z))
    ensures NestAfter(0, Laid(z)) == Enclosing(z.stack) +
      if z.stack.Push? && !z.stack.top.entered && Indenting(HeadKind(z.stack.top.head)) then 1 else 0
    decreases z.stack
  {
    hide Leveled, NestAfter, Lead, OpenBytes, OpenedBytes, Inside, HeadKind, LastOf, LineBefore, Complete;
    if z.stack.Bottom? {
      InsideLeveled(NoNode, false, None, z.done, 0);
    } else {
      var f := z.stack.top;
      var k := HeadKind(f.head);
      var o := Outside(z);
      var lead := Lead(LastOf(o), k, Enclosing(o.stack));
      var b := Start(k, OpenBytes(f.head, f.atts) + (if f.entered then OpenedBytes(f.head, true, f.full) else []));
      var c := if f.entered then Inside(k, f.tagged, f.told, f.kids, Enclosing(z.stack)) else [];
      LaidLeveled(o);
      LeveledLead(LastOf(o), k, Enclosing(o.stack), b);
      InsideLeveled(k, f.tagged, f.told, f.kids, Enclosing(z.stack));
      LeveledConcat(0, Laid(o), lead + [b]);
      CompleteConcat(Laid(o), lead + [b]);
      assert Laid(o) + lead + ([b] + c) == Laid(o) + (lead + [b]) + c;
      if f.entered {
        LeveledConcat(0, Laid(o) + (lead + [b]), c);
        CompleteConcat(Laid(o) + (lead + [b]), c);
      } else {
        assert Laid(o) + (lead + [b]) + [] == Laid(o) + (lead + [b]);
      }
    }
  }

  /** The level of a line break: the nodes of an indenting kind that were started before it and have not ended, without
      the one whose end it stands before. */
  function LevelOf(parts: seq<Part>, i: nat): int
    requires i + 1 < |parts|
  {
    if BeforeDocEnd(parts[i + 1]) then 0
    else if parts[i + 1].End? then Deepened(NestAfter(0, parts[..i]), parts[i + 1])
    else NestAfter(0, parts[..i])
  }

  lemma {:induction false} LeveledAt(n: int, parts: seq<Part>, i: nat)
    requires Leveled(n, parts) && i < |parts| && parts[i].Line?
    ensures i + 1 < |parts| && !parts[i + 1].Line?
    ensures parts[i].level == if BeforeDocEnd(parts[i + 1]) then 0
      else if parts[i + 1].End? then Deepened(NestAfter(n, parts[..i]), parts[i + 1]) else NestAfter(n, parts[..i])
    decreases parts
  {
    hide BeforeDocEnd;
    if i == 0 {
      assert parts[..0] == [];
    } else {
      assert parts[..i][0] == parts[0] && parts[..i][1..] == parts[1..][..i - 1];
      LeveledAt(Deepened(n, parts[0]), parts[1..], i - 1);
    }
  }

  /** The new line string, `n` units, and then `next`. */
  predicate LineShown(out: Str, at: nat, newline: Str, unit: Str, n: int, next: Str) {
    && n >= 0 && At(out, newline, at)
    && (forall k: nat | k < n :: At(out, unit, at + |newline| + k * |unit|))
    && At(out, next, at + |newline| + n * |unit|)
  }

  /** Every line break in the output is the new line string and one unit for each node of an indenting kind that is open
      there, right before the tag, declaration or comment it belongs to. */
  lemma LineInOutput(z: Zip, out: Str, newline: Str, unit: Str, i: nat)
    requires InnerEntered(z.stack) && PrintedAs(out, Laid(z), newline, unit)
    requires i < |Laid(z)| && Laid(z)[i].Line?
    ensures i + 1 < |Laid(z)| && !Laid(z)[i + 1].Line?
    ensures LineShown(out, Offset(Laid(z), i, newline, unit), newline, unit, LevelOf(Laid(z), i), Laid(z)[i + 1].s)
  {
    hide Leveled, Laid, At, BeforeDocEnd, Deepened, NestAfter, InnerEntered;
    LaidLeveled(z);
    LeveledAt(0, Laid(z), i);
    PartsAt(out, Laid(z), i, newline, unit);
  }

  lemma PartsAt(out: Str, parts: seq<Part>, i: nat, newline: Str, unit: Str)
    requires PrintedAs(out, parts, newline, unit) && i + 1 < |parts| && parts[i].Line? && !parts[i + 1].Line?
    ensures LineShown(out, Offset(parts, i, newline, unit), newline, unit, parts[i].level, parts[i + 1].s)
  {
    hide At;
    assert PartAt(out, Offset(parts, i, newline, unit), parts[i], newline, unit);
    assert PartAt(out, Offset(parts, i + 1, newline, unit), parts[i + 1], newline, unit);
  }

  // ---------------------------------------------------------------- what line breaks keep away from

  lemma {:induction false} AwayConcat(prev: NodeKind, a: seq<Part>, b: seq<Part>)
    requires Complete(a)
    ensures Away(prev, a + b) <==> Away(prev, a) && Away(LastKind(prev, a), b)
    ensures LastKind(prev, a + b) == LastKind(LastKind(prev, a), b)
    decreases a
  {
    if a == [] {
      assert a + b == b;
    } else {
      assert (a + b)[0] == a[0] && (a + b)[1..] == a[1..] + b;
      if |a| > 1 {
        assert (a + b)[1] == a[1];
        assert a[1..][|a[1..]| - 1] == a[|a| - 1];
      }
      AwayConcat(if a[0].Line? then prev else a[0].kind, a[1..], b);
    }
  }

  /** A line break follows the last of the children that a node was given in advance, although that one is
      written inside a line: the writer has forgotten it and remembers the opening instead. */
  predicate StrayInside(k: NodeKind, told: Option<nat>, kids: seq<Tree>) {
    && told.Some? && 0 < told.value < |kids|
    && Inline(TreeKind(kids[told.value - 1])) && LineBefore(Event(StateOpened, k, 0), TreeKind(kids[told.value]))
  }

  predicate StrayTail(t: Tree)
    requires t.Branch?
  {
    t.kids != [] && t.made.told == Some(|t.kids|) && Inline(TreeKind(t.kids[|t.kids| - 1])) && TailLine(t) &&
      !t.head.HDoc?
  }

  predicate NoStray(t: Tree) {
    t.Leaf? || (AllNoStray(t.kids) && !StrayInside(HeadKind(t.head), t.made.told, t.kids) && !StrayTail(t))
  }

  predicate AllNoStray(ts: seq<Tree>) {
    ts == [] || (AllNoStray(ts[..|ts| - 1]) && NoStray(ts[|ts| - 1]))
  }

  lemma AwayLead(prev: NodeKind, last: Event, kind: NodeKind, level: nat, p: Part)
    requires !p.Line? && p.kind == kind && !p.End?
    ensures Away(prev, Lead(last, kind, level) + [p]) <==> (LineBefore(last, kind) ==> !Inline(prev))
    ensures LastKind(prev, Lead(last, kind, level) + [p]) == kind
  {
    hide Away, LastKind, LineBefore, Inline;
    assert [] + [p] == [p];
    OnePart(level, prev, p);
    TwoParts(level, prev, level, p);
    if LineBefore(last, kind) {
      LineStarts(last, kind);
    }
  }

  /** What stands on a line of its own is not written inside a line. */
  lemma LineStarts(last: Event, kind: NodeKind)
    requires LineBefore(last, kind)
    ensures !Inline(kind) && !Inline(last.kind)
  {
  }

  lemma AwayTail(prev: NodeKind, t: Tree, level: nat)
    requires t.Branch?
    ensures Away(prev, Tail(t, level)) <==> (TailLine(t) && !t.head.HDoc? ==> !Inline(prev))
    ensures LastKind(prev, Tail(t, level)) == HeadKind(t.head)
  {
    hide EndBytes, TailLine, HeadKind, Leveled, NestAfter, Away, LastKind;
    TailKinds(t);
    var p := End(HeadKind(t.head), if Lost(t) then [] else EndBytes(t.head, t.kids != [], t.full));
    assert [] + [p] == [p];
    OnePart(0, prev, p);
    TwoParts(0, prev, if t.head.HDoc? then 0 else level, p);
  }

  /** The event before a child, and what stands before it, are of one kind, unless the child follows content given
      in advance. */
  lemma PriorKind(kind: NodeKind, tagged: bool, told: Option<nat>, kids: seq<Tree>, j: nat)
    requires j <= |kids| && EndsLine(Prior(kind, tagged, told, kids, j))
    ensures j == 0 || told != Some(j) ==> !Inline(if j == 0 then kind else TreeKind(kids[j - 1]))
  {
    hide TreeKind;
  }

  lemma {:induction false} LayoutAway(prev: NodeKind, t: Tree, last: Event, level: nat)
    ensures Away(prev, Layout(t, last, level)) <==> NoStray(t) && (LineBefore(last, TreeKind(t)) ==> !Inline(prev))
    ensures LastKind(prev, Layout(t, last, level)) == TreeKind(t)
    decreases t, 1
  {
    hide Away, LastKind, Lead, Tail, OpenBytes, OpenedBytes, LeafBytes, Inside, HeadKind, LeafKind, LineBefore,
      Complete, AllNoStray, TailLine;
    match t {
      case Leaf(l) =>
        AwayLead(prev, last, LeafKind(l), level, Item(LeafKind(l), LeafBytes(l)));
      case Branch(h, atts, kids, full, made) =>
        var k := HeadKind(h);
        var b := Start(k, OpenBytes(h, atts) + OpenedBytes(h, kids != [], full));
        var a := Lead(last, k, level) + [b];
        var c := Inside(k, made.tagged, made.told, kids, Deeper(k, level));
        AwayLead(prev, last, k, level, b);
        LeveledLead(last, k, level, b);
        InsideAway(k, made.tagged, made.told, kids, Deeper(k, level));
        InsideLeveled(k, made.tagged, made.told, kids, Deeper(k, level));
        CompleteConcat(a, c);
        AwayConcat(prev, a, c);
        AwayConcat(prev, a + c, Tail(t, level));
        AwayTail(LastKind(prev, a + c), t, level);
        TailAway(t);
    }
  }

  lemma TailAway(t: Tree)
    requires t.Branch?
    ensures var prev := if t.kids == [] then HeadKind(t.head) else TreeKind(t.kids[|t.kids| - 1]);
      (TailLine(t) && !t.head.HDoc? ==> !Inline(prev)) <==> !StrayTail(t)
  {
    hide TreeKind, HeadKind, LinesIn;
    TailKinds(t);
    if TailLine(t) && !t.head.HDoc? {
      PriorKind(HeadKind(t.head), t.made.tagged, t.made.told, t.kids, |t.kids|);
    }
  }

  lemma {:induction false} InsideAway(kind: NodeKind, tagged: bool, told: Option<nat>, kids: seq<Tree>, level: nat)
    ensures Away(kind, Inside(kind, tagged, told, kids, level)) <==> AllNoStray(kids) && !StrayInside(kind, told, kids)
    ensures LastKind(kind, Inside(kind, tagged, told, kids, level)) ==
      if kids == [] then kind else TreeKind(kids[|kids| - 1])
    decreases kids, 0
  {
    hide Layout, NoStray, TreeKind, Away, LastKind, LineBefore;
    if kids == [] {
      NothingAway(kind);
    } else {
      var n := |kids| - 1;
      var a := Inside(kind, tagged, told, kids[..n], level);
      var last := Prior(kind, tagged, told, kids, n);
      InsideAway(kind, tagged, told, kids[..n], level);
      InsideLeveled(kind, tagged, told, kids[..n], level);
      LayoutAway(LastKind(kind, a), kids[n], last, level);
      AwayConcat(kind, a, Layout(kids[n], last, level));
      StrayNext(kind, tagged, told, kids);
    }
  }

  lemma NothingAway(kind: NodeKind)
    ensures Away(kind, []) && LastKind(kind, []) == kind
  {
  }

  lemma StrayNext(kind: NodeKind, tagged: bool, told: Option<nat>, kids: seq<Tree>)
    requires kids != []
    ensures var n := |kids| - 1;
      var prev := if n == 0 then kind else TreeKind(kids[n - 1]);
      !StrayInside(kind, told, kids) <==>
        !StrayInside(kind, told, kids[..n]) &&
        (LineBefore(Prior(kind, tagged, told, kids, n), TreeKind(kids[n])) ==> !Inline(prev))
  {
    hide TreeKind;
    var n := |kids| - 1;
    if EndsLine(Prior(kind, tagged, told, kids, n)) {
      PriorKind(kind, tagged, told, kids, n);
    }
  }

  /** Exactly when line breaks keep away from what is written inside a line. */
  predicate StackNoStray(z: Zip)
    decreases z.stack
  {
    if z.stack.Bottom? then AllNoStray(z.done)
    else
      var f := z.stack.top;
      StackNoStray(Outside(z)) && !StrayOpen(Outside(z), HeadKind(f.head)) &&
      (f.entered ==> AllNoStray(f.kids) && !StrayInside(HeadKind(f.head), f.told, f.kids))
  }

  /** A node of this kind that is started now gets a line break after content given in advance that is written
      inside a line. */
  predicate StrayOpen(z: Zip, kind: NodeKind) {
    z.stack.Push? &&
    var f := z.stack.top;
    f.kids != [] && f.told == Some(|f.kids|) && Inline(TreeKind(f.kids[|f.kids| - 1])) &&
    LineBefore(Event(StateOpened, HeadKind(f.head), 0), kind)
  }

  function KindBefore(z: Zip): NodeKind {
    if z.stack.Bottom? then if z.done == [] then NoNode else TreeKind(z.done[|z.done| - 1])
    else
      var f := z.stack.top;
      if f.entered && f.kids != [] then TreeKind(f.kids[|f.kids| - 1]) else HeadKind(f.head)
  }

  /** In a partial document line breaks keep away from text, CDATA sections, processing instructions and attributes
      if and only if no node was given content that ends in one of those and then went on with something that
      starts a line. */
  lemma {:induction false} BreaksKeepAwayIff(z: Zip)
    requires InnerEntered(z.stack)
    ensures Away(NoNode, Laid(z)) <==> StackNoStray(z)
    ensures LastKind(NoNode, Laid(z)) == KindBefore(z)
    decreases z.stack
  {
    hide Away, LastKind, Lead, OpenBytes, OpenedBytes, Inside, HeadKind, TreeKind, LastOf, LineBefore, Complete,
      AllNoStray, StrayInside, StrayOpen;
    if z.stack.Bottom? {
      InsideAway(NoNode, false, None, z.done, 0);
      NeverStray(z.done);
    } else {
      var f := z.stack.top;
      var k := HeadKind(f.head);
      var o := Outside(z);
      var lead := Lead(LastOf(o), k, Enclosing(o.stack));
      var b := Start(k, OpenBytes(f.head, f.atts) + (if f.entered then OpenedBytes(f.head, true, f.full) else []));
      var c := if f.entered then Inside(k, f.tagged, f.told, f.kids, Enclosing(z.stack)) else [];
      BreaksKeepAwayIff(o);
      LaidLeveled(o);
      AwayLead(KindBefore(o), LastOf(o), k, Enclosing(o.stack), b);
      LeveledLead(LastOf(o), k, Enclosing(o.stack), b);
      InsideAway(k, f.tagged, f.told, f.kids, Enclosing(z.stack));
      AwayConcat(NoNode, Laid(o), lead + [b]);
      CompleteConcat(Laid(o), lead + [b]);
      assert Laid(o) + lead + ([b] + c) == Laid(o) + (lead + [b]) + c;
      AwayConcat(NoNode, Laid(o) + (lead + [b]), c);
      NothingAway(k);
      OpenStray(o, k);
    }
  }

  lemma NeverStray(kids: seq<Tree>)
    ensures !StrayInside(NoNode, None, kids)
  {
  }

  lemma OpenStray(z: Zip, kind: NodeKind)
    requires z.stack.Push? ==> z.stack.top.entered
    ensures (LineBefore(LastOf(z), kind) ==> !Inline(KindBefore(z))) <==> !StrayOpen(z, kind)
  {
    hide TreeKind, HeadKind;
    if LineBefore(LastOf(z), kind) {
      if z.stack.Push? {
        var f := z.stack.top;
        PriorKind(HeadKind(f.head), f.tagged, f.told, f.kids, |f.kids|);
      } else {
        PriorKind(NoNode, false, None, z.done, |z.done|);
      }
    }
  }

  /** An element with one text as its content. */
  function TextElem(): Elem {
    Elem([], [], "a", [], [WLeaf(Text("t"))], false)
  }

  lemma TextOpened(z: Zip, cfg: Config, grow: Growth)
    requires z == Zip([], Push(Bottom, Fresh(ElemStart(TextElem()), cfg.newline, Tag([], []))))
    ensures OpenTopOk(z, cfg) && OpenTop(z, 8, cfg, grow).cap == 8
    ensures var f := OpenTop(z, 8, cfg, grow).zip.stack;
      f.Push? && f.below.Bottom? && f.top.entered && f.top.head == HElem("a") && f.top.told == Some(1) &&
      f.top.kids == [Leaf(Text("t"))]
  {
    hide ValidName;
    var items := TextElem().content;
    assert items[1..] == [] && Undeclared([]) == [];
    assert ItemTrees(items, 1, 8, cfg, grow) == Grown([Leaf(Text("t"))], 8);
    assert ItemsOk(items, cfg);
  }

  /** Content given in advance has to be excepted: an element that is started with a text and goes on with a comment
      has a line break right after the text. */
  lemma ContentBreaks(cfg: Config, grow: Growth)
    ensures var ops := [OpStart(ElemStart(TextElem())), OpStart(Comment([]))];
      var o := Steps(Zip([], Bottom), 8, ops, cfg, grow);
      o.Done? && InnerEntered(o.zip.stack) && !Away(NoNode, Laid(o.zip))
  {
    hide Laid, Away, ValidName, OpenTop, OpenTopOk;
    var op0, op1 := OpStart(ElemStart(TextElem())), OpStart(Comment([]));
    var ops := [op0, op1];
    assert ops[0] == op0 && ops[1..] == [op1] && [op1][1..] == [];
    var z0 := Zip([], Bottom);
    OpenTopEntered(z0, 8, cfg, grow);
    LowerCaseName("a");
    var f := Fresh(ElemStart(TextElem()), cfg.newline, Tag([], []));
    assert ElemTag(TextElem(), cfg.enforce) == Some(Tag([], []));
    assert Step(z0, 8, op0, cfg, grow) == Done(Zip([], Push(Bottom, f)), 8);
    TextOpened(Zip([], Push(Bottom, f)), cfg, grow);
    var o := Step(Zip([], Push(Bottom, f)), 8, op1, cfg, grow);
    assert o.Done? && Steps(o.zip, o.cap, [], cfg, grow) == o;
    assert Steps(Zip([], Push(Bottom, f)), 8, [op1], cfg, grow) == o;
    assert Steps(z0, 8, ops, cfg, grow) == o;
    var z := o.zip;
    assert z.stack.Push? && z.stack.below.Push? && z.stack.below.top.entered && z.stack.below.below.Bottom?;
    assert InnerEntered(z.stack) by {
      assert Entered(z.stack.below.below);
    }
    BreaksKeepAwayIff(z);
    assert StrayOpen(Outside(o.zip), CommentNode);
  }

  // ---------------------------------------------------------------- with and without an indenter

  /** Two writers that differ in their indenter only, given the same calls: when the calls succeed, both have built
      the same document and hold the same nodes in the same states, with the same children counted. The plain output
      is the text of the document; the indented output is the same parts with line breaks between them, each as deep
      as there are nodes open around it. */
  method RunBoth(w: Writer, v: Writer, ops: seq<Op>) returns (ok: bool)
    requires Ready(w) && Ready(v) && w != v && w.printer != v.printer
    requires w.indenter != null && v.indenter == null && w.cfg == v.cfg && w.grow == v.grow
    requires w.clean && v.clean && w.doc == v.doc && w.cap == v.cap
    requires forall op | op in ops :: Typed(op)
    modifies w, w.printer, w.indenter, v, v.printer
    ensures var o := Steps(old(w.doc), old(w.cap), ops, w.cfg, w.grow);
      o.Done? ==> ok && w.clean && v.clean && w.doc == o.zip && v.doc == o.zip && w.cap == v.cap
    ensures Steps(old(w.doc), old(w.cap), ops, w.cfg, w.grow).Done? ==>
      && w.current == v.current && SameTo(w.nodes, v.nodes, w.current)
      && v.printer.out == PlainOf(Laid(v.doc)) == ZipBytes(v.doc)
      && w.printer.out == TextOf(Laid(v.doc), w.cfg.newline, w.indenter.unit)
      && PrintedAs(w.printer.out, Laid(v.doc), w.cfg.newline, w.indenter.unit)
      && Leveled(0, Laid(v.doc))
      && w.indenter.depth == Enclosing(v.doc.stack) && w.indenter.stack == Counts(v.doc)
  {
    hide Steps, ZipBytes, NodesOk, Levels, AllOpened, Settled, Match, Tallied, SlotsOf, Laid, Counts, PlainOf,
      TextOf, Leveled, InnerEntered, LastOf, PenOf, PrintedAs;
    ghost var done := Steps(w.doc, w.cap, ops, w.cfg, w.grow).Done?;
    ok := Run(w, ops);
    var ok' := Run(v, ops);
    ok := ok && ok';
    if done {
      LaidPlain(v.doc);
      MatchEnteredBelow(v.nodes, v.current, v.doc.stack, v.cfg.newline);
      LaidLeveled(v.doc);
      TextPrinted(Laid(v.doc), w.cfg.newline, w.indenter.unit);
      SlotsCount(v.doc.stack, w.current, v.current, w.nodes, v.nodes, v.cfg.newline);
    }
  }

  lemma SlotsCount(s: Stack, j: int, k: int, n0: seq<Node>, n1: seq<Node>, newline: Str)
    requires Match(n0, j, s, newline) && Match(n1, k, s, newline)
    ensures j == k
  {
    hide Match;
    MatchDepth(n0, j, s, newline);
    MatchDepth(n1, k, s, newline);
  }
}
