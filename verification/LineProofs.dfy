/** How the laid out text of a partial document grows, call by call. */
module LineProofs {
  import opened Bytes
  import opened Nodes
  import opened Printer
  import opened Document
  import opened Trees
  import opened TreeProofs
  import opened Indenter
  import opened Lines

  lemma PartsGrow(parts: seq<Part>, p: Part, newline: Str, unit: Str)
    ensures PlainOf(parts + [p]) == PlainOf(parts) + (if p.Line? then [] else p.s)
    ensures TextOf(parts + [p], newline, unit) ==
      TextOf(parts, newline, unit) + (if p.Line? then BreakText(newline, unit, p.level) else p.s)
    ensures BreaksOf(parts + [p], newline, unit) ==
      BreaksOf(parts, newline, unit) +
      (if p.Line? then [Break(|PlainOf(parts)|, BreakText(newline, unit, p.level))] else [])
  {
    assert (parts + [p])[..|parts + [p]| - 1] == parts;
  }

  lemma {:induction false} PlainConcat(a: seq<Part>, b: seq<Part>)
    ensures PlainOf(a + b) == PlainOf(a) + PlainOf(b)
  {
    if b == [] {
      assert a + b == a && PlainOf(a) + [] == PlainOf(a);
    } else {
      var n := |b| - 1;
      assert (a + b)[..|a + b| - 1] == a + b[..n];
      PlainConcat(a, b[..n]);
      Assoc(PlainOf(a), PlainOf(b[..n]), if b[n].Line? then [] else b[n].s);
    }
  }

  /** Line breaks after a text begin where it ends. */
  function Shift(bs: seq<Break>, n: nat): seq<Break> {
    seq(|bs|, i requires 0 <= i < |bs| => Break(bs[i].at + n, bs[i].s))
  }

  lemma {:induction false} BreaksConcat(a: seq<Part>, b: seq<Part>, newline: Str, unit: Str)
    ensures BreaksOf(a + b, newline, unit) ==
      BreaksOf(a, newline, unit) + Shift(BreaksOf(b, newline, unit), |PlainOf(a)|)
  {
    if b == [] {
      assert a + b == a;
    } else {
      var n := |b| - 1;
      assert (a + b)[..|a + b| - 1] == a + b[..n];
      BreaksConcat(a, b[..n], newline, unit);
      PlainConcat(a, b[..n]);
    }
  }

  /** The output of a writer is the laid out text if its line breaks are those of the layout. */
  lemma {:induction false} TextIsSpaced(parts: seq<Part>, newline: Str, unit: Str)
    ensures TextOf(parts, newline, unit) == Spaced(PlainOf(parts), BreaksOf(parts, newline, unit))
    ensures forall b | b in BreaksOf(parts, newline, unit) :: b.at <= |PlainOf(parts)|
  {
    hide BreakText;
    if parts != [] {
      var n := |parts| - 1;
      TextIsSpaced(parts[..n], newline, unit);
      var p, bs := PlainOf(parts[..n]), BreaksOf(parts[..n], newline, unit);
      if parts[n].Line? {
        assert PlainOf(parts) == p + [] == p;
        assert BreaksOf(parts, newline, unit)[..|bs|] == bs && p[..|p|] == p && p[|p|..] == [];
        assert TextOf(parts, newline, unit) + [] == TextOf(parts, newline, unit);
      } else {
        SpacedGrows(p, bs, parts[n].s);
        assert BreaksOf(parts, newline, unit) == bs;
      }
    }
  }

  // ---------------------------------------------------------------- without the line breaks

  lemma LeadPlain(parts: seq<Part>, last: Event, kind: NodeKind, level: nat)
    ensures PlainOf(parts + Lead(last, kind, level)) == PlainOf(parts)
  {
    if LineBefore(last, kind) {
      PartsGrow(parts, Line(level), [], []);
    } else {
      assert parts + [] == parts;
    }
  }

  lemma OnePlain(p: Part)
    requires !p.Line?
    ensures PlainOf([p]) == p.s
  {
    PartsGrow([], p, [], []);
    assert [] + [p] == [p];
  }

  lemma TailPlain(t: Tree, level: nat)
    requires t.Branch?
    ensures PlainOf(Tail(t, level)) == if Lost(t) then [] else EndBytes(t.head, t.kids != [], t.full)
  {
    hide EndBytes, TailLine;
    var e := End(HeadKind(t.head), if Lost(t) then [] else EndBytes(t.head, t.kids != [], t.full));
    OnePlain(e);
    if TailLine(t) {
      var l := Line(if t.head.HDoc? then 0 else level);
      PartsGrow([], l, [], []);
      assert [] + [l] == [l];
      PartsGrow([l], e, [], []);
    } else {
      assert [] + [e] == [e];
    }
  }

  /** The laid out text of a tree without its line breaks is its text. */
  lemma {:induction false} LayoutPlain(t: Tree, last: Event, level: nat)
    ensures PlainOf(Layout(t, last, level)) == Render(t)
    decreases t, 1
  {
    hide PlainOf, Lead, Tail, OpenBytes, OpenedBytes, EndBytes, LeafBytes, Inside, RenderAll, HeadKind, LeafKind;
    match t {
      case Leaf(l) =>
        OnePlain(Item(LeafKind(l), LeafBytes(l)));
        LeadOf(last, LeafKind(l), level);
        PlainConcat(Lead(last, LeafKind(l), level), [Item(LeafKind(l), LeafBytes(l))]);
      case Branch(h, atts, kids, full, made) =>
        var k := HeadKind(h);
        var a := Lead(last, k, level);
        var b := Start(k, OpenBytes(h, atts) + OpenedBytes(h, kids != [], full));
        var c := Inside(k, made.tagged, made.told, kids, Deeper(k, level));
        InsidePlain(k, made.tagged, made.told, kids, Deeper(k, level));
        LeadOf(last, k, level);
        OnePlain(b);
        TailPlain(t, level);
        PlainConcat(a, [b]);
        PlainConcat(a + [b], c);
        PlainConcat(a + [b] + c, Tail(t, level));
    }
  }

  lemma LeadOf(last: Event, kind: NodeKind, level: nat)
    ensures PlainOf(Lead(last, kind, level)) == []
  {
    LeadPlain([], last, kind, level);
    assert [] + Lead(last, kind, level) == Lead(last, kind, level);
  }

  lemma {:induction false} InsidePlain(kind: NodeKind, tagged: bool, told: Option<nat>, kids: seq<Tree>, level: nat)
    ensures PlainOf(Inside(kind, tagged, told, kids, level)) == RenderAll(kids)
    decreases kids, 0
  {
    hide Layout, Prior, Render;
    if kids != [] {
      var n := |kids| - 1;
      InsidePlain(kind, tagged, told, kids[..n], level);
      LayoutPlain(kids[n], Prior(kind, tagged, told, kids, n), level);
      PlainConcat(Inside(kind, tagged, told, kids[..n], level),
        Layout(kids[n], Prior(kind, tagged, told, kids, n), level));
    }
  }

  lemma FramePlain(f: Frame, level: nat)
    ensures PlainOf(FrameLaid(f, level)) == FrameBytes(f, true)
  {
    hide OpenBytes, OpenedBytes, Inside, RenderAll, HeadKind;
    var o := if f.entered then OpenedBytes(f.head, true, f.full) else [];
    var b := Start(HeadKind(f.head), OpenBytes(f.head, f.atts) + o);
    OnePlain(b);
    if f.entered {
      InsidePlain(HeadKind(f.head), f.tagged, f.told, f.kids, level);
      PlainConcat([b], Inside(HeadKind(f.head), f.tagged, f.told, f.kids, level));
      Assoc(OpenBytes(f.head, f.atts), o, RenderAll(f.kids));
    } else {
      assert [b] + [] == [b];
    }
  }

  /** The laid out text of a partial document without its line breaks is its text. */
  lemma {:induction false} LaidPlain(z: Zip)
    ensures PlainOf(Laid(z)) == ZipBytes(z)
    decreases z.stack
  {
    hide PlainOf, Lead, Inside, RenderAll, HeadKind, LastOf, Enclosing, FrameLaid, FrameBytes;
    if z.stack.Bottom? {
      InsidePlain(NoNode, false, None, z.done, 0);
    } else {
      var f := z.stack.top;
      var l := Lead(LastOf(Outside(z)), HeadKind(f.head), Enclosing(z.stack.below));
      LaidPlain(Outside(z));
      LeadPlain(Laid(Outside(z)), LastOf(Outside(z)), HeadKind(f.head), Enclosing(z.stack.below));
      FramePlain(f, Enclosing(z.stack));
      PlainConcat(Laid(Outside(z)) + l, FrameLaid(f, Enclosing(z.stack)));
      SplitTop(z);
    }
  }

  // ---------------------------------------------------------------- one event

  lemma BumpZero(c: seq<nat>)
    requires c != []
    ensures Bump(c, 0) == c
  {
  }

  lemma BumpTwice(c: seq<nat>, a: nat, b: nat)
    requires c != []
    ensures Bump(Bump(c, a), b) == Bump(c, a + b)
  {
  }

  /** Only what the last event is like matters. */
  lemma TellLike(p: Pen, a: Event, b: Event, next: Event, at: nat, newline: Str, unit: Str)
    requires p.stack != [] && Like(a, b)
    ensures Tell(p, a, next, at, newline, unit) == Tell(p, b, next, at, newline, unit)
  {
  }

  /** The events of attributes and raw strings do nothing. */
  lemma TellNothing(p: Pen, last: Event, kind: NodeKind, at: nat, newline: Str, unit: Str)
    requires p.stack != [] && (kind == AttrNode || kind == RawNode)
    ensures Tell(p, last, Event(StateOpen, kind, 0), at, newline, unit) == p
  {
  }

  /** A node begins after `parts`. */
  lemma TellBegin(parts: seq<Part>, c: seq<nat>, last: Event, kind: NodeKind, newline: Str, unit: Str)
    requires c != []
    ensures Tell(Pen(BreaksOf(parts, newline, unit), c), last, Event(StateOpen, kind, 0), |PlainOf(parts)|, newline,
      unit) ==
      Pen(BreaksOf(parts + Lead(last, kind, |c| - 1), newline, unit), Bump(c, if LineBefore(last, kind) then 1 else 0))
  {
    hide BreakText, PlainOf, BreaksOf;
    if LineBefore(last, kind) {
      PartsGrow(parts, Line(|c| - 1), newline, unit);
    } else {
      assert parts + [] == parts;
      BumpZero(c);
    }
  }

  lemma NoBreakIn(parts: seq<Part>, p: Part, newline: Str, unit: Str)
    requires !p.Line?
    ensures BreaksOf(parts + [p], newline, unit) == BreaksOf(parts, newline, unit)
  {
    hide BreaksOf, PlainOf;
    PartsGrow(parts, p, newline, unit);
  }

  lemma LaidAttach(z: Zip, t: Tree)
    requires z.stack.Push? ==> z.stack.top.entered
    ensures Laid(Attach(z, t)) == Laid(z) + Layout(t, LastOf(z), Enclosing(z.stack))
  {
    hide Layout, Lead, HeadKind, FrameLaid, Inside;
    if z.stack.Bottom? {
      InsideSnoc(NoNode, false, None, z.done, t, 0);
    } else {
      FrameSnoc(z.stack.top, t, Enclosing(z.stack));
      assert Outside(Attach(z, t)) == Outside(z);
    }
  }

  lemma FrameSnoc(f: Frame, t: Tree, level: nat)
    requires f.entered
    ensures FrameLaid(f.(kids := f.kids + [t]), level) ==
      FrameLaid(f, level) + Layout(t, Prior(HeadKind(f.head), f.tagged, f.told, f.kids, |f.kids|), level)
  {
    hide Layout, OpenBytes, OpenedBytes, HeadKind, Inside, Prior;
    var k, last := HeadKind(f.head), Prior(HeadKind(f.head), f.tagged, f.told, f.kids, |f.kids|);
    InsideSnoc(k, f.tagged, f.told, f.kids, t, level);
    var b := [Start(k, OpenBytes(f.head, f.atts) + OpenedBytes(f.head, true, f.full))];
    assert b + Inside(k, f.tagged, f.told, f.kids, level) + Layout(t, last, level) ==
      b + (Inside(k, f.tagged, f.told, f.kids, level) + Layout(t, last, level));
  }

  lemma InsideSnoc(kind: NodeKind, tagged: bool, told: Option<nat>, kids: seq<Tree>, t: Tree, level: nat)
    ensures Inside(kind, tagged, told, kids + [t], level) ==
      Inside(kind, tagged, told, kids, level) + Layout(t, Prior(kind, tagged, told, kids, |kids|), level)
    ensures LinesIn(kind, tagged, told, kids + [t]) ==
      LinesIn(kind, tagged, told, kids) + LinesOf(t, Prior(kind, tagged, told, kids, |kids|))
  {
    hide Layout, LinesOf, TreeKind;
    assert (kids + [t])[..|kids|] == kids;
  }

  lemma CountsAttach(z: Zip, t: Tree)
    requires z.stack.Push? ==> z.stack.top.entered
    ensures Counts(Attach(z, t)) == Bump(Counts(z), LinesOf(t, LastOf(z)))
  {
    hide LinesOf, HeadKind, TreeKind, LineBefore, LinesIn, CountsIn, Bump, Enclosing;
    if z.stack.Bottom? {
      InsideSnoc(NoNode, false, None, z.done, t, 0);
      BumpOne(LinesIn(NoNode, false, None, z.done), LinesOf(t, LastOf(z)));
    } else {
      var f := z.stack.top;
      var c := CountsBelow(z);
      CountsOpen(z);
      CountsOpen(Attach(z, t));
      assert Outside(Attach(z, t)) == Outside(z);
      CountsSnoc(c, f, t, LinesOf(t, LastOf(z)));
    }
  }

  lemma BumpOne(n: nat, b: nat)
    ensures Bump([n], b) == [n + b]
  {
  }

  /** The counters around the innermost open node, which may have begun on a line of its own. */
  function CountsBelow(z: Zip): (r: seq<nat>)
    requires z.stack.Push?
    ensures r != []
  {
    Bump(Counts(Outside(z)), if LineBefore(LastOf(Outside(z)), HeadKind(z.stack.top.head)) then 1 else 0)
  }

  lemma CountsOpen(z: Zip)
    requires z.stack.Push?
    ensures Counts(z) == CountsIn(CountsBelow(z), z.stack.top)
  {
    hide LineBefore, LastOf, HeadKind, Bump, CountsIn;
  }

  lemma CountsSnoc(c: seq<nat>, f: Frame, t: Tree, b: nat)
    requires c != [] && f.entered
    requires b == LinesOf(t, Prior(HeadKind(f.head), f.tagged, f.told, f.kids, |f.kids|))
    ensures CountsIn(c, f.(kids := f.kids + [t])) == Bump(CountsIn(c, f), b)
  {
    hide LinesOf, HeadKind, LinesIn, Prior, Bump, Inside, Layout, Indenting, TreeKind;
    InsideSnoc(HeadKind(f.head), f.tagged, f.told, f.kids, t, 0);
    var n := LinesIn(HeadKind(f.head), f.tagged, f.told, f.kids);
    if Indenting(HeadKind(f.head)) {
      BumpLast(c, n, b);
    } else {
      BumpTwice(c, n, b);
    }
  }

  lemma BumpLast(c: seq<nat>, n: nat, b: nat)
    ensures Bump(c + [n], b) == c + [n + b]
  {
  }

  lemma TellLeaf(z: Zip, l: Leaf, last: Event, newline: Str, unit: Str)
    requires (z.stack.Push? ==> z.stack.top.entered) && Like(last, LastOf(z))
    ensures PenOf(Attach(z, Leaf(l)), newline, unit) ==
      Tell(PenOf(z, newline, unit), last, Event(StateOpen, LeafKind(l), 0), |ZipBytes(z)|, newline, unit)
  {
    hide Laid, Counts, LastOf, ZipBytes, BreaksOf, PlainOf, LeafKind, LineBefore, Tell, LeafBytes, Lead, Enclosing;
    var k := LeafKind(l);
    var a := Lead(LastOf(z), k, Enclosing(z.stack));
    LaidPlain(z);
    LaidAttach(z, Leaf(l));
    CountsAttach(z, Leaf(l));
    TellLike(PenOf(z, newline, unit), last, LastOf(z), Event(StateOpen, k, 0), |ZipBytes(z)|, newline, unit);
    TellBegin(Laid(z), Counts(z), LastOf(z), k, newline, unit);
    NoBreakIn(Laid(z) + a, Item(k, LeafBytes(l)), newline, unit);
    assert Laid(z) + (a + [Item(k, LeafBytes(l))]) == Laid(z) + a + [Item(k, LeafBytes(l))];
  }

  lemma TellStart(z: Zip, f: Frame, last: Event, newline: Str, unit: Str)
    requires !f.entered && Like(last, LastOf(z))
    ensures PenOf(z.(stack := Push(z.stack, f)), newline, unit) ==
      Tell(PenOf(z, newline, unit), last, Event(StateOpen, HeadKind(f.head), 0), |ZipBytes(z)|, newline, unit)
  {
    hide LastOf, ZipBytes, BreaksOf, PlainOf, HeadKind, LineBefore, Tell, OpenBytes, Lead;
    var k := HeadKind(f.head);
    var z' := z.(stack := Push(z.stack, f));
    var a := Lead(LastOf(z), k, Enclosing(z.stack));
    LaidPlain(z);
    assert Outside(z') == z;
    TellLike(PenOf(z, newline, unit), last, LastOf(z), Event(StateOpen, k, 0), |ZipBytes(z)|, newline, unit);
    TellBegin(Laid(z), Counts(z), LastOf(z), k, newline, unit);
    var p := Start(k, OpenBytes(f.head, f.atts) + []);
    assert FrameLaid(f, Enclosing(z'.stack)) == [p];
    NoBreakIn(Laid(z) + a, p, newline, unit);
  }

  /** The innermost node without children: only the text of its start has changed. */
  lemma SameLead(z: Zip, f: Frame, g: Frame, newline: Str, unit: Str)
    requires f.head == g.head && !f.entered && (g.entered ==> g.kids == [])
    ensures BreaksOf(Laid(z.(stack := Push(z.stack, g))), newline, unit) ==
      BreaksOf(Laid(z.(stack := Push(z.stack, f))), newline, unit)
  {
    hide LastOf, BreaksOf, PlainOf, HeadKind, OpenBytes, OpenedBytes, Lead;
    var z0, z1 := z.(stack := Push(z.stack, f)), z.(stack := Push(z.stack, g));
    assert Outside(z0) == z && Outside(z1) == z;
    var a := Laid(z) + Lead(LastOf(z), HeadKind(f.head), Enclosing(z.stack));
    var p := FrameLaid(f, Enclosing(z0.stack));
    var q := FrameLaid(g, Enclosing(z1.stack));
    assert p == [p[0]] && q == [q[0]];
    NoBreakIn(a, p[0], newline, unit);
    NoBreakIn(a, q[0], newline, unit);
  }

  lemma TellOpened(z: Zip, last: Event, children: nat, at: nat, newline: Str, unit: Str)
    requires z.stack.Push? && !z.stack.top.entered && z.stack.top.kids == []
    ensures PenOf(EnteredZip(z), newline, unit) ==
      Tell(PenOf(z, newline, unit), last, Event(StateOpened, HeadKind(z.stack.top.head), children), at, newline, unit)
    ensures LastOf(EnteredZip(z)) == LastOf(z)
  {
    hide LastOf, BreaksOf, Laid, HeadKind, LineBefore;
    var f := z.stack.top;
    SameLead(Outside(z), f, Opened(f), newline, unit);
    assert Outside(EnteredZip(z)) == Outside(z);
    assert z == Outside(z).(stack := Push(z.stack.below, f));
    assert EnteredZip(z) == Outside(z).(stack := Push(z.stack.below, Opened(f)));
    BumpZero(Bump(Counts(Outside(z)), if LineBefore(LastOf(Outside(z)), HeadKind(f.head)) then 1 else 0));
    assert LinesIn(HeadKind(f.head), f.tagged, f.told, []) == 0;
    LastEntered(z);
  }

  lemma LastEntered(z: Zip)
    requires z.stack.Push?
    ensures LastOf(EnteredZip(z)) == LastOf(z)
  {
    hide HeadKind, TreeKind;
  }

  /** The innermost node and its children as they are when its end is reached. */
  function Body(f: Frame, level: nat): seq<Part> {
    [Start(HeadKind(f.head), OpenBytes(f.head, f.atts) + OpenedBytes(f.head, f.kids != [], f.full))] +
    Inside(HeadKind(f.head), f.tagged, f.told, f.kids, level)
  }

  lemma BodyLaid(a: seq<Part>, f: Frame, level: nat, newline: Str, unit: Str)
    requires f.entered
    ensures BreaksOf(a + Body(f, level), newline, unit) == BreaksOf(a + FrameLaid(f, level), newline, unit)
    ensures PlainOf(a + Body(f, level)) == PlainOf(a) + FrameBytes(f, f.kids != [])
  {
    hide OpenBytes, OpenedBytes, RenderAll, HeadKind, Layout, PlainOf, BreaksOf;
    var k := HeadKind(f.head);
    var b := Start(k, OpenBytes(f.head, f.atts) + OpenedBytes(f.head, f.kids != [], f.full));
    var inside := Inside(k, f.tagged, f.told, f.kids, level);
    InsidePlain(k, f.tagged, f.told, f.kids, level);
    OnePlain(b);
    PlainConcat([b], inside);
    PlainConcat(a, Body(f, level));
    Assoc(OpenBytes(f.head, f.atts), OpenedBytes(f.head, f.kids != [], f.full), RenderAll(f.kids));
    if f.kids == [] {
      assert Body(f, level) == [b] && FrameLaid(f, level) == [FrameLaid(f, level)[0]];
      NoBreakIn(a, b, newline, unit);
      NoBreakIn(a, FrameLaid(f, level)[0], newline, unit);
    } else {
      assert Body(f, level) == FrameLaid(f, level);
    }
  }

  lemma LaidClosed(z: Zip, stale: bool)
    requires z.stack.Push? && z.stack.top.entered
    requires z.stack.below.Push? ==> z.stack.below.top.entered
    ensures Laid(ClosedDoc(z, stale)) ==
      Laid(Outside(z)) + Lead(LastOf(Outside(z)), HeadKind(z.stack.top.head), Enclosing(z.stack.below)) +
      Body(z.stack.top, Enclosing(z.stack)) + Tail(Ended(z.stack.top, stale), Enclosing(z.stack.below))
  {
    hide Laid, LastOf, HeadKind, Lead, OpenBytes, OpenedBytes, Inside, Tail;
    var f := z.stack.top;
    var k := HeadKind(f.head);
    var t := Ended(f, stale);
    LaidAttach(Outside(z), t);
    var a := Lead(LastOf(Outside(z)), k, Enclosing(z.stack.below));
    var b := Start(k, OpenBytes(f.head, f.atts) + OpenedBytes(f.head, f.kids != [], f.full));
    var c := Inside(k, f.tagged, f.told, f.kids, Enclosing(z.stack));
    Four(Laid(Outside(z)), a, [b], c, Tail(t, Enclosing(z.stack.below)));
  }

  lemma Four(p: seq<Part>, a: seq<Part>, b: seq<Part>, c: seq<Part>, d: seq<Part>)
    ensures p + (a + b + c + d) == p + a + (b + c) + d
  {
  }

  lemma TailBreaks(parts: seq<Part>, t: Tree, level: nat, newline: Str, unit: Str)
    requires t.Branch?
    ensures BreaksOf(parts + Tail(t, level), newline, unit) ==
      BreaksOf(parts, newline, unit) +
      (if TailLine(t) then
        [Break(|PlainOf(parts)|, BreakText(newline, unit, if t.head.HDoc? then 0 else level))] else [])
  {
    hide EndBytes, TailLine, BreaksOf, PlainOf;
    var e := End(HeadKind(t.head), if Lost(t) then [] else EndBytes(t.head, t.kids != [], t.full));
    if TailLine(t) {
      var l := Line(if t.head.HDoc? then 0 else level);
      assert parts + Tail(t, level) == parts + [l] + [e];
      PartsGrow(parts, l, newline, unit);
      NoBreakIn(parts + [l], e, newline, unit);
    } else {
      assert parts + Tail(t, level) == parts + [e];
      NoBreakIn(parts, e, newline, unit);
    }
  }

  lemma CountsClosed(z: Zip, stale: bool)
    requires z.stack.Push? && z.stack.top.entered
    requires z.stack.below.Push? ==> z.stack.below.top.entered
    ensures Counts(ClosedDoc(z, stale)) ==
      if Indenting(HeadKind(z.stack.top.head)) then Counts(z)[..|Counts(z)| - 1] else Counts(z)
  {
    hide LastOf, HeadKind, LineBefore, LinesIn;
    var f := z.stack.top;
    var k := HeadKind(f.head);
    CountsAttach(Outside(z), Ended(f, stale));
    var n := if LineBefore(LastOf(Outside(z)), k) then 1 else 0;
    if Indenting(k) {
      assert (Bump(Counts(Outside(z)), n) + [LinesIn(k, f.tagged, f.told, f.kids)])[..|Counts(z)| - 1] ==
        Bump(Counts(Outside(z)), n);
    } else {
      BumpTwice(Counts(Outside(z)), n, LinesIn(k, f.tagged, f.told, f.kids));
    }
  }

  lemma TopCount(z: Zip)
    requires z.stack.Push? && z.stack.top.entered && Indenting(HeadKind(z.stack.top.head))
    ensures var f := z.stack.top;
      Counts(z)[|Counts(z)| - 1] == LinesIn(HeadKind(f.head), f.tagged, f.told, f.kids)
  {
    hide LinesIn, HeadKind, LineBefore, LastOf;
  }

  lemma DueAtEnd(f: Frame, stale: bool, last: Event, children: nat)
    requires f.entered && (stale ==> f.head.HElem?)
    requires children == 0 <==> f.kids == [] || stale
    requires Like(last, Prior(HeadKind(f.head), f.tagged, f.told, f.kids, |f.kids|))
    ensures BreakDue(last, Event(StateEnded, HeadKind(f.head), children),
      LinesIn(HeadKind(f.head), f.tagged, f.told, f.kids) == 0) == TailLine(Ended(f, stale)) ||
      !Indenting(HeadKind(f.head))
    ensures !Indenting(HeadKind(f.head)) ==> forall quiet ::
      BreakDue(last, Event(StateEnded, HeadKind(f.head), children), quiet) == TailLine(Ended(f, stale))
  {
    hide LinesOf, TreeKind;
  }

  /** Telling an indenter of the end of the innermost node. */
  lemma TellEnded(z: Zip, stale: bool, last: Event, children: nat, newline: Str, unit: Str)
    requires z.stack.Push? && z.stack.top.entered && Like(last, LastOf(z)) && (stale ==> z.stack.top.head.HElem?)
    requires z.stack.below.Push? ==> z.stack.below.top.entered
    requires children == 0 <==> z.stack.top.kids == [] || stale
    ensures PenOf(ClosedDoc(z, stale), newline, unit) ==
      Tell(PenOf(z, newline, unit), last, Event(StateEnded, HeadKind(z.stack.top.head), children),
        |Before(z) + FrameBytes(z.stack.top, z.stack.top.kids != [])|, newline, unit)
  {
    hide Laid, Counts, FrameBytes, BreaksOf, PlainOf, HeadKind, LineBefore, Lead, BreakDue, TailLine, Tail, Body,
      FrameLaid, ClosedDoc, Prior;
    var f := z.stack.top;
    var o := Outside(z);
    var k := HeadKind(f.head);
    var a := Laid(o) + Lead(LastOf(o), k, Enclosing(o.stack));
    LaidClosed(z, stale);
    LaidOpen(z);
    BodyLaid(a, f, Enclosing(z.stack), newline, unit);
    LeadPlain(Laid(o), LastOf(o), k, Enclosing(o.stack));
    LaidPlain(o);
    TailBreaks(a + Body(f, Enclosing(z.stack)), Ended(f, stale), Enclosing(o.stack), newline, unit);
    CountsClosed(z, stale);
    if Indenting(k) {
      TopCount(z);
    }
    DueAtEnd(f, stale, last, children);
    DocKind(f.head);
  }

  lemma DocKind(h: Head)
    ensures HeadKind(h) == DocNode <==> h.HDoc?
  {
  }

  lemma LaidOpen(z: Zip)
    requires z.stack.Push?
    ensures Laid(z) ==
      Laid(Outside(z)) + Lead(LastOf(Outside(z)), HeadKind(z.stack.top.head), Enclosing(z.stack.below)) +
      FrameLaid(z.stack.top, Enclosing(z.stack))
    ensures Before(z) == ZipBytes(Outside(z))
  {
    hide Lead, LastOf, HeadKind, Enclosing, FrameLaid;
  }

  lemma {:induction false} InsideTold(kind: NodeKind, tagged: bool, told: nat, kids: seq<Tree>, level: nat)
    requires told >= |kids|
    ensures Inside(kind, tagged, Some(told), kids, level) == Inside(kind, tagged, None, kids, level)
    ensures LinesIn(kind, tagged, Some(told), kids) == LinesIn(kind, tagged, None, kids)
    decreases kids
  {
    hide Layout, LinesOf;
    if kids != [] {
      InsideTold(kind, tagged, told, kids[..|kids| - 1], level);
    }
  }

  /** Remembering an opening changes nothing but the last event. */
  lemma PenRemembered(z: Zip, newline: Str, unit: Str)
    requires z.stack.Push? && z.stack.top.told.None?
    ensures var z' := z.(stack := z.stack.(top := Told(z.stack.top)));
      PenOf(z', newline, unit) == PenOf(z, newline, unit) &&
      LastOf(z') == Event(StateOpened, HeadKind(z.stack.top.head), 0)
  {
    hide Inside, LinesIn, HeadKind, Lead, BreaksOf;
    var f := z.stack.top;
    InsideTold(HeadKind(f.head), f.tagged, |f.kids|, f.kids, Enclosing(z.stack));
    assert Outside(z.(stack := z.stack.(top := Told(f)))) == Outside(z);
  }

  lemma PenFull(z: Zip, newline: Str, unit: Str)
    ensures PenOf(SetFull(z), newline, unit) == PenOf(z, newline, unit) && LastOf(SetFull(z)) == LastOf(z)
  {
    hide Inside, LinesIn, HeadKind, Lead, BreaksOf, FrameLaid, Laid, Counts, CountsIn, Bump, Enclosing, TreeKind;
    if z.stack.Push? {
      assert Outside(SetFull(z)) == Outside(z);
      FullLaid(z.stack.top, Enclosing(z.stack));
      assert Enclosing(SetFull(z).stack) == Enclosing(z.stack) by {
        FullEncloses(z);
      }
      LaidOpen(z);
      LaidOpen(SetFull(z));
      CountsOpen(z);
      CountsOpen(SetFull(z));
    }
  }

  lemma FullEncloses(z: Zip)
    ensures Enclosing(SetFull(z).stack) == Enclosing(z.stack)
  {
    hide HeadKind;
  }

  lemma FullLaid(f: Frame, level: nat)
    ensures FrameLaid(f.(full := true), level) == FrameLaid(f, level)
    ensures forall c: seq<nat> | c != [] :: CountsIn(c, f.(full := true)) == CountsIn(c, f)
  {
    hide Inside, LinesIn, HeadKind, OpenBytes;
  }

  /** An attribute changes the text of the start tag, and the last event. */
  lemma PenAttr(z: Zip, g: Frame, newline: Str, unit: Str)
    requires z.stack.Push? && !z.stack.top.entered && !g.entered && g.head == z.stack.top.head
    ensures var z' := Outside(z).(stack := Push(z.stack.below, g));
      PenOf(z', newline, unit) == PenOf(z, newline, unit) &&
      (g.kids == z.stack.top.kids && g.told == z.stack.top.told && g.tagged == z.stack.top.tagged ==>
        LastOf(z') == LastOf(z))
  {
    hide Laid, BreaksOf, HeadKind, LineBefore, TreeKind;
    SameLead(Outside(z), z.stack.top, g, newline, unit);
    assert z == Outside(z).(stack := Push(z.stack.below, z.stack.top));
    assert Outside(Outside(z).(stack := Push(z.stack.below, g))) == Outside(z);
  }

  /** A node that has just been started. */
  lemma LastStarted(z: Zip, f: Frame)
    requires f.kids == [] && f.told == None && !f.tagged
    ensures LastOf(z.(stack := Push(z.stack, f))) == Event(StateOpen, HeadKind(f.head), 0)
  {
    hide HeadKind;
  }

  lemma LastTagged(z: Zip, g: Frame)
    requires z.stack.Push? && g.kids == [] && g.told == None && g.tagged
    ensures LastOf(Outside(z).(stack := Push(z.stack.below, g))) == Event(StateEnded, AttrNode, 0)
  {
    hide HeadKind;
  }

  /** The last event after a node has been finished. */
  lemma LastAttached(z: Zip, t: Tree)
    requires z.stack.Push? && z.stack.top.told.Some? ==> z.stack.top.told.value <= |z.stack.top.kids|
    ensures LastOf(Attach(z, t)) == Event(StateEnded, TreeKind(t), 0)
  {
    hide HeadKind, TreeKind;
  }
}
