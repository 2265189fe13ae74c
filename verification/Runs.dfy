/** Whole runs of a Writer: the bytes are the text of the document that the calls have built. */
module Runs {
  import opened Bytes
  import opened Nodes
  import opened Printer
  import opened Document
  import opened Trees
  import opened Lines
  import opened LineProofs
  import opened NodeSlice
  import opened Tally
  import opened Writer

  datatype Op =
    | OpStart(v: Startable)
    | OpPut(w: Writable)
    | OpEnd(kind: NodeKind, names: seq<Str>)
    | OpEndFull(names: seq<Str>)
    | OpEndAny
    | OpEndAll
    | OpEndToDepth(depth: int, kind: NodeKind, names: seq<Str>)

  /** What the types of the calls allow. */
  predicate Typed(op: Op) {
    match op
    case OpPut(WStart(v)) => !v.Doc? && !v.DTD?
    case _ => true
  }

  function Step(z: Zip, cap: nat, op: Op, cfg: Config, grow: Growth): Outcome
    requires Typed(op)
  {
    match op
    case OpStart(v) => StartCall(z, cap, v, cfg, grow)
    case OpPut(w) => PutCall(z, cap, w, cfg, grow)
    case OpEnd(kind, names) => EndCall(z, cap, kind, names, cfg, grow)
    case OpEndFull(names) => EndCall(SetFull(z), cap, ElemNode, names, cfg, grow)
    case OpEndAny => EndAnyCall(z, cap, cfg, grow)
    case OpEndAll => EndAllCall(z, cap, cfg, grow)
    case OpEndToDepth(depth, kind, names) => EndToDepthCall(z, cap, depth, kind, names, cfg, grow)
  }

  /** The document after a run; a run stops at the first call that is not Done. */
  function Steps(z: Zip, cap: nat, ops: seq<Op>, cfg: Config, grow: Growth): Outcome
    requires forall op | op in ops :: Typed(op)
    decreases ops
  {
    if ops == [] then Done(z, cap)
    else
      match Step(z, cap, ops[0], cfg, grow)
      case Done(z', cap') => Steps(z', cap', ops[1..], cfg, grow)
      case other => other
  }

  /** The stack of a document in which all nodes but the innermost are entered. */
  predicate InnerEntered(s: Stack) {
    s.Push? ==> Entered(s.below)
  }

  predicate Entered(s: Stack) {
    s.Push? ==> s.top.entered && Entered(s.below)
  }

  lemma {:induction false} MatchEnteredBelow(nodes: seq<Node>, k: int, s: Stack, newline: Str)
    requires Match(nodes, k, s, newline)
    ensures InnerEntered(s)
  {
    hide NodeMatches;
    if s.Push? {
      MatchEnteredBelow(nodes, k - 1, s.below, newline);
    }
  }

  // ---------------------------------------------------------------- a call keeps the shape of the stack

  lemma AttachShape(z: Zip, t: Tree)
    requires InnerEntered(z.stack) && (z.stack.Push? ==> z.stack.top.entered)
    ensures InnerEntered(Attach(z, t).stack) && Settled(Attach(z, t))
    ensures Attach(z, t).stack.Push? ==> Attach(z, t).stack.top.entered
  {
  }

  lemma OpenTopShape(z: Zip, cap: nat, cfg: Config, grow: Growth)
    requires InnerEntered(z.stack)
    ensures var m := OpenTop(z, cap, cfg, grow);
      InnerEntered(m.zip.stack) && (m.zip.stack.Push? ==> m.zip.stack.top.entered) &&
      (m.zip.stack.Push? <==> z.stack.Push?)
  {
    hide PendingTrees;
  }

  lemma EndAnyShape(z: Zip, cap: nat, cfg: Config, grow: Growth)
    requires InnerEntered(z.stack) && z.stack.Push?
    ensures var m := CloseTop(z, cap, cfg, grow);
      InnerEntered(m.zip.stack) && Settled(m.zip) && (m.zip.stack.Push? ==> m.zip.stack.top.entered)
  {
    hide OpenTop, Stale, Ended;
    OpenTopShape(z, cap, cfg, grow);
    var f := z.stack.top;
    var g := OpenTop(z, cap, cfg, grow).zip.stack.top;
    AttachShape(Zip(z.done, z.stack.below), Ended(g, !f.entered && Stale(f, Depth(z.stack.below), cap)));
  }

  lemma {:induction false} CloseDownShape(z: Zip, cap: nat, keep: nat, cfg: Config, grow: Growth)
    requires InnerEntered(z.stack) && Settled(z)
    ensures var m := CloseDown(z, cap, keep, cfg, grow); InnerEntered(m.zip.stack) && Settled(m.zip)
    decreases Depth(z.stack)
  {
    hide CloseTop;
    if Depth(z.stack) > keep {
      EndAnyShape(z, cap, cfg, grow);
      CloseShallower(z, cap, cfg, grow);
      var m := CloseTop(z, cap, cfg, grow);
      CloseDownShape(m.zip, m.cap, keep, cfg, grow);
    }
  }

  lemma StartShape(z: Zip, cap: nat, v: Startable, cfg: Config, grow: Growth)
    requires InnerEntered(z.stack)
    ensures var o := StartCall(z, cap, v, cfg, grow); o.Done? ==> InnerEntered(o.zip.stack) && Settled(o.zip)
  {
    hide OpenTop, OpenTopOk, StartTag;
    OpenTopShape(z, Pushed(Depth(z.stack), cap, grow), cfg, grow);
  }

  lemma EndShape(z: Zip, cap: nat, kind: NodeKind, names: seq<Str>, cfg: Config, grow: Growth)
    requires InnerEntered(z.stack)
    ensures var o := EndCall(z, cap, kind, names, cfg, grow); o.Done? ==> InnerEntered(o.zip.stack) && Settled(o.zip)
  {
    hide OpenTopOk, CloseTop;
    if z.stack.Push? {
      EndAnyShape(z, cap, cfg, grow);
    }
  }

  lemma PutShape(z: Zip, cap: nat, w: Writable, cfg: Config, grow: Growth)
    requires InnerEntered(z.stack)
    ensures var o := PutCall(z, cap, w, cfg, grow); o.Done? ==> InnerEntered(o.zip.stack) && Settled(o.zip)
  {
    hide OpenTop, OpenTopOk, StartCall, EndCall, LeafAccepted, LeafFinishes, Attach;
    match w {
      case WLeaf(l) =>
        OpenTopShape(z, cap, cfg, grow);
        AttachShape(OpenTop(z, cap, cfg, grow).zip, Leaf(l));
      case WStart(v) =>
        StartShape(z, cap, v, cfg, grow);
        var o := StartCall(z, cap, v, cfg, grow);
        if o.Done? {
          EndShape(o.zip, o.cap, StartKind(v), [], cfg, grow);
        }
      case WAttr(a) =>
        hide AddNs;
      case WRaw(_) =>
    }
  }

  /** After every call all nodes below the top are entered, and the top has children if it is. */
  lemma StepShape(z: Zip, cap: nat, op: Op, cfg: Config, grow: Growth)
    requires Typed(op) && InnerEntered(z.stack) && Settled(z)
    ensures var o := Step(z, cap, op, cfg, grow); o.Done? ==> InnerEntered(o.zip.stack) && Settled(o.zip)
  {
    hide PutCall, StartCall, EndCall, CloseDown, CloseTop, OpenTopOk;
    match op {
      case OpStart(v) => StartShape(z, cap, v, cfg, grow);
      case OpPut(w) => PutShape(z, cap, w, cfg, grow);
      case OpEnd(kind, names) => EndShape(z, cap, kind, names, cfg, grow);
      case OpEndFull(names) => EndShape(SetFull(z), cap, ElemNode, names, cfg, grow);
      case OpEndAny => if z.stack.Push? { EndAnyShape(z, cap, cfg, grow); }
      case OpEndAll => CloseDownShape(z, cap, 0, cfg, grow);
      case OpEndToDepth(depth, kind, names) =>
        CloseDownShape(z, cap, Kept(depth + 1), cfg, grow);
        var m := CloseDown(z, cap, Kept(depth + 1), cfg, grow);
        EndShape(m.zip, m.cap, kind, names, cfg, grow);
    }
  }

  lemma FullShape(z: Zip)
    ensures Settled(SetFull(z)) == Settled(z)
  {
  }

  lemma {:induction false} CloseDownDepth(z: Zip, cap: nat, keep: nat, cfg: Config, grow: Growth)
    ensures Depth(CloseDown(z, cap, keep, cfg, grow).zip.stack) == if Depth(z.stack) <= keep then
      Depth(z.stack) else keep
    decreases Depth(z.stack)
  {
    hide CloseTop;
    if Depth(z.stack) > keep {
      CloseShallower(z, cap, cfg, grow);
      var m := CloseTop(z, cap, cfg, grow);
      CloseDownDepth(m.zip, m.cap, keep, cfg, grow);
    }
  }

  lemma {:induction false} StepsConcat(z: Zip, cap: nat, a: seq<Op>, b: seq<Op>, cfg: Config, grow: Growth)
    requires forall op | op in a + b :: Typed(op)
    ensures forall op | op in a :: op in a + b
    ensures forall op | op in b :: op in a + b
    ensures Steps(z, cap, a + b, cfg, grow) ==
      match Steps(z, cap, a, cfg, grow)
      case Done(z', cap') => Steps(z', cap', b, cfg, grow)
      case other => other
    decreases a
  {
    hide Step;
    if a == [] {
      assert a + b == b;
    } else {
      assert (a + b)[1..] == a[1..] + b && (a + b)[0] == a[0];
      var o := Step(z, cap, a[0], cfg, grow);
      if o.Done? {
        StepsConcat(o.zip, o.cap, a[1..], b, cfg, grow);
      }
    }
  }

  /** A run that ends with EndAll leaves no node open. */
  lemma ClosedAfterAll(z: Zip, cap: nat, ops: seq<Op>, cfg: Config, grow: Growth)
    requires forall op | op in ops :: Typed(op)
    ensures var o := Steps(z, cap, ops + [OpEndAll], cfg, grow); o.Done? ==> o.zip.stack.Bottom?
  {
    hide CloseDown, OpenTopOk;
    StepsConcat(z, cap, ops, [OpEndAll], cfg, grow);
    var o := Steps(z, cap, ops, cfg, grow);
    if o.Done? {
      CloseDownDepth(o.zip, o.cap, 0, cfg, grow);
    }
  }

  // ---------------------------------------------------------------- running

  /** The text of a partial document: laid out if there is an indent string, as it is if there is none. */
  function PrintedText(z: Zip, newline: Str, unit: Option<Str>): Str {
    match unit
    case None => ZipBytes(z)
    case Some(u) => TextOf(Laid(z), newline, u)
  }

  ghost function UnitOf(w: Writer): Option<Str>
    reads w
  {
    if w.indenter == null then None else Some(w.indenter.unit)
  }

  /** A writer between calls. */
  ghost predicate Ready(w: Writer)
    reads w, w.printer, w.indenter
  {
    w.Valid() && (w.clean ==> Tallied(w.nodes, w.current, w.doc.stack))
  }

  /** A writer that has not left the tree behind: what it printed is the text of the document, its slots are the
      open nodes, and its indenter's stack has a counter for every level. */
  ghost predicate Tracked(w: Writer, z: Zip, cap: nat)
    reads w, w.printer, w.indenter
  {
    && Ready(w) && w.clean && w.doc == z && w.cap == cap
    && w.printer.plain == ZipBytes(z) && w.printer.out == PrintedText(z, w.cfg.newline, UnitOf(w))
    && w.nodes[..w.current + 1] == SlotsOf(z.stack)
    && (w.indenter != null ==> w.indenter.depth == Enclosing(z.stack) && w.indenter.stack == Counts(z))
  }

  lemma NoBreaks(log: seq<Piece>)
    requires Breaks(log) == []
    ensures Joined(log) == Plain(log)
  {
    if log != [] {
      NoBreaks(log[..|log| - 1]);
    }
  }

  /** Between calls a writer that has not left the tree behind is tracked by its document. */
  lemma IsTracked(w: Writer)
    requires Ready(w) && w.clean
    ensures Tracked(w, w.doc, w.cap)
  {
    hide NodesOk, Levels, AllOpened, Match, Tallied, ZipBytes, LastOf, Laid, Counts, SlotsOf, Settled;
    SlotsDetermined(w.nodes, w.current, w.doc.stack, w.cfg.newline);
    JoinedSpaced(w.printer.log);
    if w.indenter == null {
      NoBreaks(w.printer.log);
    } else {
      LaidPlain(w.doc);
      TextIsSpaced(Laid(w.doc), w.cfg.newline, w.indenter.unit);
      LevelsEnclosing(w.nodes, w.current, w.doc.stack, w.cfg.newline);
    }
  }

  /** What a call does to the slots. */
  predicate SlotsMoved(op: Op, n0: seq<Node>, k0: int, n1: seq<Node>, k1: int) {
    match op
    case OpStart(_) => OneMore(n0, n1, k0) && k1 == k0 + 1 && 0 <= k1 < |n1| && n1[k1].children == 0
    case OpPut(x) => k1 == k0 && if x.WAttr? then Retagged(n0, n1, k0) else OneMore(n0, n1, k0)
    case _ => SameTo(n0, n1, k1)
  }

  /** Every call keeps the slots' counts. */
  lemma StepTally(n0: seq<Node>, k0: int, n1: seq<Node>, k1: int, z: Zip, cap: nat, op: Op, cfg: Config, grow: Growth)
    requires Typed(op) && -1 <= k0 < |n0| && Match(n0, k0, z.stack, cfg.newline) && Tallied(n0, k0, z.stack)
    requires Step(z, cap, op, cfg, grow).Done? && SlotsMoved(op, n0, k0, n1, k1)
    requires Match(n1, k1, Step(z, cap, op, cfg, grow).zip.stack, cfg.newline)
    ensures Tallied(n1, k1, Step(z, cap, op, cfg, grow).zip.stack)
  {
    hide Match, Tallied, OneMore, Retagged, SameTo, StartCall, LeafCall, WriteCall, AttrCall, CloseDown, CloseTop,
      OpenTopOk;
    var z' := Step(z, cap, op, cfg, grow).zip;
    MatchDepth(n0, k0, z.stack, cfg.newline);
    MatchDepth(n1, k1, z'.stack, cfg.newline);
    match op {
      case OpStart(v) => StartTally(n0, n1, k0, z, cap, v, cfg, grow);
      case OpPut(x) =>
        match x {
          case WLeaf(l) => LeafTally(n0, n1, k0, z, cap, l, cfg, grow);
          case WStart(v) => WriteTally(n0, n1, k0, z, cap, v, cfg, grow);
          case WAttr(a) => AttrTally(n0, n1, k0, z, cap, a, cfg);
          case _ =>
        }
      case _ =>
        ClosingTally(n0, k0, z, cap, op, cfg, grow);
        SameTally(n0, n1, k1, z'.stack);
    }
  }

  /** The calls that end nodes. */
  lemma ClosingTally(n0: seq<Node>, k0: int, z: Zip, cap: nat, op: Op, cfg: Config, grow: Growth)
    requires Typed(op) && !op.OpStart? && !op.OpPut? && k0 == Depth(z.stack) - 1 && Tallied(n0, k0, z.stack)
    requires Step(z, cap, op, cfg, grow).Done?
    ensures var s := Step(z, cap, op, cfg, grow).zip.stack; Tallied(n0, Depth(s) - 1, s)
  {
    hide Tallied, CloseDown, CloseTop, OpenTopOk;
    match op {
      case OpEndAll => CloseDownTally(n0, k0, z, cap, 0, cfg, grow);
      case OpEndToDepth(depth, _, _) =>
        CloseDownTally(n0, k0, z, cap, Kept(depth + 1), cfg, grow);
        var m := CloseDown(z, cap, Kept(depth + 1), cfg, grow);
        if m.zip.stack.Push? {
          CloseShallower(m.zip, m.cap, cfg, grow);
          CloseTally(n0, Depth(m.zip.stack) - 1, m.zip, m.cap, cfg, grow);
        }
      case _ =>
        FullTally(n0, k0, z);
        var z0 := if op.OpEndFull? then SetFull(z) else z;
        if z0.stack.Push? {
          CloseShallower(z0, cap, cfg, grow);
          CloseTally(n0, k0, z0, cap, cfg, grow);
        }
    }
  }

  /** One call. */
  method Do(w: Writer, op: Op) returns (ok: bool)
    requires Ready(w) && Typed(op)
    modifies w, w.printer, w.indenter
    ensures w.Valid()
    ensures if old(w.clean) then
        var o := Step(old(w.doc), old(w.cap), op, w.cfg, w.grow);
        if o.Done? then ok && Tracked(w, o.zip, o.cap) else !ok || !w.clean
      else !w.clean
  {
    hide NodesOk, Levels, AllOpened, Match, Tallied, ZipBytes, LastOf, PenOf, Settled, InnerEntered, Step, OneMore,
      Retagged, SameTo;
    ok := Call(w, op);
    if old(w.clean) && Step(old(w.doc), old(w.cap), op, w.cfg, w.grow).Done? {
      StepTally(old(w.nodes), old(w.current), w.nodes, w.current, old(w.doc), old(w.cap), op, w.cfg, w.grow);
      IsTracked(w);
    }
  }

  method Call(w: Writer, op: Op) returns (ok: bool)
    requires w.Valid() && Typed(op)
    modifies w, w.printer, w.indenter
    ensures w.Valid()
    ensures if old(w.clean) then
        var o := Step(old(w.doc), old(w.cap), op, w.cfg, w.grow);
        if o.Done? then ok && w.clean && w.doc == o.zip && w.cap == o.cap else !ok || !w.clean
      else !w.clean
    ensures ok && w.clean ==> SlotsMoved(op, old(w.nodes), old(w.current), w.nodes, w.current)
  {
    hide NodesOk, Levels, AllOpened, Match, ZipBytes, LastOf, PenOf, Settled, InnerEntered, PutCall, StartCall,
      EndCall, EndAnyCall, EndAllCall, EndToDepthCall, OneMore, Retagged, SameTo, Keeps;
    if w.clean {
      MatchEnteredBelow(w.nodes, w.current, w.doc.stack, w.cfg.newline);
      StepShape(w.doc, w.cap, op, w.cfg, w.grow);
    }
    match op {
      case OpStart(v) => ok := w.Start(v);
      case OpPut(x) => ok := w.Put(x);
      case OpEnd(kind, names) =>
        ok := w.End(kind, names);
        if ok {
          SameBelow(old(w.nodes), old(w.nodes), old(w.retired), w.nodes, w.retired, w.current);
        }
      case OpEndFull(names) =>
        FullShape(w.doc);
        ok := w.EndElemFull(names);
      case OpEndAny =>
        ok := w.EndAny();
      case OpEndAll =>
        ok := w.EndAll();
      case OpEndToDepth(depth, kind, names) =>
        if w.clean {
          CloseDownShape(w.doc, w.cap, Kept(depth + 1), w.cfg, w.grow);
        }
        ok := w.EndToDepth(depth, kind, names);
    }
  }

  /** Streaming refines printing a tree: after every call of a run without errors, the bytes printed are
      the text of the partial document that the calls have built. */
  method Run(w: Writer, ops: seq<Op>) returns (ok: bool)
    requires Ready(w) && w.clean
    requires forall op | op in ops :: Typed(op)
    modifies w, w.printer, w.indenter
    ensures var o := Steps(old(w.doc), old(w.cap), ops, w.cfg, w.grow);
      if o.Done? then ok && Tracked(w, o.zip, o.cap) else !ok || !w.clean
  {
    hide NodesOk, Levels, AllOpened, Match, Tallied, ZipBytes, LastOf, PenOf, Laid, Counts, SlotsOf, Settled, Step;
    var i := 0;
    assert ops[0..] == ops;
    IsTracked(w);
    while i < |ops|
      invariant i <= |ops| && w.Valid() && (w.clean ==> Tracked(w, w.doc, w.cap))
      invariant if w.clean then
          Steps(w.doc, w.cap, ops[i..], w.cfg, w.grow) == Steps(old(w.doc), old(w.cap), ops, w.cfg, w.grow)
        else !Steps(old(w.doc), old(w.cap), ops, w.cfg, w.grow).Done?
    {
      assert ops[i..][1..] == ops[i + 1..] && ops[i..][0] == ops[i];
      assert ops[i] in ops;
      ok := Do(w, ops[i]);
      if !ok {
        return;
      }
      i := i + 1;
    }
    assert ops[i..] == [];
    ok := true;
  }

  /** After EndAll the bytes are a recursive print of the whole forest, laid out if there is an indenter. */
  method RunAndClose(w: Writer, ops: seq<Op>) returns (ok: bool)
    requires Ready(w) && w.clean && w.doc == Zip([], Bottom)
    requires forall op | op in ops :: Typed(op)
    modifies w, w.printer, w.indenter
    ensures var o := Steps(Zip([], Bottom), old(w.cap), ops + [OpEndAll], w.cfg, w.grow);
      if o.Done? then
        && ok && o.zip.stack.Bottom? && w.doc == o.zip && w.printer.plain == RenderAll(o.zip.done)
        && (w.indenter == null ==> w.printer.out == RenderAll(o.zip.done))
        && (w.indenter != null ==>
            w.printer.out == TextOf(Inside(NoNode, false, None, o.zip.done, 0), w.cfg.newline, w.indenter.unit))
      else !ok || !w.clean
  {
    hide NodesOk, Levels, AllOpened, Match, Tallied, LastOf, PenOf, Counts, SlotsOf, Settled, Steps, RenderAll,
      TextOf, Inside;
    ClosedAfterAll(Zip([], Bottom), w.cap, ops, w.cfg, w.grow);
    ok := Run(w, ops + [OpEndAll]);
    assert w.doc.stack.Bottom? ==> RenderAll(w.doc.done) + [] == RenderAll(w.doc.done);
  }

  // ---------------------------------------------------------------- lists of nodes

  function PutOps(nodes: seq<Writable>): (ops: seq<Op>)
    requires forall n | n in nodes :: Typed(OpPut(n))
    ensures forall op | op in ops :: Typed(op)
  {
    if nodes == [] then [] else [OpPut(nodes[0])] + PutOps(nodes[1..])
  }

  function BlockOps(start: Startable, nodes: seq<Writable>): (ops: seq<Op>)
    requires forall n | n in nodes :: Typed(OpPut(n))
    ensures forall op | op in ops :: Typed(op)
  {
    [OpStart(start)] + (PutOps(nodes) + [OpEnd(StartKind(start), [])])
  }

  /** Writer.Write. */
  method WriteAll(w: Writer, nodes: seq<Writable>) returns (ok: bool)
    requires Ready(w)
    requires forall n | n in nodes :: Typed(OpPut(n))
    modifies w, w.printer, w.indenter
    ensures w.Valid()
    ensures if old(w.clean) then
        var o := Steps(old(w.doc), old(w.cap), PutOps(nodes), w.cfg, w.grow);
        if o.Done? then ok && Tracked(w, o.zip, o.cap) else !ok || !w.clean
      else !w.clean
  {
    hide NodesOk, Levels, AllOpened, Match, Tallied, ZipBytes, LastOf, PenOf, Laid, Counts, SlotsOf, Settled, Step;
    var i := 0;
    assert nodes[0..] == nodes;
    if w.clean {
      IsTracked(w);
    }
    while i < |nodes|
      invariant i <= |nodes| && w.Valid() && (w.clean ==> old(w.clean) && Tracked(w, w.doc, w.cap))
      invariant old(w.clean) ==>
        if w.clean then
          Steps(w.doc, w.cap, PutOps(nodes[i..]), w.cfg, w.grow) ==
            Steps(old(w.doc), old(w.cap), PutOps(nodes), w.cfg, w.grow)
        else !Steps(old(w.doc), old(w.cap), PutOps(nodes), w.cfg, w.grow).Done?
    {
      assert nodes[i..][1..] == nodes[i + 1..] && nodes[i..][0] == nodes[i] && nodes[i] in nodes;
      assert PutOps(nodes[i..])[0] == OpPut(nodes[i]) && PutOps(nodes[i..])[1..] == PutOps(nodes[i + 1..]);
      ok := Do(w, OpPut(nodes[i]));
      if !ok {
        return;
      }
      i := i + 1;
    }
    assert nodes[i..] == [];
    ok := true;
  }

  /** Writer.Block: a node with its direct children. */
  method Block(w: Writer, start: Startable, nodes: seq<Writable>) returns (ok: bool)
    requires Ready(w)
    requires forall n | n in nodes :: Typed(OpPut(n))
    modifies w, w.printer, w.indenter
    ensures w.Valid()
    ensures if old(w.clean) then
        var o := Steps(old(w.doc), old(w.cap), BlockOps(start, nodes), w.cfg, w.grow);
        if o.Done? then ok && Tracked(w, o.zip, o.cap) else !ok || !w.clean
      else !w.clean
  {
    hide NodesOk, Levels, AllOpened, Match, Tallied, ZipBytes, LastOf, PenOf, Laid, Counts, SlotsOf, Settled, Step,
      Steps, PutOps, BlockOps;
    BlockSteps(w.doc, w.cap, start, nodes, w.cfg, w.grow);
    ok := Do(w, OpStart(start));
    if ok {
      ok := WriteAll(w, nodes);
      if ok {
        ok := Do(w, OpEnd(StartKind(start), []));
      }
    }
  }

  /** A block step by step. */
  lemma BlockSteps(z: Zip, cap: nat, start: Startable, nodes: seq<Writable>, cfg: Config, grow: Growth)
    requires forall n | n in nodes :: Typed(OpPut(n))
    ensures var o := Step(z, cap, OpStart(start), cfg, grow);
      Steps(z, cap, BlockOps(start, nodes), cfg, grow) ==
      if !o.Done? then o
      else
        var p := Steps(o.zip, o.cap, PutOps(nodes), cfg, grow);
        if !p.Done? then p else Step(p.zip, p.cap, OpEnd(StartKind(start), []), cfg, grow)
  {
    hide Step, PutOps;
    var last := [OpEnd(StartKind(start), [])];
    var ops := BlockOps(start, nodes);
    assert ops[0] == OpStart(start) && ops[1..] == PutOps(nodes) + last;
    var o := Step(z, cap, OpStart(start), cfg, grow);
    if o.Done? {
      StepsConcat(o.zip, o.cap, PutOps(nodes), last, cfg, grow);
      var p := Steps(o.zip, o.cap, PutOps(nodes), cfg, grow);
      if p.Done? {
        assert last[1..] == [];
      }
    }
  }
}
