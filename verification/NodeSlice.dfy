/** The node slice of a Writer, and how its slots mirror the open nodes of the document. */
module NodeSlice {
  import opened Bytes
  import opened Nodes
  import opened Document
  import opened Trees
  import opened TreeProofs

  /** One slot of the node slice. */
  datatype Node = Node(children: nat, state: NodeState, kind: NodeKind, start: Startable, namespaces: seq<Ns>,
                       full: bool)

  const CLEARED := Node(0, StateOpen, NoNode, Comment([]), [], false)

  /** A pointer to a slot: the backing array it points into, and the index. */
  datatype Pointer = Pointer(array_: nat, index: nat)

  predicate NodeOk(n: Node) {
    n.kind == StartKind(n.start) && n.state != StateEnded
  }

  /** All slots up to `k` are opened and have children. */
  predicate AllOpened(nodes: seq<Node>, k: int) {
    k < 0 ||
    (k < |nodes| && NodeOk(nodes[k]) && nodes[k].state == StateOpened && nodes[k].children > 0 &&
      AllOpened(nodes, k - 1))
  }

  /** The slots up to `k` are nodes on the stack; all but the innermost are opened. */
  predicate NodesOk(nodes: seq<Node>, k: int) {
    k < 0 || (k < |nodes| && NodeOk(nodes[k]) && AllOpened(nodes, k - 1))
  }

  /** The opened nodes of an indenting kind among the slots up to `k`. */
  function Levels(nodes: seq<Node>, k: int): nat
    requires k < |nodes|
  {
    if k < 0 then 0
    else Levels(nodes, k - 1) + (if Indenting(nodes[k].kind) && nodes[k].state == StateOpened then 1 else 0)
  }

  predicate NodeMatches(n: Node, f: Frame, newline: Str) {
    && n.start == f.start && f.head == HeadOf(f.start, newline)
    && n.kind == StartKind(f.start)
    && n.namespaces == f.nss && n.full == f.full
    && (f.entered <==> n.state == StateOpened) && n.state != StateEnded
    && (!f.entered ==> f.kids == [] && f.told == None)
    && (f.told.Some? ==> f.told.value <= |f.kids|)
    && (f.kids != [] ==> n.children > 0)
  }

  /** The slots up to `k` are the open nodes of `s`; all but the innermost are opened and have
      children. */
  predicate Match(nodes: seq<Node>, k: int, s: Stack, newline: Str)
    decreases s, 0
  {
    match s
    case Bottom => k == -1
    case Push(b, f) => 0 <= k < |nodes| && NodeMatches(nodes[k], f, newline) && Inner(nodes, k - 1, b, newline)
  }

  predicate Inner(nodes: seq<Node>, k: int, s: Stack, newline: Str)
    decreases s, 1
  {
    Match(nodes, k, s, newline) && (s.Push? ==> s.top.entered && nodes[k].children > 0)
  }

  /** Only the slots above `k` differ. */
  lemma {:induction false} SamePrefix(n0: seq<Node>, n1: seq<Node>, k: int)
    requires -1 <= k < |n0| && k < |n1| && n0[..k + 1] == n1[..k + 1]
    ensures NodesOk(n0, k) == NodesOk(n1, k) && AllOpened(n0, k) == AllOpened(n1, k)
    ensures Levels(n0, k) == Levels(n1, k)
    decreases k + 1
  {
    if k >= 0 {
      assert n0[..k + 1][k] == n1[..k + 1][k];
      assert n0[..k] == n0[..k + 1][..k] && n1[..k] == n1[..k + 1][..k];
      SamePrefix(n0, n1, k - 1);
    }
  }

  lemma {:induction false} SameMatch(n0: seq<Node>, n1: seq<Node>, k: int, s: Stack, newline: Str)
    requires -1 <= k < |n0| && k < |n1| && n0[..k + 1] == n1[..k + 1]
    ensures Match(n0, k, s, newline) == Match(n1, k, s, newline)
    ensures Inner(n0, k, s, newline) == Inner(n1, k, s, newline)
  {
    hide NodeMatches;
    if s.Push? && k >= 0 {
      assert n0[..k + 1][k] == n1[..k + 1][k];
      assert n0[..k] == n0[..k + 1][..k] && n1[..k] == n1[..k + 1][..k];
      SameMatch(n0, n1, k - 1, s.below, newline);
    }
  }

  /** The indenter's depth is the number of open nodes around the next one. */
  lemma {:induction false} LevelsEnclosing(nodes: seq<Node>, k: int, s: Stack, newline: Str)
    requires -1 <= k < |nodes| && Match(nodes, k, s, newline)
    ensures Levels(nodes, k) == Enclosing(s)
  {
    if s.Push? {
      LevelsEnclosing(nodes, k - 1, s.below, newline);
    }
  }

  lemma {:induction false} MatchDepth(nodes: seq<Node>, k: int, s: Stack, newline: Str)
    requires Match(nodes, k, s, newline)
    ensures k == Depth(s) - 1
  {
    hide NodeMatches;
    if s.Push? {
      MatchDepth(nodes, k - 1, s.below, newline);
    }
  }

  lemma InnerTold(nodes: seq<Node>, k: int, s: Stack, newline: Str)
    requires Inner(nodes, k, s, newline)
    ensures s.Push? ==> s.top.entered
    ensures s.Push? && s.top.told.Some? ==> s.top.told.value <= |s.top.kids|
  {
  }

  lemma MatchTold(nodes: seq<Node>, k: int, s: Stack, newline: Str)
    requires s.Push? && s.top.entered && Match(nodes, k, s, newline)
    ensures Match(nodes, k, s.(top := Told(s.top)), newline)
  {
    hide HeadOf, StartKind;
  }

  /** What the innermost slot says about the innermost open node. */
  lemma MatchTop(nodes: seq<Node>, k: int, s: Stack, newline: Str)
    requires Match(nodes, k, s, newline)
    ensures s.Bottom? <==> k < 0
    ensures s.Push? ==> 0 <= k < |nodes| && NodeMatches(nodes[k], s.top, newline)
    ensures s.Push? ==> HeadKind(s.top.head) == nodes[k].kind
    ensures s.Push? ==> (s.top.entered <==> nodes[k].state == StateOpened)
    ensures s.Push? && !s.top.entered ==> s.top.kids == [] && s.top.told == None
    ensures s.Push? && s.top.told.Some? ==> s.top.told.value <= |s.top.kids|
    ensures s.Push? ==> Inner(nodes, k - 1, s.below, newline)
    ensures s.Push? && s.below.Push? ==> s.below.top.entered
  {
    if s.Push? {
      HeadKindOf(s.top.start, newline);
    }
  }

  lemma TopKindOk(nodes: seq<Node>, k: nat)
    requires NodesOk(nodes, k)
    ensures k < |nodes| && nodes[k].kind == StartKind(nodes[k].start) && nodes[k].state != StateEnded
  {
  }

  /** A finished child of the innermost node. */
  lemma MatchAttach(nodes: seq<Node>, k: int, s: Stack, t: Tree, newline: Str)
    requires s.Push? && s.top.entered && Match(nodes, k, s, newline) && nodes[k].children > 0
    ensures Match(nodes, k, s.(top := s.top.(kids := s.top.kids + [t])), newline)
  {
    hide HeadOf, StartKind;
  }

  lemma AttachMatch(nodes: seq<Node>, k: int, z: Zip, t: Tree, newline: Str)
    requires Match(nodes, k, z.stack, newline)
    requires z.stack.Push? ==> z.stack.top.entered && 0 <= k < |nodes| && nodes[k].children > 0
    ensures Match(nodes, k, Attach(z, t).stack, newline)
  {
    hide NodeMatches;
    if z.stack.Push? {
      MatchAttach(nodes, k, z.stack, t, newline);
    }
  }

  /** Only the innermost slot differs. */
  lemma SetTop(nodes: seq<Node>, k: nat, n: Node, s: Stack, newline: Str)
    requires k < |nodes|
    ensures AllOpened(nodes[k := n], k - 1) == AllOpened(nodes, k - 1)
    ensures Levels(nodes[k := n], k - 1) == Levels(nodes, k - 1)
    ensures Inner(nodes[k := n], k - 1, s, newline) == Inner(nodes, k - 1, s, newline)
  {
    assert nodes[k := n][..k] == nodes[..k];
    SamePrefix(nodes, nodes[k := n], k - 1);
    SameMatch(nodes, nodes[k := n], k - 1, s, newline);
  }

  /** Slot `k` gets other namespaces. */
  lemma SetNamespaces(nodes: seq<Node>, k: nat, nss: seq<Ns>)
    requires k < |nodes|
    ensures var n' := nodes[k := nodes[k].(namespaces := nss)];
      NodesOk(n', k) == NodesOk(nodes, k) && Levels(n', k) == Levels(nodes, k)
  {
    SetTop(nodes, k, nodes[k].(namespaces := nss), Bottom, []);
  }

  lemma MatchNamespaces(nodes: seq<Node>, k: nat, nss: seq<Ns>, s: Stack, atts: seq<Att>, tagged: bool, newline: Str)
    requires s.Push? && Match(nodes, k, s, newline)
    ensures Match(nodes[k := nodes[k].(namespaces := nss)], k,
      Push(s.below, s.top.(atts := atts, nss := nss, tagged := tagged)), newline)
  {
    hide HeadOf, StartKind;
    SetTop(nodes, k, nodes[k].(namespaces := nss), s.below, newline);
  }

  /** Slot `k` after node.opened has set its state and marked its namespaces. */
  function EnteredNode(n: Node): Node {
    n.(state := StateOpened, namespaces := if n.start.ElemStart? then Declared(n.namespaces) else n.namespaces)
  }

  /** Slot `k` counts one more child. */
  function CountChild(nodes: seq<Node>, k: int): seq<Node> {
    if 0 <= k < |nodes| then nodes[k := nodes[k].(children := nodes[k].children + 1)] else nodes
  }

  lemma AddChild(nodes: seq<Node>, k: nat)
    requires k < |nodes|
    ensures NodesOk(CountChild(nodes, k), k) == NodesOk(nodes, k) && Levels(CountChild(nodes, k), k) == Levels(nodes, k)
  {
    SetTop(nodes, k, nodes[k].(children := nodes[k].children + 1), Bottom, []);
  }

  lemma MatchChild(nodes: seq<Node>, k: nat, s: Stack, newline: Str)
    requires k < |nodes| && Match(nodes, k, s, newline)
    ensures Match(CountChild(nodes, k), k, s, newline)
  {
    hide HeadOf, StartKind;
    if s.Push? {
      SetTop(nodes, k, nodes[k].(children := nodes[k].children + 1), s.below, newline);
    }
  }

  lemma SetOpened(nodes: seq<Node>, k: nat, nss: seq<Ns>)
    requires k < |nodes| && NodesOk(nodes, k) && nodes[k].state == StateOpen
    ensures var n' := nodes[k := nodes[k].(state := StateOpened, namespaces := nss)];
      && NodesOk(n', k)
      && Levels(n', k) == Levels(nodes, k) + (if Indenting(nodes[k].kind) then 1 else 0)
  {
    SetTop(nodes, k, nodes[k].(state := StateOpened, namespaces := nss), Bottom, []);
  }

  lemma MatchEntered(nodes: seq<Node>, k: nat, s: Stack, newline: Str)
    requires s.Push? && Match(nodes, k, s, newline) && !s.top.entered
    ensures Match(nodes[k := EnteredNode(nodes[k])], k, Push(s.below, Opened(s.top)), newline)
  {
    hide StartKind;
    SetTop(nodes, k, EnteredNode(nodes[k]), s.below, newline);
  }

  /** At most the namespaces of slot `k` differ. */
  predicate Retagged(n0: seq<Node>, n1: seq<Node>, k: int) {
    n1 == n0 ||
    (0 <= k < |n0| && |n1| == |n0| && n1 == n0[k := n0[k].(namespaces := n1[k].namespaces)])
  }

  /** The namespaces of slot `k` after an attribute; `good` says whether its name was accepted. */
  predicate Tagged(n0: seq<Node>, n1: seq<Node>, k: int, a: Attr, ok: bool, good: bool) {
    if k < 0 || k >= |n0| then n1 == n0 && (ok <==> good)
    else
      match AddNs(n0[k].namespaces, a)
      case None => !ok && n1 == n0
      case Some(nss) => (ok <==> good) && n1 == n0[k := n0[k].(namespaces := nss)]
  }

  // ---------------------------------------------------------------- pointers into the slice

  /** What a pointer sees: an array that append has left behind stays as it was. */
  function Load(nodes: seq<Node>, retired: seq<seq<Node>>, p: Pointer): Node {
    if p.array_ < |retired| then
      if p.index < |retired[p.array_]| then retired[p.array_][p.index] else CLEARED
    else if p.index < |nodes| then nodes[p.index] else CLEARED
  }

  /** The slots below `k` are untouched, also as seen through older pointers. */
  predicate Keeps(n0: seq<Node>, r0: seq<seq<Node>>, n1: seq<Node>, r1: seq<seq<Node>>, k: nat) {
    && r0 <= r1 && k <= |n0| <= |n1| && n1[..k] == n0[..k]
    && (|r1| > |r0| ==> k <= |r1[|r0|]| && r1[|r0|][..k] == n0[..k])
  }

  /** The slots up to `k` are the same. */
  predicate SameTo(n0: seq<Node>, n1: seq<Node>, k: int) {
    -1 <= k < |n0| && k < |n1| && n0[..k + 1] == n1[..k + 1]
  }

  lemma SameRefl(nodes: seq<Node>, k: int)
    requires -1 <= k < |nodes|
    ensures SameTo(nodes, nodes, k)
  {
  }

  lemma SameBelow(n0: seq<Node>, n1: seq<Node>, r1: seq<seq<Node>>, n2: seq<Node>, r2: seq<seq<Node>>, k: int)
    requires SameTo(n0, n1, k + 1) && -1 <= k && Keeps(n1, r1, n2, r2, k + 1)
    ensures SameTo(n0, n2, k)
  {
    assert n0[..k + 2][..k + 1] == n0[..k + 1] && n1[..k + 2][..k + 1] == n1[..k + 1];
  }

  lemma FullBelow(n0: seq<Node>, n1: seq<Node>, r1: seq<seq<Node>>, n2: seq<Node>, r2: seq<seq<Node>>, k: int)
    requires -1 <= k && k + 1 < |n0| && n1 == MarkFull(n0, k + 1) && Keeps(n1, r1, n2, r2, k + 1)
    ensures SameTo(n0, n2, k)
  {
  }

  /** Up to `n` more children. */
  predicate Later(a: Node, b: Node, n: nat) {
    b == a.(children := b.children) && a.children <= b.children <= a.children + n
  }

  /** The slots below `k` are untouched, and slot `k` counts `n` more children. */
  predicate KeepsTop(n0: seq<Node>, r0: seq<seq<Node>>, n1: seq<Node>, r1: seq<seq<Node>>, k: nat, n: nat) {
    && Keeps(n0, r0, n1, r1, k) && k < |n0| && k < |n1| && n1[k] == n0[k].(children := n0[k].children + n)
    && (|r1| > |r0| ==> k < |r1[|r0|]| && Later(n0[k], r1[|r0|][k], n))
  }

  /** `n` items have been written into the opened slot `k`. A pointer taken before sees a new child,
      unless the first item was itself put on the stack and moved the slice for that. */
  predicate Counted(n0: seq<Node>, r0: seq<seq<Node>>, cap0: nat, n1: seq<Node>, r1: seq<seq<Node>>, k: nat,
    start: bool,
                    n: nat) {
    && KeepsTop(n0, r0, n1, r1, k, n) && n > 0
    && (if start && k + 1 == cap0 then |r1| > |r0| && r1[|r0|][k].children == n0[k].children
        else Load(n1, r1, Pointer(|r0|, k)).children > 0)
  }

  lemma CountedThen(n0: seq<Node>, r0: seq<seq<Node>>, cap0: nat, n1: seq<Node>, r1: seq<seq<Node>>,
                    n2: seq<Node>, r2: seq<seq<Node>>, k: nat, start: bool, n: nat, m: nat)
    requires Counted(n0, r0, cap0, n1, r1, k, start, n) && KeepsTop(n1, r1, n2, r2, k, m)
    ensures Counted(n0, r0, cap0, n2, r2, k, start, n + m)
  {
  }

  function FreshNode(v: Startable): Node {
    Node(0, StateOpen, StartKind(v), v, [], v.ElemStart? && v.elem.full)
  }

  function EnteredSlots(nodes: seq<Node>, k: int): seq<Node> {
    if 0 <= k < |nodes| then nodes[k := EnteredNode(nodes[k])] else nodes
  }

  /** A list of items has been written into the opened slot `k`. */
  predicate Wrote(n0: seq<Node>, r0: seq<seq<Node>>, cap0: nat, n1: seq<Node>, r1: seq<seq<Node>>, k: int,
    items: seq<Writable>) {
    && 0 <= k < |n0|
    && (if items == [] then n1 == n0 && r1 == r0 else Counted(n0, r0, cap0, n1, r1, k, items[0].WStart?, |items|))
  }

  lemma WroteOpened(nodes: seq<Node>, r0: seq<seq<Node>>, cap0: nat, n1: seq<Node>, r1: seq<seq<Node>>, k: nat,
                    items: seq<Writable>)
    requires k < |nodes| && Wrote(EnteredSlots(nodes, k), r0, cap0, n1, r1, k, items)
    ensures k < |nodes| <= |n1| && n1[k].state == StateOpened && n1[k].children == nodes[k].children + |items|
    ensures Keeps(nodes, r0, n1, r1, k)
    ensures n1[k].start == nodes[k].start && n1[k].full == nodes[k].full
  {
    hide Declared;
    var n0 := EnteredSlots(nodes, k);
    assert n0[..k] == nodes[..k];
  }

  /** The children of a node after one more has been written into it: if it was not opened yet, it also has those
      it was given. */
  function WithChild(n: Node): nat {
    n.children + 1 + (if n.state == StateOpen then |Pending(n.start)| else 0)
  }

  /** One more child has been written into slot `k`, and the slots below it are untouched. */
  predicate OneMore(n0: seq<Node>, n1: seq<Node>, k: int) {
    k < 0 || (k < |n0| && k < |n1| && n1[..k] == n0[..k] && n1[k].children == WithChild(n0[k]))
  }

  lemma OneMoreOpened(n0: seq<Node>, r0: seq<seq<Node>>, cap0: nat, n1: seq<Node>, r1: seq<seq<Node>>, k: nat)
    requires k < |n0| && n0[k].state == StateOpen
    requires Wrote(EnteredSlots(CountChild(n0, k), k), r0, cap0, n1, r1, k, Pending(n0[k].start))
    ensures OneMore(n0, n1, k)
  {
    hide Declared, Pending;
    WroteOpened(CountChild(n0, k), r0, cap0, n1, r1, k, Pending(n0[k].start));
    assert CountChild(n0, k)[..k] == n0[..k];
  }

  /** A node has been put on top, and its start tag written. */
  lemma OneMoreStarted(n0: seq<Node>, n1: seq<Node>, n2: seq<Node>, k: int, v: Startable)
    requires OneMore(n0, n1, k) && -1 <= k && k + 1 < |n1| && Retagged(n1[k + 1 := FreshNode(v)], n2, k + 1)
    ensures OneMore(n0, n2, k) && k + 1 < |n2| && n2[k + 1].children == 0
  {
    hide WithChild;
    if k >= 0 {
      assert n2[..k] == n1[..k];
    }
  }

  lemma OneMoreReserved(n0: seq<Node>, n1: seq<Node>, n2: seq<Node>, k: int)
    requires k < |n0| && (n1 == n0 || n1 == n0 + [CLEARED]) && OneMore(n1, n2, k)
    ensures OneMore(n0, n2, k)
  {
    hide WithChild;
    if k >= 0 {
      assert n1[..k] == n0[..k];
    }
  }

  lemma OneMoreKept(n0: seq<Node>, n1: seq<Node>, r1: seq<seq<Node>>, n2: seq<Node>, r2: seq<seq<Node>>, k: int)
    requires OneMore(n0, n1, k) && -1 <= k && Keeps(n1, r1, n2, r2, k + 1)
    ensures OneMore(n0, n2, k)
  {
    hide WithChild;
    if k >= 0 {
      assert n2[..k + 1][k] == n1[..k + 1][k];
      assert n1[..k] == n1[..k + 1][..k] && n2[..k] == n2[..k + 1][..k];
    }
  }

  /** Slot `k` counts `i` more children. */
  predicate Counting(n0: seq<Node>, n1: seq<Node>, k: int, i: nat) {
    0 <= k < |n0| && n1 == n0[k := n0[k].(children := n0[k].children + i)]
  }

  /** One more item of a content list. */
  lemma WroteNext(n0: seq<Node>, r0: seq<seq<Node>>, cap0: nat, n1: seq<Node>, r1: seq<seq<Node>>, cap1: nat,
                  n2: seq<Node>, r2: seq<seq<Node>>, k: int, items: seq<Writable>, i: nat)
    requires i < |items| && 0 <= k < |n0|
    requires i == 0 ==> n1 == n0 && r1 == r0 && cap1 == cap0
    requires i > 0 ==> Counted(n0, r0, cap0, n1, r1, k, items[0].WStart?, i)
    requires Counted(n1, r1, cap1, n2, r2, k, items[i].WStart?, 1)
    ensures Counted(n0, r0, cap0, n2, r2, k, items[0].WStart?, i + 1)
  {
    if i > 0 {
      CountedThen(n0, r0, cap0, n1, r1, n2, r2, k, items[0].WStart?, i, 1);
    }
  }

  lemma CountedOpened(n0: seq<Node>, r0: seq<seq<Node>>, cap0: nat, n1: seq<Node>, r1: seq<seq<Node>>, k: nat,
    start: bool)
    requires Counted(n0, r0, cap0, n1, r1, k, start, 1)
    ensures k < |n0| <= |n1| && n1[k].state == n0[k].state
  {
  }

  lemma CountingWrote(n0: seq<Node>, r0: seq<seq<Node>>, cap0: nat, n1: seq<Node>, k: int, items: seq<Writable>)
    requires Counting(n0, n1, k, |items|) && forall w | w in items :: w.WLeaf?
    ensures Wrote(n0, r0, cap0, n1, r0, k, items)
  {
    if items != [] {
      assert items[0] in items;
    }
  }

  lemma ChildCounted(n0: seq<Node>, r0: seq<seq<Node>>, cap0: nat, k: int)
    requires 0 <= k < |n0|
    ensures Counted(n0, r0, cap0, CountChild(n0, k), r0, k, false, 1)
  {
  }

  /** A node put on top of an opened one. */
  lemma PushOk(nodes: seq<Node>, k: int, v: Startable)
    requires -1 <= k && k + 1 < |nodes| && NodesOk(nodes, k)
    requires k >= 0 ==> nodes[k].state == StateOpened && nodes[k].children > 0
    ensures var n1 := nodes[k + 1 := FreshNode(v)];
      NodesOk(n1, k + 1) && Levels(n1, k + 1) == Levels(nodes, k)
  {
    SetTop(nodes, k + 1, FreshNode(v), Bottom, []);
  }

  lemma PushInner(nodes: seq<Node>, k: int, v: Startable, s: Stack, newline: Str)
    requires -1 <= k && k + 1 < |nodes| && Match(nodes, k, s, newline)
    requires k >= 0 ==> nodes[k].state == StateOpened && nodes[k].children > 0
    ensures Inner(nodes, k, s, newline)
    ensures Inner(nodes[k + 1 := FreshNode(v)], k, s, newline)
  {
    MatchTop(nodes, k, s, newline);
    SetTop(nodes, k + 1, FreshNode(v), s, newline);
  }

  lemma Extended(nodes: seq<Node>, k: int, s: Stack, newline: Str)
    requires -1 <= k < |nodes|
    ensures NodesOk(nodes + [CLEARED], k) == NodesOk(nodes, k) && Levels(nodes + [CLEARED], k) == Levels(nodes, k)
    ensures Match(nodes + [CLEARED], k, s, newline) == Match(nodes, k, s, newline)
  {
    assert (nodes + [CLEARED])[..k + 1] == nodes[..k + 1];
    SamePrefix(nodes, nodes + [CLEARED], k);
    SameMatch(nodes, nodes + [CLEARED], k, s, newline);
  }

  /** Room has been made above the opened slot `k`, which then counted a child. */
  predicate Begun(n0: seq<Node>, r0: seq<seq<Node>>, cap0: nat, n1: seq<Node>, r1: seq<seq<Node>>, k: int) {
    && 0 <= k < |n0| <= cap0
    && ((n1 == CountChild(n0, k) && |n0| > k + 1 && r1 == r0) ||
        (n1 == CountChild(n0 + [CLEARED], k) && |n0| == k + 1 && r1 == if k + 1 == cap0 then r0 + [n0] else r0))
  }

  /** What the slice looks like after a node has been put on top of the opened slot `k`. */
  lemma StartCounted(n0: seq<Node>, r0: seq<seq<Node>>, cap0: nat, n1: seq<Node>, r1: seq<seq<Node>>,
                     n2: seq<Node>, n3: seq<Node>, k: int, v: Startable)
    requires Begun(n0, r0, cap0, n1, r1, k) && k + 1 < |n1|
    requires n2 == n1[k + 1 := FreshNode(v)] && Retagged(n2, n3, k + 1)
    ensures Counted(n0, r0, cap0, n3, r1, k, true, 1)
  {
  }

  lemma KeepsBelow(n0: seq<Node>, r0: seq<seq<Node>>, n1: seq<Node>, r1: seq<seq<Node>>, k: nat)
    requires Keeps(n0, r0, n1, r1, k + 1)
    ensures KeepsTop(n0, r0, n1, r1, k, 0)
  {
    assert n1[..k + 1][k] == n0[..k + 1][k];
    assert n0[..k] == n0[..k + 1][..k] && n1[..k] == n1[..k + 1][..k];
    if |r1| > |r0| {
      var r := r1[|r0|];
      assert r[..k + 1][k] == n0[..k + 1][k] && r[..k] == r[..k + 1][..k];
    }
  }

  /** The pointer sees slot `k`, or an older copy of it. */
  predicate PointsTo(nodes: seq<Node>, retired: seq<seq<Node>>, p: Pointer, k: int) {
    && p.index == k && 0 <= k < |nodes| && p.array_ <= |retired|
    && (p.array_ < |retired| ==> k < |retired[p.array_]|)
    && var m := Load(nodes, retired, p);
       m.start == nodes[k].start && m.kind == nodes[k].kind && m.full == nodes[k].full
  }

  /** The state that node.end stores through its pointer. */
  predicate StoredEnd(n0: seq<Node>, r0: seq<seq<Node>>, n1: seq<Node>, r1: seq<seq<Node>>, p: Pointer) {
    if p.array_ < |r0| then
      n1 == n0 && p.index < |r0[p.array_]| &&
      r1 == r0[p.array_ := r0[p.array_][p.index := r0[p.array_][p.index].(state := StateEnded)]]
    else r1 == r0 && p.index < |n0| && n1 == n0[p.index := n0[p.index].(state := StateEnded)]
  }

  /** Taking away the innermost slot. */
  lemma PopOk(nodes: seq<Node>, k: nat)
    requires k < |nodes| && NodesOk(nodes, k)
    ensures NodesOk(nodes, k - 1)
    ensures nodes[k].state == StateOpened ==>
      Levels(nodes, k) == Levels(nodes, k - 1) + if Indenting(nodes[k].kind) then 1 else 0
    ensures k > 0 ==> nodes[k - 1].state == StateOpened
    ensures AllOpened(nodes, k - 1)
  {
  }

  lemma InnerAttach(nodes: seq<Node>, k: int, z: Zip, t: Tree, newline: Str)
    requires Inner(nodes, k, z.stack, newline)
    ensures Match(nodes, k, Attach(z, t).stack, newline)
  {
    hide Attach;
    MatchTop(nodes, k, z.stack, newline);
    AttachMatch(nodes, k, z, t, newline);
  }

  /** Whatever slot `k` becomes, the slots below it are still a stack. */
  lemma DropTop(nodes: seq<Node>, k: nat, n: Node, s: Stack, newline: Str)
    requires k < |nodes| && AllOpened(nodes, k - 1)
    ensures NodesOk(nodes, k - 1) && NodesOk(nodes[k := n], k - 1)
    ensures Match(nodes[k := n], k - 1, s, newline) == Match(nodes, k - 1, s, newline)
    ensures k > 0 ==> nodes[k - 1].state == StateOpened
  {
    assert nodes[k := n][..k] == nodes[..k];
    SamePrefix(nodes, nodes[k := n], k - 1);
    SameMatch(nodes, nodes[k := n], k - 1, s, newline);
  }

  // ---------------------------------------------------------------- ends

  /** The end methods of the node kinds, for a node that was in state `prev`. */
  function EndText(n: Node, prev: NodeState): Str {
    match n.start
    case Comment(_) => "-->"
    case CData(_) => "]]>"
    case Doc(_) => []
    case DTD(_, _, _) => if n.children > 0 then "]>" else ">"
    case DTDAttList(_, _) => ">"
    case ElemStart(e) =>
      if prev != StateOpen || n.full || n.children > 0 then "</" + FullName(e.prefix, e.name) + ">" else []
  }

  lemma EndTextOpened(n: Node, f: Frame, newline: Str)
    requires NodeMatches(n, f, newline) && f.kids != []
    ensures EndText(n, StateOpened) == EndBytes(f.head, true, f.full)
  {
  }

  /** The end of a node whose content was written just before. It is lost exactly when the pointer
      of node.end is stale. */
  lemma EndTextFresh(m: Node, f: Frame, kids: bool, i: nat, cap: nat, newline: Str)
    requires m.start == f.start && m.full == f.full && f.head == HeadOf(f.start, newline)
    requires kids <==> Pending(f.start) != []
    requires m.children > 0 <==> kids && !(Pending(f.start)[0].WStart? && i + 1 == cap)
    ensures EndText(m, StateOpen) == if Stale(f, i, cap) && !f.full then [] else EndBytes(f.head, kids, f.full)
    ensures m.children == 0 <==> !kids || Stale(f, i, cap)
    ensures Stale(f, i, cap) ==> f.head.HElem?
  {
  }

  lemma WroteKind(nodes: seq<Node>, r0: seq<seq<Node>>, cap0: nat, n1: seq<Node>, r1: seq<seq<Node>>, k: nat,
                  items: seq<Writable>)
    requires k < |nodes| && Wrote(EnteredSlots(nodes, k), r0, cap0, n1, r1, k, items)
    ensures k < |n1| && n1[k].kind == nodes[k].kind
    ensures Load(n1, r1, Pointer(|r0|, k)).kind == nodes[k].kind && Load(n1, r1, Pointer(|r0|, k)).state == StateOpened
  {
    hide Declared;
  }

  /** What a pointer taken before node.opened sees after it. */
  lemma WrotePoints(nodes: seq<Node>, r0: seq<seq<Node>>, cap0: nat, n1: seq<Node>, r1: seq<seq<Node>>, k: nat,
                    items: seq<Writable>)
    requires k < |nodes| && nodes[k].children == 0 && Wrote(EnteredSlots(nodes, k), r0, cap0, n1, r1, k, items)
    ensures PointsTo(n1, r1, Pointer(|r0|, k), k) && Keeps(nodes, r0, n1, r1, k)
    ensures n1[k].state == StateOpened && n1[k].start == nodes[k].start && n1[k].full == nodes[k].full
    ensures Load(n1, r1, Pointer(|r0|, k)).start == nodes[k].start &&
      Load(n1, r1, Pointer(|r0|, k)).full == nodes[k].full
    ensures Load(n1, r1, Pointer(|r0|, k)).children > 0 <==> items != [] && !(items[0].WStart? && k + 1 == cap0)
  {
    hide Declared;
    WroteOpened(nodes, r0, cap0, n1, r1, k, items);
  }

  lemma PointsHere(nodes: seq<Node>, retired: seq<seq<Node>>, k: nat)
    requires k < |nodes|
    ensures PointsTo(nodes, retired, Pointer(|retired|, k), k) &&
      Load(nodes, retired, Pointer(|retired|, k)) == nodes[k]
  {
  }

  lemma StoredKeeps(n0: seq<Node>, r0: seq<seq<Node>>, n1: seq<Node>, r1: seq<seq<Node>>,
                    n2: seq<Node>, r2: seq<seq<Node>>, p: Pointer)
    requires p.array_ == |r0| && Keeps(n0, r0, n1, r1, p.index) && StoredEnd(n1, r1, n2, r2, p)
    ensures Keeps(n0, r0, n2, r2, p.index)
  {
  }

  function MarkFull(nodes: seq<Node>, k: int): seq<Node> {
    if 0 <= k < |nodes| then nodes[k := nodes[k].(full := true)] else nodes
  }

  lemma MarkedFull(nodes: seq<Node>, k: nat)
    requires k < |nodes|
    ensures NodesOk(MarkFull(nodes, k), k) == NodesOk(nodes, k) && Levels(MarkFull(nodes, k), k) == Levels(nodes, k)
  {
    SetTop(nodes, k, nodes[k].(full := true), Bottom, []);
  }

  lemma MatchFull(nodes: seq<Node>, k: nat, z: Zip, newline: Str)
    requires k < |nodes| && Match(nodes, k, z.stack, newline)
    ensures Match(MarkFull(nodes, k), k, SetFull(z).stack, newline)
  {
    hide HeadOf, StartKind;
    if z.stack.Push? {
      SetTop(nodes, k, nodes[k].(full := true), z.stack.below, newline);
    }
  }
}
