/** How many children each slot of the node slice has counted: with it, the slots are a function of the document. */
module Tally {
  import opened Bytes
  import opened Nodes
  import opened Document
  import opened Trees
  import opened TreeProofs
  import opened NodeSlice

  /** Every slot up to `k` has counted the children of its node; a child that is still open counts too. */
  predicate Tallied(nodes: seq<Node>, k: int, s: Stack) {
    s.Push? ==> 0 <= k < |nodes| && nodes[k].children == |s.top.kids| && TalliedBelow(nodes, k - 1, s.below)
  }

  predicate TalliedBelow(nodes: seq<Node>, k: int, s: Stack) {
    s.Push? ==> 0 <= k < |nodes| && nodes[k].children == |s.top.kids| + 1 && TalliedBelow(nodes, k - 1, s.below)
  }

  function SlotOf(f: Frame, children: nat): Node {
    Node(children, if f.entered then StateOpened else StateOpen, StartKind(f.start), f.start, f.nss, f.full)
  }

  /** The slots of the open nodes of a document. */
  function SlotsOf(s: Stack): seq<Node> {
    if s.Bottom? then [] else SlotsBelow(s.below) + [SlotOf(s.top, |s.top.kids|)]
  }

  function SlotsBelow(s: Stack): seq<Node> {
    if s.Bottom? then [] else SlotsBelow(s.below) + [SlotOf(s.top, |s.top.kids| + 1)]
  }

  /** The node slice of a writer is determined by its document. */
  lemma SlotsDetermined(nodes: seq<Node>, k: int, s: Stack, newline: Str)
    requires -1 <= k < |nodes| && Match(nodes, k, s, newline) && Tallied(nodes, k, s)
    ensures nodes[..k + 1] == SlotsOf(s)
  {
    hide HeadOf, StartKind;
    if s.Push? {
      SlotsBelowDetermined(nodes, k - 1, s.below, newline);
      assert nodes[..k + 1] == nodes[..k] + [nodes[k]];
    }
  }

  lemma {:induction false} SlotsBelowDetermined(nodes: seq<Node>, k: int, s: Stack, newline: Str)
    requires -1 <= k < |nodes| && Inner(nodes, k, s, newline) && TalliedBelow(nodes, k, s)
    ensures nodes[..k + 1] == SlotsBelow(s)
  {
    hide HeadOf, StartKind;
    if s.Push? {
      SlotsBelowDetermined(nodes, k - 1, s.below, newline);
      assert nodes[..k + 1] == nodes[..k] + [nodes[k]];
    }
  }

  lemma {:induction false} SameTally(n0: seq<Node>, n1: seq<Node>, k: int, s: Stack)
    requires SameTo(n0, n1, k)
    ensures TalliedBelow(n0, k, s) ==> TalliedBelow(n1, k, s)
    ensures Tallied(n0, k, s) ==> Tallied(n1, k, s)
  {
    if s.Push? && k >= 0 {
      assert n0[..k + 1][k] == n1[..k + 1][k];
      assert n0[..k] == n0[..k + 1][..k] && n1[..k] == n1[..k + 1][..k];
      SameTally(n0, n1, k - 1, s.below);
    }
  }

  lemma AttachTally(nodes: seq<Node>, k: int, z: Zip, t: Tree)
    requires TalliedBelow(nodes, k, z.stack)
    ensures Tallied(nodes, k, Attach(z, t).stack)
  {
  }

  /** The node opened has the children it was given. */
  lemma OpenTopCount(z: Zip, cap: nat, cfg: Config, grow: Growth)
    requires z.stack.Push? && !z.stack.top.entered && z.stack.top.kids == [] && OpenTopOk(z, cfg)
    ensures var z' := OpenTop(z, cap, cfg, grow).zip;
      z'.stack.Push? && z'.stack.below == z.stack.below && |z'.stack.top.kids| == |Pending(z.stack.top.start)|
  {
    hide ItemTrees, LeafTrees, ItemsOk, LeavesOk, DeclarationsOk, Undeclared, Pending;
    var v := z.stack.top.start;
    if v.ElemStart? {
      ItemsCount(v.elem.content, Depth(z.stack.below) + 1, cap, cfg, grow);
      PendingElem(v);
    } else {
      LeavesCount(Pending(v), cfg.enforce);
    }
  }

  /** One more child in the innermost node, which is opened for it. */
  lemma OpenTally(n0: seq<Node>, n1: seq<Node>, k: int, z: Zip, cap: nat, cfg: Config, grow: Growth)
    requires Match(n0, k, z.stack, cfg.newline) && Tallied(n0, k, z.stack) && OneMore(n0, n1, k) && OpenTopOk(z, cfg)
    ensures TalliedBelow(n1, k, OpenTop(z, cap, cfg, grow).zip.stack)
  {
    hide Match, OpenTop, OpenTopOk, Pending;
    MatchTop(n0, k, z.stack, cfg.newline);
    OpenTopEntered(z, cap, cfg, grow);
    if z.stack.Push? {
      SameTally(n0, n1, k - 1, z.stack.below);
      if !z.stack.top.entered {
        OpenTopCount(z, cap, cfg, grow);
      }
    }
  }

  lemma StartTally(n0: seq<Node>, n1: seq<Node>, k: int, z: Zip, cap: nat, v: Startable, cfg: Config, grow: Growth)
    requires Match(n0, k, z.stack, cfg.newline) && Tallied(n0, k, z.stack) && OneMore(n0, n1, k)
    requires -1 <= k && k + 1 < |n1| && n1[k + 1].children == 0 && StartCall(z, cap, v, cfg, grow).Done?
    ensures Tallied(n1, k + 1, StartCall(z, cap, v, cfg, grow).zip.stack)
  {
    hide Match, OpenTop, OpenTopOk, OneMore, Parents, StartTag;
    OpenTally(n0, n1, k, z, Pushed(Depth(z.stack), cap, grow), cfg, grow);
  }

  lemma LeafTally(n0: seq<Node>, n1: seq<Node>, k: int, z: Zip, cap: nat, l: Leaf, cfg: Config, grow: Growth)
    requires Match(n0, k, z.stack, cfg.newline) && Tallied(n0, k, z.stack) && OneMore(n0, n1, k)
    requires LeafCall(z, cap, l, cfg, grow).Done?
    ensures Tallied(n1, k, LeafCall(z, cap, l, cfg, grow).zip.stack)
  {
    hide Match, OpenTop, OpenTopOk, OneMore, Parents, LeafAccepted, LeafFinishes, Attach, Tallied;
    OpenTally(n0, n1, k, z, cap, cfg, grow);
    AttachTally(n1, k, OpenTop(z, cap, cfg, grow).zip, Leaf(l));
  }

  lemma CloseTally(nodes: seq<Node>, k: int, z: Zip, cap: nat, cfg: Config, grow: Growth)
    requires z.stack.Push? && Tallied(nodes, k, z.stack)
    ensures Tallied(nodes, k - 1, CloseTop(z, cap, cfg, grow).zip.stack)
  {
    hide Attach, CloseTop;
    var t := CloseOne(z, cap, cfg, grow);
    AttachTally(nodes, k - 1, Zip(z.done, z.stack.below), t);
  }

  lemma WriteTally(n0: seq<Node>, n1: seq<Node>, k: int, z: Zip, cap: nat, v: Startable, cfg: Config, grow: Growth)
    requires Match(n0, k, z.stack, cfg.newline) && Tallied(n0, k, z.stack) && OneMore(n0, n1, k)
    requires WriteCall(z, cap, v, cfg, grow).Done?
    ensures Tallied(n1, k, WriteCall(z, cap, v, cfg, grow).zip.stack)
  {
    hide Match, OpenTop, OpenTopOk, OneMore, Parents, StartTag, CloseTop, Tallied, Attach;
    OpenTally(n0, n1, k, z, Pushed(Depth(z.stack), cap, grow), cfg, grow);
    var o := StartCall(z, cap, v, cfg, grow);
    var t := CloseOne(o.zip, o.cap, cfg, grow);
    var below := OpenTop(z, Pushed(Depth(z.stack), cap, grow), cfg, grow).zip;
    assert Zip(o.zip.done, o.zip.stack.below) == below;
    AttachTally(n1, k, below, t);
  }

  lemma AttrTally(n0: seq<Node>, n1: seq<Node>, k: int, z: Zip, cap: nat, a: Attr, cfg: Config)
    requires Match(n0, k, z.stack, cfg.newline) && Tallied(n0, k, z.stack) && Retagged(n0, n1, k)
    requires AttrCall(z, cap, a, cfg).Done?
    ensures Tallied(n1, k, AttrCall(z, cap, a, cfg).zip.stack)
  {
    hide Match, AddNs, Parents, TalliedBelow;
    MatchTop(n0, k, z.stack, cfg.newline);
    if n1 != n0 {
      assert n0[..k] == n1[..k];
      SameTally(n0, n1, k - 1, z.stack.below);
    }
  }

  lemma FullTally(nodes: seq<Node>, k: int, z: Zip)
    ensures Tallied(nodes, k, SetFull(z).stack) == Tallied(nodes, k, z.stack)
  {
    hide TalliedBelow;
  }

  lemma {:induction false} CloseDownTally(nodes: seq<Node>, k: int, z: Zip, cap: nat, keep: nat, cfg: Config,
    grow: Growth)
    requires k == Depth(z.stack) - 1 && Tallied(nodes, k, z.stack)
    ensures var s := CloseDown(z, cap, keep, cfg, grow).zip.stack; Tallied(nodes, Depth(s) - 1, s)
    decreases Depth(z.stack)
  {
    hide CloseTop, Tallied;
    if Depth(z.stack) > keep {
      CloseShallower(z, cap, cfg, grow);
      CloseTally(nodes, k, z, cap, cfg, grow);
      var m := CloseTop(z, cap, cfg, grow);
      CloseDownTally(nodes, k - 1, m.zip, m.cap, keep, cfg, grow);
    }
  }
}
