/** Line ends (section 2.11 of XML 1.0) in the text of a forest: translating them in the text is translating them in
    what the text stands for. */
module Returns {
  import opened Bytes
  import opened Utf8
  import opened Check
  import opened Escape
  import opened EscapeProofs
  import opened Document
  import opened Reader
  import opened ReaderProofs
  import opened TreeReads
  import opened Exact

  // ---------------------------------------------------------------- strings that follow one another

  /** A line feed that comes next belongs to the carriage return before it. */
  function Carry(after: bool, s: Str): bool {
    if s == [] then after else s[|s| - 1] == '\r'
  }

  /** Line ends in a string; `after`: a carriage return stands before it. */
  function Fold(after: bool, s: Str): Str {
    LineEnds(if after && s != [] && s[0] == '\n' then s[1..] else s)
  }

  /** How many bytes the first character or line end takes. */
  function LineWidth(s: Str): (n: nat)
    requires s != []
    ensures 1 <= n <= |s|
  {
    if s[0] == '\r' && |s| > 1 && s[1] == '\n' then 2 else 1
  }

  lemma LineStep(s: Str)
    requires s != []
    ensures LineEnds(s) == [if s[0] == '\r' then '\n' else s[0]] + LineEnds(s[LineWidth(s)..])
  {
  }

  lemma AfterReturn(b: Str)
    ensures LineEnds("\r" + b) == ['\n'] + Fold(true, b)
  {
    LineStep("\r" + b);
    assert ("\r" + b)[1..] == b;
    assert b != [] ==> ("\r" + b)[2..] == b[1..] && ("\r" + b)[1] == b[0];
  }

  lemma {:induction false} LineEndsConcat(a: Str, b: Str)
    ensures LineEnds(a + b) == LineEnds(a) + Fold(Carry(false, a), b)
    decreases |a|
  {
    hide LineEnds, Fold;
    if a == [] {
      assert a + b == b && LineEnds([]) == [] by { NoReturns([]); }
      FoldFirst(b);
      assert [] + LineEnds(b) == LineEnds(b);
    } else if a == "\r" {
      AfterReturn(b);
      AfterReturn([]);
      assert "\r" + [] == "\r";
      FoldNone(true);
    } else {
      var n := LineWidth(a);
      LineStep(a);
      LineStep(a + b);
      assert (a + b)[n..] == a[n..] + b;
      LineEndsConcat(a[n..], b);
    }
  }

  lemma FoldFirst(s: Str)
    ensures Fold(false, s) == LineEnds(s)
  {
  }

  lemma FoldNone(after: bool)
    ensures Fold(after, []) == []
  {
  }

  lemma FoldConcat(after: bool, a: Str, b: Str)
    ensures Fold(after, a + b) == Fold(after, a) + Fold(Carry(after, a), b)
    ensures Carry(after, a + b) == Carry(Carry(after, a), b)
  {
    hide LineEnds;
    if a == [] {
      assert a + b == b && LineEnds([]) == [] by { NoReturns([]); }
      assert [] + Fold(after, b) == Fold(after, b);
    } else if after && a[0] == '\n' {
      assert (a + b)[1..] == a[1..] + b;
      LineEndsConcat(a[1..], b);
    } else {
      LineEndsConcat(a, b);
    }
    assert b == [] ==> a + b == a;
  }

  lemma FoldPlain(after: bool, a: Str)
    requires '\r' !in a && (a != [] ==> a[0] != '\n')
    ensures Fold(after, a) == a && (a != [] ==> !Carry(after, a))
  {
    NoReturns(a);
  }

  /** Markup around something keeps line ends apart. */
  lemma FoldWrap(after: bool, open: Str, body: Str, end: Str)
    requires '\r' !in open && open != [] && open[0] != '\n'
    requires '\r' !in end && (end != [] ==> end[0] != '\n')
    ensures Fold(after, open + body + end) == open + Fold(false, body) + end
    ensures Carry(after, open + body + end) == if end == [] then Carry(false, body) else false
  {
    hide Fold;
    FoldPlain(after, open);
    FoldConcat(after, open, body);
    FoldConcat(after, open + body, end);
    FoldPlain(Carry(after, open + body), end);
  }

  // ---------------------------------------------------------------- runes

  /** A rune ends before an ASCII byte, whichever. */
  lemma DecodeSame(a: Str, b: Str, k: nat)
    requires 0 < k <= |a| && k <= |b| && a[..k] == b[..k]
    requires k < |a| ==> a[k] as int < 0x80
    requires k < |b| ==> b[k] as int < 0x80
    ensures DecodeRune(a) == DecodeRune(b)
  {
    assert forall i | 0 <= i < k :: a[i] == a[..k][i] && b[i] == b[..k][i];
  }

  /** The part of a string before its first carriage return. */
  function Before(s: Str): (k: nat)
    ensures k <= |s| && (forall i | 0 <= i < k :: s[i] != '\r') && (k < |s| ==> s[k] == '\r')
  {
    if s == [] || s[0] == '\r' then 0 else 1 + Before(s[1..])
  }

  lemma BeforeStays(s: Str)
    ensures var k := Before(s);
      k <= |LineEnds(s)| && LineEnds(s)[..k] == s[..k] && (k < |LineEnds(s)| ==> LineEnds(s)[k] == '\n')
  {
    var k := Before(s);
    assert s == s[..k] + s[k..];
    assert '\r' !in s[..k];
    LineEndsSkip(s[..k], s[k..]);
  }

  /** The first rune and what follows it. */
  lemma FoldRune(after: bool, s: Str)
    requires s != [] && s[0] != '\r' && s[0] != '\n'
    ensures var w := DecodeRune(s).width;
      var s' := s[..w] + Fold(false, s[w..]);
      Fold(after, s) == s' && DecodeRune(s') == DecodeRune(s) && s'[w..] == Fold(false, s[w..]) && s'[..w] == s[..w]
  {
    hide DecodeRune, LineEnds;
    var w := DecodeRune(s).width;
    var r, t := s[..w], s[w..];
    assert s == r + t;
    assert '\r' !in r by {
      if DecodeRune(s).code < 0x80 {
        assert r == [s[0]];
      }
    }
    FoldConcat(after, r, t);
    FoldPlain(after, r);
    var k := Before(t);
    var u := LineEnds(t);
    BeforeStays(t);
    assert (r + u)[..w + k] == r + u[..k] && s[..w + k] == r + t[..k];
    DecodeSame(r + u, s, w + k);
  }

  /** The byte that starts a new line. */
  lemma FoldByte(after: bool, s: Str)
    requires s != [] && (s[0] == '\r' || s[0] == '\n')
    ensures DecodeRune(s).width == 1
    ensures Fold(after, s) ==
      if after && s[0] == '\n' then Fold(false, s[1..]) else ['\n'] + Fold(s[0] == '\r', s[1..])
    ensures Carry(after, s) == Carry(s[0] == '\r', s[1..])
  {
    hide LineEnds, Fold;
    FoldConcat(after, [s[0]], s[1..]);
    assert [s[0]] + s[1..] == s;
    OneLineEnd(after, s[0]);
    assert [] + Fold(false, s[1..]) == Fold(false, s[1..]);
  }

  lemma OneLineEnd(after: bool, b: byte)
    requires b == '\r' || b == '\n'
    ensures Fold(after, [b]) == if after && b == '\n' then [] else ['\n']
  {
    assert [b][1..] == [] && LineEnds([]) == [];
  }

  lemma FirstRune(s: Str, s': Str)
    requires s != [] && s' != [] && DecodeRune(s) == DecodeRune(s')
    requires s[..DecodeRune(s).width] == s'[..DecodeRune(s).width]
    ensures EscapedRune(s, false) == EscapedRune(s', false) && SaneRune(s) == SaneRune(s')
  {
    hide DecodeRune;
  }

  lemma FirstIsNoFeed(s: Str)
    requires s != [] && s[0] != '\r' && s[0] != '\n'
    ensures EscapedRune(s, false) != [] && EscapedRune(s, false)[0] != '\n'
    ensures SaneRune(s) != [] && SaneRune(s)[0] != '\n'
    ensures '\r' !in EscapedRune(s, false) && '\r' !in SaneRune(s)
  {
    hide EscapedRune, SaneRune;
    NoReturnInRune(s);
    LeadingLineFeed(s);
    if Special(s[0], false) {
      SpecialRune(s, false);
    } else {
      EscapedOrdinary(s, false);
      OrdinaryBytes(s, false);
    }
  }

  lemma FeedRune(s: Str)
    requires s != [] && s[0] == '\n'
    ensures EscapeMap(s, false) == ['\n'] + EscapeMap(s[1..], false) && Sanitise(s) == ['\n'] + Sanitise(s[1..])
  {
    ReturnRune(s);
  }

  /** Line ends can be handled before escaping or after it. */
  lemma {:induction false} FoldEscape(after: bool, s: Str)
    ensures Fold(after, EscapeMap(s, false)) == EscapeMap(Fold(after, s), false)
    ensures Carry(after, EscapeMap(s, false)) == Carry(after, s)
    decreases |s|
  {
    hide DecodeRune, EscapedRune, LineEnds, Fold;
    if s == [] {
      FoldPlain(after, []);
    } else {
      var w := DecodeRune(s).width;
      var t := s[w..];
      FoldConcat(after, EscapedRune(s, false), EscapeMap(t, false));
      if s[0] == '\r' || s[0] == '\n' {
        FoldByte(after, s);
        ReturnRune(s);
        OneLineEnd(after, s[0]);
        FoldEscape(s[0] == '\r', t);
        if !(after && s[0] == '\n') {
          FeedRune(['\n'] + Fold(s[0] == '\r', t));
          assert (['\n'] + Fold(s[0] == '\r', t))[1..] == Fold(s[0] == '\r', t);
        } else {
          assert [] + EscapeMap(Fold(false, t), false) == EscapeMap(Fold(false, t), false);
        }
      } else {
        FoldRune(after, s);
        FirstIsNoFeed(s);
        FoldPlain(after, EscapedRune(s, false));
        FoldEscape(false, t);
        var s' := s[..w] + Fold(false, t);
        FirstRune(s, s');
        assert Carry(after, s) == Carry(false, t);
      }
    }
  }

  /** And before replacing what XML cannot hold, or after it. */
  lemma {:induction false} FoldSanitise(after: bool, s: Str)
    ensures Fold(after, Sanitise(s)) == Sanitise(Fold(after, s))
    ensures Carry(after, Sanitise(s)) == Carry(after, s)
    decreases |s|
  {
    hide DecodeRune, SaneRune, LineEnds, Fold;
    if s == [] {
      FoldPlain(after, []);
    } else {
      var w := DecodeRune(s).width;
      var t := s[w..];
      FoldConcat(after, SaneRune(s), Sanitise(t));
      if s[0] == '\r' || s[0] == '\n' {
        FoldByte(after, s);
        ReturnRune(s);
        OneLineEnd(after, s[0]);
        FoldSanitise(s[0] == '\r', t);
        if !(after && s[0] == '\n') {
          FeedRune(['\n'] + Fold(s[0] == '\r', t));
          assert (['\n'] + Fold(s[0] == '\r', t))[1..] == Fold(s[0] == '\r', t);
        } else {
          assert [] + Sanitise(Fold(false, t)) == Sanitise(Fold(false, t));
        }
      } else {
        FoldRune(after, s);
        FirstIsNoFeed(s);
        FoldPlain(after, SaneRune(s));
        FoldSanitise(false, t);
        var s' := s[..w] + Fold(false, t);
        FirstRune(s, s');
        assert Carry(after, s) == Carry(false, t);
      }
    }
  }

  /** Line ends do not make text of what is none, nor the other way round. */
  lemma {:induction false} FoldIsTextIff(after: bool, s: Str)
    ensures IsText(Fold(after, s)) <==> IsText(s)
    decreases |s|
  {
    hide DecodeRune, LineEnds, Fold;
    if s == [] {
      FoldPlain(after, []);
    } else {
      var w := DecodeRune(s).width;
      var t := s[w..];
      if s[0] == '\r' || s[0] == '\n' {
        FoldByte(after, s);
        FoldIsTextIff(s[0] == '\r', t);
        var u := ['\n'] + Fold(s[0] == '\r', t);
        assert u[1..] == Fold(s[0] == '\r', t) && DecodeRune(u).width == 1;
      } else {
        FoldRune(after, s);
        FoldIsTextIff(false, t);
      }
    }
  }

  // ---------------------------------------------------------------- what a string holds

  predicate NoLineEnd(sub: Str) {
    '\r' !in sub && '\n' !in sub
  }

  lemma {:induction false} PrefixSame(s: Str, sub: Str)
    requires NoLineEnd(sub)
    ensures At(s, sub, 0) <==> At(LineEnds(s), sub, 0)
    decreases sub
  {
    if sub == [] {
      assert s[0..0] == [] && LineEnds(s)[0..0] == [];
    } else if s != [] {
      assert sub[0] in sub && forall b | b in sub[1..] :: b in sub;
      PrefixSame(s[1..], sub[1..]);
      PrefixSplits(s, sub);
      PrefixSplits(LineEnds(s), sub);
      if s[0] != '\r' {
        assert LineEnds(s)[1..] == LineEnds(s[1..]);
      }
    }
  }

  lemma PrefixSplits(s: Str, sub: Str)
    requires s != [] && sub != []
    ensures At(s, sub, 0) <==> s[0] == sub[0] && At(s[1..], sub[1..], 0)
  {
    if |sub| <= |s| {
      assert s[0..|sub|] == [s[0]] + s[1..][0..|sub| - 1] && sub == [sub[0]] + sub[1..];
      assert s[0..|sub|] == sub ==> s[0..|sub|][0] == sub[0] && s[0..|sub|][1..] == sub[1..];
    }
  }

  lemma ContainsTail(s: Str, sub: Str)
    requires s != []
    ensures Contains(s, sub) <==> At(s, sub, 0) || Contains(s[1..], sub)
  {
    if Contains(s, sub) && !At(s, sub, 0) {
      var i :| 0 <= i <= |s| && At(s, sub, i);
      AtTail(s, sub, i - 1);
    }
    if Contains(s[1..], sub) {
      var i :| 0 <= i <= |s[1..]| && At(s[1..], sub, i);
      AtTail(s, sub, i);
    }
  }

  lemma {:induction false} ContainsSame(s: Str, sub: Str)
    requires NoLineEnd(sub) && sub != []
    ensures Contains(LineEnds(s), sub) <==> Contains(s, sub)
    decreases |s|
  {
    hide Contains;
    if s != [] {
      PrefixSame(s, sub);
      ContainsTail(s, sub);
      ContainsTail(LineEnds(s), sub);
      var n := LineWidth(s);
      assert LineEnds(s)[1..] == LineEnds(s[n..]);
      ContainsSame(s[n..], sub);
      if n == 2 {
        ContainsTail(s[1..], sub);
        assert s[1..][1..] == s[2..];
        PrefixSplits(s[1..], sub);
        assert sub[0] in sub;
      }
    }
  }

  lemma {:induction false} LastSame(s: Str, b: byte)
    requires b != '\r' && b != '\n'
    ensures LineEnds(s) == [] <==> s == []
    ensures s != [] ==> (LineEnds(s)[|LineEnds(s)| - 1] == b <==> s[|s| - 1] == b)
    decreases |s|
  {
    if s != [] {
      var n := LineWidth(s);
      assert LineEnds(s) == [LineEnds(s)[0]] + LineEnds(s[n..]);
      LastSame(s[n..], b);
    }
  }

  lemma CommentSame(s: Str)
    ensures CommentBody(LineEnds(s)) <==> CommentBody(s)
  {
    hide Contains, LineEnds;
    ContainsSame(s, "--");
    LastSame(s, '-');
  }

  lemma {:induction false} SkipSpaceSame(s: Str)
    ensures SkipSpace(LineEnds(s)) == LineEnds(SkipSpace(s))
    decreases |s|
  {
    if s != [] && Escape.Space(s[0]) {
      var n := LineWidth(s);
      assert LineEnds(s)[1..] == LineEnds(s[n..]);
      assert n == 2 ==> SkipSpace(s[1..]) == SkipSpace(s[1..][1..]) && s[1..][1..] == s[2..];
      SkipSpaceSame(s[n..]);
    }
  }

  // ---------------------------------------------------------------- forests

  /** The forest with line ends for its carriage returns, where no escape keeps them. */
  function FoldTree(after: bool, t: Tree): Tree
    decreases t, 1
  {
    match t
    case Leaf(Text(s)) => Leaf(Text(Fold(after, s)))
    case Leaf(CommentContent(s)) => Leaf(CommentContent(Fold(after, s)))
    case Leaf(CDataContent(s)) => Leaf(CDataContent(Fold(after, s)))
    case Leaf(PI(target, content)) => Leaf(PI(target, LineEnds(content)))
    case Leaf(_) => t
    case Branch(h, atts, kids, full, made) => Branch(h, atts, FoldAll(false, kids), full, made)
  }

  function FoldAll(after: bool, ts: seq<Tree>): (r: seq<Tree>)
    ensures |r| == |ts|
    decreases ts, 0
  {
    if ts == [] then [] else [FoldTree(after, ts[0])] + FoldAll(CarryTree(after, ts[0]), ts[1..])
  }

  /** A carriage return ends the text of the tree. */
  function CarryTree(after: bool, t: Tree): bool
    decreases t, 1
  {
    match t
    case Leaf(Text(s)) => Carry(after, s)
    case Leaf(CommentContent(s)) => Carry(after, s)
    case Leaf(CDataContent(s)) => Carry(after, s)
    case Leaf(_) => false
    case Branch(_, _, kids, _, _) => Lost(t) && CarryAll(false, kids)
  }

  function CarryAll(after: bool, ts: seq<Tree>): bool
    decreases ts, 0
  {
    if ts == [] then after else CarryAll(CarryTree(after, ts[0]), ts[1..])
  }

  predicate Foldable(t: Tree) {
    Shaped(t) || (t.Leaf? && (t.leaf.CommentContent? || t.leaf.CDataContent?))
  }

  lemma {:induction false} ShapedFoldable(ts: seq<Tree>)
    requires AllShaped(ts)
    ensures forall t | t in ts :: Foldable(t)
  {
    hide Shaped;
    if ts != [] {
      ShapedFoldable(ts[1..]);
      assert forall t | t in ts :: t == ts[0] || t in ts[1..];
    }
  }

  lemma FoldLeaf(after: bool, l: Leaf)
    requires Foldable(Leaf(l))
    ensures Fold(after, LeafBytes(l)) == Render(FoldTree(after, Leaf(l)))
    ensures Carry(after, LeafBytes(l)) == CarryTree(after, Leaf(l))
  {
    hide EscapeMap, Fold, Carry, ValidName, Contains, IsXml;
    match l {
      case Text(s) => FoldEscape(after, s);
      case CommentContent(s) =>
      case CDataContent(s) =>
      case PI(target, content) =>
        NameHoldsNoReturn(target);
        var open := "<?" + target + " ";
        assert '\r' !in open;
        FoldWrap(after, open, content, "?>");
        assert Fold(false, content) == LineEnds(content) by { FoldFirst(content); }
    }
  }

  lemma TagHoldsNoReturn(t: Tree)
    requires Shaped(t) && t.Branch? && t.head.HElem?
    ensures '\r' !in OpenBytes(t.head, t.atts) + OpenedBytes(t.head, t.kids != [], t.full)
    ensures '\r' !in EndBytes(t.head, t.kids != [], t.full)
  {
    hide ValidName, AttsBytes, NamesOk, AllShaped;
    AttsHoldNoReturn(t.atts);
    NameHoldsNoReturn(t.head.name);
  }

  /** Line ends can be handled in the tree or in its text. */
  lemma {:induction false} FoldRender(after: bool, t: Tree)
    requires Foldable(t)
    ensures Fold(after, Render(t)) == Render(FoldTree(after, t))
    ensures Carry(after, Render(t)) == CarryTree(after, t)
    decreases t
  {
    hide Fold, Carry, LeafBytes, RenderAll, ValidName, NamesOk, AllShaped, AttsBytes, PIOk;
    if t.Leaf? {
      LeafText(t);
      FoldLeaf(after, t.leaf);
    } else {
      var open := OpenBytes(t.head, t.atts) + OpenedBytes(t.head, t.kids != [], t.full);
      var end: Str := if Lost(t) then [] else EndBytes(t.head, t.kids != [], t.full);
      if t.head.HElem? {
        TagHoldsNoReturn(t);
        ShapedFoldable(t.kids);
      }
      FoldRenderAll(false, t.kids);
      FoldWrap(after, open, RenderAll(t.kids), end);
      assert Render(t) == open + RenderAll(t.kids) + end;
      if end == [] && !Lost(t) {
        NoKids(t);
      }
    }
  }

  lemma NoKids(t: Tree)
    requires Foldable(t) && t.Branch? && EndBytes(t.head, t.kids != [], t.full) == []
    ensures t.kids == [] && RenderAll(t.kids) == []
  {
  }

  lemma {:induction false} FoldRenderAll(after: bool, ts: seq<Tree>)
    requires forall t | t in ts :: Foldable(t)
    ensures Fold(after, RenderAll(ts)) == RenderAll(FoldAll(after, ts))
    ensures Carry(after, RenderAll(ts)) == CarryAll(after, ts)
    decreases ts
  {
    hide Fold, Carry, Render, FoldTree, CarryTree, Foldable;
    if ts == [] {
      FoldPlain(after, []);
      assert Carry(after, []) == after by { CarryNothing(after); }
    } else {
      hide RenderAll;
      var us := FoldAll(after, ts);
      assert ts[0] in ts && forall t | t in ts[1..] :: t in ts;
      RenderFirst(ts);
      RenderFirst(us);
      assert us[0] == FoldTree(after, ts[0]) && us[1..] == FoldAll(CarryTree(after, ts[0]), ts[1..]);
      FoldRender(after, ts[0]);
      FoldRenderAll(CarryTree(after, ts[0]), ts[1..]);
      FoldConcat(after, Render(ts[0]), RenderAll(ts[1..]));
    }
  }

  lemma CarryNothing(after: bool)
    ensures Carry(after, []) == after
  {
  }

  // ---------------------------------------------------------------- the same conditions

  lemma {:induction false} FoldPieces(after: bool, kids: seq<Tree>)
    requires Pieces(kids)
    ensures Pieces(FoldAll(after, kids))
    decreases kids
  {
    hide Fold, CarryTree;
    if kids != [] {
      assert kids[0] in kids && forall k | k in kids[1..] :: k in kids;
      FoldPieces(CarryTree(after, kids[0]), kids[1..]);
    }
  }

  /** The content of a section, with line ends. */
  lemma FoldBody(kids: seq<Tree>)
    requires Pieces(kids)
    ensures Pieces(FoldAll(false, kids)) && BodyOf(FoldAll(false, kids)) == LineEnds(BodyOf(kids))
  {
    hide Render, RenderAll, FoldAll, BodyOf, LineEnds, Pieces;
    FoldPieces(false, kids);
    BodyBytes(kids);
    BodyBytes(FoldAll(false, kids));
    PiecesFoldable(kids);
    FoldRenderAll(false, kids);
    FoldFirst(RenderAll(kids));
  }

  lemma PiecesFoldable(kids: seq<Tree>)
    requires Pieces(kids)
    ensures forall k | k in kids :: Foldable(k)
  {
  }

  lemma {:induction false} FoldShaped(after: bool, t: Tree)
    requires Shaped(t)
    ensures Shaped(FoldTree(after, t))
    decreases t
  {
    hide Fold, LineEnds, Contains, AllShaped, ValidName, NamesOk, Pieces, IsXml;
    if t.Leaf? {
      if t.leaf.PI? {
        ContainsSame(t.leaf.content, "?>");
      }
    } else if t.head.HElem? {
      FoldAllShaped(false, t.kids);
    } else {
      FoldBody(t.kids);
    }
  }

  lemma {:induction false} FoldAllShaped(after: bool, ts: seq<Tree>)
    requires AllShaped(ts)
    ensures AllShaped(FoldAll(after, ts))
    decreases ts
  {
    hide Shaped, FoldTree, CarryTree;
    if ts != [] {
      FoldShaped(after, ts[0]);
      FoldAllShaped(CarryTree(after, ts[0]), ts[1..]);
    }
  }

  /** What has to hold of a tree holds of it exactly if it does after line ends have been handled. */
  lemma {:induction false} FoldConditions(after: bool, t: Tree)
    requires Shaped(t)
    ensures Lexical(FoldTree(after, t)) <==> Lexical(t)
    ensures Textual(FoldTree(after, t)) <==> Textual(t)
    ensures Losses(FoldTree(after, t)) == Losses(t)
    decreases t
  {
    hide Fold, LineEnds, Contains, AllShaped, AllLexical, AllTextual, AllLosses, ValidName, NamesOk, AllNamed,
      DistinctAtts, Pieces, IsXml, IsText, CommentBody, BodyOf;
    if t.Leaf? {
      if t.leaf.PI? {
        FoldIsTextIff(false, t.leaf.content);
        FoldFirst(t.leaf.content);
      }
    } else if t.head.HElem? {
      FoldAllConditions(false, t.kids);
    } else {
      var body := BodyOf(t.kids);
      FoldBody(t.kids);
      CommentSame(body);
      ContainsSame(body, "]]>");
      FoldIsTextIff(false, body);
      FoldFirst(body);
    }
  }

  lemma {:induction false} FoldAllConditions(after: bool, ts: seq<Tree>)
    requires AllShaped(ts)
    ensures AllLexical(FoldAll(after, ts)) <==> AllLexical(ts)
    ensures AllTextual(FoldAll(after, ts)) <==> AllTextual(ts)
    ensures AllLosses(FoldAll(after, ts)) == AllLosses(ts)
    decreases ts
  {
    hide Shaped, FoldTree, CarryTree, Lexical, Textual, Losses;
    if ts != [] {
      FoldConditions(after, ts[0]);
      FoldAllConditions(CarryTree(after, ts[0]), ts[1..]);
    }
  }

  // ---------------------------------------------------------------- what a reader gets

  /** A node with line ends for its carriage returns. Attribute values keep theirs, for they are written as
      references. */
  function FoldNode(n: XNode): XNode
    decreases n, 1
  {
    match n
    case XElem(name, atts, kids) => XElem(name, atts, FoldNodes(kids))
    case XText(s) => XText(LineEnds(s))
    case XComment(s) => XComment(LineEnds(s))
    case XCData(s) => XCData(LineEnds(s))
    case XPI(target, content) => XPI(target, LineEnds(content))
  }

  function FoldNodes(kids: seq<XNode>): (r: seq<XNode>)
    ensures |r| == |kids|
    decreases kids, 0
  {
    if kids == [] then [] else FoldNodes(kids[..|kids| - 1]) + [FoldNode(kids[|kids| - 1])]
  }

  lemma FoldSnoc(kids: seq<XNode>, n: XNode)
    ensures FoldNodes(kids + [n]) == FoldNodes(kids) + [FoldNode(n)]
  {
    assert (kids + [n])[..|kids + [n]| - 1] == kids;
  }

  lemma {:induction false} FoldAt(kids: seq<XNode>, i: nat)
    requires i < |kids|
    ensures FoldNodes(kids)[i] == FoldNode(kids[i])
  {
    hide FoldNode;
    if i < |kids| - 1 {
      FoldAt(kids[..|kids| - 1], i);
    }
  }

  predicate TextCarry(kids: seq<XNode>) {
    kids != [] && kids[|kids| - 1].XText? && Carry(false, kids[|kids| - 1].text)
  }

  lemma FoldMore(before: seq<XNode>, u: Str, text: Str)
    ensures var kids := before + [XText(u)];
      && TextCarry(kids) == Carry(false, u)
      && JoinText(FoldNodes(kids), Fold(Carry(false, u), text)) == FoldNodes(JoinText(kids, text))
      && TextCarry(JoinText(kids, text)) == Carry(Carry(false, u), text)
  {
    hide LineEnds, FoldNodes, Fold, Carry;
    var kids := before + [XText(u)];
    FoldSnoc(before, XText(u));
    FoldSnoc(before, XText(u + text));
    LineEndsConcat(u, text);
    FoldConcat(false, u, text);
    assert kids[..|kids| - 1] == before && FoldNodes(kids)[..|kids| - 1] == FoldNodes(before);
    assert LineEnds(u) + [] == LineEnds(u);
    if text == [] {
      FoldPlain(Carry(false, u), []);
      assert u + text == u;
    }
  }

  /** Text joins the text before it, and its line feed may join a carriage return there. */
  lemma FoldJoinText(kids: seq<XNode>, text: Str)
    ensures JoinText(FoldNodes(kids), Fold(TextCarry(kids), text)) == FoldNodes(JoinText(kids, text))
    ensures TextCarry(JoinText(kids, text)) == Carry(TextCarry(kids), text)
  {
    hide LineEnds, FoldNodes;
    FoldPlain(TextCarry(kids), []);
    if kids != [] {
      var n := |kids| - 1;
      assert kids == kids[..n] + [kids[n]];
      FoldSnoc(kids[..n], kids[n]);
      if kids[n].XText? {
        FoldMore(kids[..n], kids[n].text, text);
      } else {
        FoldSnoc(kids, XText(text));
        LastSame(text, 'x');
      }
    } else {
      FoldSnoc(kids, XText(text));
      LastSame(text, 'x');
    }
  }

  /** What a tree adds, with line ends. */
  lemma {:induction false} FoldJoin(kids: seq<XNode>, t: Tree)
    requires Shaped(t) && Losses(t) == 0
    ensures Join(FoldNodes(kids), FoldTree(TextCarry(kids), t)) == FoldNodes(Join(kids, t))
    ensures TextCarry(Join(kids, t)) == CarryTree(TextCarry(kids), t)
    decreases t
  {
    hide Fold, LineEnds, Sanitise, FoldNodes, JoinText, SkipSpace, SaneAtts, BodyOf, JoinAll, FoldAll, ValidName,
      NamesOk, AllShaped, Pieces, AllLosses, PIOk;
    match t {
      case Leaf(l) =>
        if l.Text? {
          FoldSanitise(TextCarry(kids), l.text);
          FoldJoinText(kids, Sanitise(l.text));
        } else {
          SkipSpaceSame(l.content);
          FoldSnoc(kids, XPI(l.target, SkipSpace(l.content)));
        }
      case Branch(h, atts, ts, _, _) =>
        if h.HElem? {
          FoldJoinAll([], ts);
          FoldNothing();
          FoldSnoc(kids, XElem(h.name, SaneAtts(atts), JoinAll([], ts)));
        } else {
          FoldBody(ts);
          FoldSnoc(kids, if h.HComment? then XComment(BodyOf(ts)) else XCData(BodyOf(ts)));
        }
    }
  }

  lemma FoldNothing()
    ensures FoldNodes([]) == [] && !TextCarry([])
  {
  }

  lemma {:induction false} FoldJoinAll(kids: seq<XNode>, ts: seq<Tree>)
    requires AllShaped(ts) && AllLosses(ts) == 0
    ensures JoinAll(FoldNodes(kids), FoldAll(TextCarry(kids), ts)) == FoldNodes(JoinAll(kids, ts))
    decreases ts
  {
    hide Join, FoldTree, CarryTree, FoldNodes, TextCarry, Shaped, Losses;
    if ts != [] {
      FoldJoin(kids, ts[0]);
      FoldJoinAll(Join(kids, ts[0]), ts[1..]);
    }
  }

  lemma {:induction false} FoldProper(n: XNode)
    ensures Proper(FoldNode(n)) <==> Proper(n)
    decreases n
  {
    hide XmlName, DistinctAtts, AllProper, FoldNodes, CommentBody, Contains, LineEnds;
    match n {
      case XElem(_, _, kids) => FoldAllProper(kids);
      case XText(_) =>
      case XComment(s) => CommentSame(s);
      case XCData(s) => ContainsSame(s, "]]>");
      case XPI(_, _) =>
    }
  }

  lemma {:induction false} FoldAllProper(kids: seq<XNode>)
    ensures AllProper(FoldNodes(kids)) <==> AllProper(kids)
    decreases kids
  {
    hide Proper, FoldNode, AllProper;
    if kids == [] {
      NothingProper();
    } else {
      var n := |kids| - 1;
      assert kids == kids[..n] + [kids[n]];
      FoldAllProper(kids[..n]);
      FoldProper(kids[n]);
      ProperSnoc(kids[..n], kids[n]);
      ProperSnoc(FoldNodes(kids[..n]), FoldNode(kids[n]));
    }
  }

  /** Line ends, then parse: the reader returns the forest that was printed, with line ends for its carriage returns,
      if and only if the forest is legible. */
  lemma LinesReadBackIff(ts: seq<Tree>)
    requires AllShaped(ts)
    ensures Read(LineEnds(RenderAll(ts))) == Some(FoldNodes(JoinAll([], ts))) <==> Legible(ts)
  {
    hide IsText, RenderAll, ReadContent, JoinAll, AllShaped, AllLexical, AllLosses, AllTextual, AllProper, FoldAll,
      FoldNodes, LineEnds, Foldable;
    var us := FoldAll(false, ts);
    ShapedFoldable(ts);
    FoldRenderAll(false, ts);
    FoldFirst(RenderAll(ts));
    FoldAllShaped(false, ts);
    FoldAllConditions(false, ts);
    RenderIsTextIff(us);
    if Read(RenderAll(us)) == Some(FoldNodes(JoinAll([], ts))) {
      ContentIsProper(RenderAll(us));
      FoldAllProper(JoinAll([], ts));
      AllLexicalIfProper([], ts);
    }
    if AllLexical(ts) {
      ContentReadsIff(us);
    }
    if AllLosses(ts) == 0 {
      FoldNothing();
      FoldJoinAll([], ts);
    }
  }

  // ---------------------------------------------------------------- what survives

  /** No carriage return in what is read, but for attribute values. */
  predicate ReturnFree(n: XNode) {
    match n
    case XElem(_, _, kids) => AllReturnFree(kids)
    case XText(s) => '\r' !in s
    case XComment(s) => '\r' !in s
    case XCData(s) => '\r' !in s
    case XPI(_, content) => '\r' !in content
  }

  predicate AllReturnFree(kids: seq<XNode>) {
    forall k | k in kids :: ReturnFree(k)
  }

  lemma LineEndsSameIff(s: Str)
    ensures LineEnds(s) == s <==> '\r' !in s
  {
    ReturnsVanish(s);
    if '\r' !in s {
      NoReturns(s);
    }
  }

  lemma {:induction false} NodeSurvivesIff(n: XNode)
    ensures FoldNode(n) == n <==> ReturnFree(n)
    decreases n
  {
    hide LineEnds, FoldNodes, AllReturnFree;
    match n {
      case XElem(_, _, kids) => NodesSurviveIff(kids);
      case XText(s) => LineEndsSameIff(s);
      case XComment(s) => LineEndsSameIff(s);
      case XCData(s) => LineEndsSameIff(s);
      case XPI(_, content) => LineEndsSameIff(content);
    }
  }

  /** A document comes back as it was if and only if it holds no carriage return outside attribute values. */
  lemma {:induction false} NodesSurviveIff(kids: seq<XNode>)
    ensures FoldNodes(kids) == kids <==> AllReturnFree(kids)
    decreases kids
  {
    hide ReturnFree, FoldNode;
    if kids != [] {
      var n := |kids| - 1;
      assert kids == kids[..n] + [kids[n]];
      NodesSurviveIff(kids[..n]);
      NodeSurvivesIff(kids[n]);
      assert forall k | k in kids :: k in kids[..n] || k == kids[n];
      assert forall k | k in kids[..n] :: k in kids;
      assert kids[n] in kids;
      if FoldNodes(kids) == kids {
        assert FoldNodes(kids)[..n] == FoldNodes(kids[..n]) && FoldNodes(kids)[n] == FoldNode(kids[n]);
      }
    }
  }
}
