/** What a reader makes of the text of a forest: the state it is in after each tree. */
module TreeReads {
  import opened Bytes
  import opened Check
  import opened Escape
  import opened EscapeProofs
  import opened Document
  import opened Reader
  import opened ReaderProofs

  // ---------------------------------------------------------------- forests

  /** The pieces of a comment or a CDATA section. */
  predicate Pieces(kids: seq<Tree>) {
    forall k | k in kids :: k.Leaf? && (k.leaf.CommentContent? || k.leaf.CDataContent?)
  }

  lemma {:induction false} BodyBytes(kids: seq<Tree>)
    requires Pieces(kids)
    ensures RenderAll(kids) == BodyOf(kids)
  {
    if kids != [] {
      var n := |kids| - 1;
      assert kids[n] in kids && forall k | k in kids[..n] :: k in kids;
      BodyBytes(kids[..n]);
    }
  }

  /** A tree without a DTD, as enforcing lets it pass: accepted names, targets and instructions, and only elements
      with children lose their end tag. */
  predicate Shaped(t: Tree) {
    match t
    case Leaf(l) => l.Text? || (l.PI? && PIOk(l.target, l.content))
    case Branch(h, atts, kids, _, made) =>
      if h.HElem? then
        h.name != [] && ValidName(h.name) && NamesOk(atts) && (made.stale ==> kids != []) && AllShaped(kids)
      else (h.HComment? || h.HCData?) && !made.stale && Pieces(kids)
  }

  predicate AllShaped(ts: seq<Tree>) {
    ts == [] || (Shaped(ts[0]) && AllShaped(ts[1..]))
  }

  /** The markup is what XML wants it to be: names where there have to be names, no attribute twice, sections that do
      not hold their end. */
  predicate Lexical(t: Tree) {
    match t
    case Leaf(l) => l.PI? ==> l.target != []
    case Branch(h, atts, kids, _, _) =>
      if h.HElem? then AllNamed(atts) && DistinctAtts(atts) && AllLexical(kids)
      else if h.HComment? then CommentBody(BodyOf(kids))
      else !Contains(BodyOf(kids), "]]>")
  }

  predicate AllLexical(ts: seq<Tree>) {
    ts == [] || (Lexical(ts[0]) && AllLexical(ts[1..]))
  }

  /** What is printed as it is, is UTF-8 made of Chars. */
  predicate Textual(t: Tree) {
    match t
    case Leaf(l) => l.PI? ==> IsText(l.content)
    case Branch(h, _, kids, _, _) => if h.HElem? then AllTextual(kids) else IsText(BodyOf(kids))
  }

  predicate AllTextual(ts: seq<Tree>) {
    ts == [] || (Textual(ts[0]) && AllTextual(ts[1..]))
  }

  /** How many end tags are lost. */
  function Losses(t: Tree): nat {
    match t
    case Leaf(_) => 0
    case Branch(h, _, kids, _, _) => if h.HElem? then AllLosses(kids) + (if Lost(t) then 1 else 0) else 0
  }

  function AllLosses(ts: seq<Tree>): nat {
    if ts == [] then 0 else Losses(ts[0]) + AllLosses(ts[1..])
  }

  /** What enforcing leaves to the caller, and a text needs to be read. */
  predicate Legible(ts: seq<Tree>) {
    AllLexical(ts) && AllLosses(ts) == 0 && AllTextual(ts)
  }

  // ---------------------------------------------------------------- the state after a tree

  /** What is open after the text of a tree has been read; None where the reader stops. A lost end tag leaves its
      element open, and what comes next is read inside it. */
  function AfterTree(o: Open, t: Tree): Option<Open>
    decreases t, 1
  {
    if t.Branch? && t.head.HElem? && (t.kids != [] || t.full) then
      match AfterAll(Inside(o, t.head.name, SaneAtts(t.atts), []), t.kids)
      case None => None
      case Some(p) => if Lost(t) then Some(p) else Feed(p, TEnd(t.head.name))
    else Some(WithKids(o, Join(o.kids, t)))
  }

  function AfterAll(o: Open, ts: seq<Tree>): Option<Open>
    decreases ts, 0
  {
    if ts == [] then Some(o)
    else
      match AfterTree(o, ts[0])
      case None => None
      case Some(p) => AfterAll(p, ts[1..])
  }

  /** Going on from there. */
  function Onward(p: Option<Open>, rest: Str): Option<Open> {
    match p
    case None => None
    case Some(o) => ReadFrom(o, rest)
  }

  lemma ReadLeaf(o: Open, l: Leaf, rest: Str)
    requires Shaped(Leaf(l)) && Lexical(Leaf(l)) && Quiet(rest)
    ensures ReadFrom(o, LeafBytes(l) + rest) == ReadFrom(WithKids(o, Join(o.kids, Leaf(l))), rest)
  {
    hide ReadFrom, EscapeMap, Sanitise, SkipSpace, PIOk, Quiet;
    match l {
      case Text(s) => ReadText(o, s, rest);
      case PI(target, content) => ReadInstruction(o, target, content, rest);
    }
  }

  lemma SectionPieces(open: Str, none: Str, body: Str, end: Str)
    requires none == []
    ensures open + none + body + end == open + body + end
  {
    assert open + none == open;
  }

  lemma SectionText(t: Tree)
    requires Shaped(t) && t.Branch? && !t.head.HElem?
    ensures Render(t) == if t.head.HComment? then "<!--" + BodyOf(t.kids) + "-->"
                         else "<![CDATA[" + BodyOf(t.kids) + "]]>"
  {
    hide RenderAll, BodyOf;
    BodyBytes(t.kids);
    SectionPieces("<!--", [], BodyOf(t.kids), "-->");
    SectionPieces("<![CDATA[", [], BodyOf(t.kids), "]]>");
  }

  lemma ReadSection(o: Open, t: Tree, rest: Str)
    requires Shaped(t) && Lexical(t) && t.Branch? && !t.head.HElem?
    ensures ReadFrom(o, Render(t) + rest) == ReadFrom(WithKids(o, Join(o.kids, t)), rest)
  {
    hide ReadFrom, CommentBody, Contains, BodyOf, Render, Pieces;
    SectionText(t);
    if t.head.HComment? {
      CommentReads(o, BodyOf(t.kids), rest);
    } else {
      CDataReads(o, BodyOf(t.kids), rest);
    }
  }

  lemma EmptyElemText(t: Tree, rest: Str)
    requires Shaped(t) && t.Branch? && t.head.HElem? && t.kids == [] && !t.full
    ensures Render(t) + rest == "<" + (t.head.name + (AttsBytes(t.atts) + ("/>" + rest)))
  {
    hide AttsBytes, ValidName, NamesOk;
    var name, a := t.head.name, AttsBytes(t.atts);
    assert Render(t) == "<" + name + a + "/>" + [] + [];
    Assoc("<" + name + a, "/>", rest);
    Assoc("<" + name, a, "/>" + rest);
    Assoc("<", name, a + ("/>" + rest));
  }

  /** What stands after the children of an element. */
  function AfterKids(t: Tree, rest: Str): Str
    requires t.Branch? && t.head.HElem?
  {
    if Lost(t) then rest else "</" + (t.head.name + (">" + rest))
  }

  lemma ElemText(t: Tree, rest: Str)
    requires t.Branch? && t.head.HElem? && (t.kids != [] || t.full)
    ensures Render(t) + rest ==
      "<" + (t.head.name + (AttsBytes(t.atts) + (">" + (RenderAll(t.kids) + AfterKids(t, rest)))))
  {
    hide AttsBytes, RenderAll;
    var name, a, k := t.head.name, AttsBytes(t.atts), RenderAll(t.kids);
    var end: Str := if Lost(t) then [] else "</" + name + ">";
    assert Render(t) == "<" + name + a + ">" + k + end;
    var tail := AfterKids(t, rest);
    assert end + rest == tail by {
      Assoc("</" + name, ">", rest);
      Assoc("</", name, ">" + rest);
      assert [] + rest == rest;
    }
    Assoc("<" + name + a + ">" + k, end, rest);
    Assoc("<" + name + a + ">", k, tail);
    Assoc("<" + name + a, ">", k + tail);
    Assoc("<" + name, a, ">" + (k + tail));
    Assoc("<", name, a + (">" + (k + tail)));
  }

  lemma LeafText(t: Tree)
    requires t.Leaf?
    ensures Render(t) == LeafBytes(t.leaf)
  {
  }

  lemma ReadClose(o: Open, s: Str, name: Str, rest: Str)
    requires s != [] && NextToken(s) == Some(Lexed(TEnd(name), rest))
    ensures ReadFrom(o, s) == Onward(Feed(o, TEnd(name)), rest)
  {
    hide NextToken, Feed;
  }

  /** Reading the text of a tree. */
  lemma {:induction false} ReadTree(o: Open, t: Tree, rest: Str)
    requires Shaped(t) && Lexical(t) && Quiet(rest)
    ensures ReadFrom(o, Render(t) + rest) == Onward(AfterTree(o, t), rest)
    decreases t, 1
  {
    hide Quiet, DistinctAtts, AllNamed, NamesOk, ReadFrom, NextToken, Render, RenderAll, LeafBytes, ValidName, SaneAtts,
      AttsBytes, AllShaped, AllLexical;
    if t.Leaf? {
      assert Render(t) == LeafBytes(t.leaf) by { LeafText(t); }
      ReadLeaf(o, t.leaf, rest);
    } else if !t.head.HElem? {
      ReadSection(o, t, rest);
    } else if t.kids == [] && !t.full {
      EmptyElemText(t, rest);
      StartTagReadsIff(t.head.name, t.atts, true, rest);
      ReadStart(o, Render(t) + rest, t.head.name, SaneAtts(t.atts), true, rest);
      assert JoinAll([], t.kids) == [];
    } else {
      ReadInside(o, t, rest);
    }
  }

  lemma {:induction false} ReadInside(o: Open, t: Tree, rest: Str)
    requires Shaped(t) && Lexical(t) && Quiet(rest) && t.Branch? && t.head.HElem? && (t.kids != [] || t.full)
    ensures ReadFrom(o, Render(t) + rest) == Onward(AfterTree(o, t), rest)
    decreases t, 0
  {
    hide Quiet, DistinctAtts, AllNamed, NamesOk, ReadFrom, NextToken, Render, RenderAll, ValidName, SaneAtts, AttsBytes,
      AllShaped, AllLexical, Feed;
    var name, atts := t.head.name, SaneAtts(t.atts);
    var tail := AfterKids(t, rest);
    ElemText(t, rest);
    StartTagReadsIff(name, t.atts, false, RenderAll(t.kids) + tail);
    ReadStart(o, Render(t) + rest, name, atts, false, RenderAll(t.kids) + tail);
    if !Lost(t) {
      QuietMark(tail);
    }
    ReadTrees(Inside(o, name, atts, []), t.kids, tail);
    var p := AfterAll(Inside(o, name, atts, []), t.kids);
    if !Lost(t) && p.Some? {
      EndTagReads(name, rest);
      ReadClose(p.value, tail, name, rest);
    }
  }

  /** The text of a forest has no '>' before a '<'. */
  lemma {:induction false} RenderQuiet(ts: seq<Tree>, rest: Str)
    requires AllShaped(ts) && Quiet(rest)
    ensures Quiet(RenderAll(ts) + rest)
  {
    hide Render, Shaped, Quiet;
    if ts == [] {
      assert [] + rest == rest;
    } else {
      hide RenderAll;
      RenderFirst(ts);
      Assoc(Render(ts[0]), RenderAll(ts[1..]), rest);
      RenderQuiet(ts[1..], rest);
      TreeQuiet(ts[0], RenderAll(ts[1..]) + rest);
    }
  }

  lemma TreeQuiet(t: Tree, rest: Str)
    requires Shaped(t) && Quiet(rest)
    ensures Quiet(Render(t) + rest)
  {
    hide Quiet, EscapeMap, ValidName, NamesOk, AllShaped, RenderAll, AttsBytes, Contains;
    if t.Leaf? && t.leaf.Text? {
      EscapedBytes(t.leaf.text, false);
      QuietText(Render(t), rest);
    } else {
      assert Render(t)[0] == '<';
      QuietMark(Render(t) + rest);
    }
  }

  lemma {:induction false} ReadTrees(o: Open, ts: seq<Tree>, rest: Str)
    requires AllShaped(ts) && AllLexical(ts) && Quiet(rest)
    ensures ReadFrom(o, RenderAll(ts) + rest) == Onward(AfterAll(o, ts), rest)
    decreases ts
  {
    hide ReadFrom, Render, AfterTree, Shaped, Lexical, Quiet;
    if ts == [] {
      assert [] + rest == rest;
    } else {
      hide RenderAll;
      RenderQuiet(ts[1..], rest);
      RenderFirst(ts);
      Assoc(Render(ts[0]), RenderAll(ts[1..]), rest);
      ReadTree(o, ts[0], RenderAll(ts[1..]) + rest);
      var p := AfterTree(o, ts[0]);
      if p.Some? {
        ReadTrees(p.value, ts[1..], rest);
      }
    }
  }

  // ---------------------------------------------------------------- lost end tags

  function Height(o: Open): nat {
    match o
    case Root(_) => 0
    case Inside(outer, _, _, _) => Height(outer) + 1
  }

  /** Every lost end tag leaves one more element open. */
  lemma {:induction false} LossesStay(o: Open, t: Tree)
    requires Shaped(t)
    ensures AfterTree(o, t).Some? ==> Height(AfterTree(o, t).value) == Height(o) + Losses(t)
    decreases t, 1
  {
    hide SaneAtts, Join, ValidName, NamesOk, AllShaped, AllLosses, Pieces, PIOk;
    if t.Branch? && t.head.HElem? {
      AllLossesStay(Inside(o, t.head.name, SaneAtts(t.atts), []), t.kids);
    }
  }

  lemma {:induction false} AllLossesStay(o: Open, ts: seq<Tree>)
    requires AllShaped(ts)
    ensures AfterAll(o, ts).Some? ==> Height(AfterAll(o, ts).value) == Height(o) + AllLosses(ts)
    decreases ts, 0
  {
    hide AfterTree, Shaped, Losses;
    if ts != [] {
      LossesStay(o, ts[0]);
      if AfterTree(o, ts[0]).Some? {
        AllLossesStay(AfterTree(o, ts[0]).value, ts[1..]);
      }
    }
  }

  /** Where none is lost, a tree is added to the children read so far. */
  lemma {:induction false} NothingLost(o: Open, t: Tree)
    requires Losses(t) == 0
    ensures AfterTree(o, t) == Some(WithKids(o, Join(o.kids, t)))
    decreases t, 1
  {
    hide SaneAtts, AllLosses, JoinText, Sanitise;
    if t.Branch? && t.head.HElem? && (t.kids != [] || t.full) {
      NoneLost(Inside(o, t.head.name, SaneAtts(t.atts), []), t.kids);
    }
  }

  lemma {:induction false} NoneLost(o: Open, ts: seq<Tree>)
    requires AllLosses(ts) == 0
    ensures AfterAll(o, ts) == Some(WithKids(o, JoinAll(o.kids, ts)))
    decreases ts, 0
  {
    hide AfterTree, Losses, Join;
    if ts != [] {
      NothingLost(o, ts[0]);
      NoneLost(WithKids(o, Join(o.kids, ts[0])), ts[1..]);
    }
  }

  lemma ReadNothing(o: Open)
    ensures ReadFrom(o, []) == Some(o)
  {
  }

  /** The text of a forest is content if and only if it has all its end tags; then the reader gets the forest, with
      adjacent text merged and U+FFFD for what XML cannot hold. */
  lemma ContentReadsIff(ts: seq<Tree>)
    requires AllShaped(ts) && AllLexical(ts)
    ensures ReadContent(RenderAll(ts)) == if AllLosses(ts) == 0 then Some(JoinAll([], ts)) else None
  {
    hide RenderAll, AfterAll, AllLosses, JoinAll, ReadFrom;
    QuietMark([]);
    ReadTrees(Root([]), ts, []);
    assert RenderAll(ts) + [] == RenderAll(ts);
    AllLossesStay(Root([]), ts);
    var p := AfterAll(Root([]), ts);
    if p.Some? {
      ReadNothing(p.value);
    }
    if AllLosses(ts) == 0 {
      NoneLost(Root([]), ts);
    }
  }

  // ---------------------------------------------------------------- what is printed is text

  lemma LeafIsText(l: Leaf)
    requires Shaped(Leaf(l)) && Textual(Leaf(l))
    ensures IsText(LeafBytes(l))
  {
    hide IsText, ValidName, EscapeMap, Contains;
    if l.Text? {
      EscapedText(l.text, false);
    } else {
      NameIsText(l.target);
      PrintableText("<?");
      PrintableText(" ");
      PrintableText("?>");
      TextConcat3("<?", l.target, " ");
      TextConcat3("<?" + l.target + " ", l.content, "?>");
    }
  }

  lemma SectionIsText(t: Tree)
    requires Shaped(t) && t.Branch? && !t.head.HElem?
    ensures IsText(Render(t)) <==> IsText(BodyOf(t.kids))
  {
    hide IsText, Render, BodyOf, Pieces;
    SectionText(t);
    SectionIsTextIff("<!--", BodyOf(t.kids), "-->");
    SectionIsTextIff("<![CDATA[", BodyOf(t.kids), "]]>");
  }

  lemma TagIsText(name: Str, atts: seq<Att>, shut: Str)
    requires ValidName(name) && NamesOk(atts) && (shut == ">" || shut == "/>")
    ensures IsText("<" + name + AttsBytes(atts) + shut)
  {
    hide IsText, ValidName, AttsBytes, NamesOk;
    NameIsText(name);
    AttsAreText(atts);
    PrintableText("<");
    PrintableText(shut);
    TextConcat3("<", name, AttsBytes(atts));
    TextConcat("<" + name + AttsBytes(atts), shut);
  }

  lemma EndIsText(name: Str)
    requires ValidName(name)
    ensures IsText("</" + name + ">") && IsText([])
  {
    hide IsText, ValidName;
    NameIsText(name);
    PrintableText([]);
    PrintableText("</");
    PrintableText(">");
    TextConcat3("</", name, ">");
  }

  lemma ElemIsText(t: Tree)
    requires Shaped(t) && t.Branch? && t.head.HElem? && IsText(RenderAll(t.kids))
    ensures IsText(Render(t))
  {
    hide IsText, ValidName, AttsBytes, NamesOk, RenderAll, AllShaped;
    var shut := OpenedBytes(t.head, t.kids != [], t.full);
    TagIsText(t.head.name, t.atts, shut);
    EndIsText(t.head.name);
    var end: Str := if Lost(t) then [] else EndBytes(t.head, t.kids != [], t.full);
    TextConcat3("<" + t.head.name + AttsBytes(t.atts) + shut, RenderAll(t.kids), end);
  }

  /** What is printed for a tree is UTF-8 made of Chars if what is printed as it is, is. */
  lemma {:induction false} RenderIsText(t: Tree)
    requires Shaped(t) && Textual(t)
    ensures IsText(Render(t))
    decreases t
  {
    hide IsText, Render, RenderAll, LeafBytes, NamesOk, ValidName, AllShaped, AllTextual, Pieces;
    if t.Leaf? {
      LeafText(t);
      LeafIsText(t.leaf);
    } else if t.head.HElem? {
      AllRenderIsText(t.kids);
      ElemIsText(t);
    } else {
      SectionIsText(t);
    }
  }

  lemma {:induction false} AllRenderIsText(ts: seq<Tree>)
    requires AllShaped(ts) && AllTextual(ts)
    ensures IsText(RenderAll(ts))
    decreases ts
  {
    hide IsText, Render, Shaped, Textual;
    if ts == [] {
      PrintableText([]);
    } else {
      hide RenderAll;
      RenderFirst(ts);
      RenderIsText(ts[0]);
      AllRenderIsText(ts[1..]);
      TextConcat(Render(ts[0]), RenderAll(ts[1..]));
    }
  }

  // ---------------------------------------------------------------- and only then

  lemma InstructionInside(target: Str, content: Str, rest: Str)
    requires ValidName(target) && IsText("<?" + target + " " + content + "?>" + rest)
    ensures IsText(content) && IsText(rest)
  {
    hide IsText, ValidName;
    var open := "<?" + target + " ";
    NameIsText(target);
    PrintableText("<?");
    PrintableText(" ");
    PrintableText("?>");
    TextConcat3("<?", target, " ");
    Assoc(open + content, "?>", rest);
    Assoc(open, content, "?>" + rest);
    TextStrip(open, content + ("?>" + rest));
    TextBefore(content, "?>" + rest);
    TextStrip(content, "?>" + rest);
    TextStrip("?>", rest);
  }

  lemma SectionInside(open: Str, body: Str, end: Str, rest: Str)
    requires (forall b | b in open + end :: 0x20 <= b as int < 0x7F) && end != []
    requires IsText(open + body + end + rest)
    ensures IsText(body) && IsText(rest)
  {
    hide IsText;
    assert forall b | b in open :: b in open + end;
    assert forall b | b in end :: b in open + end;
    assert end[0] in end;
    PrintableText(open);
    PrintableText(end);
    Assoc(open + body, end, rest);
    Assoc(open, body, end + rest);
    TextStrip(open, body + (end + rest));
    TextBefore(body, end + rest);
    TextStrip(body, end + rest);
    TextStrip(end, rest);
  }

  lemma LeafInside(l: Leaf, rest: Str)
    requires Shaped(Leaf(l)) && IsText(LeafBytes(l) + rest)
    ensures Textual(Leaf(l)) && IsText(rest)
  {
    hide IsText, ValidName, EscapeMap, Contains;
    if l.Text? {
      EscapedText(l.text, false);
      TextStrip(EscapeMap(l.text, false), rest);
    } else {
      InstructionInside(l.target, l.content, rest);
    }
  }

  lemma BranchInside(t: Tree, rest: Str)
    requires Shaped(t) && t.Branch? && !t.head.HElem? && IsText(Render(t) + rest)
    ensures Textual(t) && IsText(rest)
  {
    hide IsText, Render, BodyOf, Pieces;
    SectionText(t);
    if t.head.HComment? {
      SectionInside("<!--", BodyOf(t.kids), "-->", rest);
    } else {
      SectionInside("<![CDATA[", BodyOf(t.kids), "]]>", rest);
    }
  }

  lemma TagStrip(t: Tree, rest: Str)
    requires Shaped(t) && t.Branch? && t.head.HElem? && IsText(Render(t) + rest)
    ensures IsText(RenderAll(t.kids) + ((if Lost(t) then [] else EndBytes(t.head, t.kids != [], t.full)) + rest))
  {
    hide IsText, ValidName, AttsBytes, NamesOk, RenderAll, AllShaped;
    var shut := OpenedBytes(t.head, t.kids != [], t.full);
    var tag := "<" + t.head.name + AttsBytes(t.atts) + shut;
    TagIsText(t.head.name, t.atts, shut);
    var end: Str := if Lost(t) then [] else EndBytes(t.head, t.kids != [], t.full);
    Assoc(tag + RenderAll(t.kids), end, rest);
    Assoc(tag, RenderAll(t.kids), end + rest);
    TextStrip(tag, RenderAll(t.kids) + (end + rest));
  }

  /** If what is printed for a tree is part of a text, then what is printed as it is, is text. */
  lemma {:induction false} TreeInside(t: Tree, rest: Str)
    requires Shaped(t) && IsText(Render(t) + rest)
    ensures Textual(t) && IsText(rest)
    decreases t
  {
    hide IsText, Render, RenderAll, LeafBytes, NamesOk, ValidName, AllShaped, AllTextual, Pieces, BodyOf;
    if t.Leaf? {
      LeafText(t);
      LeafInside(t.leaf, rest);
    } else if t.head.HElem? {
      TagStrip(t, rest);
      var end: Str := if Lost(t) then [] else EndBytes(t.head, t.kids != [], t.full);
      TreesInside(t.kids, end + rest);
      EndIsText(t.head.name);
      TextStrip(end, rest);
    } else {
      BranchInside(t, rest);
    }
  }

  lemma {:induction false} TreesInside(ts: seq<Tree>, rest: Str)
    requires AllShaped(ts) && IsText(RenderAll(ts) + rest)
    ensures AllTextual(ts) && IsText(rest)
    decreases ts
  {
    hide IsText, Render, Shaped, Textual;
    if ts == [] {
      assert [] + rest == rest;
    } else {
      hide RenderAll;
      RenderFirst(ts);
      Assoc(Render(ts[0]), RenderAll(ts[1..]), rest);
      TreeInside(ts[0], RenderAll(ts[1..]) + rest);
      TreesInside(ts[1..], rest);
    }
  }

  /** The text of a forest is UTF-8 made of Chars if and only if what is printed as it is, is. */
  lemma RenderIsTextIff(ts: seq<Tree>)
    requires AllShaped(ts)
    ensures IsText(RenderAll(ts)) <==> AllTextual(ts)
  {
    hide IsText, RenderAll, AllShaped, AllTextual;
    if AllTextual(ts) {
      AllRenderIsText(ts);
    }
    if IsText(RenderAll(ts)) {
      assert RenderAll(ts) + [] == RenderAll(ts);
      TreesInside(ts, []);
    }
  }
}
