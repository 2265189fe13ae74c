/** Document entities: a forest with one root, with or without an XML declaration. */
module DocReads {
  import opened Bytes
  import opened Utf8
  import opened Check
  import opened Escape
  import opened EscapeProofs
  import opened Printer
  import opened Document
  import opened Reader
  import opened ReaderProofs
  import opened TreeReads
  import opened Returns

  // ---------------------------------------------------------------- no declaration

  lemma XmlTarget(target: Str, rest: Str)
    requires ValidName(target) && target != []
    ensures HasDecl("<?" + (target + (" " + rest))) ==> target == "xml"
  {
    hide ValidName, XmlName, NameByte, NameLength;
    var s := target + (" " + rest);
    EqualsEnds();
    NameReads(target, " " + rest);
    if HasDecl("<?" + s) {
      assert ("<?" + s)[..5][2..] == s[..3];
      assert "<?xml"[2..] == "xml";
      var x: Str := "xml";
      assert s[3] == ("<?" + s)[5];
      assert s == x + s[3..];
      SpaceEnds(s[3]);
      XmlIsName();
      NameStopsAt(x, s[3..]);
      assert target == s[..3] == x;
    }
  }

  lemma SpaceEnds(b: byte)
    requires Escape.Space(b)
    ensures !NameByte(b)
  {
  }

  lemma XmlIsName()
    ensures NameByte('x') && NameByte('m') && NameByte('l')
  {
  }

  lemma NoLessThan(s: Str, rest: Str)
    ensures EscapeMap(s, false) != [] ==> !HasDecl(EscapeMap(s, false) + rest)
  {
    hide EscapeMap;
    EscapedBytes(s, false);
    var e := EscapeMap(s, false);
    if e != [] {
      assert e[0] in e;
      FirstByte(e + rest);
    }
  }

  lemma FirstByte(s: Str)
    ensures HasDecl(s) ==> s[0] == '<' && s[1] == '?'
  {
    assert |s| >= 5 ==> s[..5][0] == s[0] && s[..5][1] == s[1];
  }

  /** What a tree begins with. */
  lemma FirstMark(t: Tree)
    requires Shaped(t)
    ensures !(t.Leaf? && t.leaf.Text?) ==> Render(t) != [] && Render(t)[0] == '<'
  {
    hide EscapeMap, ValidName, NamesOk, AllShaped, AttsBytes, RenderAll, Contains;
  }

  lemma TargetNoDecl(target: Str, content: Str, rest: Str)
    requires PIOk(target, content)
    ensures !HasDecl("<?" + target + " " + content + "?>" + rest)
  {
    hide ValidName, HasDecl, Contains;
    var s := content + ("?>" + rest);
    PIPieces(target, content, rest);
    assert target + " " + content + "?>" + rest == target + (" " + s) by {
      Assoc(target + " " + content, "?>", rest);
      Assoc(target + " ", content, "?>" + rest);
      Assoc(target, " ", s);
    }
    if target == [] {
      NoTarget(s);
    } else {
      XmlTarget(target, s);
    }
  }

  lemma NoTarget(s: Str)
    ensures !HasDecl("<?" + ([] + (" " + s)))
  {
    var t := "<?" + ([] + (" " + s));
    assert t[2] == ' ';
    assert |t| >= 5 ==> t[..5][2] == t[2];
  }

  lemma NoDeclaration(t: Tree, rest: Str)
    requires Shaped(t)
    ensures Render(t) != [] ==> !HasDecl(Render(t) + rest)
  {
    hide EscapeMap, ValidName, NamesOk, AllShaped, XmlName, HasDecl, AttsBytes, RenderAll, NameByte, Contains, PIOk;
    if t.Leaf? && t.leaf.Text? {
      NoLessThan(t.leaf.text, rest);
    } else if t.Leaf? {
      TargetNoDecl(t.leaf.target, t.leaf.content, rest);
    } else {
      if t.head.HElem? {
        NameReads(t.head.name, []);
        Delimiters(t.head.name[0]);
        assert Render(t)[1] == t.head.name[0];
      }
      FirstByte(Render(t) + rest);
    }
  }

  lemma {:induction false} NoDeclarationAll(ts: seq<Tree>)
    requires AllShaped(ts)
    ensures !HasDecl(RenderAll(ts))
  {
    hide Shaped, Render;
    if ts != [] {
      hide RenderAll;
      RenderFirst(ts);
      NoDeclaration(ts[0], RenderAll(ts[1..]));
      NoDeclarationAll(ts[1..]);
      if Render(ts[0]) == [] {
        assert Render(ts[0]) + RenderAll(ts[1..]) == RenderAll(ts[1..]);
      }
    }
  }

  lemma OneRootFold(kids: seq<XNode>)
    ensures OneRoot(FoldNodes(kids)) <==> OneRoot(kids)
  {
    hide FoldNodes, LineEnds;
    var us := FoldNodes(kids);
    forall i | 0 <= i < |kids| ensures us[i] == FoldNode(kids[i]) {
      FoldAt(kids, i);
    }
    assert forall k | k in us :: exists i | 0 <= i < |us| :: us[i] == k;
    if OneRoot(kids) {
      var i :| 0 <= i < |kids| && kids[i].XElem? && forall j | 0 <= j < |kids| && j != i :: !kids[j].XElem?;
      assert us[i].XElem? && forall j | 0 <= j < |us| && j != i :: !us[j].XElem?;
    }
    if OneRoot(us) {
      var i :| 0 <= i < |us| && us[i].XElem? && forall j | 0 <= j < |us| && j != i :: !us[j].XElem?;
      forall j | 0 <= j < |kids| ensures us[j] in us && kids[j].XElem? == us[j].XElem? {
      }
      assert kids[i].XElem?;
    }
  }

  lemma FragmentText(ts: seq<Tree>)
    requires AllShaped(ts)
    ensures ReadDocument(RenderAll(ts)) == RootOf(Read(LineEnds(RenderAll(ts))))
  {
    hide RenderAll, FoldAll, ReadContent, IsText, HasDecl, OneRoot, LineEnds, AllShaped, Foldable;
    ShapedFoldable(ts);
    FoldRenderAll(false, ts);
    FoldFirst(RenderAll(ts));
    FoldAllShaped(false, ts);
    NoDeclarationAll(FoldAll(false, ts));
  }

  /** A forest without an XML declaration, as a document entity: a reader gets the forest back, with line ends for its
      carriage returns, if and only if it is legible and has one root. */
  lemma FragmentReadsIff(ts: seq<Tree>)
    requires AllShaped(ts)
    ensures ReadDocument(RenderAll(ts)) == Some(FoldNodes(JoinAll([], ts))) <==>
      Legible(ts) && OneRoot(JoinAll([], ts))
    ensures Legible(ts) && !OneRoot(JoinAll([], ts)) ==> ReadDocument(RenderAll(ts)).None?
  {
    hide RenderAll, ReadDocument, Read, LineEnds, JoinAll, FoldNodes, Legible, AllShaped, OneRoot;
    FragmentText(ts);
    LinesReadBackIff(ts);
    OneRootFold(JoinAll([], ts));
  }

  // ---------------------------------------------------------------- XML declarations

  lemma {:induction false} SkipAll(a: Str, b: Str)
    requires (forall c | c in a :: Escape.Space(c)) && (b != [] ==> !Escape.Space(b[0]))
    ensures SkipSpace(a + b) == b
  {
    if a == [] {
      assert a + b == b;
    } else {
      assert (a + b)[1..] == a[1..] + b;
      SkipAll(a[1..], b);
    }
  }

  /** The attributes as they stand in the text. */
  function RawAtts(atts: seq<Att>): seq<Att> {
    if atts == [] then [] else [Att(atts[0].name, EscapeAttr(atts[0].value))] + RawAtts(atts[1..])
  }

  lemma PseudoReads(a: Att, more: Str)
    requires ValidName(a.name) && a.name != []
    ensures ReadPseudo(a.name + ("=\"" + (EscapeAttr(a.value) + ['"'] + more))) ==
      Some(OneAtt(Att(a.name, EscapeAttr(a.value)), more))
  {
    hide AttValue, Sanitise, EscapeAttr, ValidName, XmlName, ReadTo, NameByte;
    var v := EscapeAttr(a.value) + ['"'] + more;
    var t := a.name + ("=\"" + v);
    var n := |a.name|;
    assert !NameByte('=') by { EqualsEnds(); }
    NameReads(a.name, "=\"" + v);
    ValueReads(a.value);
    QuotedReads(EscapeAttr(a.value), '"', more);
    assert t[n..] == "=\"" + v && t[n] == '=' && t[n + 1] == '"';
    assert t[n + 2..] == v;
  }

  lemma DeclStep(a: Att, more: Str)
    requires ValidName(a.name) && a.name != []
    ensures ReadDecl(AttBytes(a.name, a.value) + more) ==
      match ReadDecl(more)
      case None => None
      case Some(m) => Some(Decl([Att(a.name, EscapeAttr(a.value))] + m.atts, m.rest))
  {
    hide EscapeAttr, ValidName, XmlName, ReadPseudo, NameByte, StartsWith, SkipSpace;
    var t := a.name + ("=\"" + (EscapeAttr(a.value) + ['"'] + more));
    AttPieces(a.name, EscapeAttr(a.value), more);
    NameReads(a.name, []);
    TagSpace(t, more);
    NotQuestion(t);
    PseudoReads(a, more);
  }

  lemma NotQuestion(t: Str)
    requires t != [] && NameByte(t[0])
    ensures !StartsWith(t, "?>")
  {
    Delimiters(t[0]);
    assert |t| >= 2 ==> t[..2][0] == t[0];
  }

  lemma DeclEnds(space: Str, rest: Str)
    requires space == [] || space == " "
    ensures ReadDecl(space + "?>" + rest) == Some(Decl([], rest))
  {
    var s := space + "?>" + rest;
    var t := "?>" + rest;
    Assoc(space, "?>", rest);
    SkipAll(space, t);
    assert t[..2] == "?>" && t[2..] == rest;
  }

  /** The declaration is read as it stands. */
  lemma {:induction false} DeclReads(atts: seq<Att>, space: Str, rest: Str)
    requires NamesOk(atts) && AllNamed(atts) && (space == [] || space == " ")
    ensures ReadDecl(AttsBytes(atts) + (space + "?>" + rest)) == Some(Decl(RawAtts(atts), rest))
  {
    hide AttBytes, ValidName, EscapeAttr, ReadDecl;
    var end := space + "?>" + rest;
    if atts == [] {
      assert [] + end == end;
      DeclEnds(space, rest);
    } else {
      hide AttsBytes;
      AttsFirst(atts);
      var a := atts[0];
      assert a in atts && forall b | b in atts[1..] :: b in atts;
      Assoc(AttBytes(a.name, a.value), AttsBytes(atts[1..]), end);
      DeclStep(a, AttsBytes(atts[1..]) + end);
      DeclReads(atts[1..], space, rest);
    }
  }

  function DeclSpace(atts: seq<Att>): Str {
    if atts == [] then " " else []
  }

  lemma {:induction false} SpacesAreText(s: Str)
    requires forall c | c in s :: Escape.Space(c)
    ensures IsText(s)
  {
    hide DecodeRune;
    if s != [] {
      assert s[0] in s && forall c | c in s[1..] :: c in s;
      SpacesAreText(s[1..]);
    }
  }

  lemma DeclBegins(atts: seq<Att>, rest: Str)
    ensures var s := "<?xml" + (AttsBytes(atts) + (DeclSpace(atts) + rest));
      HasDecl(s) && s[5..] == AttsBytes(atts) + (DeclSpace(atts) + rest)
  {
    hide AttBytes;
    var s := "<?xml" + (AttsBytes(atts) + (DeclSpace(atts) + rest));
    assert s[..5] == "<?xml";
    if atts != [] {
      hide AttsBytes;
      AttsFirst(atts);
      AttBytesSpace(atts[0]);
      assert s[5] == AttsBytes(atts)[0];
    } else {
      assert s[5] == ' ';
    }
  }

  /** A document node as enforcing lets it pass, without a DTD, and with white space after its declaration. */
  predicate ShapedDoc(t: Tree) {
    && t.Branch? && t.head.HDoc? && !t.made.stale
    && NamesOk(t.atts) && AllNamed(t.atts) && (forall c | c in t.head.newline :: Escape.Space(c))
    && AllShaped(t.kids) && (t.kids != [] ==> !(t.kids[0].Leaf? && t.kids[0].leaf.Text?))
  }

  /** The declaration with its delimiters. */
  function DeclText(atts: seq<Att>): Str {
    "<?xml" + (AttsBytes(atts) + (DeclSpace(atts) + "?>"))
  }

  lemma DocText(t: Tree)
    requires ShapedDoc(t)
    ensures Render(t) == DeclText(t.atts) + t.head.newline + RenderAll(t.kids)
  {
    hide AttsBytes, RenderAll, AllShaped, NamesOk, AllNamed;
    var a, sp, n, k := AttsBytes(t.atts), DeclSpace(t.atts), t.head.newline, RenderAll(t.kids);
    assert Render(t) == "<?xml" + a + sp + "?>" + n + [] + k + [];
    Assoc("<?xml" + a, sp, "?>");
    Assoc("<?xml", a, sp + "?>");
    assert "<?xml" + a + sp + "?>" + n + [] == DeclText(t.atts) + n;
  }

  lemma DeclHoldsNoReturn(atts: seq<Att>)
    requires NamesOk(atts)
    ensures '\r' !in DeclText(atts) && DeclText(atts) != [] && DeclText(atts)[0] == '<'
  {
    hide AttsBytes, NamesOk;
    AttsHoldNoReturn(atts);
  }

  lemma DeclIsText(atts: seq<Att>)
    requires NamesOk(atts)
    ensures IsText(DeclText(atts))
  {
    hide AttsBytes, IsText, NamesOk;
    AttsAreText(atts);
    PrintableText("<?xml");
    PrintableText(DeclSpace(atts));
    PrintableText("?>");
    TextConcat(DeclSpace(atts), "?>");
    TextConcat(AttsBytes(atts), DeclSpace(atts) + "?>");
    TextConcat("<?xml", AttsBytes(atts) + (DeclSpace(atts) + "?>"));
  }

  lemma KidsStart(kids: seq<Tree>)
    requires AllShaped(kids) && (kids != [] ==> !(kids[0].Leaf? && kids[0].leaf.Text?))
    ensures RenderAll(kids) != [] ==> RenderAll(kids)[0] == '<'
  {
    hide Shaped, Render;
    if kids != [] {
      RenderFirst(kids);
      FirstMark(kids[0]);
    }
  }

  lemma {:induction false} FoldSpaces(s: Str)
    requires forall c | c in s :: Escape.Space(c)
    ensures forall c | c in LineEnds(s) :: Escape.Space(c)
    decreases |s|
  {
    if s != [] {
      var n := LineWidth(s);
      assert s[0] in s && forall c | c in s[n..] :: c in s;
      FoldSpaces(s[n..]);
    }
  }

  lemma FirstStays(s: Str)
    requires s != [] ==> s[0] == '<'
    ensures LineEnds(s) != [] ==> LineEnds(s)[0] == '<'
    ensures forall after: bool :: Fold(after, s) == LineEnds(s)
  {
  }

  /** The text of a document after line ends. */
  lemma DocLines(t: Tree)
    requires ShapedDoc(t)
    ensures LineEnds(Render(t)) == DeclText(t.atts) + (LineEnds(t.head.newline) + LineEnds(RenderAll(t.kids)))
  {
    hide AttsBytes, RenderAll, AllShaped, NamesOk, AllNamed, DeclText, Render, LineEnds, Fold, Carry;
    var d, n, k := DeclText(t.atts), t.head.newline, RenderAll(t.kids);
    DocText(t);
    DeclHoldsNoReturn(t.atts);
    KidsStart(t.kids);
    FirstStays(k);
    Assoc(d, n, k);
    FoldFirst(d + (n + k));
    FoldFirst(n);
    FoldConcat(false, d, n + k);
    FoldPlain(false, d);
    FoldConcat(false, n, k);
  }

  /** A reader of documents takes the declaration, the white space and the rest. */
  lemma DocParts(atts: seq<Att>, space: Str, body: Str)
    requires NamesOk(atts) && AllNamed(atts) && (forall c | c in space :: Escape.Space(c))
    requires body != [] ==> body[0] == '<'
    ensures var s := DeclText(atts) + (space + body);
      && (IsText(s) <==> IsText(body)) && HasDecl(s)
      && ReadDecl(s[5..]) == Some(Decl(RawAtts(atts), space + body)) && SkipSpace(space + body) == body
  {
    hide AttsBytes, NamesOk, AllNamed, IsText, HasDecl, ReadDecl, RawAtts, SkipSpace;
    var rest := space + body;
    DeclIsText(atts);
    SpacesAreText(space);
    if IsText(body) {
      TextConcat(space, body);
      TextConcat(DeclText(atts), rest);
    }
    if IsText(DeclText(atts) + rest) {
      TextStrip(DeclText(atts), rest);
      TextStrip(space, body);
    }
    SkipAll(space, body);
    DeclReads(atts, DeclSpace(atts), rest);
    DeclBegins(atts, "?>" + rest);
    DeclPieces(AttsBytes(atts), DeclSpace(atts), rest);
  }

  lemma DeclPieces(a: Str, sp: Str, rest: Str)
    ensures "<?xml" + (a + (sp + "?>")) + rest == "<?xml" + (a + (sp + ("?>" + rest)))
    ensures sp + "?>" + rest == sp + ("?>" + rest)
  {
    Assoc(sp, "?>", rest);
    Assoc(a, sp + "?>", rest);
    Assoc("<?xml", a + (sp + "?>"), rest);
  }

  lemma DocEntity(t: Tree)
    requires ShapedDoc(t)
    ensures ReadDocument(Render(t)) ==
      if DeclOk(RawAtts(t.atts)) then RootOf(Read(LineEnds(RenderAll(t.kids)))) else None
  {
    hide RenderAll, Render, ReadContent, ReadDecl, SkipSpace, IsText, HasDecl, OneRoot, DeclOk, RawAtts, LineEnds,
      AllShaped, NamesOk, AllNamed, DeclText;
    DocLines(t);
    FoldSpaces(t.head.newline);
    KidsStart(t.kids);
    FirstStays(RenderAll(t.kids));
    DocParts(t.atts, LineEnds(t.head.newline), LineEnds(RenderAll(t.kids)));
  }

  /** A document with its XML declaration, as a document entity: a reader gets its content back, with line ends for its
      carriage returns, if and only if the declaration is allowed, the content is legible and there is one root. */
  lemma DocumentReadsIff(t: Tree)
    requires ShapedDoc(t)
    ensures ReadDocument(Render(t)) == Some(FoldNodes(JoinAll([], t.kids))) <==>
      DeclOk(RawAtts(t.atts)) && Legible(t.kids) && OneRoot(JoinAll([], t.kids))
    ensures Legible(t.kids) && !(DeclOk(RawAtts(t.atts)) && OneRoot(JoinAll([], t.kids))) ==>
      ReadDocument(Render(t)).None?
  {
    hide RenderAll, Render, ReadDocument, Read, LineEnds, JoinAll, FoldNodes, Legible, AllShaped, OneRoot, DeclOk,
      RawAtts, NamesOk, AllNamed;
    DocEntity(t);
    LinesReadBackIff(t.kids);
    OneRootFold(JoinAll([], t.kids));
  }
}
