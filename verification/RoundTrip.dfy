/** Writing a document and reading it back: every error-free run of an enforcing writer. */
module RoundTrip {
  import opened Bytes
  import opened Utf8
  import opened Check
  import opened Escape
  import opened EscapeProofs
  import opened Nodes
  import opened Document
  import opened Trees
  import opened Writer
  import opened Runs
  import opened Reader
  import opened TreeReads
  import opened Exact
  import opened Returns
  import opened DocReads
  import opened Enforced

  // ---------------------------------------------------------------- what enforcing guarantees a reader

  predicate PlainKind(k: NodeKind) {
    k == ElemNode || k == CommentNode || k == CDataNode || k == TextNode || k == PINode
  }

  /** Neither XML declarations nor DTDs. */
  predicate Plain(ts: seq<Tree>) {
    forall t | t in ts :: PlainKind(TreeKind(t))
  }

  /** A comment or a CDATA section holds nothing but its pieces. */
  lemma {:induction false} SoundPieces(kids: seq<Tree>, kind: NodeKind)
    requires AllSound(kids, kind) && (kind == CommentNode || kind == CDataNode)
    ensures Pieces(kids)
  {
    hide Sound;
    if kids != [] {
      SoundPieces(kids[1..], kind);
      forall k | k in kids ensures k == kids[0] || k in kids[1..] {
      }
    }
  }

  lemma {:induction false} SoundIsShaped(t: Tree)
    requires Sound(t) && PlainKind(TreeKind(t))
    ensures Shaped(t)
    decreases t
  {
    hide AllSound, AllShaped, ValidName, PIOk, Pieces, NamesOk, AllNamed, Plain;
    if t.Branch? {
      if t.head.HElem? {
        AllSoundShaped(t.kids, ElemNode);
      } else {
        SoundPieces(t.kids, HeadKind(t.head));
      }
    }
  }

  lemma {:induction false} AllSoundShaped(ts: seq<Tree>, parent: NodeKind)
    requires AllSound(ts, parent) && (parent == ElemNode || Plain(ts))
    ensures AllShaped(ts)
    decreases ts
  {
    hide Sound, Shaped;
    if ts != [] {
      SoundIsShaped(ts[0]);
      AllSoundShaped(ts[1..], parent);
    }
  }

  // ---------------------------------------------------------------- runs

  /** The forest of an error-free run is read back from its text if and only if it is legible, and as a document
      entity, with line ends for its carriage returns, if and only if it also has one root. */
  lemma RunReads(cap: nat, ops: seq<Op>, cfg: Config, grow: Growth)
    requires cfg.enforce && forall op | op in ops :: Typed(op)
    ensures var o := Steps(Zip([], Bottom), cap, ops, cfg, grow);
      o.Done? && o.zip.stack.Bottom? && Plain(o.zip.done) ==>
        && (Read(RenderAll(o.zip.done)) == Some(JoinAll([], o.zip.done)) <==> Legible(o.zip.done))
        && (ReadDocument(RenderAll(o.zip.done)) == Some(FoldNodes(JoinAll([], o.zip.done))) <==>
              Legible(o.zip.done) && OneRoot(JoinAll([], o.zip.done)))
  {
    hide Steps, Read, ReadDocument, OneRoot, RenderAll, JoinAll, FoldNodes, Legible, AllShaped, Plain, AllSound;
    var z := Zip([], Bottom);
    var o := Steps(z, cap, ops, cfg, grow);
    assert ZipSound(z) by { NoneSound(NoNode); }
    RunSound(z, cap, ops, cfg, grow);
    if o.Done? && o.zip.stack.Bottom? && Plain(o.zip.done) {
      AllSoundShaped(o.zip.done, NoNode);
      ReadBackIff(o.zip.done);
      FragmentReadsIff(o.zip.done);
    }
  }

  predicate OneDoc(ts: seq<Tree>) {
    |ts| == 1 && ts[0].Branch? && ts[0].head.HDoc?
  }

  /** A document without a DTD, for a writer whose line ends are white space. */
  predicate PlainDoc(t: Tree)
    requires t.Branch? && t.head.HDoc?
  {
    (forall c | c in t.head.newline :: Escape.Space(c)) && Plain(t.kids)
  }

  lemma SoundDocShaped(t: Tree)
    requires Sound(t) && t.Branch? && t.head.HDoc? && PlainDoc(t)
    ensures ShapedDoc(t)
  {
    hide Plain, AllShaped, NamesOk, AllNamed, Sound;
    SoundDocParts(t);
    AllSoundShaped(t.kids, DocNode);
    NoTextFirst(t.kids);
  }

  lemma SoundDocParts(t: Tree)
    requires Sound(t) && t.Branch? && t.head.HDoc?
    ensures !t.made.stale && NamesOk(t.atts) && AllNamed(t.atts) && AllSound(t.kids, DocNode)
  {
    hide NamesOk, AllNamed, AllSound;
  }

  lemma NoTextFirst(kids: seq<Tree>)
    requires AllSound(kids, DocNode)
    ensures kids != [] ==> !(kids[0].Leaf? && kids[0].leaf.Text?)
  {
  }

  /** A run that starts a document node first: its content is read back as a document entity, with line ends for its
      carriage returns, if and only if the declaration is allowed, the content is legible and there is one root. */
  lemma RunReadsDoc(cap: nat, ops: seq<Op>, cfg: Config, grow: Growth)
    requires cfg.enforce && forall op | op in ops :: Typed(op)
    ensures var o := Steps(Zip([], Bottom), cap, ops, cfg, grow);
      o.Done? && o.zip.stack.Bottom? && OneDoc(o.zip.done) && PlainDoc(o.zip.done[0]) ==>
        var t := o.zip.done[0];
        ReadDocument(RenderAll(o.zip.done)) == Some(FoldNodes(JoinAll([], t.kids))) <==>
          DeclOk(RawAtts(t.atts)) && Legible(t.kids) && OneRoot(JoinAll([], t.kids))
  {
    hide Steps, ReadDocument, OneRoot, DeclOk, RawAtts, RenderAll, JoinAll, FoldNodes, Legible, ShapedDoc, PlainDoc,
      Sound;
    var z := Zip([], Bottom);
    var o := Steps(z, cap, ops, cfg, grow);
    RunSound(z, cap, ops, cfg, grow);
    if o.Done? && o.zip.stack.Bottom? && OneDoc(o.zip.done) && PlainDoc(o.zip.done[0]) {
      var t := o.zip.done[0];
      SoundDocShaped(t);
      DocumentReadsIff(t);
      RenderOne(t);
      assert o.zip.done == [t];
    }
  }

  lemma RenderOne(t: Tree)
    ensures RenderAll([t]) == Render(t)
  {
    hide Render;
    assert [t][..0] == [];
    assert [] + Render(t) == Render(t);
  }

  /** Whole runs: when every call has succeeded, what a reader takes from the bytes in the output is the document that
      the calls describe, exactly if that document is legible, with one root and an allowed declaration. */
  method WriteDocument(w: Writer, ops: seq<Op>) returns (ok: bool)
    requires Ready(w) && w.clean && w.doc == Zip([], Bottom)
    requires w.cfg.enforce && w.indenter == null
    requires forall op | op in ops :: Typed(op)
    modifies w, w.printer, w.indenter
    ensures ok && w.clean ==>
      && Steps(Zip([], Bottom), old(w.cap), ops + [OpEndAll], w.cfg, w.grow).Done?
      && w.doc == Steps(Zip([], Bottom), old(w.cap), ops + [OpEndAll], w.cfg, w.grow).zip
      && (Plain(w.doc.done) ==>
            && (Read(w.printer.out) == Some(JoinAll([], w.doc.done)) <==> Legible(w.doc.done))
            && (ReadDocument(w.printer.out) == Some(FoldNodes(JoinAll([], w.doc.done))) <==>
                  Legible(w.doc.done) && OneRoot(JoinAll([], w.doc.done))))
      && (OneDoc(w.doc.done) && PlainDoc(w.doc.done[0]) ==>
            var t := w.doc.done[0];
            ReadDocument(w.printer.out) == Some(FoldNodes(JoinAll([], t.kids))) <==>
              DeclOk(RawAtts(t.atts)) && Legible(t.kids) && OneRoot(JoinAll([], t.kids)))
  {
    hide Steps, Read, ReadDocument, OneRoot, DeclOk, RawAtts, RenderAll, JoinAll, FoldNodes, Legible, Plain, PlainDoc;
    RunReads(w.cap, ops + [OpEndAll], w.cfg, w.grow);
    RunReadsDoc(w.cap, ops + [OpEndAll], w.cfg, w.grow);
    ok := RunAndClose(w, ops);
  }

  // ---------------------------------------------------------------- allowed declarations

  predicate AllFast(s: Str) {
    forall b | b in s :: Fast(b)
  }

  /** What is not let through as it is does not look as if it had been. */
  lemma SlowRune(s: Str)
    requires s != [] && !Fast(s[0])
    ensures EscapedRune(s, true) != [] && !Fast(EscapedRune(s, true)[0])
  {
    hide DecodeRune;
    if Special(s[0], true) {
      SpecialRune(s, true);
    } else {
      EscapedOrdinary(s, true);
      OrdinaryBytes(s, true);
      ReplacementIsSlow();
    }
  }

  lemma ReplacementIsSlow()
    ensures REPLACEMENT != [] && !Fast(REPLACEMENT[0])
  {
  }

  lemma FastEscaped(v: Str)
    ensures AllFast(v) ==> EscapeAttr(v) == v
    ensures AllFast(EscapeAttr(v)) ==> AllFast(v)
  {
    hide EscapedRune, Fast;
    var k := FastPrefix(v);
    if k == |v| {
      assert v[..k] == v && v[k..] == [] && v + [] == v;
    } else {
      var t := v[k..];
      SlowRune(t);
      assert v[k] in v;
      assert EscapeAttr(v)[k] == EscapedRune(t, true)[0];
      assert EscapeAttr(v)[k] in EscapeAttr(v);
    }
  }

  lemma ValueEscaped(v: Str)
    ensures VersionNum(EscapeAttr(v)) <==> VersionNum(v)
    ensures IsUtf8(EscapeAttr(v)) <==> IsUtf8(v)
  {
    hide EscapeAttr;
    FastEscaped(v);
    DigitsAreFast(v);
    DigitsAreFast(EscapeAttr(v));
  }

  lemma DigitsAreFast(s: Str)
    ensures VersionNum(s) || IsUtf8(s) ==> AllFast(s)
  {
    if VersionNum(s) {
      forall b | b in s ensures Fast(b) {
        var i :| 0 <= i < |s| && s[i] == b;
      }
    }
  }

  /** The declaration that a writer prints is allowed if and only if the version is not left out and is a version
      number, and the encoding is left out or is UTF-8. */
  lemma DeclOkIff(d: DocDecl, cfg: Config)
    ensures DeclOk(RawAtts(DocAtts(d, cfg))) <==>
      && !d.suppressVersion && VersionNum(DocVersion(d, cfg))
      && (d.suppressEncoding || DocEncoding(d, cfg) == [] || IsUtf8(DocEncoding(d, cfg)))
  {
    hide EscapeAttr, VersionNum, IsUtf8, DocVersion, DocEncoding, DeclOk, RawAtts;
    ValueEscaped(DocVersion(d, cfg));
    ValueEscaped(DocEncoding(d, cfg));
    FastEscaped("yes");
    FastEscaped("no");
    var v, e, a := VersionAtts(d, cfg), EncodingAtts(d, cfg), StandaloneAtts(d);
    RawConcat(v + e, a);
    RawConcat(v, e);
    RawOne(v);
    RawOne(e);
    RawOne(a);
    DeclParts(RawAtts(v), RawAtts(e), RawAtts(a));
  }

  lemma DeclParts(v: seq<Att>, e: seq<Att>, a: seq<Att>)
    requires |v| <= 1 && |e| <= 1 && StandaloneOk(a)
    requires v != [] ==> v[0].name == "version"
    requires e != [] ==> e[0].name == "encoding"
    ensures DeclOk(v + e + a) <==> v != [] && VersionNum(v[0].value) && (e == [] || IsUtf8(e[0].value))
  {
    hide IsUtf8, VersionNum;
    var all := v + e + a;
    if v != [] {
      assert all[0] == v[0];
      if e != [] {
        assert all[1] == e[0] && all[2..] == a;
      } else {
        assert all[1..] == a;
        assert |all| > 1 ==> all[1] == a[0];
      }
    } else if all != [] {
      assert all[0] == if e != [] then e[0] else a[0];
    }
  }

  lemma {:induction false} RawConcat(a: seq<Att>, b: seq<Att>)
    ensures RawAtts(a + b) == RawAtts(a) + RawAtts(b)
  {
    hide EscapeAttr;
    if a == [] {
      assert a + b == b;
    } else {
      assert (a + b)[1..] == a[1..] + b;
      RawConcat(a[1..], b);
    }
  }

  lemma RawOne(a: seq<Att>)
    requires |a| <= 1
    ensures RawAtts(a) == if a == [] then [] else [Att(a[0].name, EscapeAttr(a[0].value))]
  {
    hide EscapeAttr;
    if a != [] {
      assert a[1..] == [];
    }
  }
}
