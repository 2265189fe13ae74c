/** Exactly which forests a reader gets back from their text. */
module Exact {
  import opened Bytes
  import opened Check
  import opened Escape
  import opened Document
  import opened Reader
  import opened ReaderProofs
  import opened TreeReads

  // ---------------------------------------------------------------- what a reader can come up with

  /** Names and sections that some text can be read as. */
  predicate Proper(n: XNode) {
    match n
    case XElem(name, atts, kids) =>
      XmlName(name) && (forall a | a in atts :: XmlName(a.name)) && DistinctAtts(atts) && AllProper(kids)
    case XText(_) => true
    case XComment(s) => CommentBody(s)
    case XCData(s) => !Contains(s, "]]>")
    case XPI(target, _) => XmlName(target)
  }

  predicate AllProper(kids: seq<XNode>) {
    forall k | k in kids :: Proper(k)
  }

  predicate ProperOpen(o: Open) {
    match o
    case Root(kids) => AllProper(kids)
    case Inside(outer, name, atts, kids) => ProperOpen(outer) && Proper(XElem(name, atts, kids))
  }

  predicate ProperToken(t: Token) {
    match t
    case TStart(name, atts, _) => Proper(XElem(name, atts, []))
    case TNode(n) => Proper(n)
    case _ => true
  }

  lemma {:induction false} ReadAttsNamed(s: Str)
    ensures ReadAtts(s).Some? ==> forall a | a in ReadAtts(s).value.atts :: XmlName(a.name)
    decreases |s|
  {
    hide XmlName, AttValue, ReadTo, StartsWith;
    var t := SkipSpace(s);
    if ReadAtts(s).Some? && !StartsWith(t, ">") && !StartsWith(t, "/>") {
      var a := ReadAtt(t).value;
      ReadAttsNamed(a.rest);
    }
  }

  lemma ReadCommentBody(s: Str)
    ensures Reader.ReadComment(s).Some? ==> ProperToken(Reader.ReadComment(s).value.token)
  {
    hide Contains;
    var d := ReadTo(s, "--");
    if d.Some? {
      var body, k := d.value.body, Find(s, "--");
      ContainsInside(body, "--");
      forall i | 0 <= i < |body| ensures !At(body, "--", i) {
        assert !At(s, "--", i);
        assert i + 2 <= |body| ==> body[i..i + 2] == s[i..i + 2];
      }
      if k > 0 {
        assert !At(s, "--", k - 1);
        assert s[k..k + 2][0] == s[k];
        assert s[k - 1..k + 1] == [s[k - 1], s[k]];
      }
    }
  }

  lemma ReadCDataBody(s: Str)
    ensures Reader.ReadCData(s).Some? ==> ProperToken(Reader.ReadCData(s).value.token)
  {
    hide Contains;
    var d := ReadTo(s, "]]>");
    if d.Some? {
      var body := d.value.body;
      ContainsInside(body, "]]>");
      forall i | 0 <= i < |body| ensures !At(body, "]]>", i) {
        assert !At(s, "]]>", i);
        assert i + 3 <= |body| ==> body[i..i + 3] == s[i..i + 3];
      }
    }
  }

  lemma NothingProper()
    ensures AllProper([])
  {
  }

  lemma ReadTargetNamed(s: Str)
    ensures ReadPI(s).Some? ==> ProperToken(ReadPI(s).value.token)
  {
    hide XmlName, ReadTo, IsXml, NameLength, SkipSpace;
  }

  lemma ReadTagNamed(s: Str)
    ensures ReadStartTag(s).Some? ==> ProperToken(ReadStartTag(s).value.token)
    ensures ReadEndTag(s).Some? ==> ReadEndTag(s).value.token.TEnd?
  {
    hide XmlName, ReadAtts, NameLength, SkipSpace, DistinctAtts, AllProper;
    NothingProper();
    ReadAttsNamed(s[NameLength(s)..]);
  }

  lemma ReadProperToken(s: Str)
    requires s != []
    ensures NextToken(s).Some? ==> ProperToken(NextToken(s).value.token)
  {
    hide ReadData, Reader.ReadComment, Reader.ReadCData, ReadPI, ReadStartTag, ReadEndTag, Proper;
    DataIsData(s);
    if StartsWith(s, "<!--") {
      ReadCommentBody(s[4..]);
    } else if StartsWith(s, "<![CDATA[") {
      ReadCDataBody(s[9..]);
    } else if s[0] == '<' {
      ReadTagNamed(s[1..]);
      if |s| >= 2 {
        ReadTargetNamed(s[2..]);
        ReadTagNamed(s[2..]);
      }
    }
  }

  lemma DataIsData(s: Str)
    requires s != []
    ensures ReadData(s).Some? ==> ReadData(s).value.token.TData?
  {
  }

  lemma ProperKids(o: Open, kids: seq<XNode>)
    requires ProperOpen(o) && AllProper(kids)
    ensures ProperOpen(WithKids(o, kids))
  {
    hide XmlName, DistinctAtts, AllProper;
  }

  lemma ProperSnoc(kids: seq<XNode>, n: XNode)
    ensures AllProper(kids + [n]) <==> AllProper(kids) && Proper(n)
  {
    hide Proper;
    assert n in kids + [n] && forall k | k in kids :: k in kids + [n];
  }

  lemma ProperText(kids: seq<XNode>, text: Str)
    ensures AllProper(JoinText(kids, text)) <==> AllProper(kids)
  {
    if text != [] {
      if kids != [] && kids[|kids| - 1].XText? {
        var n := |kids| - 1;
        assert kids == kids[..n] + [kids[n]];
        ProperSnoc(kids[..n], kids[n]);
        ProperSnoc(kids[..n], XText(kids[n].text + text));
      } else {
        ProperSnoc(kids, XText(text));
      }
    }
  }

  lemma ProperInside(o: Open)
    requires ProperOpen(o)
    ensures AllProper(o.kids) && (o.Inside? ==> ProperOpen(o.outer) && Proper(XElem(o.name, o.atts, o.kids)))
  {
    hide XmlName, DistinctAtts;
  }

  lemma ProperFeed(o: Open, t: Token)
    requires ProperOpen(o) && ProperToken(t)
    ensures Feed(o, t).Some? ==> ProperOpen(Feed(o, t).value)
  {
    hide Proper, AllProper, JoinText;
    ProperInside(o);
    match t {
      case TStart(name, atts, empty) =>
        if empty {
          ProperSnoc(o.kids, XElem(name, atts, []));
          ProperKids(o, o.kids + [XElem(name, atts, [])]);
        }
      case TEnd(name) =>
        if Feed(o, t).Some? {
          ProperInside(o.outer);
          ProperSnoc(o.outer.kids, XElem(name, o.atts, o.kids));
          ProperKids(o.outer, o.outer.kids + [XElem(name, o.atts, o.kids)]);
        }
      case TData(text) =>
        ProperText(o.kids, text);
        ProperKids(o, JoinText(o.kids, text));
      case TNode(n) =>
        ProperSnoc(o.kids, n);
        ProperKids(o, o.kids + [n]);
    }
  }

  lemma {:induction false} ReadProper(o: Open, s: Str)
    requires ProperOpen(o)
    ensures ReadFrom(o, s).Some? ==> ProperOpen(ReadFrom(o, s).value)
    decreases |s|
  {
    hide ProperOpen, ProperToken, NextToken, Feed;
    if s != [] && NextToken(s).Some? {
      var l := NextToken(s).value;
      ReadProperToken(s);
      ProperFeed(o, l.token);
      if Feed(o, l.token).Some? {
        ReadProper(Feed(o, l.token).value, l.rest);
      }
    }
  }

  // ---------------------------------------------------------------- trees that stand for such nodes

  lemma {:induction false} NamedIfProper(atts: seq<Att>)
    requires forall a | a in SaneAtts(atts) :: XmlName(a.name)
    ensures AllNamed(atts)
  {
    hide XmlName, Sanitise;
    if atts != [] {
      NoName();
      assert SaneAtts(atts)[0] in SaneAtts(atts);
      assert forall a | a in SaneAtts(atts[1..]) :: a in SaneAtts(atts);
      NamedIfProper(atts[1..]);
      assert forall a | a in atts :: a == atts[0] || a in atts[1..];
    }
  }

  lemma DistinctIfProper(atts: seq<Att>)
    ensures DistinctAtts(SaneAtts(atts)) <==> DistinctAtts(atts)
  {
    hide SaneAtts;
    SaneNames(atts);
  }

  lemma {:induction false} LexicalIfProper(kids: seq<XNode>, t: Tree)
    requires Shaped(t) && AllProper(Join(kids, t))
    ensures Lexical(t) && AllProper(kids)
    decreases t
  {
    hide Proper, AllProper, AllShaped, AllLexical, NamesOk, ValidName, BodyOf, JoinAll, SaneAtts, Sanitise, SkipSpace,
      AllNamed, DistinctAtts, JoinText, CommentBody, Contains, Pieces;
    match t {
      case Leaf(l) =>
        if l.Text? {
          ProperText(kids, Sanitise(l.text));
        } else {
          ProperSnoc(kids, XPI(l.target, SkipSpace(l.content)));
          ProperTarget(l.target, SkipSpace(l.content));
        }
      case Branch(h, atts, ts, _, _) =>
        if h.HElem? {
          var n := XElem(h.name, SaneAtts(atts), JoinAll([], ts));
          ProperSnoc(kids, n);
          ProperElem(h.name, atts, JoinAll([], ts));
          AllLexicalIfProper([], ts);
        } else if h.HComment? {
          ProperSnoc(kids, XComment(BodyOf(ts)));
          ProperSection(BodyOf(ts));
        } else {
          ProperSnoc(kids, XCData(BodyOf(ts)));
          ProperSection(BodyOf(ts));
        }
    }
  }

  lemma ProperTarget(target: Str, content: Str)
    ensures Proper(XPI(target, content)) ==> target != []
  {
  }

  lemma ProperSection(s: Str)
    ensures Proper(XComment(s)) == CommentBody(s) && Proper(XCData(s)) == !Contains(s, "]]>")
  {
  }

  lemma ProperElem(name: Str, atts: seq<Att>, kids: seq<XNode>)
    requires Proper(XElem(name, SaneAtts(atts), kids))
    ensures AllNamed(atts) && DistinctAtts(atts) && AllProper(kids)
  {
    hide XmlName, SaneAtts, DistinctAtts, AllNamed;
    NamedIfProper(atts);
    DistinctIfProper(atts);
  }

  lemma {:induction false} AllLexicalIfProper(kids: seq<XNode>, ts: seq<Tree>)
    requires AllShaped(ts) && AllProper(JoinAll(kids, ts))
    ensures AllLexical(ts) && AllProper(kids)
    decreases ts
  {
    hide Shaped, Lexical, AllProper, Join;
    if ts != [] {
      AllLexicalIfProper(Join(kids, ts[0]), ts[1..]);
      LexicalIfProper(kids, ts[0]);
    }
  }

  lemma ContentIsProper(s: Str)
    ensures ReadContent(s).Some? ==> AllProper(ReadContent(s).value)
  {
    hide AllProper, ReadFrom;
    NothingProper();
    ReadProper(Root([]), s);
  }

  /** Print, then parse: the reader returns the forest that was printed, up to U+FFFD replacement in escaped text and
      attribute values and merging of adjacent text, if and only if it is legible. */
  lemma ReadBackIff(ts: seq<Tree>)
    requires AllShaped(ts)
    ensures Read(RenderAll(ts)) == Some(JoinAll([], ts)) <==> Legible(ts)
  {
    hide IsText, RenderAll, ReadContent, JoinAll, AllShaped, AllLexical, AllLosses, AllTextual, AllProper;
    RenderIsTextIff(ts);
    if Read(RenderAll(ts)) == Some(JoinAll([], ts)) {
      ContentIsProper(RenderAll(ts));
      AllLexicalIfProper([], ts);
    }
    if AllLexical(ts) {
      ContentReadsIff(ts);
    }
  }
}
