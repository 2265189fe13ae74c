/** A reader for XML documents in UTF-8 without a DTD: sections 2.2 to 2.8, 2.11, 3.1, 3.3.3, 4.1 and 4.3.3 of XML 1.0.
    It is stricter than it has to be in places: no space around '=', no character data outside the root element, and
    no declared encoding other than UTF-8. */
module Reader {
  import opened Bytes
  import opened Utf8
  import opened Check
  import opened Escape
  import opened Document

  datatype XNode =
    | XElem(name: Str, atts: seq<Att>, kids: seq<XNode>)
    | XText(text: Str)
    | XComment(text: Str)
    | XCData(text: Str)
    | XPI(target: Str, content: Str)

  datatype Token =
    | TStart(name: Str, atts: seq<Att>, empty: bool)
    | TEnd(name: Str)
    | TData(text: Str)
    | TNode(node: XNode)

  datatype Lexed = Lexed(token: Token, rest: Str)

  predicate StartsWith(s: Str, p: Str) {
    |p| <= |s| && s[..|p|] == p
  }

  predicate NameByte(b: byte) {
    b as int >= 0x80 || InName(b as int)
  }

  /** The length of the longest prefix that can be a name. */
  function NameLength(s: Str): (n: nat)
    ensures n <= |s|
  {
    if s == [] || !NameByte(s[0]) then 0 else 1 + NameLength(s[1..])
  }

  function SkipSpace(s: Str): (r: Str)
    ensures |r| <= |s|
  {
    if s != [] && Space(s[0]) then SkipSpace(s[1..]) else s
  }

  datatype Delimited = Delimited(body: Str, rest: Str)

  /** Everything up to the first occurrence of `end`, and what follows it. */
  function ReadTo(s: Str, end: Str): (d: Option<Delimited>)
    requires end != []
    ensures d.Some? ==> |d.value.rest| < |s|
  {
    var k := Find(s, end);
    if k < |s| then Some(Delimited(s[..k], s[k + |end|..])) else None
  }

  datatype TagRest = TagRest(atts: seq<Att>, empty: bool, rest: Str)

  /** The attributes of a start tag, and its end. */
  function ReadAtts(s: Str): (r: Option<TagRest>)
    ensures r.Some? ==> |r.value.rest| < |s|
    decreases |s|
  {
    var t := SkipSpace(s);
    if StartsWith(t, ">") then Some(TagRest([], false, t[1..]))
    else if StartsWith(t, "/>") then Some(TagRest([], true, t[2..]))
    else if t == s then None
    else
      match ReadAtt(t)
      case None => None
      case Some(a) =>
        match ReadAtts(a.rest)
        case None => None
        case Some(more) => Some(TagRest([a.att] + more.atts, more.empty, more.rest))
  }

  datatype OneAtt = OneAtt(att: Att, rest: Str)

  /** Name '=' AttValue. */
  function ReadAtt(t: Str): (r: Option<OneAtt>)
    ensures r.Some? ==> |r.value.rest| < |t|
  {
    var n := NameLength(t);
    if !XmlName(t[..n]) || n + 2 > |t| || t[n] != '=' || (t[n + 1] != '"' && t[n + 1] != '\'') then None
    else
      match ReadTo(t[n + 2..], [t[n + 1]])
      case None => None
      case Some(d) =>
        match AttValue(d.body)
        case None => None
        case Some(v) => Some(OneAtt(Att(t[..n], v), d.rest))
  }

  /** No two attributes have the same name (Unique Att Spec). */
  predicate DistinctAtts(atts: seq<Att>) {
    forall i, j | 0 <= i < j < |atts| :: atts[i].name != atts[j].name
  }

  function ReadStartTag(s: Str): (r: Option<Lexed>)
    ensures r.Some? ==> |r.value.rest| < |s|
  {
    var n := NameLength(s);
    if !XmlName(s[..n]) then None
    else
      match ReadAtts(s[n..])
      case None => None
      case Some(t) => if DistinctAtts(t.atts) then Some(Lexed(TStart(s[..n], t.atts, t.empty), t.rest)) else None
  }

  function ReadEndTag(s: Str): (r: Option<Lexed>)
    ensures r.Some? ==> |r.value.rest| < |s|
  {
    var n := NameLength(s);
    var t := SkipSpace(s[n..]);
    if XmlName(s[..n]) && StartsWith(t, ">") then Some(Lexed(TEnd(s[..n]), t[1..])) else None
  }

  function ReadPI(s: Str): (r: Option<Lexed>)
    ensures r.Some? ==> |r.value.rest| < |s|
  {
    match ReadTo(s, "?>")
    case None => None
    case Some(d) =>
      var n := NameLength(d.body);
      if XmlName(d.body[..n]) && !IsXml(d.body[..n]) && (n < |d.body| ==> Space(d.body[n])) then
        Some(Lexed(TNode(XPI(d.body[..n], SkipSpace(d.body[n..]))), d.rest))
      else None
  }

  /** Production [15]: the first two hyphens of a comment are those of its end. */
  function ReadComment(s: Str): (r: Option<Lexed>)
    ensures r.Some? ==> |r.value.rest| < |s|
  {
    match ReadTo(s, "--")
    case None => None
    case Some(d) => if StartsWith(d.rest, ">") then Some(Lexed(TNode(XComment(d.body)), d.rest[1..])) else None
  }

  function ReadCData(s: Str): (r: Option<Lexed>)
    ensures r.Some? ==> |r.value.rest| < |s|
  {
    match ReadTo(s, "]]>")
    case None => None
    case Some(d) => Some(Lexed(TNode(XCData(d.body)), d.rest))
  }

  /** One byte or reference of character data, in which "]]>" may not occur (production [14]). */
  function ReadData(s: Str): (r: Option<Lexed>)
    requires s != []
    ensures r.Some? ==> |r.value.rest| < |s|
  {
    if StartsWith(s, "]]>") then None
    else
      match ReadUnit(s)
      case None => None
      case Some(u) => Some(Lexed(TData(u.text), u.rest))
  }

  /** The next piece of markup, or one byte or reference of character data. */
  function NextToken(s: Str): (r: Option<Lexed>)
    requires s != []
    ensures r.Some? ==> |r.value.rest| < |s|
  {
    if s[0] != '<' then ReadData(s)
    else if StartsWith(s, "<!--") then ReadComment(s[4..])
    else if StartsWith(s, "<![CDATA[") then ReadCData(s[9..])
    else if StartsWith(s, "<?") then ReadPI(s[2..])
    else if StartsWith(s, "</") then ReadEndTag(s[2..])
    else ReadStartTag(s[1..])
  }

  /** The elements that are open, with the children read so far. */
  datatype Open =
    | Root(kids: seq<XNode>)
    | Inside(outer: Open, name: Str, atts: seq<Att>, kids: seq<XNode>)

  /** Character data joins the text before it. */
  function JoinText(kids: seq<XNode>, text: Str): seq<XNode> {
    if text == [] then kids
    else if kids != [] && kids[|kids| - 1].XText? then kids[..|kids| - 1] + [XText(kids[|kids| - 1].text + text)]
    else kids + [XText(text)]
  }

  function WithKids(o: Open, kids: seq<XNode>): Open {
    match o
    case Root(_) => Root(kids)
    case Inside(outer, name, atts, _) => Inside(outer, name, atts, kids)
  }

  function Feed(o: Open, t: Token): Option<Open> {
    match t
    case TStart(name, atts, empty) =>
      Some(if empty then WithKids(o, o.kids + [XElem(name, atts, [])]) else Inside(o, name, atts, []))
    case TEnd(name) =>
      if o.Inside? && o.name == name then
        Some(WithKids(o.outer, o.outer.kids + [XElem(name, o.atts, o.kids)])) else None
    case TData(text) => Some(WithKids(o, JoinText(o.kids, text)))
    case TNode(n) => Some(WithKids(o, o.kids + [n]))
  }

  function ReadFrom(o: Open, s: Str): Option<Open>
    decreases |s|
  {
    if s == [] then Some(o)
    else
      match NextToken(s)
      case None => None
      case Some(l) =>
        match Feed(o, l.token)
        case None => None
        case Some(o') => ReadFrom(o', l.rest)
  }

  /** Well-formed UTF-8 made of Chars (production [2]). */
  predicate IsText(s: Str) {
    WellFormed(s) && AllRunes(s, IsChar)
  }

  function ReadContent(s: Str): Option<seq<XNode>> {
    match ReadFrom(Root([]), s)
    case Some(Root(kids)) => Some(kids)
    case _ => None
  }

  /** The forest that a text stands for (production [43]). */
  function Read(s: Str): Option<seq<XNode>> {
    if IsText(s) then ReadContent(s) else None
  }

  // ---------------------------------------------------------------- document entities

  /** Name '=' and a literal in quotes, as it is. */
  function ReadPseudo(t: Str): (r: Option<OneAtt>)
    ensures r.Some? ==> |r.value.rest| < |t|
  {
    var n := NameLength(t);
    if !XmlName(t[..n]) || n + 2 > |t| || t[n] != '=' || (t[n + 1] != '"' && t[n + 1] != '\'') then None
    else
      match ReadTo(t[n + 2..], [t[n + 1]])
      case None => None
      case Some(d) => Some(OneAtt(Att(t[..n], d.body), d.rest))
  }

  datatype Decl = Decl(atts: seq<Att>, rest: Str)

  /** What stands between "<?xml" and "?>". */
  function ReadDecl(s: Str): (r: Option<Decl>)
    decreases |s|
  {
    var t := SkipSpace(s);
    if StartsWith(t, "?>") then Some(Decl([], t[2..]))
    else if t == s then None
    else
      match ReadPseudo(t)
      case None => None
      case Some(a) =>
        match ReadDecl(a.rest)
        case None => None
        case Some(more) => Some(Decl([a.att] + more.atts, more.rest))
  }

  /** Production [26]. */
  predicate VersionNum(s: Str) {
    |s| >= 3 && s[0] == '1' && s[1] == '.' && forall i | 2 <= i < |s| :: '0' <= s[i] <= '9'
  }

  predicate StandaloneOk(atts: seq<Att>) {
    atts == [] || (|atts| == 1 && atts[0].name == "standalone" && (atts[0].value == "yes" || atts[0].value == "no"))
  }

  /** The encoding that the bytes are in, in any case (section 4.3.3). */
  predicate IsUtf8(s: Str) {
    |s| == 5 && Lower(s[0]) == 'u' && Lower(s[1]) == 't' && Lower(s[2]) == 'f' && s[3] == '-' && s[4] == '8'
  }

  /** Production [23]: a version, perhaps an encoding, perhaps a standalone status, in this order; and the encoding has
      to be the one that the document is in. */
  predicate DeclOk(atts: seq<Att>) {
    && atts != [] && atts[0].name == "version" && VersionNum(atts[0].value)
    && if |atts| > 1 && atts[1].name == "encoding" then IsUtf8(atts[1].value) && StandaloneOk(atts[2..])
       else StandaloneOk(atts[1..])
  }

  /** Production [1]: one element, and no character data around it. */
  predicate OneRoot(kids: seq<XNode>) {
    && (forall k | k in kids :: k.XElem? || k.XComment? || k.XPI?)
    && exists i | 0 <= i < |kids| :: kids[i].XElem? && forall j | 0 <= j < |kids| && j != i :: !kids[j].XElem?
  }

  function RootOf(kids: Option<seq<XNode>>): Option<seq<XNode>> {
    if kids.Some? && OneRoot(kids.value) then kids else None
  }

  /** The text begins with an XML declaration. */
  predicate HasDecl(t: Str) {
    StartsWith(t, "<?xml") && |t| > 5 && Space(t[5])
  }

  /** A document entity: line ends first, then an XML declaration if there is one, and the white space
      after it. */
  function ReadDocument(s: Str): Option<seq<XNode>> {
    var t := LineEnds(s);
    if !IsText(t) then None
    else if HasDecl(t) then
      match ReadDecl(t[5..])
      case None => None
      case Some(d) => if DeclOk(d.atts) then RootOf(ReadContent(SkipSpace(d.rest))) else None
    else RootOf(ReadContent(t))
  }

  // ---------------------------------------------------------------- what a tree stands for

  /** The joined content of a comment or a CDATA section. */
  function BodyOf(kids: seq<Tree>): Str {
    if kids == [] then [] else BodyOf(kids[..|kids| - 1]) + PieceOf(kids[|kids| - 1])
  }

  function PieceOf(t: Tree): Str {
    if t.Leaf? && t.leaf.CommentContent? then t.leaf.text
    else if t.Leaf? && t.leaf.CDataContent? then t.leaf.text
    else []
  }

  function SaneAtts(atts: seq<Att>): seq<Att> {
    if atts == [] then [] else [Att(atts[0].name, Sanitise(atts[0].value))] + SaneAtts(atts[1..])
  }

  /** The children after one more tree. Adjacent text is one text, and a reader does not see the white
      space between the target and the content of a processing instruction. */
  function Join(kids: seq<XNode>, t: Tree): seq<XNode>
    decreases t
  {
    match t
    case Leaf(l) =>
      if l.Text? then JoinText(kids, Sanitise(l.text))
      else if l.PI? then kids + [XPI(l.target, SkipSpace(l.content))]
      else kids
    case Branch(h, atts, ts, _, _) =>
      if h.HElem? then kids + [XElem(h.name, SaneAtts(atts), JoinAll([], ts))]
      else if h.HComment? then kids + [XComment(BodyOf(ts))]
      else if h.HCData? then kids + [XCData(BodyOf(ts))]
      else kids
  }

  function JoinAll(kids: seq<XNode>, ts: seq<Tree>): seq<XNode>
    decreases ts
  {
    if ts == [] then kids else JoinAll(Join(kids, ts[0]), ts[1..])
  }
}
