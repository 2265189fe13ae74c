/** What the escaping methods of printer.go compute, and a reader that undoes it: section 4.1 of
    XML 1.0 for references, section 2.11 for line ends and section 3.3.3 for attribute values. */
module Escape {
  import opened Bytes
  import opened Utf8
  import opened Check

  /** U+FFFD in UTF-8. */
  const REPLACEMENT: Str := EncodeRune(0xFFFD)

  /** What is written in place of a rune, if anything is. */
  function Escaped(r: Rune, attr: bool): Option<Str> {
    if r.code == '"' as int then Some("&#34;")
    else if r.code == '\'' as int then Some("&#39;")
    else if r.code == '&' as int then Some("&amp;")
    else if r.code == '<' as int then Some("&lt;")
    else if r.code == '>' as int then Some("&gt;")
    else if attr && r.code == '\t' as int then Some("&#x9;")
    else if attr && r.code == '\n' as int then Some("&#xA;")
    else if attr && r.code == '\r' as int then Some("&#xD;")
    else if !IsChar(r.code) || r.Bad() then Some(REPLACEMENT)
    else None
  }

  /** The image of the first rune of `s`. */
  function EscapedRune(s: Str, attr: bool): Str
    requires s != []
  {
    var d := DecodeRune(s);
    match Escaped(d, attr)
    case Some(e) => e
    case None => s[..d.width]
  }

  /** `s` escaped rune by rune. */
  function EscapeMap(s: Str, attr: bool): Str {
    if s == [] then [] else EscapedRune(s, attr) + EscapeMap(s[DecodeRune(s).width..], attr)
  }

  /** The bytes that the fast path of EscapeAttrString lets through. */
  predicate Fast(b: byte) {
    0x20 < b as int < 0x7F && b !in "\"&<>{|}\\"
  }

  /** The length of the longest prefix made of such bytes. */
  function FastPrefix(s: Str): (k: nat)
    ensures k <= |s|
    ensures forall i | 0 <= i < k :: Fast(s[i])
    ensures k < |s| ==> !Fast(s[k])
  {
    if s == [] || !Fast(s[0]) then 0 else 1 + FastPrefix(s[1..])
  }

  /** An attribute value as it is written: a prefix as it is, the rest rune by rune. */
  function EscapeAttr(s: Str): Str {
    s[..FastPrefix(s)] + EscapeMap(s[FastPrefix(s)..], true)
  }

  /** `s` with every bad byte and every rune that is no Char replaced by U+FFFD. */
  function Sanitise(s: Str): Str {
    if s == [] then [] else
    SaneRune(s) + Sanitise(s[DecodeRune(s).width..])
  }

  function SaneRune(s: Str): Str
    requires s != []
  {
    var d := DecodeRune(s);
    if IsChar(d.code) && !d.Bad() then s[..d.width] else REPLACEMENT
  }

  // ---------------------------------------------------------------- reading references

  function Digit(c: byte, base: nat): Option<int> {
    if '0' <= c <= '9' then Some(c as int - '0' as int)
    else if base == 16 && 'a' <= c <= 'f' then Some(c as int - 'a' as int + 10)
    else if base == 16 && 'A' <= c <= 'F' then Some(c as int - 'A' as int + 10)
    else None
  }

  function Number(s: Str, base: nat): (n: Option<int>)
    ensures n.Some? ==> n.value >= 0
  {
    if s == [] then Some(0)
    else
      match (Number(s[..|s| - 1], base), Digit(s[|s| - 1], base))
      case (Some(n), Some(d)) => Some(n * base + d)
      case _ => None
  }

  function CharRef(digits: Str, base: nat): Option<Str> {
    match Number(digits, base)
    case Some(n) => if digits != [] && IsChar(n) then Some(EncodeRune(n)) else None
    case None => None
  }

  /** The replacement text of the reference `&name;`: a character reference or one of the five
      predefined entities. */
  function Reference(name: Str): Option<Str> {
    if |name| >= 2 && name[0] == '#' && name[1] == 'x' then CharRef(name[2..], 16)
    else if |name| >= 1 && name[0] == '#' then CharRef(name[1..], 10)
    else if name == "lt" then Some("<")
    else if name == "gt" then Some(">")
    else if name == "amp" then Some("&")
    else if name == "apos" then Some("'")
    else if name == "quot" then Some("\"")
    else None
  }

  datatype Unit = Unit(text: Str, rest: Str)

  /** One byte or one reference of character data; None where a reader has to stop. */
  function ReadUnit(s: Str): (u: Option<Unit>)
    requires s != []
    ensures u.Some? ==> |u.value.rest| < |s|
  {
    if s[0] == '<' then None
    else if s[0] == '&' then
      var k := Find(s, ";");
      if k == |s| || k == 0 then None
      else
        match Reference(s[1..k])
        case Some(t) => Some(Unit(t, s[k + 1..]))
        case None => None
    else Some(Unit(s[..1], s[1..]))
  }

  function Prepend(a: Str, o: Option<Str>): Option<Str> {
    match o
    case Some(t) => Some(a + t)
    case None => None
  }

  /** Character data with its references replaced. */
  function Decode(s: Str): Option<Str> {
    if s == [] then Some([])
    else
      match ReadUnit(s)
      case None => None
      case Some(u) => Prepend(u.text, Decode(u.rest))
  }

  /** Section 2.11: a CR LF pair and a lone CR each become LF. */
  function LineEnds(s: Str): Str {
    if s == [] then []
    else if s[0] == '\r' then ['\n'] + LineEnds(if |s| > 1 && s[1] == '\n' then s[2..] else s[1..])
    else [s[0]] + LineEnds(s[1..])
  }

  predicate Space(c: byte) {
    c == ' ' || c == '\t' || c == '\n' || c == '\r'
  }

  /** Section 3.3.3: white space becomes a space, a reference stands for its text. */
  function AttValue(s: Str): Option<Str> {
    if s == [] then Some([])
    else if Space(s[0]) then Prepend(" ", AttValue(s[1..]))
    else
      match ReadUnit(s)
      case None => None
      case Some(u) => Prepend(u.text, AttValue(u.rest))
  }
}
