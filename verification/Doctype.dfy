/** A reader for document type declarations: productions [28], [45], [52] to [53], [60], [70] to [76], [82] and [83] of
    XML 1.0. Content specifications and attribute types are taken as they stand. */
module Doctype {
  import opened Bytes
  import opened Check
  import opened Escape
  import opened Document
  import opened Reader
  import opened Literals

  // ---------------------------------------------------------------- what can be declared

  datatype XDefault = XRequired | XImplied | XFixed(value: Str) | XValue(value: Str)

  datatype XAttDef = XAttDef(name: Str, typ: Str, dflt: XDefault)

  datatype XEntity = Internal(value: Str) | External(publicID: Str, systemID: Str, ndata: Str)

  datatype XDecl =
    | XElement(name: Str, spec: Str)
    | XAttList(name: Str, defs: seq<XAttDef>)
    | XEntityDecl(name: Str, parameter: bool, def: XEntity)
    | XNotation(name: Str, publicID: Str, systemID: Str)
    | XRemark(text: Str)

  /** The subset is None without brackets. */
  datatype XDoctype = XDoctype(name: Str, publicID: Str, systemID: Str, subset: Option<seq<XDecl>>)

  // ---------------------------------------------------------------- reading

  /** White space that has to be there. */
  function AfterSpace(s: Str): (r: Option<Str>)
    ensures r.Some? ==> |r.value| < |s|
  {
    if s != [] && Escape.Space(s[0]) then Some(SkipSpace(s[1..])) else None
  }

  function ReadName(s: Str): (r: Option<Delimited>)
    ensures r.Some? ==> |r.value.rest| < |s|
  {
    var n := NameLength(s);
    if XmlName(s[..n]) then Some(Delimited(s[..n], s[n..])) else None
  }

  /** White space, a name, and white space again. */
  function ReadNamed(s: Str): (r: Option<Delimited>)
    ensures r.Some? ==> |r.value.rest| < |s|
  {
    match AfterSpace(s)
    case None => None
    case Some(t) =>
      match ReadName(t)
      case None => None
      case Some(n) =>
        match AfterSpace(n.rest)
        case None => None
        case Some(u) => Some(Delimited(n.body, u))
  }

  datatype Read<+T> = Read(value: T, rest: Str)

  /** White space if there is any, and '>'. */
  function Close<T>(value: T, s: Str): (r: Option<Read<T>>)
    ensures r.Some? ==> |r.value.rest| < |s|
  {
    var t := SkipSpace(s);
    if StartsWith(t, ">") then Some(Read(value, t[1..])) else None
  }

  /** Production [45]. */
  function ReadElement(s: Str): (r: Option<Read<XDecl>>)
    ensures r.Some? ==> |r.value.rest| < |s|
  {
    match ReadNamed(s)
    case None => None
    case Some(n) =>
      match ReadTo(n.rest, ">")
      case None => None
      case Some(d) => if d.body == [] then None else Some(Read(XElement(n.body, d.body), d.rest))
  }

  /** What cannot be part of an attribute type. */
  predicate EndsType(b: byte) {
    b == '"' || b == '\'' || b == '#' || b == '<' || b == '>'
  }

  function TypeLength(s: Str): (n: nat)
    ensures n <= |s| && (forall i | 0 <= i < n :: !EndsType(s[i])) && (n < |s| ==> EndsType(s[n]))
  {
    if s == [] || EndsType(s[0]) then 0 else 1 + TypeLength(s[1..])
  }

  /** A default value ([60]). */
  function ReadValue(s: Str): (r: Option<Read<Str>>)
    ensures r.Some? ==> |r.value.rest| < |s|
  {
    match ReadLiteral(s)
    case None => None
    case Some(d) =>
      match AttValue(d.body)
      case None => None
      case Some(v) => Some(Read(v, d.rest))
  }

  function ReadDefault(s: Str): (r: Option<Read<XDefault>>)
    ensures r.Some? ==> |r.value.rest| < |s|
  {
    if StartsWith(s, "#REQUIRED") then Some(Read(XRequired, s[9..]))
    else if StartsWith(s, "#IMPLIED") then Some(Read(XImplied, s[8..]))
    else if StartsWith(s, "#FIXED") then
      match AfterSpace(s[6..])
      case None => None
      case Some(t) =>
        match ReadValue(t)
        case None => None
        case Some(v) => Some(Read(XFixed(v.value), v.rest))
    else
      match ReadValue(s)
      case None => None
      case Some(v) => Some(Read(XValue(v.value), v.rest))
  }

  /** Production [53], after its white space. */
  function ReadAttDef(s: Str): (r: Option<Read<XAttDef>>)
    ensures r.Some? ==> |r.value.rest| < |s|
  {
    match ReadName(s)
    case None => None
    case Some(n) =>
      match AfterSpace(n.rest)
      case None => None
      case Some(t) =>
        var k := TypeLength(t);
        if k < 2 || !Escape.Space(t[k - 1]) then None
        else
          match ReadDefault(t[k..])
          case None => None
          case Some(d) => Some(Read(XAttDef(n.body, t[..k - 1], d.value), d.rest))
  }

  function ReadAttDefs(s: Str): (r: Option<Read<seq<XAttDef>>>)
    ensures r.Some? ==> |r.value.rest| < |s|
    decreases |s|
  {
    var t := SkipSpace(s);
    if StartsWith(t, ">") then Some(Read([], t[1..]))
    else if t == s then None
    else
      match ReadAttDef(t)
      case None => None
      case Some(d) =>
        match ReadAttDefs(d.rest)
        case None => None
        case Some(more) => Some(Read([d.value] + more.value, more.rest))
  }

  /** Production [52]. */
  function ReadAttList(s: Str): (r: Option<Read<XDecl>>)
    ensures r.Some? ==> |r.value.rest| < |s|
  {
    match AfterSpace(s)
    case None => None
    case Some(t) =>
      match ReadName(t)
      case None => None
      case Some(n) =>
        match ReadAttDefs(n.rest)
        case None => None
        case Some(d) => Some(Read(XAttList(n.body, d.value), d.rest))
  }

  /** Productions [73], [74] and [76]. */
  function ReadEntityDef(s: Str): (r: Option<Read<XEntity>>)
    ensures r.Some? ==> |r.value.rest| < |s|
  {
    match ReadLiteral(s)
    case Some(d) => Some(Read(Internal(d.body), d.rest))
    case None =>
      match ReadIds(s)
      case None => None
      case Some(ids) =>
        if ids.systemID == [] then None
        else
          match ReadNData(ids.rest)
          case None => Some(Read(External(ids.publicID, ids.systemID, []), ids.rest))
          case Some(n) => Some(Read(External(ids.publicID, ids.systemID, n.body), n.rest))
  }

  function ReadNData(s: Str): (r: Option<Delimited>)
    ensures r.Some? ==> |r.value.rest| < |s|
  {
    match AfterSpace(s)
    case None => None
    case Some(t) =>
      if !StartsWith(t, "NDATA") then None
      else
        match AfterSpace(t[5..])
        case None => None
        case Some(u) => ReadName(u)
  }

  /** Productions [71] and [72]. */
  function ReadEntity(s: Str): (r: Option<Read<XDecl>>)
    ensures r.Some? ==> |r.value.rest| < |s|
  {
    match AfterSpace(s)
    case None => None
    case Some(t) =>
      var parameter := StartsWith(t, "%");
      match ReadNamed(if parameter then t[1..] else s)
      case None => None
      case Some(n) =>
        match ReadEntityDef(n.rest)
        case None => None
        case Some(d) => Close(XEntityDecl(n.body, parameter, d.value), d.rest)
  }

  /** Production [82]. */
  function ReadNotation(s: Str): (r: Option<Read<XDecl>>)
    ensures r.Some? ==> |r.value.rest| < |s|
  {
    match ReadNamed(s)
    case None => None
    case Some(n) =>
      match ReadIds(n.rest)
      case None => None
      case Some(ids) => Close(XNotation(n.body, ids.publicID, ids.systemID), ids.rest)
  }

  function ReadRemark(s: Str): (r: Option<Read<XDecl>>)
    ensures r.Some? ==> |r.value.rest| < |s|
  {
    match Reader.ReadComment(s)
    case None => None
    case Some(l) =>
      match l.token
      case TNode(XComment(text)) => Some(Read(XRemark(text), l.rest))
      case _ => None
  }

  /** Production [29]. */
  function ReadMarkup(s: Str): (r: Option<Read<XDecl>>)
    ensures r.Some? ==> |r.value.rest| < |s|
  {
    if StartsWith(s, "<!ELEMENT") then ReadElement(s[9..])
    else if StartsWith(s, "<!ATTLIST") then ReadAttList(s[9..])
    else if StartsWith(s, "<!ENTITY") then ReadEntity(s[8..])
    else if StartsWith(s, "<!NOTATION") then ReadNotation(s[10..])
    else if StartsWith(s, "<!--") then ReadRemark(s[4..])
    else None
  }

  /** Declarations up to ']' ([28b]). */
  function ReadSubset(s: Str): (r: Option<Read<seq<XDecl>>>)
    ensures r.Some? ==> |r.value.rest| < |s|
    decreases |s|
  {
    var t := SkipSpace(s);
    if StartsWith(t, "]") then Some(Read([], t[1..]))
    else
      match ReadMarkup(t)
      case None => None
      case Some(d) =>
        match ReadSubset(d.rest)
        case None => None
        case Some(more) => Some(Read([d.value] + more.value, more.rest))
  }

  /** What follows the name and the external identifier. */
  function ReadBody(name: Str, pub: Str, sys: Str, s: Str): Option<Read<XDoctype>> {
    var t := SkipSpace(s);
    if StartsWith(t, "[") then
      match ReadSubset(t[1..])
      case None => None
      case Some(d) => Close(XDoctype(name, pub, sys, Some(d.value)), d.rest)
    else Close(XDoctype(name, pub, sys, None), s)
  }

  /** Production [28]. */
  function ReadDoctype(s: Str): Option<Read<XDoctype>> {
    if !StartsWith(s, "<!DOCTYPE") then None
    else
      match AfterSpace(s[9..])
      case None => None
      case Some(t) =>
        match ReadName(t)
        case None => None
        case Some(n) =>
          match AfterSpace(n.rest)
          case None => ReadBody(n.body, [], [], n.rest)
          case Some(u) =>
            match ReadIds(u)
            case None => ReadBody(n.body, [], [], n.rest)
            case Some(ids) =>
              if ids.systemID == [] then None else ReadBody(n.body, ids.publicID, ids.systemID, ids.rest)
  }

  // ---------------------------------------------------------------- what a tree declares

  /** An attribute with neither a value nor a word about it is implied, and one with just a value has it as its
      default. */
  function DefOf(d: AttDecl): XAttDef {
    XAttDef(d.name, d.typ,
      match d.default
      case Required => XRequired
      case Implied => XImplied
      case Fixed => XFixed(Sanitise(d.value))
      case Default => XValue(Sanitise(d.value))
      case Infer => if d.value == [] then XImplied else XValue(Sanitise(d.value)))
  }

  predicate AttDefs(kids: seq<Tree>) {
    forall k | k in kids :: k.Leaf? && k.leaf.DTDAttr? && LeafOk(k.leaf, true)
  }

  function DefsOf(kids: seq<Tree>): seq<XAttDef>
    requires AttDefs(kids)
  {
    if kids == [] then [] else [DefOf(kids[0].leaf.att)] + DefsOf(kids[1..])
  }
}
