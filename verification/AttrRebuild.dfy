/** The attributes of an element: the test builder splits them into namespace declarations and the rest,
    writes a script of commands, and the runner replays the script through the writer. */
module AttrRebuild {
  import opened Bytes
  import opened Check
  import opened Nodes
  import opened Document
  import opened Trees
  import opened Runs
  import opened Structured
  import opened Namespaces

  // ---------------------------------------------------------------- the script

  /** The offset of the first colon, or the length of the name (strchr). */
  function Colon(name: Str): (k: nat)
    ensures k <= |name| && (k < |name| ==> name[k] == ':') && forall i | 0 <= i < k :: name[i] != ':'
  {
    if name == [] || name[0] == ':' then 0 else 1 + Colon(name[1..])
  }

  function PrefixOf(name: Str): Option<Str> {
    if Colon(name) < |name| then Some(name[..Colon(name)]) else None
  }

  function LocalOf(name: Str): Str {
    if Colon(name) < |name| then name[Colon(name) + 1..] else name
  }

  /** The name of a parameter. */
  datatype Key = PrefixKey | UriKey | OtherKey(name: Str)

  datatype Param = Param(key: Key, value: Str)

  datatype Kind = ElemKind | AttrKind

  /** A command element: `start elem` or `write attr`. */
  datatype Command = Command(kind: Kind, name: Str, params: seq<Param>, content: Str)

  function PrefixParam(name: Str): seq<Param> {
    match PrefixOf(name)
    case Some(p) => [Param(PrefixKey, p)]
    case None => []
  }

  /** The prefix that a declaration declares. */
  function Suffix(name: Str): Str {
    if |name| >= 6 then name[6..] else []
  }

  /** The declaration of the element's own prefix. */
  predicate Own(name: Str, a: Att) {
    DeclName(a.name) && PrefixOf(name) == Some(Suffix(a.name))
  }

  predicate Other(name: Str, a: Att) {
    DeclName(a.name) && !Own(name, a)
  }

  /** A namespace that an attribute may still claim. */
  datatype Entry = Entry(prefix: Str, uri: Str, claimed: bool)

  function OwnUris(name: Str, atts: seq<Att>): seq<Param> {
    if atts == [] then []
    else
      var a := atts[|atts| - 1];
      OwnUris(name, atts[..|atts| - 1]) + (if Own(name, a) then [Param(UriKey, a.value)] else [])
  }

  function Entries(name: Str, atts: seq<Att>): seq<Entry> {
    if atts == [] then []
    else
      var a := atts[|atts| - 1];
      Entries(name, atts[..|atts| - 1]) + (if Other(name, a) then [Entry(Suffix(a.name), a.value, false)] else [])
  }

  function Rest(atts: seq<Att>): seq<Att> {
    if atts == [] then []
    else Rest(atts[..|atts| - 1]) + (if DeclName(atts[|atts| - 1].name) then [] else [atts[|atts| - 1]])
  }

  /** The first unclaimed namespace with this prefix. */
  function Claim(es: seq<Entry>, p: Str): (k: nat)
    ensures k <= |es|
    ensures k < |es| ==> !es[k].claimed && es[k].prefix == p
    ensures forall i | 0 <= i < k :: es[i].claimed || es[i].prefix != p
  {
    if es == [] || (!es[0].claimed && es[0].prefix == p) then 0 else 1 + Claim(es[1..], p)
  }

  /** What an attribute claims, if anything. */
  function Claimed(es: seq<Entry>, name: Str): (k: nat)
    ensures k <= |es|
    ensures k < |es| ==> !es[k].claimed && PrefixOf(name) == Some(es[k].prefix)
  {
    match PrefixOf(name)
    case Some(p) => Claim(es, p)
    case None => |es|
  }

  function AfterClaim(es: seq<Entry>, name: Str): (r: seq<Entry>)
    ensures |r| == |es|
  {
    var k := Claimed(es, name);
    if k < |es| then es[k := es[k].(claimed := true)] else es
  }

  function UriParam(es: seq<Entry>, name: Str): seq<Param> {
    var k := Claimed(es, name);
    if k < |es| then [Param(UriKey, es[k].uri)] else []
  }

  function AttrCommand(es: seq<Entry>, a: Att): Command {
    Command(AttrKind, LocalOf(a.name), PrefixParam(a.name) + UriParam(es, a.name), a.value)
  }

  function AttrScript(es: seq<Entry>, atts: seq<Att>): seq<Command>
    decreases atts
  {
    if atts == [] then [] else [AttrCommand(es, atts[0])] + AttrScript(AfterClaim(es, atts[0].name), atts[1..])
  }

  function AfterClaims(es: seq<Entry>, atts: seq<Att>): (r: seq<Entry>)
    ensures |r| == |es|
    decreases atts
  {
    if atts == [] then es else AfterClaims(AfterClaim(es, atts[0].name), atts[1..])
  }

  function LeftScript(es: seq<Entry>): seq<Command> {
    if es == [] then []
    else
      (if es[0].claimed then [] else [Command(AttrKind, "xmlns:" + es[0].prefix, [], es[0].uri)]) + LeftScript(es[1..])
  }

  function StartCommand(name: Str, atts: seq<Att>): Command {
    Command(ElemKind, LocalOf(name), PrefixParam(name) + OwnUris(name, atts), [])
  }

  /** Everything that xml_elem_start writes. */
  function Script(name: Str, atts: seq<Att>): (cs: seq<Command>)
    ensures cs != []
  {
    var es := Entries(name, atts);
    [StartCommand(name, atts)] + AttrScript(es, Rest(atts)) + LeftScript(AfterClaims(es, Rest(atts)))
  }

  // ---------------------------------------------------------------- replaying it

  /** The last parameter of a kind, or the empty string. */
  function ParamValue(params: seq<Param>, key: Key): Str {
    if params == [] then []
    else if params[|params| - 1].key == key then params[|params| - 1].value
    else ParamValue(params[..|params| - 1], key)
  }

  function ToAttr(c: Command): Attr {
    Attr(ParamValue(c.params, PrefixKey), ParamValue(c.params, UriKey), c.name, c.content)
  }

  function ToElem(c: Command): Elem {
    Elem(ParamValue(c.params, PrefixKey), ParamValue(c.params, UriKey), c.name, [], [], false)
  }

  function ToAttrs(cs: seq<Command>): seq<Attr> {
    if cs == [] then [] else [ToAttr(cs[0])] + ToAttrs(cs[1..])
  }

  /** The handlers know two parameters; any other is an error. */
  predicate Known(params: seq<Param>) {
    forall p | p in params :: !p.key.OtherKey?
  }

  /** The handler of the runner for `write attr`: fields are set one by one from the parameters. */
  method ReplayAttr(c: Command) returns (a: Option<Attr>)
    ensures a == if Known(c.params) then Some(ToAttr(c)) else None
  {
    var attr := Attr([], [], c.name, c.content);
    var i := 0;
    while i < |c.params|
      invariant 0 <= i <= |c.params| && Known(c.params[..i])
      invariant attr == Attr(ParamValue(c.params[..i], PrefixKey), ParamValue(c.params[..i], UriKey), c.name, c.content)
    {
      var p := c.params[i];
      assert c.params[..i + 1][..i] == c.params[..i] && p in c.params;
      match p.key {
        case PrefixKey => attr := attr.(prefix := p.value);
        case UriKey => attr := attr.(uri := p.value);
        case OtherKey(_) => return None;
      }
      i := i + 1;
    }
    assert c.params[..i] == c.params;
    a := Some(attr);
  }

  /** The handler for `start elem`. */
  method ReplayElem(c: Command) returns (e: Option<Elem>)
    ensures e == if Known(c.params) then Some(ToElem(c)) else None
  {
    var elem := Elem([], [], c.name, [], [], false);
    var i := 0;
    while i < |c.params|
      invariant 0 <= i <= |c.params| && Known(c.params[..i])
      invariant elem == Elem(ParamValue(c.params[..i], PrefixKey), ParamValue(c.params[..i], UriKey), c.name, [], [],
        false)
    {
      var p := c.params[i];
      assert c.params[..i + 1][..i] == c.params[..i] && p in c.params;
      match p.key {
        case PrefixKey => elem := elem.(prefix := p.value);
        case UriKey => elem := elem.(uri := p.value);
        case OtherKey(_) => return None;
      }
      i := i + 1;
    }
    assert c.params[..i] == c.params;
    e := Some(elem);
  }

  /** Every command of a script is one that the handlers understand. */
  lemma ScriptKnown(name: Str, atts: seq<Att>, c: Command)
    requires c in Script(name, atts)
    ensures Known(c.params)
  {
    hide PrefixOf, Entries, Rest, OwnUris, AttrScript, LeftScript, AfterClaims;
    var es := Entries(name, atts);
    if c == StartCommand(name, atts) {
      OwnUrisKnown(name, atts);
    } else if c in AttrScript(es, Rest(atts)) {
      AttrScriptKnown(es, Rest(atts), c);
    } else {
      LeftScriptKnown(AfterClaims(es, Rest(atts)), c);
    }
  }

  lemma {:induction false} OwnUrisKnown(name: Str, atts: seq<Att>)
    ensures Known(OwnUris(name, atts))
  {
    hide Own;
    if atts != [] {
      OwnUrisKnown(name, atts[..|atts| - 1]);
    }
  }

  lemma {:induction false} AttrScriptKnown(es: seq<Entry>, atts: seq<Att>, c: Command)
    requires c in AttrScript(es, atts)
    ensures Known(c.params)
    decreases atts
  {
    hide PrefixOf, Claimed, AfterClaim;
    if c != AttrCommand(es, atts[0]) {
      AttrScriptKnown(AfterClaim(es, atts[0].name), atts[1..], c);
    }
  }

  lemma {:induction false} LeftScriptKnown(es: seq<Entry>, c: Command)
    requires c in LeftScript(es)
    ensures Known(c.params)
  {
    if es[0].claimed || c != Command(AttrKind, "xmlns:" + es[0].prefix, [], es[0].uri) {
      LeftScriptKnown(es[1..], c);
    }
  }

  /** The element that a script builds. */
  function Replayed(cs: seq<Command>): Elem
    requires cs != []
  {
    ToElem(cs[0]).(attrs := ToAttrs(cs[1..]))
  }

  // ---------------------------------------------------------------- names

  predicate NoLeadingColon(name: Str) {
    name == [] || name[0] != ':'
  }

  function PrefixText(name: Str): Str {
    match PrefixOf(name)
    case Some(p) => p
    case None => []
  }

  /** Prefix and local name put together again. */
  lemma NameSplits(name: Str)
    requires NoLeadingColon(name)
    ensures FullName(PrefixText(name), LocalOf(name)) == name
    ensures PrefixOf(name).Some? ==> PrefixOf(name).value != []
  {
    var k := Colon(name);
    if k < |name| {
      assert name == name[..k] + ":" + name[k + 1..];
    }
  }

  function EntryAtt(e: Entry): Att {
    NsAtt(Ns(e.prefix, e.uri, false))
  }

  /** The declarations that no attribute has claimed. */
  function LeftAtts(es: seq<Entry>): seq<Att> {
    if es == [] then [] else (if es[0].claimed then [] else [EntryAtt(es[0])]) + LeftAtts(es[1..])
  }

  /** The declarations that are claimed with an empty URI: the writer does not know that it has to print them. */
  function Lost(es: seq<Entry>, atts: seq<Att>): seq<Att>
    decreases atts
  {
    if atts == [] then []
    else
      var k := Claimed(es, atts[0].name);
      (if k < |es| && es[k].uri == [] then [EntryAtt(es[k])] else []) + Lost(AfterClaim(es, atts[0].name), atts[1..])
  }

  function UriText(es: seq<Entry>, name: Str): Str {
    var k := Claimed(es, name);
    if k < |es| then es[k].uri else []
  }

  /** The attribute that one command of the script writes. */
  lemma CommandAttr(es: seq<Entry>, a: Att)
    ensures ToAttr(AttrCommand(es, a)) == Attr(PrefixText(a.name), UriText(es, a.name), LocalOf(a.name), a.value)
  {
    hide PrefixOf, Claimed, ParamValue;
    TwoParams(PrefixParam(a.name), UriParam(es, a.name));
  }

  lemma TwoParams(p: seq<Param>, u: seq<Param>)
    requires |p| <= 1 && |u| <= 1 && (p != [] ==> p[0].key.PrefixKey?) && (u != [] ==> u[0].key.UriKey?)
    ensures ParamValue(p + u, PrefixKey) == if p == [] then [] else p[0].value
    ensures ParamValue(p + u, UriKey) == if u == [] then [] else u[0].value
  {
    assert p != [] ==> p[..0] == [] && p == [p[0]];
    if u == [] {
      assert p + u == p;
    } else {
      assert (p + u)[..|p|] == p && (p + u)[|p|] == u[0];
    }
  }

  // ---------------------------------------------------------------- one attribute

  predicate DistinctPrefixes(es: seq<Entry>) {
    forall i, j | 0 <= i < j < |es| :: es[i].prefix != es[j].prefix
  }

  predicate DeclNamesOk(es: seq<Entry>) {
    forall e | e in es :: ValidName("xmlns:" + e.prefix)
  }

  /** What holds between the tag built so far and the namespaces that can still be claimed. */
  predicate Fits(t: Tag, es: seq<Entry>) {
    && Distinct(t.nss) && DistinctPrefixes(es)
    && (forall k | 0 <= k < |es| && !es[k].claimed :: Lookup(t.nss, es[k].prefix).None?)
    && DeclarationsOk(t.nss, true)
  }

  lemma ClaimKeeps(es: seq<Entry>, name: Str)
    ensures DistinctPrefixes(es) ==> DistinctPrefixes(AfterClaim(es, name))
    ensures DeclNamesOk(es) ==> DeclNamesOk(AfterClaim(es, name))
  {
    var k, es' := Claimed(es, name), AfterClaim(es, name);
    assert forall i | 0 <= i < |es| :: es'[i].prefix == es[i].prefix;
    forall e | e in es' ensures exists d :: d in es && d.prefix == e.prefix {
      var i :| 0 <= i < |es'| && es'[i] == e;
      assert es[i] in es && es[i].prefix == e.prefix;
    }
  }

  /** One attribute that declares its prefix. */
  lemma DeclaringStep(t: Tag, a: Attr)
    requires a.uri != [] && ValidName(FullName(a.prefix, a.name)) && ValidName("xmlns:" + a.prefix)
    requires Distinct(t.nss) && Lookup(t.nss, a.prefix).None? && DeclarationsOk(t.nss, true)
    ensures var n := Ns(a.prefix, a.uri, false);
      && AddAttr(t, a, true) == Some(Tag(t.atts + [Att(FullName(a.prefix, a.name), a.value)], t.nss + [n], true))
      && Distinct(t.nss + [n]) && Undeclared(t.nss + [n]) == Undeclared(t.nss) + [NsAtt(n)]
      && DeclarationsOk(t.nss + [n], true)
      && forall p :: Lookup(t.nss + [n], p).None? <==> Lookup(t.nss, p).None? && p != a.prefix
  {
    hide ValidName, FullName, Lookup, Distinct, Undeclared;
    Appended(t.nss, Ns(a.prefix, a.uri, false));
  }

  /** The effect of one command on the tag. */
  lemma AttrStep(t: Tag, es: seq<Entry>, a: Att)
    requires Fits(t, es) && DeclNamesOk(es) && ValidName(a.name) && NoLeadingColon(a.name)
    ensures var t' := AddAttr(t, ToAttr(AttrCommand(es, a)), true);
      var k := Claimed(es, a.name);
      && t'.Some? && Fits(t'.value, AfterClaim(es, a.name)) && t'.value.atts == t.atts + [a]
      && Undeclared(t'.value.nss) ==
         Undeclared(t.nss) + (if k < |es| && es[k].uri != [] then [EntryAtt(es[k])] else [])
  {
    hide ValidName, FullName, ToAttr, AttrCommand, Lookup, Distinct, Undeclared, DeclarationsOk, Claimed;
    CommandAttr(es, a);
    NameSplits(a.name);
    ClaimKeeps(es, a.name);
    var k := Claimed(es, a.name);
    var b := ToAttr(AttrCommand(es, a));
    if k < |es| && es[k].uri != [] {
      assert es[k] in es && b.prefix == es[k].prefix;
      DeclaringStep(t, b);
    } else {
      assert Undeclared(t.nss) + [] == Undeclared(t.nss);
    }
  }

  /** Claiming takes one declaration from those that are left. */
  lemma {:induction false} ClaimRemoves(es: seq<Entry>, k: nat)
    requires k < |es| && !es[k].claimed
    ensures multiset(LeftAtts(es)) == multiset(LeftAtts(es[k := es[k].(claimed := true)])) + multiset{EntryAtt(es[k])}
  {
    hide EntryAtt;
    var es' := es[k := es[k].(claimed := true)];
    if k == 0 {
      assert es'[1..] == es[1..];
      assert [] + LeftAtts(es[1..]) == LeftAtts(es[1..]);
    } else {
      ClaimRemoves(es[1..], k - 1);
      assert es'[1..] == es[1..][k - 1 := es[k].(claimed := true)];
    }
  }

  // ---------------------------------------------------------------- all attributes

  function TagAtts(t: Tag): seq<Att> {
    t.atts + Undeclared(t.nss)
  }

  lemma BagStep(t: Tag, es: seq<Entry>, a: Att)
    requires Fits(t, es) && DeclNamesOk(es) && ValidName(a.name) && NoLeadingColon(a.name)
    ensures var t' := AddAttr(t, ToAttr(AttrCommand(es, a)), true);
      var k := Claimed(es, a.name);
      var lost := if k < |es| && es[k].uri == [] then [EntryAtt(es[k])] else [];
      && t'.Some? && Fits(t'.value, AfterClaim(es, a.name))
      && Bag(t'.value, AfterClaim(es, a.name)) + multiset(lost) == Bag(t, es) + multiset{a}
  {
    hide ValidName, ToAttr, AttrCommand, AddAttr, Fits, Undeclared, LeftAtts, EntryAtt, Claimed;
    AttrStep(t, es, a);
    var k := Claimed(es, a.name);
    if k < |es| {
      ClaimRemoves(es, k);
    }
  }

  lemma {:induction false} ScriptFirst(es: seq<Entry>, atts: seq<Att>)
    requires atts != []
    ensures var more := ToAttrs(AttrScript(AfterClaim(es, atts[0].name), atts[1..]));
      ToAttrs(AttrScript(es, atts)) == [ToAttr(AttrCommand(es, atts[0]))] + more
  {
    hide AttrCommand, ToAttr, AfterClaim;
    var cs := AttrScript(es, atts);
    assert cs[0] == AttrCommand(es, atts[0]) && cs[1..] == AttrScript(AfterClaim(es, atts[0].name), atts[1..]);
  }

  /** Everything that is or will be in the tag. */
  function Bag(t: Tag, es: seq<Entry>): multiset<Att> {
    multiset(TagAtts(t)) + multiset(LeftAtts(es))
  }

  /** The attributes that are not declarations: each is printed, with the declaration it claims unless its URI
      is empty. */
  lemma {:induction false} AttrsRebuild(t: Tag, es: seq<Entry>, atts: seq<Att>)
    requires Fits(t, es) && DeclNamesOk(es)
    requires forall a | a in atts :: ValidName(a.name) && NoLeadingColon(a.name)
    ensures var t' := AddAttrs(t, ToAttrs(AttrScript(es, atts)), true);
      && t'.Some? && Fits(t'.value, AfterClaims(es, atts)) && DeclNamesOk(AfterClaims(es, atts))
      && Bag(t'.value, AfterClaims(es, atts)) + multiset(Lost(es, atts)) == Bag(t, es) + multiset(atts)
    decreases atts
  {
    hide ValidName, NoLeadingColon, ToAttr, AttrCommand, AddAttr, Fits, DeclNamesOk, AfterClaim, Claimed, EntryAtt,
      Bag;
    if atts != [] {
      hide AttrScript, ToAttrs, AddAttrs;
      var a := atts[0];
      assert a in atts && forall b | b in atts[1..] :: b in atts;
      var es1 := AfterClaim(es, a.name);
      var more := ToAttrs(AttrScript(es1, atts[1..]));
      BagStep(t, es, a);
      var t1 := AddAttr(t, ToAttr(AttrCommand(es, a)), true).value;
      ClaimKeeps(es, a.name);
      ScriptFirst(es, atts);
      AttrsRebuild(t1, es1, atts[1..]);
      assert ([(ToAttr(AttrCommand(es, a)))] + more)[1..] == more;
      var k := Claimed(es, a.name);
      var lost := if k < |es| && es[k].uri == [] then [EntryAtt(es[k])] else [];
      var t' := AddAttrs(t1, more, true).value;
      Balance(Bag(t', AfterClaims(es1, atts[1..])), Bag(t1, es1), Bag(t, es), lost, Lost(es1, atts[1..]), a, atts);
    } else {
      hide LeftAtts, TagAtts;
    }
  }

  /** Two balances put together. */
  lemma Balance(last: multiset<Att>, mid: multiset<Att>, first: multiset<Att>, lost: seq<Att>, more: seq<Att>, a: Att,
                atts: seq<Att>)
    requires atts != [] && atts[0] == a
    requires mid + multiset(lost) == first + multiset{a}
    requires last + multiset(more) == mid + multiset(atts[1..])
    ensures last + multiset(lost + more) == first + multiset(atts)
  {
    assert atts == [a] + atts[1..];
    assert multiset(atts) == multiset{a} + multiset(atts[1..]);
    assert multiset(lost + more) == multiset(lost) + multiset(more);
    Exchange(last, mid, first, multiset(lost), multiset(more), multiset{a}, multiset(atts[1..]));
  }

  lemma Exchange(last: multiset<Att>, mid: multiset<Att>, first: multiset<Att>, lost: multiset<Att>,
                 more: multiset<Att>, one: multiset<Att>, rest: multiset<Att>)
    requires mid + lost == first + one && last + more == mid + rest
    ensures last + (lost + more) == first + (one + rest)
  {
    forall x ensures (last + (lost + more))[x] == (first + (one + rest))[x] {
      assert (mid + lost)[x] == (first + one)[x];
      assert (last + more)[x] == (mid + rest)[x];
    }
  }

  /** The declarations nobody claimed are written as attributes. */
  lemma {:induction false} LeftRebuild(t: Tag, es: seq<Entry>)
    requires DeclNamesOk(es)
    ensures AddAttrs(t, ToAttrs(LeftScript(es)), true) ==
      Some(Tag(t.atts + LeftAtts(es), t.nss, t.tagged || LeftAtts(es) != []))
    decreases es
  {
    hide ValidName;
    if es == [] {
      assert t.atts + [] == t.atts;
    } else {
      assert es[0] in es && forall e | e in es[1..] :: e in es;
      if es[0].claimed {
        assert [] + LeftScript(es[1..]) == LeftScript(es[1..]);
        LeftRebuild(t, es[1..]);
        assert [] + LeftAtts(es[1..]) == LeftAtts(es[1..]);
      } else {
        hide LeftScript, AddAttrs, ToAttrs;
        LeftFirst(es);
        var b := Attr([], [], "xmlns:" + es[0].prefix, es[0].uri);
        var t1 := AddAttr(t, b, true).value;
        assert t1 == Tag(t.atts + [EntryAtt(es[0])], t.nss, true);
        hide AddAttr, EntryAtt;
        assert ([b] + ToAttrs(LeftScript(es[1..])))[1..] == ToAttrs(LeftScript(es[1..]));
        LeftRebuild(t1, es[1..]);
        assert t.atts + [EntryAtt(es[0])] + LeftAtts(es[1..]) == t.atts + ([EntryAtt(es[0])] + LeftAtts(es[1..]));
      }
    }
  }

  lemma {:induction false} LeftFirst(es: seq<Entry>)
    requires es != [] && !es[0].claimed
    ensures ToAttrs(LeftScript(es)) == [Attr([], [], "xmlns:" + es[0].prefix, es[0].uri)] + ToAttrs(LeftScript(es[1..]))
  {
    var c := Command(AttrKind, "xmlns:" + es[0].prefix, [], es[0].uri);
    assert LeftScript(es)[0] == c && LeftScript(es)[1..] == LeftScript(es[1..]);
  }

  lemma {:induction false} ToAttrsConcat(a: seq<Command>, b: seq<Command>)
    ensures ToAttrs(a + b) == ToAttrs(a) + ToAttrs(b)
  {
    hide ToAttr;
    if a == [] {
      assert a + b == b;
    } else {
      assert (a + b)[1..] == a[1..] + b && (a + b)[0] == a[0];
      ToAttrsConcat(a[1..], b);
    }
  }

  lemma {:induction false} AddAttrsConcat(t: Tag, a: seq<Attr>, b: seq<Attr>)
    ensures AddAttrs(t, a + b, true) ==
      match AddAttrs(t, a, true)
      case None => None
      case Some(t') => AddAttrs(t', b, true)
    decreases a
  {
    hide AddAttr;
    if a == [] {
      assert a + b == b;
    } else {
      assert (a + b)[1..] == a[1..] + b && (a + b)[0] == a[0];
      if AddAttr(t, a[0], true).Some? {
        AddAttrsConcat(AddAttr(t, a[0], true).value, a[1..], b);
      }
    }
  }

  // ---------------------------------------------------------------- the split

  function OwnAtts(name: Str, atts: seq<Att>): seq<Att> {
    if atts == [] then []
    else OwnAtts(name, atts[..|atts| - 1]) + (if Own(name, atts[|atts| - 1]) then [atts[|atts| - 1]] else [])
  }

  lemma DeclSplits(a: Att)
    requires DeclName(a.name)
    ensures a.name == "xmlns:" + Suffix(a.name) && EntryAtt(Entry(Suffix(a.name), a.value, false)) == a
  {
    assert a.name == a.name[..6] + Suffix(a.name);
  }

  lemma {:induction false} LeftConcat(a: seq<Entry>, b: seq<Entry>)
    ensures LeftAtts(a + b) == LeftAtts(a) + LeftAtts(b)
  {
    if a == [] {
      assert a + b == b;
    } else {
      assert (a + b)[0] == a[0] && (a + b)[1..] == a[1..] + b;
      LeftConcat(a[1..], b);
    }
  }

  /** Every attribute goes to exactly one of the three places. */
  lemma {:induction false} Partition(name: Str, atts: seq<Att>)
    ensures multiset(Rest(atts)) + multiset(LeftAtts(Entries(name, atts))) + multiset(OwnAtts(name, atts)) ==
      multiset(atts)
  {
    hide DeclName, PrefixOf, EntryAtt, Rest, OwnAtts;
    if atts != [] {
      hide LeftAtts, Entries;
      var a := atts[|atts| - 1];
      var init := atts[..|atts| - 1];
      Partition(name, init);
      PartitionLast(name, atts);
      assert atts == init + [a];
      Three(Rest(init), Rest(atts), LeftAtts(Entries(name, init)), LeftAtts(Entries(name, atts)), OwnAtts(name, init),
        OwnAtts(name, atts), a, multiset(init));
      assert multiset(init + [a]) == multiset(init) + multiset{a};
    } else {
      NoneSplit(name);
    }
  }

  lemma NoneSplit(name: Str)
    ensures Rest([]) == [] && LeftAtts(Entries(name, [])) == [] && OwnAtts(name, []) == []
  {
  }

  lemma Three(x: seq<Att>, x': seq<Att>, y: seq<Att>, y': seq<Att>, z: seq<Att>, z': seq<Att>, a: Att, m: multiset<Att>)
    requires multiset(x) + multiset(y) + multiset(z) == m
    requires (x' == x + [a] && y' == y && z' == z) || (x' == x && y' == y + [a] && z' == z) ||
      (x' == x && y' == y && z' == z + [a])
    ensures multiset(x') + multiset(y') + multiset(z') == m + multiset{a}
  {
    if x' == x + [a] {
      assert multiset(x') == multiset(x) + multiset{a};
    } else if y' == y + [a] {
      assert multiset(y') == multiset(y) + multiset{a};
    } else {
      assert multiset(z') == multiset(z) + multiset{a};
    }
  }

  lemma PartitionLast(name: Str, atts: seq<Att>)
    requires atts != []
    ensures var a := atts[|atts| - 1];
      var init := atts[..|atts| - 1];
      && Rest(atts) == (if DeclName(a.name) then Rest(init) else Rest(init) + [a])
      && OwnAtts(name, atts) == (if Own(name, a) then OwnAtts(name, init) + [a] else OwnAtts(name, init))
      && LeftAtts(Entries(name, atts)) ==
         (if Other(name, a) then LeftAtts(Entries(name, init)) + [a] else LeftAtts(Entries(name, init)))
  {
    hide DeclName, PrefixOf, EntryAtt, LeftAtts;
    var a := atts[|atts| - 1];
    var init := atts[..|atts| - 1];
    if Other(name, a) {
      DeclSplits(a);
      LeftConcat(Entries(name, init), [Entry(Suffix(a.name), a.value, false)]);
      OneLeft(Entry(Suffix(a.name), a.value, false));
    } else {
      assert Entries(name, init) + [] == Entries(name, init);
    }
  }

  lemma OneLeft(e: Entry)
    requires !e.claimed
    ensures LeftAtts([e]) == [EntryAtt(e)]
  {
    assert [e][1..] == [];
  }

  predicate DistinctNames(atts: seq<Att>) {
    forall i, j | 0 <= i < j < |atts| :: atts[i].name != atts[j].name
  }

  /** What is known of the entries: they come from the attributes, in order, and none is the element's own. */
  lemma {:induction false} EntriesFrom(name: Str, atts: seq<Att>)
    requires DistinctNames(atts)
    ensures var es := Entries(name, atts);
      && DistinctPrefixes(es)
      && forall e | e in es :: !e.claimed && Att("xmlns:" + e.prefix, e.uri) in atts && PrefixOf(name) != Some(e.prefix)
  {
    hide DeclName, PrefixOf;
    if atts != [] {
      var a := atts[|atts| - 1];
      var init := atts[..|atts| - 1];
      EntriesFrom(name, init);
      var es := Entries(name, init);
      if Other(name, a) {
        DeclSplits(a);
        forall i | 0 <= i < |es| ensures es[i].prefix != Suffix(a.name) {
          assert es[i] in es;
          var j :| 0 <= j < |init| && init[j] == Att("xmlns:" + es[i].prefix, es[i].uri);
          assert atts[j] == init[j];
        }
      }
    }
  }

  lemma {:induction false} OwnFrom(name: Str, atts: seq<Att>)
    requires DistinctNames(atts)
    ensures var own := OwnAtts(name, atts);
      && |own| <= 1
      && (forall a | a in own :: a in atts && Own(name, a))
      && (forall a | a in atts && Own(name, a) :: a in own)
      && OwnUris(name, atts) == (if own == [] then [] else [Param(UriKey, own[0].value)])
  {
    hide DeclName, PrefixOf;
    if atts != [] {
      var a := atts[|atts| - 1];
      var init := atts[..|atts| - 1];
      assert atts == init + [a];
      OwnFrom(name, init);
      var own := OwnAtts(name, init);
      assert forall j | 0 <= j < |init| :: init[j] == atts[j];
      forall b | b in own ensures !Own(name, a) {
        if Own(name, a) {
          SameOwn(name, a, b);
        }
      }
      assert own != [] ==> own[0] in own;
    }
  }

  lemma SameOwn(name: Str, a: Att, b: Att)
    requires Own(name, a) && Own(name, b)
    ensures a.name == b.name
  {
    DeclSplits(a);
    DeclSplits(b);
  }

  /** The element's own declaration, when its URI is empty. */
  function OwnLost(name: Str, atts: seq<Att>): seq<Att> {
    var own := OwnAtts(name, atts);
    if own != [] && own[0].value == [] then own else []
  }

  lemma StartElem(name: Str, atts: seq<Att>)
    requires DistinctNames(atts) && NoLeadingColon(name)
    ensures var e := ToElem(StartCommand(name, atts));
      var own := OwnAtts(name, atts);
      && e.prefix == PrefixText(name) && e.name == LocalOf(name) && FullName(e.prefix, e.name) == name
      && e.uri == (if own == [] then [] else own[0].value)
      && (own != [] ==> e.prefix != [] && NsAtt(Ns(e.prefix, e.uri, true)) == own[0])
  {
    hide Colon, ParamValue, OwnUris, OwnAtts;
    OwnFrom(name, atts);
    NameSplits(name);
    TwoParams(PrefixParam(name), OwnUris(name, atts));
    var own := OwnAtts(name, atts);
    if own != [] {
      assert own[0] in own;
      DeclSplits(own[0]);
    }
  }

  /** The tag right after the start of the element. */
  lemma StartFits(name: Str, atts: seq<Att>)
    requires DistinctNames(atts) && NoLeadingColon(name)
    ensures var t := FirstTag(ToElem(StartCommand(name, atts)));
      var es := Entries(name, atts);
      && Fits(t, es)
      && Bag(t, es) + multiset(OwnLost(name, atts)) == multiset(LeftAtts(es)) + multiset(OwnAtts(name, atts))
  {
    hide ToElem, StartCommand, OwnAtts, Entries, LeftAtts, FirstTag, PrefixOf, Fits, TagAtts, OwnLost;
    StartElem(name, atts);
    OwnFrom(name, atts);
    StartFree(name, atts);
    StartBag(ToElem(StartCommand(name, atts)), OwnAtts(name, atts), name, atts);
  }

  /** No other declaration is for the element's prefix. */
  lemma StartFree(name: Str, atts: seq<Att>)
    requires DistinctNames(atts) && NoLeadingColon(name)
    ensures Fits(FirstTag(ToElem(StartCommand(name, atts))), Entries(name, atts))
  {
    hide ToElem, StartCommand, Entries, FirstTag, PrefixOf, Distinct, DeclarationsOk, OwnAtts;
    StartElem(name, atts);
    EntriesFrom(name, atts);
    var e := ToElem(StartCommand(name, atts));
    var t, es := FirstTag(e), Entries(name, atts);
    FirstDeclared(e);
    FirstLookup(e);
    forall k | 0 <= k < |es| ensures Lookup(t.nss, es[k].prefix).None? {
      assert es[k] in es;
      if t.nss != [] {
      }
    }
  }

  /** The element's own declaration is printed first, unless its URI is empty. */
  lemma StartBag(e: Elem, own: seq<Att>, name: Str, atts: seq<Att>)
    requires |own| <= 1 && own == OwnAtts(name, atts) && e.uri == (if own == [] then [] else own[0].value)
    requires own != [] ==> e.prefix != [] && NsAtt(Ns(e.prefix, e.uri, true)) == own[0]
    ensures TagAtts(FirstTag(e)) + OwnLost(name, atts) == own
    ensures multiset(TagAtts(FirstTag(e))) + multiset(OwnLost(name, atts)) == multiset(own)
  {
    hide NsAtt, OwnAtts, Undeclared;
    FirstDeclared(e);
    if own != [] {
      assert own == [own[0]];
    }
    assert multiset(TagAtts(FirstTag(e)) + OwnLost(name, atts)) ==
      multiset(TagAtts(FirstTag(e))) + multiset(OwnLost(name, atts));
  }

  lemma FirstDeclared(e: Elem)
    ensures Undeclared(FirstTag(e).nss) == [] && Distinct(FirstTag(e).nss) && DeclarationsOk(FirstTag(e).nss, true)
    ensures FirstTag(e).nss == [] <==> !(e.prefix != [] && e.uri != [])
  {
    assert [Ns(e.prefix, e.uri, true)][1..] == [];
  }

  // ---------------------------------------------------------------- the whole way round

  /** What expat guarantees, and names that the writer accepts; no name begins with a colon. */
  predicate Acceptable(name: Str, atts: seq<Att>) {
    && name != [] && ValidName(name) && NoLeadingColon(name) && DistinctNames(atts)
    && forall a | a in atts :: ValidName(a.name) && NoLeadingColon(a.name)
  }

  /** All the declarations that are not printed again. */
  function AllLost(name: Str, atts: seq<Att>): seq<Att> {
    OwnLost(name, atts) + Lost(Entries(name, atts), Rest(atts))
  }

  lemma {:induction false} RestFrom(atts: seq<Att>)
    ensures forall a :: a in Rest(atts) <==> a in atts && !DeclName(a.name)
  {
    hide DeclName;
    if atts != [] {
      RestFrom(atts[..|atts| - 1]);
      assert atts == atts[..|atts| - 1] + [atts[|atts| - 1]];
    }
  }

  lemma ReplayedParts(name: Str, atts: seq<Att>)
    ensures var es := Entries(name, atts);
      var e := Replayed(Script(name, atts));
      && e == ToElem(StartCommand(name, atts)).(attrs := e.attrs)
      && e.attrs == ToAttrs(AttrScript(es, Rest(atts))) + ToAttrs(LeftScript(AfterClaims(es, Rest(atts))))
  {
    hide ToElem, StartCommand, ToAttrs, AttrScript, LeftScript, AfterClaims, Entries, Rest;
    var es := Entries(name, atts);
    var a, b := AttrScript(es, Rest(atts)), LeftScript(AfterClaims(es, Rest(atts)));
    assert Script(name, atts)[1..] == a + b;
    ToAttrsConcat(a, b);
  }

  lemma NamesUsable(name: Str, atts: seq<Att>)
    requires Acceptable(name, atts)
    ensures ElemNameOk(Replayed(Script(name, atts))) && DeclNamesOk(Entries(name, atts))
  {
    hide ValidName, ToElem, StartCommand, Entries, Script, FullName, OwnAtts;
    ReplayedParts(name, atts);
    StartElem(name, atts);
    OwnFrom(name, atts);
    EntriesFrom(name, atts);
    var own := OwnAtts(name, atts);
    if own != [] {
      assert own[0] in own;
    }
  }

  /** The tag that the replayed script makes. */
  lemma ScriptTag(name: Str, atts: seq<Att>)
    requires Acceptable(name, atts)
    ensures var t := ElemTag(Replayed(Script(name, atts)), true);
      && t.Some? && DeclarationsOk(t.value.nss, true)
      && multiset(TagAtts(t.value)) + multiset(AllLost(name, atts)) == multiset(atts)
  {
    hide ValidName, ToElem, StartCommand, ToAttrs, AttrScript, LeftScript, Entries, Rest, OwnAtts, Script,
      ElemNameOk, FirstTag, AddAttrs, Lost, OwnLost, AfterClaims, LeftAtts, DeclNamesOk, Undeclared, DeclarationsOk,
      NoLeadingColon;
    var es, rest := Entries(name, atts), Rest(atts);
    var e := Replayed(Script(name, atts));
    var t0 := FirstTag(ToElem(StartCommand(name, atts)));
    ReplayedParts(name, atts);
    NamesUsable(name, atts);
    StartFits(name, atts);
    RestFrom(atts);
    AttrsRebuild(t0, es, rest);
    var last := AfterClaims(es, rest);
    var t1 := AddAttrs(t0, ToAttrs(AttrScript(es, rest)), true).value;
    LeftRebuild(t1, last);
    AddAttrsConcat(t0, ToAttrs(AttrScript(es, rest)), ToAttrs(LeftScript(last)));
    SameFirst(e, ToElem(StartCommand(name, atts)));
    Partition(name, atts);
    var t2 := Tag(t1.atts + LeftAtts(last), t1.nss, t1.tagged || LeftAtts(last) != []);
    Tally(t0, t1, t2, es, last, name, atts);
  }

  lemma SameFirst(e: Elem, f: Elem)
    requires e == f.(attrs := e.attrs)
    ensures FirstTag(e) == FirstTag(f)
  {
  }

  lemma Tally(t0: Tag, t1: Tag, t2: Tag, es: seq<Entry>, last: seq<Entry>, name: Str, atts: seq<Att>)
    requires t2.atts == t1.atts + LeftAtts(last) && t2.nss == t1.nss
    requires Bag(t0, es) + multiset(OwnLost(name, atts)) == multiset(LeftAtts(es)) + multiset(OwnAtts(name, atts))
    requires Bag(t1, last) + multiset(Lost(es, Rest(atts))) == Bag(t0, es) + multiset(Rest(atts))
    requires multiset(Rest(atts)) + multiset(LeftAtts(es)) + multiset(OwnAtts(name, atts)) == multiset(atts)
    requires es == Entries(name, atts)
    ensures multiset(TagAtts(t2)) + multiset(AllLost(name, atts)) == multiset(atts)
  {
    hide LeftAtts, Undeclared, OwnLost, OwnAtts, Lost, Rest, Entries;
    assert multiset(TagAtts(t2)) == Bag(t1, last) by {
      assert multiset(t1.atts + LeftAtts(last) + Undeclared(t1.nss)) ==
        multiset(t1.atts) + multiset(LeftAtts(last)) + multiset(Undeclared(t1.nss));
    }
    assert multiset(AllLost(name, atts)) == multiset(OwnLost(name, atts)) + multiset(Lost(es, Rest(atts)));
    Sums(Bag(t1, last), Bag(t0, es), multiset(OwnLost(name, atts)), multiset(Lost(es, Rest(atts))),
      multiset(LeftAtts(es)),
      multiset(OwnAtts(name, atts)), multiset(Rest(atts)), multiset(atts));
  }

  lemma Sums(b1: multiset<Att>, b0: multiset<Att>, ownLost: multiset<Att>, lost: multiset<Att>, left: multiset<Att>,
             own: multiset<Att>, rest: multiset<Att>, all: multiset<Att>)
    requires b0 + ownLost == left + own && b1 + lost == b0 + rest && rest + left + own == all
    ensures b1 + (ownLost + lost) == all
  {
    forall x ensures (b1 + (ownLost + lost))[x] == all[x] {
      assert (b0 + ownLost)[x] == (left + own)[x];
      assert (b1 + lost)[x] == (b0 + rest)[x];
      assert (rest + left + own)[x] == all[x];
    }
  }

  /** An attribute or the element uses this prefix. */
  predicate Uses(name: Str, atts: seq<Att>, p: Str) {
    PrefixOf(name) == Some(p) || exists a | a in atts :: !DeclName(a.name) && PrefixOf(a.name) == Some(p)
  }

  /** No prefix that is used is declared with the empty URI. */
  predicate NothingEmpty(name: Str, atts: seq<Att>) {
    forall a | a in atts && DeclName(a.name) && a.value == [] :: !Uses(name, atts, Suffix(a.name))
  }

  predicate ClaimsEmpty(es: seq<Entry>, atts: seq<Att>) {
    exists k | 0 <= k < |es| :: !es[k].claimed && es[k].uri == [] &&
      exists a | a in atts :: PrefixOf(a.name) == Some(es[k].prefix)
  }

  lemma {:induction false} LostIff(es: seq<Entry>, atts: seq<Att>)
    requires DistinctPrefixes(es)
    ensures Lost(es, atts) == [] <==> !ClaimsEmpty(es, atts)
    decreases atts
  {
    hide PrefixOf, Claimed, EntryAtt;
    if atts != [] {
      var a := atts[0];
      var es1, k := AfterClaim(es, a.name), Claimed(es, a.name);
      ClaimKeeps(es, a.name);
      LostIff(es1, atts[1..]);
      assert a in atts && forall b | b in atts :: b == a || b in atts[1..];
      if k < |es| && es[k].uri == [] {
        assert ClaimsEmpty(es, atts);
      } else {
        ClaimsStep(es, atts);
      }
    }
  }

  /** Unless the first attribute claims an empty URI, it does not matter here. */
  lemma ClaimsStep(es: seq<Entry>, atts: seq<Att>)
    requires DistinctPrefixes(es) && atts != []
    requires var k := Claimed(es, atts[0].name); k < |es| ==> es[k].uri != []
    ensures ClaimsEmpty(es, atts) <==> ClaimsEmpty(AfterClaim(es, atts[0].name), atts[1..])
  {
    hide PrefixOf;
    var a := atts[0];
    var es1, k := AfterClaim(es, a.name), Claimed(es, a.name);
    assert a in atts && forall b | b in atts :: b == a || b in atts[1..];
    if ClaimsEmpty(es, atts) {
      var i :| 0 <= i < |es| && !es[i].claimed && es[i].uri == [] &&
        exists b | b in atts :: PrefixOf(b.name) == Some(es[i].prefix);
      assert es1[i] == es[i];
      assert PrefixOf(a.name) != Some(es[i].prefix);
    }
    if ClaimsEmpty(es1, atts[1..]) {
      var i :| 0 <= i < |es| && !es1[i].claimed && es1[i].uri == [] &&
        exists b | b in atts[1..] :: PrefixOf(b.name) == Some(es1[i].prefix);
      assert es1[i] == es[i];
    }
  }

  lemma {:induction false} EntriesTo(name: Str, atts: seq<Att>)
    ensures forall a | a in atts && Other(name, a) :: Entry(Suffix(a.name), a.value, false) in Entries(name, atts)
  {
    hide DeclName, PrefixOf;
    if atts != [] {
      EntriesTo(name, atts[..|atts| - 1]);
      assert atts == atts[..|atts| - 1] + [atts[|atts| - 1]];
    }
  }

  lemma OwnLostIff(name: Str, atts: seq<Att>)
    requires DistinctNames(atts)
    ensures OwnLost(name, atts) == [] <==> forall a | a in atts && Own(name, a) :: a.value != []
  {
    hide Own, OwnAtts, OwnUris;
    OwnFrom(name, atts);
    var own := OwnAtts(name, atts);
    if own != [] {
      assert own[0] in own && own == [own[0]];
    }
  }

  lemma EmptyClaimUsed(name: Str, atts: seq<Att>)
    requires DistinctNames(atts) && ClaimsEmpty(Entries(name, atts), Rest(atts))
    ensures exists a | a in atts && Other(name, a) && a.value == [] :: Uses(name, atts, Suffix(a.name))
  {
    hide DeclName, PrefixOf, Suffix, Entries, Rest;
    var es := Entries(name, atts);
    EntriesFrom(name, atts);
    RestFrom(atts);
    var k :| 0 <= k < |es| && !es[k].claimed && es[k].uri == [] &&
      exists a | a in Rest(atts) :: PrefixOf(a.name) == Some(es[k].prefix);
    assert es[k] in es;
    var a := Att("xmlns:" + es[k].prefix, []);
    PrefixedDecl(es[k].prefix);
    assert a in atts && Other(name, a) && Uses(name, atts, Suffix(a.name));
  }

  lemma UsedIsClaimed(name: Str, atts: seq<Att>, a: Att)
    requires a in atts && Other(name, a) && a.value == [] && Uses(name, atts, Suffix(a.name))
    ensures ClaimsEmpty(Entries(name, atts), Rest(atts))
  {
    hide DeclName, PrefixOf, Suffix, Entries, Rest;
    var es := Entries(name, atts);
    EntriesTo(name, atts);
    RestFrom(atts);
    var e := Entry(Suffix(a.name), a.value, false);
    var k :| 0 <= k < |es| && es[k] == e;
    var b :| b in atts && !DeclName(b.name) && PrefixOf(b.name) == Some(Suffix(a.name));
    assert b in Rest(atts);
  }

  lemma ClaimsEmptyIff(name: Str, atts: seq<Att>)
    requires DistinctNames(atts)
    ensures ClaimsEmpty(Entries(name, atts), Rest(atts)) <==>
      exists a | a in atts && Other(name, a) && a.value == [] :: Uses(name, atts, Suffix(a.name))
  {
    hide Other, Uses, Suffix, Entries, Rest, ClaimsEmpty;
    if ClaimsEmpty(Entries(name, atts), Rest(atts)) {
      EmptyClaimUsed(name, atts);
    }
    if a :| a in atts && Other(name, a) && a.value == [] && Uses(name, atts, Suffix(a.name)) {
      UsedIsClaimed(name, atts, a);
    }
  }

  lemma PrefixedDecl(p: Str)
    ensures DeclName("xmlns:" + p) && Suffix("xmlns:" + p) == p
  {
    assert ("xmlns:" + p)[..6] == "xmlns:";
  }

  lemma LostCondition(name: Str, atts: seq<Att>)
    requires DistinctNames(atts)
    ensures AllLost(name, atts) == [] <==> NothingEmpty(name, atts)
  {
    hide DeclName, PrefixOf, Lost, OwnLost, Entries, Rest, ClaimsEmpty;
    OwnLostIff(name, atts);
    EntriesFrom(name, atts);
    LostIff(Entries(name, atts), Rest(atts));
    ClaimsEmptyIff(name, atts);
    forall a | a in atts && Own(name, a) ensures Uses(name, atts, Suffix(a.name)) {
    }
  }

  /** Attribute rebuild: the element and the attributes that expat reported, split into commands and replayed
      through the writer, print the same attributes and namespace declarations, exactly when no prefix that
      is used is declared with the empty URI. Every such declaration, and nothing else, is lost. */
  lemma RebuildIff(name: Str, atts: seq<Att>)
    requires Acceptable(name, atts)
    ensures var t := ElemTag(Replayed(Script(name, atts)), true);
      && t.Some? && DeclarationsOk(t.value.nss, true)
      && multiset(TagAtts(t.value)) + multiset(AllLost(name, atts)) == multiset(atts)
      && (multiset(TagAtts(t.value)) == multiset(atts) <==> NothingEmpty(name, atts))
  {
    hide Acceptable, TagAtts, AllLost, NothingEmpty, ElemTag, Script, Replayed, DeclarationsOk;
    ScriptTag(name, atts);
    assert DistinctNames(atts) by { AcceptableDistinct(name, atts); }
    LostCondition(name, atts);
    var t := ElemTag(Replayed(Script(name, atts)), true).value;
    Cancel(multiset(TagAtts(t)), AllLost(name, atts), multiset(atts));
  }

  lemma AcceptableDistinct(name: Str, atts: seq<Att>)
    requires Acceptable(name, atts)
    ensures DistinctNames(atts)
  {
  }

  lemma Cancel(x: multiset<Att>, lost: seq<Att>, all: multiset<Att>)
    requires x + multiset(lost) == all
    ensures x == all <==> lost == []
  {
    if lost != [] {
      assert lost[0] in multiset(lost);
      assert (x + multiset(lost))[lost[0]] == x[lost[0]] + multiset(lost)[lost[0]];
    }
  }

  /** The same through the calls of the writer: start, one call for each attribute, end. */
  lemma ReplayPrints(z: Zip, cap: nat, name: Str, atts: seq<Att>, cfg: Config, grow: Growth)
    requires Acceptable(name, atts) && NothingEmpty(name, atts) && cfg.enforce
    requires Allowed(z, ElemNode, cfg) && Depth(z.stack) <= cap
    ensures var m := OpenTop(z, Pushed(Depth(z.stack), cap, grow), cfg, grow);
      var o := Steps(z, cap, Direct(ElemStart(Replayed(Script(name, atts)))), cfg, grow);
      && o.Done?
      && exists printed: seq<Att>, made: Made :: multiset(printed) == multiset(atts) && !made.stale &&
           o.zip == Attach(m.zip, Branch(HElem(name), printed, [], false, made))
  {
    hide Acceptable, NothingEmpty, ElemTag, Script, DeclarationsOk, Steps, Attach, Direct, Undeclared, Declared,
      Parents, OpenTop, OpenTopOk;
    var e := Replayed(Script(name, atts));
    RebuildIff(name, atts);
    var t := ElemTag(e, true).value;
    assert ItemsOk(e.content, cfg);
    DirectSteps(z, cap, e, cfg, grow);
    ReplayedName(name, atts);
    assert multiset(TagAtts(t)) == multiset(atts);
  }

  lemma ReplayedName(name: Str, atts: seq<Att>)
    requires Acceptable(name, atts)
    ensures var e := Replayed(Script(name, atts)); FullName(e.prefix, e.name) == name && e.content == [] && !e.full
  {
    hide ValidName, StartCommand, Script, FullName, ParamValue;
    ReplayedParts(name, atts);
    StartElem(name, atts);
  }
}
