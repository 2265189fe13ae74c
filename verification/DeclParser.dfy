/** The declaration parser of the test tools: a loop over states that fills an array allocated in advance. */
module DeclParser {
  import opened Bytes
  import opened Utf8
  import opened Check
  import opened Escape
  import opened Document
  import opened Printer
  import opened Trees
  import opened ReaderProofs
  import opened DocReads

  /** What is found in a text: the attributes, where reading stops, and whether it stops between attributes. */
  datatype Found = Found(atts: seq<Att>, read: nat, ok: bool)

  predicate EndsName(c: byte) {
    c == ' ' || c == '=' || c == '?'
  }

  /** The end of the name that goes on at `i`. */
  function NameEnd(s: Str, i: nat): (n: nat)
    requires i <= |s|
    ensures i <= n <= |s| && (forall j | i <= j < n :: !EndsName(s[j])) && (n < |s| ==> EndsName(s[n]))
    decreases |s| - i
  {
    if i == |s| || EndsName(s[i]) then i else NameEnd(s, i + 1)
  }

  /** The closing quote of the value that goes on at `i`. */
  function ValueEnd(s: Str, i: nat, q: byte): (n: nat)
    requires i <= |s|
    ensures i <= n <= |s| && (forall j | i <= j < n :: s[j] != q) && (n < |s| ==> s[n] == q)
    decreases |s| - i
  {
    if i == |s| || s[i] == q then i else ValueEnd(s, i + 1, q)
  }

  function Add(a: Att, f: Found): Found {
    f.(atts := [a] + f.atts)
  }

  /** The attributes from offset `i` on: spaces are skipped, a question mark is the end, a name without a
      value that is followed by a space is dropped. */
  function Attributes(s: Str, i: nat): (f: Found)
    requires i <= |s|
    ensures f.read <= |s|
    decreases |s| - i, 3
  {
    if i == |s| || s[i] == '?' then Found([], i, true)
    else if s[i] == ' ' then Attributes(s, i + 1)
    else FromName(s, i, i)
  }

  /** The same from inside a name. */
  function FromName(s: Str, start: nat, i: nat): (f: Found)
    requires start <= i <= |s| && (i == start ==> i < |s| && s[i] != ' ' && s[i] != '?')
    ensures f.read <= |s|
    decreases |s| - i, 2
  {
    var n := NameEnd(s, i);
    if n == |s| || s[n] == '?' then Found([], n, false)
    else if s[n] == ' ' then Attributes(s, n + 1)
    else FromQuote(s, start, n, n + 1)
  }

  /** The same after an equals sign. */
  function FromQuote(s: Str, start: nat, n: nat, i: nat): (f: Found)
    requires start <= n < i <= |s|
    ensures f.read <= |s|
    decreases |s| - i, 1
  {
    if i == |s| || (s[i] != '"' && s[i] != '\'') then Found([], i, false)
    else FromValue(s, start, n, i + 1, s[i], i + 1)
  }

  /** The same from inside a value. */
  function FromValue(s: Str, start: nat, n: nat, v: nat, q: byte, i: nat): (f: Found)
    requires start <= n < v <= i <= |s|
    ensures f.read <= |s|
    decreases |s| - i, 0
  {
    var e := ValueEnd(s, i, q);
    if e == |s| then Found([], e, false) else Add(Att(s[start..n], s[v..e]), Attributes(s, e + 1))
  }

  function Equals(s: Str): nat {
    if s == [] then 0 else Equals(s[..|s| - 1]) + (if s[|s| - 1] == '=' then 1 else 0)
  }

  lemma EqualsStep(s: Str, i: nat)
    requires i < |s|
    ensures Equals(s[..i + 1]) == Equals(s[..i]) + (if s[i] == '=' then 1 else 0)
  {
    assert s[..i + 1][..i] == s[..i];
  }

  lemma {:induction false} EqualsGrow(s: Str, i: nat)
    requires i <= |s|
    ensures Equals(s[..i]) <= Equals(s)
    decreases |s| - i
  {
    if i < |s| {
      EqualsStep(s, i);
      EqualsGrow(s, i + 1);
    } else {
      assert s[..i] == s;
    }
  }

  datatype State = Start | InName | InQuote | InValue

  /** Where the loop is: its state variables. */
  datatype Place = Place(state: State, nstart: nat, nlen: nat, vstart: nat, vlen: nat, qchar: byte)

  predicate PlaceOk(s: Str, p: Place, i: nat) {
    match p.state
    case Start => true
    case InName => p.nstart + p.nlen == i && (p.nlen == 0 ==> i < |s| && s[i] != ' ' && s[i] != '?')
    case InQuote => p.nstart + p.nlen < i
    case InValue => p.nstart + p.nlen < p.vstart && p.vstart + p.vlen == i
  }

  /** What is still to be found from a place. */
  function Rest(s: Str, p: Place, i: nat): Found
    requires i <= |s| && PlaceOk(s, p, i)
  {
    match p.state
    case Start => Attributes(s, i)
    case InName => FromName(s, p.nstart, i)
    case InQuote => FromQuote(s, p.nstart, p.nstart + p.nlen, i)
    case InValue => FromValue(s, p.nstart, p.nstart + p.nlen, p.vstart, p.qchar, i)
  }

  /** One turn of the loop body: what happens at byte `i`. */
  datatype Turn = Repeat(p: Place) | Next(p: Place) | Record(name: Str, value: Str) | Stop(rc: nat)

  /** What a turn at byte `i` means: what is still to be found stays the same, or an attribute was found, or
      reading is over. */
  predicate TurnOk(s: Str, p: Place, i: nat, t: Turn)
    requires i < |s| && PlaceOk(s, p, i)
  {
    match t
    case Repeat(q) =>
      && PlaceOk(s, q, i) && Rest(s, q, i) == Rest(s, p, i)
      && (if p.state.Start? then s[i] != ' ' && q.state.InName? else s[i] == ' ' && q.state.Start?)
    case Next(q) =>
      && PlaceOk(s, q, i + 1) && Rest(s, q, i + 1) == Rest(s, p, i)
      && (q.state.InQuote? ==> s[i] == '=') && (q.state.InValue? ==> p.state.InQuote? || p.state.InValue?)
    case Record(name, value) => p.state.InValue? && Rest(s, p, i) == Add(Att(name, value), Attributes(s, i + 1))
    case Stop(rc) => Rest(s, p, i) == Found([], i, rc == 0 && p.state.Start?)
  }

  method Dispatch(s: Str, p: Place, i: nat) returns (t: Turn)
    requires i < |s| && PlaceOk(s, p, i)
    ensures TurnOk(s, p, i, t)
  {
    match p.state {
      case Start =>
        if s[i] == '?' {
          return Stop(0);
        }
        if s[i] == ' ' {
          return Next(p);
        }
        return Repeat(p.(state := InName, nstart := i, nlen := 0));
      case InName =>
        if s[i] == ' ' {
          return Repeat(p.(state := Start));
        }
        if s[i] == '=' {
          return Next(p.(state := InQuote));
        }
        if s[i] == '?' {
          return Stop(1);
        }
        return Next(p.(nlen := p.nlen + 1));
      case InQuote =>
        if s[i] == '"' || s[i] == '\'' {
          return Next(p.(state := InValue, qchar := s[i], vstart := i + 1, vlen := 0));
        }
        return Stop(1);
      case InValue =>
        if s[i] == p.qchar {
          return Record(s[p.nstart..p.nstart + p.nlen], s[p.vstart..p.vstart + p.vlen]);
        }
        return Next(p.(vlen := p.vlen + 1));
    }
  }

  /** The attributes found before, and then the rest. */
  function Before(atts: seq<Att>, f: Found): Found {
    f.(atts := atts + f.atts)
  }

  /** The slots hold names and values in turn, and NULL from there on. */
  predicate Stored(slots: seq<Option<Str>>, atts: seq<Att>) {
    && 2 * |atts| < |slots|
    && (forall k | 0 <= k < |atts| :: slots[2 * k] == Some(atts[k].name) && slots[2 * k + 1] == Some(atts[k].value))
    && (forall k | 2 * |atts| <= k < |slots| :: slots[k] == None)
  }

  predicate Pending(p: Place) {
    p.state.InQuote? || p.state.InValue?
  }

  /** As many attributes as equals signs: those recorded, and the one being read. */
  predicate Room(s: Str, i: nat, p: Place, n: nat)
    requires i <= |s|
  {
    n + (if Pending(p) then 1 else 0) <= Equals(s[..i])
  }

  method CountEquals(s: Str) returns (n: nat)
    ensures n == Equals(s)
  {
    n := 0;
    var i := 0;
    while i < |s|
      invariant 0 <= i <= |s| && n == Equals(s[..i])
    {
      EqualsStep(s, i);
      if s[i] == '=' {
        n := n + 1;
      }
      i := i + 1;
    }
    assert s[..i] == s;
  }

  lemma AtEnd(s: Str, p: Place)
    requires PlaceOk(s, p, |s|)
    ensures Rest(s, p, |s|) == Found([], |s|, p.state.Start?)
  {
  }

  lemma StartPlaces(s: Str, p: Place, i: nat)
    requires p.state.Start? && i <= |s|
    ensures PlaceOk(s, p, i) && Rest(s, p, i) == Attributes(s, i)
  {
  }

  method Store(slots: array<Option<Str>>, attcur: nat, a: Att, ghost found: seq<Att>)
    requires Stored(slots[..], found) && attcur == 2 * |found| && attcur + 2 < slots.Length
    modifies slots
    ensures Stored(slots[..], found + [a])
  {
    slots[attcur] := Some(a.name);
    slots[attcur + 1] := Some(a.value);
  }

  lemma NoneStored(slots: seq<Option<Str>>)
    requires slots != [] && forall k | 0 <= k < |slots| :: slots[k] == None
    ensures Stored(slots, [])
  {
  }

  /** crap_atts_parse: on any input the attributes are stored in order in the slots allocated in advance, one
      slot stays NULL, and the result says where and how reading stopped. */
  method Parse(s: Str) returns (slots: array<Option<Str>>, read: nat, rc: nat)
    ensures var f := Attributes(s, 0);
      && slots.Length == 2 * Equals(s) + 1 && Stored(slots[..], f.atts)
      && read == f.read && (rc == 0 <==> f.ok)
    ensures fresh(slots)
  {
    hide Attributes, Rest, PlaceOk, Stored, Equals;
    var attmax := CountEquals(s);
    slots := new Option<Str>[2 * attmax + 1](_ => None);
    ghost var found: seq<Att> := [];
    var p := Place(Start, 0, 0, 0, 0, '\0');
    var attcur, i := 0, 0;
    rc := 0;
    assert [] + ([(Att([], []))] + (Attributes(s, 0)).atts) == [] + [(Att([], []))] + (Attributes(s, 0)).atts;
    NoneStored(slots[..]);
    StartPlaces(s, p, 0);
    while i < |s|
      invariant 0 <= i <= |s| && PlaceOk(s, p, i) && rc == 0
      invariant fresh(slots) && slots.Length == 2 * attmax + 1 && Stored(slots[..], found) && attcur == 2 * |found|
      invariant Attributes(s, 0) == Before(found, Rest(s, p, i))
      invariant Room(s, i, p, |found|)
      decreases |s| - i, if s[i..] != [] && s[i] == ' ' && !p.state.Start? then 2 else if p.state.Start? then 1 else 0
    {
      var t := Dispatch(s, p, i);
      EqualsStep(s, i);
      match t {
        case Repeat(p') =>
          p := p';
        case Next(p') =>
          p := p';
          i := i + 1;
        case Record(name, value) =>
          EqualsGrow(s, i);
          assert found + ([(Att(name, value))] + (Attributes(s, i + 1)).atts) ==
            found + [(Att(name, value))] + (Attributes(s, i + 1)).atts;
          Store(slots, attcur, Att(name, value), found);
          attcur := attcur + 2;
          found := found + [Att(name, value)];
          p := p.(state := Start);
          i := i + 1;
          StartPlaces(s, p, i);
        case Stop(r) =>
          rc := r;
          break;
      }
    }
    if i == |s| {
      AtEnd(s, p);
    }
    assert found + [] == found;
    read := i;
    if !p.state.Start? {
      rc := 1;
    }
  }

  // ---------------------------------------------------------------- parsing what was printed

  predicate NoNameEnds(name: Str) {
    forall j | 0 <= j < |name| :: !EndsName(name[j])
  }

  lemma NameHolds(name: Str)
    requires ValidName(name)
    ensures NoNameEnds(name)
  {
    hide AllRunes, DecodeRune;
    forall j | 0 <= j < |name| ensures !EndsName(name[j]) {
      if EndsName(name[j]) {
        NameBytes(name, j);
      }
    }
  }

  lemma SubSlice(s: Str, i: nat, j: nat, a: nat, b: nat)
    requires i <= j <= |s| && a <= b <= j - i
    ensures s[i..j][a..b] == s[i + a..i + b]
  {
    forall k | 0 <= k < b - a ensures s[i..j][a..b][k] == s[i + a..i + b][k] {
    }
  }

  /** The bytes of one attribute at offset `i`. */
  lemma AttributeBytes(s: Str, i: nat, name: Str, value: Str)
    requires At(s, " " + name + "=\"" + value + "\"", i)
    ensures i + |name| + |value| + 4 <= |s|
    ensures s[i] == ' ' && s[i + 1..i + 1 + |name|] == name && s[i + 1 + |name|] == '=' && s[i + 2 + |name|] == '"'
    ensures s[i + 3 + |name|..i + 3 + |name| + |value|] == value && s[i + 3 + |name| + |value|] == '"'
  {
    var piece := " " + name + "=\"" + value + "\"";
    var t := s[i..i + |piece|];
    assert t[0] == ' ' && t[1..1 + |name|] == name && t[1 + |name|] == '=' && t[2 + |name|] == '"';
    assert t[3 + |name|..3 + |name| + |value|] == value && t[3 + |name| + |value|] == '"';
    SubSlice(s, i, i + |piece|, 1, 1 + |name|);
    SubSlice(s, i, i + |piece|, 3 + |name|, 3 + |name| + |value|);
  }

  /** One attribute at offset `i`. */
  lemma OneAttribute(s: Str, i: nat, name: Str, value: Str)
    requires NoNameEnds(name) && '"' !in value
    requires At(s, " " + name + "=\"" + value + "\"", i)
    ensures var e := i + |name| + |value| + 4;
      e <= |s| && Attributes(s, i) == Add(Att(name, value), Attributes(s, e))
  {
    hide At, Attributes, FromQuote, FromName, NoNameEnds;
    var n, v := i + 1 + |name|, i + 3 + |name|;
    AttributeBytes(s, i, name, value);
    SpaceSkips(s, i);
    NameBegins(s, i + 1, name);
    NameGoes(s, i + 1, name);
    QuoteGoes(s, i + 1, n);
    ValueSpan(s, v, value);
  }

  lemma SpaceSkips(s: Str, i: nat)
    requires i < |s| && s[i] == ' '
    ensures Attributes(s, i) == Attributes(s, i + 1)
  {
  }

  lemma NameBegins(s: Str, i: nat, name: Str)
    requires i + |name| < |s| && s[i + |name|] == '=' && NoNameEnds(name) && s[i..i + |name|] == name
    ensures s[i] != ' ' && s[i] != '?' && Attributes(s, i) == FromName(s, i, i)
  {
    hide FromName;
    if name != [] {
      assert s[i] == name[0];
    }
  }

  lemma NameGoes(s: Str, i: nat, name: Str)
    requires i + |name| < |s| && s[i + |name|] == '=' && NoNameEnds(name) && s[i..i + |name|] == name
    requires s[i] != ' ' && s[i] != '?'
    ensures FromName(s, i, i) == FromQuote(s, i, i + |name|, i + |name| + 1)
  {
    hide FromQuote, Attributes;
    forall j | i <= j < i + |name| ensures !EndsName(s[j]) {
      assert s[j] == name[j - i];
    }
    assert NameEnd(s, i) == i + |name|;
  }

  lemma QuoteGoes(s: Str, start: nat, n: nat)
    requires start <= n && n + 1 < |s| && s[n + 1] == '"'
    ensures FromQuote(s, start, n, n + 1) == FromValue(s, start, n, n + 2, '"', n + 2)
  {
    hide FromValue;
  }

  lemma ValueSpan(s: Str, v: nat, value: Str)
    requires v + |value| < |s| && s[v + |value|] == '"' && '"' !in value && s[v..v + |value|] == value
    ensures ValueEnd(s, v, '"') == v + |value|
  {
    forall j | v <= j < v + |value| ensures s[j] != '"' {
      assert s[j] == value[j - v];
    }
  }

  lemma AttributesStep(pre: Str, a: Att, more: Str, tail: Str)
    requires ValidName(a.name)
    ensures var piece := AttBytes(a.name, a.value);
      Attributes(pre + (piece + more) + tail, |pre|) ==
      Add(Att(a.name, EscapeAttr(a.value)), Attributes(pre + piece + more + tail, |pre + piece|))
  {
    hide Attributes, ValidName, EscapeAttr, NoNameEnds;
    var piece := AttBytes(a.name, a.value);
    Assoc(pre, piece, more);
    Assoc(pre + piece, more, tail);
    assert (pre + piece + (more + tail))[|pre|..|pre| + |piece|] == piece;
    NameHolds(a.name);
    ValueReads(a.value);
    OneAttribute(pre + (piece + more) + tail, |pre|, a.name, EscapeAttr(a.value));
  }

  lemma {:induction false} AttributesParse(pre: Str, atts: seq<Att>, rest: Str)
    requires forall a | a in atts :: ValidName(a.name)
    ensures Attributes(pre + AttsBytes(atts) + ("?" + rest), |pre|) ==
      Found(RawAtts(atts), |pre + AttsBytes(atts)|, true)
    decreases atts
  {
    hide Attributes, ValidName, EscapeAttr, NoNameEnds, AttBytes;
    var tail := "?" + rest;
    if atts == [] {
      assert pre + [] + tail == pre + tail && (pre + tail)[|pre|] == '?';
      MarkStops(pre + tail, |pre|);
    } else {
      hide AttsBytes;
      var a := atts[0];
      assert a in atts && forall b | b in atts[1..] :: b in atts;
      var piece, more := AttBytes(a.name, a.value), AttsBytes(atts[1..]);
      AttsFirst(atts);
      AttributesStep(pre, a, more, tail);
      AttributesParse(pre + piece, atts[1..], rest);
      Assoc(pre, piece, more);
    }
  }

  lemma MarkStops(s: Str, i: nat)
    requires i < |s| && s[i] == '?'
    ensures Attributes(s, i) == Found([], i, true)
  {
  }

  /** The parser, given what Doc.open printed after "<?xml", reports the names and the escaped values in order
      and stops at the closing question mark. */
  lemma DeclarationParses(atts: seq<Att>, newline: Str, rest: Str)
    requires forall a | a in atts :: ValidName(a.name)
    ensures var body := AttsBytes(atts) + DeclSpace(atts);
      OpenBytes(HDoc(newline), atts) == "<?xml" + body + "?>" + newline &&
        Attributes(body + "?>" + rest, 0) == Found(RawAtts(atts), |body|, true)
  {
    hide Attributes, ValidName;
    var body := AttsBytes(atts) + DeclSpace(atts);
    Assoc("<?xml", AttsBytes(atts), DeclSpace(atts));
    var tail := "?" + (">" + rest);
    assert "?>" + rest == tail;
    Assoc(body, "?>", rest);
    if atts == [] {
      assert body == " ";
      var s := " " + tail;
      SpaceSkips(s, 0);
      assert s[1] == '?';
      MarkStops(s, 1);
    } else {
      hide AttsBytes;
      assert AttsBytes(atts) + [] == AttsBytes(atts);
      assert [] + AttsBytes(atts) == AttsBytes(atts);
      AttributesParse([], atts, ">" + rest);
    }
  }

  /** The same for the declarations a Doc can have: its version, encoding and standalone status, in order. */
  lemma DocParses(d: DocDecl, cfg: Config, rest: Str)
    ensures var body := AttsBytes(DocAtts(d, cfg)) + DeclSpace(DocAtts(d, cfg));
      && OpenBytes(HDoc(cfg.newline), DocAtts(d, cfg)) == "<?xml" + body + "?>" + cfg.newline
      && Attributes(body + "?>" + rest, 0) == Found(RawAtts(DocAtts(d, cfg)), |body|, true)
  {
    hide ValidName, Attributes, AttsBytes, RawAtts;
    LowerCaseName("version");
    LowerCaseName("encoding");
    LowerCaseName("standalone");
    DeclarationParses(DocAtts(d, cfg), cfg.newline, rest);
  }
}
