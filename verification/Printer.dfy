/** The printer of printer.go: an output that only grows, and the methods that print one piece of
    markup. The ghost log keeps what the writer printed apart from what an indenter put between. */
module Printer {
  import opened Bytes
  import opened Utf8
  import opened Check
  import opened Escape

  datatype Piece = Chunk(s: Str) | Space(s: Str)

  /** A line break that an indenter put into the text at offset `at`. */
  datatype Break = Break(at: nat, s: Str)

  function Repeat(s: Str, n: nat): Str {
    if n == 0 then [] else Repeat(s, n - 1) + s
  }

  /** A line break of some depth. */
  function BreakText(newline: Str, unit: Str, level: nat): Str {
    newline + Repeat(unit, level)
  }

  /** Everything in the log. */
  ghost function Joined(log: seq<Piece>): Str {
    if log == [] then [] else Joined(log[..|log| - 1]) + log[|log| - 1].s
  }

  /** What the log holds besides line breaks. */
  ghost function Plain(log: seq<Piece>): Str {
    if log == [] then []
    else Plain(log[..|log| - 1]) + (if log[|log| - 1].Chunk? then log[|log| - 1].s else [])
  }

  function Quote(s: Str): byte {
    if '"' in s then '\'' else '"'
  }

  /** A literal in the quote that fits: SystemLiteral ([11]) and EntityValue ([9]). */
  function Literal(s: Str): Str {
    [Quote(s)] + s + [Quote(s)]
  }

  predicate OneQuoteKind(s: Str) {
    !('"' in s && '\'' in s)
  }

  function PublicId(pub: Str, sys: Str): Str {
    "PUBLIC \"" + pub + (if sys != [] then "\" " + Literal(sys) else "\"")
  }

  /** ExternalID ([75]), or nothing when both identifiers are empty. */
  function ExternalId(pub: Str, sys: Str): Str {
    if pub == [] then (if sys == [] then [] else "SYSTEM " + Literal(sys)) else PublicId(pub, sys)
  }

  predicate ExternalIdOk(pub: Str, sys: Str) {
    OneQuoteKind(sys) && (pub != [] ==> sys != [] && AllRunes(pub, PubIdChar))
  }

  /** One attribute as it stands in a tag. */
  function AttBytes(name: Str, value: Str): Str {
    " " + name + "=\"" + EscapeAttr(value) + "\""
  }

  /** The line breaks of the log, each with its offset in the rest. */
  ghost function Breaks(log: seq<Piece>): seq<Break> {
    if log == [] then []
    else
      var before := log[..|log| - 1];
      Breaks(before) + (if log[|log| - 1].Space? then [Break(|Plain(before)|, log[|log| - 1].s)] else [])
  }

  /** A text with line breaks put into it. */
  function Spaced(plain: Str, breaks: seq<Break>): Str
    decreases |breaks|
  {
    if breaks == [] then plain
    else
      var b := breaks[|breaks| - 1];
      if b.at > |plain| then plain
      else Spaced(plain[..b.at], breaks[..|breaks| - 1]) + b.s + plain[b.at..]
  }

  lemma LogGrows(log: seq<Piece>, p: Piece)
    ensures Joined(log + [p]) == Joined(log) + p.s
    ensures Plain(log + [p]) == Plain(log) + (if p.Chunk? then p.s else [])
    ensures Breaks(log + [p]) == Breaks(log) + (if p.Space? then [Break(|Plain(log)|, p.s)] else [])
  {
    assert (log + [p])[..|log + [p]| - 1] == log;
  }

  /** One turn of the escaping loop: the rune at `i` is either written out, after the bytes that
      were waiting since `last`, or it joins them. */
  lemma EscapeTurn(s: Str, last: nat, i: nat, attr: bool)
    requires last <= i < |s|
    ensures var d := DecodeRune(s[i..]);
      var esc := Escaped(d, attr);
      && i + d.width <= |s|
      && s[last..i] + EscapeMap(s[i..], attr) ==
         if esc.Some? then s[last..i] + esc.value + EscapeMap(s[i + d.width..], attr)
         else s[last..i + d.width] + EscapeMap(s[i + d.width..], attr)
  {
    hide DecodeRune, Escaped;
    var d := DecodeRune(s[i..]);
    var e := EscapedRune(s[i..], attr);
    var rest := EscapeMap(s[i + d.width..], attr);
    assert s[i..][d.width..] == s[i + d.width..];
    assert s[last..i] + (e + rest) == s[last..i] + e + rest;
    if Escaped(d, attr).None? {
      assert s[i..][..d.width] == s[i..i + d.width];
      assert s[last..i] + s[i..i + d.width] == s[last..i + d.width];
    }
  }

  lemma EscapeNothing(attr: bool)
    ensures EscapeMap([], attr) == []
  {
  }

  lemma NothingToEscape(s: Str)
    requires FastPrefix(s) == |s|
    ensures EscapeAttr(s) == s
  {
    assert s[..|s|] == s && s[|s|..] == [];
  }

  /** The output is the text that was printed, with the line breaks put into it. */
  lemma {:induction false} JoinedSpaced(log: seq<Piece>)
    ensures Joined(log) == Spaced(Plain(log), Breaks(log))
    ensures forall b | b in Breaks(log) :: b.at <= |Plain(log)|
  {
    if log != [] {
      var n := |log| - 1;
      JoinedSpaced(log[..n]);
      var p, bs := Plain(log[..n]), Breaks(log[..n]);
      if log[n].Space? {
        assert Plain(log) == p + [] == p;
        assert Breaks(log)[..|bs|] == bs && p[..|p|] == p && p[|p|..] == [];
        assert Joined(log) + [] == Joined(log);
      } else {
        SpacedGrows(p, bs, log[n].s);
        assert Breaks(log) == bs;
      }
    }
  }

  lemma SpacedGrows(p: Str, bs: seq<Break>, s: Str)
    requires forall b | b in bs :: b.at <= |p|
    ensures Spaced(p + s, bs) == Spaced(p, bs) + s
  {
    if bs != [] {
      var b := bs[|bs| - 1];
      assert (p + s)[..b.at] == p[..b.at] && (p + s)[b.at..] == p[b.at..] + s;
    }
  }

  class Printer {
    var out: Str
    ghost var log: seq<Piece>
    ghost var plain: Str
    ghost var breaks: seq<Break>

    ghost predicate Valid()
      reads this
    {
      out == Joined(log) && plain == Plain(log) && breaks == Breaks(log)
    }

    constructor ()
      ensures Valid() && out == [] && plain == [] && breaks == []
    {
      out, log, plain, breaks := [], [], [], [];
    }

    method WriteString(s: Str)
      requires Valid()
      modifies this
      ensures Valid() && plain == old(plain) + s && breaks == old(breaks)
    {
      hide Joined, Plain, Breaks;
      LogGrows(log, Chunk(s));
      out := out + s;
      log := log + [Chunk(s)];
      plain := plain + s;
    }

    /** The loop of an indenter that prints a new line and its indent strings. */
    method WriteBreak(newline: Str, unit: Str, level: nat)
      requires Valid()
      modifies this
      ensures Valid() && plain == old(plain)
      ensures breaks == old(breaks) + [Break(|plain|, BreakText(newline, unit, level))]
    {
      hide Joined, Plain, Breaks;
      out := out + newline;
      var i := 0;
      while i < level
        invariant i <= level && out == old(out) + newline + Repeat(unit, i)
        invariant log == old(log) && plain == old(plain) && breaks == old(breaks)
      {
        out := out + unit;
        i := i + 1;
      }
      ghost var s := BreakText(newline, unit, level);
      LogGrows(log, Space(s));
      Assoc(old(out), newline, Repeat(unit, level));
      log, breaks := log + [Space(s)], breaks + [Break(|plain|, s)];
    }

    /** Prints `s` escaped for element content. */
    method EscapeString(s: Str)
      requires Valid()
      modifies this
      ensures Valid() && plain == old(plain) + EscapeMap(s, false) && breaks == old(breaks)
    {
      EscapeFrom(s, false);
    }

    /** Prints `s` escaped for an attribute value: the longest prefix that needs no escape goes out
        as it is, the rest rune by rune. */
    method EscapeAttrString(s: Str)
      requires Valid()
      modifies this
      ensures Valid() && plain == old(plain) + EscapeAttr(s) && breaks == old(breaks)
    {
      hide Joined, Plain, Breaks, Fast, EscapeMap;
      var i := 0;
      while i < |s| && Fast(s[i])
        invariant i <= |s| && FastPrefix(s) == i + FastPrefix(s[i..])
      {
        assert s[i..][1..] == s[i + 1..];
        i := i + 1;
      }
      if i == |s| {
        WriteString(s);
        NothingToEscape(s);
      } else {
        WriteString(s[..i]);
        EscapeFrom(s[i..], true);
      }
    }

    /** The chunked loop of the escaping methods: `last` is where the bytes not yet printed begin. */
    method EscapeFrom(s: Str, attr: bool)
      requires Valid()
      modifies this
      ensures Valid() && plain == old(plain) + EscapeMap(s, attr) && breaks == old(breaks)
    {
      hide DecodeRune, Escaped, EscapeMap, Joined, Plain, Breaks;
      var last, i := 0, 0;
      assert s[0..] == s;
      while i < |s|
        invariant 0 <= last <= i <= |s|
        invariant Valid() && breaks == old(breaks)
        invariant old(plain) + EscapeMap(s, attr) == plain + (s[last..i] + EscapeMap(s[i..], attr))
      {
        EscapeTurn(s, last, i, attr);
        var d := DecodeRune(s[i..]);
        i := i + d.width;
        var esc := Escaped(d, attr);
        if esc.Some? {
          WriteString(s[last..i - d.width]);
          WriteString(esc.value);
          last := i;
        }
      }
      assert s[last..|s|] == s[last..] && s[|s|..] == [];
      EscapeNothing(attr);
      WriteString(s[last..]);
    }

    /** Prints an attribute; a name that CheckName refuses is an error when enforcing. */
    method PrintAttr(name: Str, value: Str, enforce: bool) returns (ok: bool)
      requires Valid()
      modifies this
      ensures Valid() && breaks == old(breaks)
      ensures ok <==> (enforce ==> ValidName(name))
      ensures plain == if ok then old(plain) + AttBytes(name, value) else old(plain)
    {
      hide Joined, Plain, Breaks, ValidName, EscapeAttr;
      if enforce {
        ok := CheckName(name);
        if !ok {
          return;
        }
      }
      WriteString(" ");
      WriteString(name);
      WriteString("=\"");
      EscapeAttrString(value);
      WriteString("\"");
      ok := true;
    }

    /** Prints a literal in the quote that fits; with both quotes in it, that is an error when
        enforcing. This is writeSystemID, and writeEntityValue is the same. */
    method WriteLiteral(s: Str, enforce: bool) returns (ok: bool)
      requires Valid()
      modifies this
      ensures Valid() && breaks == old(breaks)
      ensures ok <==> (enforce ==> OneQuoteKind(s))
      ensures plain == if ok then old(plain) + Literal(s) else old(plain)
    {
      hide Joined, Plain, Breaks;
      if enforce && '"' in s && '\'' in s {
        return false;
      }
      var qc: byte := '"';
      if '"' in s {
        qc := '\'';
      }
      WriteString([qc]);
      WriteString(s);
      WriteString([qc]);
      ok := true;
    }

    method WritePublicID(publicID: Str, systemID: Str, enforce: bool) returns (ok: bool)
      requires Valid()
      modifies this
      ensures Valid() && breaks == old(breaks)
      ensures ok <==> (enforce ==> OneQuoteKind(systemID))
      ensures ok ==> plain == old(plain) + PublicId(publicID, systemID)
    {
      hide Joined, Plain, Breaks, Literal;
      WriteString("PUBLIC ");
      WriteString("\"");
      WriteString(publicID);
      if systemID != [] {
        WriteString("\" ");
        ok := WriteLiteral(systemID, enforce);
      } else {
        WriteString("\"");
        ok := true;
      }
      assert "PUBLIC " + "\"" == "PUBLIC \"";
    }

    method WriteExternalID(publicID: Str, systemID: Str, enforce: bool) returns (ok: bool)
      requires Valid()
      modifies this
      ensures Valid() && breaks == old(breaks)
      ensures ok <==> (enforce ==> ExternalIdOk(publicID, systemID))
      ensures ok ==> plain == old(plain) + ExternalId(publicID, systemID)
    {
      hide Joined, Plain, Breaks, Literal, PublicId, AllRunes;
      if systemID != [] && publicID == [] {
        WriteString("SYSTEM ");
        ok := WriteLiteral(systemID, enforce);
      } else if publicID != [] {
        if enforce {
          if systemID == [] {
            return false;
          }
          ok := CheckPubID(publicID);
          if !ok {
            return;
          }
        }
        ok := WritePublicID(publicID, systemID, enforce);
      } else {
        ok := true;
      }
    }
  }
}
