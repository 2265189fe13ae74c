/** Quoted identifiers and entity values read back: sections 2.3 and 4.2.2 of XML 1.0. */
module Literals {
  import opened Bytes
  import opened Utf8
  import opened Check
  import opened Printer
  import opened Document
  import opened Reader
  import opened ReaderProofs

  /** A quote, everything up to the next quote of that kind, and what follows. */
  function ReadLiteral(s: Str): (d: Option<Delimited>)
    ensures d.Some? ==> |d.value.rest| < |s|
  {
    if s != [] && (s[0] == '"' || s[0] == '\'') then ReadTo(s[1..], s[..1]) else None
  }

  datatype Ids = Ids(publicID: Str, systemID: Str, rest: Str)

  /** ExternalID ([75]) or PublicID ([83]). */
  function ReadIds(s: Str): (r: Option<Ids>)
    ensures r.Some? ==> |r.value.rest| < |s|
  {
    if StartsWith(s, "SYSTEM ") then
      match ReadLiteral(s[7..])
      case None => None
      case Some(sys) => Some(Ids([], sys.body, sys.rest))
    else if StartsWith(s, "PUBLIC ") then
      match ReadLiteral(s[7..])
      case None => None
      case Some(pub) =>
        if !StartsWith(pub.rest, " ") then Some(Ids(pub.body, [], pub.rest))
        else
          match ReadLiteral(pub.rest[1..])
          case None => None
          case Some(sys) => Some(Ids(pub.body, sys.body, sys.rest))
    else None
  }

  lemma OneQuote(body: Str, q: byte)
    ensures EndsFirst(body, [q]) <==> q !in body
  {
    var t := body + [q];
    assert t[|body|..|body| + 1] == [q];
    FirstIs(t, [q], |body|);
    forall i | 0 <= i < |body| ensures At(t, [q], i) <==> body[i] == q {
      assert t[i..i + 1] == [body[i]];
    }
  }

  lemma QuotedReadsIff(body: Str, q: byte, rest: Str)
    requires q == '"' || q == '\''
    ensures ReadLiteral([q] + body + [q] + rest) == Some(Delimited(body, rest)) <==> q !in body
  {
    hide ReadTo, EndsFirst;
    var s := [q] + body + [q] + rest;
    assert s[..1] == [q] && s[1..] == body + [q] + rest;
    OneQuote(body, q);
    DelimitedReads(body, [q], rest);
  }

  /** A system identifier or an entity value reads back exactly when it does not hold both quotes: the
      condition that writeSystemID and writeEntityValue enforce. */
  lemma LiteralReadsIff(s: Str, rest: Str)
    ensures ReadLiteral(Literal(s) + rest) == Some(Delimited(s, rest)) <==> OneQuoteKind(s)
  {
    hide ReadLiteral;
    QuotedReadsIff(s, Quote(s), rest);
  }

  lemma SystemReads(sys: Str, rest: Str)
    ensures ReadIds("SYSTEM " + Literal(sys) + rest) == Some(Ids([], sys, rest)) <==> OneQuoteKind(sys)
  {
    hide ReadLiteral, Literal;
    var s := "SYSTEM " + Literal(sys) + rest;
    assert s[..7] == "SYSTEM " && s[7..] == Literal(sys) + rest;
    LiteralReadsIff(sys, rest);
  }

  lemma PublicPieces(pub: Str, sys: Str, rest: Str)
    ensures PublicId(pub, sys) + rest ==
      "PUBLIC " + (['"'] + pub + ['"'] + (if sys != [] then " " + (Literal(sys) + rest) else rest))
  {
    hide Literal;
    var q: Str := ['"'];
    var tail := if sys != [] then " " + (Literal(sys) + rest) else rest;
    assert "PUBLIC \"" == "PUBLIC " + q && "\" " == q + " " && "\"" == q;
    if sys != [] {
      Assoc("PUBLIC \"" + pub, "\" " + Literal(sys), rest);
      assert "\" " + Literal(sys) + rest == q + tail;
    } else {
      Assoc("PUBLIC \"" + pub, q, rest);
    }
    assert PublicId(pub, sys) + rest == "PUBLIC \"" + pub + (q + tail);
    assert "PUBLIC \"" + pub + (q + tail) == "PUBLIC " + (q + pub + q + tail);
  }

  lemma PublicReads(pub: Str, sys: Str, rest: Str)
    requires sys == [] ==> !StartsWith(rest, " ")
    ensures ReadIds(PublicId(pub, sys) + rest) == Some(Ids(pub, sys, rest)) <==> '"' !in pub && OneQuoteKind(sys)
  {
    hide ReadLiteral, Literal, PublicId;
    var tail := if sys != [] then " " + (Literal(sys) + rest) else rest;
    var s := "PUBLIC " + (['"'] + pub + ['"'] + tail);
    PublicPieces(pub, sys, rest);
    assert s[..7] == "PUBLIC " && s[7..] == ['"'] + pub + ['"'] + tail;
    QuotedReadsIff(pub, '"', tail);
    PublicFirst(pub, tail);
    if sys != [] {
      assert tail[..1] == " " && tail[1..] == Literal(sys) + rest;
      LiteralReadsIff(sys, rest);
    }
  }

  /** What is read between the quotes of a public identifier is the identifier only when it is all of it. */
  lemma PublicFirst(pub: Str, tail: Str)
    ensures var d := ReadLiteral(['"'] + pub + ['"'] + tail);
      d.Some? && (d.value.body == pub ==> d.value.rest == tail)
  {
    var s := ['"'] + pub + ['"'] + tail;
    var t := pub + ['"'] + tail;
    assert s[..1] == ['"'] && s[1..] == t;
    assert At(t, ['"'], |pub|) by { assert t[|pub|..|pub| + 1] == ['"']; }
    var k := Find(t, ['"']);
    assert k <= |pub|;
    assert k == |pub| ==> t[k + 1..] == tail;
    assert |t[..k]| == k;
  }

  /** An external identifier reads back as the pair it was printed from exactly when the public part holds
      no double quote and the system part does not hold both quotes. `rest` begins with what the program
      prints next, which may be a space, but never after a public identifier alone. */
  lemma ExternalIdReadsIff(pub: Str, sys: Str, rest: Str)
    requires (pub != [] || sys != []) && (sys == [] ==> !StartsWith(rest, " "))
    ensures ReadIds(ExternalId(pub, sys) + rest) == Some(Ids(pub, sys, rest)) <==> '"' !in pub && OneQuoteKind(sys)
  {
    hide ReadIds, Literal, PublicId;
    if pub == [] {
      SystemReads(sys, rest);
    } else {
      PublicReads(pub, sys, rest);
    }
  }

  lemma {:induction false} PubIdNoQuote(pub: Str)
    requires AllRunes(pub, PubIdChar)
    ensures '"' !in pub
  {
    forall i | 0 <= i < |pub| ensures pub[i] != '"' {
      if pub[i] == '"' {
        AsciiIsRune(pub, i);
        AllRunesHolds(pub, PubIdChar);
      }
    }
  }

  /** What enforcing accepts as an external identifier always reads back. */
  lemma AcceptedIdsRead(pub: Str, sys: Str, rest: Str)
    requires ExternalIdOk(pub, sys) && (pub != [] || sys != [])
    ensures ReadIds(ExternalId(pub, sys) + rest) == Some(Ids(pub, sys, rest))
  {
    hide ReadIds, ExternalId, AllRunes;
    ExternalIdReadsIff(pub, sys, rest);
    if pub != [] {
      PubIdNoQuote(pub);
    }
  }

  /** The identifiers of a notation read back exactly when the public one holds no double quote, given that
      the notation is accepted. */
  lemma NotationReadsIff(name: Str, sys: Str, pub: Str)
    requires LeafOk(Notation(name, sys, pub), true)
    ensures var ids := if sys != [] then ExternalId(pub, sys) else PublicId(pub, sys);
      && LeafBytes(Notation(name, sys, pub)) == "<!NOTATION " + name + " " + ids + ">"
      && (ReadIds(ids + ">") == Some(Ids(pub, sys, ">")) <==> '"' !in pub)
  {
    hide ReadIds, ExternalId, PublicId, ValidName, AllRunes;
    assert ">"[..1] == ">";
    if sys != [] {
      AcceptedIdsRead(pub, sys, ">");
      if pub != [] {
        PubIdNoQuote(pub);
      }
    } else {
      PublicReads(pub, sys, ">");
    }
  }

  /** A notation with a public identifier alone is not asked for the characters of that identifier, so a
      double quote goes through and the identifier is cut short. */
  lemma NotationCutShort()
    ensures LeafOk(Notation("n", [], "\""), true)
    ensures ReadIds(PublicId("\"", []) + ">") != Some(Ids("\"", [], ">"))
  {
    hide ReadIds, PublicId;
    LowerCaseName("n");
    assert ">"[..1] == ">";
    PublicReads("\"", [], ">");
    assert '"' == "\""[0];
  }
}
