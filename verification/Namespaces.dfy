/** The namespace bookkeeping of start tags. */
module Namespaces {
  import opened Bytes
  import opened Check
  import opened Document
  import opened Trees

  /** The name of a namespace declaration. */
  predicate DeclName(name: Str) {
    |name| >= 6 && name[..6] == "xmlns:"
  }

  /** The namespace declarations of a tag, in order. */
  function Decls(atts: seq<Att>): seq<Att> {
    if atts == [] then []
    else Decls(atts[..|atts| - 1]) + (if DeclName(atts[|atts| - 1].name) then [atts[|atts| - 1]] else [])
  }

  function NsAtts(nss: seq<Ns>): seq<Att> {
    if nss == [] then [] else [NsAtt(nss[0])] + NsAtts(nss[1..])
  }

  predicate Distinct(nss: seq<Ns>) {
    nss == [] || (Lookup(nss[1..], nss[0].prefix).None? && Distinct(nss[1..]))
  }

  lemma NsAttDecl(n: Ns)
    ensures DeclName(NsAtt(n).name)
  {
    assert ("xmlns:" + n.prefix)[..6] == "xmlns:";
  }

  lemma {:induction false} DeclsConcat(a: seq<Att>, b: seq<Att>)
    ensures Decls(a + b) == Decls(a) + Decls(b)
  {
    hide DeclName;
    if b == [] {
      assert a + b == a;
    } else {
      var n := |b| - 1;
      DeclsConcat(a, b[..n]);
      assert (a + b)[..|a + b| - 1] == a + b[..n] && (a + b)[|a + b| - 1] == b[n];
    }
  }

  lemma {:induction false} UndeclaredDecls(nss: seq<Ns>)
    ensures Decls(Undeclared(nss)) == Undeclared(nss)
  {
    hide DeclName;
    if nss != [] {
      UndeclaredDecls(nss[1..]);
      var first: seq<Att> := if nss[0].written then [] else [NsAtt(nss[0])];
      NsAttDecl(nss[0]);
      DeclsConcat(first, Undeclared(nss[1..]));
      assert Decls(first) == first by { DeclsOne(NsAtt(nss[0])); }
    }
  }

  lemma DeclsOne(a: Att)
    ensures Decls([a]) == if DeclName(a.name) then [a] else []
    ensures Decls([]) == []
  {
    hide DeclName;
    assert [a][..0] == [];
  }

  /** Appending a namespace with a new prefix. */
  lemma {:induction false} Appended(nss: seq<Ns>, n: Ns)
    requires Distinct(nss) && Lookup(nss, n.prefix).None?
    ensures Distinct(nss + [n])
    ensures forall p :: Lookup(nss + [n], p) == if Lookup(nss, p).Some? then
      Lookup(nss, p) else if p == n.prefix then Some(n) else None
    ensures !n.written ==> Undeclared(nss + [n]) == Undeclared(nss) + [NsAtt(n)]
    ensures NsAtts(nss + [n]) == NsAtts(nss) + [NsAtt(n)]
  {
    if nss == [] {
      assert nss + [n] == [n];
    } else {
      Appended(nss[1..], n);
      assert (nss + [n])[1..] == nss[1..] + [n];
    }
  }

  /** What holds of a start tag while attributes are added to it: the declarations printed and those still
      to be printed are one for each prefix. */
  predicate Accounted(t: Tag) {
    Distinct(t.nss) && Decls(t.atts) + Undeclared(t.nss) == NsAtts(t.nss)
  }

  lemma FirstAccounted(e: Elem)
    ensures Accounted(FirstTag(e))
  {
    if e.prefix != [] && e.uri != [] {
      NsAttDecl(Ns(e.prefix, e.uri, true));
      DeclsOne(NsAtt(Ns(e.prefix, e.uri, true)));
    }
  }

  /** An accepted attribute keeps the account, and every prefix keeps the URI it came with. */
  lemma AddAccounted(t: Tag, a: Attr, enforce: bool)
    requires Accounted(t) && AddAttr(t, a, enforce).Some? && !DeclName(FullName(a.prefix, a.name))
    ensures var t' := AddAttr(t, a, enforce).value;
      && Accounted(t')
      && (a.uri != [] ==> Lookup(t'.nss, a.prefix).Some? && Lookup(t'.nss, a.prefix).value.uri == a.uri)
      && (forall p :: Lookup(t.nss, p).Some? ==> Lookup(t'.nss, p) == Lookup(t.nss, p))
      && (forall p :: Lookup(t'.nss, p).Some? && Lookup(t.nss, p).None? ==>
            a.prefix == p && a.uri == Lookup(t'.nss, p).value.uri)
  {
    hide ValidName, DeclName, FullName;
    var att := Att(FullName(a.prefix, a.name), a.value);
    DeclsConcat(t.atts, [att]);
    DeclsOne(att);
    assert Decls(t.atts) + [] == Decls(t.atts);
    var n := Ns(a.prefix, a.uri, false);
    if a.uri != [] && Lookup(t.nss, a.prefix).None? {
      Appended(t.nss, n);
      assert Decls(t.atts) + (Undeclared(t.nss) + [NsAtt(n)]) == Decls(t.atts) + Undeclared(t.nss) + [NsAtt(n)];
    }
  }

  // ---------------------------------------------------------------- which attributes go together

  predicate SameUri(a: Attr, b: Attr) {
    a.uri != [] && b.uri != [] && a.prefix == b.prefix ==> a.uri == b.uri
  }

  /** No two of the attributes give a prefix different URIs. */
  predicate Agreeing(attrs: seq<Attr>) {
    forall i, j | 0 <= i < j < |attrs| :: SameUri(attrs[i], attrs[j])
  }

  /** The prefix and URI of an element, as an attribute would give them. */
  function Own(e: Elem): seq<Attr> {
    if e.prefix != [] && e.uri != [] then [Attr(e.prefix, e.uri, [], [])] else []
  }

  predicate NamesAccepted(attrs: seq<Attr>, enforce: bool) {
    enforce ==> forall a | a in attrs :: ValidName(FullName(a.prefix, a.name))
  }

  /** The namespaces are those that the attributes gave. */
  ghost predicate Given(nss: seq<Ns>, attrs: seq<Attr>) {
    && (forall a | a in attrs && a.uri != [] :: Lookup(nss, a.prefix).Some? && Lookup(nss, a.prefix).value.uri == a.uri)
    && (forall p :: Lookup(nss, p).Some? ==>
          exists i | 0 <= i < |attrs| :: attrs[i].prefix == p && attrs[i].uri == Lookup(nss, p).value.uri != [])
  }

  lemma {:induction false} LookupAppend(nss: seq<Ns>, n: Ns, p: Str)
    ensures Lookup(nss + [n], p) ==
      if Lookup(nss, p).Some? then Lookup(nss, p) else if n.prefix == p then Some(n) else None
  {
    if nss == [] {
      assert nss + [n] == [n];
    } else {
      assert (nss + [n])[1..] == nss[1..] + [n];
      LookupAppend(nss[1..], n, p);
    }
  }

  /** One more attribute: it goes with the namespaces exactly if it goes with the attributes that gave them. */
  lemma GivenMore(nss: seq<Ns>, attrs: seq<Attr>, a: Attr)
    requires Given(nss, attrs) && Agreeing(attrs)
    ensures AddNs(nss, a).Some? <==> Agreeing(attrs + [a])
    ensures AddNs(nss, a).Some? ==> Given(AddNs(nss, a).value, attrs + [a])
  {
    var all := attrs + [a];
    assert forall b | b in all :: b in attrs || b == a;
    assert forall i | 0 <= i < |attrs| :: all[i] == attrs[i] && attrs[i] in attrs;
    assert all[|attrs|] == a;
    if AddNs(nss, a).Some? {
      var nss' := AddNs(nss, a).value;
      if nss' != nss {
        forall p ensures Lookup(nss', p) == Added(nss, a, p) {
          LookupAppend(nss, Ns(a.prefix, a.uri, false), p);
        }
      }
      GivenStill(nss, nss', attrs, a);
    } else {
      var i :| 0 <= i < |attrs| && attrs[i].prefix == a.prefix && attrs[i].uri == Lookup(nss, a.prefix).value.uri != [];
      assert !SameUri(all[i], all[|attrs|]);
    }
  }

  /** What becomes of a prefix. */
  function Added(nss: seq<Ns>, a: Attr, p: Str): Option<Ns> {
    if Lookup(nss, p).Some? then Lookup(nss, p)
    else if a.uri != [] && a.prefix == p then Some(Ns(a.prefix, a.uri, false)) else None
  }

  lemma GivenStill(nss: seq<Ns>, nss': seq<Ns>, attrs: seq<Attr>, a: Attr)
    requires Given(nss, attrs) && Agreeing(attrs)
    requires forall p :: Lookup(nss', p) == Added(nss, a, p)
    requires a.uri != [] && Lookup(nss, a.prefix).Some? ==> Lookup(nss, a.prefix).value.uri == a.uri
    ensures Given(nss', attrs + [a]) && Agreeing(attrs + [a])
  {
    var all := attrs + [a];
    assert forall b | b in all :: b in attrs || b == a;
    assert forall i | 0 <= i < |attrs| :: all[i] == attrs[i] && attrs[i] in attrs;
    assert all[|attrs|] == a;
    forall p | Lookup(nss', p).Some?
      ensures exists i | 0 <= i < |all| :: all[i].prefix == p && all[i].uri == Lookup(nss', p).value.uri != []
    {
      if Lookup(nss, p).Some? {
        var i :| 0 <= i < |attrs| && attrs[i].prefix == p && attrs[i].uri == Lookup(nss, p).value.uri != [];
        assert all[i].prefix == p;
      } else {
        assert all[|attrs|].prefix == p;
      }
    }
  }

  lemma {:induction false} AddAllIff(t: Tag, before: seq<Attr>, attrs: seq<Attr>, enforce: bool)
    requires Given(t.nss, before) && Agreeing(before)
    ensures AddAttrs(t, attrs, enforce).Some? <==> NamesAccepted(attrs, enforce) && Agreeing(before + attrs)
    ensures AddAttrs(t, attrs, enforce).Some? ==> Given(AddAttrs(t, attrs, enforce).value.nss, before + attrs)
    decreases attrs
  {
    hide ValidName, FullName, AddNs, Given, SameUri;
    if attrs == [] {
      assert before + attrs == before;
    } else {
      var a := attrs[0];
      assert before + attrs == before + [a] + attrs[1..];
      assert a in attrs && forall b | b in attrs :: b == a || b in attrs[1..];
      GivenMore(t.nss, before, a);
      AgreeingPart(before + [a], attrs[1..]);
      if AddAttr(t, a, enforce).Some? {
        AddAllIff(AddAttr(t, a, enforce).value, before + [a], attrs[1..], enforce);
      }
    }
  }

  lemma AgreeingPart(a: seq<Attr>, b: seq<Attr>)
    ensures Agreeing(a + b) ==> Agreeing(a)
  {
    hide SameUri;
    if Agreeing(a + b) {
      forall i, j | 0 <= i < j < |a| ensures SameUri(a[i], a[j]) {
        assert SameUri((a + b)[i], (a + b)[j]);
      }
    }
  }

  lemma OwnGiven(e: Elem)
    ensures Given(FirstTag(e).nss, Own(e)) && Agreeing(Own(e))
  {
    var nss := FirstTag(e).nss;
    if nss != [] {
      assert nss[1..] == [];
      assert Own(e)[0].prefix == e.prefix;
    }
  }

  /** An element is accepted with its attributes if and only if the names are, and no two of them, the element
      included, give a prefix different URIs. */
  lemma TagAcceptedIff(e: Elem, enforce: bool)
    ensures ElemTag(e, enforce).Some? <==>
      (enforce ==> ElemNameOk(e)) && NamesAccepted(e.attrs, enforce) && Agreeing(Own(e) + e.attrs)
  {
    hide ElemNameOk, NamesAccepted, Agreeing, FirstTag, AddAttrs, Given, Own;
    OwnGiven(e);
    AddAllIff(FirstTag(e), Own(e), e.attrs, enforce);
  }

  /** The same for one more attribute call after `before`: when it does not go with what came before, it is refused
      and changes nothing. */
  lemma AttrAcceptedIff(z: Zip, cap: nat, e: Elem, before: seq<Attr>, a: Attr, cfg: Config)
    requires AddAttrs(FirstTag(e), before, cfg.enforce).Some? && z.stack.Push?
    requires z.stack.top == Fresh(ElemStart(e), cfg.newline, AddAttrs(FirstTag(e), before, cfg.enforce).value)
    ensures AttrCall(z, cap, a, cfg).Done? <==> NamesAccepted([a], cfg.enforce) && Agreeing(Own(e) + before + [a])
    ensures !Agreeing(Own(e) + before + [a]) ==> AttrCall(z, cap, a, cfg) == Refused
  {
    hide ValidName, FullName, AddNs, Given, Agreeing, FirstTag, AddAttrs, Own;
    OwnGiven(e);
    AddAllIff(FirstTag(e), Own(e), before, cfg.enforce);
    GivenMore(AddAttrs(FirstTag(e), before, cfg.enforce).value.nss, Own(e) + before, a);
    assert [a][0] == a && forall b | b in [a] :: b == a;
  }

  lemma {:induction false} AddAllAccounted(t: Tag, attrs: seq<Attr>, enforce: bool)
    requires Accounted(t) && AddAttrs(t, attrs, enforce).Some?
    requires forall a | a in attrs :: !DeclName(FullName(a.prefix, a.name))
    ensures var t' := AddAttrs(t, attrs, enforce).value;
      && Accounted(t')
      && (forall a | a in attrs && a.uri != [] ::
            Lookup(t'.nss, a.prefix).Some? && Lookup(t'.nss, a.prefix).value.uri == a.uri)
      && (forall p :: Lookup(t.nss, p).Some? ==> Lookup(t'.nss, p) == Lookup(t.nss, p))
      && (forall p :: Lookup(t'.nss, p).Some? && Lookup(t.nss, p).None? ==>
            exists a | a in attrs :: a.prefix == p && a.uri == Lookup(t'.nss, p).value.uri)
    decreases attrs
  {
    hide AddAttr, Accounted, DeclName, FullName;
    if attrs != [] {
      assert attrs[0] in attrs;
      var t1 := AddAttr(t, attrs[0], enforce).value;
      AddAccounted(t, attrs[0], enforce);
      AddAllAccounted(t1, attrs[1..], enforce);
    }
  }

  /** When an element's tag is closed, its namespace declarations are exactly one for each prefix that came
      with a URI, and that URI; a prefix keeps the URI it came with first. */
  lemma DeclaredOnce(e: Elem, enforce: bool)
    requires ElemTag(e, enforce).Some?
    requires forall a | a in e.attrs :: !DeclName(FullName(a.prefix, a.name))
    ensures var t := ElemTag(e, enforce).value;
      && Distinct(t.nss) && Decls(t.atts + Undeclared(t.nss)) == NsAtts(t.nss)
      && (e.prefix != [] && e.uri != [] ==> Lookup(t.nss, e.prefix).Some? && Lookup(t.nss, e.prefix).value.uri == e.uri)
      && (forall a | a in e.attrs && a.uri != [] ::
            Lookup(t.nss, a.prefix).Some? && Lookup(t.nss, a.prefix).value.uri == a.uri)
      && (forall p :: Lookup(t.nss, p).Some? ==>
            (p == e.prefix && Lookup(t.nss, p).value.uri == e.uri) ||
            (exists a | a in e.attrs :: a.prefix == p && a.uri == Lookup(t.nss, p).value.uri))
  {
    hide DeclName, FullName, ElemNameOk, Accounted, AddAttrs;
    var t := ElemTag(e, enforce).value;
    FirstAccounted(e);
    FirstLookup(e);
    AddAllAccounted(FirstTag(e), e.attrs, enforce);
    AccountedClosed(t);
  }

  lemma AccountedClosed(t: Tag)
    requires Accounted(t)
    ensures Distinct(t.nss) && Decls(t.atts + Undeclared(t.nss)) == NsAtts(t.nss)
  {
    UndeclaredDecls(t.nss);
    DeclsConcat(t.atts, Undeclared(t.nss));
  }

  lemma FirstLookup(e: Elem)
    ensures forall p :: Lookup(FirstTag(e).nss, p).Some? ==>
      p == e.prefix && Lookup(FirstTag(e).nss, p).value.uri == e.uri
    ensures e.prefix != [] && e.uri != [] ==> Lookup(FirstTag(e).nss, e.prefix).Some?
  {
    assert [Ns(e.prefix, e.uri, true)][1..] == [];
  }
}
