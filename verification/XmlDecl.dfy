/** What the XML declaration that a Doc prints says, in terms of the Doc and the settings of the writer. */
module XmlDecl {
  import opened Bytes
  import opened Check
  import opened Escape
  import opened Document
  import opened Trees
  import opened Reader
  import opened DocReads
  import opened RoundTrip
  import opened DeclParser

  // ---------------------------------------------------------------- what is to be declared

  /** The forced version; else that of the writer; else 1.0. */
  predicate VersionSaid(v: Str, d: DocDecl, cfg: Config) {
    && !d.suppressVersion
    && v == EscapeAttr(if d.forcedVersion.Some? then d.forcedVersion.value
                       else if cfg.version != [] then cfg.version else "1.0")
  }

  /** The forced encoding, else that of the writer; an empty one is left out. */
  predicate EncodingSaid(e: Str, d: DocDecl, cfg: Config) {
    && !d.suppressEncoding && (d.forcedEncoding.Some? ==> d.forcedEncoding.value != [])
    && (d.forcedEncoding.None? ==> cfg.encoding != [])
    && e == EscapeAttr(if d.forcedEncoding.Some? then d.forcedEncoding.value else cfg.encoding)
  }

  function Place(name: Str): int {
    if name == "version" then 0 else if name == "encoding" then 1 else if name == "standalone" then 2 else -1
  }

  /** In the order of production [23], and none twice. */
  predicate Ordered(atts: seq<Att>) {
    && (forall i | 0 <= i < |atts| :: Place(atts[i].name) >= 0)
    && (forall i, j | 0 <= i < j < |atts| :: Place(atts[i].name) < Place(atts[j].name))
  }

  /** Exactly what is to be declared, each once and in the order of production [23]. */
  ghost predicate Says(atts: seq<Att>, d: DocDecl, cfg: Config) {
    && Ordered(atts)
    && (forall v: Str :: Att("version", v) in atts <==> VersionSaid(v, d, cfg))
    && (forall e: Str :: Att("encoding", e) in atts <==> EncodingSaid(e, d, cfg))
    && (Att("standalone", "yes") in atts <==> d.standalone == Some(true))
    && (Att("standalone", "no") in atts <==> d.standalone == Some(false))
    && (d.standalone == None ==> forall a | a in atts :: a.name != "standalone")
  }

  // ---------------------------------------------------------------- what is declared

  predicate Named(atts: seq<Att>, name: Str) {
    |atts| <= 1 && forall a | a in atts :: a.name == name
  }

  lemma VersionPart(d: DocDecl, cfg: Config)
    ensures forall v: Str :: Att("version", v) in RawAtts(VersionAtts(d, cfg)) <==> VersionSaid(v, d, cfg)
    ensures |VersionAtts(d, cfg)| <= 1 && Named(RawAtts(VersionAtts(d, cfg)), "version")
  {
    hide EscapeAttr;
    RawOne(VersionAtts(d, cfg));
  }

  lemma EncodingPart(d: DocDecl, cfg: Config)
    ensures forall e: Str :: Att("encoding", e) in RawAtts(EncodingAtts(d, cfg)) <==> EncodingSaid(e, d, cfg)
    ensures |EncodingAtts(d, cfg)| <= 1 && Named(RawAtts(EncodingAtts(d, cfg)), "encoding")
  {
    hide EscapeAttr;
    RawOne(EncodingAtts(d, cfg));
  }

  lemma StandalonePart(d: DocDecl)
    ensures RawAtts(StandaloneAtts(d)) ==
      if d.standalone.None? then [] else [Att("standalone", if d.standalone.value then "yes" else "no")]
    ensures |StandaloneAtts(d)| <= 1
  {
    hide EscapeAttr;
    RawOne(StandaloneAtts(d));
    FastEscaped("yes");
    FastEscaped("no");
  }

  lemma PartsOrdered(v: seq<Att>, e: seq<Att>, a: seq<Att>)
    requires Named(v, "version") && Named(e, "encoding") && Named(a, "standalone")
    ensures Ordered(v + e + a)
  {
    hide Place;
    Places();
    var all := v + e + a;
    forall i | 0 <= i < |all| ensures Place(all[i].name) ==
      if i < |v| then 0 else if i < |v| + |e| then 1 else 2 {
      if i < |v| {
        assert all[i] == v[i] && v[i] in v;
      } else if i < |v| + |e| {
        assert all[i] == e[i - |v|] && e[i - |v|] in e;
      } else {
        assert all[i] == a[i - |v| - |e|] && a[i - |v| - |e|] in a;
      }
    }
  }

  lemma Places()
    ensures Place("version") == 0 && Place("encoding") == 1 && Place("standalone") == 2
  {
  }

  /** Which part an attribute is in is told by its name. */
  lemma PartOf(v: seq<Att>, e: seq<Att>, a: seq<Att>, x: Att)
    requires Named(v, "version") && Named(e, "encoding") && Named(a, "standalone")
    ensures x.name == "version" ==> (x in v + e + a <==> x in v)
    ensures x.name == "encoding" ==> (x in v + e + a <==> x in e)
    ensures x.name == "standalone" ==> (x in v + e + a <==> x in a)
  {
    hide Place;
    Places();
    assert x in v + e + a <==> x in v || x in e || x in a;
  }

  lemma PartsSay(v: seq<Att>, e: seq<Att>, a: seq<Att>, d: DocDecl, cfg: Config)
    requires Named(v, "version") && Named(e, "encoding")
    requires forall s: Str :: Att("version", s) in v <==> VersionSaid(s, d, cfg)
    requires forall s: Str :: Att("encoding", s) in e <==> EncodingSaid(s, d, cfg)
    requires a == if d.standalone.None? then [] else [Att("standalone", if d.standalone.value then "yes" else "no")]
    ensures Says(v + e + a, d, cfg)
  {
    hide VersionSaid, EncodingSaid, Named, Place;
    assert Named(a, "standalone") by { StandaloneNamed(d); }
    PartsOrdered(v, e, a);
    forall s: Str ensures Att("version", s) in v + e + a <==> VersionSaid(s, d, cfg) {
      PartOf(v, e, a, Att("version", s));
    }
    forall s: Str ensures Att("encoding", s) in v + e + a <==> EncodingSaid(s, d, cfg) {
      PartOf(v, e, a, Att("encoding", s));
    }
    forall x | x in v + e + a && x.name == "standalone" ensures x in a {
      PartOf(v, e, a, x);
    }
    PartOf(v, e, a, Att("standalone", "yes"));
    PartOf(v, e, a, Att("standalone", "no"));
    assert "yes"[0] != "no"[0];
  }

  lemma StandaloneNamed(d: DocDecl)
    ensures Named(if d.standalone.None? then [] else [Att("standalone", if d.standalone.value then "yes" else "no")],
                  "standalone")
  {
  }

  lemma DocSays(d: DocDecl, cfg: Config)
    ensures Says(RawAtts(DocAtts(d, cfg)), d, cfg)
  {
    hide VersionSaid, EncodingSaid, Says, Named, EscapeAttr, VersionAtts, EncodingAtts, StandaloneAtts, RawAtts;
    var v, e, a := VersionAtts(d, cfg), EncodingAtts(d, cfg), StandaloneAtts(d);
    VersionPart(d, cfg);
    EncodingPart(d, cfg);
    StandalonePart(d);
    RawOne(v);
    RawOne(e);
    RawOne(a);
    RawConcat(v + e, a);
    RawConcat(v, e);
    PartsSay(RawAtts(v), RawAtts(e), RawAtts(a), d, cfg);
  }

  lemma DocNames(d: DocDecl, cfg: Config)
    ensures NamesOk(DocAtts(d, cfg)) && AllNamed(DocAtts(d, cfg))
  {
    hide ValidName, DocVersion, DocEncoding;
    LowerCaseName("version");
    LowerCaseName("encoding");
    LowerCaseName("standalone");
  }

  /** Starting a Doc prints a declaration that a reader takes, which says what the Doc and the settings of the writer
      ask for; the line end of the writer follows it. */
  lemma DeclarationSays(d: DocDecl, cap: nat, cfg: Config, grow: Growth)
    ensures var o := StartCall(Zip([], Bottom), cap, Doc(d), cfg, grow);
      o.Done? ==>
        var s := ZipBytes(o.zip);
        && HasDecl(s) && ReadDecl(s[5..]).Some? && ReadDecl(s[5..]).value.rest == cfg.newline
        && Says(ReadDecl(s[5..]).value.atts, d, cfg)
  {
    hide Says, DocAtts, RawAtts, AttsBytes, HasDecl, ReadDecl, ValidEncoding, DocEncoding, NamesOk, AllNamed;
    var o := StartCall(Zip([], Bottom), cap, Doc(d), cfg, grow);
    if o.Done? {
      var atts := DocAtts(d, cfg);
      DocSays(d, cfg);
      DocNames(d, cfg);
      DeclReads(atts, DeclSpace(atts), cfg.newline);
      DeclBegins(atts, "?>" + cfg.newline);
      DocStarted(o.zip, atts, cfg.newline);
      DeclPieces(AttsBytes(atts), DeclSpace(atts), cfg.newline);
    }
  }

  lemma DocStarted(z: Zip, atts: seq<Att>, newline: Str)
    requires z.done == [] && z.stack.Push? && z.stack.below.Bottom? && !z.stack.top.entered
    requires z.stack.top.head == HDoc(newline) && z.stack.top.atts == atts
    ensures ZipBytes(z) == "<?xml" + (AttsBytes(atts) + (DeclSpace(atts) + "?>")) + newline
  {
    hide AttsBytes;
    var a, sp := AttsBytes(atts), DeclSpace(atts);
    var f: Str := "<?xml" + a + sp + "?>" + newline + [];
    assert FrameBytes(z.stack.top, true) == f;
    assert StackBytes(z.stack) == [] + f;
    Assoc("<?xml" + a, sp, "?>");
    Assoc("<?xml", a, sp + "?>");
    assert [] + ([] + f) == "<?xml" + a + sp + "?>" + newline;
  }

  /** The parser of the test tools finds the same. */
  lemma ParserSays(d: DocDecl, cfg: Config, rest: Str)
    ensures var body := AttsBytes(DocAtts(d, cfg)) + DeclSpace(DocAtts(d, cfg));
      && OpenBytes(HDoc(cfg.newline), DocAtts(d, cfg)) == "<?xml" + body + "?>" + cfg.newline
      && Attributes(body + "?>" + rest, 0).ok && Says(Attributes(body + "?>" + rest, 0).atts, d, cfg)
  {
    hide Says, DocAtts, RawAtts, AttsBytes, Attributes;
    DocParses(d, cfg, rest);
    DocSays(d, cfg);
  }
}
