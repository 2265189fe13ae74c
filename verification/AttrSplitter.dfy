/** xml_elem_start: two arrays are filled in place, and an entry is set to NULL when an attribute claims it. */
module AttrSplitter {
  import opened Bytes
  import opened Document
  import opened AttrRebuild

  /** Namespaces in an array: a prefix, or NULL once it is claimed, and then the URI. */
  ghost predicate HoldsEntries(s: seq<Option<Str>>, es: seq<Entry>) {
    && 2 * |es| <= |s|
    && forall k | 0 <= k < |es| :: HoldsEntry(s, es, k)
  }

  ghost predicate HoldsEntry(s: seq<Option<Str>>, es: seq<Entry>, k: nat)
    requires k < |es| && 2 * |es| <= |s|
  {
    s[2 * k] == (if es[k].claimed then None else Some(es[k].prefix)) && s[2 * k + 1] == Some(es[k].uri)
  }

  /** Attributes in an array: a name, and then the value. */
  ghost predicate HoldsAtts(s: seq<Option<Str>>, atts: seq<Att>) {
    && 2 * |atts| <= |s|
    && forall k | 0 <= k < |atts| :: s[2 * k] == Some(atts[k].name) && s[2 * k + 1] == Some(atts[k].value)
  }

  lemma EntryAdded(s: seq<Option<Str>>, es: seq<Entry>, p: Str, u: Str)
    requires HoldsEntries(s, es) && 2 * |es| + 2 <= |s|
    ensures HoldsEntries(s[2 * |es| := Some(p)][2 * |es| + 1 := Some(u)], es + [Entry(p, u, false)])
  {
    var s', es' := s[2 * |es| := Some(p)][2 * |es| + 1 := Some(u)], es + [Entry(p, u, false)];
    forall k | 0 <= k < |es'| ensures HoldsEntry(s', es', k) {
      if k < |es| {
        assert HoldsEntry(s, es, k);
      }
    }
  }

  lemma AttAdded(s: seq<Option<Str>>, atts: seq<Att>, a: Att)
    requires HoldsAtts(s, atts) && 2 * |atts| + 2 <= |s|
    ensures HoldsAtts(s[2 * |atts| := Some(a.name)][2 * |atts| + 1 := Some(a.value)], atts + [a])
  {
  }

  lemma EntryClaimed(s: seq<Option<Str>>, es: seq<Entry>, k: nat)
    requires HoldsEntries(s, es) && k < |es|
    ensures HoldsEntries(s[2 * k := None], es[k := es[k].(claimed := true)])
  {
    var s', es' := s[2 * k := None], es[k := es[k].(claimed := true)];
    forall i | 0 <= i < |es'| ensures HoldsEntry(s', es', i) {
      assert HoldsEntry(s, es, i);
    }
  }

  method Append(a: array<Option<Str>>, len: nat, x: Str, y: Str)
    requires len + 2 <= a.Length
    modifies a
    ensures a[..] == old(a[..])[len := Some(x)][len + 1 := Some(y)]
  {
    a[len] := Some(x);
    a[len + 1] := Some(y);
  }

  /** strchr and what is done with its result. */
  method SplitName(name: Str) returns (prefix: Option<Str>, local: Str)
    ensures prefix == PrefixOf(name) && local == LocalOf(name)
  {
    var i := 0;
    assert name[0..] == name;
    while i < |name| && name[i] != ':'
      invariant 0 <= i <= |name| && Colon(name) == i + Colon(name[i..])
    {
      assert name[i..][1..] == name[i + 1..];
      i := i + 1;
    }
    if i < |name| {
      prefix, local := Some(name[..i]), name[i + 1..];
    } else {
      prefix, local := None, name;
    }
  }

  class Splitter {
    var ns: array?<Option<Str>>
    var nslen: nat
    var plain: array?<Option<Str>>
    var plainlen: nat

    constructor ()
      ensures ns == null && plain == null
    {
      ns, nslen, plain, plainlen := null, 0, null, 0;
    }

    ghost predicate Ready(n: nat)
      reads this
    {
      ns != null && plain != null && ns != plain && ns.Length > n && plain.Length > n
    }

    /** Room for `n` strings and a NULL in both arrays. */
    method Reserve(n: nat)
      requires ns != null && plain != null ==> ns != plain
      modifies this
      ensures Ready(n) && nslen == 0 && plainlen == 0
      ensures (ns == old(ns) || fresh(ns)) && (plain == old(plain) || fresh(plain))
    {
      if ns == null || n + 1 >= ns.Length {
        ns := new Option<Str>[n + 1](_ => None);
      }
      if plain == null || n + 1 >= plain.Length {
        plain := new Option<Str>[n + 1](_ => None);
      }
      nslen, plainlen := 0, 0;
    }

    ghost predicate Filled(name: Str, atts: seq<Att>)
      reads this, ns, plain
    {
      && ns != null && plain != null && ns != plain
      && nslen == 2 * |Entries(name, atts)| && plainlen == 2 * |Rest(atts)| && nslen + plainlen <= 2 * |atts|
      && HoldsEntries(ns[..], Entries(name, atts)) && HoldsAtts(plain[..], Rest(atts))
    }

    /** One turn of the loop that splits the attributes. */
    method Sort(name: Str, prefix: Option<Str>, done: seq<Att>, a: Att) returns (own: seq<Param>)
      requires Filled(name, done) && Ready(2 * |done| + 2) && prefix == PrefixOf(name)
      modifies this`nslen, this`plainlen, ns, plain
      ensures Filled(name, done + [a])
      ensures OwnUris(name, done + [a]) == OwnUris(name, done) + own
    {
      hide HoldsEntries, HoldsAtts, PrefixOf;
      assert (done + [a])[..|done|] == done;
      assert Entries(name, done) + [] == Entries(name, done) && Rest(done) + [] == Rest(done);
      own := [];
      if |a.name| >= 6 && a.name[..6] == "xmlns:" {
        var p := a.name[6..];
        if prefix == Some(p) {
          own := [Param(UriKey, a.value)];
        } else {
          EntryAdded(ns[..], Entries(name, done), p, a.value);
          Append(ns, nslen, p, a.value);
          nslen := nslen + 2;
        }
      } else {
        AttAdded(plain[..], Rest(done), a);
        Append(plain, plainlen, a.name, a.value);
        plainlen := plainlen + 2;
      }
    }

    /** The loop that looks for a declaration to claim. */
    method ClaimFor(p: Str, ghost es: seq<Entry>) returns (uri: seq<Param>)
      requires ns != null && nslen == 2 * |es| && HoldsEntries(ns[..], es)
      modifies ns
      ensures var k := Claim(es, p);
        && uri == (if k < |es| then [Param(UriKey, es[k].uri)] else [])
        && HoldsEntries(ns[..], if k < |es| then es[k := es[k].(claimed := true)] else es)
    {
      hide HoldsEntries;
      var j := 0;
      assert es[0..] == es;
      while 2 * j < nslen
        invariant 0 <= j <= |es| && ns[..] == old(ns[..]) && Claim(es, p) == j + Claim(es[j..], p)
      {
        EntryAt(ns[..], es, j);
        assert es[j..][1..] == es[j + 1..] && es[j..][0] == es[j];
        if ns[2 * j] == Some(p) {
          uri := [Param(UriKey, ns[2 * j + 1].value)];
          EntryClaimed(ns[..], es, j);
          ns[2 * j] := None;
          return;
        }
        j := j + 1;
      }
      uri := [];
    }

    static lemma EntryAt(s: seq<Option<Str>>, es: seq<Entry>, k: nat)
      requires HoldsEntries(s, es) && k < |es|
      ensures 2 * |es| <= |s| && HoldsEntry(s, es, k)
    {
    }

    /** The command of one attribute. */
    method AttrCommandFor(a: Att, ghost es: seq<Entry>) returns (c: Command)
      requires ns != null && nslen == 2 * |es| && HoldsEntries(ns[..], es)
      modifies ns
      ensures c == AttrCommand(es, a) && HoldsEntries(ns[..], AfterClaim(es, a.name))
    {
      hide HoldsEntries, PrefixOf, Claim;
      var prefix, local := SplitName(a.name);
      var params := [];
      if prefix.Some? {
        params := [Param(PrefixKey, prefix.value)];
        var uri := ClaimFor(prefix.value, es);
        params := params + uri;
      }
      c := Command(AttrKind, local, params, a.value);
    }

    /** The loop over the attributes that are not declarations. */
    method AttrCommands(ghost es: seq<Entry>, ghost atts: seq<Att>) returns (cmds: seq<Command>)
      requires ns != null && plain != null && ns != plain && nslen == 2 * |es| && plainlen == 2 * |atts|
      requires HoldsEntries(ns[..], es) && HoldsAtts(plain[..], atts)
      modifies ns
      ensures cmds == AttrScript(es, atts) && HoldsEntries(ns[..], AfterClaims(es, atts))
    {
      hide HoldsEntries, HoldsAtts, AttrCommand, AfterClaim;
      cmds := [];
      var i := 0;
      ghost var now := es;
      assert atts[0..] == atts;
      while 2 * i < plainlen
        invariant 0 <= i <= |atts| && |now| == |es| && HoldsEntries(ns[..], now) && plain[..] == old(plain[..])
        invariant cmds + AttrScript(now, atts[i..]) == AttrScript(es, atts)
        invariant AfterClaims(now, atts[i..]) == AfterClaims(es, atts)
      {
        AttAt(plain[..], atts, i);
        var a := Att(plain[2 * i].value, plain[2 * i + 1].value);
        var c := AttrCommandFor(a, now);
        assert atts[i..][1..] == atts[i + 1..] && atts[i..][0] == a;
        now := AfterClaim(now, a.name);
        assert cmds + ([c] + AttrScript(now, atts[i + 1..])) == cmds + [c] + AttrScript(now, atts[i + 1..]);
        cmds := cmds + [c];
        i := i + 1;
      }
      assert atts[i..] == [] && cmds + [] == cmds;
    }

    static lemma AttAt(s: seq<Option<Str>>, atts: seq<Att>, k: nat)
      requires HoldsAtts(s, atts) && k < |atts|
      ensures 2 * |atts| <= |s| && s[2 * k] == Some(atts[k].name) && s[2 * k + 1] == Some(atts[k].value)
    {
    }

    /** The loop over the declarations that nobody claimed. */
    method LeftCommands(ghost es: seq<Entry>) returns (cmds: seq<Command>)
      requires ns != null && nslen == 2 * |es| && HoldsEntries(ns[..], es)
      ensures cmds == LeftScript(es)
    {
      hide HoldsEntries;
      cmds := [];
      var i := 0;
      assert es[0..] == es;
      while 2 * i < nslen
        invariant 0 <= i <= |es| && cmds + LeftScript(es[i..]) == LeftScript(es)
      {
        EntryAt(ns[..], es, i);
        assert es[i..][1..] == es[i + 1..] && es[i..][0] == es[i];
        if ns[2 * i].Some? {
          var c := Command(AttrKind, "xmlns:" + ns[2 * i].value, [], ns[2 * i + 1].value);
          assert cmds + ([c] + LeftScript(es[i + 1..])) == cmds + [c] + LeftScript(es[i + 1..]);
          cmds := cmds + [c];
        } else {
          assert [] + LeftScript(es[i + 1..]) == LeftScript(es[i + 1..]);
        }
        i := i + 1;
      }
      assert es[i..] == [] && cmds + [] == cmds;
    }

    /** The loop that splits the attributes, and the parameters of the start command. */
    method Split(name: Str, prefix: Option<Str>, atts: seq<Att>) returns (own: seq<Param>)
      requires prefix == PrefixOf(name) && (ns != null && plain != null ==> ns != plain)
      modifies this, ns, plain
      ensures Filled(name, atts) && Ready(2 * |atts|) && own == OwnUris(name, atts)
      ensures ns[nslen] == None && plain[plainlen] == None
      ensures (ns == old(ns) || fresh(ns)) && (plain == old(plain) || fresh(plain))
    {
      hide HoldsEntries, HoldsAtts, OwnUris, Entries, Rest, PrefixOf;
      Reserve(2 * |atts|);
      NothingYet(name, ns[..], plain[..]);
      own := [];
      var i := 0;
      assert atts[..0] == [];
      while i < |atts|
        invariant 0 <= i <= |atts| && Filled(name, atts[..i]) && Ready(2 * |atts|) && own == OwnUris(name, atts[..i])
        invariant (ns == old(ns) || fresh(ns)) && (plain == old(plain) || fresh(plain))
      {
        var more := Sort(name, prefix, atts[..i], atts[i]);
        assert atts[..i] + [atts[i]] == atts[..i + 1];
        own := own + more;
        i := i + 1;
      }
      assert atts[..i] == atts;
      Terminate(name, atts);
    }

    /** Both lists end with a NULL. */
    method Terminate(name: Str, atts: seq<Att>)
      requires Filled(name, atts) && Ready(2 * |atts|)
      modifies ns, plain
      ensures Filled(name, atts) && Ready(2 * |atts|) && ns[nslen] == None && plain[plainlen] == None
    {
      hide HoldsEntries, HoldsAtts, Entries, Rest;
      BeyondEntries(ns[..], Entries(name, atts));
      BeyondAtts(plain[..], Rest(atts));
      ns[nslen] := None;
      plain[plainlen] := None;
    }

    static lemma BeyondEntries(s: seq<Option<Str>>, es: seq<Entry>)
      requires HoldsEntries(s, es) && 2 * |es| < |s|
      ensures HoldsEntries(s[2 * |es| := None], es)
    {
      var s' := s[2 * |es| := None];
      forall k | 0 <= k < |es| ensures HoldsEntry(s', es, k) {
        assert HoldsEntry(s, es, k);
      }
    }

    static lemma BeyondAtts(s: seq<Option<Str>>, atts: seq<Att>)
      requires HoldsAtts(s, atts) && 2 * |atts| < |s|
      ensures HoldsAtts(s[2 * |atts| := None], atts)
    {
    }

    static lemma NothingYet(name: Str, s: seq<Option<Str>>, t: seq<Option<Str>>)
      ensures Entries(name, []) == [] && Rest([]) == [] && OwnUris(name, []) == []
      ensures HoldsEntries(s, []) && HoldsAtts(t, [])
    {
    }

    /** xml_elem_start: the commands for an element and its attributes. */
    method ElemStart(name: Str, atts: seq<Att>) returns (cmds: seq<Command>)
      requires ns != null && plain != null ==> ns != plain
      modifies this, ns, plain
      ensures cmds == Script(name, atts)
      ensures ns != null && plain != null ==> ns != plain
    {
      hide HoldsEntries, HoldsAtts, OwnUris, Entries, Rest, PrefixOf, AttrScript, LeftScript, AfterClaims;
      var prefix, local := SplitName(name);
      var params := [];
      if prefix.Some? {
        params := [Param(PrefixKey, prefix.value)];
      }
      if atts == [] {
        NoAttributes(name);
        assert params + [] == params;
        return [Command(ElemKind, local, params, [])];
      }
      var own := Split(name, prefix, atts);
      var more := AttrCommands(Entries(name, atts), Rest(atts));
      var left := LeftCommands(AfterClaims(Entries(name, atts), Rest(atts)));
      cmds := [Command(ElemKind, local, params + own, [])] + more + left;
    }

    static lemma NoAttributes(name: Str)
      ensures Script(name, []) == [StartCommand(name, [])] && OwnUris(name, []) == []
    {
      assert [StartCommand(name, [])] + [] + [] == [StartCommand(name, [])];
    }
  }
}
