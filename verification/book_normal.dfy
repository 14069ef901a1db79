/** The files that come back as they were: exactly those that a book which has been read from them
    writes (src/addrbook.c:364-951, 1029-1335). */
module BookNormal {
  import opened Items
  import opened CacheState
  import opened XmlFiles
  import opened BookDoc
  import opened BookParse
  import opened BookResolve
  import opened BookRound
  import opened BookUnique
  import opened BookRecords

  ghost predicate AttribsStripped(s: seq<Attrib>) {
    forall i :: 0 <= i < |s| ==> Strip(s[i].value) == s[i].value
  }

  /** A document with nothing in it that reading would not keep: no uid is used twice, no text has
      white space around it, members are addresses of the persons they are said to be of, and items
      lead to objects of the kinds they are said to be, persons before groups before folders. */
  ghost predicate Normal(d: Doc) {
    && Unique(d) && Strip(d.name) == d.name
    && (forall p {:trigger p in d.persons} | p in d.persons :: AttribsStripped(p.attribs))
    && (forall g {:trigger g in d.groups} | g in d.groups :: MembersKept(d, g.members))
    && (forall f {:trigger f in d.folders} | f in d.folders :: ItemsKept(d, f.items))
  }

  // ---------- records and handles ----------

  function PersonKeys(ps: seq<PersonRec>): (r: seq<Uid>)
    ensures |r| == |ps|
  {
    seq(|ps|, i requires 0 <= i < |ps| => ps[i].uid)
  }

  /** The objects under the uids. */
  function Handles(c: Cache, us: seq<Uid>): (r: seq<Ref>)
    ensures |r| == |us|
  {
    seq(|us|, i requires 0 <= i < |us| => if us[i] in c.hash then c.hash[us[i]] else 0)
  }

  lemma {:induction false} VisitedConcat(c: Cache, a: seq<Uid>, b: seq<Uid>, k: Kind)
    ensures Visited(c, a + b, k) == Visited(c, a, k) + Visited(c, b, k)
  {
    if a == [] {
      assert a + b == b;
    } else {
      assert (a + b)[1..] == a[1..] + b;
      VisitedConcat(c, a[1..], b, k);
    }
  }

  lemma {:induction false} VisitedOf(c: Cache, us: seq<Uid>, j: Kind, k: Kind)
    requires forall u | u in us :: u in c.hash && c.hash[u] in c.heap && Is(c.heap[c.hash[u]], j)
    ensures Visited(c, us, k) == if j == k then Handles(c, us) else []
  {
    if us != [] {
      assert us[0] in us;
      VisitedOf(c, us[1..], j, k);
      assert Handles(c, us) == [c.hash[us[0]]] + Handles(c, us[1..]);
    }
  }

  lemma {:induction false} VisitedNone(c: Cache, us: seq<Uid>, k: Kind)
    requires forall u | u in us :: u in c.hash && c.hash[u] in c.heap && c.heap[c.hash[u]].EMail?
    ensures Visited(c, us, k) == []
  {
    if us != [] {
      assert us[0] in us;
      VisitedNone(c, us[1..], k);
    }
  }

  lemma {:induction false} PersonRecAt(h: map<Ref, Item>, rs: seq<Ref>, i: nat)
    requires (forall r | r in rs :: r in h && h[r].Person?) && i < |rs|
    ensures rs[i] in h && h[rs[i]].Person? && PersonRecs(h, rs)[i] == PersonRecOf(h, rs[i])
    decreases |rs|
  {
    assert rs[i] in rs;
    if i < |rs| - 1 {
      PersonRecAt(h, rs[..|rs| - 1], i);
    }
  }

  lemma {:induction false} GroupRecAt(h: map<Ref, Item>, rs: seq<Ref>, i: nat)
    requires (forall r | r in rs :: r in h && h[r].Group?) && i < |rs|
    ensures rs[i] in h && h[rs[i]].Group? && GroupRecs(h, rs)[i] == GroupRecOf(h, rs[i])
    decreases |rs|
  {
    assert rs[i] in rs;
    if i < |rs| - 1 {
      GroupRecAt(h, rs[..|rs| - 1], i);
    }
  }

  lemma {:induction false} FolderRecAt(h: map<Ref, Item>, rs: seq<Ref>, i: nat)
    requires (forall r | r in rs :: r in h && h[r].Folder?) && i < |rs|
    ensures rs[i] in h && h[rs[i]].Folder? && FolderRecs(h, rs)[i] == FolderRecOf(h, rs[i])
    decreases |rs|
  {
    assert rs[i] in rs;
    if i < |rs| - 1 {
      FolderRecAt(h, rs[..|rs| - 1], i);
    }
  }

  // ---------- a normal document comes back ----------

  lemma InPersonKeys(d: Doc, u: Uid)
    ensures u in PersonKeys(d.persons) <==> OfKind(d, u, PersonKind)
    ensures u in GroupKeys(d.groups) <==> OfKind(d, u, GroupKind)
    ensures u in FolderKeys(d.folders) <==> OfKind(d, u, FolderKind)
  {
    var ps, gs, fs := PersonKeys(d.persons), GroupKeys(d.groups), FolderKeys(d.folders);
    if p :| p in d.persons && p.uid == u {
      var i :| 0 <= i < |d.persons| && d.persons[i] == p;
      assert ps[i] == u;
    }
    if g :| g in d.groups && g.uid == u {
      var i :| 0 <= i < |d.groups| && d.groups[i] == g;
      assert gs[i] == u;
    }
    if f :| f in d.folders && f.uid == u {
      var i :| 0 <= i < |d.folders| && d.folders[i] == f;
      assert fs[i] == u;
    }
  }

  lemma {:induction false} PersonKeysOnce(ps: seq<PersonRec>)
    requires NoDup(PersonsUids(ps))
    ensures NoDup(PersonKeys(ps))
    decreases |ps|
  {
    if ps != [] {
      var n := |ps| - 1;
      NoDupParts(PersonsUids(ps[..n]), PersonUids(ps[n]));
      PersonKeysOnce(ps[..n]);
      assert ps[n].uid !in PersonKeys(ps[..n]) by {
        UidsOfPerson(ps[n], ps[n].uid);
        if ps[n].uid in PersonKeys(ps[..n]) {
          var i :| 0 <= i < n && PersonKeys(ps[..n])[i] == ps[n].uid;
          assert ps[..n][i] in ps[..n];
          InPersonsUids(ps[..n], ps[n].uid);
        }
      }
      NoDupAppend(PersonKeys(ps[..n]), ps[n].uid);
      assert PersonKeys(ps) == PersonKeys(ps[..n]) + [ps[n].uid];
    }
  }

  /** The order of the hash table in which the file would be written as it stood. */
  lemma FileOrder(s: Loading, d: Doc) returns (rest: seq<Uid>)
    requires Got(s, d) && Unique(d)
    ensures forall u | u in rest :: u in s.c.hash && s.c.hash[u] in s.c.heap && s.c.heap[s.c.hash[u]].EMail?
    ensures Traversal(s.c, PersonKeys(d.persons) + GroupKeys(d.groups) + FolderKeys(d.folders) + rest)
  {
    hide Got, OfKind, IsAddress;
    var ps, gs, fs := PersonKeys(d.persons), GroupKeys(d.groups), FolderKeys(d.folders);
    NoDupParts(PersonsUids(d.persons) + gs, fs);
    NoDupParts(PersonsUids(d.persons), gs);
    PersonKeysOnce(d.persons);
    rest := SomeTraversal(s.c.hash, set u | u in s.c.hash && IsAddress(d, u));
    forall u
      ensures u in ps <==> OfKind(d, u, PersonKind)
      ensures u in gs <==> OfKind(d, u, GroupKind)
      ensures u in fs <==> OfKind(d, u, FolderKind)
      ensures u in rest <==> IsAddress(d, u)
      ensures u in ps + gs + fs + rest <==> u in s.c.hash
      ensures u in ps ==> u !in gs
      ensures u in ps + gs ==> u !in fs
      ensures u in ps + gs + fs ==> u !in rest
      ensures u in rest ==> u in s.c.hash && s.c.hash[u] in s.c.heap && s.c.heap[s.c.hash[u]].EMail?
    {
      InPersonKeys(d, u);
      KindLeads(s, d, u);
      assert u in rest <==> u in Elems(rest);
      if u in s.c.hash && !s.c.heap[s.c.hash[u]].EMail? {
        assert Is(s.c.heap[s.c.hash[u]], KindOf(s.c.heap[s.c.hash[u]]));
      }
    }
    NoDupConcat(ps, gs);
    NoDupConcat(ps + gs, fs);
    NoDupConcat(ps + gs + fs, rest);
    var all := ps + gs + fs + rest;
    assert forall u :: u in Elems(all) <==> u in all;
    assert Elems(all) == s.c.hash.Keys;
  }

  lemma KeysLead(s: Loading, d: Doc, order: seq<Uid>, us: seq<Uid>, k: Kind)
    requires Got(s, d) && forall u | u in us :: OfKind(d, u, k)
    ensures var e := Resolved(s, order);
      && e.hash == s.c.hash && (forall u | u in us :: u in e.hash && e.hash[u] in e.heap && Is(e.heap[e.hash[u]], k))
  {
    hide Got, Resolved, OfKind;
    HashLeadsHere(s, d);
    forall u | u in us
      ensures u in s.c.hash && s.c.hash[u] in Resolved(s, order).heap && Is(Resolved(s, order).heap[s.c.hash[u]], k)
    {
      KindLeads(s, d, u);
      ResolvedIs(s, d, order, s.c.hash[u]);
    }
    ResolvedParts(s, order);
  }

  lemma ResolvedParts(s: Loading, order: seq<Uid>)
    ensures Resolved(s, order).hash == s.c.hash && Resolved(s, order).heap.Keys == s.c.heap.Keys
      && Resolved(s, order).root == s.c.root
  {
  }

  lemma PersonsBack(s: Loading, d: Doc, order: seq<Uid>)
    requires Got(s, d) && Normal(d)
    ensures var e := Resolved(s, order); var rs := Handles(e, PersonKeys(d.persons));
      && (forall r | r in rs :: r in e.heap && e.heap[r].Person?) && PersonRecs(e.heap, rs) == d.persons
  {
    hide Got, Resolved, PersonRecs;
    var e := Resolved(s, order);
    var us := PersonKeys(d.persons);
    var rs := Handles(e, us);
    ResolvedParts(s, order);
    forall i | 0 <= i < |rs|
      ensures rs[i] in e.heap && e.heap[rs[i]].Person? && PersonRecOf(e.heap, rs[i]) == d.persons[i]
    {
      assert d.persons[i] in d.persons && us[i] == d.persons[i].uid;
      PersonBack(s, d, order, d.persons[i]);
      StrippedAlready(d.persons[i]);
    }
    forall i | 0 <= i < |rs|
      ensures PersonRecs(e.heap, rs)[i] == d.persons[i]
    {
      PersonRecAt(e.heap, rs, i);
    }
  }

  lemma StrippedAlready(p: PersonRec)
    ensures Stripped(p) == p <==> AttribsStripped(p.attribs)
  {
    hide Strip;
    if Stripped(p) == p {
      forall i | 0 <= i < |p.attribs|
        ensures Strip(p.attribs[i].value) == p.attribs[i].value
      {
        assert StrippedAll(p.attribs)[i] == p.attribs[i];
      }
    }
    if AttribsStripped(p.attribs) {
      assert StrippedAll(p.attribs) == p.attribs;
    }
  }

  lemma GroupsBack(s: Loading, d: Doc, order: seq<Uid>)
    requires Got(s, d) && Normal(d)
    ensures var e := Resolved(s, order); var rs := Handles(e, GroupKeys(d.groups));
      && (forall r | r in rs :: r in e.heap && e.heap[r].Group?) && GroupRecs(e.heap, rs) == d.groups
  {
    hide Got, Resolved, GroupRecs, MembersKept;
    var e := Resolved(s, order);
    var us := GroupKeys(d.groups);
    var rs := Handles(e, us);
    ResolvedParts(s, order);
    forall i | 0 <= i < |rs|
      ensures rs[i] in e.heap && e.heap[rs[i]].Group? && GroupRecOf(e.heap, rs[i]) == d.groups[i]
    {
      assert d.groups[i] in d.groups && us[i] == d.groups[i].uid;
      GroupBack(s, d, order, d.groups[i]);
      MembersBack(s, d, order, d.groups[i].members);
    }
    forall i | 0 <= i < |rs|
      ensures GroupRecs(e.heap, rs)[i] == d.groups[i]
    {
      GroupRecAt(e.heap, rs, i);
    }
  }

  lemma FoldersBack(s: Loading, d: Doc, order: seq<Uid>)
    requires Got(s, d) && Normal(d)
    ensures var e := Resolved(s, order); var rs := Handles(e, FolderKeys(d.folders));
      && (forall r | r in rs :: r in e.heap && e.heap[r].Folder?) && FolderRecs(e.heap, rs) == d.folders
  {
    hide Got, Resolved, FolderRecs, ItemsKept;
    var e := Resolved(s, order);
    var us := FolderKeys(d.folders);
    var rs := Handles(e, us);
    ResolvedParts(s, order);
    GotOneKind(s, d);
    forall i | 0 <= i < |rs|
      ensures rs[i] in e.heap && e.heap[rs[i]].Folder? && FolderRecOf(e.heap, rs[i]) == d.folders[i]
    {
      assert d.folders[i] in d.folders && us[i] == d.folders[i].uid;
      FolderBack(s, d, order, d.folders[i]);
      ItemsBack(d, d.folders[i].items);
    }
    forall i | 0 <= i < |rs|
      ensures FolderRecs(e.heap, rs)[i] == d.folders[i]
    {
      FolderRecAt(e.heap, rs, i);
    }
  }

  ghost predicate AllOf(c: Cache, us: seq<Uid>, k: Kind) {
    forall u | u in us :: u in c.hash && c.hash[u] in c.heap && Is(c.heap[c.hash[u]], k)
  }

  lemma VisitedInOrder(c: Cache, ps: seq<Uid>, gs: seq<Uid>, fs: seq<Uid>, rest: seq<Uid>)
    requires AllOf(c, ps, PersonKind) && AllOf(c, gs, GroupKind) && AllOf(c, fs, FolderKind)
    requires forall u | u in rest :: u in c.hash && c.hash[u] in c.heap && c.heap[c.hash[u]].EMail?
    ensures var o := ps + gs + fs + rest;
      Visited(c, o, PersonKind) == Handles(c, ps) && Visited(c, o, GroupKind) == Handles(c, gs)
        && Visited(c, o, FolderKind) == Handles(c, fs)
  {
    hide Visited, Handles;
    forall k: Kind
      ensures Visited(c, ps + gs + fs + rest, k) ==
        Handles(c, if k == PersonKind then ps else if k == GroupKind then gs else fs)
    {
      VisitedConcat(c, ps + gs + fs, rest, k);
      VisitedConcat(c, ps + gs, fs, k);
      VisitedConcat(c, ps, gs, k);
      VisitedOf(c, ps, PersonKind, k);
      VisitedOf(c, gs, GroupKind, k);
      VisitedOf(c, fs, FolderKind, k);
      VisitedNone(c, rest, k);
      var p, g, f := Visited(c, ps, k), Visited(c, gs, k), Visited(c, fs, k);
      match k
      case PersonKind => assert p + [] + [] + [] == p;
      case GroupKind => assert [] + g + [] + [] == g;
      case FolderKind => assert [] + [] + f + [] == f;
    }
  }

  /** The keys of the records lead, in the resolved book, to objects of their kinds. */
  lemma KeysAreOf(s: Loading, d: Doc, order: seq<Uid>)
    requires Got(s, d)
    ensures var e := Resolved(s, order);
      AllOf(e, PersonKeys(d.persons), PersonKind) && AllOf(e, GroupKeys(d.groups), GroupKind)
        && AllOf(e, FolderKeys(d.folders), FolderKind)
  {
    hide Got, Resolved, OfKind;
    forall u
      ensures u in PersonKeys(d.persons) <==> OfKind(d, u, PersonKind)
      ensures u in GroupKeys(d.groups) <==> OfKind(d, u, GroupKind)
      ensures u in FolderKeys(d.folders) <==> OfKind(d, u, FolderKind)
    {
      InPersonKeys(d, u);
    }
    KeysLead(s, d, order, PersonKeys(d.persons), PersonKind);
    KeysLead(s, d, order, GroupKeys(d.groups), GroupKind);
    KeysLead(s, d, order, FolderKeys(d.folders), FolderKind);
  }

  /** What was read from a normal document writes that very document, in some order of the hash table. */
  lemma NormalComesBack(s: Loading, d: Doc, order: seq<Uid>) returns (o: seq<Uid>)
    requires Got(s, d) && Normal(d)
    ensures Traversal(Resolved(s, order), o) && DocOf(Resolved(s, order), d.name, o) == d
  {
    var rest := FileOrder(s, d);
    hide Got, Resolved, Unique, Traversal, PersonRecs, GroupRecs, FolderRecs, Normal, Visited, AllOf, Handles;
    var e := Resolved(s, order);
    o := PersonKeys(d.persons) + GroupKeys(d.groups) + FolderKeys(d.folders) + rest;
    ResolvedParts(s, order);
    SameTraversal(s.c, e, o);
    KeysAreOf(s, d, order);
    forall u | u in rest
      ensures e.heap[e.hash[u]].EMail?
    {
      ResolvedIs(s, d, order, s.c.hash[u]);
    }
    VisitedInOrder(e, PersonKeys(d.persons), GroupKeys(d.groups), FolderKeys(d.folders), rest);
    PersonsBack(s, d, order);
    GroupsBack(s, d, order);
    FoldersBack(s, d, order);
  }

  lemma SameTraversal(c: Cache, d: Cache, o: seq<Uid>)
    requires d.hash == c.hash
    ensures Traversal(d, o) <==> Traversal(c, o)
  {
  }
}
