/** What is written in which no two objects share a uid: the documents that a book that has been read,
    or one in agreement, can write (src/addrbook.c:364-783, 1029-1335). */
module BookTidy {
  import opened Items
  import opened CacheState
  import opened CacheEdit
  import opened XmlFiles
  import opened BookDoc
  import opened BookParse
  import opened BookResolve
  import opened BookRound
  import opened BookSame
  import opened BookUnique
  import opened BookRecords
  import opened BookNormal

  // ---------- uids that tell objects apart ----------

  /** No two objects of `all` have the same uid. */
  ghost predicate Tells(h: map<Ref, Item>, all: set<Ref>) {
    all <= h.Keys && forall x, y {:trigger h[x], h[y]} | x in all && y in all && h[x].uid == h[y].uid :: x == y
  }

  /** A person of `all` with its emails. */
  ghost predicate PersonIn(h: map<Ref, Item>, all: set<Ref>, p: Ref) {
    && p in all && p in h && h[p].Person? && NoDup(h[p].emails)
    && forall e {:trigger e in h[p].emails} | e in h[p].emails :: e in all && e in h && h[e].EMail?
                                                                  && h[e].parent == Some(p)
  }

  /** The uid is that of the person or of one of its emails. */
  ghost predicate Owns(h: map<Ref, Item>, all: set<Ref>, p: Ref, u: Uid) {
    exists x :: x in all && x in h && h[x].uid == u && (x == p || (h[x].EMail? && h[x].parent == Some(p)))
  }

  lemma OwnsOnce(h: map<Ref, Item>, all: set<Ref>, p: Ref, q: Ref, u: Uid)
    requires Tells(h, all) && PersonIn(h, all, p) && PersonIn(h, all, q) && Owns(h, all, p, u) && Owns(h, all, q, u)
    ensures p == q
  {
    var x :| x in all && x in h && h[x].uid == u && (x == p || (h[x].EMail? && h[x].parent == Some(p)));
    var y :| y in all && y in h && h[y].uid == u && (y == q || (h[y].EMail? && h[y].parent == Some(q)));
    assert x == y;
  }

  lemma RecUids(h: map<Ref, Item>, all: set<Ref>, p: Ref)
    requires Tells(h, all) && PersonIn(h, all, p)
    ensures NoDup(PersonUids(PersonRecOf(h, p)))
    ensures forall u | u in PersonUids(PersonRecOf(h, p)) :: Owns(h, all, p, u)
  {
    var us := PersonUids(PersonRecOf(h, p));
    var es := h[p].emails;
    var xs := [p] + es;
    forall i | 0 <= i < |us|
      ensures xs[i] in all && xs[i] in h && us[i] == h[xs[i]].uid
      ensures xs[i] == p || (h[xs[i]].EMail? && h[xs[i]].parent == Some(p))
      ensures i > 0 ==> xs[i] == es[i - 1] && xs[i] != p
    {
      assert i > 0 ==> es[i - 1] in es;
    }
    forall i, j | 0 <= i < j < |us|
      ensures us[i] != us[j]
    {
      assert xs[i] != xs[j];
    }
  }

  lemma {:induction false} PersonsUidsApart(h: map<Ref, Item>, all: set<Ref>, ps: seq<Ref>)
    requires Tells(h, all) && NoDup(ps) && forall p | p in ps :: PersonIn(h, all, p)
    ensures (forall p | p in ps :: p in h && h[p].Person?) && NoDup(PersonsUids(PersonRecs(h, ps)))
    ensures forall u | u in PersonsUids(PersonRecs(h, ps)) :: exists p :: p in ps && Owns(h, all, p, u)
    decreases |ps|
  {
    assert forall p | p in ps :: PersonIn(h, all, p) ==> p in h && h[p].Person?;
    hide Tells, PersonIn, Owns, PersonRecOf;
    if ps != [] {
      var n := |ps| - 1;
      assert ps[n] in ps && forall p | p in ps[..n] :: p in ps;
      PersonsUidsApart(h, all, ps[..n]);
      RecUids(h, all, ps[n]);
      assert ps[n] !in ps[..n];
      var recs := PersonRecs(h, ps);
      assert recs[..n] == PersonRecs(h, ps[..n]) && recs[n] == PersonRecOf(h, ps[n]);
      var a, b := PersonsUids(recs[..n]), PersonUids(recs[n]);
      forall u | u in a
        ensures u !in b
      {
        var p :| p in ps[..n] && Owns(h, all, p, u);
        if u in b {
          OwnsOnce(h, all, p, ps[n], u);
        }
      }
      NoDupConcat(a, b);
    }
  }

  lemma GroupKeysApart(h: map<Ref, Item>, all: set<Ref>, rs: seq<Ref>)
    requires Tells(h, all) && NoDup(rs) && forall r | r in rs :: r in all && r in h && h[r].Group?
    ensures NoDup(GroupKeys(GroupRecs(h, rs)))
    ensures forall u | u in GroupKeys(GroupRecs(h, rs)) :: exists x :: x in all && x in h && h[x].uid == u
                                                                       && h[x].Group?
  {
    var us := GroupKeys(GroupRecs(h, rs));
    forall i | 0 <= i < |us|
      ensures rs[i] in rs && us[i] == h[rs[i]].uid
    {
      GroupRecAt(h, rs, i);
    }
  }

  lemma FolderKeysApart(h: map<Ref, Item>, all: set<Ref>, rs: seq<Ref>)
    requires Tells(h, all) && NoDup(rs) && forall r | r in rs :: r in all && r in h && h[r].Folder?
    ensures NoDup(FolderKeys(FolderRecs(h, rs)))
    ensures forall u | u in FolderKeys(FolderRecs(h, rs)) :: exists x :: x in all && x in h && h[x].uid == u
                                                                         && h[x].Folder?
  {
    var us := FolderKeys(FolderRecs(h, rs));
    forall i | 0 <= i < |us|
      ensures rs[i] in rs && us[i] == h[rs[i]].uid
    {
      FolderRecAt(h, rs, i);
    }
  }

  lemma KeysApart(h: map<Ref, Item>, all: set<Ref>, ps: seq<Ref>, gs: seq<Ref>, fs: seq<Ref>)
    requires Tells(h, all) && NoDup(ps) && NoDup(gs) && NoDup(fs) && (forall p | p in ps :: PersonIn(h, all, p))
    requires (forall g | g in gs :: g in all && g in h && h[g].Group?) && forall f | f in fs :: f in all && f in h
                                                                                                && h[f].Folder?
    ensures forall p | p in ps :: p in h && h[p].Person?
    ensures NoDup(PersonsUids(PersonRecs(h, ps)) + GroupKeys(GroupRecs(h, gs)) + FolderKeys(FolderRecs(h, fs)))
  {
    hide PersonRecs, GroupRecs, FolderRecs, PersonsUids, GroupKeys, FolderKeys;
    PersonsUidsApart(h, all, ps);
    GroupKeysApart(h, all, gs);
    FolderKeysApart(h, all, fs);
    var a, b, d := PersonsUids(PersonRecs(h, ps)), GroupKeys(GroupRecs(h, gs)), FolderKeys(FolderRecs(h, fs));
    forall u
      ensures u in a ==> u !in b
      ensures u in a + b ==> u !in d
    {
      if u in a {
        var p :| p in ps && Owns(h, all, p, u);
        assert PersonIn(h, all, p);
        var x :| x in all && x in h && h[x].uid == u && (x == p || (h[x].EMail? && h[x].parent == Some(p)));
      }
    }
    NoDupConcat(a, b);
    NoDupConcat(a + b, d);
  }

  /** Hashed objects and their emails are written under different uids. */
  lemma WrittenUnique(c: Cache, all: set<Ref>, name: string, o: seq<Uid>)
    requires Tells(c.heap, all) && Traversal(c, o)
      && (forall u | u in c.hash :: c.hash[u] in c.heap && c.heap[c.hash[u]].uid == u)
    requires forall u | u in c.hash && !c.heap[c.hash[u]].EMail? :: c.hash[u] in all
    requires forall u | u in c.hash && c.heap[c.hash[u]].Person? :: PersonIn(c.heap, all, c.hash[u])
    ensures Unique(DocOf(c, name, o))
  {
    hide Tells, PersonIn, Visited, Traversal, PersonRecs, GroupRecs, FolderRecs, PersonsUids, GroupKeys, FolderKeys;
    VisitedHere(c, o, PersonKind);
    VisitedHere(c, o, GroupKind);
    VisitedHere(c, o, FolderKind);
    KeysApart(c.heap, all, Visited(c, o, PersonKind), Visited(c, o, GroupKind), Visited(c, o, FolderKind));
  }

  lemma VisitedHere(c: Cache, o: seq<Uid>, k: Kind)
    requires Traversal(c, o) && (forall u | u in c.hash :: c.hash[u] in c.heap && c.heap[c.hash[u]].uid == u)
    ensures NoDup(Visited(c, o, k))
    ensures forall r :: r in Visited(c, o, k) <==> r in c.heap && Is(c.heap[r], k) && c.heap[r].uid in c.hash
                                                   && c.hash[c.heap[r].uid] == r
  {
    InVisited(c, o, k, 0);
    forall r
      ensures r in Visited(c, o, k) <==> r in c.heap && Is(c.heap[r], k) && c.heap[r].uid in c.hash
                                         && c.hash[c.heap[r].uid] == r
    {
      InVisited(c, o, k, r);
    }
  }

  /** A record in the document is that of an object visited. */
  lemma PersonRecIs(c: Cache, name: string, o: seq<Uid>, p: PersonRec) returns (r: Ref)
    requires p in DocOf(c, name, o).persons
    ensures r in Visited(c, o, PersonKind) && IsPerson(c, r) && p == PersonRecOf(c.heap, r)
  {
    VisitedAre(c, o, PersonKind);
    var rs := Visited(c, o, PersonKind);
    var i :| 0 <= i < |rs| && PersonRecs(c.heap, rs)[i] == p;
    PersonRecAt(c.heap, rs, i);
    r := rs[i];
  }

  lemma GroupRecIs(c: Cache, name: string, o: seq<Uid>, g: GroupRec) returns (r: Ref)
    requires g in DocOf(c, name, o).groups
    ensures r in Visited(c, o, GroupKind) && IsGroup(c, r) && g == GroupRecOf(c.heap, r)
  {
    VisitedAre(c, o, GroupKind);
    var rs := Visited(c, o, GroupKind);
    var i :| 0 <= i < |rs| && GroupRecs(c.heap, rs)[i] == g;
    GroupRecAt(c.heap, rs, i);
    r := rs[i];
  }

  lemma FolderRecIs(c: Cache, name: string, o: seq<Uid>, f: FolderRec) returns (r: Ref)
    requires f in DocOf(c, name, o).folders
    ensures r in Visited(c, o, FolderKind) && IsFolder(c, r) && f == FolderRecOf(c.heap, r)
  {
    VisitedAre(c, o, FolderKind);
    var rs := Visited(c, o, FolderKind);
    var i :| 0 <= i < |rs| && FolderRecs(c.heap, rs)[i] == f;
    FolderRecAt(c.heap, rs, i);
    r := rs[i];
  }

  // ---------- what any file leaves tidy ----------

  /** A person that has been loaded holds each of its emails once, and each is hashed; its attributes'
      text is stripped. */
  ghost predicate TidyPerson(s: Loading, p: Ref)
    requires IsPerson(s.c, p)
  {
    && NoDup(s.c.heap[p].emails) && AttribsStripped(s.c.heap[p].attribs)
    && forall e {:trigger e in s.c.heap[p].emails} | e in s.c.heap[p].emails ::
         e in s.c.heap && s.c.heap[e].EMail? && s.c.heap[e].parent == Some(p)
         && s.c.heap[e].uid in s.c.hash && s.c.hash[s.c.heap[e].uid] == e
  }

  ghost predicate Tidy(s: Loading) {
    && (forall z {:trigger z in s.c.heap} | z in s.c.heap :: z < s.c.top)
    && forall p {:trigger IsPerson(s.c, p)} | IsPerson(s.c, p) :: TidyPerson(s, p)
  }

  /** Where a person and its emails stay as they are, it stays tidy. */
  lemma TidyKept(s: Loading, t: Loading, p: Ref)
    requires IsPerson(s.c, p) && TidyPerson(s, p) && IsPerson(t.c, p) && t.c.heap[p] == s.c.heap[p]
    requires forall e | e in s.c.heap[p].emails :: e in t.c.heap && t.c.heap[e] == s.c.heap[e]
    requires forall u | u in s.c.hash :: u in t.c.hash && t.c.hash[u] == s.c.hash[u]
    ensures TidyPerson(t, p)
  {
  }

  lemma NewObjectTidy(s: Loading, i: Item)
    requires Tidy(s) && (i.Person? ==> i.emails == [] && i.attribs == [])
    ensures Tidy(NewObject(s, i))
  {
    var t := NewObject(s, i);
    forall p | IsPerson(t.c, p)
      ensures TidyPerson(t, p)
    {
      if p != s.c.top {
        assert IsPerson(s.c, p);
        TidyKept(s, t, p);
      }
    }
  }

  lemma HashAddTidy(s: Loading, t: Loading)
    requires Tidy(s) && t.c.heap == s.c.heap && t.c.top == s.c.top
    requires forall u | u in s.c.hash :: u in t.c.hash && t.c.hash[u] == s.c.hash[u]
    ensures Tidy(t)
  {
    forall p | IsPerson(t.c, p)
      ensures TidyPerson(t, p)
    {
      assert IsPerson(s.c, p);
      TidyKept(s, t, p);
    }
  }

  lemma AddParsedTidy(s: Loading, p: Ref, e: Item)
    requires Tidy(s) && e.EMail?
    ensures Tidy(s.(c := AddParsed(s.c, p, e)))
  {
    var t := s.(c := AddParsed(s.c, p, e));
    var m := s.(c := MakeEmail(s.c, e));
    forall q | IsPerson(t.c, q)
      ensures TidyPerson(t, q)
    {
      assert q != s.c.top && IsPerson(s.c, q);
      assert TidyPerson(s, q);
      if q == p && t != m {
        NoDupAppend(s.c.heap[p].emails, s.c.top);
        assert t.c.heap[p].emails == s.c.heap[p].emails + [s.c.top];
      } else {
        TidyKept(s, t, q);
      }
    }
  }

  lemma AttributeTidy(s: Loading, p: Ref, a: Attrib)
    requires Tidy(s) && IsPerson(s.c, p) && Strip(a.value) == a.value
    ensures Tidy(s.(c := s.c.(heap := s.c.heap[p := s.c.heap[p].(attribs := s.c.heap[p].attribs + [a])])))
  {
    var t := s.(c := s.c.(heap := s.c.heap[p := s.c.heap[p].(attribs := s.c.heap[p].attribs + [a])]));
    hide Strip;
    forall q | IsPerson(t.c, q)
      ensures TidyPerson(t, q)
    {
      assert IsPerson(s.c, q) && TidyPerson(s, q);
    }
  }

  lemma JoinTidy(s: Loading, g: Ref, e: Ref)
    requires Tidy(s) && IsGroup(s.c, g)
    ensures Tidy(s.(c := Join(s.c, g, e)))
  {
    var t := s.(c := Join(s.c, g, e));
    forall q | IsPerson(t.c, q)
      ensures TidyPerson(t, q)
    {
      assert IsPerson(s.c, q) && TidyPerson(s, q);
      TidyKept(s, t, q);
    }
  }

  lemma ParseElementTidy(k: ListKind, tag: Tag, text: string, s: Loading)
    requires Tidy(s)
    ensures Tidy(ParseElement(k, tag, text, s))
  {
    hide Value, Strip, Tidy;
    var a := tag.attr;
    match k
    case Addresses(p) =>
      if p.Some? && a != [] {
        AddParsedTidy(s, p.value,
          EMail(Value(a, "uid"), Value(a, "alias"), None, Value(a, "email"), Value(a, "remarks")));
      }
    case Attributes(p) =>
      if p.Some? && IsPerson(s.c, p.value) {
        StripTwice(text);
        AttributeTidy(s, p.value, Attrib(Value(a, "uid"), Value(a, "name"), Strip(text)));
      }
    case Members(g) =>
      var e := Lookup(s.c, Value(a, "eid"));
      if g.Some? && e.Some? && IsGroup(s.c, g.value) {
        JoinTidy(s, g.value, e.value);
      }
    case ItemList(f) =>
      HashAddHere(s, ParseElement(k, tag, text, s));
  }

  lemma HashAddHere(s: Loading, t: Loading)
    requires Tidy(s) && t.c == s.c
    ensures Tidy(t)
  {
    HashAddTidy(s, t);
  }

  lemma {:induction false} LoadElemsTidy(k: ListKind, es: seq<Elem>, s: Loading)
    requires Tidy(s)
    ensures Tidy(LoadElems(k, es, s))
    decreases |es|
  {
    hide Tidy, ParseElement;
    if es != [] {
      ParseElementTidy(k, es[0].tag, ElemText(es[0]), s);
      LoadElemsTidy(k, es[1..], ParseElement(k, es[0].tag, ElemText(es[0]), s));
    }
  }

  lemma MadeTidy(tag: Tag, s: Loading)
    requires Tidy(s)
    ensures Tidy(WithMade(tag, s))
  {
    hide Value, Tidy;
    if Made(tag).Some? {
      NewObjectTidy(s, Made(tag).value);
    }
  }

  lemma HashedTidy(o: Option<Ref>, s: Loading)
    requires Tidy(s)
    ensures Tidy(Hashed(o, s)) && Tidy(Queued(o, s))
  {
    HashAddTidy(s, Hashed(o, s));
    HashAddTidy(s, Queued(o, s));
  }

  lemma LoadRecordTidy(s: Loading, p: PersonRec, g: GroupRec, f: FolderRec)
    requires Tidy(s)
    ensures Tidy(LoadPerson(s, p)) && Tidy(LoadGroup(s, g)) && Tidy(LoadFolder(s, f))
  {
    hide Tidy, WithMade, Hashed, Queued, LoadElems;
    var r := Some(s.c.top);
    MadeTidy(PersonTag(p), s);
    var s1 := WithMade(PersonTag(p), s);
    LoadElemsTidy(Addresses(r), AddressElems(p.emails), s1);
    var s2 := LoadElems(Addresses(r), AddressElems(p.emails), s1);
    HashedTidy(r, s2);
    LoadElemsTidy(Attributes(r), AttributeElems(p.attribs), Hashed(r, s2));
    MadeTidy(GroupTag(g), s);
    HashedTidy(r, WithMade(GroupTag(g), s));
    LoadElemsTidy(Members(r), MemberElems(g.members), Hashed(r, WithMade(GroupTag(g), s)));
    MadeTidy(FolderTag(f), s);
    HashedTidy(r, WithMade(FolderTag(f), s));
    LoadElemsTidy(ItemList(r), ItemElems(f.items), Queued(r, WithMade(FolderTag(f), s)));
  }

  lemma {:induction false} LoadPersonsTidy(s: Loading, ps: seq<PersonRec>)
    requires Tidy(s)
    ensures Tidy(LoadPersons(s, ps))
    decreases |ps|
  {
    hide Tidy, LoadPerson;
    if ps != [] {
      LoadPersonsTidy(s, ps[..|ps| - 1]);
      LoadRecordTidy(LoadPersons(s, ps[..|ps| - 1]), ps[|ps| - 1], GroupRec("", "", "", []), FolderRec("", "", "", []));
    }
  }

  lemma {:induction false} LoadGroupsTidy(s: Loading, gs: seq<GroupRec>)
    requires Tidy(s)
    ensures Tidy(LoadGroups(s, gs))
    decreases |gs|
  {
    hide Tidy, LoadGroup;
    if gs != [] {
      LoadGroupsTidy(s, gs[..|gs| - 1]);
      LoadRecordTidy(LoadGroups(s, gs[..|gs| - 1]), PersonRec("", "", "", "", "", [], []), gs[|gs| - 1],
        FolderRec("", "", "", []));
    }
  }

  lemma {:induction false} LoadFoldersTidy(s: Loading, fs: seq<FolderRec>)
    requires Tidy(s)
    ensures Tidy(LoadFolders(s, fs))
    decreases |fs|
  {
    hide Tidy, LoadFolder;
    if fs != [] {
      LoadFoldersTidy(s, fs[..|fs| - 1]);
      LoadRecordTidy(LoadFolders(s, fs[..|fs| - 1]), PersonRec("", "", "", "", "", [], []), GroupRec("", "", "", []),
        fs[|fs| - 1]);
    }
  }

  /** Whatever the document says, what has been loaded is tidy. */
  lemma LoadDocTidy(root: Ref, nextId: nat, top: Ref, d: Doc)
    requires root < top
    ensures var s := LoadDoc(Cleared(root, nextId, top, true), d); Tidy(s) && LoadOk(s)
  {
    var s := Cleared(root, nextId, top, true);
    assert Tidy(s) && LoadOk(s);
    hide Tidy, LoadPersons, LoadGroups, LoadFolders, LoadOk, ReadTree, DocTokens;
    LoadPersonsTidy(s, d.persons);
    LoadGroupsTidy(LoadPersons(s, d.persons), d.groups);
    LoadFoldersTidy(LoadGroups(LoadPersons(s, d.persons), d.groups), d.folders);
    ReadWritten(d, s);
    assert s.(c := s.c.(dirty := true)) == s;
    ReadTreeOk(true, DocTokens(d), s);
  }

  // ---------- what a book that has been read writes ----------

  lemma ResolvedKeeps(s: Loading, order: seq<Uid>, z: Ref)
    requires z in s.c.heap
    ensures var i, j := s.c.heap[z], Resolved(s, order).heap[z];
      && j.uid == i.uid && (j.EMail? <==> i.EMail?) && (forall k: Kind :: Is(j, k) <==> Is(i, k))
      && (i.EMail? ==> j == i) && (i.Person? ==> j.emails == i.emails && j.attribs == i.attribs)
  {
  }

  /** Objects that are hashed under their uids tell themselves apart by them. */
  ghost function HashedObjects(c: Cache): set<Ref> {
    set z | z in c.heap && c.heap[z].uid in c.hash && c.hash[c.heap[z].uid] == z
  }

  lemma ReadIsUnique(s: Loading, order: seq<Uid>, name: string, o: seq<Uid>)
    requires Tidy(s) && LoadOk(s) && Traversal(Resolved(s, order), o)
    ensures Unique(DocOf(Resolved(s, order), name, o))
  {
    HashLeads(s);
    hide LoadOk, Resolved, DocOf, Unique;
    var e := Resolved(s, order);
    var all := HashedObjects(e);
    ResolvedParts(s, order);
    forall u | u in e.hash
      ensures e.hash[u] in e.heap && e.heap[e.hash[u]].uid == u && e.hash[u] in all
      ensures e.heap[e.hash[u]].Person? ==> PersonIn(e.heap, all, e.hash[u])
    {
      var p := e.hash[u];
      ResolvedKeeps(s, order, p);
      if e.heap[p].Person? {
        assert Is(e.heap[p], PersonKind) && IsPerson(s.c, p);
        TidyIn(s, order, p);
      }
    }
    WrittenUnique(e, all, name, o);
  }

  lemma TidyIn(s: Loading, order: seq<Uid>, p: Ref)
    requires IsPerson(s.c, p) && TidyPerson(s, p) && s.c.heap[p].uid in s.c.hash && s.c.hash[s.c.heap[p].uid] == p
    ensures var e := Resolved(s, order); PersonIn(e.heap, HashedObjects(e), p) && AttribsStripped(e.heap[p].attribs)
  {
    hide Resolved, AttribsStripped;
    ResolvedParts(s, order);
    ResolvedKeeps(s, order, p);
    assert Is(s.c.heap[p], PersonKind);
    forall e | e in s.c.heap[p].emails
      ensures e in Resolved(s, order).heap && Resolved(s, order).heap[e] == s.c.heap[e]
    {
      ResolvedKeeps(s, order, e);
    }
  }

  lemma PersonWritten(s: Loading, order: seq<Uid>, name: string, o: seq<Uid>, p: PersonRec)
    requires Tidy(s) && LoadOk(s) && Traversal(Resolved(s, order), o) && p in DocOf(Resolved(s, order), name, o).persons
    ensures AttribsStripped(p.attribs)
  {
    HashLeads(s);
    hide LoadOk, Resolved, DocOf, Visited;
    var e := Resolved(s, order);
    ResolvedParts(s, order);
    KeyedAfter(s, order);
    VisitedHere(e, o, PersonKind);
    var r := PersonRecIs(e, name, o, p);
    ResolvedKeeps(s, order, r);
    assert Is(e.heap[r], PersonKind) && IsPerson(s.c, r);
    TidyIn(s, order, r);
  }

  lemma GroupWritten(s: Loading, order: seq<Uid>, name: string, o: seq<Uid>, g: GroupRec)
    requires LoadOk(s) && Traversal(Resolved(s, order), o) && Got(s, DocOf(Resolved(s, order), name, o))
    requires g in DocOf(Resolved(s, order), name, o).groups
    ensures MembersKept(DocOf(Resolved(s, order), name, o), g.members)
  {
    HashLeads(s);
    hide LoadOk, Resolved, DocOf, Visited, Got, MembersKept, Joined, MemberRecs;
    var e := Resolved(s, order);
    var d := DocOf(e, name, o);
    ResolvedParts(s, order);
    KeyedAfter(s, order);
    VisitedHere(e, o, GroupKind);
    var r := GroupRecIs(e, name, o, g);
    GroupBack(s, d, order, g);
    MembersBack(s, d, order, g.members);
  }

  lemma FolderWritten(s: Loading, order: seq<Uid>, name: string, o: seq<Uid>, f: FolderRec)
    requires LoadOk(s) && Traversal(Resolved(s, order), o) && Got(s, DocOf(Resolved(s, order), name, o))
    requires f in DocOf(Resolved(s, order), name, o).folders
    ensures ItemsKept(DocOf(Resolved(s, order), name, o), f.items)
  {
    HashLeads(s);
    hide LoadOk, Resolved, DocOf, Visited, Got, ItemsKept, Regrouped, ItemUids;
    var e := Resolved(s, order);
    var d := DocOf(e, name, o);
    ResolvedParts(s, order);
    KeyedAfter(s, order);
    VisitedHere(e, o, FolderKind);
    var r := FolderRecIs(e, name, o, f);
    GotOneKind(s, d);
    FolderBack(s, d, order, f);
    ItemsBack(d, f.items);
  }

  /** If what a book writes is what it was read from, that is a normal document. */
  lemma WrittenIsNormal(s: Loading, order: seq<Uid>, name: string, o: seq<Uid>)
    requires Tidy(s) && LoadOk(s) && Strip(name) == name && Traversal(Resolved(s, order), o)
    requires Unique(DocOf(Resolved(s, order), name, o)) && Got(s, DocOf(Resolved(s, order), name, o))
    ensures Normal(DocOf(Resolved(s, order), name, o))
  {
    hide LoadOk, Tidy, Resolved, DocOf, Unique, Got, Traversal, Strip, AttribsStripped, MembersKept, ItemsKept;
    var d := DocOf(Resolved(s, order), name, o);
    DocName(Resolved(s, order), name, o);
    forall p | p in d.persons
      ensures AttribsStripped(p.attribs)
    {
      PersonWritten(s, order, name, o, p);
    }
    forall g | g in d.groups
      ensures MembersKept(d, g.members)
    {
      GroupWritten(s, order, name, o, g);
    }
    forall f | f in d.folders
      ensures ItemsKept(d, f.items)
    {
      FolderWritten(s, order, name, o, f);
    }
  }

  lemma DocName(c: Cache, name: string, o: seq<Uid>)
    ensures DocOf(c, name, o).name == name
  {
  }

  lemma KeyedAfter(s: Loading, order: seq<Uid>)
    requires forall u | u in s.c.hash :: s.c.hash[u] in s.c.heap && s.c.heap[s.c.hash[u]].uid == u
    ensures var e := Resolved(s, order); forall u | u in e.hash :: e.hash[u] in e.heap && e.heap[e.hash[u]].uid == u
  {
    ResolvedParts(s, order);
    hide Resolved;
    forall u | u in s.c.hash
      ensures Resolved(s, order).heap[s.c.hash[u]].uid == u
    {
      ResolvedKeeps(s, order, s.c.hash[u]);
    }
  }
}
