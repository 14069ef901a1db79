/** What a file loads as in which no uid is used twice, whatever else it says: all of its records
    are loaded, each under its uid (src/addrbook.c:364-907). */
module BookUnique {
  import opened Items
  import opened CacheState
  import opened BookDoc
  import opened BookParse
  import opened BookResolve
  import opened BookRound
  import opened BookSame

  // ---------- the uids of a document ----------

  function PersonsUids(ps: seq<PersonRec>): seq<Uid> {
    if ps == [] then [] else PersonsUids(ps[..|ps| - 1]) + PersonUids(ps[|ps| - 1])
  }

  function GroupKeys(gs: seq<GroupRec>): (r: seq<Uid>)
    ensures |r| == |gs|
  {
    seq(|gs|, i requires 0 <= i < |gs| => gs[i].uid)
  }

  function FolderKeys(fs: seq<FolderRec>): (r: seq<Uid>)
    ensures |r| == |fs|
  {
    seq(|fs|, i requires 0 <= i < |fs| => fs[i].uid)
  }

  /** The uids under which the file's records are to be hashed. */
  function FileUids(d: Doc): seq<Uid> {
    PersonsUids(d.persons) + GroupKeys(d.groups) + FolderKeys(d.folders)
  }

  /** No uid is used twice. */
  ghost predicate Unique(d: Doc) {
    NoDup(FileUids(d))
  }

  /** The uid is that of a record of this kind. */
  ghost predicate OfKind(d: Doc, u: Uid, k: Kind) {
    match k
    case PersonKind => exists p :: p in d.persons && p.uid == u
    case GroupKind => exists g :: g in d.groups && g.uid == u
    case FolderKind => exists f :: f in d.folders && f.uid == u
  }

  /** The uid is that of an address of the person. */
  ghost predicate Bears(p: PersonRec, u: Uid) {
    exists i :: 0 <= i < |p.emails| && p.emails[i].uid == u
  }

  ghost predicate IsAddress(d: Doc, u: Uid) {
    exists p :: p in d.persons && Bears(p, u)
  }

  lemma {:induction false} InPersonsUids(ps: seq<PersonRec>, u: Uid)
    ensures u in PersonsUids(ps) <==> exists p :: p in ps && (p.uid == u || Bears(p, u))
    decreases |ps|
  {
    if ps != [] {
      var n := |ps| - 1;
      InPersonsUids(ps[..n], u);
      UidsOfPerson(ps[n], u);
      assert forall p | p in ps :: p == ps[n] || p in ps[..n];
    }
  }

  lemma InFileUids(d: Doc, u: Uid)
    ensures u in FileUids(d) <==>
      IsAddress(d, u) || OfKind(d, u, PersonKind) || OfKind(d, u, GroupKind) || OfKind(d, u, FolderKind)
  {
    InPersonsUids(d.persons, u);
    var gs, fs := GroupKeys(d.groups), FolderKeys(d.folders);
    assert u in gs <==> OfKind(d, u, GroupKind) by {
      if g :| g in d.groups && g.uid == u {
        var i :| 0 <= i < |d.groups| && d.groups[i] == g;
        assert gs[i] == u;
      }
    }
    assert u in fs <==> OfKind(d, u, FolderKind) by {
      if f :| f in d.folders && f.uid == u {
        var i :| 0 <= i < |d.folders| && d.folders[i] == f;
        assert fs[i] == u;
      }
    }
  }

  // ---------- what has been loaded ----------

  /** The `i`-th address of the person. */
  ghost predicate EmailAt(s: Loading, p: PersonRec, y: Ref, es: seq<Ref>, i: nat) {
    && i < |p.emails| && i < |es| && es[i] in s.c.heap && s.c.heap[es[i]] == EmailItem(p.emails[i], y)
    && p.emails[i].uid in s.c.hash && s.c.hash[p.emails[i].uid] == es[i]
  }

  ghost predicate PersonAt(s: Loading, p: PersonRec) {
    && p.uid in s.c.hash && IsPerson(s.c, s.c.hash[p.uid])
    && var y := s.c.hash[p.uid]; var es := s.c.heap[y].emails;
    && s.c.heap[y] == PersonItem(p, es, StrippedAll(p.attribs)) && |es| == |p.emails|
    && forall i: nat {:trigger EmailAt(s, p, y, es, i)} | i < |es| :: EmailAt(s, p, y, es, i)
  }

  ghost predicate GroupAt(s: Loading, g: GroupRec) {
    && g.uid in s.c.hash && s.c.hash[g.uid] in s.c.heap
    && s.c.heap[s.c.hash[g.uid]] == Group(g.uid, g.name, None, g.remarks, Joined(s.c, g.members))
  }

  ghost predicate FolderAt(s: Loading, f: FolderRec) {
    && f.uid in s.c.hash && s.c.hash[f.uid] in s.c.heap
    && var y := s.c.hash[f.uid];
    && s.c.heap[y] == Folder(f.uid, f.name, None, f.remarks, [], [], []) && ItemsOf(s, y) == ItemUids(f.items)
  }

  ghost predicate AllHashed(s: Loading) {
    forall z {:trigger s.c.heap[z]} | z in s.c.heap && z != s.c.root ::
      s.c.heap[z].uid in s.c.hash && s.c.hash[s.c.heap[z].uid] == z
  }

  /** All that the document says has been loaded, and nothing else. */
  ghost predicate Got(s: Loading, d: Doc) {
    && LoadOk(s) && AllHashed(s) && (forall f | f in s.items :: f in s.c.heap)
    && (forall u :: u in s.c.hash <==> u in FileUids(d))
    && (forall p {:trigger PersonAt(s, p)} | p in d.persons :: PersonAt(s, p))
    && (forall g {:trigger GroupAt(s, g)} | g in d.groups :: GroupAt(s, g))
    && (forall f {:trigger FolderAt(s, f)} | f in d.folders :: FolderAt(s, f))
  }

  // ---------- one record more ----------

  lemma PersonKept(s: Loading, t: Loading, p: PersonRec)
    requires PersonAt(s, p) && Keeps(s, t)
    ensures PersonAt(t, p)
  {
    var y := s.c.hash[p.uid];
    var es := s.c.heap[y].emails;
    forall i: nat | i < |es|
      ensures EmailAt(t, p, y, es, i)
    {
      assert EmailAt(s, p, y, es, i);
    }
  }

  lemma {:induction false} JoinedSame(c: Cache, d: Cache, ms: seq<MemberRec>)
    requires forall u :: EmailFor(d, u) == EmailFor(c, u)
    ensures Joined(d, ms) == Joined(c, ms)
    decreases |ms|
  {
    if ms != [] {
      JoinedSame(c, d, ms[..|ms| - 1]);
    }
  }

  lemma GroupKept(s: Loading, t: Loading, g: GroupRec)
    requires GroupAt(s, g) && Keeps(s, t) && forall u :: EmailFor(t.c, u) == EmailFor(s.c, u)
    ensures GroupAt(t, g)
  {
    JoinedSame(s.c, t.c, g.members);
  }

  lemma FolderKept(s: Loading, t: Loading, f: FolderRec)
    requires FolderAt(s, f) && Keeps(s, t)
    ensures FolderAt(t, f)
  {
  }

  lemma {:induction false} LoadElemsOk(k: ListKind, es: seq<Elem>, s: Loading)
    requires LoadOk(s)
    ensures LoadOk(LoadElems(k, es, s)) && Grows(s, LoadElems(k, es, s))
    decreases |es|
  {
    hide LoadOk, ParseElement;
    if es != [] {
      ParseElementOk(k, es[0].tag, ElemText(es[0]), s);
      LoadElemsOk(k, es[1..], ParseElement(k, es[0].tag, ElemText(es[0]), s));
    }
  }

  lemma LoadPersonOk(s: Loading, p: PersonRec)
    requires LoadOk(s)
    ensures LoadOk(LoadPerson(s, p))
  {
    hide LoadOk, LoadElems, Hashed;
    var r := Some(s.c.top);
    var s1 := WithMade(PersonTag(p), s);
    MadePerson(p);
    MadeOk(PersonTag(p), s);
    LoadElemsOk(Addresses(r), AddressElems(p.emails), s1);
    var s2 := LoadElems(Addresses(r), AddressElems(p.emails), s1);
    HashingOk(r, s2);
    LoadElemsOk(Attributes(r), AttributeElems(p.attribs), Hashed(r, s2));
  }

  lemma NewPersonAt(s: Loading, t: Loading, p: PersonRec)
    requires LoadOk(s) && UnusedUids(s, PersonUids(p)) && PersonLoaded(s, t, p)
    ensures PersonAt(t, p)
  {
    hide LoadOk, UnusedUids, PersonLoaded, StrippedAll;
    LoadedHash(s, t, p, p.uid);
    LoadedHeap(s, t, p, s.c.top);
    var y := s.c.top;
    var es := t.c.heap[y].emails;
    forall i: nat | i < |es|
      ensures EmailAt(t, p, y, es, i)
    {
      LoadedHeap(s, t, p, y + 1 + i);
    }
  }

  lemma LoadedAllHashed(s: Loading, t: Loading, p: PersonRec, z: Ref)
    requires LoadOk(s) && AllHashed(s) && UnusedUids(s, PersonUids(p)) && PersonLoaded(s, t, p)
    requires z in t.c.heap && z != t.c.root
    ensures t.c.heap[z].uid in t.c.hash && t.c.hash[t.c.heap[z].uid] == z
  {
    LoadedHeap(s, t, p, z);
    LoadedHash(s, t, p, t.c.heap[z].uid);
    LoadedKeeps(s, t, p);
    hide UnusedUids, PersonLoaded;
    if s.c.top < z {
      assert t.c.heap[z].uid == p.emails[z - s.c.top - 1].uid;
    }
  }

  lemma GotPerson(s: Loading, d: Doc, p: PersonRec)
    requires Got(s, d) && d.groups == [] && d.folders == [] && UnusedUids(s, PersonUids(p))
    ensures Got(LoadPerson(s, p), d.(persons := d.persons + [p]))
  {
    hide LoadOk, UnusedUids, PersonLoaded, PersonAt, LoadPerson, Keeps, AllHashed;
    var t := LoadPerson(s, p);
    var e := d.(persons := d.persons + [p]);
    LoadPersonIs(s, p);
    LoadPersonOk(s, p);
    LoadedKeeps(s, t, p);
    LoadedTemp(s, t, p);
    NewPersonAt(s, t, p);
    KeepsHeap(s, t);
    forall q | q in e.persons
      ensures PersonAt(t, q)
    {
      if q in d.persons {
        PersonKept(s, t, q);
      }
    }
    assert e.persons[..|d.persons|] == d.persons;
    forall u
      ensures u in t.c.hash <==> u in FileUids(e)
    {
      LoadedHash(s, t, p, u);
      assert u in s.c.hash <==> u in FileUids(d);
    }
    AllHashedAfter(s, t, p);
  }

  lemma AllHashedAfter(s: Loading, t: Loading, p: PersonRec)
    requires LoadOk(s) && AllHashed(s) && UnusedUids(s, PersonUids(p)) && PersonLoaded(s, t, p)
    ensures AllHashed(t)
  {
    forall z | z in t.c.heap && z != t.c.root
      ensures t.c.heap[z].uid in t.c.hash && t.c.hash[t.c.heap[z].uid] == z
    {
      LoadedAllHashed(s, t, p, z);
    }
  }

  lemma {:induction false} GotPersons(s: Loading, name: string, ps: seq<PersonRec>)
    requires Got(s, Doc(name, [], [], [])) && NoDup(PersonsUids(ps))
    ensures Got(LoadPersons(s, ps), Doc(name, ps, [], []))
    decreases |ps|
  {
    hide Got, LoadPerson;
    if ps != [] {
      var n := |ps| - 1;
      NoDupParts(PersonsUids(ps[..n]), PersonUids(ps[n]));
      GotPersons(s, name, ps[..n]);
      var d := Doc(name, ps[..n], [], []);
      StillUnused(LoadPersons(s, ps[..n]), d, PersonUids(ps[n]));
      GotPerson(LoadPersons(s, ps[..n]), d, ps[n]);
      assert ps[..n] + [ps[n]] == ps;
    }
  }

  lemma StillUnused(s: Loading, d: Doc, us: seq<Uid>)
    requires Got(s, d) && d.groups == [] && d.folders == [] && NoDup(us)
    requires forall u | u in PersonsUids(d.persons) :: u !in us
    ensures UnusedUids(s, us)
  {
    forall u | u in us
      ensures u !in s.c.hash
    {
      assert u in s.c.hash <==> u in FileUids(d);
    }
  }

  lemma WithGroupKeeps(s: Loading, g: GroupRec, members: seq<Ref>)
    requires LoadOk(s) && g.uid !in s.c.hash
    ensures Keeps(s, WithGroup(s, g, members)) && s.c.top !in s.c.heap
    ensures forall u :: EmailFor(WithGroup(s, g, members).c, u) == EmailFor(s.c, u)
  {
  }

  lemma LoadGroupOk(s: Loading, g: GroupRec)
    requires LoadOk(s)
    ensures LoadOk(LoadGroup(s, g))
  {
    hide LoadOk, LoadElems, Hashed;
    var r := Some(s.c.top);
    var s1 := WithMade(GroupTag(g), s);
    MadeGroup(g);
    MadeOk(GroupTag(g), s);
    HashingOk(r, s1);
    LoadElemsOk(Members(r), MemberElems(g.members), Hashed(r, s1));
  }

  /** What has been loaded stays when more is loaded. */
  lemma AllKept(s: Loading, t: Loading, d: Doc)
    requires Got(s, d) && Keeps(s, t) && forall u :: EmailFor(t.c, u) == EmailFor(s.c, u)
    ensures forall p {:trigger PersonAt(t, p)} | p in d.persons :: PersonAt(t, p)
    ensures forall g {:trigger GroupAt(t, g)} | g in d.groups :: GroupAt(t, g)
    ensures forall f {:trigger FolderAt(t, f)} | f in d.folders :: FolderAt(t, f)
  {
    hide LoadOk, PersonAt, GroupAt, FolderAt, Keeps, EmailFor;
    forall p | p in d.persons
      ensures PersonAt(t, p)
    {
      PersonKept(s, t, p);
    }
    forall g | g in d.groups
      ensures GroupAt(t, g)
    {
      GroupKept(s, t, g);
    }
    forall f | f in d.folders
      ensures FolderAt(t, f)
    {
      FolderKept(s, t, f);
    }
  }

  lemma GotGroup(s: Loading, d: Doc, g: GroupRec)
    requires Got(s, d) && d.folders == [] && g.uid !in s.c.hash
    ensures Got(LoadGroup(s, g), d.(groups := d.groups + [g]))
  {
    hide LoadOk, PersonAt, LoadGroup, Keeps, Joined, EmailFor;
    var t := LoadGroup(s, g);
    var e := d.(groups := d.groups + [g]);
    LoadGroupIs(s, g);
    LoadGroupOk(s, g);
    WithGroupKeeps(s, g, Joined(s.c, g.members));
    KeepsHeap(s, t);
    forall q | q in e.persons
      ensures PersonAt(t, q)
    {
      PersonKept(s, t, q);
    }
    forall q | q in e.groups
      ensures GroupAt(t, q)
    {
      if q in d.groups {
        assert GroupAt(s, q);
        GroupKept(s, t, q);
      } else {
        JoinedSame(s.c, t.c, q.members);
      }
    }
    assert GroupKeys(e.groups) == GroupKeys(d.groups) + [g.uid];
    forall u
      ensures u in t.c.hash <==> u in FileUids(e)
    {
      assert u in s.c.hash <==> u in FileUids(d);
    }
  }

  lemma {:induction false} GotGroups(s: Loading, d: Doc, gs: seq<GroupRec>)
    requires Got(s, d) && d.groups == [] && d.folders == [] && NoDup(PersonsUids(d.persons) + GroupKeys(gs))
    ensures Got(LoadGroups(s, gs), d.(groups := gs))
    decreases |gs|
  {
    hide Got, LoadGroup, PersonsUids;
    if gs != [] {
      var n := |gs| - 1;
      var us := PersonsUids(d.persons);
      assert us + GroupKeys(gs) == us + GroupKeys(gs[..n]) + [gs[n].uid];
      NoDupParts(us + GroupKeys(gs[..n]), [gs[n].uid]);
      GotGroups(s, d, gs[..n]);
      var e := d.(groups := gs[..n]);
      assert FileUids(e) == us + GroupKeys(gs[..n]);
      NotHashedYet(LoadGroups(s, gs[..n]), e, gs[n].uid);
      GotGroup(LoadGroups(s, gs[..n]), e, gs[n]);
      assert gs[..n] + [gs[n]] == gs;
    } else {
      assert d.(groups := []) == d;
    }
  }

  lemma NotHashedYet(s: Loading, d: Doc, u: Uid)
    requires Got(s, d) && u !in FileUids(d)
    ensures u !in s.c.hash
  {
  }

  lemma WithFolderKeeps(s: Loading, f: FolderRec, us: seq<Uid>)
    requires LoadOk(s) && f.uid !in s.c.hash && s.c.top !in s.items
    ensures Keeps(s, WithFolder(s, f, us)) && s.c.top !in s.c.heap
    ensures forall u :: EmailFor(WithFolder(s, f, us).c, u) == EmailFor(s.c, u)
    ensures ItemsOf(WithFolder(s, f, us), s.c.top) == us
  {
  }

  lemma LoadFolderOk(s: Loading, f: FolderRec)
    requires LoadOk(s)
    ensures LoadOk(LoadFolder(s, f))
  {
    hide LoadOk, LoadElems, Queued;
    var r := Some(s.c.top);
    var s1 := WithMade(FolderTag(f), s);
    MadeFolder(f);
    MadeOk(FolderTag(f), s);
    QueuedOk(r, s1);
    LoadElemsOk(ItemList(r), ItemElems(f.items), Queued(r, s1));
  }

  lemma NewFolderAt(s: Loading, f: FolderRec)
    requires LoadOk(s) && AllHashed(s) && f.uid !in s.c.hash && s.c.top !in s.items && s.c.top !in s.c.heap
    ensures var t := WithFolder(s, f, ItemUids(f.items)); FolderAt(t, f) && AllHashed(t)
  {
    hide LoadOk;
    assert ItemsOf(WithFolder(s, f, ItemUids(f.items)), s.c.top) == ItemUids(f.items);
  }

  lemma OneFolderMore(d: Doc, f: FolderRec)
    ensures FileUids(d.(folders := d.folders + [f])) == FileUids(d) + [f.uid]
  {
    assert FolderKeys(d.folders + [f]) == FolderKeys(d.folders) + [f.uid];
  }

  lemma GotFolder(s: Loading, d: Doc, f: FolderRec)
    requires Got(s, d) && f.uid !in s.c.hash
    ensures Got(LoadFolder(s, f), d.(folders := d.folders + [f]))
  {
    NewHandle(s);
    hide LoadOk, PersonAt, GroupAt, FolderAt, AllHashed, LoadFolder, Keeps, EmailFor, ItemsOf, FileUids;
    var t := LoadFolder(s, f);
    var e := d.(folders := d.folders + [f]);
    LoadFolderIs(s, f);
    LoadFolderOk(s, f);
    WithFolderKeeps(s, f, ItemUids(f.items));
    NewFolderAt(s, f);
    AllKept(s, t, d);
    OneFolderMore(d, f);
    forall u
      ensures u in t.c.hash <==> u in FileUids(e)
    {
      assert u in s.c.hash <==> u in FileUids(d);
    }
  }

  lemma NewHandle(s: Loading)
    requires LoadOk(s) && forall f | f in s.items :: f in s.c.heap
    ensures s.c.top !in s.c.heap && s.c.top !in s.items
  {
  }

  lemma {:induction false} GotFolders(s: Loading, d: Doc, fs: seq<FolderRec>)
    requires Got(s, d) && d.folders == [] && NoDup(PersonsUids(d.persons) + GroupKeys(d.groups) + FolderKeys(fs))
    ensures Got(LoadFolders(s, fs), d.(folders := fs))
    decreases |fs|
  {
    hide Got, LoadFolder, PersonsUids, GroupKeys;
    if fs != [] {
      var n := |fs| - 1;
      var us := PersonsUids(d.persons) + GroupKeys(d.groups);
      assert us + FolderKeys(fs) == us + FolderKeys(fs[..n]) + [fs[n].uid];
      NoDupParts(us + FolderKeys(fs[..n]), [fs[n].uid]);
      GotFolders(s, d, fs[..n]);
      var e := d.(folders := fs[..n]);
      NotHashedYet(LoadFolders(s, fs[..n]), e, fs[n].uid);
      GotFolder(LoadFolders(s, fs[..n]), e, fs[n]);
      assert fs[..n] + [fs[n]] == fs;
    } else {
      assert d.(folders := []) == d;
    }
  }

  /** A file in which no uid is used twice is loaded as it stands. */
  lemma UniqueIsLoaded(root: Ref, nextId: nat, top: Ref, dirty: bool, d: Doc)
    requires Unique(d) && root < top
    ensures Got(LoadDoc(Cleared(root, nextId, top, dirty), d), d)
  {
    var s := Cleared(root, nextId, top, dirty);
    var us, gs, fs := PersonsUids(d.persons), GroupKeys(d.groups), FolderKeys(d.folders);
    NoDupParts(us + gs, fs);
    NoDupParts(us, gs);
    var none := Doc(d.name, [], [], []);
    assert FileUids(none) == [];
    assert Got(s, none);
    hide Got, LoadPersons, LoadGroups, LoadFolders;
    GotPersons(s, d.name, d.persons);
    GotGroups(LoadPersons(s, d.persons), Doc(d.name, d.persons, [], []), d.groups);
    GotFolders(LoadGroups(LoadPersons(s, d.persons), d.groups), Doc(d.name, d.persons, d.groups, []), d.folders);
    assert Doc(d.name, d.persons, d.groups, d.folders) == d;
  }

  // ---------- where uids lead ----------

  lemma PersonLeads(s: Loading, p: PersonRec)
    requires PersonAt(s, p) && (forall u | u in s.c.hash :: s.c.hash[u] in s.c.heap)
    ensures IsPerson(s.c, s.c.hash[p.uid])
    ensures forall u | Bears(p, u) ::
      u in s.c.hash && s.c.heap[s.c.hash[u]].EMail? && s.c.heap[s.c.hash[u]].parent == Some(s.c.hash[p.uid])
  {
    var y := s.c.hash[p.uid];
    forall u | Bears(p, u)
      ensures u in s.c.hash && s.c.heap[s.c.hash[u]].EMail? && s.c.heap[s.c.hash[u]].parent == Some(y)
    {
      var i: nat :| i < |p.emails| && p.emails[i].uid == u;
      assert EmailAt(s, p, y, s.c.heap[y].emails, i);
    }
  }

  /** The records and the hash table agree on what is of which kind. */
  lemma KindLeads(s: Loading, d: Doc, u: Uid)
    requires Got(s, d)
    ensures forall k: Kind :: OfKind(d, u, k) <==> u in s.c.hash && s.c.hash[u] in s.c.heap
                                                   && Is(s.c.heap[s.c.hash[u]], k)
    ensures IsAddress(d, u) <==> u in s.c.hash && s.c.hash[u] in s.c.heap && s.c.heap[s.c.hash[u]].EMail?
    ensures u in s.c.hash ==> s.c.hash[u] in s.c.heap && s.c.hash[u] != s.c.root && s.c.heap[s.c.hash[u]].uid == u
  {
    HashLeads(s);
    InFileUids(d, u);
    assert u in s.c.hash <==> u in FileUids(d);
    hide LoadOk, AllHashed, FileUids;
    RecordLeads(s, d, u);
    if IsAddress(d, u) {
      AddressLeads(s, d, u);
    }
    hide Got, OfKind, IsAddress;
    assert u in s.c.hash ==> OfKind(d, u, PersonKind) || OfKind(d, u, GroupKind) || OfKind(d, u, FolderKind)
                             || IsAddress(d, u);
  }

  lemma RecordLeads(s: Loading, d: Doc, u: Uid)
    requires Got(s, d)
    ensures forall k: Kind | OfKind(d, u, k) :: u in s.c.hash && s.c.hash[u] in s.c.heap && Is(s.c.heap[s.c.hash[u]], k)
  {
    hide LoadOk, AllHashed, FileUids;
    forall k: Kind | OfKind(d, u, k)
      ensures u in s.c.hash && s.c.hash[u] in s.c.heap && Is(s.c.heap[s.c.hash[u]], k)
    {
      match k
      case PersonKind =>
        var p :| p in d.persons && p.uid == u;
        assert PersonAt(s, p);
      case GroupKind =>
        var g :| g in d.groups && g.uid == u;
        assert GroupAt(s, g);
      case FolderKind =>
        var f :| f in d.folders && f.uid == u;
        assert FolderAt(s, f);
    }
  }

  lemma AddressLeads(s: Loading, d: Doc, u: Uid)
    requires Got(s, d) && IsAddress(d, u)
    ensures u in s.c.hash && s.c.hash[u] in s.c.heap && s.c.heap[s.c.hash[u]].EMail?
  {
    HashLeads(s);
    hide LoadOk, AllHashed, FileUids;
    var p :| p in d.persons && Bears(p, u);
    assert PersonAt(s, p);
    PersonLeads(s, p);
  }

  lemma HashLeads(s: Loading)
    requires LoadOk(s)
    ensures forall u | u in s.c.hash ::
      s.c.hash[u] in s.c.heap && s.c.heap[s.c.hash[u]].uid == u && s.c.hash[u] != s.c.root
  {
  }
}
