/** When a file in which no uid is used twice gives a book in agreement (src/addrbook.c:364-907), said of
    the file alone. */
module BookSound {
  import opened Items
  import opened CacheState
  import opened BookDoc
  import opened BookParse
  import opened BookResolve
  import opened BookRound
  import opened BookSame
  import opened BookUnique
  import opened BookRecords
  import opened BookOrder

  // ---------- what the file must say ----------

  /** There are uids, and none that the counter is still to give out. */
  ghost predicate GoodUids(d: Doc, nextId: nat) {
    forall u, n: nat {:trigger u in FileUids(d), Decimal(n)} | u in FileUids(d) && n > nextId :: u != Decimal(n)
  }

  /** The folders name no object twice. */
  ghost predicate NamedOnceIn(d: Doc) {
    forall f, g, i: nat, j: nat {:trigger f.items[i], g.items[j]} | f in d.folders && g in d.folders
      && i < |f.items| && j < |g.items| && f.items[i].uid == g.items[j].uid && Nameable(d, f.items[i].uid) ::
      f == g && i == j
  }

  /** The uid of a folder that names `u`. */
  ghost function NamerUid(d: Doc, u: Uid): Option<Uid> {
    if Nameable(d, u) && exists f :: f in d.folders && NamedBy(f, u) then
      var f :| f in d.folders && NamedBy(f, u);
      Some(f.uid)
    else None
  }

  /** The uid `n` folders above `u`. */
  ghost function Up(d: Doc, u: Uid, n: nat): Option<Uid>
    decreases n
  {
    if n == 0 then Some(u)
    else if NamerUid(d, u).None? then None
    else Up(d, NamerUid(d, u).value, n - 1)
  }

  /** No folder lies within itself. */
  ghost predicate NoneWithinItself(d: Doc) {
    forall u, n: nat {:trigger Up(d, u, n)} | n > 0 :: Up(d, u, n) != Some(u)
  }

  // ---------- what is loaded is sound ----------

  lemma {:induction false} PersonsApart(ps: seq<PersonRec>, p: PersonRec)
    requires NoDup(PersonsUids(ps)) && p in ps
    ensures NoDup(PersonUids(p))
    decreases |ps|
  {
    var n := |ps| - 1;
    NoDupParts(PersonsUids(ps[..n]), PersonUids(ps[n]));
    if p != ps[n] {
      PersonsApart(ps[..n], p);
    }
  }

  lemma AddressesApart(d: Doc, p: PersonRec, i: nat, j: nat)
    requires Unique(d) && p in d.persons && i < j < |p.emails|
    ensures p.emails[i].uid != p.emails[j].uid
  {
    NoDupParts(PersonsUids(d.persons) + GroupKeys(d.groups), FolderKeys(d.folders));
    NoDupParts(PersonsUids(d.persons), GroupKeys(d.groups));
    PersonsApart(d.persons, p);
    NoDupParts([p.uid], AddressUids(p.emails));
    assert AddressUids(p.emails)[i] != AddressUids(p.emails)[j];
  }

  lemma PersonOf(s: Loading, d: Doc, r: Ref) returns (p: PersonRec)
    requires Got(s, d) && IsPerson(s.c, r)
    ensures p in d.persons && PersonAt(s, p) && s.c.hash[p.uid] == r
  {
    KindLeads(s, d, s.c.heap[r].uid);
    FolderIsQueued(s, r);
    assert Is(s.c.heap[r], PersonKind);
    p :| p in d.persons && p.uid == s.c.heap[r].uid;
  }

  lemma PersonIsOk(s: Loading, d: Doc, r: Ref)
    requires Got(s, d) && Unique(d) && IsPerson(s.c, r)
    ensures PersonOk(s.c, r)
  {
    var p := PersonOf(s, d, r);
    hide Got, Unique;
    var es := s.c.heap[r].emails;
    forall i, j | 0 <= i < j < |es|
      ensures es[i] != es[j]
    {
      assert EmailAt(s, p, r, es, i) && EmailAt(s, p, r, es, j);
      AddressesApart(d, p, i, j);
    }
    forall e | e in es
      ensures e in s.c.heap && s.c.heap[e].EMail? && s.c.heap[e].parent == Some(r)
    {
      var i :| 0 <= i < |es| && es[i] == e;
      assert EmailAt(s, p, r, es, i);
    }
  }

  lemma EmailIsOk(s: Loading, d: Doc, e: Ref)
    requires Got(s, d) && "" !in s.c.hash && e in s.c.heap && s.c.heap[e].EMail?
    ensures EmailOk(s.c, e)
  {
    var u := s.c.heap[e].uid;
    KindLeads(s, d, u);
    FolderIsQueued(s, e);
    var p :| p in d.persons && Bears(p, u);
    assert PersonAt(s, p);
    hide Got, LoadOk, AllHashed;
    var y := s.c.hash[p.uid];
    var i :| 0 <= i < |p.emails| && p.emails[i].uid == u;
    assert EmailAt(s, p, y, s.c.heap[y].emails, i);
  }

  lemma GroupIsOk(s: Loading, d: Doc, r: Ref)
    requires Got(s, d) && "" !in s.c.hash && IsGroup(s.c, r)
    ensures GroupOk(s.c, r)
  {
    var u := s.c.heap[r].uid;
    KindLeads(s, d, u);
    FolderIsQueued(s, r);
    assert Is(s.c.heap[r], GroupKind);
    var g :| g in d.groups && g.uid == u;
    assert GroupAt(s, g);
    JoinedFacts(s.c, g.members);
    forall e | e in s.c.heap[r].members
      ensures Owned(s.c, e)
    {
      EmailIsOk(s, d, e);
    }
  }

  lemma FolderIsEmpty(s: Loading, d: Doc, r: Ref)
    requires Got(s, d) && IsFolder(s.c, r) && r != s.c.root
    ensures r in s.temp && Empty(s.c.heap[r])
  {
    KindLeads(s, d, s.c.heap[r].uid);
    FolderIsQueued(s, r);
    assert Is(s.c.heap[r], FolderKind);
    var f :| f in d.folders && f.uid == s.c.heap[r].uid;
    assert FolderAt(s, f);
  }

  lemma LoadedIsSound(s: Loading, d: Doc)
    requires Got(s, d) && Unique(d) && "" !in s.c.hash && forall u | u in s.c.hash :: FreshUid(s.c, u)
    ensures Sound(s)
  {
    forall r | IsPerson(s.c, r)
      ensures PersonOk(s.c, r)
    {
      PersonIsOk(s, d, r);
    }
    forall e | e in s.c.heap && s.c.heap[e].EMail?
      ensures EmailOk(s.c, e)
    {
      EmailIsOk(s, d, e);
    }
    forall r | IsGroup(s.c, r)
      ensures GroupOk(s.c, r)
    {
      GroupIsOk(s, d, r);
    }
    forall r | IsFolder(s.c, r) && r != s.c.root
      ensures r in s.temp && Empty(s.c.heap[r])
    {
      FolderIsEmpty(s, d, r);
    }
    hide EmailFor, Joined, PersonAt, GroupAt, FolderAt, FileUids, FreshUid, PersonOk, GroupOk, Empty;
  }

  // ---------- names in the file and names of objects ----------

  /** An item of a folder names an object exactly if its uid is that of one. */
  lemma NamesIs(s: Loading, d: Doc, f: FolderRec, i: nat, r: Ref)
    requires Got(s, d) && f in d.folders && i < |f.items|
    ensures f.uid in s.c.hash && s.c.hash[f.uid] in s.temp && |ItemsOf(s, s.c.hash[f.uid])| == |f.items|
    ensures var u := f.items[i].uid;
      Names(s, s.c.hash[f.uid], i, r) <==> Nameable(d, u) && u in s.c.hash && s.c.hash[u] == r
  {
    assert FolderAt(s, f);
    KindLeads(s, d, f.uid);
    FolderIsQueued(s, s.c.hash[f.uid]);
    var u := f.items[i].uid;
    KindLeads(s, d, u);
    hide Got, LoadOk, AllHashed, OfKind;
    if u in s.c.hash && !s.c.heap[s.c.hash[u]].EMail? {
      assert Is(s.c.heap[s.c.hash[u]], KindOf(s.c.heap[s.c.hash[u]]));
    }
  }

  lemma SameFolder(d: Doc, f: FolderRec, g: FolderRec)
    requires Unique(d) && f in d.folders && g in d.folders && f.uid == g.uid
    ensures f == g
  {
    NoDupParts(PersonsUids(d.persons) + GroupKeys(d.groups), FolderKeys(d.folders));
    var i :| 0 <= i < |d.folders| && d.folders[i] == f;
    var j :| 0 <= j < |d.folders| && d.folders[j] == g;
    assert FolderKeys(d.folders)[i] == FolderKeys(d.folders)[j];
  }

  lemma OnceIs(s: Loading, d: Doc)
    requires Got(s, d) && Unique(d)
    ensures NamedOnce(s) <==> NamedOnceIn(d)
  {
    hide Got, Unique, Names, Nameable;
    if NamedOnceIn(d) {
      forall y, z, i: nat, j: nat, r | Names(s, y, i, r) && Names(s, z, j, r)
        ensures y == z && i == j
      {
        var f := NamesRecord(s, d, y, i, r);
        var g := NamesRecord(s, d, z, j, r);
      }
    }
    if NamedOnce(s) {
      forall f, g, i: nat, j: nat | f in d.folders && g in d.folders && i < |f.items| && j < |g.items|
        && f.items[i].uid == g.items[j].uid && Nameable(d, f.items[i].uid)
        ensures f == g && i == j
      {
        var r := NameableIs(s, d, f.items[i].uid);
        NamesIs(s, d, f, i, r);
        NamesIs(s, d, g, j, r);
        KindLeads(s, d, f.uid);
        KindLeads(s, d, g.uid);
        SameFolder(d, f, g);
      }
    }
  }

  lemma NamesRecord(s: Loading, d: Doc, y: Ref, i: nat, r: Ref) returns (f: FolderRec)
    requires Got(s, d) && Names(s, y, i, r)
    ensures f in d.folders && f.uid in s.c.hash && s.c.hash[f.uid] == y && i < |f.items|
    ensures Nameable(d, f.items[i].uid) && r in s.c.heap && s.c.heap[r].uid == f.items[i].uid
  {
    f := QueuedIsRecord(s, d, y);
    assert FolderAt(s, f);
    NamesIs(s, d, f, i, r);
    KindLeads(s, d, f.items[i].uid);
  }

  lemma NameableIs(s: Loading, d: Doc, u: Uid) returns (r: Ref)
    requires Got(s, d) && Nameable(d, u)
    ensures u in s.c.hash && s.c.hash[u] == r && r in s.c.heap && s.c.heap[r].uid == u && r != s.c.root
    ensures !s.c.heap[r].EMail?
  {
    KindLeads(s, d, u);
    var k: Kind :| OfKind(d, u, k);
    r := s.c.hash[u];
    assert Is(s.c.heap[r], k);
  }

  // ---------- above in the file and above in the book ----------

  /** What `NamerUid` chooses is the only one. */
  lemma NamerUidIs(d: Doc, f: FolderRec, u: Uid)
    requires NamedOnceIn(d) && f in d.folders && NamedBy(f, u) && Nameable(d, u)
    ensures NamerUid(d, u) == Some(f.uid)
  {
    var i: nat :| i < |f.items| && f.items[i].uid == u;
    forall g | g in d.folders && NamedBy(g, u)
      ensures g == f
    {
      var j: nat :| j < |g.items| && g.items[j].uid == u;
    }
  }

  lemma NamerHasUid(s: Loading, d: Doc, r: Ref)
    requires Got(s, d) && NamedOnceIn(d) && r in s.c.heap
    ensures Namer(s, r).Some? ==> r != s.c.root && !s.c.heap[r].EMail?
    ensures r != s.c.root && !s.c.heap[r].EMail? && Namer(s, r).None? ==> NamerUid(d, s.c.heap[r].uid) == None
    ensures Namer(s, r).Some? ==> var y := Namer(s, r).value;
      && y in s.c.heap && y != s.c.root && !s.c.heap[y].EMail?
      && NamerUid(d, s.c.heap[r].uid) == Some(s.c.heap[y].uid)
  {
    LastNamerIs(s, s.temp, r);
    NotTheRoot(s, d, r);
    if r != s.c.root && !s.c.heap[r].EMail? {
      NamerHere(s, d, r);
      hide Got, LoadOk, NamedOnceIn, NamedBy, OfKind;
      var u := s.c.heap[r].uid;
      if Namer(s, r).Some? {
        var f :| f in d.folders && NamedBy(f, u) && f.uid in s.c.hash && s.c.hash[f.uid] == Namer(s, r).value;
        NameableHere(s, d, r);
        NamerUidIs(d, f, u);
        TempIs(s, Namer(s, r).value);
        KindLeads(s, d, f.uid);
      }
    }
  }

  lemma NotTheRoot(s: Loading, d: Doc, r: Ref)
    requires Got(s, d)
    ensures forall us :: !NamedIn(s.c, us, s.c.root)
  {
    forall u | Lookup(s.c, u) == Some(s.c.root)
      ensures false
    {
      KindLeads(s, d, u);
    }
  }

  lemma NameableHere(s: Loading, d: Doc, r: Ref)
    requires Got(s, d) && r in s.c.heap && r != s.c.root && !s.c.heap[r].EMail? && s.c.heap[r].uid != ""
    ensures Nameable(d, s.c.heap[r].uid)
  {
    KindLeads(s, d, s.c.heap[r].uid);
    FolderIsQueued(s, r);
    assert Is(s.c.heap[r], KindOf(s.c.heap[r]));
  }

  lemma {:induction false} ClimbIsUp(s: Loading, d: Doc, r: Ref, n: nat)
    requires Got(s, d) && NamedOnceIn(d) && r in s.c.heap && r != s.c.root && !s.c.heap[r].EMail?
    ensures match Climb(NamedHeap(s), r, n)
      case None => Up(d, s.c.heap[r].uid, n) == None
      case Some(y) => y in s.c.heap && Up(d, s.c.heap[r].uid, n) == Some(s.c.heap[y].uid)
    decreases n
  {
    hide Got, NamedOnceIn, NamerUid, Namer;
    NamerHasUid(s, d, r);
    if n > 0 && Namer(s, r).Some? {
      ClimbIsUp(s, d, Namer(s, r).value, n - 1);
    }
  }

  lemma AcyclicIs(s: Loading, d: Doc)
    requires Got(s, d) && NamedOnceIn(d)
    ensures Acyclic(s) <==> NoneWithinItself(d)
  {
    hide Got, NamedOnceIn, OfKind, Namer;
    if NoneWithinItself(d) {
      forall r, n: nat | r in s.c.heap && n > 0
        ensures Climb(NamedHeap(s), r, n) != Some(r)
      {
        NamerHasUid(s, d, r);
        if r != s.c.root && !s.c.heap[r].EMail? {
          ClimbIsUp(s, d, r, n);
        }
      }
    }
    if Acyclic(s) {
      forall u, n: nat | n > 0
        ensures Up(d, u, n) != Some(u)
      {
        if NamerUid(d, u).Some? && Up(d, u, n) == Some(u) {
          var r := NameableIs(s, d, u);
          ClimbIsUp(s, d, r, n);
          HashedBack(s, d, r, Climb(NamedHeap(s), r, n).value);
        }
      }
    }
  }

  /** Objects of one uid are one. */
  lemma HashedBack(s: Loading, d: Doc, r: Ref, y: Ref)
    requires Got(s, d) && r in s.c.heap && y in s.c.heap && r != s.c.root
    requires s.c.heap[y].uid == s.c.heap[r].uid && s.c.heap[r].uid != ""
    ensures y == r
  {
    FolderIsQueued(s, r);
  }

  // ---------- the counter ----------

  lemma {:induction false} ElemsCount(k: ListKind, es: seq<Elem>, s: Loading)
    ensures LoadElems(k, es, s).c.nextId == s.c.nextId
    decreases |es|
  {
    if es != [] {
      ElemsCount(k, es[1..], ParseElement(k, es[0].tag, ElemText(es[0]), s));
    }
  }

  lemma {:induction false} PersonsCount(s: Loading, ps: seq<PersonRec>)
    ensures LoadPersons(s, ps).c.nextId == s.c.nextId
    decreases |ps|
  {
    hide LoadElems, Made;
    if ps != [] {
      var t, p := LoadPersons(s, ps[..|ps| - 1]), ps[|ps| - 1];
      PersonsCount(s, ps[..|ps| - 1]);
      var r := Some(t.c.top);
      var t1 := WithMade(PersonTag(p), t);
      ElemsCount(Addresses(r), AddressElems(p.emails), t1);
      ElemsCount(Attributes(r), AttributeElems(p.attribs),
        Hashed(r, LoadElems(Addresses(r), AddressElems(p.emails), t1)));
    }
  }

  lemma {:induction false} GroupsCount(s: Loading, gs: seq<GroupRec>)
    ensures LoadGroups(s, gs).c.nextId == s.c.nextId
    decreases |gs|
  {
    hide LoadElems, Made;
    if gs != [] {
      var t, g := LoadGroups(s, gs[..|gs| - 1]), gs[|gs| - 1];
      GroupsCount(s, gs[..|gs| - 1]);
      ElemsCount(Members(Some(t.c.top)), MemberElems(g.members), Hashed(Some(t.c.top), WithMade(GroupTag(g), t)));
    }
  }

  lemma {:induction false} FoldersCount(s: Loading, fs: seq<FolderRec>)
    ensures LoadFolders(s, fs).c.nextId == s.c.nextId
    decreases |fs|
  {
    hide LoadElems, Made;
    if fs != [] {
      var t, f := LoadFolders(s, fs[..|fs| - 1]), fs[|fs| - 1];
      FoldersCount(s, fs[..|fs| - 1]);
      ElemsCount(ItemList(Some(t.c.top)), ItemElems(f.items), Queued(Some(t.c.top), WithMade(FolderTag(f), t)));
    }
  }

  // ---------- the file ----------

  lemma UidsAreGood(s: Loading, d: Doc, nextId: nat)
    requires Got(s, d) && s.c.nextId == nextId
    ensures (forall u | u in s.c.hash :: FreshUid(s.c, u)) <==> GoodUids(d, nextId)
    ensures "" in s.c.hash <==> "" in FileUids(d)
  {
    if GoodUids(d, nextId) {
      forall u, n: nat | u in s.c.hash && n > s.c.nextId
        ensures Decimal(n) != u
      {
        assert u in FileUids(d);
      }
    }
    if forall u | u in s.c.hash :: FreshUid(s.c, u) {
      forall u, n: nat | u in FileUids(d) && n > nextId
        ensures u != Decimal(n)
      {
        assert FreshUid(s.c, u);
      }
    }
  }

  /** A file in which no uid is used twice gives a book in agreement if and only if no uid is empty or
      one that the counter is still to give out, the folders name no object twice, and no folder lies
      within itself. */
  lemma FileInv(d: Doc, root: Ref, nextId: nat, top: Ref, dirty: bool, order: seq<Uid>)
    requires Unique(d) && root < top
    requires Traversal(ReadTree(true, DocTokens(d), Cleared(root, nextId, top, dirty)).s.c, order)
    ensures var t := ReadTree(true, DocTokens(d), Cleared(root, nextId, top, dirty));
      Inv(Resolved(t.s, order)) <==>
      "" !in FileUids(d) && GoodUids(d, nextId) && NamedOnceIn(d) && NoneWithinItself(d)
  {
    hide Unique, Traversal, ReadTree, Resolved, FileUids, Got, Inv, LoadPersons, LoadGroups, LoadFolders;
    ReadWritten(d, Cleared(root, nextId, top, dirty));
    UniqueIsLoaded(root, nextId, top, true, d);
    var z := Cleared(root, nextId, top, true);
    var s := LoadDoc(z, d);
    PersonsCount(z, d.persons);
    GroupsCount(LoadPersons(z, d.persons), d.groups);
    FoldersCount(LoadGroups(LoadPersons(z, d.persons), d.groups), d.folders);
    UidsAreGood(s, d, nextId);
    ResolvedUids(s, d, order);
    if "" !in s.c.hash && forall u | u in s.c.hash :: FreshUid(s.c, u) {
      LoadedIsSound(s, d);
      ResolvedInv(s, order);
      OnceIs(s, d);
      if NamedOnceIn(d) {
        AcyclicIs(s, d);
      }
    }
  }

  lemma ResolvedUids(s: Loading, d: Doc, order: seq<Uid>)
    ensures Resolved(s, order).hash == s.c.hash && Resolved(s, order).nextId == s.c.nextId
    ensures Inv(Resolved(s, order)) ==> "" !in s.c.hash && forall u | u in s.c.hash :: FreshUid(s.c, u)
  {
    if Inv(Resolved(s, order)) {
      forall u | u in s.c.hash
        ensures u != "" && FreshUid(s.c, u)
      {
        assert FreshUid(Resolved(s, order), u);
      }
    }
  }
}
