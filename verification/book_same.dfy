/** The round trip as a whole: a book in agreement, written and read again, is the same book. */
module BookSame {
  import opened Items
  import opened CacheState
  import opened XmlFiles
  import opened BookDoc
  import opened BookParse
  import opened BookResolve
  import opened BookRound

  // ---------- uids tell objects apart ----------

  /** What a book consists of, apart from its root: persons, groups, folders and owned emails. */
  predicate Object(c: Cache, z: Ref) {
    z in c.heap && z != c.root && (c.heap[z].EMail? ==> c.heap[z].parent.Some?)
  }

  lemma UidFacts(c: Cache, z: Ref)
    requires Inv(c) && Object(c, z)
    ensures c.heap[z].uid != "" && FreshUid(c, c.heap[z].uid)
    ensures c.heap[z].uid in c.hash ==> c.hash[c.heap[z].uid] == z
    ensures !c.heap[z].EMail? ==> c.heap[z].uid in c.hash
  {
    if c.heap[z].EMail? {
      assert Owned(c, z);
      assert EmailOk(c, z);
      assert FreshUid(c, c.heap[z].uid);
    } else {
      assert c.heap[z].uid in c.hash;
      assert FreshUid(c, c.heap[z].uid);
    }
  }

  lemma UidTells(c: Cache, x: Ref, y: Ref)
    requires Inv(c) && Object(c, x) && Object(c, y) && c.heap[x].uid == c.heap[y].uid
    ensures x == y
  {
    UidFacts(c, x);
    UidFacts(c, y);
    if c.heap[x].EMail? && c.heap[y].EMail? {
      assert Namesakes(c, x, y);
    }
  }

  // ---------- how far the loading has come ----------

  /** The objects that come with those of `ls`: the emails of the persons among them. */
  function Done(c: Cache, ls: seq<Ref>): set<Ref> {
    set z | z in c.heap && (z in ls || (c.heap[z].EMail? && c.heap[z].parent.Some? && c.heap[z].parent.value in ls))
  }

  function To(c: Cache, s: Loading, z: Ref): Ref
    requires z in c.heap && c.heap[z].uid in s.c.hash
  {
    s.c.hash[c.heap[z].uid]
  }

  function FolderUids(c: Cache, f: Ref): seq<Uid>
    requires IsFolder(c, f)
  {
    ItemUids(FolderRecOf(c.heap, f).items)
  }

  /** The object of the same uid in the loading book says the same; a folder's contents are still
      a list of uids. */
  ghost predicate Match(c: Cache, s: Loading, z: Ref) {
    && z in c.heap && c.heap[z].uid in s.c.hash && To(c, s, z) in s.c.heap
    && var i := c.heap[z]; var y := To(c, s, z); var j := s.c.heap[y];
    match i
    case Person(_, _, _, _, _, _, _, _) => j.Person? && PersonRecOf(s.c.heap, y) == Stripped(PersonRecOf(c.heap, z))
    case Group(_, _, _, _, _) => j.Group? && GroupRecOf(s.c.heap, y) == GroupRecOf(c.heap, z)
    case Folder(_, _, _, _, _, _, _) =>
      j.Folder? && j.uid == i.uid && j.name == i.name && j.remarks == i.remarks && ItemsOf(s, y) == FolderUids(c, z)
    case EMail(_, _, _, _, _) =>
      && j.EMail? && i.parent.Some? && i.parent.value in c.heap && c.heap[i.parent.value].uid in s.c.hash
      && j.parent == Some(To(c, s, i.parent.value))
  }

  /** The uid is that of something that has been loaded. */
  ghost predicate DoneUid(c: Cache, ls: seq<Ref>, u: Uid) {
    exists z :: z in Done(c, ls) && c.heap[z].uid == u
  }

  ghost predicate Tracks(c: Cache, s: Loading, ls: seq<Ref>) {
    && Sound(s) && (forall f | f in s.items :: f in s.c.heap) && s.c.nextId >= c.nextId
    && (forall z | z in ls :: z in c.heap && z != c.root && !c.heap[z].EMail?)
    && (forall z {:trigger z in Done(c, ls)} {:trigger Match(c, s, z)} | z in Done(c, ls) :: Match(c, s, z))
    && (forall u {:trigger DoneUid(c, ls, u)} | u in s.c.hash :: DoneUid(c, ls, u))
  }

  /** An object that has not been loaded has a uid that is not in the hash yet. */
  lemma NotYetHashed(c: Cache, s: Loading, ls: seq<Ref>, z: Ref)
    requires Inv(c) && Tracks(c, s, ls) && Object(c, z) && z !in Done(c, ls)
    ensures c.heap[z].uid !in s.c.hash && c.heap[z].uid != "" && FreshUid(s.c, c.heap[z].uid)
  {
    UidFacts(c, z);
    if c.heap[z].uid in s.c.hash {
      assert DoneUid(c, ls, c.heap[z].uid);
      var y :| y in Done(c, ls) && c.heap[y].uid == c.heap[z].uid;
      UidTells(c, y, z);
    }
  }

  /** What has been loaded stays as it is. */
  lemma MatchKept(c: Cache, s: Loading, t: Loading, z: Ref)
    requires Sound(s) && Keeps(s, t) && Match(c, s, z)
    ensures Match(c, t, z)
  {
    var y := To(c, s, z);
    assert To(c, t, z) == y && t.c.heap[y] == s.c.heap[y];
    match c.heap[z]
    case Person(_, _, _, _, _, _, _, _) =>
      assert PersonOk(s.c, y);
      var es := s.c.heap[y].emails;
      assert forall i | 0 <= i < |es| :: es[i] in es && EmailRecOf(t.c.heap, es[i]) == EmailRecOf(s.c.heap, es[i]);
      assert EmailRecs(t.c.heap, es) == EmailRecs(s.c.heap, es);
    case Group(_, _, _, _, _) =>
      assert GroupOk(s.c, y);
      var es := s.c.heap[y].members;
      forall i | 0 <= i < |es|
        ensures MemberRecOf(t.c.heap, es[i]) == MemberRecOf(s.c.heap, es[i])
      {
        assert es[i] in es && Owned(s.c, es[i]);
        assert EmailOk(s.c, es[i]);
      }
      assert MemberRecs(t.c.heap, es) == MemberRecs(s.c.heap, es);
    case Folder(_, _, _, _, _, _, _) =>
    case EMail(_, _, _, _, _) =>
  }

  // ---------- a person ----------

  lemma PersonRecUids(c: Cache, p: Ref)
    requires Inv(c) && IsPerson(c, p)
    ensures var rec := PersonRecOf(c.heap, p); var es := c.heap[p].emails;
      && |rec.emails| == |es| && rec.uid == c.heap[p].uid
      && (forall i | 0 <= i < |es| :: es[i] in c.heap && Owned(c, es[i]) && rec.emails[i].uid == c.heap[es[i]].uid
                                      && es[i] != p)
      && (forall i, j | 0 <= i < j < |es| :: es[i] != es[j])
      && p != c.root
  {
    assert PersonOk(c, p);
    var es := c.heap[p].emails;
    assert forall i | 0 <= i < |es| :: es[i] in es;
  }

  lemma PersonIsFresh(c: Cache, s: Loading, ls: seq<Ref>, p: Ref)
    requires Inv(c) && Tracks(c, s, ls) && IsPerson(c, p) && p !in ls
    ensures FreshUids(s, PersonUids(PersonRecOf(c.heap, p)))
  {
    var rec := PersonRecOf(c.heap, p);
    var es := c.heap[p].emails;
    var us := PersonUids(rec);
    PersonRecUids(c, p);
    hide Inv, Tracks;
    var all := [p] + es;
    forall i | 0 <= i < |us|
      ensures us[i] == c.heap[all[i]].uid && Object(c, all[i]) && us[i] != "" && us[i] !in s.c.hash
        && FreshUid(s.c, us[i])
    {
      assert us[i] == c.heap[all[i]].uid && Object(c, all[i]);
      assert all[i] !in Done(c, ls) by { OwnersLoaded(c, s, ls, p, all[i]); }
      NotYetHashed(c, s, ls, all[i]);
    }
    forall i, j | 0 <= i < j < |us|
      ensures us[i] != us[j]
    {
      if us[i] == us[j] {
        UidTells(c, all[i], all[j]);
      }
    }
  }

  lemma OwnersLoaded(c: Cache, s: Loading, ls: seq<Ref>, p: Ref, z: Ref)
    requires Inv(c) && Tracks(c, s, ls) && IsPerson(c, p) && p !in ls && (z == p || z in c.heap[p].emails)
    ensures z !in Done(c, ls)
  {
    assert PersonOk(c, p);
  }

  lemma EmailPlace(c: Cache, p: Ref, z: Ref) returns (i: nat)
    requires Inv(c) && IsPerson(c, p) && Owned(c, z) && c.heap[z].parent == Some(p)
    ensures i < |c.heap[p].emails| && c.heap[p].emails[i] == z
  {
    assert EmailOk(c, z);
    i :| 0 <= i < |c.heap[p].emails| && c.heap[p].emails[i] == z;
  }

  lemma PersonMatches(c: Cache, s: Loading, t: Loading, p: Ref, z: Ref)
    requires Inv(c) && Sound(s) && IsPerson(c, p) && FreshUids(s, PersonUids(PersonRecOf(c.heap, p)))
    requires PersonLoaded(s, t, PersonRecOf(c.heap, p)) && (z == p || (Owned(c, z) && c.heap[z].parent == Some(p)))
    ensures Match(c, t, z)
  {
    if z == p {
      PersonMatchesItself(c, s, t, p);
    } else {
      EmailMatches(c, s, t, p, z);
    }
  }

  lemma PersonMatchesItself(c: Cache, s: Loading, t: Loading, p: Ref)
    requires Inv(c) && Sound(s) && IsPerson(c, p) && FreshUids(s, PersonUids(PersonRecOf(c.heap, p)))
    requires PersonLoaded(s, t, PersonRecOf(c.heap, p))
    ensures Match(c, t, p)
  {
    var rec := PersonRecOf(c.heap, p);
    FreshParts(s, rec);
    SoundIsOk(s);
    hide Inv, Sound, LoadOk, PersonLoaded, FreshUids, UnusedUids;
    LoadedRecord(s, t, rec);
    LoadedHash(s, t, rec, rec.uid);
    LoadedHeap(s, t, rec, s.c.top);
  }

  lemma EmailMatches(c: Cache, s: Loading, t: Loading, p: Ref, z: Ref)
    requires Inv(c) && Sound(s) && IsPerson(c, p) && FreshUids(s, PersonUids(PersonRecOf(c.heap, p)))
    requires PersonLoaded(s, t, PersonRecOf(c.heap, p)) && Owned(c, z) && c.heap[z].parent == Some(p)
    ensures Match(c, t, z)
  {
    var rec := PersonRecOf(c.heap, p);
    FreshParts(s, rec);
    SoundIsOk(s);
    var i := EmailPlace(c, p, z);
    hide Inv, Sound, LoadOk, PersonLoaded, FreshUids, UnusedUids;
    assert rec.emails[i].uid == c.heap[z].uid;
    LoadedHash(s, t, rec, rec.uid);
    LoadedHeap(s, t, rec, s.c.top + 1 + i);
  }

  lemma PersonAccounts(c: Cache, s: Loading, t: Loading, ls: seq<Ref>, p: Ref, u: Uid) returns (z: Ref)
    requires Inv(c) && Tracks(c, s, ls) && IsPerson(c, p) && FreshUids(s, PersonUids(PersonRecOf(c.heap, p)))
    requires PersonLoaded(s, t, PersonRecOf(c.heap, p)) && u in t.c.hash
    ensures z in Done(c, ls + [p]) && c.heap[z].uid == u
  {
    var rec := PersonRecOf(c.heap, p);
    FreshParts(s, rec);
    LoadedHash(s, t, rec, u);
    PersonRecUids(c, p);
    if u in s.c.hash {
      assert DoneUid(c, ls, u);
      z :| z in Done(c, ls) && c.heap[z].uid == u;
    } else {
      UidsOfPerson(rec, u);
      z := p;
      if u != rec.uid {
        var i :| 0 <= i < |rec.emails| && rec.emails[i].uid == u;
        z := c.heap[p].emails[i];
        assert PersonOk(c, p) && z in c.heap[p].emails;
      }
    }
  }

  /** One more object, whatever it is. */
  lemma TrackStep(c: Cache, s: Loading, t: Loading, ls: seq<Ref>, x: Ref)
    requires Tracks(c, s, ls) && Sound(t) && Keeps(s, t) && (forall f | f in t.items :: f in t.c.heap)
    requires x in c.heap && x != c.root && !c.heap[x].EMail?
    requires forall z | z in Done(c, ls + [x]) && z !in Done(c, ls) :: Match(c, t, z)
    requires forall u {:trigger DoneUid(c, ls + [x], u)} | u in t.c.hash && u !in s.c.hash :: DoneUid(c, ls + [x], u)
    ensures Tracks(c, t, ls + [x])
  {
    hide Sound;
    DoneGrows(c, ls, x);
    forall z | z in Done(c, ls + [x])
      ensures Match(c, t, z)
    {
      if z in Done(c, ls) {
        MatchKept(c, s, t, z);
      }
    }
    forall u | u in t.c.hash
      ensures DoneUid(c, ls + [x], u)
    {
      if u in s.c.hash {
        assert DoneUid(c, ls, u);
        var z :| z in Done(c, ls) && c.heap[z].uid == u;
        assert z in Done(c, ls + [x]);
      }
    }
  }

  lemma DoneGrows(c: Cache, ls: seq<Ref>, x: Ref)
    ensures Done(c, ls) <= Done(c, ls + [x])
    ensures forall z | z in Done(c, ls + [x]) && z !in Done(c, ls) :: z == x
                                                                      || (Owned(c, z) && c.heap[z].parent == Some(x))
  {
  }

  lemma TrackPerson(c: Cache, s: Loading, ls: seq<Ref>, p: Ref)
    requires Inv(c) && Tracks(c, s, ls) && IsPerson(c, p) && p !in ls
    ensures Tracks(c, LoadPerson(s, PersonRecOf(c.heap, p)), ls + [p])
  {
    hide Inv, Sound, LoadPerson, PersonLoaded, FreshUids, PersonRecOf, Match, Keeps;
    var rec := PersonRecOf(c.heap, p);
    var t := LoadPerson(s, rec);
    PersonIsFresh(c, s, ls, p);
    SoundIsOk(s);
    FreshParts(s, rec);
    LoadPersonIs(s, rec);
    LoadedSound(s, t, rec);
    LoadedKeeps(s, t, rec);
    LoadedTemp(s, t, rec);
    PersonRecUids(c, p);
    DoneGrows(c, ls, p);
    forall u | u in t.c.hash && u !in s.c.hash
      ensures DoneUid(c, ls + [p], u)
    {
      var z := PersonAccounts(c, s, t, ls, p, u);
    }
    forall z | z in Done(c, ls + [p]) && z !in Done(c, ls)
      ensures Match(c, t, z)
    {
      PersonMatches(c, s, t, p, z);
    }
    KeepsHeap(s, t);
    TrackStep(c, s, t, ls, p);
  }

  lemma SoundIsOk(s: Loading)
    requires Sound(s)
    ensures LoadOk(s)
  {
  }

  lemma KeepsHeap(s: Loading, t: Loading)
    requires Keeps(s, t)
    ensures s.c.heap.Keys <= t.c.heap.Keys
  {
  }

  // ---------- a group ----------

  /** The members of a group are found once the persons have been read. */
  lemma MembersAre(c: Cache, s: Loading, ls: seq<Ref>, g: Ref)
    requires Inv(c) && Tracks(c, s, ls) && IsGroup(c, g) && (forall p | IsPerson(c, p) :: p in ls)
    ensures var ms := MemberRecs(c.heap, c.heap[g].members); MembersFound(s.c, ms)
                                                             && MemberRecs(s.c.heap, Found(s.c, ms)) == ms
  {
    var es := c.heap[g].members;
    var ms := MemberRecs(c.heap, es);
    forall i | 0 <= i < |ms|
      ensures es[i] in c.heap && c.heap[es[i]].uid in s.c.hash && Lookup(s.c, ms[i].eid) == Some(To(c, s, es[i]))
      ensures To(c, s, es[i]) in s.c.heap && s.c.heap[To(c, s, es[i])].EMail?
        && MemberRecOf(s.c.heap, To(c, s, es[i])) == ms[i]
    {
      MemberIs(c, s, ls, g, es[i]);
    }
    assert GroupOk(c, g);
    hide Inv, Tracks;
    forall i, j | 0 <= i < j < |ms|
      ensures Lookup(s.c, ms[i].eid) != Lookup(s.c, ms[j].eid)
    {
      assert es[i] in es && es[j] in es;
      if Lookup(s.c, ms[i].eid) == Lookup(s.c, ms[j].eid) {
        assert c.heap[es[i]].uid == c.heap[es[j]].uid;
        UidTells(c, es[i], es[j]);
      }
    }
  }

  lemma MemberIs(c: Cache, s: Loading, ls: seq<Ref>, g: Ref, e: Ref)
    requires Inv(c) && Tracks(c, s, ls) && IsGroup(c, g) && (forall p | IsPerson(c, p) :: p in ls)
      && e in c.heap[g].members
    ensures e in c.heap && c.heap[e].uid in s.c.hash && Lookup(s.c, MemberRecOf(c.heap, e).eid) == Some(To(c, s, e))
      && Object(c, e)
    ensures To(c, s, e) in s.c.heap && s.c.heap[To(c, s, e)].EMail?
      && MemberRecOf(s.c.heap, To(c, s, e)) == MemberRecOf(c.heap, e)
  {
    assert GroupOk(c, g) && EmailOk(c, e);
    var p := c.heap[e].parent.value;
    assert p in ls && e in Done(c, ls) && p in Done(c, ls);
    assert Match(c, s, e) && Match(c, s, p);
    hide Inv;
    assert s.c.heap[To(c, s, e)].uid == c.heap[e].uid && s.c.heap[To(c, s, p)].uid == c.heap[p].uid;
  }

  /** Reading a group or a folder gets done nothing else. */
  lemma OneDone(c: Cache, ls: seq<Ref>, g: Ref)
    requires Inv(c) && (IsGroup(c, g) || IsFolder(c, g))
    ensures Done(c, ls + [g]) == Done(c, ls) + {g}
  {
    NothingInGroups(c, g);
    hide Inv;
    DoneGrows(c, ls, g);
  }

  /** One more group or folder. */
  lemma TrackOne(c: Cache, s: Loading, t: Loading, ls: seq<Ref>, x: Ref)
    requires Tracks(c, s, ls) && Sound(t) && Keeps(s, t) && (forall f | f in t.items :: f in t.c.heap)
    requires x in c.heap && x != c.root && !c.heap[x].EMail? && Match(c, t, x)
    requires Done(c, ls + [x]) == Done(c, ls) + {x} && t.c.hash == s.c.hash[c.heap[x].uid := s.c.top]
    ensures Tracks(c, t, ls + [x])
  {
    hide Sound, Match, Keeps, Tracks, Done;
    TrackStep(c, s, t, ls, x);
  }

  lemma TracksLoaded(c: Cache, s: Loading, ls: seq<Ref>)
    requires Tracks(c, s, ls)
    ensures Sound(s) && LoadOk(s) && s.c.top !in s.c.heap && s.c.top !in s.items
    ensures forall f | f in s.items :: f in s.c.heap
  {
  }

  lemma TrackGroup(c: Cache, s: Loading, ls: seq<Ref>, g: Ref)
    requires Inv(c) && Tracks(c, s, ls) && IsGroup(c, g) && g !in ls && (forall p | IsPerson(c, p) :: p in ls)
    ensures Tracks(c, LoadGroup(s, GroupRecOf(c.heap, g)), ls + [g])
  {
    var rec := GroupRecOf(c.heap, g);
    NotYetHashed(c, s, ls, g);
    RootIsFolder(c);
    TracksLoaded(c, s, ls);
    OneDone(c, ls, g);
    hide Inv, Sound, LoadGroup, Match, Keeps, Tracks, LoadOk, MembersFound, Done;
    MembersAre(c, s, ls, g);
    LoadGroupIs(s, rec);
    JoinedAll(s.c, rec.members);
    WithGroupSound(s, rec);
    var t := LoadGroup(s, rec);
    GroupKeeps(s, rec);
    GroupMatches(c, s, g);
    TrackOne(c, s, t, ls, g);
  }

  lemma NothingInGroups(c: Cache, g: Ref)
    requires Inv(c) && g in c.heap && !c.heap[g].Person?
    ensures forall z | Owned(c, z) :: c.heap[z].parent != Some(g)
  {
    forall z | Owned(c, z)
      ensures c.heap[z].parent != Some(g)
    {
      assert EmailOk(c, z);
    }
  }

  lemma GroupKeeps(s: Loading, g: GroupRec)
    requires LoadOk(s) && g.uid !in s.c.hash
    ensures Keeps(s, WithGroup(s, g, Found(s.c, g.members)))
  {
  }

  lemma GroupMatches(c: Cache, s: Loading, g: Ref)
    requires Sound(s) && IsGroup(c, g)
    requires var ms := MemberRecs(c.heap, c.heap[g].members); MembersFound(s.c, ms)
                                                              && MemberRecs(s.c.heap, Found(s.c, ms)) == ms
    ensures Match(c, WithGroup(s, GroupRecOf(c.heap, g), Found(s.c, MemberRecs(c.heap, c.heap[g].members))), g)
  {
    var rec := GroupRecOf(c.heap, g);
    var fs := Found(s.c, rec.members);
    var t := WithGroup(s, rec, fs);
    forall i | 0 <= i < |fs|
      ensures MemberRecOf(t.c.heap, fs[i]) == MemberRecOf(s.c.heap, fs[i])
    {
      assert Lookup(s.c, rec.members[i].eid) == Some(fs[i]) && s.c.heap[fs[i]].EMail?;
      assert Owned(s.c, fs[i]);
      assert EmailOk(s.c, fs[i]);
    }
    hide Sound;
    assert MemberRecs(t.c.heap, fs) == MemberRecs(s.c.heap, fs);
  }

  // ---------- a folder ----------

  lemma TrackFolder(c: Cache, s: Loading, ls: seq<Ref>, f: Ref)
    requires Inv(c) && Tracks(c, s, ls) && IsFolder(c, f) && f != c.root && f !in ls
    ensures Tracks(c, LoadFolder(s, FolderRecOf(c.heap, f)), ls + [f])
  {
    var rec := FolderRecOf(c.heap, f);
    NotYetHashed(c, s, ls, f);
    OneDone(c, ls, f);
    TracksLoaded(c, s, ls);
    hide Inv, Sound, LoadFolder, Keeps, Tracks, LoadOk, Done, Match;
    LoadFolderIs(s, rec);
    WithFolderSound(s, rec, ItemUids(rec.items));
    FolderKeeps(s, rec, ItemUids(rec.items));
    FolderMatches(c, s, f);
    TrackOne(c, s, LoadFolder(s, rec), ls, f);
  }

  lemma FolderMatches(c: Cache, s: Loading, f: Ref)
    requires Sound(s) && IsFolder(c, f) && s.c.top !in s.items
    ensures Match(c, WithFolder(s, FolderRecOf(c.heap, f), ItemUids(FolderRecOf(c.heap, f).items)), f)
  {
    hide Sound;
  }

  lemma FolderKeeps(s: Loading, f: FolderRec, us: seq<Uid>)
    requires LoadOk(s) && f.uid !in s.c.hash
    ensures Keeps(s, WithFolder(s, f, us))
  {
  }

  // ---------- the whole document ----------

  ghost predicate Sorts(c: Cache, rs: seq<Ref>, k: Kind) {
    NoDup(rs) && forall r | r in rs :: r in c.heap && Is(c.heap[r], k) && r != c.root
  }

  lemma SortsPrefix(c: Cache, rs: seq<Ref>, k: Kind)
    requires Sorts(c, rs, k) && rs != []
    ensures var n := |rs| - 1; Sorts(c, rs[..n], k) && rs[n] in c.heap && Is(c.heap[rs[n]], k) && rs[n] != c.root
                               && rs[n] !in rs[..n]
    ensures rs[..|rs| - 1] + [rs[|rs| - 1]] == rs
  {
    assert forall r | r in rs[..|rs| - 1] :: r in rs;
  }

  lemma {:induction false} TrackPersons(c: Cache, s: Loading, ps: seq<Ref>)
    requires Inv(c) && Tracks(c, s, []) && Sorts(c, ps, PersonKind)
    ensures Tracks(c, LoadPersons(s, PersonRecs(c.heap, ps)), ps)
    decreases |ps|
  {
    hide Inv, Tracks, LoadPerson, PersonRecOf;
    if ps != [] {
      var n := |ps| - 1;
      SortsPrefix(c, ps, PersonKind);
      TrackPersons(c, s, ps[..n]);
      assert PersonRecs(c.heap, ps)[..n] == PersonRecs(c.heap, ps[..n]);
      TrackPerson(c, LoadPersons(s, PersonRecs(c.heap, ps[..n])), ps[..n], ps[n]);
    }
  }

  lemma {:induction false} TrackGroups(c: Cache, s: Loading, ls: seq<Ref>, gs: seq<Ref>)
    requires Inv(c) && Tracks(c, s, ls) && Sorts(c, gs, GroupKind) && (forall p | IsPerson(c, p) :: p in ls)
      && (forall g | g in gs :: g !in ls)
    ensures Tracks(c, LoadGroups(s, GroupRecs(c.heap, gs)), ls + gs)
    decreases |gs|
  {
    hide Inv, Tracks, LoadGroup, GroupRecOf;
    assert ls + [] == ls;
    if gs != [] {
      var n := |gs| - 1;
      SortsPrefix(c, gs, GroupKind);
      TrackGroups(c, s, ls, gs[..n]);
      assert GroupRecs(c.heap, gs)[..n] == GroupRecs(c.heap, gs[..n]);
      assert ls + gs[..n] + [gs[n]] == ls + gs;
      TrackGroup(c, LoadGroups(s, GroupRecs(c.heap, gs[..n])), ls + gs[..n], gs[n]);
    }
  }

  lemma {:induction false} TrackFolders(c: Cache, s: Loading, ls: seq<Ref>, fs: seq<Ref>)
    requires Inv(c) && Tracks(c, s, ls) && Sorts(c, fs, FolderKind) && (forall f | f in fs :: f !in ls)
    ensures Tracks(c, LoadFolders(s, FolderRecs(c.heap, fs)), ls + fs)
    decreases |fs|
  {
    hide Inv, Tracks, LoadFolder, FolderRecOf;
    assert ls + [] == ls;
    if fs != [] {
      var n := |fs| - 1;
      SortsPrefix(c, fs, FolderKind);
      TrackFolders(c, s, ls, fs[..n]);
      assert FolderRecs(c.heap, fs)[..n] == FolderRecs(c.heap, fs[..n]);
      assert ls + fs[..n] + [fs[n]] == ls + fs;
      TrackFolder(c, LoadFolders(s, FolderRecs(c.heap, fs[..n])), ls + fs[..n], fs[n]);
    }
  }

  /** The book as `addrcache_clear` leaves it. */
  function Cleared(root: Ref, nextId: nat, top: Ref, dirty: bool): Loading {
    Loading(Cache(map[root := Folder("", "", None, "", [], [], [])], map[], root, nextId, top, dirty), map[], [])
  }

  lemma ClearedTracks(c: Cache, root: Ref, nextId: nat, top: Ref, dirty: bool)
    requires root < top && nextId >= c.nextId
    ensures Tracks(c, Cleared(root, nextId, top, dirty), [])
  {
    var s := Cleared(root, nextId, top, dirty);
    assert Done(c, []) == {};
  }

  /** All objects but the root and the emails, as they stand in the document. */
  function Listed(c: Cache, order: seq<Uid>): seq<Ref> {
    Visited(c, order, PersonKind) + Visited(c, order, GroupKind) + Visited(c, order, FolderKind)
  }

  lemma VisitedSorts(c: Cache, order: seq<Uid>, k: Kind)
    requires Inv(c) && Traversal(c, order)
    ensures Sorts(c, Visited(c, order, k), k)
    ensures forall r | r in c.heap && r != c.root && Is(c.heap[r], k) :: r in Visited(c, order, k)
  {
    InVisited(c, order, k, c.root);
    forall r
      ensures r in Visited(c, order, k) ==> r in c.heap && Is(c.heap[r], k) && r != c.root
      ensures r in c.heap && r != c.root && Is(c.heap[r], k) ==> r in Visited(c, order, k)
    {
      InVisited(c, order, k, r);
    }
  }

  lemma AllListed(c: Cache, order: seq<Uid>, z: Ref)
    requires Inv(c) && Traversal(c, order) && Object(c, z)
    ensures z in Done(c, Listed(c, order))
  {
    VisitedSorts(c, order, PersonKind);
    VisitedSorts(c, order, GroupKind);
    VisitedSorts(c, order, FolderKind);
    if c.heap[z].EMail? {
      assert EmailOk(c, z);
      var p := c.heap[z].parent.value;
      assert Is(c.heap[p], PersonKind) && p != c.root;
    } else {
      assert Is(c.heap[z], KindOf(c.heap[z]));
    }
  }

  lemma VisitedApart(c: Cache, order: seq<Uid>)
    requires Inv(c) && Traversal(c, order)
    ensures var ps, gs, fs := Visited(c, order, PersonKind), Visited(c, order, GroupKind),
      Visited(c, order, FolderKind);
      && Sorts(c, ps, PersonKind) && Sorts(c, gs, GroupKind) && Sorts(c, fs, FolderKind)
      && (forall p | IsPerson(c, p) :: p in ps) && (forall g | g in gs :: g !in ps)
        && (forall f | f in fs :: f !in ps + gs)
  {
    VisitedSorts(c, order, PersonKind);
    VisitedSorts(c, order, GroupKind);
    VisitedSorts(c, order, FolderKind);
    assert forall p | IsPerson(c, p) :: Is(c.heap[p], PersonKind) && p != c.root;
  }

  lemma TrackDoc(c: Cache, s: Loading, name: string, order: seq<Uid>)
    requires Inv(c) && Traversal(c, order) && Tracks(c, s, [])
    ensures Tracks(c, LoadDoc(s, DocOf(c, name, order)), Listed(c, order))
  {
    hide Inv, Tracks, Visited, LoadPersons, LoadGroups, LoadFolders, Traversal;
    var ps, gs, fs := Visited(c, order, PersonKind), Visited(c, order, GroupKind), Visited(c, order, FolderKind);
    VisitedApart(c, order);
    TrackPersons(c, s, ps);
    var s1 := LoadPersons(s, PersonRecs(c.heap, ps));
    TrackGroups(c, s1, ps, gs);
    var s2 := LoadGroups(s1, GroupRecs(c.heap, gs));
    TrackFolders(c, s2, ps + gs, fs);
  }

  // ---------- from uids back to references ----------

  /** Everything has been loaded. */
  ghost predicate Whole(c: Cache, s: Loading, ls: seq<Ref>) {
    Inv(c) && Tracks(c, s, ls) && forall z | Object(c, z) :: z in Done(c, ls)
  }

  lemma ToFacts(c: Cache, s: Loading, ls: seq<Ref>, z: Ref)
    requires Whole(c, s, ls) && Object(c, z)
    ensures c.heap[z].uid in s.c.hash && Match(c, s, z)
    ensures var y := To(c, s, z);
      && y in s.c.heap && y != s.c.root && s.c.heap[y].uid == c.heap[z].uid
      && (s.c.heap[y].EMail? <==> c.heap[z].EMail?) && (forall k: Kind :: Is(s.c.heap[y], k) <==> Is(c.heap[z], k))
      && Lookup(s.c, c.heap[z].uid) == Some(y)
  {
    assert z in Done(c, ls);
    UidFacts(c, z);
  }

  lemma FromRef(c: Cache, s: Loading, ls: seq<Ref>, r: Ref) returns (z: Ref)
    requires Whole(c, s, ls) && r in s.c.heap && r != s.c.root
    ensures Object(c, z) && c.heap[z].uid in s.c.hash && To(c, s, z) == r
  {
    assert DoneUid(c, ls, s.c.heap[r].uid);
    z :| z in Done(c, ls) && c.heap[z].uid == s.c.heap[r].uid;
  }

  lemma ToTells(c: Cache, s: Loading, ls: seq<Ref>, x: Ref, y: Ref)
    requires Whole(c, s, ls) && Object(c, x) && Object(c, y)
    requires c.heap[x].uid in s.c.hash && c.heap[y].uid in s.c.hash && To(c, s, x) == To(c, s, y)
    ensures x == y
  {
    ToFacts(c, s, ls, x);
    ToFacts(c, s, ls, y);
    UidTells(c, x, y);
  }

  /** What a folder's items stand for. */
  function Contents(c: Cache, f: Ref): seq<Ref>
    requires IsFolder(c, f)
  {
    c.heap[f].persons + c.heap[f].groups + c.heap[f].folders
  }

  lemma ContentsAre(c: Cache, f: Ref)
    requires Inv(c) && IsFolder(c, f)
    ensures NoDup(Contents(c, f)) && |FolderUids(c, f)| == |Contents(c, f)|
    ensures forall i | 0 <= i < |Contents(c, f)| :: Object(c, Contents(c, f)[i])
                                                    && FolderUids(c, f)[i] == c.heap[Contents(c, f)[i]].uid
    ensures forall z :: z in Contents(c, f) <==> Object(c, z) && !c.heap[z].EMail? && c.heap[z].parent == Some(f)
  {
    var i := c.heap[f];
    assert ListOk(c.heap, f, PersonKind) && ListOk(c.heap, f, GroupKind) && ListOk(c.heap, f, FolderKind);
    assert i.persons == ListOf(i, PersonKind) && i.groups == ListOf(i, GroupKind) && i.folders == ListOf(i, FolderKind);
    NoDupConcat(i.persons, i.groups);
    NoDupConcat(i.persons + i.groups, i.folders);
    forall z
      ensures z in Contents(c, f) <==> Object(c, z) && !c.heap[z].EMail? && c.heap[z].parent == Some(f)
    {
      if Object(c, z) && !c.heap[z].EMail? && c.heap[z].parent == Some(f) {
        assert PlacedAt(c, z);
      }
    }
    hide Inv;
    forall n | 0 <= n < |Contents(c, f)|
      ensures Object(c, Contents(c, f)[n]) && FolderUids(c, f)[n] == c.heap[Contents(c, f)[n]].uid
    {
      assert Contents(c, f)[n] in Contents(c, f);
    }
  }

  /** The loading book's folder names what the folder holds. */
  lemma NamesAre(c: Cache, s: Loading, ls: seq<Ref>, f: Ref, i: nat)
    requires Whole(c, s, ls) && IsFolder(c, f) && f != c.root
    ensures c.heap[f].uid in s.c.hash
    ensures var us := ItemsOf(s, To(c, s, f));
      && |us| == |Contents(c, f)|
      && (i < |us| ==> var z := Contents(c, f)[i]; Object(c, z) && c.heap[z].uid in s.c.hash
                                                   && Lookup(s.c, us[i]) == Some(To(c, s, z)))
  {
    ToFacts(c, s, ls, f);
    ContentsAre(c, f);
    if i < |Contents(c, f)| {
      ToFacts(c, s, ls, Contents(c, f)[i]);
    }
  }

  /** An object is named by the folder that holds it and by no other. */
  lemma NamedWhere(c: Cache, s: Loading, ls: seq<Ref>, f: Ref, z: Ref)
    requires Whole(c, s, ls) && IsFolder(c, f) && f != c.root && Object(c, z) && !c.heap[z].EMail?
    ensures c.heap[f].uid in s.c.hash && c.heap[z].uid in s.c.hash
    ensures NamedIn(s.c, ItemsOf(s, To(c, s, f)), To(c, s, z)) <==> c.heap[z].parent == Some(f)
  {
    ToFacts(c, s, ls, f);
    ToFacts(c, s, ls, z);
    ContentsAre(c, f);
    NamesAre(c, s, ls, f, 0);
    var us := ItemsOf(s, To(c, s, f));
    var y := To(c, s, z);
    if c.heap[z].parent == Some(f) {
      var i :| 0 <= i < |Contents(c, f)| && Contents(c, f)[i] == z;
      NamesAre(c, s, ls, f, i);
    }
    if NamedIn(s.c, us, y) {
      var i :| 0 <= i < |us| && Lookup(s.c, us[i]) == Some(y);
      NamesAre(c, s, ls, f, i);
      ToTells(c, s, ls, Contents(c, f)[i], z);
      assert Contents(c, f)[i] in Contents(c, f);
    }
  }

  lemma OnceNamed(c: Cache, s: Loading, ls: seq<Ref>, f: Ref, g: Ref, i: nat, j: nat, r: Ref)
    requires Whole(c, s, ls) && Names(s, f, i, r) && Names(s, g, j, r)
    ensures f == g && i == j
  {
    TempFolder(s, f);
    TempFolder(s, g);
    var x := FromRef(c, s, ls, f);
    var y := FromRef(c, s, ls, g);
    ToFacts(c, s, ls, x);
    ToFacts(c, s, ls, y);
    assert Is(c.heap[x], FolderKind) && Is(c.heap[y], FolderKind);
    NamesAre(c, s, ls, x, i);
    NamesAre(c, s, ls, y, j);
    ContentsAre(c, x);
    ContentsAre(c, y);
    ToTells(c, s, ls, Contents(c, x)[i], Contents(c, y)[j]);
    hide Whole, Match;
    assert Contents(c, x)[i] in Contents(c, x) && Contents(c, y)[j] in Contents(c, y);
    assert x == y;
  }

  lemma TempFolder(s: Loading, f: Ref)
    requires f in s.temp && Sound(s)
    ensures IsFolder(s.c, f) && f != s.c.root && Is(s.c.heap[f], FolderKind)
  {
  }

  /** Going up by names in what was loaded is going up in the book. */
  lemma NamerWas(c: Cache, s: Loading, ls: seq<Ref>, z: Ref)
    requires Whole(c, s, ls) && Object(c, z)
    ensures c.heap[z].uid in s.c.hash
    ensures match Namer(s, To(c, s, z))
      case Some(y) => c.heap[z].parent.Some? && !c.heap[z].EMail? &&
        var f := c.heap[z].parent.value; IsFolder(c, f) && f != c.root && c.heap[f].uid in s.c.hash && y == To(c, s, f)
      case None => !c.heap[z].EMail? ==> c.heap[z].parent == Some(c.root)
  {
    ToFacts(c, s, ls, z);
    var r := To(c, s, z);
    LastNamerIs(s, s.temp, r);
    if Namer(s, r).Some? {
      var y := Namer(s, r).value;
      TempFolder(s, y);
      var f := FromRef(c, s, ls, y);
      ToFacts(c, s, ls, f);
      assert Is(c.heap[f], FolderKind);
      NamedWhere(c, s, ls, f, z);
    } else if !c.heap[z].EMail? {
      assert PlacedAt(c, z);
      assert c.heap[z].parent.value == c.root by {
        if c.heap[z].parent.value != c.root {
          HeldIsNamed(c, s, ls, z);
        }
      }
    }
  }

  lemma HeldIsNamed(c: Cache, s: Loading, ls: seq<Ref>, z: Ref)
    requires Whole(c, s, ls) && Object(c, z) && PlacedAt(c, z) && c.heap[z].parent != Some(c.root)
    ensures c.heap[z].uid in s.c.hash && Namer(s, To(c, s, z)).Some?
  {
    var f := c.heap[z].parent.value;
    ToFacts(c, s, ls, f);
    ToFacts(c, s, ls, z);
    NamedWhere(c, s, ls, f, z);
    assert Is(s.c.heap[To(c, s, f)], FolderKind);
    LastNamerIs(s, s.temp, To(c, s, z));
  }

  lemma StepWas(c: Cache, s: Loading, ls: seq<Ref>, z: Ref)
    requires Whole(c, s, ls) && Object(c, z) && c.heap[z].uid in s.c.hash && To(c, s, z) in NamedHeap(s)
    requires NamedHeap(s)[To(c, s, z)].parent.Some?
    ensures c.heap[z].parent.Some?
    ensures var f := c.heap[z].parent.value;
      z in c.heap && Object(c, f) && c.heap[f].uid in s.c.hash && NamedHeap(s)[To(c, s, z)].parent == Some(To(c, s, f))
  {
    NamerWas(c, s, ls, z);
  }

  lemma {:induction false} ClimbWas(c: Cache, s: Loading, ls: seq<Ref>, z: Ref, n: nat) returns (w: Ref)
    requires Whole(c, s, ls) && Object(c, z) && c.heap[z].uid in s.c.hash && Climb(NamedHeap(s), To(c, s, z), n).Some?
    ensures Object(c, w) && c.heap[w].uid in s.c.hash && Climb(NamedHeap(s), To(c, s, z), n) == Some(To(c, s, w))
      && Climb(c.heap, z, n) == Some(w)
    decreases n
  {
    hide Whole, NamedHeap;
    w := z;
    if n > 0 {
      StepWas(c, s, ls, z);
      w := ClimbWas(c, s, ls, c.heap[z].parent.value, n - 1);
    }
  }

  lemma WholeIsAcyclic(c: Cache, s: Loading, ls: seq<Ref>)
    requires Whole(c, s, ls)
    ensures NamedOnce(s) && Acyclic(s)
  {
    forall f, g, i: nat, j: nat, r | Names(s, f, i, r) && Names(s, g, j, r)
      ensures f == g && i == j
    {
      OnceNamed(c, s, ls, f, g, i, j, r);
    }
    forall r, n: nat | r in s.c.heap && n > 0
      ensures Climb(NamedHeap(s), r, n) != Some(r)
    {
      if Climb(NamedHeap(s), r, n) == Some(r) {
        NamedAt(s, r);
        assert NamedHeap(s)[r].parent.Some?;
        var z := FromRef(c, s, ls, r);
        var w := ClimbWas(c, s, ls, z, n);
        ToTells(c, s, ls, w, z);
        NoCycle(c, z, n);
      }
    }
  }

  // ---------- the same book ----------

  /** The object of the same uid in the other book says the same: a person with all its emails and
      attributes, a group with its members in order, a folder with its lists in order; and it lies
      in the folder of the same uid, where the root counts as the one without. */
  ghost predicate SameObject(c: Cache, d: Cache, z: Ref) {
    && z in c.heap && c.heap[z].uid in d.hash && d.hash[c.heap[z].uid] in d.heap
    && var i := c.heap[z]; var y := d.hash[c.heap[z].uid]; var j := d.heap[y];
    && i.parent.Some? && j.parent.Some? && UidOf(d.heap, j.parent.value) == UidOf(c.heap, i.parent.value)
    && match i
       case Person(_, _, _, _, _, _, _, _) => j.Person? && PersonRecOf(d.heap, y) == Stripped(PersonRecOf(c.heap, z))
       case Group(_, _, _, _, _) => j.Group? && GroupRecOf(d.heap, y) == GroupRecOf(c.heap, z)
       case Folder(_, _, _, _, _, _, _) => j.Folder? && FolderRecOf(d.heap, y) == FolderRecOf(c.heap, z)
       case EMail(_, _, _, _, _) => j.EMail?
  }

  ghost predicate SameBook(c: Cache, d: Cache) {
    && IsFolder(c, c.root) && IsFolder(d, d.root)
    && (forall z {:trigger SameObject(c, d, z)} | Object(c, z) :: SameObject(c, d, z))
    && (forall u {:trigger u in d.hash} | u in d.hash :: exists z :: Object(c, z) && c.heap[z].uid == u)
    && (forall k: Kind ::
      Elems(Uids(d.heap, ListOf(d.heap[d.root], k))) == Elems(Uids(c.heap, ListOf(c.heap[c.root], k))))
  }

  function Tos(c: Cache, s: Loading, rs: seq<Ref>): (r: seq<Ref>)
    ensures |r| == |rs|
  {
    seq(|rs|, i requires 0 <= i < |rs| => if rs[i] in c.heap
      && c.heap[rs[i]].uid in s.c.hash then To(c, s, rs[i]) else 0)
  }

  lemma {:induction false} KidsConcat(c: Cache, a: seq<Uid>, b: seq<Uid>, k: Kind)
    ensures Kids(c, a + b, k) == Kids(c, a, k) + Kids(c, b, k)
  {
    if a == [] {
      assert a + b == b;
    } else {
      assert (a + b)[1..] == a[1..] + b;
      KidsConcat(c, a[1..], b, k);
    }
  }

  lemma {:induction false} KidsSame(c: Cache, s: Loading, ls: seq<Ref>, rs: seq<Ref>, j: Kind, k: Kind)
    requires Whole(c, s, ls) && forall r | r in rs :: Object(c, r) && Is(c.heap[r], j)
    ensures Kids(s.c, Uids(c.heap, rs), k) == if j == k then Tos(c, s, rs) else []
  {
    hide Whole, Match;
    if rs != [] {
      var us := Uids(c.heap, rs);
      assert rs[0] in rs;
      ToFacts(c, s, ls, rs[0]);
      assert us[1..] == Uids(c.heap, rs[1..]);
      assert Tos(c, s, rs) == [To(c, s, rs[0])] + Tos(c, s, rs[1..]);
      KidsSame(c, s, ls, rs[1..], j, k);
    }
  }

  lemma FolderUidsParts(c: Cache, f: Ref)
    requires IsFolder(c, f)
    ensures FolderUids(c, f) == Uids(c.heap, c.heap[f].persons) + Uids(c.heap, c.heap[f].groups) + Uids(c.heap,
      c.heap[f].folders)
  {
  }

  lemma ListComes(c: Cache, s: Loading, ls: seq<Ref>, order: seq<Uid>, f: Ref, k: Kind)
    requires Whole(c, s, ls) && IsFolder(c, f) && f != c.root
    ensures c.heap[f].uid in s.c.hash && IsFolder(Resolved(s, order), To(c, s, f))
    ensures ListOf(Resolved(s, order).heap[To(c, s, f)], k) == Kids(s.c, FolderUids(c, f), k)
    ensures forall r | r in c.heap[f].persons :: Object(c, r) && Is(c.heap[r], PersonKind)
    ensures forall r | r in c.heap[f].groups :: Object(c, r) && Is(c.heap[r], GroupKind)
    ensures forall r | r in c.heap[f].folders :: Object(c, r) && Is(c.heap[r], FolderKind)
  {
    ToFacts(c, s, ls, f);
    var y := To(c, s, f);
    assert Is(s.c.heap[y], FolderKind);
    ResolvedList(s, order, y, k);
    ListedKinds(c, f);
    hide Resolved, Kids;
  }

  lemma ListSame(c: Cache, s: Loading, ls: seq<Ref>, order: seq<Uid>, f: Ref, k: Kind)
    requires Whole(c, s, ls) && IsFolder(c, f) && f != c.root
    ensures c.heap[f].uid in s.c.hash && IsFolder(Resolved(s, order), To(c, s, f))
    ensures ListOf(Resolved(s, order).heap[To(c, s, f)], k) == Tos(c, s, ListOf(c.heap[f], k))
  {
    hide Whole, Resolved, Kids, Tos;
    ListComes(c, s, ls, order, f, k);
    FolderUidsParts(c, f);
    var i := c.heap[f];
    KidsSame(c, s, ls, i.persons, PersonKind, k);
    KidsSame(c, s, ls, i.groups, GroupKind, k);
    KidsSame(c, s, ls, i.folders, FolderKind, k);
    KidsConcat(s.c, Uids(c.heap, i.persons), Uids(c.heap, i.groups), k);
    KidsConcat(s.c, Uids(c.heap, i.persons) + Uids(c.heap, i.groups), Uids(c.heap, i.folders), k);
  }

  lemma ListedKinds(c: Cache, f: Ref)
    requires Inv(c) && IsFolder(c, f)
    ensures forall r | r in c.heap[f].persons :: Object(c, r) && Is(c.heap[r], PersonKind)
    ensures forall r | r in c.heap[f].groups :: Object(c, r) && Is(c.heap[r], GroupKind)
    ensures forall r | r in c.heap[f].folders :: Object(c, r) && Is(c.heap[r], FolderKind)
  {
    assert ListOk(c.heap, f, PersonKind) && ListOk(c.heap, f, GroupKind) && ListOk(c.heap, f, FolderKind);
    assert c.heap[f].persons == ListOf(c.heap[f], PersonKind) && c.heap[f].groups == ListOf(c.heap[f], GroupKind);
    assert c.heap[f].folders == ListOf(c.heap[f], FolderKind);
  }

  lemma ItemsSame(c: Cache, s: Loading, ls: seq<Ref>, order: seq<Uid>, k: Kind, rs: seq<Ref>)
    requires Whole(c, s, ls) && forall r | r in rs :: Object(c, r)
    ensures ItemRecs(Resolved(s, order).heap, k, Tos(c, s, rs)) == ItemRecs(c.heap, k, rs)
  {
    var d := Resolved(s, order);
    forall i | 0 <= i < |rs|
      ensures UidOf(d.heap, Tos(c, s, rs)[i]) == UidOf(c.heap, rs[i])
    {
      assert rs[i] in rs;
      ToFacts(c, s, ls, rs[i]);
      ResolvedAt(s, order, To(c, s, rs[i]));
    }
  }

  lemma FolderSame(c: Cache, s: Loading, ls: seq<Ref>, order: seq<Uid>, f: Ref)
    requires Whole(c, s, ls) && IsFolder(c, f) && f != c.root
    ensures c.heap[f].uid in s.c.hash && IsFolder(Resolved(s, order), To(c, s, f))
    ensures FolderRecOf(Resolved(s, order).heap, To(c, s, f)) == FolderRecOf(c.heap, f)
  {
    ListSame(c, s, ls, order, f, PersonKind);
    ListSame(c, s, ls, order, f, GroupKind);
    ListSame(c, s, ls, order, f, FolderKind);
    ListedKinds(c, f);
    var i := c.heap[f];
    ItemsSame(c, s, ls, order, PersonKind, i.persons);
    ItemsSame(c, s, ls, order, GroupKind, i.groups);
    ItemsSame(c, s, ls, order, FolderKind, i.folders);
    ToFacts(c, s, ls, f);
  }

  lemma PersonStays(s: Loading, order: seq<Uid>, p: Ref)
    requires Sound(s) && IsPerson(s.c, p)
    ensures IsPerson(Resolved(s, order), p) && PersonRecOf(Resolved(s, order).heap, p) == PersonRecOf(s.c.heap, p)
  {
    var d := Resolved(s, order);
    var es := s.c.heap[p].emails;
    assert PersonOk(s.c, p);
    assert p != s.c.root;
    forall i | 0 <= i < |es|
      ensures EmailRecOf(d.heap, es[i]) == EmailRecOf(s.c.heap, es[i])
    {
      assert es[i] in es;
    }
    assert EmailRecs(d.heap, es) == EmailRecs(s.c.heap, es);
  }

  lemma GroupStays(s: Loading, order: seq<Uid>, g: Ref)
    requires Sound(s) && IsGroup(s.c, g)
    ensures IsGroup(Resolved(s, order), g) && GroupRecOf(Resolved(s, order).heap, g) == GroupRecOf(s.c.heap, g)
  {
    var d := Resolved(s, order);
    var es := s.c.heap[g].members;
    assert GroupOk(s.c, g);
    forall i | 0 <= i < |es|
      ensures MemberRecOf(d.heap, es[i]) == MemberRecOf(s.c.heap, es[i])
    {
      assert es[i] in es && Owned(s.c, es[i]) && EmailOk(s.c, es[i]);
      ResolvedAt(s, order, es[i]);
      ResolvedAt(s, order, s.c.heap[es[i]].parent.value);
    }
    assert MemberRecs(d.heap, es) == MemberRecs(s.c.heap, es);
  }

  lemma ParentSame(c: Cache, s: Loading, ls: seq<Ref>, order: seq<Uid>, z: Ref)
    requires Whole(c, s, ls) && Object(c, z)
    ensures c.heap[z].uid in s.c.hash && To(c, s, z) in Resolved(s, order).heap
    ensures var d := Resolved(s, order); var j := d.heap[To(c, s, z)];
      c.heap[z].parent.Some? && j.parent.Some? && UidOf(d.heap, j.parent.value) == UidOf(c.heap, c.heap[z].parent.value)
  {
    ToFacts(c, s, ls, z);
    NamerWas(c, s, ls, z);
    var y := To(c, s, z);
    ResolvedAt(s, order, y);
    ResolvedAt(s, order, s.c.root);
    if c.heap[z].EMail? {
      assert Owned(c, z) && EmailOk(c, z);
      var p := c.heap[z].parent.value;
      ToFacts(c, s, ls, p);
      ResolvedAt(s, order, To(c, s, p));
    } else if Namer(s, y).Some? {
      var f := c.heap[z].parent.value;
      ToFacts(c, s, ls, f);
      ResolvedAt(s, order, To(c, s, f));
    }
  }

  lemma ObjectSame(c: Cache, s: Loading, ls: seq<Ref>, order: seq<Uid>, z: Ref)
    requires Whole(c, s, ls) && Object(c, z)
    ensures SameObject(c, Resolved(s, order), z)
  {
    ParentSame(c, s, ls, order, z);
    ToFacts(c, s, ls, z);
    var y := To(c, s, z);
    ResolvedAt(s, order, y);
    hide Resolved;
    match c.heap[z]
    case Person(_, _, _, _, _, _, _, _) => PersonStays(s, order, y);
    case Group(_, _, _, _, _) => GroupStays(s, order, y);
    case Folder(_, _, _, _, _, _, _) => FolderSame(c, s, ls, order, z);
    case EMail(_, _, _, _, _) =>
  }

  lemma InUids(h: map<Ref, Item>, rs: seq<Ref>, u: Uid)
    ensures u in Uids(h, rs) <==> exists r :: r in rs && UidOf(h, r) == u
  {
    var us := Uids(h, rs);
    if r :| r in rs && UidOf(h, r) == u {
      var i :| 0 <= i < |rs| && rs[i] == r;
      assert us[i] == u;
    }
    if u in us {
      var i :| 0 <= i < |us| && us[i] == u;
      assert rs[i] in rs;
    }
  }

  lemma RootHolds(c: Cache, k: Kind, z: Ref)
    requires Inv(c)
    ensures IsFolder(c, c.root)
    ensures z in ListOf(c.heap[c.root], k) <==> Object(c, z) && Is(c.heap[z], k) && c.heap[z].parent == Some(c.root)
  {
    assert ListOk(c.heap, c.root, k);
    if Object(c, z) && Is(c.heap[z], k) && c.heap[z].parent == Some(c.root) {
      assert PlacedAt(c, z);
    }
  }

  lemma RootFolders(c: Cache, s: Loading, order: seq<Uid>)
    requires Inv(c) && Sound(s)
    ensures IsFolder(c, c.root) && IsFolder(Resolved(s, order), Resolved(s, order).root)
      && Resolved(s, order).root == s.c.root && IsFolder(s.c, s.c.root)
  {
    ResolvedAt(s, order, s.c.root);
    assert Is(s.c.heap[s.c.root], FolderKind);
    assert Is(Resolved(s, order).heap[s.c.root], FolderKind);
  }

  lemma WholeParts(c: Cache, s: Loading, ls: seq<Ref>)
    requires Whole(c, s, ls)
    ensures Inv(c) && Sound(s)
  {
  }

  /** What the root holds comes to lie in the new root. */
  lemma RootArrives(c: Cache, s: Loading, ls: seq<Ref>, order: seq<Uid>, k: Kind, z: Ref) returns (r: Ref)
    requires Whole(c, s, ls) && Traversal(s.c, order) && IsFolder(c, c.root) && IsFolder(Resolved(s, order), s.c.root)
    requires z in ListOf(c.heap[c.root], k)
    ensures r in ListOf(Resolved(s, order).heap[s.c.root], k) && UidOf(Resolved(s, order).heap, r) == UidOf(c.heap, z)
  {
    hide Inv, Resolved, Whole, Match, Sound, Namer;
    WholeParts(c, s, ls);
    RootFolders(c, s, order);
    RootHolds(c, k, z);
    ToFacts(c, s, ls, z);
    r := To(c, s, z);
    NamerWas(c, s, ls, z);
    ResolvedHolds(s, order, s.c.root, k, r);
    ResolvedAt(s, order, r);
  }

  /** And nothing else does. */
  lemma RootCame(c: Cache, s: Loading, ls: seq<Ref>, order: seq<Uid>, k: Kind, r: Ref) returns (z: Ref)
    requires Whole(c, s, ls) && Traversal(s.c, order) && IsFolder(c, c.root) && IsFolder(Resolved(s, order), s.c.root)
    requires r in ListOf(Resolved(s, order).heap[s.c.root], k)
    ensures z in ListOf(c.heap[c.root], k) && UidOf(c.heap, z) == UidOf(Resolved(s, order).heap, r)
  {
    hide Inv, Resolved, Whole, Match, Sound, Namer;
    WholeParts(c, s, ls);
    RootFolders(c, s, order);
    ResolvedHolds(s, order, s.c.root, k, r);
    ResolvedAt(s, order, r);
    z := FromRef(c, s, ls, r);
    ToFacts(c, s, ls, z);
    NamerWas(c, s, ls, z);
    RootHolds(c, k, z);
  }

  /** The root's lists hold the same objects, in whatever order. */
  lemma RootSame(c: Cache, s: Loading, ls: seq<Ref>, order: seq<Uid>, k: Kind)
    requires Whole(c, s, ls) && Traversal(s.c, order)
    ensures var d := Resolved(s, order);
      && IsFolder(c, c.root) && IsFolder(d, d.root)
      && Elems(Uids(d.heap, ListOf(d.heap[d.root], k))) == Elems(Uids(c.heap, ListOf(c.heap[c.root], k)))
  {
    hide Inv, Resolved, Whole, Sound, ListOf, Uids;
    WholeParts(c, s, ls);
    RootFolders(c, s, order);
    var d := Resolved(s, order);
    var mine, theirs := ListOf(c.heap[c.root], k), ListOf(d.heap[d.root], k);
    forall u
      ensures u in Uids(d.heap, theirs) <==> u in Uids(c.heap, mine)
    {
      InUids(c.heap, mine, u);
      InUids(d.heap, theirs, u);
      if u in Uids(c.heap, mine) {
        var z :| z in mine && UidOf(c.heap, z) == u;
        var r := RootArrives(c, s, ls, order, k, z);
      }
      if u in Uids(d.heap, theirs) {
        var r :| r in theirs && UidOf(d.heap, r) == u;
        var z := RootCame(c, s, ls, order, k, r);
      }
    }
  }

  lemma WholeIsSame(c: Cache, s: Loading, ls: seq<Ref>, order: seq<Uid>)
    requires Whole(c, s, ls) && Traversal(s.c, order)
    ensures Inv(Resolved(s, order)) && SameBook(c, Resolved(s, order))
  {
    WholeIsAcyclic(c, s, ls);
    ResolvedInv(s, order);
    var d := Resolved(s, order);
    forall u | u in d.hash
      ensures exists z :: Object(c, z) && c.heap[z].uid == u
    {
      var z := FromRef(c, s, ls, s.c.hash[u]);
      ToFacts(c, s, ls, z);
    }
    RootSame(c, s, ls, order, PersonKind);
    hide Whole, Resolved, SameObject, Traversal, NamedOnce, Acyclic;
    forall z | Object(c, z)
      ensures SameObject(c, d, z)
    {
      ObjectSame(c, s, ls, order, z);
    }
    forall k: Kind
      ensures Elems(Uids(d.heap, ListOf(d.heap[d.root], k))) == Elems(Uids(c.heap, ListOf(c.heap[c.root], k)))
    {
      RootSame(c, s, ls, order, k);
    }
  }

  /** Save and load: whatever book in agreement is written, in whatever order its hash table is
      traversed, is read back without an error as the same book, in agreement again. */
  lemma SaveLoad(c: Cache, name: string, order: seq<Uid>, root: Ref, nextId: nat, top: Ref, dirty: bool,
      again: seq<Uid>)
    requires Inv(c) && Traversal(c, order) && root < top && nextId >= c.nextId
    requires Traversal(ReadTree(true, DocTokens(DocOf(c, name, order)), Cleared(root, nextId, top, dirty)).s.c, again)
    ensures var t := ReadTree(true, DocTokens(DocOf(c, name, order)), Cleared(root, nextId, top, dirty));
      && t.outcome == Success && t.name == Some(Strip(name))
      && Inv(Resolved(t.s, again)) && SameBook(c, Resolved(t.s, again))
  {
    var s0 := Cleared(root, nextId, top, dirty);
    var doc := DocOf(c, name, order);
    hide Inv, Tracks, SameBook, Resolved, ReadTree, DocTokens;
    ReadWritten(doc, s0);
    var s1 := Cleared(root, nextId, top, true);
    ClearedTracks(c, root, nextId, top, true);
    TrackDoc(c, s1, name, order);
    var s := LoadDoc(s1, doc);
    forall z | Object(c, z)
      ensures z in Done(c, Listed(c, order))
    {
      AllListed(c, order, z);
    }
    WholeIsSame(c, s, Listed(c, order), again);
  }
}
