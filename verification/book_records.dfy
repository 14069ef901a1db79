/** The records that a resolved book gives, when it was read from a file in which no uid is used
    twice (src/addrbook.c:791-907, 1029-1256). */
module BookRecords {
  import opened Items
  import opened CacheState
  import opened BookDoc
  import opened BookParse
  import opened BookResolve
  import opened BookRound
  import opened BookUnique

  // ---------- objects ----------

  /** What the resolution leaves of an object as it is. */
  lemma ResolvedIs(s: Loading, d: Doc, order: seq<Uid>, z: Ref)
    requires Got(s, d) && z in s.c.heap
    ensures var e := Resolved(s, order); e.hash == s.c.hash && e.root == s.c.root && e.heap.Keys == s.c.heap.Keys
    ensures var i, j := s.c.heap[z], Resolved(s, order).heap[z];
      && j.uid == i.uid && (j.EMail? <==> i.EMail?) && (forall k: Kind :: Is(j, k) <==> Is(i, k))
      && (i.EMail? ==> j == i)
      && (i.Person? || i.Group? ==> j == WithParent(i, Home(s, z)))
      && (i.Folder? && z != s.c.root ==> j.name == i.name && j.remarks == i.remarks && j.parent == Home(s, z))
      && (i.Folder? && z == s.c.root ==> j.parent == i.parent)
  {
    FolderIsQueued(s, z);
    hide LoadOk, Home;
  }

  lemma FolderIsQueued(s: Loading, z: Ref)
    requires LoadOk(s) && AllHashed(s) && z in s.c.heap
    ensures s.c.heap[z].Folder? && z != s.c.root ==> z in s.temp
    ensures !s.c.heap[z].Folder? ==> z != s.c.root
    ensures z != s.c.root ==> s.c.heap[z].uid in s.c.hash && s.c.hash[s.c.heap[z].uid] == z
    ensures IsFolder(s.c, s.c.root)
  {
  }

  lemma ResolvedLists(s: Loading, d: Doc, order: seq<Uid>, f: FolderRec, k: Kind)
    requires Got(s, d) && f in d.folders
    ensures f.uid in s.c.hash && IsFolder(Resolved(s, order), s.c.hash[f.uid])
    ensures var i := Resolved(s, order).heap[s.c.hash[f.uid]];
      && i.uid == f.uid && i.name == f.name && i.remarks == f.remarks
      && ListOf(i, k) == Kids(s.c, ItemUids(f.items), k)
  {
    assert FolderAt(s, f);
    var y := s.c.hash[f.uid];
    KindLeads(s, d, f.uid);
    FolderIsQueued(s, y);
    hide LoadOk, Home, Got, AllHashed;
    var us := ItemUids(f.items);
    assert [] + Kids(s.c, us, k) == Kids(s.c, us, k);
  }

  // ---------- persons ----------

  /** A person comes back as it stands, but for the white space around attribute text. */
  lemma PersonBack(s: Loading, d: Doc, order: seq<Uid>, p: PersonRec)
    requires Got(s, d) && p in d.persons
    ensures p.uid in s.c.hash && IsPerson(Resolved(s, order), s.c.hash[p.uid])
    ensures PersonRecOf(Resolved(s, order).heap, s.c.hash[p.uid]) == Stripped(p)
  {
    hide Resolved, LoadOk, AllHashed, Home;
    assert PersonAt(s, p);
    var y := s.c.hash[p.uid];
    var es := s.c.heap[y].emails;
    var h := Resolved(s, order).heap;
    ResolvedIs(s, d, order, y);
    assert Is(s.c.heap[y], PersonKind);
    forall i: nat | i < |es|
      ensures EmailRecOf(h, es[i]) == p.emails[i]
    {
      assert EmailAt(s, p, y, es, i);
      ResolvedIs(s, d, order, es[i]);
    }
    assert EmailRecs(h, es) == p.emails;
  }

  /** An address comes back as a member under its own uid and that of its person. */
  lemma AddressBack(s: Loading, d: Doc, order: seq<Uid>, p: PersonRec, u: Uid)
    requires Got(s, d) && p in d.persons && Bears(p, u)
    ensures u in s.c.hash && s.c.hash[u] in s.c.heap && s.c.heap[s.c.hash[u]].EMail?
    ensures var h := Resolved(s, order).heap; var x := s.c.hash[u];
      && UidOf(h, x) == u && MemberRecOf(h, x) == MemberRec(p.uid, u)
      && x in h && h[x].EMail? && h[x].parent.Some? && UidOf(h, h[x].parent.value) == p.uid
  {
    HashLeads(s);
    hide Resolved, LoadOk, AllHashed, Home;
    assert PersonAt(s, p);
    PersonLeads(s, p);
    var x := s.c.hash[u];
    ResolvedIs(s, d, order, x);
    ResolvedIs(s, d, order, s.c.hash[p.uid]);
  }

  // ---------- groups ----------

  lemma {:induction false} JoinedFacts(c: Cache, ms: seq<MemberRec>)
    ensures NoDup(Joined(c, ms)) && |Joined(c, ms)| <= |ms|
    ensures forall x | x in Joined(c, ms) :: exists m :: m in ms && EmailFor(c, m.eid) == Some(x)
    decreases |ms|
  {
    if ms != [] {
      var n := |ms| - 1;
      JoinedFacts(c, ms[..n]);
      var es, e := Joined(c, ms[..n]), EmailFor(c, ms[n].eid);
      assert forall m | m in ms[..n] :: m in ms;
      if e.Some? && e.value !in es {
        NoDupAppend(es, e.value);
        assert ms[n] in ms;
      }
    }
  }

  /** The uids of the members that are found, each once. */
  function Kept(us: set<Uid>, ms: seq<MemberRec>): seq<Uid> {
    if ms == [] then []
    else
      var n := |ms| - 1;
      var r, u := Kept(us, ms[..n]), ms[n].eid;
      if u in us && u !in r then r + [u] else r
  }

  /** The uids that members are found by. */
  ghost function AddressSet(d: Doc): set<Uid> {
    set u | u in FileUids(d) && u != "" && IsAddress(d, u)
  }

  lemma InAddressSet(d: Doc, u: Uid)
    ensures u in AddressSet(d) <==> u != "" && IsAddress(d, u)
  {
    InFileUids(d, u);
  }

  lemma EmailForIs(s: Loading, d: Doc, u: Uid)
    requires Got(s, d)
    ensures EmailFor(s.c, u) == if u in AddressSet(d) && u in s.c.hash then Some(s.c.hash[u]) else None
    ensures u in AddressSet(d) ==> u in s.c.hash && s.c.hash[u] in s.c.heap && s.c.heap[s.c.hash[u]].uid == u
  {
    InAddressSet(d, u);
    KindLeads(s, d, u);
    hide Got, IsAddress, AddressSet;
  }

  lemma {:induction false} JoinedUids(s: Loading, d: Doc, order: seq<Uid>, ms: seq<MemberRec>)
    requires Got(s, d)
    ensures Uids(Resolved(s, order).heap, Joined(s.c, ms)) == Kept(AddressSet(d), ms)
    ensures forall x | x in Joined(s.c, ms) ::
      x in s.c.heap && s.c.heap[x].uid in AddressSet(d) && s.c.heap[x].uid in s.c.hash && s.c.hash[s.c.heap[x].uid] == x
    decreases |ms|
  {
    hide Got, AddressSet, Resolved, EmailFor;
    if ms != [] {
      var n := |ms| - 1;
      var u := ms[n].eid;
      var es := Joined(s.c, ms[..n]);
      var h := Resolved(s, order).heap;
      JoinedUids(s, d, order, ms[..n]);
      EmailForIs(s, d, u);
      if u in AddressSet(d) {
        var x := s.c.hash[u];
        ResolvedIs(s, d, order, x);
        InUidsOnce(s, d, order, es, x);
        assert Uids(h, es + [x]) == Uids(h, es) + [u];
      }
    }
  }

  lemma InUidsOnce(s: Loading, d: Doc, order: seq<Uid>, es: seq<Ref>, x: Ref)
    requires Got(s, d) && x in s.c.heap
      && (forall y | y in es :: y in s.c.heap && s.c.heap[y].uid in s.c.hash && s.c.hash[s.c.heap[y].uid] == y)
    requires s.c.heap[x].uid in s.c.hash && s.c.hash[s.c.heap[x].uid] == x
    ensures x in es <==> s.c.heap[x].uid in Uids(Resolved(s, order).heap, es)
  {
    hide Got, Resolved;
    var h := Resolved(s, order).heap;
    var us := Uids(h, es);
    forall i | 0 <= i < |es|
      ensures us[i] == s.c.heap[es[i]].uid
    {
      assert es[i] in es;
      ResolvedIs(s, d, order, es[i]);
    }
    if x in es {
      var i :| 0 <= i < |es| && es[i] == x;
      assert us[i] == s.c.heap[x].uid;
    }
    if s.c.heap[x].uid in us {
      var i :| 0 <= i < |us| && us[i] == s.c.heap[x].uid;
      assert es[i] in es && es[i] == x;
    }
  }

  lemma GroupBack(s: Loading, d: Doc, order: seq<Uid>, g: GroupRec)
    requires Got(s, d) && g in d.groups
    ensures g.uid in s.c.hash && IsGroup(Resolved(s, order), s.c.hash[g.uid])
    ensures var h := Resolved(s, order).heap;
      GroupRecOf(h, s.c.hash[g.uid]) == GroupRec(g.uid, g.name, g.remarks, MemberRecs(h, Joined(s.c, g.members)))
  {
    hide Resolved, LoadOk, AllHashed, Home, Joined;
    assert GroupAt(s, g);
    ResolvedIs(s, d, order, s.c.hash[g.uid]);
    assert Is(s.c.heap[s.c.hash[g.uid]], GroupKind);
  }

  /** Each member is an address of the person it is said to be of, and none is listed twice. */
  ghost predicate MembersKept(d: Doc, ms: seq<MemberRec>) {
    && (forall m {:trigger m in ms} | m in ms :: m.eid != "" && exists p :: p in d.persons && p.uid == m.pid
                                                                            && Bears(p, m.eid))
    && (forall i, j :: 0 <= i < j < |ms| ==> ms[i].eid != ms[j].eid)
  }

  lemma MembersBack(s: Loading, d: Doc, order: seq<Uid>, ms: seq<MemberRec>)
    requires Got(s, d)
    ensures MemberRecs(Resolved(s, order).heap, Joined(s.c, ms)) == ms <==> MembersKept(d, ms)
  {
    if MembersKept(d, ms) {
      MembersComeBack(s, d, order, ms);
    }
    if MemberRecs(Resolved(s, order).heap, Joined(s.c, ms)) == ms {
      MembersWereKept(s, d, order, ms);
    }
  }

  lemma MembersComeBack(s: Loading, d: Doc, order: seq<Uid>, ms: seq<MemberRec>)
    requires Got(s, d) && MembersKept(d, ms)
    ensures MemberRecs(Resolved(s, order).heap, Joined(s.c, ms)) == ms
  {
    hide Got, Resolved, Joined;
    var h := Resolved(s, order).heap;
    HashLeadsHere(s, d);
    forall i | 0 <= i < |ms|
      ensures ms[i].eid in s.c.hash && Lookup(s.c, ms[i].eid) == Some(s.c.hash[ms[i].eid])
      ensures s.c.heap[s.c.hash[ms[i].eid]].EMail? && MemberRecOf(h, s.c.hash[ms[i].eid]) == ms[i]
    {
      assert ms[i] in ms;
      var p :| p in d.persons && p.uid == ms[i].pid && Bears(p, ms[i].eid);
      AddressBack(s, d, order, p, ms[i].eid);
    }
    JoinedAll(s.c, ms);
    assert MemberRecs(h, Found(s.c, ms)) == ms;
  }

  lemma HashLeadsHere(s: Loading, d: Doc)
    requires Got(s, d)
    ensures forall u | u in s.c.hash :: s.c.hash[u] in s.c.heap && s.c.heap[s.c.hash[u]].uid == u
  {
    HashLeads(s);
  }

  lemma MembersWereKept(s: Loading, d: Doc, order: seq<Uid>, ms: seq<MemberRec>)
    requires Got(s, d) && MemberRecs(Resolved(s, order).heap, Joined(s.c, ms)) == ms
    ensures MembersKept(d, ms)
  {
    hide Got, Resolved, Joined, AddressSet;
    var h := Resolved(s, order).heap;
    var es := Joined(s.c, ms);
    JoinedFacts(s.c, ms);
    JoinedUids(s, d, order, ms);
    forall i | 0 <= i < |ms|
      ensures es[i] in s.c.heap && ms[i].eid == s.c.heap[es[i]].uid
      ensures ms[i].eid in s.c.hash && s.c.hash[ms[i].eid] == es[i]
      ensures ms[i].eid != "" && exists p :: p in d.persons && p.uid == ms[i].pid && Bears(p, ms[i].eid)
    {
      assert es[i] in es && ms[i] == MemberRecOf(h, es[i]);
      ResolvedIs(s, d, order, es[i]);
      var u := s.c.heap[es[i]].uid;
      InAddressSet(d, u);
      var p :| p in d.persons && Bears(p, u);
      AddressBack(s, d, order, p, u);
    }
    forall i, j | 0 <= i < j < |ms|
      ensures ms[i].eid != ms[j].eid
    {
      assert es[i] != es[j];
    }
  }

  // ---------- folders ----------

  /** The items of one kind: the uids that lead to an object of that kind, in order. */
  ghost function Only(d: Doc, us: seq<Uid>, k: Kind): seq<ItemRec> {
    if us == [] then []
    else (if us[0] != "" && OfKind(d, us[0], k) then [ItemRec(k, us[0])] else []) + Only(d, us[1..], k)
  }

  lemma KidsStep(s: Loading, d: Doc, us: seq<Uid>, k: Kind)
    requires Got(s, d) && us != []
    ensures us[0] != "" && OfKind(d, us[0], k) ==> us[0] in s.c.hash && s.c.hash[us[0]] in s.c.heap
                                                   && s.c.heap[s.c.hash[us[0]]].uid == us[0]
    ensures Kids(s.c, us, k) ==
      (if us[0] != "" && OfKind(d, us[0], k) then [s.c.hash[us[0]]] else []) + Kids(s.c, us[1..], k)
  {
    KindLeads(s, d, us[0]);
    hide Got, OfKind;
    assert [] + Kids(s.c, us[1..], k) == Kids(s.c, us[1..], k);
  }

  lemma ItemRecsConcat(h: map<Ref, Item>, k: Kind, a: seq<Ref>, b: seq<Ref>)
    ensures ItemRecs(h, k, a + b) == ItemRecs(h, k, a) + ItemRecs(h, k, b)
  {
  }

  lemma {:induction false} KidsAre(s: Loading, d: Doc, order: seq<Uid>, us: seq<Uid>, k: Kind)
    requires Got(s, d)
    ensures ItemRecs(Resolved(s, order).heap, k, Kids(s.c, us, k)) == Only(d, us, k)
  {
    hide Got, Resolved, OfKind, Kids;
    var h := Resolved(s, order).heap;
    if us == [] {
      KidsNone(s.c, k);
    } else {
      KidsStep(s, d, us, k);
      KidsAre(s, d, order, us[1..], k);
      if us[0] != "" && OfKind(d, us[0], k) {
        var r := s.c.hash[us[0]];
        ResolvedIs(s, d, order, r);
        ItemRecsConcat(h, k, [r], Kids(s.c, us[1..], k));
        assert ItemRecs(h, k, [r]) == [ItemRec(k, us[0])];
      } else {
        ItemRecsConcat(h, k, [], Kids(s.c, us[1..], k));
      }
    }
  }

  lemma KidsNone(c: Cache, k: Kind)
    ensures Kids(c, [], k) == []
  {
  }

  /** The items that a folder is written with when it has been read. */
  ghost function Regrouped(d: Doc, us: seq<Uid>): seq<ItemRec> {
    Only(d, us, PersonKind) + Only(d, us, GroupKind) + Only(d, us, FolderKind)
  }

  lemma FolderBack(s: Loading, d: Doc, order: seq<Uid>, f: FolderRec)
    requires Got(s, d) && f in d.folders
    ensures f.uid in s.c.hash && IsFolder(Resolved(s, order), s.c.hash[f.uid])
    ensures FolderRecOf(Resolved(s, order).heap, s.c.hash[f.uid]) ==
      FolderRec(f.uid, f.name, f.remarks, Regrouped(d, ItemUids(f.items)))
  {
    hide Got, Resolved, Only;
    var us := ItemUids(f.items);
    ResolvedLists(s, d, order, f, PersonKind);
    ResolvedLists(s, d, order, f, GroupKind);
    ResolvedLists(s, d, order, f, FolderKind);
    KidsAre(s, d, order, us, PersonKind);
    KidsAre(s, d, order, us, GroupKind);
    KidsAre(s, d, order, us, FolderKind);
  }

  function Rank(k: Kind): nat {
    match k
    case PersonKind => 0
    case GroupKind => 1
    case FolderKind => 2
  }

  /** Each item leads to an object of the kind it is said to be, and persons come before groups and
      groups before folders. */
  ghost predicate ItemsKept(d: Doc, items: seq<ItemRec>) {
    && (forall i {:trigger items[i]} | 0 <= i < |items| :: items[i].uid != "" && OfKind(d, items[i].uid, items[i].kind))
    && (forall i, j :: 0 <= i < j < |items| ==> Rank(items[i].kind) <= Rank(items[j].kind))
  }

  ghost predicate OneKind(d: Doc) {
    forall u, j: Kind, k: Kind {:trigger OfKind(d, u, j), OfKind(d, u, k)} :: OfKind(d, u, j) && OfKind(d, u, k) ==>
      j == k
  }

  lemma GotOneKind(s: Loading, d: Doc)
    requires Got(s, d)
    ensures OneKind(d)
  {
    hide Got, OfKind;
    forall u, j: Kind, k: Kind | OfKind(d, u, j) && OfKind(d, u, k)
      ensures j == k
    {
      KindLeads(s, d, u);
    }
  }

  lemma {:induction false} OnlyNone(d: Doc, us: seq<Uid>, k: Kind)
    requires forall u | u in us :: !OfKind(d, u, k)
    ensures Only(d, us, k) == []
  {
    if us != [] {
      OnlyNone(d, us[1..], k);
    }
  }

  lemma {:induction false} OnlyMeans(d: Doc, us: seq<Uid>, k: Kind)
    ensures forall x | x in Only(d, us, k) :: x.kind == k && x.uid != "" && OfKind(d, x.uid, k) && x.uid in us
    ensures forall u | u in us && u != "" && OfKind(d, u, k) :: ItemRec(k, u) in Only(d, us, k)
  {
    if us != [] {
      OnlyMeans(d, us[1..], k);
    }
  }

  /** Regrouping leaves a list as it is exactly if it stood in order and all of it was found. */
  lemma {:induction false} ItemsBack(d: Doc, items: seq<ItemRec>)
    requires OneKind(d)
    ensures Regrouped(d, ItemUids(items)) == items <==> ItemsKept(d, items)
  {
    hide OfKind;
    if ItemsKept(d, items) {
      KeptItems(d, items);
    }
    if Regrouped(d, ItemUids(items)) == items {
      RegroupedItems(d, ItemUids(items));
    }
  }

  lemma HeadKept(d: Doc, items: seq<ItemRec>, k: Kind)
    requires OneKind(d) && ItemsKept(d, items) && items != []
    ensures var x, us := items[0], ItemUids(items[1..]);
      && Only(d, ItemUids(items), k) == (if k == x.kind then [x] else []) + Only(d, us, k)
      && (Rank(k) < Rank(x.kind) ==> Only(d, us, k) == [])
      && ItemsKept(d, items[1..])
  {
    hide OfKind;
    var x, rest := items[0], items[1..];
    var us := ItemUids(items);
    assert us[1..] == ItemUids(rest);
    assert forall i | 0 <= i < |rest| :: rest[i] == items[i + 1];
    assert OfKind(d, x.uid, x.kind);
    if Rank(k) < Rank(x.kind) {
      forall u | u in us[1..]
        ensures !OfKind(d, u, k)
      {
        var i :| 0 <= i < |rest| && us[1..][i] == u;
        assert OfKind(d, rest[i].uid, rest[i].kind);
      }
      OnlyNone(d, us[1..], k);
    }
  }

  lemma {:induction false} KeptItems(d: Doc, items: seq<ItemRec>)
    requires OneKind(d) && ItemsKept(d, items)
    ensures Regrouped(d, ItemUids(items)) == items
  {
    hide OfKind, OneKind, ItemsKept;
    if items != [] {
      hide Only;
      var x, us := items[0], ItemUids(items[1..]);
      HeadKept(d, items, PersonKind);
      HeadKept(d, items, GroupKind);
      HeadKept(d, items, FolderKind);
      KeptItems(d, items[1..]);
      var p, g, f := Only(d, us, PersonKind), Only(d, us, GroupKind), Only(d, us, FolderKind);
      FrontFirst(x, p, g, f);
      assert items == [x] + items[1..];
    }
  }

  lemma FrontFirst(x: ItemRec, p: seq<ItemRec>, g: seq<ItemRec>, f: seq<ItemRec>)
    requires (x.kind != PersonKind ==> p == []) && (x.kind == FolderKind ==> g == [])
    ensures ((if PersonKind == x.kind then [x] else []) + p) + ((if GroupKind == x.kind then [x] else []) + g)
      + ((if FolderKind == x.kind then [x] else []) + f) == [x] + (p + g + f)
  {
    match x.kind
    case PersonKind =>
    case GroupKind => assert p == [];
    case FolderKind => assert p == [] && g == [];
  }

  lemma RegroupedItems(d: Doc, us: seq<Uid>)
    ensures ItemsKept(d, Regrouped(d, us))
  {
    hide OfKind, Only;
    OnlyMeans(d, us, PersonKind);
    OnlyMeans(d, us, GroupKind);
    OnlyMeans(d, us, FolderKind);
    var a, b, c := Only(d, us, PersonKind), Only(d, us, GroupKind), Only(d, us, FolderKind);
    var items := a + b + c;
    assert Regrouped(d, us) == items;
    forall i | 0 <= i < |items|
      ensures items[i].uid != "" && OfKind(d, items[i].uid, items[i].kind)
      ensures Rank(items[i].kind) == if i < |a| then 0 else if i < |a| + |b| then 1 else 2
    {
      assert items[i] in (if i < |a| then a else if i < |a| + |b| then b else c);
    }
  }
}
