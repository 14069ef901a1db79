/** The order in which the records stand in a file does not matter (src/addrbook.c:364-907). */
module BookOrder {
  import opened Items
  import opened CacheState
  import opened XmlFiles
  import opened BookDoc
  import opened BookParse
  import opened BookResolve
  import opened BookRound
  import opened BookSame
  import opened BookUnique
  import opened BookRecords

  /** The same persons, groups and folders, in whatever order. */
  ghost predicate Reordered(d: Doc, e: Doc) {
    && (forall p :: p in d.persons <==> p in e.persons)
    && (forall g :: g in d.groups <==> g in e.groups)
    && (forall f :: f in d.folders <==> f in e.folders)
  }

  ghost predicate NamedBy(f: FolderRec, u: Uid) {
    exists i :: 0 <= i < |f.items| && f.items[i].uid == u
  }

  /** A uid that leads to something that can lie in a folder. */
  ghost predicate Nameable(d: Doc, u: Uid) {
    u != "" && exists k: Kind :: OfKind(d, u, k)
  }

  /** No object is named by two folders. */
  ghost predicate OneFolderEach(d: Doc) {
    forall f, g, u {:trigger NamedBy(f, u), NamedBy(g, u)} ::
      f in d.folders && g in d.folders && NamedBy(f, u) && NamedBy(g, u) && Nameable(d, u) ==> f == g
  }

  lemma SameKinds(d: Doc, e: Doc)
    requires Reordered(d, e)
    ensures forall u, k: Kind :: OfKind(d, u, k) <==> OfKind(e, u, k)
    ensures forall u :: IsAddress(d, u) <==> IsAddress(e, u)
    ensures AddressSet(d) == AddressSet(e)
  {
    forall u, k: Kind
      ensures OfKind(d, u, k) <==> OfKind(e, u, k)
    {
      match k
      case PersonKind =>
      case GroupKind =>
      case FolderKind =>
    }
    forall u
      ensures u in AddressSet(d) <==> u in AddressSet(e)
    {
      InAddressSet(d, u);
      InAddressSet(e, u);
    }
  }

  // ---------- where an object lies ----------

  lemma NamedHere(s: Loading, d: Doc, f: FolderRec, z: Ref)
    requires Got(s, d) && f in d.folders && z in s.c.heap && z != s.c.root && !s.c.heap[z].EMail?
    ensures f.uid in s.c.hash && s.c.hash[f.uid] in s.temp
    ensures NamedIn(s.c, ItemsOf(s, s.c.hash[f.uid]), z) <==> s.c.heap[z].uid != "" && NamedBy(f, s.c.heap[z].uid)
  {
    assert FolderAt(s, f);
    FolderIsQueued(s, s.c.hash[f.uid]);
    FolderIsQueued(s, z);
    KindLeads(s, d, f.uid);
    hide Got, LoadOk, AllHashed;
    var us := ItemUids(f.items);
    var u := s.c.heap[z].uid;
    if u != "" && NamedBy(f, u) {
      var i :| 0 <= i < |f.items| && f.items[i].uid == u;
      assert Lookup(s.c, us[i]) == Some(z);
    }
    if NamedIn(s.c, us, z) {
      var i :| 0 <= i < |us| && Lookup(s.c, us[i]) == Some(z);
      assert f.items[i].uid == u;
    }
  }

  lemma QueuedIsRecord(s: Loading, d: Doc, y: Ref) returns (f: FolderRec)
    requires Got(s, d) && y in s.temp
    ensures f in d.folders && f.uid in s.c.hash && s.c.hash[f.uid] == y
  {
    TempIs(s, y);
    KindLeads(s, d, s.c.heap[y].uid);
    hide Got, LoadOk;
    assert Is(s.c.heap[y], FolderKind);
    assert OfKind(d, s.c.heap[y].uid, FolderKind);
    f :| f in d.folders && f.uid == s.c.heap[y].uid;
  }

  lemma TempIs(s: Loading, y: Ref)
    requires LoadOk(s) && y in s.temp
    ensures IsFolder(s.c, y) && s.c.heap[y].uid in s.c.hash && s.c.hash[s.c.heap[y].uid] == y && y != s.c.root
  {
  }

  /** The folder of an object is one that names it, and there is none exactly if none does. */
  lemma NamerHere(s: Loading, d: Doc, z: Ref)
    requires Got(s, d) && z in s.c.heap && z != s.c.root && !s.c.heap[z].EMail?
    ensures match Namer(s, z)
      case Some(y) => s.c.heap[z].uid != "" && exists f :: f in d.folders && NamedBy(f, s.c.heap[z].uid)
                                                           && f.uid in s.c.hash && s.c.hash[f.uid] == y
      case None => s.c.heap[z].uid == "" || forall f | f in d.folders :: !NamedBy(f, s.c.heap[z].uid)
  {
    hide Got, NamedIn, ItemsOf, NamedBy;
    LastNamerIs(s, s.temp, z);
    if Namer(s, z).Some? {
      var f := QueuedIsRecord(s, d, Namer(s, z).value);
      NamedHere(s, d, f, z);
    } else {
      forall f | f in d.folders
        ensures s.c.heap[z].uid == "" || !NamedBy(f, s.c.heap[z].uid)
      {
        NamedHere(s, d, f, z);
      }
    }
  }

  /** The uid of the folder that an object ends in. */
  lemma PlaceOf(s: Loading, d: Doc, order: seq<Uid>, z: Ref)
    requires Got(s, d) && z in s.c.heap && z != s.c.root && !s.c.heap[z].EMail?
    ensures var h := Resolved(s, order).heap; z in h && h[z].parent.Some?
    ensures var h := Resolved(s, order).heap; var u, w := s.c.heap[z].uid, UidOf(h, h[z].parent.value);
      if u == "" || (forall f | f in d.folders :: !NamedBy(f, u)) then w == ""
      else exists f :: f in d.folders && NamedBy(f, u) && f.uid == w
  {
    hide Got, Resolved, NamedBy, LoadOk;
    NamerHere(s, d, z);
    ResolvedIs(s, d, order, z);
    RootUid(s, d);
    ResolvedIs(s, d, order, s.c.root);
    assert Is(s.c.heap[z], KindOf(s.c.heap[z]));
    if Namer(s, z).Some? {
      var f :| f in d.folders && NamedBy(f, s.c.heap[z].uid) && f.uid in s.c.hash
        && s.c.hash[f.uid] == Namer(s, z).value;
      KindLeads(s, d, f.uid);
      ResolvedIs(s, d, order, s.c.hash[f.uid]);
    }
  }

  lemma RootUid(s: Loading, d: Doc)
    requires Got(s, d)
    ensures IsFolder(s.c, s.c.root) && s.c.heap[s.c.root].uid == "" && Empty(s.c.heap[s.c.root])
  {
  }

  lemma SamePlace(s: Loading, d: Doc, a: seq<Uid>, t: Loading, e: Doc, b: seq<Uid>, z: Ref, y: Ref)
    requires Got(s, d) && Got(t, e) && Reordered(d, e) && OneFolderEach(d)
    requires z in s.c.heap && z != s.c.root && !s.c.heap[z].EMail?
    requires y in t.c.heap && y != t.c.root && !t.c.heap[y].EMail? && t.c.heap[y].uid == s.c.heap[z].uid
    requires Nameable(d, s.c.heap[z].uid) || s.c.heap[z].uid == ""
    ensures var h, k := Resolved(s, a).heap, Resolved(t, b).heap;
      && z in h && h[z].parent.Some? && y in k && k[y].parent.Some?
      && UidOf(k, k[y].parent.value) == UidOf(h, h[z].parent.value)
  {
    hide Got, Resolved, NamedBy, OfKind;
    PlaceOf(s, d, a, z);
    PlaceOf(t, e, b, y);
  }

  // ---------- an object and its counterpart ----------

  lemma {:induction false} OnlySame(d: Doc, e: Doc, us: seq<Uid>, k: Kind)
    requires forall u, k: Kind :: OfKind(d, u, k) <==> OfKind(e, u, k)
    ensures Only(d, us, k) == Only(e, us, k)
  {
    hide OfKind;
    if us != [] {
      OnlySame(d, e, us[1..], k);
    }
  }

  lemma MembersSame(s: Loading, d: Doc, a: seq<Uid>, t: Loading, e: Doc, b: seq<Uid>, ms: seq<MemberRec>)
    requires Got(s, d) && Got(t, e) && Reordered(d, e)
    ensures MemberRecs(Resolved(t, b).heap, Joined(t.c, ms)) == MemberRecs(Resolved(s, a).heap, Joined(s.c, ms))
  {
    hide Got, Resolved, Joined, AddressSet, IsAddress, OfKind;
    SameKinds(d, e);
    JoinedUids(s, d, a, ms);
    JoinedUids(t, e, b, ms);
    var h, k := Resolved(s, a).heap, Resolved(t, b).heap;
    var xs, ys := Joined(s.c, ms), Joined(t.c, ms);
    assert |xs| == |Uids(h, xs)| == |ys|;
    forall i | 0 <= i < |xs|
      ensures MemberRecOf(k, ys[i]) == MemberRecOf(h, xs[i])
    {
      assert xs[i] in xs && ys[i] in ys;
      ResolvedIs(s, d, a, xs[i]);
      ResolvedIs(t, e, b, ys[i]);
      assert Uids(h, xs)[i] == Uids(k, ys)[i];
      SameMember(s, d, a, t, e, b, s.c.heap[xs[i]].uid);
    }
  }

  lemma SameMember(s: Loading, d: Doc, a: seq<Uid>, t: Loading, e: Doc, b: seq<Uid>, u: Uid)
    requires Got(s, d) && Got(t, e) && Reordered(d, e) && u in AddressSet(d)
    ensures u in s.c.hash && u in t.c.hash
    ensures MemberRecOf(Resolved(t, b).heap, t.c.hash[u]) == MemberRecOf(Resolved(s, a).heap, s.c.hash[u])
  {
    InAddressSet(d, u);
    hide Got, Resolved;
    var p :| p in d.persons && Bears(p, u);
    AddressBack(s, d, a, p, u);
    AddressBack(t, e, b, p, u);
  }

  lemma StrippedTwice(p: PersonRec)
    ensures Stripped(Stripped(p)) == Stripped(p)
  {
    forall i | 0 <= i < |p.attribs|
      ensures Strip(Strip(p.attribs[i].value)) == Strip(p.attribs[i].value)
    {
      StripTwice(p.attribs[i].value);
    }
    hide Strip;
    assert StrippedAll(StrippedAll(p.attribs)) == StrippedAll(p.attribs);
  }

  lemma ObjectIs(s: Loading, d: Doc, z: Ref)
    requires Got(s, d) && z in s.c.heap && z != s.c.root
    ensures s.c.heap[z].uid in s.c.hash && s.c.hash[s.c.heap[z].uid] == z
  {
  }

  lemma SameHashed(s: Loading, d: Doc, t: Loading, e: Doc, u: Uid)
    requires Got(s, d) && Got(t, e) && Reordered(d, e)
    ensures u in s.c.hash <==> u in t.c.hash
    ensures u in s.c.hash ==>
      && s.c.hash[u] in s.c.heap && t.c.hash[u] in t.c.heap && s.c.hash[u] != s.c.root && t.c.hash[u] != t.c.root
      && s.c.heap[s.c.hash[u]].uid == u && t.c.heap[t.c.hash[u]].uid == u
      && (s.c.heap[s.c.hash[u]].EMail? <==> t.c.heap[t.c.hash[u]].EMail?)
      && (forall k: Kind :: Is(s.c.heap[s.c.hash[u]], k) <==> Is(t.c.heap[t.c.hash[u]], k))
  {
    hide Got, OfKind, IsAddress;
    SameKinds(d, e);
    KindLeads(s, d, u);
    KindLeads(t, e, u);
    if u in s.c.hash && !s.c.heap[s.c.hash[u]].EMail? {
      assert Is(s.c.heap[s.c.hash[u]], KindOf(s.c.heap[s.c.hash[u]]));
    }
    if u in t.c.hash && !t.c.heap[t.c.hash[u]].EMail? {
      assert Is(t.c.heap[t.c.hash[u]], KindOf(t.c.heap[t.c.hash[u]]));
    }
  }

  /** What the counterpart says. */
  lemma SameContents(s: Loading, d: Doc, a: seq<Uid>, t: Loading, e: Doc, b: seq<Uid>, u: Uid)
    requires Got(s, d) && Got(t, e) && Reordered(d, e) && u in s.c.hash
    ensures u in t.c.hash && s.c.hash[u] in Resolved(s, a).heap && t.c.hash[u] in Resolved(t, b).heap
    ensures var h, k := Resolved(s, a).heap, Resolved(t, b).heap; var z, y := s.c.hash[u], t.c.hash[u];
      match h[z]
      case Person(_, _, _, _, _, _, _, _) => k[y].Person? && PersonRecOf(k, y) == Stripped(PersonRecOf(h, z))
      case Group(_, _, _, _, _) => k[y].Group? && GroupRecOf(k, y) == GroupRecOf(h, z)
      case Folder(_, _, _, _, _, _, _) => k[y].Folder? && FolderRecOf(k, y) == FolderRecOf(h, z)
      case EMail(_, _, _, _, _) => k[y].EMail?
  {
    hide Got, Resolved, IsAddress, Only, Stripped;
    SameHashed(s, d, t, e, u);
    SameKinds(d, e);
    KindLeads(s, d, u);
    var z, y := s.c.hash[u], t.c.hash[u];
    ResolvedIs(s, d, a, z);
    ResolvedIs(t, e, b, y);
    var i := Resolved(s, a).heap[z];
    if i.Person? {
      assert Is(s.c.heap[z], PersonKind) && OfKind(d, u, PersonKind);
      var p :| p in d.persons && p.uid == u;
      PersonBack(s, d, a, p);
      PersonBack(t, e, b, p);
      StrippedTwice(p);
    } else if i.Group? {
      assert Is(s.c.heap[z], GroupKind) && OfKind(d, u, GroupKind);
      var g :| g in d.groups && g.uid == u;
      GroupBack(s, d, a, g);
      GroupBack(t, e, b, g);
      MembersSame(s, d, a, t, e, b, g.members);
    } else if i.Folder? {
      assert Is(s.c.heap[z], FolderKind) && OfKind(d, u, FolderKind);
      var f :| f in d.folders && f.uid == u;
      FolderBack(s, d, a, f);
      FolderBack(t, e, b, f);
      var us := ItemUids(f.items);
      OnlySame(d, e, us, PersonKind);
      OnlySame(d, e, us, GroupKind);
      OnlySame(d, e, us, FolderKind);
    }
  }

  lemma SameParents(s: Loading, d: Doc, a: seq<Uid>, t: Loading, e: Doc, b: seq<Uid>, u: Uid)
    requires Got(s, d) && Got(t, e) && Reordered(d, e) && OneFolderEach(d) && u in s.c.hash
    ensures u in t.c.hash && s.c.hash[u] in Resolved(s, a).heap && t.c.hash[u] in Resolved(t, b).heap
    ensures var h, k := Resolved(s, a).heap, Resolved(t, b).heap; var i, j := h[s.c.hash[u]], k[t.c.hash[u]];
      i.parent.Some? && j.parent.Some? && UidOf(k, j.parent.value) == UidOf(h, i.parent.value)
  {
    hide Got, Resolved, OneFolderEach, OfKind;
    SameHashed(s, d, t, e, u);
    KindLeads(s, d, u);
    var z, y := s.c.hash[u], t.c.hash[u];
    ResolvedIs(s, d, a, z);
    ResolvedIs(t, e, b, y);
    if s.c.heap[z].EMail? {
      var p :| p in d.persons && Bears(p, u);
      AddressBack(s, d, a, p, u);
      AddressBack(t, e, b, p, u);
    } else {
      assert Is(s.c.heap[z], KindOf(s.c.heap[z]));
      SamePlace(s, d, a, t, e, b, z, y);
    }
  }

  // ---------- the root ----------

  lemma RootList(s: Loading, d: Doc, order: seq<Uid>, k: Kind)
    requires Got(s, d)
    ensures IsFolder(Resolved(s, order), s.c.root)
    ensures ListOf(Resolved(s, order).heap[s.c.root], k) == Unnamed(s, Loose(s, order, k))
  {
    RootUid(s, d);
    hide Got, LoadOk;
    var v := Unnamed(s, Loose(s, order, k));
    assert [] + v == v;
  }

  /** The root holds what no folder names. */
  lemma RootUids(s: Loading, d: Doc, order: seq<Uid>, k: Kind, u: Uid)
    requires Got(s, d) && Traversal(s.c, order)
    ensures IsFolder(Resolved(s, order), s.c.root)
    ensures u in Uids(Resolved(s, order).heap, ListOf(Resolved(s, order).heap[s.c.root], k)) <==>
      OfKind(d, u, k) && (u == "" || forall f | f in d.folders :: !NamedBy(f, u))
  {
    RootList(s, d, order, k);
    HashLeadsHere(s, d);
    KindLeads(s, d, u);
    var h := Resolved(s, order).heap;
    var rs := Unnamed(s, Loose(s, order, k));
    hide Resolved, NamedBy, Loose, OfKind, Got;
    InUids(h, rs, u);
    if u in Uids(h, rs) {
      var r :| r in rs && UidOf(h, r) == u;
      InUnnamed(s, Loose(s, order, k), r);
      LooseIs(s, d, order, k, r);
      ResolvedIs(s, d, order, r);
      NamerHere(s, d, r);
    }
    if OfKind(d, u, k) && (u == "" || forall f | f in d.folders :: !NamedBy(f, u)) {
      var r := s.c.hash[u];
      LooseIs(s, d, order, k, r);
      NamerHere(s, d, r);
      InUnnamed(s, Loose(s, order, k), r);
      ResolvedIs(s, d, order, r);
    }
  }

  lemma LooseIs(s: Loading, d: Doc, order: seq<Uid>, k: Kind, r: Ref)
    requires Got(s, d) && Traversal(s.c, order)
    ensures r in Loose(s, order, k) <==> r in s.c.heap && r != s.c.root && Is(s.c.heap[r], k)
    ensures r in s.c.heap && r != s.c.root ==> s.c.heap[r].uid in s.c.hash && s.c.hash[s.c.heap[r].uid] == r
    ensures r in s.c.heap && Is(s.c.heap[r], k) ==> !s.c.heap[r].EMail?
  {
    HashLeadsHere(s, d);
    if r in s.c.heap {
      FolderIsQueued(s, r);
    }
    if r in s.temp {
      TempIs(s, r);
    }
    if k != FolderKind {
      InVisited(s.c, order, k, r);
    }
  }

  // ---------- the whole book ----------

  lemma SameBooks(s: Loading, d: Doc, a: seq<Uid>, t: Loading, e: Doc, b: seq<Uid>)
    requires Got(s, d) && Got(t, e) && Reordered(d, e) && OneFolderEach(d)
    requires Traversal(s.c, a) && Traversal(t.c, b)
    ensures SameBook(Resolved(s, a), Resolved(t, b))
  {
    hide Got, Resolved, OneFolderEach, OfKind, NamedBy, Traversal, ListOf;
    var c, g := Resolved(s, a), Resolved(t, b);
    RootUid(s, d);
    RootUid(t, e);
    ResolvedIs(s, d, a, s.c.root);
    ResolvedIs(t, e, b, t.c.root);
    assert Is(s.c.heap[s.c.root], FolderKind) && Is(t.c.heap[t.c.root], FolderKind);
    assert IsFolder(c, c.root) && IsFolder(g, g.root);
    forall z | Object(c, z)
      ensures SameObject(c, g, z)
    {
      ResolvedIs(s, d, a, z);
      ObjectIs(s, d, z);
      var u := s.c.heap[z].uid;
      SameHashed(s, d, t, e, u);
      SameContents(s, d, a, t, e, b, u);
      SameParents(s, d, a, t, e, b, u);
    }
    forall u | u in g.hash
      ensures exists z :: Object(c, z) && c.heap[z].uid == u
    {
      SameHashed(s, d, t, e, u);
      SameParents(s, d, a, t, e, b, u);
      ResolvedIs(s, d, a, s.c.hash[u]);
      assert Object(c, s.c.hash[u]);
    }
    SameKinds(d, e);
    forall k: Kind
      ensures Elems(Uids(g.heap, ListOf(g.heap[g.root], k))) == Elems(Uids(c.heap, ListOf(c.heap[c.root], k)))
    {
      forall u
        ensures u in Uids(g.heap, ListOf(g.heap[g.root], k)) <==> u in Uids(c.heap, ListOf(c.heap[c.root], k))
      {
        RootUids(s, d, a, k, u);
        RootUids(t, e, b, k, u);
      }
    }
  }

  /** Two files with the same records in different orders, in which no uid is used twice and nothing is
      named by two folders, read from whatever cleared caches, with the hash tables traversed in
      whatever orders: they give the same book.  Every object lies in the folder of the same uid,
      whether that folder stands before or after it in the file. */
  lemma OrderDoesNotMatter(d: Doc, e: Doc, a: seq<Uid>, b: seq<Uid>, root: Ref, nextId: nat, top: Ref, dirty: bool,
      root': Ref, nextId': nat, top': Ref, dirty': bool)
    requires Unique(d) && Unique(e) && Reordered(d, e) && OneFolderEach(d) && root < top && root' < top'
    requires Traversal(ReadTree(true, DocTokens(d), Cleared(root, nextId, top, dirty)).s.c, a)
    requires Traversal(ReadTree(true, DocTokens(e), Cleared(root', nextId', top', dirty')).s.c, b)
    ensures var x := ReadTree(true, DocTokens(d), Cleared(root, nextId, top, dirty));
      var y := ReadTree(true, DocTokens(e), Cleared(root', nextId', top', dirty'));
      x.outcome == Success && y.outcome == Success && SameBook(Resolved(x.s, a), Resolved(y.s, b))
  {
    hide Unique, Reordered, OneFolderEach, ReadTree, DocTokens, SameBook, Resolved, Got, LoadDoc, Traversal;
    ReadWritten(d, Cleared(root, nextId, top, dirty));
    ReadWritten(e, Cleared(root', nextId', top', dirty'));
    UniqueIsLoaded(root, nextId, top, true, d);
    UniqueIsLoaded(root', nextId', top', true, e);
    SameBooks(LoadDoc(Cleared(root, nextId, top, true), d), d, a, LoadDoc(Cleared(root', nextId', top', true), e), e,
      b);
  }
}
