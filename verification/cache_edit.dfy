/** Insertion, attachment of emails and group membership (src/addrcache.c:396-532, 1013-1070)
    as functions on the cache, and their agreement with the invariant. */
module CacheEdit {
  import opened Items
  import opened CacheState
  import opened CachePrune

  /** No email of the cache, hashed or not, has this uid. */
  ghost predicate UnusedByEmails(c: Cache, u: Uid) {
    forall e {:trigger c.heap[e]} | Owned(c, e) :: c.heap[e].uid != u
  }

  /** A uid that a caller may bring: not empty, and not one the counter will hand out later. */
  ghost predicate GoodUid(c: Cache, u: Uid) {
    u != "" && FreshUid(c, u) && UnusedByEmails(c, u)
  }

  /** What may come with a new item: a good uid, or one that is taken, which is refused. */
  ghost predicate BringsUid(c: Cache, u: Uid) {
    u in c.hash || GoodUid(c, u)
  }

  /** `folder_add_person`, `folder_add_group` and `folder_add_folder`: hash the new item and
      append it to the folder's list, unless its uid is taken. */
  function Insert(c: Cache, f: Ref, item: Item): Cache
    requires IsFolder(c, f) && !item.EMail?
  {
    if item.uid in c.hash then c
    else
      var r := c.top;
      var k := KindOf(item);
      c.(heap := c.heap[r := WithParent(item, Some(f))][f := WithList(c.heap[f], k, ListOf(c.heap[f], k) + [r])],
         hash := c.hash[item.uid := r], top := r + 1, dirty := true)
  }

  /** The next uid: the counter moves before it is printed. */
  function NextUid(c: Cache): Uid { Decimal(c.nextId + 1) }

  function Tick(c: Cache): Cache { c.(nextId := c.nextId + 1) }

  /** A new email record that nobody holds yet. */
  function MakeEmail(c: Cache, e: Item): Cache
    requires e.EMail?
  {
    Spare(c, c.top, e).(top := c.top + 1)
  }

  /** The cache with an email at `r` that nobody holds. */
  function Spare(c: Cache, r: Ref, e: Item): Cache {
    c.(heap := c.heap[r := WithParent(e, None)])
  }

  /** `addrcache_person_remove_email` followed by `addrcache_remove_email`, as its callers
      pair them: the email leaves its person, all groups and the hash, and is not freed. */
  ghost function Detach(c: Cache, e: Ref): Cache
    requires Owned(c, e)
  {
    Spare(Prune(c, e), e, c.heap[e])
  }

  /** `addritem_person_add_email` on an email that no person holds. */
  function Attach(c: Cache, p: Ref, e: Ref): Cache
    requires IsPerson(c, p) && Pending(c, e)
  {
    c.(heap := c.heap[p := c.heap[p].(emails := c.heap[p].emails + [e])][e := WithParent(c.heap[e], Some(p))],
       dirty := true)
  }

  /** `addrcache_person_add_email`: nothing happens when the uid is taken. */
  function AddEmail(c: Cache, p: Ref, e: Ref): Cache
    requires IsPerson(c, p) && Pending(c, e)
  {
    if c.heap[e].uid in c.hash then c
    else Attach(c, p, e).(hash := c.hash[c.heap[e].uid := e])
  }

  /** `addrcache_group_add_email`: a group refers to an email at most once. */
  function Join(c: Cache, g: Ref, e: Ref): Cache
    requires IsGroup(c, g)
  {
    if e in c.heap[g].members then c.(dirty := true)
    else c.(heap := c.heap[g := c.heap[g].(members := c.heap[g].members + [e])], dirty := true)
  }

  // ---------- what stays when only emails, members or uids change ----------

  predicate SameLists(f: Item, g: Item)
    requires f.Folder?
  {
    g.Folder? && g.folders == f.folders && g.persons == f.persons && g.groups == f.groups
  }

  /** The same folders, persons and groups under the same parents, the same lists. */
  ghost predicate SameForest(c: Cache, c': Cache) {
    && c'.root == c.root
    && (forall z {:trigger z in c.heap} {:trigger z in c'.heap} ::
          (z in c.heap && !c.heap[z].EMail?) <==> (z in c'.heap && !c'.heap[z].EMail?))
    && (forall z {:trigger c'.heap[z]} | z in c.heap && !c.heap[z].EMail? ::
          && c'.heap[z].uid == c.heap[z].uid && c'.heap[z].parent == c.heap[z].parent
          && KindOf(c'.heap[z]) == KindOf(c.heap[z])
          && (c.heap[z].Folder? ==> SameLists(c.heap[z], c'.heap[z])))
    && (forall u {:trigger u in c'.hash} | u in c.hash :: u in c'.hash && c'.hash[u] == c.hash[u])
  }

  lemma ForestFrame(c: Cache, c': Cache)
    requires SameForest(c, c') && RootOk(c) && HashedOk(c) && ListsOk(c) && PlacedOk(c)
    ensures RootOk(c') && HashedOk(c') && ListsOk(c') && PlacedOk(c')
  {
    forall f, k: Kind | IsFolder(c', f)
      ensures ListOk(c'.heap, f, k)
    {
      assert SameLists(c.heap[f], c'.heap[f]);
      assert ListOk(c.heap, f, k);
      forall r | r in ListOf(c.heap[f], k)
        ensures r in c'.heap && Is(c'.heap[r], k) && c'.heap[r].parent == Some(f)
      {
        assert KindOf(c'.heap[r]) == KindOf(c.heap[r]);
      }
    }
    forall r | r in c'.heap && r != c'.root && !c'.heap[r].EMail?
      ensures PlacedAt(c', r)
    {
      assert PlacedAt(c, r);
      assert SameLists(c.heap[c.heap[r].parent.value], c'.heap[c.heap[r].parent.value]);
    }
  }

  ghost predicate SameOwned(c: Cache, c': Cache) {
    forall e {:trigger Owned(c', e)} {:trigger Owned(c, e)} {:trigger c'.heap[e]} ::
      (Owned(c, e) <==> Owned(c', e)) && (Owned(c, e) ==> c'.heap[e] == c.heap[e])
  }

  lemma EmailFrame(c: Cache, c': Cache)
    requires SameOwned(c, c') && PersonsOk(c) && EmailsOk(c) && UidsOk(c)
    requires forall p {:trigger IsPerson(c', p)} :: IsPerson(c, p) <==> IsPerson(c', p)
    requires forall p {:trigger IsPerson(c', p)} | IsPerson(c, p)
      && IsPerson(c', p) :: c'.heap[p].emails == c.heap[p].emails
    requires forall e {:trigger EmailOk(c, e)} | EmailOk(c, e)
      && c.heap[e].uid in c'.hash :: c'.hash[c.heap[e].uid] == e
    ensures PersonsOk(c') && EmailsOk(c') && UidsOk(c')
  {
    forall p | IsPerson(c', p)
      ensures PersonOk(c', p)
    {
      assert IsPerson(c, p) && PersonOk(c, p);
      assert c'.heap[p].emails == c.heap[p].emails;
      assert forall e | e in c.heap[p].emails :: Owned(c, e) && Owned(c', e);
    }
    forall e | Owned(c', e)
      ensures EmailOk(c', e)
    {
      assert EmailOk(c, e);
      assert IsPerson(c', c.heap[e].parent.value);
    }
    forall d, e | Namesakes(c', d, e)
      ensures d == e
    {
      assert Namesakes(c, d, e);
    }
  }

  lemma GroupFrame(c: Cache, c': Cache)
    requires GroupsOk(c)
    requires forall e {:trigger Owned(c, e)} {:trigger Owned(c', e)} | Owned(c, e) :: Owned(c', e)
    requires forall g {:trigger IsGroup(c', g)} | IsGroup(c', g) :: IsGroup(c, g)
                                                                    && c'.heap[g].members == c.heap[g].members
    ensures GroupsOk(c')
  {
    forall g | IsGroup(c', g)
      ensures GroupOk(c', g)
    {
      assert c'.heap[g].members == c.heap[g].members;
      assert GroupOk(c, g);
      assert forall e | e in c.heap[g].members :: Owned(c, e) && Owned(c', e);
    }
  }

  lemma FreshFrame(c: Cache, c': Cache)
    requires FreshOk(c) && c'.nextId == c.nextId && c'.top >= c.top
    requires forall r {:trigger r in c'.heap} | r in c'.heap :: r in c.heap || r < c'.top
    requires forall u {:trigger u in c'.hash} | u in c'.hash :: u in c.hash || FreshUid(c, u)
    requires forall e {:trigger c'.heap[e]} | Owned(c', e) :: FreshUid(c, c'.heap[e].uid)
                                                              || (Owned(c, e) && c'.heap[e].uid == c.heap[e].uid)
    ensures FreshOk(c')
  {
    forall r | r in c'.heap
      ensures r < c'.top
    {
      assert r in c.heap ==> r < c.top;
    }
    forall u | u in c'.hash
      ensures FreshUid(c', u)
    {
      assert FreshUid(c, u);
    }
    forall e | Owned(c', e)
      ensures FreshUid(c', c'.heap[e].uid)
    {
      assert Owned(c, e) ==> FreshUid(c, c.heap[e].uid);
    }
  }

  // ---------- the invariant survives ----------

  lemma TickInv(c: Cache)
    requires Inv(c)
    ensures Inv(Tick(c)) && NextUid(c) !in c.hash && GoodUid(Tick(c), NextUid(c))
  {
    var c' := Tick(c);
    ForestFrame(c, c');
    EmailFrame(c, c');
    GroupFrame(c, c');
    forall n: nat | n > c'.nextId
      ensures Decimal(n) != NextUid(c)
    {
      if Decimal(n) == NextUid(c) {
        DecimalInjective(n, c.nextId + 1);
      }
    }
    forall u | u in c'.hash
      ensures FreshUid(c', u) && u != NextUid(c)
    {
      assert FreshUid(c, u);
    }
    forall e | Owned(c', e)
      ensures FreshUid(c', c'.heap[e].uid) && c'.heap[e].uid != NextUid(c)
    {
      assert FreshUid(c, c.heap[e].uid);
    }
  }

  /** Parents inside the heap stay inside it. */
  lemma HeapClosed(c: Cache, k: map<Ref, Item>)
    requires Inv(c)
    requires forall r {:trigger r in k} | r in c.heap :: r in k && k[r].parent == c.heap[r].parent
    ensures SameParents(c.heap, k, c.heap.Keys)
  {
    forall r | r in c.heap.Keys && c.heap[r].parent.Some?
      ensures c.heap[r].parent.value in c.heap.Keys
    {
      ParentType(c, r);
    }
  }

  lemma RootedAfter(c: Cache, c': Cache)
    requires Inv(c) && c'.root == c.root
    requires forall r {:trigger r in c'.heap} | r in c.heap :: r in c'.heap && c'.heap[r].parent == c.heap[r].parent
    requires forall r | r in c'.heap && r !in c.heap && c'.heap[r].parent.Some? ::
      c'.heap[r].parent.value in c.heap && (c'.heap[r].parent.value == c.root
        || c.heap[c'.heap[r].parent.value].parent.Some?)
    ensures RootedOk(c')
  {
    HeapClosed(c, c'.heap);
    ReachesRefl(c.heap, c.root);
    forall r | r in c'.heap && c'.heap[r].parent.Some?
      ensures Reaches(c'.heap, c'.root, r)
    {
      if r in c.heap {
        ReachesAgrees(c.heap, c'.heap, c.heap.Keys, c.root, r);
      } else {
        var p := c'.heap[r].parent.value;
        ReachesAgrees(c.heap, c'.heap, c.heap.Keys, c.root, p);
        ReachesStep(c'.heap, c.root, r);
      }
    }
  }

  lemma InsertedItem(c: Cache, f: Ref, item: Item, z: Ref)
    requires Inv(c) && IsFolder(c, f) && !item.EMail? && item.uid !in c.hash
    ensures var c' := Insert(c, f, item);
      && c.top !in c.heap && f != c.top
      && (z in c'.heap <==> z in c.heap || z == c.top)
      && (z in c.heap && z != f ==> c'.heap[z] == c.heap[z])
      && c'.heap[f] == WithList(c.heap[f], KindOf(item), ListOf(c.heap[f], KindOf(item)) + [c.top])
      && c'.heap[c.top] == WithParent(item, Some(f))
  {
  }

  lemma InsertLists(c: Cache, f: Ref, item: Item)
    requires Inv(c) && IsFolder(c, f) && !item.EMail? && Empty(item) && item.uid !in c.hash
    ensures ListsOk(Insert(c, f, item))
  {
    var c' := Insert(c, f, item);
    InsertedItem(c, f, item, f);
    forall x, k: Kind | IsFolder(c', x)
      ensures ListOk(c'.heap, x, k)
    {
      InsertedItem(c, f, item, x);
      if x != c.top {
        assert ListOk(c.heap, x, k);
        forall r | r in ListOf(c.heap[x], k)
          ensures r in c'.heap && Is(c'.heap[r], k) && c'.heap[r].parent == Some(x) && r != c.top
        {
          InsertedItem(c, f, item, r);
        }
      }
    }
  }

  lemma InsertPlaced(c: Cache, f: Ref, item: Item)
    requires Inv(c) && IsFolder(c, f) && !item.EMail? && Empty(item) && item.uid !in c.hash && item.uid != ""
    ensures var c' := Insert(c, f, item); PlacedOk(c') && HashedOk(c') && KeysOk(c') && RootOk(c')
  {
    var c' := Insert(c, f, item);
    InsertedItem(c, f, item, c.root);
    forall r | r in c'.heap && r != c'.root && !c'.heap[r].EMail?
      ensures PlacedAt(c', r)
      ensures c'.heap[r].uid in c'.hash && c'.hash[c'.heap[r].uid] == r
    {
      InsertedItem(c, f, item, r);
      if r != c.top {
        assert PlacedAt(c, r);
        InsertedItem(c, f, item, c.heap[r].parent.value);
      }
    }
    forall u | u in c'.hash
      ensures c'.hash[u] in c'.heap && c'.heap[c'.hash[u]].uid == u && u != "" && c'.heap[c'.hash[u]].parent.Some?
    {
      InsertedItem(c, f, item, c'.hash[u]);
    }
  }

  lemma InsertEmails(c: Cache, f: Ref, item: Item)
    requires Inv(c) && IsFolder(c, f) && !item.EMail? && Empty(item) && item.uid !in c.hash && GoodUid(c, item.uid)
    ensures var c' := Insert(c, f, item); PersonsOk(c') && EmailsOk(c') && UidsOk(c') && GroupsOk(c')
  {
    var c' := Insert(c, f, item);
    forall e | e in c.heap && c.heap[e].EMail?
      ensures e in c'.heap && c'.heap[e] == c.heap[e]
    {
      InsertedItem(c, f, item, e);
    }
    forall p | IsPerson(c', p)
      ensures PersonOk(c', p)
    {
      InsertedItem(c, f, item, p);
      if p != c.top {
        assert PersonOk(c, p);
      }
    }
    forall e | Owned(c', e)
      ensures EmailOk(c', e)
    {
      InsertedItem(c, f, item, e);
      assert EmailOk(c, e);
      InsertedItem(c, f, item, c.heap[e].parent.value);
    }
    forall d, e | Namesakes(c', d, e)
      ensures d == e
    {
      InsertedItem(c, f, item, d);
      InsertedItem(c, f, item, e);
      assert Namesakes(c, d, e);
    }
    forall g | IsGroup(c', g)
      ensures GroupOk(c', g)
    {
      InsertedItem(c, f, item, g);
      if g != c.top {
        assert GroupOk(c, g);
        assert forall e | e in c.heap[g].members :: Owned(c, e) && Owned(c', e);
      }
    }
  }

  lemma InsertRooted(c: Cache, f: Ref, item: Item)
    requires Inv(c) && IsFolder(c, f) && !item.EMail? && item.uid !in c.hash && GoodUid(c, item.uid)
    ensures RootedOk(Insert(c, f, item)) && FreshOk(Insert(c, f, item))
  {
    var c' := Insert(c, f, item);
    forall r | r in c'.heap
      ensures r < c'.top
      ensures r in c.heap ==> c'.heap[r].parent == c.heap[r].parent && c'.heap[r].uid == c.heap[r].uid
      ensures Owned(c', r) ==> Owned(c, r)
    {
      InsertedItem(c, f, item, r);
    }
    forall r | r in c.heap
      ensures r in c'.heap
    {
      InsertedItem(c, f, item, r);
    }
    assert f != c.root ==> PlacedAt(c, f);
    RootedAfter(c, c');
    forall u | u in c'.hash
      ensures FreshUid(c', u)
    {
      assert u == item.uid || FreshUid(c, u);
    }
    forall e | Owned(c', e)
      ensures FreshUid(c', c'.heap[e].uid)
    {
      assert Owned(c, e);
      assert FreshUid(c, c.heap[e].uid);
    }
  }

  lemma InsertInv(c: Cache, f: Ref, item: Item)
    requires Inv(c) && IsFolder(c, f) && !item.EMail? && Empty(item) && BringsUid(c, item.uid)
    ensures Inv(Insert(c, f, item))
  {
    if item.uid !in c.hash {
      InsertLists(c, f, item);
      InsertPlaced(c, f, item);
      InsertEmails(c, f, item);
      InsertRooted(c, f, item);
    }
  }

  /** Insertion leaves every old item below the same items as before. */
  lemma InsertReaches(c: Cache, f: Ref, item: Item, a: Ref, r: Ref)
    requires Inv(c) && IsFolder(c, f) && !item.EMail? && r in c.heap
    ensures Reaches(Insert(c, f, item).heap, a, r) <==> Reaches(c.heap, a, r)
  {
    if item.uid !in c.hash {
      var c' := Insert(c, f, item);
      forall z | z in c.heap
        ensures z in c'.heap && c'.heap[z].parent == c.heap[z].parent
      {
        InsertedItem(c, f, item, z);
      }
      HeapClosed(c, c'.heap);
      ReachesAgrees(c.heap, c'.heap, c.heap.Keys, a, r);
    }
  }

  /** An email that nobody holds does not matter to the invariant. */
  lemma SpareInv(c: Cache, r: Ref, e: Item)
    requires Inv(c) && e.EMail? && r !in c.heap && r < c.top
    ensures Inv(Spare(c, r, e))
  {
    hide RootOk, HashedOk, ListsOk, PlacedOk, PersonsOk, EmailsOk, UidsOk, GroupsOk, RootedOk, FreshOk;
    var c' := Spare(c, r, e);
    assert forall z | z in c.heap :: z != r && c'.heap[z] == c.heap[z];
    RootedAfter(c, c');
    ForestFrame(c, c');
    EmailFrame(c, c');
    GroupFrame(c, c');
    FreshFrame(c, c');
  }

  lemma MakeEmailInv(c: Cache, e: Item)
    requires Inv(c) && e.EMail?
    ensures Inv(MakeEmail(c, e)) && c.top !in c.heap && Pending(MakeEmail(c, e), c.top)
  {
    var b := c.(top := c.top + 1);
    ForestFrame(c, b);
    EmailFrame(c, b);
    GroupFrame(c, b);
    FreshFrame(c, b);
    SpareInv(b, c.top, e);
  }

  lemma DetachInv(c: Cache, e: Ref)
    requires Inv(c) && Owned(c, e)
    ensures Inv(Detach(c, e)) && Pending(Detach(c, e), e)
  {
    assert c.heap[e].parent.Some?;
    PruneInv(c, e);
    ReachesRefl(c.heap, e);
    PrunedItem(c, e, e);
    SpareInv(Prune(c, e), e, c.heap[e]);
  }

  lemma AttachedItem(c: Cache, p: Ref, e: Ref, z: Ref)
    requires Inv(c) && IsPerson(c, p) && Pending(c, e)
    ensures var c' := Attach(c, p, e);
      && p != e && e != c.root
      && (z in c'.heap <==> z in c.heap)
      && (z in c.heap && z != p && z != e ==> c'.heap[z] == c.heap[z])
      && c'.heap[p] == c.heap[p].(emails := c.heap[p].emails + [e])
      && c'.heap[e] == WithParent(c.heap[e], Some(p))
  {
  }

  lemma AttachRooted(c: Cache, p: Ref, e: Ref)
    requires Inv(c) && IsPerson(c, p) && Pending(c, e)
    ensures RootedOk(Attach(c, p, e))
  {
    var c' := Attach(c, p, e);
    var s := c.heap.Keys - {e};
    AttachedItem(c, p, e, e);
    forall z | z in s
      ensures z in c'.heap && c'.heap[z].parent == c.heap[z].parent
      ensures c.heap[z].parent.Some? ==> c.heap[z].parent.value in s
    {
      AttachedItem(c, p, e, z);
      if c.heap[z].parent.Some? {
        ParentType(c, z);
      }
    }
    assert SameParents(c.heap, c'.heap, s);
    forall r | r in c'.heap && c'.heap[r].parent.Some?
      ensures Reaches(c'.heap, c'.root, r)
    {
      AttachedItem(c, p, e, r);
      ReachesAgrees(c.heap, c'.heap, s, c.root, if r == e then p else r);
      ReachesStep(c'.heap, c.root, r);
    }
  }

  lemma AttachPlaced(c: Cache, p: Ref, e: Ref)
    requires Inv(c) && IsPerson(c, p) && Pending(c, e)
    ensures var c' := Attach(c, p, e); RootOk(c') && KeysOk(c') && HashedOk(c') && ListsOk(c') && PlacedOk(c')
  {
    var c' := Attach(c, p, e);
    forall z | z in c.heap
      ensures z in c'.heap && c'.heap[z].uid == c.heap[z].uid
      ensures c.heap[z].EMail? <==> c'.heap[z].EMail?
      ensures z != e ==> c'.heap[z].parent == c.heap[z].parent
      ensures !c.heap[z].EMail? ==> KindOf(c'.heap[z]) == KindOf(c.heap[z])
      ensures c.heap[z].Folder? ==> c'.heap[z] == c.heap[z]
    {
      AttachedItem(c, p, e, z);
      AttachedItem(c, p, e, e);
    }
    ForestFrame(c, c');
    forall u | u in c'.hash
      ensures c'.hash[u] in c'.heap && c'.heap[c'.hash[u]].uid == u && u != "" && c'.heap[c'.hash[u]].parent.Some?
    {
      AttachedItem(c, p, e, c.hash[u]);
    }
  }

  lemma AttachEmails(c: Cache, p: Ref, e: Ref)
    requires Inv(c) && IsPerson(c, p) && Pending(c, e) && GoodUid(c, c.heap[e].uid) && c.heap[e].uid !in c.hash
    ensures var c' := Attach(c, p, e); EmailsOk(c') && UidsOk(c')
  {
    var c' := Attach(c, p, e);
    AttachedItem(c, p, e, e);
    forall d | Owned(c', d)
      ensures EmailOk(c', d)
    {
      AttachedItem(c, p, e, d);
      if d != e {
        assert EmailOk(c, d);
        AttachedItem(c, p, e, c.heap[d].parent.value);
      }
    }
    forall a, b | Namesakes(c', a, b)
      ensures a == b
    {
      AttachedItem(c, p, e, a);
      AttachedItem(c, p, e, b);
      if a != e && b != e {
        assert Namesakes(c, a, b);
      }
    }
  }

  lemma AttachPersons(c: Cache, p: Ref, e: Ref)
    requires Inv(c) && IsPerson(c, p) && Pending(c, e)
    ensures PersonsOk(Attach(c, p, e))
  {
    var c' := Attach(c, p, e);
    AttachedItem(c, p, e, e);
    assert e !in c.heap[p].emails by {
      assert PersonOk(c, p);
    }
    forall q | IsPerson(c', q)
      ensures PersonOk(c', q)
    {
      AttachedItem(c, p, e, q);
      assert PersonOk(c, q);
      forall d | d in c.heap[q].emails
        ensures d in c'.heap && c'.heap[d].EMail? && c'.heap[d].parent == Some(q)
      {
        AttachedItem(c, p, e, d);
      }
    }
  }

  lemma AttachGroups(c: Cache, p: Ref, e: Ref)
    requires Inv(c) && IsPerson(c, p) && Pending(c, e) && FreshUid(c, c.heap[e].uid)
    ensures GroupsOk(Attach(c, p, e)) && FreshOk(Attach(c, p, e))
  {
    hide RootOk, HashedOk, ListsOk, PlacedOk, PersonsOk, EmailsOk, UidsOk, GroupsOk, RootedOk, FreshOk;
    var c' := Attach(c, p, e);
    forall z | z in c.heap
      ensures Owned(c, z) ==> Owned(c', z)
      ensures Owned(c', z) ==> z == e || Owned(c, z)
      ensures c'.heap[z].uid == c.heap[z].uid
    {
      AttachedItem(c, p, e, z);
      AttachedItem(c, p, e, e);
    }
    GroupFrame(c, c');
    FreshFrame(c, c');
  }

  /** Giving a person an unhashed email, as `add_contact` does. */
  lemma AttachInv(c: Cache, p: Ref, e: Ref)
    requires Inv(c) && IsPerson(c, p) && Pending(c, e) && GoodUid(c, c.heap[e].uid) && c.heap[e].uid !in c.hash
    ensures Inv(Attach(c, p, e))
  {
    AttachPlaced(c, p, e);
    AttachPersons(c, p, e);
    AttachEmails(c, p, e);
    AttachGroups(c, p, e);
    AttachRooted(c, p, e);
  }

  /** Hashing an owned email that was not hashed. */
  lemma HashEmailInv(c: Cache, e: Ref)
    requires Inv(c) && Owned(c, e) && c.heap[e].uid !in c.hash
    ensures Inv(c.(hash := c.hash[c.heap[e].uid := e]))
  {
    var c' := c.(hash := c.hash[c.heap[e].uid := e]);
    assert FreshUid(c, c.heap[e].uid);
    assert EmailOk(c, e);
    forall d | EmailOk(c, d) && c.heap[d].uid == c.heap[e].uid
      ensures d == e
    {
      assert Namesakes(c, d, e);
    }
    ForestFrame(c, c');
    EmailFrame(c, c');
    GroupFrame(c, c');
    FreshFrame(c, c');
  }

  lemma AddEmailInv(c: Cache, p: Ref, e: Ref)
    requires Inv(c) && IsPerson(c, p) && Pending(c, e) && BringsUid(c, c.heap[e].uid)
    ensures Inv(AddEmail(c, p, e))
  {
    if c.heap[e].uid !in c.hash {
      AttachInv(c, p, e);
      AttachedItem(c, p, e, e);
      HashEmailInv(Attach(c, p, e), e);
    }
  }

  /** An item of the same kind, with the same uid, in the same place, that holds the same. */
  predicate SameHolds(i: Item, j: Item) {
    && j.uid == i.uid && j.parent == i.parent
    && match i
       case Folder(_, _, _, _, _, _, _) => SameLists(i, j)
       case Person(_, _, _, _, _, _, emails, _) => j.Person? && j.emails == emails
       case Group(_, _, _, _, members) => j.Group? && j.members == members
       case EMail(_, _, _, _, _) => j == i
  }

  lemma HoldsFrame(c: Cache, b: Cache)
    requires b.heap.Keys == c.heap.Keys && b == c.(heap := b.heap)
    requires forall z {:trigger b.heap[z]} | z in c.heap :: SameHolds(c.heap[z], b.heap[z])
    ensures SameForest(c, b) && SameOwned(c, b)
    ensures forall z {:trigger b.heap[z]} | z in c.heap :: b.heap[z].uid == c.heap[z].uid
                                                             && b.heap[z].parent == c.heap[z].parent
    ensures forall p {:trigger IsPerson(b, p)} :: IsPerson(c, p) <==> IsPerson(b, p)
    ensures forall p {:trigger IsPerson(b, p)} | IsPerson(c, p) && IsPerson(b, p) ::
      b.heap[p].emails == c.heap[p].emails
    ensures forall g {:trigger IsGroup(b, g)} | IsGroup(b, g) :: IsGroup(c, g)
                                                                   && b.heap[g].members == c.heap[g].members
  {
  }

  /** What items say of themselves is no matter for the agreement. */
  lemma SameRecords(c: Cache, b: Cache)
    requires Inv(c) && b.heap.Keys == c.heap.Keys && b == c.(heap := b.heap)
    requires forall z {:trigger b.heap[z]} | z in c.heap :: SameHolds(c.heap[z], b.heap[z])
    ensures Inv(b)
  {
    HoldsFrame(c, b);
    hide SameForest, SameOwned, SameHolds;
    hide RootOk, HashedOk, ListsOk, PlacedOk, PersonsOk, UidsOk, GroupsOk, RootedOk, FreshOk;
    ForestFrame(c, b);
    RootedAfter(c, b);
    KeysStay(c, b);
    OwnedFrame(c, b);
  }

  lemma KeysStay(c: Cache, b: Cache)
    requires KeysOk(c) && b.heap.Keys == c.heap.Keys && b.hash == c.hash
    requires forall z {:trigger b.heap[z]} | z in c.heap :: b.heap[z].uid == c.heap[z].uid
                                                              && b.heap[z].parent == c.heap[z].parent
    ensures KeysOk(b)
  {
  }

  lemma OwnedFrame(c: Cache, b: Cache)
    requires SameOwned(c, b) && b.hash == c.hash && b.nextId == c.nextId && b.top == c.top
    requires PersonsOk(c) && EmailsOk(c) && UidsOk(c) && GroupsOk(c) && FreshOk(c) && b.heap.Keys == c.heap.Keys
    requires forall p {:trigger IsPerson(b, p)} :: IsPerson(c, p) <==> IsPerson(b, p)
    requires forall p {:trigger IsPerson(b, p)} | IsPerson(c, p) && IsPerson(b, p) ::
      b.heap[p].emails == c.heap[p].emails
    requires forall g {:trigger IsGroup(b, g)} | IsGroup(b, g) :: IsGroup(c, g)
                                                                    && b.heap[g].members == c.heap[g].members
    ensures PersonsOk(b) && EmailsOk(b) && UidsOk(b) && GroupsOk(b) && FreshOk(b)
  {
    EmailFrame(c, b);
    GroupFrame(c, b);
    FreshFrame(c, b);
  }

  /** `addrcache_set_dirty`. */
  lemma DirtyInv(c: Cache)
    requires Inv(c)
    ensures Inv(c.(dirty := true))
  {
    hide RootOk, HashedOk, ListsOk, PlacedOk, PersonsOk, EmailsOk, UidsOk, GroupsOk, RootedOk, FreshOk;
    var b := c.(dirty := true);
    ForestFrame(c, b);
    EmailFrame(c, b);
    GroupFrame(c, b);
    FreshFrame(c, b);
    RootedAfter(c, b);
  }

  lemma JoinedItem(c: Cache, g: Ref, e: Ref, z: Ref)
    requires Inv(c) && IsGroup(c, g)
    ensures var c' := Join(c, g, e);
      && g != c.root
      && (z in c'.heap <==> z in c.heap)
      && (z in c.heap && z != g ==> c'.heap[z] == c.heap[z])
      && c'.heap[g] == c.heap[g].(members := if e in c.heap[g].members then c.heap[g].members
        else c.heap[g].members + [e])
  {
  }

  lemma JoinGroups(c: Cache, g: Ref, e: Ref)
    requires Inv(c) && IsGroup(c, g) && Owned(c, e)
    ensures GroupsOk(Join(c, g, e))
  {
    var c' := Join(c, g, e);
    forall x | IsGroup(c', x)
      ensures GroupOk(c', x)
    {
      JoinedItem(c, g, e, x);
      assert GroupOk(c, x);
      assert GroupOk(c, g);
      forall d | d in c'.heap[x].members
        ensures Owned(c', d)
      {
        assert Owned(c, d);
        JoinedItem(c, g, e, d);
      }
    }
  }

  lemma JoinInv(c: Cache, g: Ref, e: Ref)
    requires Inv(c) && IsGroup(c, g) && Owned(c, e)
    ensures Inv(Join(c, g, e))
  {
    var c' := Join(c, g, e);
    forall z | z in c.heap
      ensures z in c'.heap && c'.heap[z].uid == c.heap[z].uid && c'.heap[z].parent == c.heap[z].parent
      ensures c'.heap[z] == c.heap[z] || (z == g && c.heap[z].Group? && c'.heap[z].Group?)
    {
      JoinedItem(c, g, e, z);
    }
    JoinGroups(c, g, e);
    RootedAfter(c, c');
    ForestFrame(c, c');
    EmailFrame(c, c');
    FreshFrame(c, c');
  }
}
