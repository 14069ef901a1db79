/** The address cache as the source has it: an object whose functions rewrite its hash table,
    its items and its flags step by step (src/addrcache.c).  Each method is proved to take the
    cache to the state that the functions of the modules before it describe. */
module AddrCache {
  import opened Items
  import opened CacheState
  import opened CachePrune
  import opened CacheEdit
  import opened CacheForest
  import opened CacheContract

  // ---------- removal, one step at a time ----------

  /** The items with the emails of `d` taken out of every group. */
  function GroupsWithout(h: map<Ref, Item>, d: set<Ref>): map<Ref, Item> {
    map r | r in h :: if h[r].Group? then h[r].(members := Without(h[r].members, d)) else h[r]
  }

  lemma GroupsWithoutTwice(h: map<Ref, Item>, a: set<Ref>, b: set<Ref>)
    ensures GroupsWithout(GroupsWithout(h, a), b) == GroupsWithout(h, a + b)
  {
    var k := GroupsWithout(GroupsWithout(h, a), b);
    forall r | r in h
      ensures k[r] == GroupsWithout(h, a + b)[r]
    {
      if h[r].Group? {
        WithoutTwice(h[r].members, a, b);
      }
    }
  }

  lemma GroupsWithoutNone(h: map<Ref, Item>)
    ensures GroupsWithout(h, {}) == h
  {
    forall r | r in h && h[r].Group?
      ensures Without(h[r].members, {}) == h[r].members
    {
      WithoutDisjoint(h[r].members, {});
    }
  }

  /** The items with the first reference to `e` taken out of every group. */
  function GroupsDrop(h: map<Ref, Item>, e: Ref): map<Ref, Item> {
    map r | r in h :: if h[r].Group? then h[r].(members := RemoveFirst(h[r].members, e)) else h[r]
  }

  /** Every group is found by going through the hash table. */
  ghost predicate GroupsHashed(h: map<Ref, Item>, hash: map<Uid, Ref>) {
    && (forall u {:trigger u in hash} | u in hash :: hash[u] in h && h[hash[u]].uid == u)
    && (forall r {:trigger h[r]} | r in h && h[r].Group? :: h[r].uid in hash && hash[h[r].uid] == r)
  }

  /** Where groups refer to an email once, dropping the first reference drops them all. */
  lemma DropIsWithout(h: map<Ref, Item>, hash: map<Uid, Ref>, e: Ref)
    requires GroupsFound(h, hash)
    ensures GroupsHashed(h, hash) && GroupsDrop(h, e) == GroupsWithout(h, {e})
      && GroupsFound(GroupsWithout(h, {e}), hash)
  {
    forall r | r in h && h[r].Group?
      ensures RemoveFirst(h[r].members, e) == Without(h[r].members, {e}) && NoDup(Without(h[r].members, {e}))
    {
      RemoveFirstIsWithout(h[r].members, e);
      WithoutNoDup(h[r].members, {e});
    }
  }

  /** Every group is found by going through the hash table, and refers to an email once. */
  ghost predicate GroupsFound(h: map<Ref, Item>, hash: map<Uid, Ref>) {
    && (forall u {:trigger u in hash} | u in hash :: hash[u] in h && h[hash[u]].uid == u)
    && (forall r {:trigger h[r]} | r in h && h[r].Group? ::
          h[r].uid in hash && hash[h[r].uid] == r && NoDup(h[r].members))
  }

  lemma InvGroupsFound(c: Cache)
    requires Inv(c)
    ensures GroupsFound(c.heap, c.hash)
  {
    forall r | r in c.heap && c.heap[r].Group?
      ensures NoDup(c.heap[r].members)
    {
      assert GroupOk(c, r);
    }
  }

  /** In a folder outside `x`'s subtree only the entry for `x` itself can point into it. */
  lemma ScrubFolder(c: Cache, x: Ref, z: Ref)
    requires Inv(c) && x in c.heap && x != c.root && IsFolder(c, z) && z !in Sub(c, x)
    ensures Scrub(c.heap[z], Sub(c, x)) ==
      if c.heap[x].EMail? then c.heap[z]
      else WithList(c.heap[z], KindOf(c.heap[x]), Without(ListOf(c.heap[z], KindOf(c.heap[x])), {x}))
  {
    forall k: Kind
      ensures Without(ListOf(c.heap[z], k), Sub(c, x)) ==
        if Is(c.heap[x], k) then Without(ListOf(c.heap[z], k), {x}) else ListOf(c.heap[z], k)
    {
      var s := ListOf(c.heap[z], k);
      assert ListOk(c.heap, z, k);
      ReachesRefl(c.heap, x);
      forall r | r in s && r in Sub(c, x)
        ensures r == x && Is(c.heap[x], k)
      {
        ReachesStep(c.heap, x, r);
      }
      if Is(c.heap[x], k) {
        WithoutSame(s, Sub(c, x), {x});
      } else {
        WithoutDisjoint(s, Sub(c, x));
      }
    }
    assert Without(c.heap[z].folders, Sub(c, x)) == Without(ListOf(c.heap[z], FolderKind), Sub(c, x));
    assert Without(c.heap[z].persons, Sub(c, x)) == Without(ListOf(c.heap[z], PersonKind), Sub(c, x));
    assert Without(c.heap[z].groups, Sub(c, x)) == Without(ListOf(c.heap[z], GroupKind), Sub(c, x));
  }

  lemma {:induction false} WithoutSame(s: seq<Ref>, a: set<Ref>, b: set<Ref>)
    requires forall r | r in s :: r in a <==> r in b
    ensures Without(s, a) == Without(s, b)
  {
    if s != [] {
      WithoutSame(s[1..], a, b);
    }
  }

  lemma ScrubPerson(c: Cache, x: Ref, z: Ref)
    requires Inv(c) && x in c.heap && IsPerson(c, z) && z !in Sub(c, x)
    requires c.heap[x].parent != Some(z)
    ensures Scrub(c.heap[z], Sub(c, x)) == c.heap[z]
  {
    assert PersonOk(c, z);
    forall e | e in c.heap[z].emails
      ensures e !in Sub(c, x)
    {
      ReachesStep(c.heap, x, e);
    }
    WithoutDisjoint(c.heap[z].emails, Sub(c, x));
  }

  /** Only emails are members of groups. */
  lemma ScrubGroup(c: Cache, x: Ref, es: set<Ref>, z: Ref)
    requires Inv(c) && IsGroup(c, z)
    requires forall e | e in Sub(c, x) && c.heap[e].EMail? :: e in es
    requires es <= Sub(c, x)
    ensures Scrub(c.heap[z], Sub(c, x)) == c.heap[z].(members := Without(c.heap[z].members, es))
  {
    assert GroupOk(c, z);
    assert forall e | e in c.heap[z].members :: Owned(c, e);
    WithoutSame(c.heap[z].members, Sub(c, x), es);
  }

  /** The list of `x`'s parent loses `x`, and `x` is freed. */
  function Unlink(h: map<Ref, Item>, x: Ref): map<Ref, Item>
    requires x in h && !h[x].EMail? && h[x].parent.Some? && h[x].parent.value in h && h[h[x].parent.value].Folder?
  {
    var p := h[x].parent.value;
    var k := KindOf(h[x]);
    h[p := WithList(h[p], k, RemoveFirst(ListOf(h[p], k), x))] - {x}
  }

  /** One item of the outcome, seen both ways. */
  lemma {:induction false} PruneUnlinkAt(c: Cache, x: Ref, es: seq<Ref>, z: Ref)
    requires Inv(c) && Movable(c, x) && PlacedAt(c, x) && Sub(c, x) == {x} + Elems(es) && z in c.heap && z !in Sub(c, x)
    requires forall e | e in es :: e in c.heap && c.heap[e].EMail?
    ensures var h := GroupsWithout(c.heap, Elems(es)); var p, k := c.heap[x].parent.value, KindOf(c.heap[x]);
      && p in h && h[p].Folder?
      && Scrub(c.heap[z], Sub(c, x)) == if z == p then WithList(h[p], k, RemoveFirst(ListOf(h[p], k), x)) else h[z]
  {
    var p, k := c.heap[x].parent.value, KindOf(c.heap[x]);
    match c.heap[z]
    case Folder(_, _, _, _, _, _, _) =>
      assert ListOk(c.heap, z, k);
      hide Inv;
      ScrubFolder(c, x, z);
      if z != p {
        WithoutDisjoint(ListOf(c.heap[z], k), {x});
      } else {
        RemoveFirstIsWithout(ListOf(c.heap[p], k), x);
      }
    case Person(_, _, _, _, _, _, _, _) => ScrubPerson(c, x, z);
    case EMail(_, _, _, _, _) =>
    case Group(_, _, _, _, _) => ScrubGroup(c, x, Elems(es), z);
  }

  /** An item with nothing below it, save the emails `es` of a person, is pruned by taking the
      emails out of groups, unlinking and unhashing. */
  lemma PruneByUnlinking(c: Cache, x: Ref, es: seq<Ref>)
    requires Inv(c) && Movable(c, x) && Sub(c, x) == {x} + Elems(es)
    requires forall e | e in es :: e in c.heap && c.heap[e].EMail?
    ensures PlacedAt(c, x)
    ensures var h := GroupsWithout(c.heap, Elems(es));
      && x in h && h[x].parent == c.heap[x].parent && h[x].parent.value in h && h[h[x].parent.value].Folder?
      && KindOf(h[x]) == KindOf(c.heap[x])
      && Prune(c, x).heap == Unlink(h, x) - Elems(es)
  {
    assert PlacedAt(c, x);
    ReachesRefl(c.heap, x);
    var p := c.heap[x].parent.value;
    NotBelowItself(c, x);
    hide Inv, PlacedAt, Scrub, WithList, RemoveFirst;
    var h := GroupsWithout(c.heap, Elems(es));
    var a, b := Prune(c, x).heap, Unlink(h, x) - Elems(es);
    forall z
      ensures z in a <==> z in b
      ensures z in a ==> a[z] == b[z]
    {
      PrunedItem(c, x, z);
      if z in a {
        PruneUnlinkAt(c, x, es, z);
      }
    }
    assert a == b;
  }

  /** The folder that lists an item is not among what is pruned with it. */
  lemma NotBelowItself(c: Cache, x: Ref)
    requires Inv(c) && Movable(c, x) && PlacedAt(c, x)
    ensures c.heap[x].parent.value !in Sub(c, x) && IsFolder(c, c.heap[x].parent.value)
  {
    var p := c.heap[x].parent.value;
    if p in Sub(c, x) {
      SubShrinks(c, p, x);
    }
  }

  lemma HashWithoutTwice(hash: map<Uid, Ref>, a: set<Ref>, b: set<Ref>)
    ensures HashWithout(HashWithout(hash, a), b) == HashWithout(hash, a + b)
  {
  }

  /** The hash loses exactly the entry of `x` when the uid of `x` is removed from it. */
  lemma UnhashOne(c: Cache, d: set<Ref>, x: Ref)
    requires Inv(c) && x in c.heap
    requires c.heap[x].uid in c.hash ==> c.hash[c.heap[x].uid] == x
    ensures HashWithout(c.hash, d) - {c.heap[x].uid} == HashWithout(c.hash, d + {x})
  {
    var a, b := HashWithout(c.hash, d) - {c.heap[x].uid}, HashWithout(c.hash, d + {x});
    forall u
      ensures u in a <==> u in b
      ensures u in a ==> a[u] == b[u]
    {
      if u in c.hash && c.hash[u] == x {
        assert c.heap[c.hash[u]].uid == u;
      }
    }
  }

  /** A new contact: the person hashed under the next uid, its one email under the uid after
      that, but in no hash entry. */
  function Contact(c: Cache, f: Ref, name: string, address: string, remarks: string): Cache
    requires IsFolder(c, f)
  {
    var p, e := c.top, c.top + 1;
    Cache(c.heap[f := WithList(c.heap[f], PersonKind, c.heap[f].persons + [p])]
            [p := Person(Decimal(c.nextId + 1), name, Some(f), "", "", "", [e], [])]
            [e := EMail(Decimal(c.nextId + 2), "", Some(p), address, remarks)],
          c.hash[Decimal(c.nextId + 1) := p], c.root, c.nextId + 2, c.top + 2, true)
  }

  lemma MakeEmailKeepsUid(c: Cache, e: Item, u: Uid)
    requires Inv(c) && e.EMail? && GoodUid(c, u)
    ensures GoodUid(MakeEmail(c, e), u)
  {
    var c' := MakeEmail(c, e);
    forall d | Owned(c', d)
      ensures c'.heap[d].uid != u
    {
      assert d != c.top;
      assert Owned(c, d) && c.heap[d].uid != u;
    }
  }

  /** The new person of a contact, and the cache once it is in. */
  function ContactItem(c: Cache, name: string): Item {
    Person(NextUid(c), name, None, "", "", "", [], [])
  }

  function ContactEmail(c: Cache, address: string, remarks: string): Item {
    EMail(Decimal(c.nextId + 2), "", None, address, remarks)
  }

  lemma ContactInserted(c: Cache, f: Ref, name: string)
    requires IsFolder(c, f) && f != c.top && NextUid(c) !in c.hash
    ensures Insert(Tick(c), f, ContactItem(c, name)) == Cache(
      c.heap[c.top := Person(NextUid(c), name, Some(f), "", "", "", [], [])]
            [f := WithList(c.heap[f], PersonKind, c.heap[f].persons + [c.top])],
      c.hash[NextUid(c) := c.top], c.root, c.nextId + 1, c.top + 1, true)
  {
    hide WithList;
    assert ListOf(c.heap[f], PersonKind) == c.heap[f].persons;
  }

  lemma NothingAbove(c: Cache, f: Ref)
    requires Inv(c) && f in c.heap
    ensures c.top !in c.heap && c.top + 1 !in c.heap && f < c.top && NextUid(c) !in c.hash
  {
    TickInv(c);
  }

  lemma ContactBySteps(c: Cache, f: Ref, name: string, address: string, remarks: string)
    requires Inv(c) && IsFolder(c, f)
    ensures var item := Person(NextUid(c), name, None, "", "", "", [], []);
      var c1 := Insert(Tick(c), f, item);
      var c2 := MakeEmail(Tick(c1), EMail(NextUid(c1), "", None, address, remarks));
      && c1.top == c.top + 1 && IsPerson(c2, c.top) && Pending(c2, c.top + 1)
      && Attach(c2, c.top, c.top + 1) == Contact(c, f, name, address, remarks)
  {
    hide Inv, WithList, Insert, Decimal;
    NothingAbove(c, f);
    var p: Ref, e: Ref := c.top, c.top + 1;
    ContactInserted(c, f, name);
    var c1 := Insert(Tick(c), f, ContactItem(c, name));
    var c2 := MakeEmail(Tick(c1), EMail(NextUid(c1), "", None, address, remarks));
    assert c2.heap == c1.heap[e := ContactEmail(c, address, remarks)];
    var fi := WithList(c.heap[f], PersonKind, c.heap[f].persons + [p]);
    var ei := ContactEmail(c, address, remarks);
    assert [] + [e] == [e];
  }

  /** What a new contact is: a person of this name and no other, at the end of its folder, with one email
      of this address and these remarks; the two uids are the next two numbers. */
  lemma ContactIs(c: Cache, f: Ref, name: string, address: string, remarks: string)
    requires Inv(c) && IsFolder(c, f)
    ensures var d := Contact(c, f, name, address, remarks); var p, e := c.top, c.top + 1;
      && p !in c.heap && e !in c.heap && d.heap.Keys == c.heap.Keys + {p, e}
      && d.heap[p] == Person(Decimal(c.nextId + 1), name, Some(f), "", "", "", [e], [])
      && d.heap[e] == EMail(Decimal(c.nextId + 2), "", Some(p), address, remarks)
      && d.heap[f].Folder? && d.heap[f].persons == c.heap[f].persons + [p]
      && d.heap[f].groups == c.heap[f].groups && d.heap[f].folders == c.heap[f].folders
      && (forall z | z in c.heap && z != f :: d.heap[z] == c.heap[z])
      && d.hash == c.hash[Decimal(c.nextId + 1) := p] && d.nextId == c.nextId + 2
  {
    NothingAbove(c, f);
  }

  /** The contact's email is owned but hashed nowhere, and the cache is still in agreement. */
  lemma ContactInv(c: Cache, f: Ref, name: string, address: string, remarks: string)
    requires Inv(c) && IsFolder(c, f)
    ensures var c' := Contact(c, f, name, address, remarks);
      Inv(c') && Owned(c', c.top + 1) && c'.heap[c.top + 1].uid !in c'.hash
  {
    TickInv(c);
    var item := Person(NextUid(c), name, None, "", "", "", [], []);
    InsertInv(Tick(c), f, item);
    var c1 := Insert(Tick(c), f, item);
    TickInv(c1);
    var e := EMail(NextUid(c1), "", None, address, remarks);
    MakeEmailInv(Tick(c1), e);
    MakeEmailKeepsUid(Tick(c1), e, NextUid(c1));
    ContactBySteps(c, f, name, address, remarks);
    AttachInv(MakeEmail(Tick(c1), e), c.top, c.top + 1);
  }

  /** The move functions' three updates: out of one list, into another, a new parent. */
  function MoveSteps(h: map<Ref, Item>, r: Ref, t: Ref): map<Ref, Item>
    requires r in h && !h[r].EMail? && h[r].parent.Some? && h[r].parent.value in h && h[h[r].parent.value].Folder?
    requires t in h && h[t].Folder?
  {
    var k, p := KindOf(h[r]), h[r].parent.value;
    var h1 := h[p := WithList(h[p], k, RemoveFirst(ListOf(h[p], k), r))];
    var h2 := h1[t := WithList(h1[t], k, ListOf(h1[t], k) + [r])];
    h2[r := WithParent(h2[r], Some(t))]
  }

  lemma NotOwnParent(c: Cache, r: Ref)
    requires Inv(c) && r in c.heap
    ensures c.heap[r].parent != Some(r)
  {
    if c.heap[r].parent == Some(r) {
      assert Climb(c.heap, r, 1) == Some(r);
      NoCycle(c, r, 1);
    }
  }

  lemma MoveStepsAt(c: Cache, r: Ref, t: Ref, z: Ref)
    requires Movable(c, r) && IsFolder(c, t) && z in c.heap
    requires c.heap[r].parent.Some? && IsFolder(c, c.heap[r].parent.value) && c.heap[r].parent.value != r
    requires c.heap[z].Folder? ==> NoDup(ListOf(c.heap[z], KindOf(c.heap[r])))
    requires c.heap[z].Folder? && c.heap[r].parent != Some(z) ==> r !in ListOf(c.heap[z], KindOf(c.heap[r]))
    ensures z in MoveSteps(c.heap, r, t) && Move(c, r, t).heap[z] == MoveSteps(c.heap, r, t)[z]
  {
    var k, p := KindOf(c.heap[r]), c.heap[r].parent.value;
    if c.heap[z].Folder? && (z != r || t == r) {
      var s := ListOf(c.heap[z], k);
      RemoveFirstIsWithout(s, r);
      if z != p {
        WithoutDisjoint(s, {r});
      }
    }
  }

  lemma ListedHere(c: Cache, r: Ref, z: Ref)
    requires Inv(c) && Movable(c, r) && z in c.heap
    ensures c.heap[z].Folder? ==> NoDup(ListOf(c.heap[z], KindOf(c.heap[r])))
    ensures c.heap[z].Folder? && c.heap[r].parent != Some(z) ==> r !in ListOf(c.heap[z], KindOf(c.heap[r]))
  {
    assert c.heap[z].Folder? ==> ListOk(c.heap, z, KindOf(c.heap[r]));
  }

  lemma MoveStepsKeys(h: map<Ref, Item>, r: Ref, t: Ref)
    requires r in h && !h[r].EMail? && h[r].parent.Some? && h[r].parent.value in h && h[h[r].parent.value].Folder?
    requires t in h && h[t].Folder?
    ensures MoveSteps(h, r, t).Keys == h.Keys
  {
  }

  lemma MoveBySteps(c: Cache, r: Ref, t: Ref)
    requires Inv(c) && Movable(c, r) && IsFolder(c, t)
    ensures PlacedAt(c, r) && Move(c, r, t).heap == MoveSteps(c.heap, r, t)
  {
    assert PlacedAt(c, r);
    NotOwnParent(c, r);
    var a, b := Move(c, r, t).heap, MoveSteps(c.heap, r, t);
    hide Inv, MoveSteps;
    forall z | z in c.heap
      ensures z in b && a[z] == b[z]
    {
      ListedHere(c, r, z);
      MoveStepsAt(c, r, t, z);
    }
    MoveStepsKeys(c.heap, r, t);
    assert a == b;
  }

  lemma LeafSub(c: Cache, x: Ref)
    requires Inv(c) && (IsGroup(c, x) || (IsFolder(c, x) && x != c.root && Empty(c.heap[x])))
    ensures Sub(c, x) == {x} && Movable(c, x) && PlacedAt(c, x) && c.heap[x].parent.value != x
    ensures c.heap[x].uid in c.hash && c.hash[c.heap[x].uid] == x
  {
    if IsGroup(c, x) {
      SubOfGroup(c, x);
    } else {
      SubOfEmptyFolder(c, x);
    }
    assert PlacedAt(c, x);
    NotOwnParent(c, x);
  }

  /** Unlinking, unhashing and freeing an item with nothing below it. */
  lemma LeafStep(c: Cache, x: Ref)
    requires Inv(c) && (IsGroup(c, x) || (IsFolder(c, x) && x != c.root && Empty(c.heap[x])))
    ensures PlacedAt(c, x) && c.heap[x].parent.value != x && Inv(Prune(c, x))
    ensures Prune(c, x) == Cache(Unlink(c.heap, x), c.hash - {c.heap[x].uid}, c.root, c.nextId, c.top, true)
  {
    hide Inv;
    LeafSub(c, x);
    PruneInv(c, x);
    PruneByUnlinking(c, x, []);
    GroupsWithoutNone(c.heap);
    UnhashOne(c, {}, x);
    assert HashWithout(c.hash, {}) == c.hash;
    assert Elems<Ref>([]) == {};
  }

  function UidsOf(h: map<Ref, Item>, es: seq<Ref>): set<Uid> {
    set e | e in es && e in h :: h[e].uid
  }

  /** The emails are there, and the hash leads from their uids to them or to nothing. */
  ghost predicate EmailsHashed(h: map<Ref, Item>, hash: map<Uid, Ref>, es: seq<Ref>) {
    forall e | e in es :: e in h && h[e].EMail? && (h[e].uid in hash ==> hash[h[e].uid] == e)
  }

  lemma DropOne(h: map<Ref, Item>, hash: map<Uid, Ref>, es: seq<Ref>, i: nat)
    requires EmailsHashed(h, hash, es) && i < |es|
    ensures es[i] in h && h[es[i]].EMail? && (h[es[i]].uid in hash ==> hash[h[es[i]].uid] == es[i])
    ensures Elems(es[..i + 1]) == Elems(es[..i]) + {es[i]}
    ensures UidsOf(h, es[..i + 1]) == UidsOf(h, es[..i]) + {h[es[i]].uid}
  {
    assert es[i] in es;
    TakeMore(es, i);
  }

  /** Unhashing an email hides no group. */
  lemma EmailUnhashed(h: map<Ref, Item>, hash: map<Uid, Ref>, e: Ref, h0: map<Ref, Item>, hash0: map<Uid, Ref>)
    requires GroupsFound(h, hash) && e in h && e in h0 && h[e] == h0[e] && h0[e].EMail?
    requires hash.Keys <= hash0.Keys && forall u | u in hash :: hash[u] == hash0[u]
    requires h0[e].uid in hash0 ==> hash0[h0[e].uid] == e
    ensures GroupsFound(h, hash - {h[e].uid})
  {
  }

  /** One turn of the loop of `addrcache_remove_person` over the emails. */
  lemma DropTurn(h: map<Ref, Item>, hash0: map<Uid, Ref>, k: map<Ref, Item>, hash: map<Uid, Ref>, es: seq<Ref>, i: nat)
    requires EmailsHashed(h, hash0, es) && i < |es| && GroupsFound(k, hash)
    requires k == GroupsWithout(h, Elems(es[..i])) && hash == hash0 - UidsOf(h, es[..i])
    ensures GroupsHashed(k, hash) && es[i] in h && h[es[i]].EMail?
    ensures var m := GroupsDrop(k, es[i]);
      && es[i] in m && m[es[i]] == h[es[i]] && m == GroupsWithout(h, Elems(es[..i + 1]))
      && GroupsFound(m, hash - {h[es[i]].uid})
    ensures hash - {h[es[i]].uid} == hash0 - UidsOf(h, es[..i + 1])
  {
    DropOne(h, hash0, es, i);
    DropIsWithout(k, hash, es[i]);
    GroupsWithoutTwice(h, Elems(es[..i]), {es[i]});
    hide GroupsFound, EmailsHashed, GroupsHashed;
    EmailUnhashed(GroupsDrop(k, es[i]), hash, es[i], h, hash0);
  }

  lemma PersonStep(c: Cache, p: Ref)
    requires Inv(c) && IsPerson(c, p)
    ensures var es := c.heap[p].emails; var h := GroupsWithout(c.heap, Elems(es));
      && PlacedAt(c, p) && Inv(Prune(c, p)) && GroupsFound(c.heap, c.hash) && EmailsHashed(c.heap, c.hash, es)
      && Prune(c, p) == Cache(Unlink(h, p) - Elems(es), c.hash - UidsOf(c.heap, es) - {c.heap[p].uid}, c.root,
        c.nextId, c.top, true)
  {
    SubOfPerson(c, p);
    PruneInv(c, p);
    assert PersonOk(c, p);
    forall e | e in c.heap[p].emails
      ensures EmailOk(c, e)
    {
    }
    PruneByUnlinking(c, p, c.heap[p].emails);
    InvGroupsFound(c);
    PersonUnhash(c, p);
  }

  /** Of the hash the uids of the person and of its emails go, and those lead only to them. */
  lemma PersonUnhash(c: Cache, p: Ref)
    requires Inv(c) && IsPerson(c, p) && EmailsHashed(c.heap, c.hash, c.heap[p].emails)
    ensures HashWithout(c.hash, {p} + Elems(c.heap[p].emails)) ==
      c.hash - UidsOf(c.heap, c.heap[p].emails) - {c.heap[p].uid}
  {
    var es := c.heap[p].emails;
    var a, b := HashWithout(c.hash, {p} + Elems(es)), c.hash - UidsOf(c.heap, es) - {c.heap[p].uid};
    forall u
      ensures u in a <==> u in b
    {
      if u in c.hash {
        assert c.heap[c.hash[u]].uid == u;
        if u in UidsOf(c.heap, es) {
          var e :| e in es && e in c.heap && c.heap[e].uid == u;
          assert c.hash[u] == e;
        }
      }
    }
  }

  lemma DetachedAt(c: Cache, p: Ref, e: Ref, z: Ref)
    requires Inv(c) && IsPerson(c, p) && Owned(c, e) && c.heap[e].parent == Some(p) && Sub(c, e) == {e} && z in c.heap
    ensures z in Detach(c, e).heap
    ensures Detach(c, e).heap[z] ==
      if z == e then WithParent(c.heap[e], None)
      else if z == p then c.heap[p].(emails := RemoveFirst(c.heap[p].emails, e))
      else if c.heap[z].Group? then c.heap[z].(members := Without(c.heap[z].members, {e}))
      else c.heap[z]
  {
    PrunedItem(c, e, z);
    assert PersonOk(c, p);
    RemoveFirstIsWithout(c.heap[p].emails, e);
    if z != e {
      if c.heap[z].Folder? { ScrubFolder(c, e, z); }
      else if c.heap[z].Person? && z != p { ScrubPerson(c, e, z); }
    }
  }

  function TakenFrom(h: map<Ref, Item>, p: Ref, e: Ref): map<Ref, Item>
    requires p in h && h[p].Person? && e in h
  {
    h[p := h[p].(emails := RemoveFirst(h[p].emails, e))][e := WithParent(h[e], None)]
  }

  lemma DetachFacts(c: Cache, p: Ref, e: Ref)
    requires Inv(c) && IsPerson(c, p) && e in c.heap[p].emails
    ensures Owned(c, e) && c.heap[e].parent == Some(p) && p != e && Sub(c, e) == {e}
    ensures c.heap[e].uid in c.hash ==> c.hash[c.heap[e].uid] == e
    ensures Inv(Detach(c, e)) && Pending(Detach(c, e), e)
  {
    assert PersonOk(c, p);
    assert EmailOk(c, e);
    DetachInv(c, e);
    SubOfEMail(c, e);
  }

  /** Taking an email from its person, seen one list at a time. */
  lemma DetachStep(c: Cache, p: Ref, e: Ref)
    requires Inv(c) && IsPerson(c, p) && e in c.heap[p].emails
    ensures Owned(c, e) && p != e && Inv(Detach(c, e)) && Pending(Detach(c, e), e)
    ensures GroupsFound(TakenFrom(c.heap, p, e), c.hash)
    ensures Detach(c, e) == Cache(GroupsWithout(TakenFrom(c.heap, p, e), {e}),
      if c.heap[e].uid in c.hash then c.hash - {c.heap[e].uid} else c.hash, c.root, c.nextId, c.top, true)
    ensures c.heap[e].uid in c.hash ==> c.hash[c.heap[e].uid] == e
  {
    hide Inv, Prune, GroupsFound;
    DetachFacts(c, p, e);
    InvGroupsFound(c);
    TakenGroupsFound(c.heap, c.hash, p, e);
    UnhashOne(c, {}, e);
    assert HashWithout(c.hash, {}) == c.hash && {} + {e} == {e};
    DetachShape(c, e);
    var a, b := Detach(c, e).heap, GroupsWithout(TakenFrom(c.heap, p, e), {e});
    forall z | z in c.heap
      ensures a[z] == b[z]
    {
      DetachedAt(c, p, e, z);
    }
    assert a == b;
  }

  /** `addrcache_remove_email`: the entry goes if it leads to an email. */
  function WithoutEMail(h: map<Ref, Item>, hash: map<Uid, Ref>, u: Uid): map<Uid, Ref> {
    if u in hash && hash[u] in h && h[hash[u]].EMail? then hash - {u} else hash
  }

  lemma TakeReady(c: Cache, p: Ref, e: Ref)
    requires Inv(c) && IsPerson(c, p)
    ensures GroupsHashed(c.heap, c.hash) && p !in c.heap[p].emails
    ensures e in c.heap[p].emails ==> e in c.heap && c.heap[e].EMail?
  {
    assert PersonOk(c, p);
  }

  lemma TakenGroupsFound(h: map<Ref, Item>, hash: map<Uid, Ref>, p: Ref, e: Ref)
    requires GroupsFound(h, hash) && p in h && h[p].Person? && e in h && h[e].EMail?
    ensures GroupsFound(TakenFrom(h, p, e), hash)
  {
  }

  lemma DetachShape(c: Cache, e: Ref)
    requires Owned(c, e) && Sub(c, e) == {e}
    ensures Detach(c, e) == Cache(Detach(c, e).heap, HashWithout(c.hash, {e}), c.root, c.nextId, c.top, true)
    ensures Detach(c, e).heap.Keys == c.heap.Keys
  {
  }

  // ---------- removing a folder and keeping its contents ----------

  ghost predicate ReparentReady(h: map<Ref, Item>, f: Ref, p: Ref, k: Kind)
    requires f in h && h[f].Folder?
  {
    forall z | z in ListOf(h[f], k) :: z in h && Is(h[z], k) && z != p && z != f
  }

  /** The heap once the items of `kids` hang, in order, below `p`. */
  function Reparented(h: map<Ref, Item>, p: Ref, k: Kind, kids: seq<Ref>): map<Ref, Item>
    requires p in h && h[p].Folder?
  {
    map z | z in h ::
      if z == p then WithList(h[p], k, ListOf(h[p], k) + kids)
      else if z in kids then WithParent(h[z], Some(p))
      else h[z]
  }

  lemma WithListKept(f: Item, k: Kind, a: seq<Ref>)
    requires f.Folder?
    ensures WithList(f, k, a).Folder? && ListOf(WithList(f, k, a), k) == a
  {
  }

  lemma WithParentTwice(f: Item, p: Ref)
    ensures WithParent(WithParent(f, Some(p)), Some(p)) == WithParent(f, Some(p))
  {
  }

  lemma ReparentedIs(h: map<Ref, Item>, p: Ref, k: Kind, kids: seq<Ref>)
    requires p in h && h[p].Folder?
    ensures var r := Reparented(h, p, k, kids);
      && r.Keys == h.Keys && r[p] == WithList(h[p], k, ListOf(h[p], k) + kids)
      && forall z | z in h && z != p :: r[z] == if z in kids then WithParent(h[z], Some(p)) else h[z]
  {
    hide WithList, ListOf, WithParent;
  }

  lemma TakeOneMore(s: seq<Ref>, kids: seq<Ref>, i: nat)
    requires i < |kids|
    ensures s + kids[..i] + [kids[i]] == s + kids[..i + 1]
    ensures forall z :: z in kids[..i + 1] <==> z in kids[..i] || z == kids[i]
  {
    TakeMore(kids, i);
  }

  lemma ReparentOneMore(h: map<Ref, Item>, p: Ref, k: Kind, kids: seq<Ref>, i: nat)
    requires p in h && h[p].Folder? && i < |kids| && kids[i] in h && kids[i] != p
    ensures var g := Reparented(h, p, k, kids[..i]);
      var g1 := g[p := WithList(g[p], k, ListOf(g[p], k) + [kids[i]])];
      g1[kids[i] := WithParent(g1[kids[i]], Some(p))] == Reparented(h, p, k, kids[..i + 1])
  {
    hide WithList, ListOf, WithParent, Reparented;
    var x, s := kids[i], ListOf(h[p], k);
    TakeOneMore(s, kids, i);
    WithListKept(h[p], k, s + kids[..i]);
    WithParentTwice(h[x], p);
    ReparentedIs(h, p, k, kids[..i]);
    ReparentedIs(h, p, k, kids[..i + 1]);
    var g, b := Reparented(h, p, k, kids[..i]), Reparented(h, p, k, kids[..i + 1]);
    var g1 := g[p := WithList(g[p], k, ListOf(g[p], k) + [x])];
    var a := g1[x := WithParent(g1[x], Some(p))];
    SameMaps(a, b);
  }

  /** The three loops one after the other, as one change. */
  function ReparentedAll(h: map<Ref, Item>, f: Ref, p: Ref): map<Ref, Item>
    requires f in h && h[f].Folder? && p in h && h[p].Folder? && p != f
  {
    map z | z in h ::
      if z == p then Folder(h[p].uid, h[p].name, h[p].parent, h[p].remarks, h[p].folders + h[f].folders,
                            h[p].persons + h[f].persons, h[p].groups + h[f].groups)
      else if z in h[f].folders || z in h[f].persons || z in h[f].groups then WithParent(h[z], Some(p))
      else h[z]
  }

  lemma ContractReady(c: Cache, f: Ref)
    requires Inv(c) && Removable(c, f)
    ensures var p := c.heap[f].parent.value; IsFolder(c, p) && p != f
    ensures forall k: Kind :: ReparentReady(c.heap, f, c.heap[f].parent.value, k)
  {
    AboveRemoved(c, f);
    NotOwnParent(c, f);
    forall k: Kind
      ensures ReparentReady(c.heap, f, c.heap[f].parent.value, k)
    {
      assert ListOk(c.heap, f, k);
    }
  }

  lemma ThreeLoops(h: map<Ref, Item>, f: Ref, p: Ref)
    requires f in h && h[f].Folder? && p in h && h[p].Folder? && p != f
    requires forall k: Kind :: ReparentReady(h, f, p, k)
    ensures var h1 := Reparented(h, p, FolderKind, h[f].folders);
      && h1[f] == h[f] && ReparentReady(h1, f, p, PersonKind)
      && var h2 := Reparented(h1, p, PersonKind, h[f].persons);
      && h2[f] == h[f] && ReparentReady(h2, f, p, GroupKind)
      && Reparented(h2, p, GroupKind, h[f].groups) == ReparentedAll(h, f, p)
  {
    assert ReparentReady(h, f, p, FolderKind) && ReparentReady(h, f, p, PersonKind)
      && ReparentReady(h, f, p, GroupKind);
    assert forall z | z in h[f].folders :: z in ListOf(h[f], FolderKind);
    assert forall z | z in h[f].persons :: z in ListOf(h[f], PersonKind);
    assert forall z | z in h[f].groups :: z in ListOf(h[f], GroupKind);
    var h1 := Reparented(h, p, FolderKind, h[f].folders);
    assert h1[f] == h[f];
    var h2 := Reparented(h1, p, PersonKind, h[f].persons);
    assert h2[f] == h[f];
    var h3 := Reparented(h2, p, GroupKind, h[f].groups);
    forall z | z in h
      ensures h3[z] == ReparentedAll(h, f, p)[z]
    {
    }
  }

  lemma {:induction false} RemoveFirstConcat(s: seq<Ref>, t: seq<Ref>, x: Ref)
    requires NoDup(s) && x in s
    ensures RemoveFirst(s + t, x) == Without(s, {x}) + t
  {
    assert (s + t)[1..] == s[1..] + t;
    if s[0] == x {
      WithoutDisjoint(s[1..], {x});
    } else {
      assert NoDup(s[1..]);
      RemoveFirstConcat(s[1..], t, x);
    }
  }

  /** The three loops, then the folder out of its parent's list and freed: a contraction. */
  lemma ContractParent(c: Cache, f: Ref, p: Ref)
    requires Removable(c, f) && c.heap[f].parent == Some(p) && IsFolder(c, p) && p != f && NoDup(c.heap[p].folders)
      && f in c.heap[p].folders
    ensures var h := ReparentedAll(c.heap, f, p);
      p in Contract(c, f).heap && Contract(c, f).heap[p] == WithList(h[p], FolderKind, RemoveFirst(h[p].folders, f))
  {
    RemoveFirstConcat(c.heap[p].folders, c.heap[f].folders, f);
  }

  lemma ContractHeap(c: Cache, f: Ref)
    requires Inv(c) && Removable(c, f)
    ensures var p := c.heap[f].parent.value; IsFolder(c, p) && p != f
    ensures var p := c.heap[f].parent.value; var h := ReparentedAll(c.heap, f, p);
      Contract(c, f).heap == h[p := WithList(h[p], FolderKind, RemoveFirst(h[p].folders, f))] - {f}
  {
    hide Inv;
    AboveRemoved(c, f);
    var p := c.heap[f].parent.value;
    var h := ReparentedAll(c.heap, f, p);
    FoldersNoDup(c, p);
    ContractParent(c, f, p);
    hide WithList, RemoveFirst;
    var a, b := Contract(c, f).heap, h[p := WithList(h[p], FolderKind, RemoveFirst(h[p].folders, f))] - {f};
    forall z | z in c.heap && z != f && z != p
      ensures a[z] == b[z]
    {
      ListedIffChild(c, f, z);
    }
    SameMaps(a, b);
  }

  lemma FoldersNoDup(c: Cache, p: Ref)
    requires Inv(c) && IsFolder(c, p)
    ensures NoDup(c.heap[p].folders)
  {
    assert ListOk(c.heap, p, FolderKind);
  }

  lemma ListedIffChild(c: Cache, f: Ref, z: Ref)
    requires Inv(c) && IsFolder(c, f) && z in c.heap
    ensures c.heap[z].parent == Some(f) <==> z in c.heap[f].folders || z in c.heap[f].persons || z in c.heap[f].groups
  {
    assert ListOk(c.heap, f, FolderKind) && ListOk(c.heap, f, PersonKind) && ListOk(c.heap, f, GroupKind);
    assert z in c.heap[f].folders ==> z in ListOf(c.heap[f], FolderKind);
    assert z in c.heap[f].persons ==> z in ListOf(c.heap[f], PersonKind);
    assert z in c.heap[f].groups ==> z in ListOf(c.heap[f], GroupKind);
    if c.heap[z].parent == Some(f) {
      ParentType(c, z);
    }
  }

  lemma ContractHash(c: Cache, f: Ref)
    requires Inv(c) && Removable(c, f)
    ensures Inv(Contract(c, f))
    ensures Contract(c, f) == Cache(Contract(c, f).heap, c.hash - {c.heap[f].uid}, c.root, c.nextId, c.top, true)
  {
    ContractInv(c, f);
    UnhashOne(c, {}, f);
    assert HashWithout(c.hash, {}) == c.hash && {} + {f} == {f};
  }

  lemma ContractStep(c: Cache, f: Ref)
    requires Inv(c) && Removable(c, f)
    ensures Inv(Contract(c, f))
    ensures var p := c.heap[f].parent.value; IsFolder(c, p) && p != f && ReparentReady(c.heap, f, p, FolderKind)
    ensures var p := c.heap[f].parent.value;
      var h1 := Reparented(c.heap, p, FolderKind, c.heap[f].folders);
      && f in h1 && h1[f] == c.heap[f] && p in h1 && h1[p].Folder? && ReparentReady(h1, f, p, PersonKind)
      && var h2 := Reparented(h1, p, PersonKind, c.heap[f].persons);
      && f in h2 && h2[f] == c.heap[f] && p in h2 && h2[p].Folder? && ReparentReady(h2, f, p, GroupKind)
      && var h3 := Reparented(h2, p, GroupKind, c.heap[f].groups);
      && p in h3 && h3[p].Folder?
      && Contract(c, f) == Cache(h3[p := WithList(h3[p], FolderKind, RemoveFirst(h3[p].folders, f))] - {f},
                                 c.hash - {c.heap[f].uid}, c.root, c.nextId, c.top, true)
  {
    hide Inv, Contract, ReparentReady;
    ContractReady(c, f);
    ThreeLoops(c.heap, f, c.heap[f].parent.value);
    ContractHeap(c, f);
    ContractHash(c, f);
  }

  // ---------- deleting a subtree ----------

  /** While the subtree of `f` is being deleted from `c0`: what is left of it in `c` is all
      that still separates `c` from the end. */
  ghost predicate DeleteGoing(c0: Cache, c: Cache, f: Ref) {
    && Inv(c) && Removable(c0, f) && Removable(c, f)
    && c.heap[f].uid == c0.heap[f].uid && c.heap[f].parent == c0.heap[f].parent
    && Prune(c, f) == Prune(c0, f) && Sub(c, f) <= Sub(c0, f)
  }

  lemma DeleteChild(c0: Cache, c: Cache, f: Ref, k: Kind, y: Ref)
    requires DeleteGoing(c0, c, f) && y in ListOf(c.heap[f], k)
    ensures y in c.heap && Is(c.heap[y], k) && (k == FolderKind ==> Removable(c, y))
    ensures Sub(c, y) < Sub(c, f) <= Sub(c0, f)
    ensures var b := Prune(c, y);
      && DeleteGoing(c0, b, f) && Sub(b, f) < Sub(c, f)
      && (c.heap[f].groups == [] ==> b.heap[f].groups == []) && (c.heap[f].persons == [] ==> b.heap[f].persons == [])
  {
    assert ListOk(c.heap, f, k);
    SubShrinks(c, f, y);
    ReachesRefl(c.heap, y);
    assert y in Sub(c, y);
    PruneInv(c, y);
    PruneSub(c, f, y);
    PruneAbsorbs(c, f, y);
    PrunedItem(c, y, f);
    ScrubParts(c.heap[f], Sub(c, y));
  }

  lemma MembersInHeap(c: Cache)
    requires Inv(c)
    ensures forall g, i {:trigger c.heap[g].members[i]} | IsGroup(c, g)
      && 0 <= i < |c.heap[g].members| :: c.heap[g].members[i] in c.heap
  {
    forall g, i | IsGroup(c, g) && 0 <= i < |c.heap[g].members|
      ensures c.heap[g].members[i] in c.heap
    {
      assert GroupOk(c, g);
      assert c.heap[g].members[i] in c.heap[g].members;
    }
  }

  /** The group has a member that belongs to the person. */
  ghost predicate RefersTo(h: map<Ref, Item>, g: Ref, p: Ref) {
    g in h && h[g].Group? && exists i :: 0 <= i < |h[g].members| && h[g].members[i] in h
                                         && h[h[g].members[i]].parent == Some(p)
  }

  class AddressCache {
    var heap: map<Ref, Item>
    var itemHash: map<Uid, Ref>
    const rootFolder: Ref
    var nextID: nat
    var top: Ref
    var dirtyFlag: bool
    var dataRead: bool
    var name: string

    ghost function View(): Cache
      reads this
    {
      Cache(heap, itemHash, rootFolder, nextID, top, dirtyFlag)
    }

    /** A new cache holds its root folder and nothing else. */
    constructor (now: nat)
      ensures View() == Cache(map[0 := Folder("", "", None, "", [], [], [])], map[], 0, now, 1, false)
      ensures Inv(View()) && !dataRead && name == ""
    {
      rootFolder := 0;
      heap := map[0 := Folder("", "", None, "", [], [], [])];
      itemHash := map[];
      nextID := now;
      top := 1;
      dirtyFlag := false;
      dataRead := false;
      name := "";
    }

    /** `addrcache_clear`: everything is freed, and there is a new root. */
    method Clear()
      modifies this`heap, this`itemHash, this`top, this`dataRead
      ensures View() == Cache(map[rootFolder := Folder("", "", None, "", [], [], [])], map[], rootFolder, nextID,
        rootFolder + 1, dirtyFlag)
      ensures !dataRead
    {
      heap := map[rootFolder := Folder("", "", None, "", [], [], [])];
      itemHash := map[];
      top := rootFolder + 1;
      dataRead := false;
    }

    /** `addrcache_id_person` and its siblings: only an item without a uid gets one. */
    method FillUid(uid: Uid) returns (u: Uid)
      modifies this`nextID
      ensures if uid != "" then u == uid && View() == old(View()) else u == NextUid(old(View()))
                                                                       && View() == Tick(old(View()))
    {
      if uid != "" {
        return uid;
      }
      nextID := nextID + 1;
      u := Decimal(nextID);
    }

    /** On a cache in agreement the new uid is fresh. */
    method AllocateUid(uid: Uid) returns (u: Uid)
      requires Inv(View())
      modifies this`nextID
      ensures Inv(View())
      ensures if uid != "" then u == uid && View() == old(View())
              else u == NextUid(old(View())) && View() == Tick(old(View())) && u !in itemHash && GoodUid(View(), u)
    {
      TickInv(View());
      u := FillUid(uid);
    }

    /** `addrcache_folder_add_person`, `_folder_add_group` and `_folder_add_folder`.  The last
        reports success even when the uid was taken and nothing was added. */
    method FolderAdd(f: Ref, item: Item) returns (added: bool, r: Ref)
      requires Inv(View()) && IsFolder(View(), f) && !item.EMail? && Empty(item) && BringsUid(View(), item.uid)
      modifies this`heap, this`itemHash, this`top, this`dirtyFlag
      ensures View() == Insert(old(View()), f, item) && Inv(View())
      ensures added <==> item.Folder? || item.uid !in old(itemHash)
      ensures item.uid !in old(itemHash) ==> r == old(top) && r !in old(heap)
    {
      hide Inv, BringsUid, WithList, Empty;
      InsertInv(View(), f, item);
      NothingAbove(View(), f);
      r := top;
      added := item.uid !in itemHash;
      if added {
        itemHash := itemHash[item.uid := r];
        top := top + 1;
        var k := KindOf(item);
        heap := heap[r := WithParent(item, Some(f))];
        heap := heap[f := WithList(heap[f], k, ListOf(heap[f], k) + [r])];
        dirtyFlag := true;
      }
      added := added || item.Folder?;
    }

    /** `addritem_create_item_email` and the setters. */
    method CreateEmail(e: Item) returns (r: Ref)
      requires Inv(View()) && e.EMail?
      modifies this`heap, this`top
      ensures View() == MakeEmail(old(View()), e) && Inv(View())
      ensures r == old(top) && r !in old(heap) && Pending(View(), r)
    {
      MakeEmailInv(View(), e);
      r := top;
      heap := heap[r := WithParent(e, None)];
      top := top + 1;
    }

    /** `addritem_person_add_email`. */
    method HoldEmail(p: Ref, e: Ref)
      requires IsPerson(View(), p) && Pending(View(), e)
      modifies this`heap, this`dirtyFlag
      ensures View() == Attach(old(View()), p, e)
    {
      heap := heap[p := heap[p].(emails := heap[p].emails + [e])];
      heap := heap[e := WithParent(heap[e], Some(p))];
      dirtyFlag := true;
    }

    /** `addrcache_person_add_email`, on any cache. */
    method LinkEmail(p: Ref, e: Ref) returns (added: bool)
      requires IsPerson(View(), p) && Pending(View(), e)
      modifies this`heap, this`itemHash, this`dirtyFlag
      ensures View() == AddEmail(old(View()), p, e)
      ensures added <==> old(heap[e].uid) !in old(itemHash)
    {
      added := heap[e].uid !in itemHash;
      if added {
        itemHash := itemHash[heap[e].uid := e];
        HoldEmail(p, e);
      }
    }

    /** `addrcache_person_add_email` on a cache in agreement. */
    method PersonAddEmail(p: Ref, e: Ref) returns (added: bool)
      requires Inv(View()) && IsPerson(View(), p) && Pending(View(), e) && BringsUid(View(), heap[e].uid)
      modifies this`heap, this`itemHash, this`dirtyFlag
      ensures View() == AddEmail(old(View()), p, e) && Inv(View())
      ensures added <==> old(heap[e].uid) !in old(itemHash)
    {
      AddEmailInv(View(), p, e);
      added := LinkEmail(p, e);
    }

    /** `addrcache_group_add_email`, with the scan of `addritem_group_add_email`. */
    method GroupAddEmail(g: Ref, e: Ref)
      requires Inv(View()) && IsGroup(View(), g) && Owned(View(), e)
      modifies this`heap, this`dirtyFlag
      ensures View() == Join(old(View()), g, e) && Inv(View())
    {
      JoinInv(View(), g, e);
      var node := heap[g].members;
      while node != [] && node[0] != e
        invariant e in heap[g].members <==> e in node
        decreases |node|
      {
        node := node[1..];
      }
      if node == [] {
        heap := heap[g := heap[g].(members := heap[g].members + [e])];
      }
      dirtyFlag := true;
    }

    /** `addrcache_add_contact`: the person is hashed, the email it gets is not. */
    method AddContact(f: Ref, name: string, address: string, remarks: string) returns (p: Ref)
      requires Inv(View()) && IsFolder(View(), f)
      modifies this`heap, this`itemHash, this`nextID, this`top, this`dirtyFlag
      ensures View() == Contact(old(View()), f, name, address, remarks) && Inv(View())
      ensures p == old(top) && p !in old(heap)
    {
      hide Inv, GoodUid, Contact, Insert, WithList, Decimal, Attach;
      ContactInv(View(), f, name, address, remarks);
      ContactBySteps(View(), f, name, address, remarks);
      var uid := AllocateUid("");
      var added;
      added, p := FolderAdd(f, Person(uid, name, None, "", "", "", [], []));
      var eid := AllocateUid("");
      var e := CreateEmail(EMail(eid, "", None, address, remarks));
      HoldEmail(p, e);
    }

    /** `addrcache_add_new_folder`. */
    method AddNewFolder(f: Ref) returns (r: Ref)
      requires Inv(View()) && IsFolder(View(), f)
      modifies this`heap, this`itemHash, this`nextID, this`top, this`dirtyFlag
      ensures Inv(View()) && dirtyFlag && r == old(top) && r !in old(heap)
      ensures View() == Insert(Tick(old(View())), f, Folder(NextUid(old(View())), "", None, "", [], [], []))
      ensures NextUid(old(View())) !in old(itemHash)
    {
      var uid := AllocateUid("");
      var added;
      added, r := FolderAdd(f, Folder(uid, "", None, "", [], [], []));
    }

    /** `addrcache_get_object`. */
    method GetObject(uid: Uid) returns (r: Option<Ref>)
      requires Inv(View())
      ensures r == if uid in itemHash then Some(itemHash[uid]) else None
      ensures r.Some? ==> r.value in heap && r.value != rootFolder && heap[r.value].uid == uid
                          && heap[r.value].parent.Some?
    {
      if uid == "" {
        return None;
      }
      if uid in itemHash {
        var obj := itemHash[uid];
        if heap[obj].uid == uid {
          return Some(obj);
        }
      }
      return None;
    }

    /** `addrcache_folder_move_person`, `_move_group` and `_move_folder`: no check for cycles. */
    method FolderMove(r: Ref, t: Ref)
      requires Inv(View()) && Movable(View(), r) && IsFolder(View(), t)
      modifies this`heap, this`dirtyFlag
      ensures View() == Move(old(View()), r, t)
    {
      MoveBySteps(View(), r, t);
      var k := KindOf(heap[r]);
      var p := heap[r].parent.value;
      heap := heap[p := WithList(heap[p], k, RemoveFirst(ListOf(heap[p], k), r))];
      heap := heap[t := WithList(heap[t], k, ListOf(heap[t], k) + [r])];
      heap := heap[r := WithParent(heap[r], Some(t))];
      dirtyFlag := true;
    }

    /** The visitor `addrcache_allgrp_rem_email_vis` over the whole hash table. */
    method AllGroupsRemoveEmail(e: Ref)
      requires GroupsHashed(heap, itemHash)
      modifies this`heap
      ensures heap == GroupsDrop(old(heap), e) && GroupsHashed(heap, itemHash)
    {
      var keys := itemHash.Keys;
      while keys != {}
        invariant keys <= itemHash.Keys && heap.Keys == old(heap).Keys
        invariant forall r {:trigger heap[r]} | r in heap ::
          heap[r] == if old(heap)[r].Group? && old(heap)[r].uid !in keys
                     then old(heap)[r].(members := RemoveFirst(old(heap)[r].members, e)) else old(heap)[r]
        decreases keys
      {
        var u :| u in keys;
        keys := keys - {u};
        var obj := itemHash[u];
        if heap[obj].Group? {
          heap := heap[obj := heap[obj].(members := RemoveFirst(heap[obj].members, e))];
        }
      }
    }

    /** `addrcache_remove_group`, and the caller's free. */
    method RemoveGroup(g: Ref)
      requires Inv(View()) && IsGroup(View(), g)
      modifies this`heap, this`itemHash, this`dirtyFlag
      ensures View() == Prune(old(View()), g) && Inv(View())
    {
      hide Inv;
      ghost var c := View();
      LeafStep(c, g);
      var uid := heap[g].uid;
      var parent := heap[g].parent.value;
      heap := heap[parent := WithList(heap[parent], GroupKind, RemoveFirst(heap[parent].groups, g))];
      itemHash := itemHash - {uid};
      dirtyFlag := true;
      heap := heap - {g};
    }

    /** The loop of `addrcache_remove_person`: each email leaves the groups and the hash. */
    method DropEmails(emails: seq<Ref>)
      requires GroupsFound(heap, itemHash) && EmailsHashed(heap, itemHash, emails)
      modifies this`heap, this`itemHash
      ensures heap == GroupsWithout(old(heap), Elems(emails)) && GroupsFound(heap, itemHash)
      ensures itemHash == old(itemHash) - UidsOf(old(heap), emails)
    {
      hide GroupsFound, EmailsHashed, GroupsDrop, GroupsHashed, GroupsWithout;
      ghost var h := heap;
      var i := 0;
      GroupsWithoutNone(h);
      assert Elems(emails[..0]) == {} && UidsOf(h, emails[..0]) == {};
      while i < |emails|
        invariant 0 <= i <= |emails|
        invariant heap == GroupsWithout(h, Elems(emails[..i]))
        invariant itemHash == old(itemHash) - UidsOf(h, emails[..i])
        invariant GroupsFound(heap, itemHash)
      {
        var email := emails[i];
        DropTurn(h, old(itemHash), heap, itemHash, emails, i);
        AllGroupsRemoveEmail(email);
        itemHash := itemHash - {heap[email].uid};
        i := i + 1;
      }
      assert emails[..i] == emails;
    }

    /** `addrcache_remove_person`, and the caller's free: first each email leaves the groups
        and the hash, then the person goes.  This much holds whether or not the person is still
        in its parent's list: a merge takes it out of there beforehand. */
    method DropPerson(p: Ref)
      requires p in heap && heap[p].Person? && heap[p].parent.Some?
      requires heap[p].parent.value in heap && heap[heap[p].parent.value].Folder?
      requires GroupsFound(heap, itemHash) && EmailsHashed(heap, itemHash, heap[p].emails)
      modifies this`heap, this`itemHash, this`dirtyFlag
      ensures var es := old(heap[p]).emails; var h := GroupsWithout(old(heap), Elems(es));
        && p in h && h[p].Person? && h[p].parent == old(heap[p]).parent
        && h[p].parent.value in h && h[h[p].parent.value].Folder?
        && heap == Unlink(h, p) - Elems(es)
        && itemHash == old(itemHash) - UidsOf(old(heap), es) - {old(heap[p]).uid}
      ensures dirtyFlag
    {
      hide GroupsFound, EmailsHashed;
      var uid := heap[p].uid;
      var parent := heap[p].parent.value;
      var emails := heap[p].emails;
      DropEmails(emails);
      heap := heap[parent := WithList(heap[parent], PersonKind, RemoveFirst(heap[parent].persons, p))];
      itemHash := itemHash - {uid};
      dirtyFlag := true;
      heap := heap - {p} - Elems(emails);
    }

    /** The same for a person of the cache: it is pruned, with its emails. */
    method RemovePerson(p: Ref)
      requires Inv(View()) && IsPerson(View(), p)
      modifies this`heap, this`itemHash, this`dirtyFlag
      ensures View() == Prune(old(View()), p) && Inv(View())
    {
      hide Inv, GroupsFound, Prune;
      PersonStep(View(), p);
      DropPerson(p);
    }

    /** `addrcache_person_remove_email` and then, if the person had it, `addrcache_remove_email`.
        This much holds whatever the groups hold. */
    method UnlinkEmail(p: Ref, e: Ref) returns (found: bool)
      requires p in heap && heap[p].Person? && GroupsHashed(heap, itemHash)
      requires e in heap[p].emails ==> e in heap && heap[e].EMail?
      modifies this`heap, this`itemHash, this`dirtyFlag
      ensures found <==> e in old(heap[p].emails)
      ensures found ==> dirtyFlag && heap == GroupsDrop(TakenFrom(old(heap), p, e), e)
      ensures found ==> itemHash == WithoutEMail(old(heap), old(itemHash), old(heap)[e].uid)
      ensures !found ==> View() == old(View())
    {
      found := e in heap[p].emails;
      if found {
        heap := heap[p := heap[p].(emails := RemoveFirst(heap[p].emails, e))];
        heap := heap[e := WithParent(heap[e], None)];
        AllGroupsRemoveEmail(e);
        var eid := heap[e].uid;
        if eid in itemHash && heap[itemHash[eid]].EMail? {
          itemHash := itemHash - {eid};
        }
        dirtyFlag := true;
      }
    }

    /** The same on a cache in agreement: the email leaves its person, all groups and the hash. */
    method TakeEmail(p: Ref, e: Ref) returns (found: bool)
      requires Inv(View()) && IsPerson(View(), p)
      modifies this`heap, this`itemHash, this`dirtyFlag
      ensures Inv(View()) && (found <==> e in old(heap[p].emails))
      ensures found ==> Owned(old(View()), e) && View() == Detach(old(View()), e) && Pending(View(), e)
      ensures !found ==> View() == old(View())
    {
      hide Inv, GroupsFound, GroupsHashed, Prune, GroupsDrop;
      ghost var c := View();
      TakeReady(c, p, e);
      if e in heap[p].emails {
        DetachStep(c, p, e);
        DropIsWithout(TakenFrom(heap, p, e), itemHash, e);
      }
      found := UnlinkEmail(p, e);
    }

    /** One of the three loops of `addrcache_remove_folder`: the children of one kind go to the
        end of the parent's list, one by one. */
    method Reparent(f: Ref, p: Ref, k: Kind)
      requires f in heap && heap[f].Folder? && p in heap && heap[p].Folder? && p != f
      requires ReparentReady(heap, f, p, k)
      modifies this`heap
      ensures heap == Reparented(old(heap), p, k, old(ListOf(heap[f], k)))
    {
      var node := ListOf(heap[f], k);
      ghost var h := heap;
      var i := 0;
      assert ListOf(h[p], k) + node[..0] == ListOf(h[p], k);
      while i < |node|
        invariant 0 <= i <= |node|
        invariant heap == Reparented(h, p, k, node[..i])
      {
        var aio := node[i];
        assert aio in node;
        heap := heap[p := WithList(heap[p], k, ListOf(heap[p], k) + [aio])];
        heap := heap[aio := WithParent(heap[aio], Some(p))];
        ReparentOneMore(h, p, k, node, i);
        i := i + 1;
      }
      assert node[..i] == node;
    }

    /** `addrcache_remove_folder`, and the caller's free: the children stay. */
    method RemoveFolder(f: Ref)
      requires Inv(View()) && Removable(View(), f)
      modifies this`heap, this`itemHash, this`dirtyFlag
      ensures View() == Contract(old(View()), f) && Inv(View())
    {
      hide Inv, Reparented, ReparentReady, Contract;
      ghost var c := View();
      var uid := heap[f].uid;
      var parent := heap[f].parent.value;
      ContractStep(c, f);
      Reparent(f, parent, FolderKind);
      Reparent(f, parent, PersonKind);
      Reparent(f, parent, GroupKind);
      heap := heap[parent := WithList(heap[parent], FolderKind, RemoveFirst(heap[parent].folders, f))];
      itemHash := itemHash - {uid};
      dirtyFlag := true;
      heap := heap - {f};
    }

    /** `addrcache_remove_folder_delete`, and the caller's free.  Each loop runs until the list
        is empty, so it ends only because the removal of its first item takes that item out of
        this very list: the measure is the subtree, and it shrinks because the hash, the parent
        pointers and the lists agree. */
    method RemoveFolderDelete(f: Ref)
      requires Inv(View()) && Removable(View(), f)
      modifies this`heap, this`itemHash, this`dirtyFlag
      ensures View() == Prune(old(View()), f) && Inv(View())
      decreases Sub(View(), f)
    {
      hide Inv, Prune, Sub;
      ghost var c := View();
      var uid := heap[f].uid;
      var parent := heap[f].parent.value;
      while heap[f].groups != []
        invariant DeleteGoing(c, View(), f)
        decreases Sub(View(), f)
      {
        var item := heap[f].groups[0];
        DeleteChild(c, View(), f, GroupKind, item);
        RemoveGroup(item);
      }
      while heap[f].persons != []
        invariant DeleteGoing(c, View(), f) && heap[f].groups == []
        decreases Sub(View(), f)
      {
        var item := heap[f].persons[0];
        DeleteChild(c, View(), f, PersonKind, item);
        RemovePerson(item);
      }
      while heap[f].folders != []
        invariant DeleteGoing(c, View(), f) && heap[f].groups == [] && heap[f].persons == []
        decreases Sub(View(), f)
      {
        var item := heap[f].folders[0];
        DeleteChild(c, View(), f, FolderKind, item);
        RemoveFolderDelete(item);
      }
      LeafStep(View(), f);
      heap := heap[parent := WithList(heap[parent], FolderKind, RemoveFirst(heap[parent].folders, f))];
      itemHash := itemHash - {uid};
      dirtyFlag := true;
      heap := heap - {f};
    }

    /** `addrcache_get_group_for_person`: the list starts with the person itself, which the
        visitor needs and which is taken off again. */
    method GetGroupForPerson(p: Ref) returns (list: seq<Ref>)
      requires Inv(View()) && IsPerson(View(), p)
      ensures NoDup(list)
      ensures forall g :: g in list <==> IsGroup(View(), g) && RefersTo(heap, g, p)
    {
      InvGroupsFound(View());
      MembersInHeap(View());
      hide Inv;
      var tempList := [p];
      var keys := itemHash.Keys;
      while keys != {}
        invariant keys <= itemHash.Keys && NoDup(tempList) && tempList != [] && tempList[0] == p
        invariant forall g :: g in tempList[1..] <==>
          g in heap && heap[g].Group? && heap[g].uid !in keys && RefersTo(heap, g, p)
        decreases keys
      {
        var u :| u in keys;
        keys := keys - {u};
        var obj := itemHash[u];
        if heap[obj].Group? {
          ghost var before := tempList;
          var i := 0;
          while i < |heap[obj].members|
            invariant 0 <= i <= |heap[obj].members|
            invariant tempList == before || tempList == before + [obj]
            invariant obj !in before
            invariant tempList == before + [obj] <==>
              exists j :: 0 <= j < i && heap[obj].members[j] in heap && heap[heap[obj].members[j]].parent == Some(p)
          {
            var email := heap[obj].members[i];
            if heap[email].parent == Some(p) {
              if obj !in tempList {
                tempList := tempList + [obj];
              }
            }
            i := i + 1;
          }
          assert tempList == before + [obj] <==> RefersTo(heap, obj, p);
          assert tempList[1..] == if RefersTo(heap, obj, p) then before[1..] + [obj] else before[1..];
        }
      }
      list := RemoveFirst(tempList, p);
    }
  }
}
