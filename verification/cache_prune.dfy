/** Taking an item and everything below it out of the cache: what the removal functions of
    src/addrcache.c (`remove_group`, `remove_person`, `remove_folder_delete` and the pair
    `person_remove_email`, `remove_email`) are meant to do, stated once without their loops. */
module CachePrune {
  import opened Items
  import opened CacheState

  /** `item` without any reference to an item of `d`. */
  function Scrub(item: Item, d: set<Ref>): Item {
    match item
    case Folder(_, _, _, _, fs, ps, gs) =>
      item.(folders := Without(fs, d), persons := Without(ps, d), groups := Without(gs, d))
    case Person(_, _, _, _, _, _, es, _) => item.(emails := Without(es, d))
    case EMail(_, _, _, _, _) => item
    case Group(_, _, _, _, ms) => item.(members := Without(ms, d))
  }

  function HashWithout(hash: map<Uid, Ref>, d: set<Ref>): map<Uid, Ref> {
    map u | u in hash && hash[u] !in d :: hash[u]
  }

  /** The cache once `x` and all that is below it are gone: no hash entry, no list and no
      group refers to any of it, and the rest is as before. */
  ghost function Prune(c: Cache, x: Ref): Cache {
    var d := Sub(c, x);
    Cache(map r | r in c.heap && r !in d :: Scrub(c.heap[r], d), HashWithout(c.hash, d), c.root, c.nextId, c.top, true)
  }

  lemma ScrubParts(item: Item, d: set<Ref>)
    ensures var s := Scrub(item, d);
      && s.uid == item.uid && s.name == item.name && s.parent == item.parent
      && (s.EMail? <==> item.EMail?) && (forall k: Kind :: Is(s, k) <==> Is(item, k))
      && (item.Folder? ==> forall k: Kind :: ListOf(s, k) == Without(ListOf(item, k), d))
  {
  }

  lemma ScrubTwice(item: Item, a: set<Ref>, b: set<Ref>)
    ensures Scrub(Scrub(item, a), b) == Scrub(item, a + b)
  {
    match item
    case Folder(_, _, _, _, fs, ps, gs) =>
      WithoutTwice(fs, a, b);
      WithoutTwice(ps, a, b);
      WithoutTwice(gs, a, b);
    case Person(_, _, _, _, _, _, es, _) => WithoutTwice(es, a, b);
    case EMail(_, _, _, _, _) =>
    case Group(_, _, _, _, ms) => WithoutTwice(ms, a, b);
  }

  lemma PrunedItem(c: Cache, x: Ref, r: Ref)
    ensures r in Prune(c, x).heap <==> r in c.heap && r !in Sub(c, x)
    ensures r in Prune(c, x).heap ==>
      var i, j := c.heap[r], Prune(c, x).heap[r];
      && j == Scrub(i, Sub(c, x)) && j.uid == i.uid && j.parent == i.parent
      && (j.EMail? <==> i.EMail?) && (j.Person? <==> i.Person?) && (j.Group? <==> i.Group?)
  {
  }

  /** What is not below `x` has its whole parent chain outside `x`'s subtree. */
  lemma OutsideParent(c: Cache, x: Ref, r: Ref)
    requires Inv(c) && r in c.heap && r !in Sub(c, x) && c.heap[r].parent.Some?
    ensures c.heap[r].parent.value in c.heap && c.heap[r].parent.value !in Sub(c, x)
  {
    ParentType(c, r);
    ReachesStep(c.heap, x, r);
  }

  /** Pruning changes nobody's ancestors. */
  lemma PruneReaches(c: Cache, x: Ref, a: Ref, r: Ref)
    requires Inv(c) && r in c.heap && r !in Sub(c, x)
    ensures Reaches(Prune(c, x).heap, a, r) <==> Reaches(c.heap, a, r)
  {
    var s := c.heap.Keys - Sub(c, x);
    assert SameParents(c.heap, Prune(c, x).heap, s) by {
      forall z | z in s
        ensures z in Prune(c, x).heap && Prune(c, x).heap[z].parent == c.heap[z].parent
        ensures c.heap[z].parent.Some? ==> c.heap[z].parent.value in s
      {
        PrunedItem(c, x, z);
        if c.heap[z].parent.Some? {
          OutsideParent(c, x, z);
        }
      }
    }
    ReachesAgrees(c.heap, Prune(c, x).heap, s, a, r);
  }

  lemma RootOutside(c: Cache, x: Ref)
    requires Inv(c) && x != c.root
    ensures c.root !in Sub(c, x)
  {
    if c.root in Sub(c, x) {
      AboveRoot(c, x);
    }
  }

  lemma PruneLists(c: Cache, x: Ref)
    requires Inv(c) && x != c.root
    ensures ListsOk(Prune(c, x))
  {
    var c' := Prune(c, x);
    var d := Sub(c, x);
    forall f, k: Kind | IsFolder(c', f)
      ensures ListOk(c'.heap, f, k)
    {
      ScrubParts(c.heap[f], d);
      assert ListOk(c.heap, f, k);
      WithoutNoDup(ListOf(c.heap[f], k), d);
      forall r | r in ListOf(c'.heap[f], k)
        ensures r in c'.heap && Is(c'.heap[r], k) && c'.heap[r].parent == Some(f)
      {
        ScrubParts(c.heap[r], d);
      }
    }
  }

  lemma PrunePlaced(c: Cache, x: Ref)
    requires Inv(c) && x != c.root
    ensures PlacedOk(Prune(c, x)) && HashedOk(Prune(c, x)) && KeysOk(Prune(c, x)) && RootOk(Prune(c, x))
  {
    var c' := Prune(c, x);
    var d := Sub(c, x);
    RootOutside(c, x);
    ScrubParts(c.heap[c.root], d);
    forall r | r in c'.heap && r != c'.root && !c'.heap[r].EMail?
      ensures PlacedAt(c', r)
      ensures c'.heap[r].uid in c'.hash && c'.hash[c'.heap[r].uid] == r
    {
      ScrubParts(c.heap[r], d);
      assert PlacedAt(c, r);
      var p := c.heap[r].parent.value;
      OutsideParent(c, x, r);
      ScrubParts(c.heap[p], d);
      assert c'.heap[p] == Scrub(c.heap[p], d);
    }
    forall u | u in c'.hash
      ensures c'.hash[u] in c'.heap && c'.heap[c'.hash[u]].uid == u && u != "" && c'.heap[c'.hash[u]].parent.Some?
    {
      ScrubParts(c.heap[c.hash[u]], d);
    }
  }

  lemma PrunePersons(c: Cache, x: Ref)
    requires Inv(c) && x != c.root
    ensures PersonsOk(Prune(c, x))
  {
    var c' := Prune(c, x);
    var d := Sub(c, x);
    forall p | IsPerson(c', p)
      ensures PersonOk(c', p)
    {
      PrunedItem(c, x, p);
      assert PersonOk(c, p);
      WithoutNoDup(c.heap[p].emails, d);
      forall e | e in c'.heap[p].emails
        ensures e in c'.heap && c'.heap[e].EMail? && c'.heap[e].parent == Some(p)
      {
        PrunedItem(c, x, e);
      }
    }
  }

  lemma PruneEmails(c: Cache, x: Ref)
    requires Inv(c) && x != c.root
    ensures EmailsOk(Prune(c, x)) && UidsOk(Prune(c, x))
  {
    var c' := Prune(c, x);
    forall e | Owned(c', e)
      ensures EmailOk(c', e)
    {
      PrunedItem(c, x, e);
      assert EmailOk(c, e);
      OutsideParent(c, x, e);
      PrunedItem(c, x, c.heap[e].parent.value);
    }
    forall d, e | Namesakes(c', d, e)
      ensures d == e
    {
      PrunedItem(c, x, d);
      PrunedItem(c, x, e);
      assert Namesakes(c, d, e);
    }
  }

  lemma PruneGroups(c: Cache, x: Ref)
    requires Inv(c) && x != c.root
    ensures GroupsOk(Prune(c, x))
  {
    var c' := Prune(c, x);
    forall g | IsGroup(c', g)
      ensures GroupOk(c', g)
    {
      PrunedItem(c, x, g);
      assert GroupOk(c, g);
      WithoutNoDup(c.heap[g].members, Sub(c, x));
      forall e | e in c'.heap[g].members
        ensures Owned(c', e)
      {
        PrunedItem(c, x, e);
      }
    }
  }

  lemma PruneRooted(c: Cache, x: Ref)
    requires Inv(c) && x != c.root
    ensures RootedOk(Prune(c, x)) && FreshOk(Prune(c, x))
  {
    var c' := Prune(c, x);
    forall r | r in c'.heap
      ensures c'.heap[r].uid == c.heap[r].uid && c'.heap[r].parent == c.heap[r].parent
      ensures Owned(c', r) <==> Owned(c, r)
      ensures c'.heap[r].parent.Some? ==> Reaches(c'.heap, c'.root, r)
    {
      ScrubParts(c.heap[r], Sub(c, x));
      PruneReaches(c, x, c.root, r);
    }
    forall u | u in c'.hash
      ensures FreshUid(c', u)
    {
      assert FreshUid(c, u);
    }
    forall e | Owned(c', e)
      ensures FreshUid(c', c'.heap[e].uid)
    {
      assert FreshUid(c, c.heap[e].uid);
    }
  }

  /** Taking out any item but the root keeps the hash, the forest and the groups in agreement. */
  lemma PruneInv(c: Cache, x: Ref)
    requires Inv(c) && x != c.root
    ensures Inv(Prune(c, x))
  {
    PruneLists(c, x);
    PrunePlaced(c, x);
    PrunePersons(c, x);
    PruneEmails(c, x);
    PruneGroups(c, x);
    PruneRooted(c, x);
  }

  /** An item is not below its own proper descendant. */
  lemma NotBelowOwnChild(c: Cache, x: Ref, y: Ref)
    requires Inv(c) && x in c.heap && y in Sub(c, x) && x != y && y != c.root
    ensures x !in Sub(c, y)
  {
    if Reaches(c.heap, y, x) {
      var n: nat :| Climb(c.heap, x, n) == Some(y);
      if x == c.root {
        AboveRoot(c, y);
      } else {
        ReachesAntisym(c, x, y);
      }
    }
  }

  /** What is left below `x` when `y`, itself below `x`, has gone. */
  lemma PruneSub(c: Cache, x: Ref, y: Ref)
    requires Inv(c) && x in c.heap && y in Sub(c, x) && x != y && y != c.root
    ensures x in Prune(c, y).heap && Sub(c, y) <= Sub(c, x)
    ensures Sub(Prune(c, y), x) == Sub(c, x) - Sub(c, y)
  {
    NotBelowOwnChild(c, x, y);
    PrunedItem(c, y, x);
    forall r | r in c.heap
      ensures r in Sub(c, y) ==> r in Sub(c, x)
      ensures r in Sub(Prune(c, y), x) <==> r in Sub(c, x) && r !in Sub(c, y)
    {
      PrunedItem(c, y, r);
      if r in Sub(c, y) {
        ReachesTrans(c.heap, x, y, r);
      } else {
        PruneReaches(c, y, x, r);
      }
    }
  }

  /** Pruning `y` first and then an item above it is the same as pruning the item above:
      this is what lets a subtree be deleted one child at a time. */
  lemma PruneAbsorbs(c: Cache, x: Ref, y: Ref)
    requires Inv(c) && x in c.heap && y in Sub(c, x) && x != y && y != c.root
    ensures Prune(Prune(c, y), x) == Prune(c, x)
  {
    var b := Prune(c, y);
    PruneSub(c, x, y);
    assert Sub(c, y) + Sub(b, x) == Sub(c, x);
    var e, f := Prune(b, x), Prune(c, x);
    forall r
      ensures r in e.heap <==> r in f.heap
      ensures r in e.heap ==> e.heap[r] == f.heap[r]
    {
      PrunedItem(c, x, r);
      PrunedItem(b, x, r);
      PrunedItem(c, y, r);
      if r in e.heap {
        ScrubTwice(c.heap[r], Sub(c, y), Sub(b, x));
      }
    }
    assert e.heap == f.heap;
    assert e.hash == f.hash;
  }
}
