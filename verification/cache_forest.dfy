/** Moving an item to another folder (src/addrcache.c:540-598): what it does to the forest. */
module CacheForest {
  import opened Items
  import opened CacheState
  import opened CachePrune
  import opened CacheEdit

  /** An item that the moving functions are given: hashed, and not an email. */
  predicate Movable(c: Cache, r: Ref) {
    r in c.heap && r != c.root && !c.heap[r].EMail?
  }

  /** `r` at the end of `t`'s list, in nobody else's, and with `t` as its parent.  Nothing keeps `t`
      from being `r` itself. */
  function Move(c: Cache, r: Ref, t: Ref): Cache
    requires Movable(c, r)
  {
    c.(heap := map z | z in c.heap ::
         if z == r then WithParent(if t == r then Relisted(c, r, t, r) else c.heap[r], Some(t))
         else Relisted(c, r, t, z),
       dirty := true)
  }

  /** The item `z` with `r` taken off its list and, if it is `t`, put at the end. */
  function Relisted(c: Cache, r: Ref, t: Ref, z: Ref): Item
    requires Movable(c, r) && z in c.heap
  {
    var k := KindOf(c.heap[r]);
    if c.heap[z].Folder? then
      WithList(c.heap[z], k, Without(ListOf(c.heap[z], k), {r}) + if z == t then [r] else [])
    else c.heap[z]
  }

  /** The clipboard's guard: a folder may not go into its own subtree. */
  ghost predicate MayMove(c: Cache, r: Ref, t: Ref) {
    Movable(c, r) && IsFolder(c, t) && !Reaches(c.heap, r, t)
  }

  lemma MovedItem(c: Cache, r: Ref, t: Ref, z: Ref)
    requires Movable(c, r)
    ensures var c' := Move(c, r, t); var k := KindOf(c.heap[r]);
      && (z in c'.heap <==> z in c.heap)
      && (z in c.heap ==>
            var i, j := c.heap[z], c'.heap[z];
            && j.uid == i.uid && j.name == i.name && (z != r ==> j.parent == i.parent)
            && (j.EMail? <==> i.EMail?) && (j.Folder? <==> i.Folder?)
            && (j.Person? <==> i.Person?) && (j.Group? <==> i.Group?)
            && (z != r && !i.Folder? ==> j == i)
            && (z != r && i.Folder? ==> ListOf(j, k) == Without(ListOf(i, k), {r}) + if z == t then [r] else [])
            && (z != r && i.Folder? ==> forall m: Kind | m != k :: ListOf(j, m) == ListOf(i, m)))
      && c'.heap[r].parent == Some(t)
      && (t != r ==> c'.heap[r] == WithParent(c.heap[r], Some(t)))
    ensures t == r ==> Reaches(c.heap, r, t)
  {
    ReachesRefl(c.heap, r);
  }

  /** Only the parent lists `r`, so only that list loses it. */
  lemma ListedOnce(c: Cache, r: Ref, z: Ref, k: Kind)
    requires Inv(c) && Movable(c, r) && IsFolder(c, z) && r in ListOf(c.heap[z], k)
    ensures k == KindOf(c.heap[r]) && c.heap[r].parent == Some(z)
  {
    assert ListOk(c.heap, z, k);
  }

  /** Where things are below, once `r` has moved: what was below `r` is now below `t`'s
      ancestors, and nothing else has new ancestors. */
  lemma MoveReaches(c: Cache, r: Ref, t: Ref, a: Ref, z: Ref)
    requires Inv(c) && MayMove(c, r, t) && z in c.heap
    ensures Reaches(Move(c, r, t).heap, a, z) <==>
      if Reaches(c.heap, r, z) then (Reaches(c.heap, a, z) && Reaches(c.heap, r, a)) || Reaches(c.heap, a, t)
      else Reaches(c.heap, a, z)
  {
    if Reaches(c.heap, r, z) {
      var n: nat :| Climb(c.heap, z, n) == Some(r);
      MoveReachesIn(c, r, t, a, z, n);
    } else {
      MoveReachesOut(c, r, t, a, z);
    }
  }

  lemma MoveReachesOut(c: Cache, r: Ref, t: Ref, a: Ref, z: Ref)
    requires Inv(c) && MayMove(c, r, t) && z in c.heap && !Reaches(c.heap, r, z)
    ensures Reaches(Move(c, r, t).heap, a, z) <==> Reaches(c.heap, a, z)
  {
    var c' := Move(c, r, t);
    var s := c.heap.Keys - Sub(c, r);
    ReachesRefl(c.heap, r);
    forall x | x in s
      ensures x in c'.heap && c'.heap[x].parent == c.heap[x].parent
      ensures c.heap[x].parent.Some? ==> c.heap[x].parent.value in s
    {
      MovedItem(c, r, t, x);
      if c.heap[x].parent.Some? {
        OutsideParent(c, r, x);
      }
    }
    ReachesAgrees(c.heap, c'.heap, s, a, z);
  }

  lemma {:induction false} MoveReachesIn(c: Cache, r: Ref, t: Ref, a: Ref, z: Ref, n: nat)
    requires Inv(c) && MayMove(c, r, t) && z in c.heap && Climb(c.heap, z, n) == Some(r)
    ensures Reaches(Move(c, r, t).heap, a, z) <==>
      (Reaches(c.heap, a, z) && Reaches(c.heap, r, a)) || Reaches(c.heap, a, t)
    decreases n
  {
    var c' := Move(c, r, t);
    MovedItem(c, r, t, z);
    ReachesStep(c'.heap, a, z);
    ReachesStep(c.heap, a, z);
    assert Reaches(c.heap, r, z);
    if z == r {
      MoveReachesOut(c, r, t, a, t);
      ReachesRefl(c.heap, r);
      if Reaches(c.heap, a, r) && Reaches(c.heap, r, a) {
        assert PlacedAt(c, r);
        ReachesAntisym(c, r, a);
      }
    } else {
      ParentType(c, z);
      MoveReachesIn(c, r, t, a, c.heap[z].parent.value, n - 1);
    }
  }

  lemma NotInItself(c: Cache, r: Ref, k: Kind)
    requires Inv(c) && Movable(c, r) && IsFolder(c, r)
    ensures r !in ListOf(c.heap[r], k)
  {
    if r in ListOf(c.heap[r], k) {
      ListedOnce(c, r, r, k);
      assert Climb(c.heap, r, 1) == Some(r);
      assert PlacedAt(c, r);
      NoCycle(c, r, 1);
    }
  }

  lemma MovedListIs(c: Cache, r: Ref, t: Ref, f: Ref, k: Kind)
    requires Movable(c, r) && t != r && IsFolder(c, f)
    ensures IsFolder(Move(c, r, t), f)
    ensures var s := ListOf(c.heap[f], k);
      ListOf(Move(c, r, t).heap[f], k) ==
      if f == r || k != KindOf(c.heap[r]) then s else Without(s, {r}) + if f == t then [r] else []
  {
  }

  lemma MovedKid(c: Cache, r: Ref, t: Ref, x: Ref, k: Kind)
    requires Movable(c, r) && t != r && x in c.heap && Is(c.heap[x], k)
    ensures var h := Move(c, r, t).heap;
      x in h && Is(h[x], k) && h[x].parent == if x == r then Some(t) else c.heap[x].parent
  {
  }

  lemma MovedList(c: Cache, r: Ref, t: Ref, f: Ref, k: Kind)
    requires Inv(c) && MayMove(c, r, t) && IsFolder(c, f)
    ensures IsFolder(Move(c, r, t), f) && ListOk(Move(c, r, t).heap, f, k)
  {
    var s := ListOf(c.heap[f], k);
    ReachesRefl(c.heap, r);
    MovedListIs(c, r, t, f, k);
    assert ListOk(c.heap, f, k);
    if f == r {
      NotInItself(c, r, k);
    }
    if r in s {
      ListedOnce(c, r, f, k);
    }
    hide Inv, Reaches, Move, Relisted;
    WithoutNoDup(s, {r});
    NoDupAppend(Without(s, {r}), r);
    forall x | x in ListOf(Move(c, r, t).heap[f], k)
      ensures var h := Move(c, r, t).heap; x in h && Is(h[x], k) && h[x].parent == Some(f)
    {
      MovedKid(c, r, t, x, k);
    }
  }

  lemma MoveLists(c: Cache, r: Ref, t: Ref)
    requires Inv(c) && MayMove(c, r, t)
    ensures ListsOk(Move(c, r, t)) && RootOk(Move(c, r, t))
  {
    MovedItem(c, r, t, c.root);
    forall f, k: Kind | IsFolder(Move(c, r, t), f)
      ensures ListOk(Move(c, r, t).heap, f, k)
    {
      MovedItem(c, r, t, f);
      MovedList(c, r, t, f, k);
    }
  }

  lemma MovePlaced(c: Cache, r: Ref, t: Ref)
    requires Inv(c) && MayMove(c, r, t)
    ensures PlacedOk(Move(c, r, t)) && HashedOk(Move(c, r, t)) && KeysOk(Move(c, r, t))
  {
    var c' := Move(c, r, t);
    ReachesRefl(c.heap, r);
    MovedItem(c, r, t, t);
    forall x | x in c'.heap && x != c'.root && !c'.heap[x].EMail?
      ensures PlacedAt(c', x)
    {
      MovedItem(c, r, t, x);
      if x != r {
        assert PlacedAt(c, x);
        var p := c.heap[x].parent.value;
        MovedItem(c, r, t, p);
        if p == r {
          assert ListOf(c'.heap[p], KindOf(c.heap[x])) == ListOf(c.heap[p], KindOf(c.heap[x]));
        }
      }
    }
    forall u | u in c'.hash
      ensures c'.hash[u] in c'.heap && c'.heap[c'.hash[u]].uid == u && u != "" && c'.heap[c'.hash[u]].parent.Some?
    {
      MovedItem(c, r, t, c.hash[u]);
    }
    forall x | x in c'.heap && x != c'.root && !c'.heap[x].EMail?
      ensures c'.heap[x].uid in c'.hash && c'.hash[c'.heap[x].uid] == x
    {
      MovedItem(c, r, t, x);
    }
  }

  lemma MoveEmails(c: Cache, r: Ref, t: Ref)
    requires Inv(c) && MayMove(c, r, t)
    ensures var c' := Move(c, r, t); PersonsOk(c') && EmailsOk(c') && UidsOk(c') && GroupsOk(c') && FreshOk(c')
  {
    hide RootOk, HashedOk, ListsOk, PlacedOk, PersonsOk, EmailsOk, UidsOk, GroupsOk, RootedOk, FreshOk;
    var c' := Move(c, r, t);
    forall z | z in c.heap || z in c'.heap
      ensures z in c.heap && z in c'.heap && c'.heap[z].uid == c.heap[z].uid
      ensures Owned(c', z) <==> Owned(c, z)
      ensures c.heap[z].EMail? ==> c'.heap[z] == c.heap[z]
      ensures IsPerson(c', z) <==> IsPerson(c, z)
      ensures IsPerson(c, z) ==> c'.heap[z].emails == c.heap[z].emails
      ensures IsGroup(c', z) <==> IsGroup(c, z)
      ensures IsGroup(c, z) ==> c'.heap[z].members == c.heap[z].members
    {
      MovedItem(c, r, t, z);
    }
    EmailFrame(c, c');
    GroupFrame(c, c');
    FreshFrame(c, c');
  }

  /** A guarded move keeps the cache in agreement and the forest rooted. */
  lemma MoveInv(c: Cache, r: Ref, t: Ref)
    requires Inv(c) && MayMove(c, r, t)
    ensures Inv(Move(c, r, t))
  {
    MoveLists(c, r, t);
    MovePlaced(c, r, t);
    MoveEmails(c, r, t);
    var c' := Move(c, r, t);
    forall z | z in c'.heap && c'.heap[z].parent.Some?
      ensures Reaches(c'.heap, c'.root, z)
    {
      MovedItem(c, r, t, z);
      MoveReaches(c, r, t, c.root, z);
      ReachesRefl(c.heap, c.root);
      assert t != c.root ==> PlacedAt(c, t);
      if z == r {
        assert PlacedAt(c, r);
      }
    }
  }

  /** Without the guard the forest is lost: a folder moved into its own subtree is no longer
      below the root. */
  lemma UnguardedMoveUproots(c: Cache, r: Ref, t: Ref)
    requires Inv(c) && Movable(c, r) && IsFolder(c, t) && Reaches(c.heap, r, t)
    ensures !Reaches(Move(c, r, t).heap, c.root, r)
    ensures !Inv(Move(c, r, t))
  {
    var c' := Move(c, r, t);
    MovedItem(c, r, t, r);
    if Reaches(c'.heap, c.root, r) {
      MovedItem(c, r, t, c.root);
      var n: nat :| Climb(c.heap, t, n) == Some(r);
      var m := MovedLoop(c, r, t, t, n);
      assert Climb(c'.heap, r, m + 1) == Some(r);
      NoCycle(c', r, m + 1);
    }
  }

  /** From anything below `r` the moved chain still arrives at `r`. */
  lemma {:induction false} MovedLoop(c: Cache, r: Ref, t: Ref, z: Ref, n: nat) returns (m: nat)
    requires Inv(c) && Movable(c, r) && Climb(c.heap, z, n) == Some(r) && z in c.heap
    ensures Climb(Move(c, r, t).heap, z, m) == Some(r)
    decreases n
  {
    if z == r {
      m := 0;
    } else {
      MovedItem(c, r, t, z);
      ParentType(c, z);
      m := MovedLoop(c, r, t, c.heap[z].parent.value, n - 1);
      m := m + 1;
    }
  }
}
