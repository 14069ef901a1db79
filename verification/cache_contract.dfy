/** Removing a folder while keeping what it holds (src/addrcache.c:895-942): the tree is
    contracted, its children going to the end of its parent's lists. */
module CacheContract {
  import opened Items
  import opened CacheState
  import opened CachePrune
  import opened CacheEdit

  /** A folder that `remove_folder` is given: hashed, so not the root. */
  predicate Removable(c: Cache, f: Ref) {
    IsFolder(c, f) && f != c.root && c.heap[f].parent.Some?
  }

  /** The parent's lists once it has taken over the children of `f`. */
  function Adopt(p: Item, fold: Item, f: Ref): Item
    requires p.Folder? && fold.Folder?
  {
    Folder(p.uid, p.name, p.parent, p.remarks,
           Without(p.folders, {f}) + fold.folders, p.persons + fold.persons, p.groups + fold.groups)
  }

  function Contract(c: Cache, f: Ref): Cache
    requires Removable(c, f)
  {
    var p := c.heap[f].parent.value;
    c.(heap := map z | z in c.heap && z != f ::
         if z == p && c.heap[z].Folder? then Adopt(c.heap[z], c.heap[f], f)
         else if c.heap[z].parent == Some(f) then WithParent(c.heap[z], Some(p))
         else c.heap[z],
       hash := HashWithout(c.hash, {f}), dirty := true)
  }

  lemma AboveRemoved(c: Cache, f: Ref)
    requires Inv(c) && Removable(c, f)
    ensures var p := c.heap[f].parent.value; IsFolder(c, p) && p != f && f in c.heap[p].folders
                                             && c.heap[p].parent != Some(f)
  {
    assert PlacedAt(c, f);
    var p := c.heap[f].parent.value;
    if p == f {
      assert Climb(c.heap, f, 1) == Some(f);
      NoCycle(c, f, 1);
    }
    if c.heap[p].parent == Some(f) {
      assert Climb(c.heap, p, 1) == Some(f);
      assert Climb(c.heap, f, 2) == Some(f);
      NoCycle(c, f, 2);
    }
  }

  lemma ContractedItem(c: Cache, f: Ref, z: Ref)
    requires Inv(c) && Removable(c, f)
    ensures var c' := Contract(c, f); var p := c.heap[f].parent.value;
      && (z in c'.heap <==> z in c.heap && z != f)
      && (z in c'.heap ==>
            var i, j := c.heap[z], c'.heap[z];
            && j.uid == i.uid && j.name == i.name
            && j.parent == (if i.parent == Some(f) then Some(p) else i.parent)
            && (j.EMail? <==> i.EMail?) && (j.Folder? <==> i.Folder?)
            && (j.Person? <==> i.Person?) && (j.Group? <==> i.Group?)
            && (i.Person? ==> j.emails == i.emails) && (i.Group? ==> j.members == i.members)
            && (i.parent != Some(f) && z != p ==> j == i)
            && (i.Folder? && z != p ==> forall k: Kind :: ListOf(j, k) == ListOf(i, k))
            && (z == p ==> i.Folder? && j == Adopt(i, c.heap[f], f)))
  {
    AboveRemoved(c, f);
  }

  /** For any two items that remain, one is above the other after exactly if it was before. */
  lemma ContractReaches(c: Cache, f: Ref, a: Ref, z: Ref)
    requires Inv(c) && Removable(c, f) && z in c.heap && z != f && a != f
    ensures Reaches(Contract(c, f).heap, a, z) <==> Reaches(c.heap, a, z)
  {
    if c.heap[z].parent == None {
      ContractedItem(c, f, z);
      ReachesStep(c.heap, a, z);
      ReachesStep(Contract(c, f).heap, a, z);
    } else {
      assert Reaches(c.heap, c.root, z);
      var n: nat :| Climb(c.heap, z, n) == Some(c.root);
      ContractReachesFrom(c, f, a, z, n);
    }
  }

  lemma {:induction false} ContractReachesFrom(c: Cache, f: Ref, a: Ref, z: Ref, n: nat)
    requires Inv(c) && Removable(c, f) && z in c.heap && z != f && a != f && Climb(c.heap, z, n) == Some(c.root)
    ensures Reaches(Contract(c, f).heap, a, z) <==> Reaches(c.heap, a, z)
    decreases n
  {
    ContractedItem(c, f, z);
    AboveRemoved(c, f);
    var h := Contract(c, f).heap;
    ReachesStep(h, a, z);
    ReachesStep(c.heap, a, z);
    if z != c.root {
      ParentType(c, z);
      if c.heap[z].parent == Some(f) {
        ReachesStep(c.heap, a, f);
        ContractReachesFrom(c, f, a, c.heap[f].parent.value, n - 2);
      } else {
        ContractReachesFrom(c, f, a, c.heap[z].parent.value, n - 1);
      }
    }
  }

  /** The parent's list of one kind, and what is in it. */
  lemma AdoptedList(c: Cache, f: Ref, k: Kind)
    requires Inv(c) && Removable(c, f)
    ensures var p := c.heap[f].parent.value;
      IsFolder(c, p) && ListOf(Adopt(c.heap[p], c.heap[f], f), k) ==
        Without(ListOf(c.heap[p], k), {f}) + ListOf(c.heap[f], k)
  {
    AboveRemoved(c, f);
    var p := c.heap[f].parent.value;
    assert ListOk(c.heap, p, k);
    if k != FolderKind {
      WithoutDisjoint(ListOf(c.heap[p], k), {f});
    }
  }

  lemma ContractLists(c: Cache, f: Ref)
    requires Inv(c) && Removable(c, f)
    ensures ListsOk(Contract(c, f)) && RootOk(Contract(c, f))
  {
    var c' := Contract(c, f);
    var p := c.heap[f].parent.value;
    ContractedItem(c, f, c.root);
    forall x, k: Kind | IsFolder(c', x)
      ensures ListOk(c'.heap, x, k)
    {
      ContractedItem(c, f, x);
      assert ListOk(c.heap, x, k);
      assert ListOk(c.heap, f, k);
      var s := ListOf(c.heap[x], k);
      if x == p {
        AdoptedList(c, f, k);
        WithoutNoDup(s, {f});
        AboveRemoved(c, f);
        forall r | r in Without(s, {f})
          ensures r !in ListOf(c.heap[f], k)
        {
          assert c.heap[r].parent == Some(p);
        }
        NoDupConcat(Without(s, {f}), ListOf(c.heap[f], k));
      }
      forall r | r in ListOf(c'.heap[x], k)
        ensures r in c'.heap && Is(c'.heap[r], k) && c'.heap[r].parent == Some(x)
      {
        ContractedItem(c, f, r);
      }
    }
  }

  lemma ContractPlaced(c: Cache, f: Ref)
    requires Inv(c) && Removable(c, f)
    ensures PlacedOk(Contract(c, f)) && HashedOk(Contract(c, f)) && KeysOk(Contract(c, f))
  {
    var c' := Contract(c, f);
    var p := c.heap[f].parent.value;
    forall x | x in c'.heap && x != c'.root && !c'.heap[x].EMail?
      ensures PlacedAt(c', x)
      ensures c'.heap[x].uid in c'.hash && c'.hash[c'.heap[x].uid] == x
    {
      ContractedItem(c, f, x);
      assert PlacedAt(c, x);
      var k := KindOf(c.heap[x]);
      ContractedItem(c, f, c.heap[x].parent.value);
      ContractedItem(c, f, p);
      AboveRemoved(c, f);
      AdoptedList(c, f, k);
    }
    forall u | u in c'.hash
      ensures c'.hash[u] in c'.heap && c'.heap[c'.hash[u]].uid == u && u != "" && c'.heap[c'.hash[u]].parent.Some?
    {
      ContractedItem(c, f, c.hash[u]);
    }
  }

  lemma ContractEmails(c: Cache, f: Ref)
    requires Inv(c) && Removable(c, f)
    ensures var c' := Contract(c, f); PersonsOk(c') && EmailsOk(c') && UidsOk(c') && GroupsOk(c') && FreshOk(c')
  {
    var c' := Contract(c, f);
    forall z | z in c.heap || z in c'.heap
      ensures z in c.heap && (z != f ==> z in c'.heap && c'.heap[z].uid == c.heap[z].uid)
      ensures Owned(c', z) <==> Owned(c, z)
      ensures Owned(c, z) ==> c'.heap[z] == c.heap[z]
      ensures IsPerson(c', z) <==> IsPerson(c, z)
      ensures IsPerson(c, z) ==> c'.heap[z].emails == c.heap[z].emails
      ensures IsGroup(c', z) <==> IsGroup(c, z)
      ensures IsGroup(c, z) ==> c'.heap[z].members == c.heap[z].members
    {
      ContractedItem(c, f, z);
      AboveRemoved(c, f);
      if Owned(c, z) {
        assert EmailOk(c, z);
      }
    }
    EmailFrame(c, c');
    GroupFrame(c, c');
    FreshFrame(c, c');
  }

  lemma ContractInv(c: Cache, f: Ref)
    requires Inv(c) && Removable(c, f)
    ensures Inv(Contract(c, f))
  {
    ContractLists(c, f);
    ContractPlaced(c, f);
    ContractEmails(c, f);
    var c' := Contract(c, f);
    forall z | z in c'.heap && c'.heap[z].parent.Some?
      ensures Reaches(c'.heap, c'.root, z)
    {
      ContractedItem(c, f, z);
      assert c.heap[z].parent.Some?;
      assert Reaches(c.heap, c.root, z);
      ContractReaches(c, f, c.root, z);
    }
  }
}
