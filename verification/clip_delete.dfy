/** Deleting what was cut (src/addrclip.c:658-720), and how many persons that takes away. */
module ClipDelete {
  import opened Items
  import opened CacheState
  import opened CachePrune
  import opened AddrCache
  import opened ClipMove
  import opened ClipTree
  import opened ClipFolder

  // ---------- removing several subtrees ----------

  /** The cache without the items of `d`. */
  ghost function PruneDown(c: Cache, d: set<Ref>): Cache {
    Cache(map r | r in c.heap && r !in d :: Scrub(c.heap[r], d), HashWithout(c.hash, d), c.root, c.nextId, c.top, true)
  }

  /** Everything at or below one of the items `xs`. */
  ghost function SubAll(c: Cache, xs: set<Ref>): set<Ref> {
    set r, x | x in xs && r in Sub(c, x) :: r
  }

  lemma PrunedDown(c: Cache, d: set<Ref>, r: Ref)
    ensures r in PruneDown(c, d).heap <==> r in c.heap && r !in d
    ensures r in PruneDown(c, d).heap ==> PruneDown(c, d).heap[r] == Scrub(c.heap[r], d)
    ensures r in PruneDown(c, d).heap ==> PruneDown(c, d).heap[r].parent == c.heap[r].parent
    ensures r in PruneDown(c, d).heap ==> PruneDown(c, d).heap[r].uid == c.heap[r].uid
  {
  }

  /** Items that are left keep what is above them. */
  lemma DownReaches(c: Cache, xs: set<Ref>, a: Ref, r: Ref)
    requires Inv(c) && r in c.heap && r !in SubAll(c, xs)
    ensures Reaches(PruneDown(c, SubAll(c, xs)).heap, a, r) <==> Reaches(c.heap, a, r)
  {
    var d := SubAll(c, xs);
    var s := c.heap.Keys - d;
    forall z | z in s
      ensures z in PruneDown(c, d).heap && PruneDown(c, d).heap[z].parent == c.heap[z].parent
      ensures c.heap[z].parent.Some? ==> c.heap[z].parent.value in s
    {
      PrunedDown(c, d, z);
      if c.heap[z].parent.Some? {
        ParentType(c, z);
        forall x | x in xs
          ensures c.heap[z].parent.value !in Sub(c, x)
        {
          assert z !in Sub(c, x);
          ReachesStep(c.heap, x, z);
        }
      }
    }
    ReachesAgrees(c.heap, PruneDown(c, d).heap, s, a, r);
  }

  /** Pruning one more subtree. */
  lemma DownOneMore(c: Cache, xs: set<Ref>, y: Ref)
    requires Inv(c) && y in c.heap && y !in SubAll(c, xs)
    ensures Prune(PruneDown(c, SubAll(c, xs)), y) == PruneDown(c, SubAll(c, xs + {y}))
  {
    var d := SubAll(c, xs);
    var b := PruneDown(c, d);
    forall r
      ensures r in Sub(b, y) <==> r in Sub(c, y) && r !in d
    {
      PrunedDown(c, d, r);
      if r in c.heap && r !in d {
        DownReaches(c, xs, y, r);
      }
    }
    var d' := SubAll(c, xs + {y});
    forall r
      ensures r in d' <==> r in d || r in Sub(c, y)
    {
    }
    assert d' == d + Sub(b, y);
    DownTwice(c, d, Sub(b, y), b);
  }

  lemma DownTwice(c: Cache, d: set<Ref>, e: set<Ref>, b: Cache)
    requires b == PruneDown(c, d)
    ensures PruneDown(b, e) == PruneDown(c, d + e)
  {
    var x, y := PruneDown(b, e), PruneDown(c, d + e);
    forall r
      ensures r in x.heap <==> r in y.heap
      ensures r in x.heap ==> x.heap[r] == y.heap[r]
    {
      PrunedDown(b, e, r);
      PrunedDown(c, d, r);
      PrunedDown(c, d + e, r);
      if r in x.heap {
        ScrubTwice(c.heap[r], d, e);
      }
    }
    assert x.heap == y.heap;
    HashWithoutTwice(c.hash, d, e);
  }

  /** A selected item that is already gone lay below another one: skipping it changes nothing. */
  lemma DownAgain(c: Cache, xs: set<Ref>, y: Ref)
    requires Inv(c) && y in SubAll(c, xs)
    ensures SubAll(c, xs + {y}) == SubAll(c, xs)
  {
    forall r | r in Sub(c, y)
      ensures r in SubAll(c, xs)
    {
      var x :| x in xs && y in Sub(c, x);
      ReachesTrans(c.heap, x, y, r);
      assert r in Sub(c, x);
    }
    forall r
      ensures r in SubAll(c, xs + {y}) <==> r in SubAll(c, xs)
    {
    }
  }

  // ---------- the two loops ----------

  /** The objects of the cache that the uids name, of the wanted sort. */
  ghost function Named(c: Cache, us: seq<Uid>, groups: bool): set<Ref> {
    set u | u in us && u in c.hash && c.hash[u] in c.heap && !c.heap[c.hash[u]].EMail?
      && c.heap[c.hash[u]].Group? == groups :: c.hash[u]
  }

  lemma NamedMore(c: Cache, us: seq<Uid>, u: Uid, groups: bool)
    ensures Named(c, us + [u], groups) == Named(c, us, groups) +
      if u in c.hash && c.hash[u] in c.heap && !c.heap[c.hash[u]].EMail?
        && c.heap[c.hash[u]].Group? == groups then {c.hash[u]} else {}
  {
  }

  /** What the deletion leaves part way: the subtrees `xs` are gone. */
  ghost predicate Deleting(c0: Cache, c: Cache, xs: set<Ref>) {
    Inv(c0) && Inv(c) && (if xs == {} then c == c0 else c == PruneDown(c0, SubAll(c0, xs)))
      && c0.root !in SubAll(c0, xs)
  }

  /** Looking an object up in the reduced cache: it is there if it was and is not gone. */
  lemma DeletingLookup(c0: Cache, c: Cache, xs: set<Ref>, u: Uid)
    requires Deleting(c0, c, xs)
    ensures u in c.hash <==> u in c0.hash && c0.hash[u] !in SubAll(c0, xs)
    ensures u in c.hash ==> c.hash[u] == c0.hash[u] && c.hash[u] in c.heap && c0.hash[u] in c0.heap
                            && c.hash[u] != c0.root
    ensures u in c.hash ==> var i, j := c0.heap[c0.hash[u]], c.heap[c.hash[u]];
      (j.EMail? <==> i.EMail?) && (j.Group? <==> i.Group?) && (j.Person? <==> i.Person?) && (j.Folder? <==> i.Folder?)
      && j.parent.Some?
  {
    if xs == {} {
      assert SubAll(c0, xs) == {};
    } else if u in c.hash {
      PrunedDown(c0, SubAll(c0, xs), c.hash[u]);
    }
  }

  lemma DeletingStep(c0: Cache, c: Cache, xs: set<Ref>, y: Ref)
    requires Deleting(c0, c, xs) && y in c.heap && y != c0.root && c.heap[y].parent.Some?
    ensures Deleting(c0, Prune(c, y), xs + {y})
  {
    hide Inv, Sub;
    PruneInv(c, y);
    RootOutside(c0, y);
    if xs == {} {
      assert xs + {y} == {y};
      assert SubAll(c0, {y}) == Sub(c0, y);
    } else {
      PrunedDown(c0, SubAll(c0, xs), y);
      DownOneMore(c0, xs, y);
      assert SubAll(c0, xs + {y}) == SubAll(c0, xs) + Sub(c0, y);
    }
  }

  lemma DeletingSkip(c0: Cache, c: Cache, xs: set<Ref>, y: Ref)
    requires Deleting(c0, c, xs) && y in SubAll(c0, xs)
    ensures Deleting(c0, c, xs + {y})
  {
    DownAgain(c0, xs, y);
    assert xs != {};
  }

  // ---------- how many persons there are below a folder ----------

  /** Two items above the same item are above each other. */
  lemma AboveOrBelow(h: map<Ref, Item>, a: Ref, b: Ref, r: Ref)
    requires Reaches(h, a, r) && Reaches(h, b, r)
    ensures Reaches(h, a, b) || Reaches(h, b, a)
  {
    var m: nat :| Climb(h, r, m) == Some(a);
    var n: nat :| Climb(h, r, n) == Some(b);
    if m <= n {
      ClimbAdd(h, r, m, n - m);
      assert Climb(h, a, n - m) == Some(b);
    } else {
      ClimbAdd(h, r, n, m - n);
      assert Climb(h, b, m - n) == Some(a);
    }
  }

  ghost function PersonsIn(c: Cache, s: set<Ref>): set<Ref> { set p | p in s && p in c.heap && c.heap[p].Person? }

  /** Siblings have nothing below them in common. */
  lemma SiblingsApart(c: Cache, f: Ref, a: Ref, b: Ref)
    requires Inv(c) && a in c.heap && b in c.heap && a != b
    requires c.heap[a].parent == Some(f) && c.heap[b].parent == Some(f)
    ensures Sub(c, a) !! Sub(c, b)
  {
    if r :| r in Sub(c, a) && r in Sub(c, b) {
      AboveOrBelow(c.heap, a, b, r);
      if Reaches(c.heap, a, b) {
        SiblingsNotAbove(c, f, a, b);
      } else {
        SiblingsNotAbove(c, f, b, a);
      }
    }
  }

  lemma SiblingsNotAbove(c: Cache, f: Ref, a: Ref, b: Ref)
    requires Inv(c) && a in c.heap && b in c.heap && a != b
    requires c.heap[a].parent == Some(f) && c.heap[b].parent == Some(f)
    ensures !Reaches(c.heap, a, b)
  {
    if Reaches(c.heap, a, b) {
      ReachesStep(c.heap, a, b);
      ParentType(c, a);
      SubShrinks(c, f, a);
    }
  }

  /** What lies above a person is a folder or the person itself. */
  lemma PersonIsLeaf(c: Cache, y: Ref, p: Ref)
    requires Inv(c) && y in c.heap && !c.heap[y].Folder? && IsPerson(c, p) && Reaches(c.heap, y, p)
    ensures y == p
  {
    if c.heap[y].Person? {
      SubOfPerson(c, y);
      assert PersonOk(c, y);
      assert p in Sub(c, y);
    } else {
      NothingBelow(c, y, p);
    }
  }

  /** Below a folder: its own persons and whatever is below its folders. */
  lemma BelowFolder(c: Cache, f: Ref, p: Ref)
    requires Inv(c) && IsFolder(c, f) && IsPerson(c, p)
    ensures p in Sub(c, f) <==> p in c.heap[f].persons || exists i :: 0 <= i < |c.heap[f].folders|
                                                                      && p in Sub(c, c.heap[f].folders[i])
  {
    if p in Sub(c, f) {
      var n: nat :| Climb(c.heap, p, n) == Some(f);
      var y := ChildOnPath(c.heap, p, f, n);
      ParentType(c, y);
      if c.heap[y].Folder? {
        assert y in ListOf(c.heap[f], FolderKind);
        var i :| 0 <= i < |c.heap[f].folders| && c.heap[f].folders[i] == y;
        assert p in Sub(c, c.heap[f].folders[i]);
      } else {
        PersonIsLeaf(c, y, p);
      }
    }
    if p in c.heap[f].persons {
      assert ListOk(c.heap, f, PersonKind) && p in ListOf(c.heap[f], PersonKind);
      ReachesStep(c.heap, f, p);
      ReachesRefl(c.heap, f);
    }
    if exists i :: 0 <= i < |c.heap[f].folders| && p in Sub(c, c.heap[f].folders[i]) {
      var i :| 0 <= i < |c.heap[f].folders| && p in Sub(c, c.heap[f].folders[i]);
      var y := c.heap[f].folders[i];
      assert ListOk(c.heap, f, FolderKind) && y in ListOf(c.heap[f], FolderKind);
      SubShrinks(c, f, y);
    }
  }

  lemma {:induction false} ElemsSize(s: seq<Ref>)
    requires NoDup(s)
    ensures |Elems(s)| == |s|
  {
    if s != [] {
      ElemsSize(s[1..]);
      assert s[0] !in s[1..];
      assert Elems(s) == {s[0]} + Elems(s[1..]);
    }
  }

  /** The persons of a folder and of the first `i` of its folders. */
  ghost function PersonsUpTo(c: Cache, f: Ref, i: nat): set<Ref>
    requires IsFolder(c, f) && i <= |c.heap[f].folders|
  {
    if i == 0 then Elems(c.heap[f].persons)
    else PersonsUpTo(c, f, i - 1) + PersonsIn(c, Sub(c, c.heap[f].folders[i - 1]))
  }

  /** A person below one of the first `i` folders of `f`. */
  ghost predicate InOneOf(c: Cache, f: Ref, i: nat, p: Ref)
    requires IsFolder(c, f) && i <= |c.heap[f].folders|
  {
    IsPerson(c, p) && exists j :: 0 <= j < i && p in Sub(c, c.heap[f].folders[j])
  }

  lemma {:induction false} PersonsUpToMember(c: Cache, f: Ref, i: nat, p: Ref)
    requires IsFolder(c, f) && i <= |c.heap[f].folders|
    ensures p in PersonsUpTo(c, f, i) <==> p in c.heap[f].persons || InOneOf(c, f, i, p)
  {
    if i > 0 {
      PersonsUpToMember(c, f, i - 1, p);
    }
  }

  /** The tree that a folder shows has as many persons as lie below the folder. */
  lemma {:induction false} CountBelow(c: Cache, f: Ref, t: Tree, s: set<Ref>)
    requires Inv(c) && IsFolder(c, f) && Shows(c.heap, f, t, s)
    ensures |PersonsIn(c, Sub(c, f))| == CountPersons(t)
    decreases t, 0
  {
    ShowsParts(c.heap, f, t, s);
    hide Inv, Shows, PersonsIn, Sub;
    CountUpTo(c, f, t, s, |t.folders|);
    assert t.folders[..|t.folders|] == t.folders;
    UpToAll(c, f);
  }

  lemma CountNone(c: Cache, f: Ref, t: Tree)
    requires IsFolder(c, f) && NoDup(c.heap[f].persons) && |c.heap[f].persons| == |t.persons|
    ensures |PersonsUpTo(c, f, 0)| == |t.persons| + CountAll(t.folders[..0])
  {
    ElemsSize(c.heap[f].persons);
  }

  lemma ShowsAt(h: map<Ref, Item>, fs: seq<Ref>, ts: seq<Tree>, s: set<Ref>, j: nat)
    requires ShowsAll(h, fs, ts, s) && j < |fs|
    ensures |ts| == |fs| && Shows(h, fs[j], ts[j], s)
  {
    hide Shows;
  }

  lemma {:induction false} CountUpTo(c: Cache, f: Ref, t: Tree, s: set<Ref>, i: nat)
    requires Inv(c) && IsFolder(c, f) && i <= |c.heap[f].folders| == |t.folders| && |c.heap[f].persons| == |t.persons|
    requires ShowsAll(c.heap, c.heap[f].folders, t.folders, s)
    ensures |PersonsUpTo(c, f, i)| == |t.persons| + CountAll(t.folders[..i])
    decreases t.folders, i
  {
    hide Inv, Shows, PersonsIn, Sub, PersonsUpTo, ShowsAll, CountAll, CountPersons, NoDup;
    ListsHere(c, f);
    if i == 0 {
      CountNone(c, f, t);
    } else {
      var j := i - 1;
      assert c.heap[f].folders[j] in c.heap[f].folders;
      CountUpTo(c, f, t, s, j);
      ShowsAt(c.heap, c.heap[f].folders, t.folders, s, j);
      CountBelow(c, c.heap[f].folders[j], t.folders[j], s);
      UpToStep(c, f, j);
      CountPrefix(t.folders, j);
    }
  }

  lemma CountPrefix(ts: seq<Tree>, j: nat)
    requires j < |ts|
    ensures CountAll(ts[..j + 1]) == CountAll(ts[..j]) + CountPersons(ts[j])
  {
    TakeMore(ts, j);
    CountAllAppend(ts[..j], ts[j]);
  }

  lemma UpToAll(c: Cache, f: Ref)
    requires Inv(c) && IsFolder(c, f)
    ensures PersonsIn(c, Sub(c, f)) == PersonsUpTo(c, f, |c.heap[f].folders|)
  {
    var n := |c.heap[f].folders|;
    ListsHere(c, f);
    hide Inv;
    forall p
      ensures p in PersonsIn(c, Sub(c, f)) <==> p in PersonsUpTo(c, f, n)
    {
      PersonsUpToMember(c, f, n, p);
      if IsPerson(c, p) {
        BelowFolder(c, f, p);
      }
    }
  }

  lemma UpToStep(c: Cache, f: Ref, i: nat)
    requires Inv(c) && IsFolder(c, f) && i < |c.heap[f].folders|
    ensures |PersonsUpTo(c, f, i + 1)| == |PersonsUpTo(c, f, i)| + |PersonsIn(c, Sub(c, c.heap[f].folders[i]))|
  {
    hide Inv;
    UpToApart(c, f, i);
  }

  lemma ListsHere(c: Cache, f: Ref)
    requires Inv(c) && IsFolder(c, f)
    ensures NoDup(c.heap[f].persons) && NoDup(c.heap[f].folders)
    ensures forall p | p in c.heap[f].persons :: IsPerson(c, p) && c.heap[p].parent == Some(f)
    ensures forall x | x in c.heap[f].folders :: IsFolder(c, x) && c.heap[x].parent == Some(f)
  {
    assert ListOk(c.heap, f, PersonKind) && ListOk(c.heap, f, FolderKind);
    assert forall p | p in c.heap[f].persons :: p in ListOf(c.heap[f], PersonKind);
    assert forall x | x in c.heap[f].folders :: x in ListOf(c.heap[f], FolderKind);
  }

  lemma UpToApart(c: Cache, f: Ref, i: nat)
    requires Inv(c) && IsFolder(c, f) && i < |c.heap[f].folders|
    ensures PersonsUpTo(c, f, i) !! PersonsIn(c, Sub(c, c.heap[f].folders[i]))
  {
    ListsHere(c, f);
    var fs := c.heap[f].folders;
    forall p | p in PersonsUpTo(c, f, i)
      ensures p !in PersonsIn(c, Sub(c, fs[i]))
    {
      PersonsUpToMember(c, f, i, p);
      if p in c.heap[f].persons {
        assert fs[i] in fs;
        if p in Sub(c, fs[i]) {
          SiblingsNotAbove(c, f, fs[i], p);
        }
      } else {
        var j :| 0 <= j < i && p in Sub(c, fs[j]);
        assert fs[i] in fs && fs[j] in fs;
        SiblingsApart(c, f, fs[j], fs[i]);
      }
    }
  }

  // ---------- the method ----------

  lemma {:induction false} KnownUidsAppend(items: seq<SelectItem>, item: SelectItem, known: set<string>)
    ensures KnownUids(items + [item], known) == KnownUids(items, known) + if item.cacheID in known then [item.uid]
      else []
  {
    if items == [] {
      assert items + [item] == [item];
    } else {
      assert (items + [item])[1..] == items[1..] + [item];
      KnownUidsAppend(items[1..], item, known);
    }
  }

  /** One turn: what the lookup finds decides whether `xs` grows. */
  lemma DeletingTurn(c0: Cache, c: Cache, us: seq<Uid>, u: Uid, groups: bool, done: set<Ref>)
    requires Deleting(c0, c, done + Named(c0, us, groups))
    ensures u in c.hash ==> c.hash[u] in c.heap && c.hash[u] != c0.root && c.heap[c.hash[u]].parent.Some?
    ensures u in c.hash && !c.heap[c.hash[u]].EMail? && c.heap[c.hash[u]].Group? == groups ==>
      Deleting(c0, Prune(c, c.hash[u]), done + Named(c0, us + [u], groups))
    ensures !(u in c.hash && !c.heap[c.hash[u]].EMail? && c.heap[c.hash[u]].Group? == groups) ==>
      Deleting(c0, c, done + Named(c0, us + [u], groups))
  {
    hide Inv, Sub;
    var xs := done + Named(c0, us, groups);
    DeletingLookup(c0, c, xs, u);
    NamedMore(c0, us, u, groups);
    if u in c0.hash && c0.hash[u] in c0.heap && !c0.heap[c0.hash[u]].EMail? && c0.heap[c0.hash[u]].Group? == groups {
      var y := c0.hash[u];
      assert done + Named(c0, us + [u], groups) == xs + {y};
      if u in c.hash {
        DeletingStep(c0, c, xs, y);
      } else {
        DeletingSkip(c0, c, xs, y);
      }
    } else {
      assert done + Named(c0, us + [u], groups) == xs;
    }
  }

  /** All the selected persons, groups and folders. */
  ghost function Selected(c: Cache, us: seq<Uid>): set<Ref> { Named(c, us, true) + Named(c, us, false) }

  lemma DeletingStart(c: Cache)
    requires Inv(c)
    ensures Deleting(c, c, {})
  {
    assert SubAll(c, {}) == {};
  }

  /** The first loop: the selected groups. */
  method DeleteGroups(src: AddressCache, items: seq<SelectItem>, index: map<string, AddressCache>)
    requires Inv(src.View()) && forall i | i in items && i.cacheID in index :: index[i.cacheID] == src
    modifies src`heap, src`itemHash, src`dirtyFlag
    ensures Inv(src.View())
    ensures Deleting(old(src.View()), src.View(), Named(old(src.View()), KnownUids(items, index.Keys), true))
  {
    hide Inv, Deleting, Prune, Named;
    ghost var c0 := src.View();
    DeletingStart(c0);
    NamedNone(c0, true);
    var i := 0;
    assert items[..0] == [];
    while i < |items|
      invariant 0 <= i <= |items|
      invariant Inv(src.View()) && Deleting(c0, src.View(), Named(c0, KnownUids(items[..i], index.Keys), true))
    {
      var item := items[i];
      assert items[..i + 1] == items[..i] + [item];
      ghost var vs := KnownUids(items[..i], index.Keys);
      KnownUidsAppend(items[..i], item, index.Keys);
      NoSet(Named(c0, vs, true));
      NoSet(Named(c0, vs + [item.uid], true));
      assert vs + [] == vs;
      if item.cacheID in index {
        var cacheFrom := index[item.cacheID];
        DeletingTurn(c0, src.View(), vs, item.uid, true, {});
        var aio := cacheFrom.GetObject(item.uid);
        if aio.Some? && src.heap[aio.value].Group? {
          cacheFrom.RemoveGroup(aio.value);
        }
      }
      i := i + 1;
    }
    assert items[..i] == items;
  }

  /** The second loop: the selected persons and folders. */
  method DeleteOthers(src: AddressCache, items: seq<SelectItem>, index: map<string, AddressCache>,
                      ghost c0: Cache, ghost done: set<Ref>)
    requires Inv(src.View()) && forall i | i in items && i.cacheID in index :: index[i.cacheID] == src
    requires Deleting(c0, src.View(), done)
    modifies src`heap, src`itemHash, src`dirtyFlag
    ensures Inv(src.View())
    ensures Deleting(c0, src.View(), done + Named(c0, KnownUids(items, index.Keys), false))
  {
    hide Inv, Deleting, Prune, Named;
    NamedNone(c0, false);
    assert done + {} == done;
    var j := 0;
    assert items[..0] == [];
    while j < |items|
      invariant 0 <= j <= |items|
      invariant Inv(src.View()) && Deleting(c0, src.View(), done + Named(c0, KnownUids(items[..j], index.Keys), false))
    {
      var item := items[j];
      assert items[..j + 1] == items[..j] + [item];
      ghost var vs := KnownUids(items[..j], index.Keys);
      KnownUidsAppend(items[..j], item, index.Keys);
      assert vs + [] == vs;
      if item.cacheID in index {
        var cacheFrom := index[item.cacheID];
        DeletingTurn(c0, src.View(), vs, item.uid, false, done);
        var aio := cacheFrom.GetObject(item.uid);
        if aio.Some? && src.heap[aio.value].Person? {
          cacheFrom.RemovePerson(aio.value);
        } else if aio.Some? && src.heap[aio.value].Folder? {
          cacheFrom.RemoveFolderDelete(aio.value);
        }
      }
      j := j + 1;
    }
    assert items[..j] == items;
  }

  /** `addrclip_delete_item`, for a clipboard whose items come from `src` or from caches that
      are gone.  Exactly the selected items and what is below them disappear; an item that was
      selected together with a folder above it is found to be gone already. */
  method DeleteItems(src: AddressCache, moveFlag: bool, items: seq<SelectItem>, index: map<string, AddressCache>)
    requires Inv(src.View()) && forall i | i in items && i.cacheID in index :: index[i.cacheID] == src
    modifies src`heap, src`itemHash, src`dirtyFlag
    ensures Inv(src.View()) && (moveFlag ==> src.View() == old(src.View()))
    ensures !moveFlag ==> Deleting(old(src.View()), src.View(), Selected(old(src.View()), KnownUids(items, index.Keys)))
  {
    hide Inv, Deleting, Named;
    if moveFlag {
      return;
    }
    ghost var c0 := src.View();
    DeleteGroups(src, items, index);
    DeleteOthers(src, items, index, c0, Named(c0, KnownUids(items, index.Keys), true));
  }

  lemma NamedNone(c: Cache, groups: bool)
    ensures KnownUids([], {}) == [] && Named(c, [], groups) == {}
  {
  }

  lemma NoSet(s: set<Ref>)
    ensures {} + s == s
  {
  }

}
