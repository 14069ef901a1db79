/** Cutting and pasting inside one address book (src/addrclip.c:403-422, 552-603, 729-760). */
module ClipMove {
  import opened Items
  import opened CacheState
  import opened CacheForest
  import opened AddrCache

  /** What the clipboard remembers of a selected item: the cache it was in and its uid.  A
      selected address book is a data source and has no uid. */
  datatype SelectItem = SelectItem(uid: Uid, cacheID: string, isDataSource: bool)

  // ---------- the cycle guard ----------

  /** `addrclip_is_subfolder_of`: on any cache in agreement the walk ends, and it decides the
      reflexive ancestor relation. */
  method IsSubfolderOf(cache: AddressCache, isParent: Ref, isChild: Ref) returns (b: bool)
    requires Inv(cache.View()) && IsFolder(cache.View(), isParent) && IsFolder(cache.View(), isChild)
    ensures b <==> Reaches(cache.heap, isParent, isChild)
  {
    ghost var c := cache.View();
    ReachesStep(c.heap, isParent, isChild);
    if isParent == isChild {
      return true;
    }
    var obj := cache.heap[isChild].parent;
    ghost var n := WayUp(c, isChild);
    hide Inv;
    while obj.Some?
      invariant obj.Some? ==> obj.value in c.heap && n > 0 && Climb(c.heap, obj.value, n - 1) == Some(c.root)
      invariant Reaches(c.heap, isParent, isChild) <==> obj.Some? && Reaches(c.heap, isParent, obj.value)
      decreases n
    {
      if obj.value == isParent {
        ReachesRefl(c.heap, isParent);
        return true;
      }
      ReachesStep(c.heap, isParent, obj.value);
      WayUpStep(c, obj.value, n - 1);
      n := n - 1;
      obj := cache.heap[obj.value].parent;
    }
    return false;
  }

  lemma WayUp(c: Cache, f: Ref) returns (n: nat)
    requires Inv(c) && IsFolder(c, f)
    ensures Climb(c.heap, f, n) == Some(c.root)
    ensures c.heap[f].parent.Some? ==> n > 0 && c.heap[f].parent.value in c.heap
    ensures c.heap[f].parent.Some? ==> Climb(c.heap, c.heap[f].parent.value, n - 1) == Some(c.root)
  {
    if f == c.root {
      n := 0;
    } else {
      assert PlacedAt(c, f);
      assert Reaches(c.heap, c.root, f);
      n :| Climb(c.heap, f, n) == Some(c.root);
    }
  }

  lemma WayUpStep(c: Cache, r: Ref, n: nat)
    requires Inv(c) && r in c.heap && Climb(c.heap, r, n) == Some(c.root)
    ensures c.heap[r].parent.Some? ==> n > 0 && c.heap[r].parent.value in c.heap
    ensures c.heap[r].parent.Some? ==> Climb(c.heap, c.heap[r].parent.value, n - 1) == Some(c.root)
  {
    if c.heap[r].parent.Some? {
      ParentType(c, r);
    }
  }

  // ---------- moving the selected items ----------

  /** The object that a selected uid names, if pasting moves it into `t`. */
  ghost predicate Moves(c: Cache, t: Ref, u: Uid) {
    u in c.hash && c.hash[u] in c.heap && !c.heap[c.hash[u]].EMail?
    && (c.heap[c.hash[u]].Folder? ==> !Reaches(c.heap, c.hash[u], t))
  }

  ghost function MoveOne(c: Cache, t: Ref, u: Uid): Cache {
    if Moves(c, t, u) && Movable(c, c.hash[u]) then Move(c, c.hash[u], t) else c
  }

  ghost function MoveAll(c: Cache, t: Ref, us: seq<Uid>): Cache
    decreases |us|
  {
    if us == [] then c else MoveAll(MoveOne(c, t, us[0]), t, us[1..])
  }

  /** The objects that pasting `us` into `t` moves. */
  ghost function MovedSet(c: Cache, t: Ref, us: seq<Uid>): set<Ref> {
    set u | u in us && Moves(c, t, u) :: c.hash[u]
  }

  /** Those of one kind, in clipboard order; one that is selected twice counts where it is
      selected last. */
  ghost function MovedSeq(c: Cache, t: Ref, us: seq<Uid>, k: Kind): seq<Ref>
    decreases |us|
  {
    if us == [] then []
    else if us[0] !in us[1..] && Moves(c, t, us[0])
      && Is(c.heap[c.hash[us[0]]], k) then [c.hash[us[0]]] + MovedSeq(c, t, us[1..], k)
    else MovedSeq(c, t, us[1..], k)
  }

  lemma MovesMay(c: Cache, t: Ref, u: Uid)
    requires Inv(c) && IsFolder(c, t) && Moves(c, t, u)
    ensures MayMove(c, c.hash[u], t) && c.hash[u] != t && c.heap[c.hash[u]].uid == u
  {
    var r := c.hash[u];
    assert c.heap[r].parent.Some?;
    ReachesRefl(c.heap, r);
    if !c.heap[r].Folder? && Reaches(c.heap, r, t) {
      if c.heap[r].Group? {
        NothingBelow(c, r, t);
      } else {
        NotBelowPerson(c, r, t);
      }
    }
  }

  lemma NotBelowPerson(c: Cache, p: Ref, t: Ref)
    requires Inv(c) && IsPerson(c, p) && IsFolder(c, t)
    ensures !Reaches(c.heap, p, t)
  {
    assert PersonOk(c, p);
    SubOfPerson(c, p);
    assert t !in Sub(c, p);
  }

  /** Nothing about which items move, or may move, changes when one of them does. */
  lemma MoveKeeps(c: Cache, t: Ref, u: Uid, v: Uid)
    requires Inv(c) && IsFolder(c, t) && Moves(c, t, u)
    ensures var c' := Move(c, c.hash[u], t);
      && Inv(c') && IsFolder(c', t) && c'.hash == c.hash && c'.root == c.root && c'.heap.Keys == c.heap.Keys
      && (Moves(c', t, v) <==> Moves(c, t, v))
      && (v in c.hash && c.hash[v] in c.heap ==> forall k: Kind :: Is(c'.heap[c.hash[v]], k) <==>
        Is(c.heap[c.hash[v]], k))
  {
    MovesMay(c, t, u);
    var r := c.hash[u];
    MoveInv(c, r, t);
    MovedItem(c, r, t, t);
    if v in c.hash {
      var x := c.hash[v];
      MovedItem(c, r, t, x);
      MoveReaches(c, r, t, x, t);
    }
  }

  lemma {:induction false} MovedKeep(c: Cache, t: Ref, u: Uid, us: seq<Uid>, k: Kind)
    requires Inv(c) && IsFolder(c, t) && Moves(c, t, u)
    ensures MovedSeq(Move(c, c.hash[u], t), t, us, k) == MovedSeq(c, t, us, k)
    ensures MovedSet(Move(c, c.hash[u], t), t, us) == MovedSet(c, t, us)
    decreases |us|
  {
    forall v
      ensures Moves(Move(c, c.hash[u], t), t, v) <==> Moves(c, t, v)
    {
      MoveKeeps(c, t, u, v);
    }
    if us != [] {
      MoveKeeps(c, t, u, us[0]);
      MovedKeep(c, t, u, us[1..], k);
    }
  }

  /** The state that pasting leaves, described without its loop: which object ends where. */
  ghost predicate Pasted(c: Cache, c': Cache, t: Ref, us: seq<Uid>) {
    && Inv(c') && c'.hash == c.hash && c'.root == c.root && c'.heap.Keys == c.heap.Keys
    && (forall z {:trigger PastedItem(c, c', t, us, z)} | z in c.heap :: PastedItem(c, c', t, us, z))
  }

  /** A moved item has `t` as its parent, every other keeps its own; every list loses the
      moved items and `t`'s lists gain them at the end, in clipboard order; what persons and
      groups hold is untouched. */
  ghost predicate PastedItem(c: Cache, c': Cache, t: Ref, us: seq<Uid>, z: Ref)
    requires z in c.heap
  {
    && z in c'.heap
    && var i, j := c.heap[z], c'.heap[z]; var m := MovedSet(c, t, us);
    && j.parent == (if z in m then Some(t) else i.parent)
    && (i.EMail? ==> j == i) && (i.Person? ==> j == WithParent(i, j.parent))
      && (i.Group? ==> j == WithParent(i, j.parent))
    && (i.Folder? ==> j.Folder? && j.uid == i.uid && j.name == i.name && j.remarks == i.remarks)
    && (i.Folder? ==> forall k: Kind ::
          ListOf(j, k) == Without(ListOf(i, k), m) + if z == t then MovedSeq(c, t, us, k) else [])
  }

  lemma {:induction false} MoveAllPasted(c: Cache, t: Ref, us: seq<Uid>)
    requires Inv(c) && IsFolder(c, t)
    ensures Pasted(c, MoveAll(c, t, us), t, us)
    decreases |us|
  {
    hide Inv;
    var c' := MoveAll(c, t, us);
    if us == [] {
      forall z | z in c.heap
        ensures PastedItem(c, c', t, us, z)
      {
        NothingMoved(c, t, z);
      }
    } else {
      var u, rest := us[0], us[1..];
      if Moves(c, t, u) {
        MovesMay(c, t, u);
        MoveKeeps(c, t, u, u);
        var b := Move(c, c.hash[u], t);
        MoveAllPasted(b, t, rest);
        forall z | z in c.heap
          ensures PastedItem(c, c', t, us, z)
        {
          assert PastedItem(b, c', t, rest, z);
          PastedStep(c, c', t, us, z);
        }
      } else {
        MoveAllPasted(c, t, rest);
        forall z | z in c.heap
          ensures PastedItem(c, c', t, us, z)
        {
          assert PastedItem(c, c', t, rest, z);
          assert MovedSet(c, t, us) == MovedSet(c, t, rest);
        }
      }
    }
  }

  lemma NothingMoved(c: Cache, t: Ref, z: Ref)
    requires z in c.heap
    ensures PastedItem(c, c, t, [], z)
  {
    assert MovedSet(c, t, []) == {};
    if c.heap[z].Folder? {
      forall k: Kind
        ensures Without(ListOf(c.heap[z], k), {}) == ListOf(c.heap[z], k)
      {
        WithoutDisjoint(ListOf(c.heap[z], k), {});
      }
    }
  }

  lemma PastedStep(c: Cache, c': Cache, t: Ref, us: seq<Uid>, z: Ref)
    requires Inv(c) && IsFolder(c, t) && us != [] && Moves(c, t, us[0]) && z in c.heap
    requires MayMove(c, c.hash[us[0]], t) && c.hash[us[0]] != t
    requires z in Move(c, c.hash[us[0]], t).heap
    requires PastedItem(Move(c, c.hash[us[0]], t), c', t, us[1..], z)
    ensures PastedItem(c, c', t, us, z)
  {
    var u, rest := us[0], us[1..];
    var r := c.hash[u];
    var b := Move(c, r, t);
    MovedItem(c, r, t, z);
    var m := MovedSet(c, t, rest);
    assert MovedSet(c, t, us) == {r} + m;
    MovedKeep(c, t, u, rest, FolderKind);
    assert r in m <==> u in rest by {
      forall v | v in rest && Moves(c, t, v) && c.hash[v] == r
        ensures v == u
      {
        MovesMay(c, t, v);
        MovesMay(c, t, u);
      }
    }
    if c.heap[z].Folder? {
      forall k: Kind
        ensures ListOf(c'.heap[z], k) == Without(ListOf(c.heap[z], k), {r} + m) + if z == t then MovedSeq(c, t, us, k)
          else []
      {
        MovedKeep(c, t, u, rest, k);
        PastedList(c, c', t, us, z, k, m);
      }
    }
  }

  lemma PastedList(c: Cache, c': Cache, t: Ref, us: seq<Uid>, z: Ref, k: Kind, m: set<Ref>)
    requires Inv(c) && IsFolder(c, t) && us != [] && Moves(c, t, us[0]) && IsFolder(c, z) && IsFolder(c', z)
    requires MayMove(c, c.hash[us[0]], t) && c.hash[us[0]] != t && (c.hash[us[0]] in m <==> us[0] in us[1..])
    requires ListOf(c'.heap[z], k) ==
      Without(ListOf(Move(c, c.hash[us[0]], t).heap[z], k), m) + if z == t then MovedSeq(c, t, us[1..], k) else []
    ensures ListOf(c'.heap[z], k) ==
      Without(ListOf(c.heap[z], k), {c.hash[us[0]]} + m) + if z == t then MovedSeq(c, t, us, k) else []
  {
    hide Inv, MovedSeq, MovedSet, Move, MayMove, Reaches;
    var r := c.hash[us[0]];
    MovedList(c, t, r, z, k);
    MovedSeqStep(c, t, us, k);
    ListAlgebra(ListOf(c.heap[z], k), r, m, MovedSeq(c, t, us[1..], k));
  }

  lemma MovedSeqStep(c: Cache, t: Ref, us: seq<Uid>, k: Kind)
    requires us != [] && Moves(c, t, us[0])
    ensures var tail := MovedSeq(c, t, us[1..], k);
      MovedSeq(c, t, us, k) == if us[0] !in us[1..]
        && Is(c.heap[c.hash[us[0]]], k) then [c.hash[us[0]]] + tail else tail
  {
  }

  lemma WithoutOne(r: Ref, m: set<Ref>)
    requires r !in m
    ensures Without([r], m) == [r]
  {
    WithoutDisjoint([r], m);
  }

  lemma ListAlgebra(s: seq<Ref>, r: Ref, m: set<Ref>, tail: seq<Ref>)
    ensures r !in s ==> Without(s, {r} + m) == Without(s, m)
    ensures Without(Without(s, {r}) + [], m) == Without(s, {r} + m)
    ensures Without(Without(s, {r}) + [r], m) + tail == Without(s, {r} + m) + if r in m then tail else [r] + tail
  {
    WithoutTwice(s, {r}, m);
    assert Without(s, {r}) + [] == Without(s, {r});
    if r !in s {
      WithoutDisjoint(s, {r});
    }
    WithoutConcat(Without(s, {r}), [r], m);
    if r in m {
      assert Without([r], m) == [];
      assert Without(s, {r} + m) + [] == Without(s, {r} + m);
    } else {
      WithoutOne(r, m);
      Associative(Without(s, {r} + m), [r], tail);
    }
  }

  /** One list after one move. */
  lemma MovedList(c: Cache, t: Ref, r: Ref, z: Ref, k: Kind)
    requires Inv(c) && MayMove(c, r, t) && r != t && IsFolder(c, z)
    ensures IsFolder(Move(c, r, t), z)
    ensures !Is(c.heap[r], k) || z == r ==> r !in ListOf(c.heap[z], k)
    ensures ListOf(Move(c, r, t).heap[z], k) ==
      if !Is(c.heap[r], k) || z == r then ListOf(c.heap[z], k)
      else Without(ListOf(c.heap[z], k), {r}) + if z == t then [r] else []
  {
    MovedItem(c, r, t, z);
    if r in ListOf(c.heap[z], k) {
      ListedOnce(c, r, z, k);
      NotOwnParent(c, r);
    }
  }

  // ---------- the loop ----------

  /** The uids of the items whose cache the index still knows. */
  function KnownUids(items: seq<SelectItem>, known: set<string>): seq<Uid> {
    if items == [] then []
    else if items[0].cacheID in known then [items[0].uid] + KnownUids(items[1..], known)
    else KnownUids(items[1..], known)
  }

  /** The groups and folders that are moved: the user interface refreshes these. */
  ghost function MovedNodes(c: Cache, t: Ref, us: seq<Uid>): seq<Ref>
    decreases |us|
  {
    if us == [] then []
    else if Moves(c, t, us[0]) && !c.heap[c.hash[us[0]]].Person? then [c.hash[us[0]]] + MovedNodes(c, t, us[1..])
    else MovedNodes(c, t, us[1..])
  }

  lemma {:induction false} MovedNodesKeep(c: Cache, t: Ref, u: Uid, us: seq<Uid>)
    requires Inv(c) && IsFolder(c, t) && Moves(c, t, u)
    ensures MovedNodes(Move(c, c.hash[u], t), t, us) == MovedNodes(c, t, us)
    decreases |us|
  {
    if us != [] {
      MoveKeeps(c, t, u, us[0]);
      MovedNodesKeep(c, t, u, us[1..]);
      if us[0] in c.hash && c.hash[us[0]] in c.heap {
        assert Is(Move(c, c.hash[u], t).heap[c.hash[us[0]]], PersonKind) <==> Is(c.heap[c.hash[us[0]]], PersonKind);
      }
    }
  }

  /** What one turn of the loop has to know. */
  lemma NoTurns(c: Cache, t: Ref)
    ensures MoveAll(c, t, []) == c && MovedNodes(c, t, []) == []
  {
  }

  lemma TurnUnfolds(c: Cache, t: Ref, u: Uid, rest: seq<Uid>)
    ensures MoveAll(c, t, [u] + rest) == MoveAll(MoveOne(c, t, u), t, rest)
    ensures MovedNodes(c, t, [u] + rest) ==
      (if Moves(c, t, u) && !c.heap[c.hash[u]].Person? then [c.hash[u]] else []) + MovedNodes(c, t, rest)
  {
    assert ([u] + rest)[1..] == rest;
  }

  lemma TurnFacts(c: Cache, t: Ref, u: Uid, rest: seq<Uid>)
    requires Inv(c) && IsFolder(c, t)
    ensures u in c.hash ==> c.hash[u] in c.heap && c.hash[u] != c.root
    ensures u in c.hash && !c.heap[c.hash[u]].EMail? ==> Movable(c, c.hash[u])
    ensures Moves(c, t, u) ==> MoveOne(c, t, u) == Move(c, c.hash[u], t) && c.hash[u] != t && Inv(MoveOne(c, t, u))
    ensures !Moves(c, t, u) ==> MoveOne(c, t, u) == c
    ensures IsFolder(MoveOne(c, t, u), t) && MoveOne(c, t, u).hash == c.hash
    ensures MovedNodes(MoveOne(c, t, u), t, rest) == MovedNodes(c, t, rest)
  {
    if Moves(c, t, u) {
      MovesMay(c, t, u);
      MoveKeeps(c, t, u, u);
      MovedNodesKeep(c, t, u, rest);
    }
  }

  /** `addrclip_cache_move_items`, for a clipboard whose items come from this cache or from
      caches that are gone: the source assumes that all of them are in one cache
      (src/addrclip.c:606-607). */
  method MoveItems(cache: AddressCache, target: Ref, items: seq<SelectItem>, index: map<string, AddressCache>)
    returns (folderGroup: seq<Ref>)
    requires Inv(cache.View()) && IsFolder(cache.View(), target)
    requires forall i | i in items && i.cacheID in index :: index[i.cacheID] == cache
    modifies cache`heap, cache`dirtyFlag
    ensures Inv(cache.View())
    ensures cache.View() == MoveAll(old(cache.View()), target, KnownUids(items, index.Keys))
    ensures folderGroup == MovedNodes(old(cache.View()), target, KnownUids(items, index.Keys))
  {
    hide Inv, MoveAll, MovedNodes, Move;
    folderGroup := [];
    var node := items;
    ghost var us := KnownUids(items, index.Keys);
    while node != []
      invariant Inv(cache.View()) && IsFolder(cache.View(), target)
      invariant forall i | i in node :: i in items
      invariant MoveAll(cache.View(), target, KnownUids(node, index.Keys)) == MoveAll(old(cache.View()), target, us)
      invariant folderGroup + MovedNodes(cache.View(), target, KnownUids(node, index.Keys))
        == MovedNodes(old(cache.View()), target, us)
      decreases |node|
    {
      var item := node[0];
      ghost var rest := KnownUids(node[1..], index.Keys);
      ghost var c := cache.View();
      node := node[1..];
      if item.cacheID in index {
        var cacheFrom := index[item.cacheID];
        TurnFacts(c, target, item.uid, rest);
        TurnUnfolds(c, target, item.uid, rest);
        assert KnownUids([item] + node, index.Keys) == [item.uid] + rest;
        var aio := cacheFrom.GetObject(item.uid);
        if aio.Some? {
          if cache.heap[aio.value].Person? {
            cache.FolderMove(aio.value, target);
          } else if cache.heap[aio.value].Group? {
            cache.FolderMove(aio.value, target);
            folderGroup := folderGroup + [aio.value];
          } else if cache.heap[aio.value].Folder? {
            var inside := IsSubfolderOf(cache, aio.value, target);
            if !inside {
              cache.FolderMove(aio.value, target);
              folderGroup := folderGroup + [aio.value];
            }
          }
        }
      }
    }
    NoTurns(cache.View(), target);
  }
}
