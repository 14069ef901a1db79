/** Cutting from one address book and pasting into another: first copies, then deletion
    (src/addrclip.c:658-760).  Nobody is lost and nobody is doubled. */
module ClipCut {
  import opened Items
  import opened CacheState
  import opened AddrCache
  import opened ClipMove
  import opened ClipTree
  import opened ClipGrow
  import opened ClipFolder
  import opened ClipDelete
  import opened ClipPaste

  // ---------- how many persons the selection holds ----------

  function PickRef(p: Pick): Option<Ref> {
    match p
    case PickNothing => None
    case PickPerson(r) => Some(r)
    case PickGroup(r) => Some(r)
    case PickFolder(r, _) => Some(r)
  }

  ghost function PickedSet(picks: seq<Pick>): set<Ref> {
    set p | p in picks && PickRef(p).Some? :: PickRef(p).value
  }

  /** No selected item is, or lies inside, another selected item. */
  ghost predicate Apart(c: Cache, picks: seq<Pick>) {
    forall i, j {:trigger picks[i], picks[j]} | 0 <= i < j < |picks| && PickRef(picks[i]).Some?
      && PickRef(picks[j]).Some? ::
      !Reaches(c.heap, PickRef(picks[i]).value, PickRef(picks[j]).value)
      && !Reaches(c.heap, PickRef(picks[j]).value, PickRef(picks[i]).value)
  }

  ghost function PickCount(c: Cache, p: Pick): nat
    requires Inv(c) && GoodPick(c, p)
  {
    match p
    case PickPerson(_) => 1
    case PickFolder(r, _) => CountPersons(TreeOf(c, r))
    case PickNothing => 0
    case PickGroup(_) => 0
  }

  lemma PickCounts(c: Cache, p: Pick)
    requires Inv(c) && GoodPick(c, p) && PickRef(p).Some?
    ensures |PersonsIn(c, Sub(c, PickRef(p).value))| == PickCount(c, p)
  {
    match p
    case PickPerson(r) =>
      SubOfPerson(c, r);
      assert PersonOk(c, r);
      assert PersonsIn(c, Sub(c, r)) == {r};
    case PickGroup(r) =>
      SubOfGroup(c, r);
      assert PersonsIn(c, Sub(c, r)) == {};
    case PickFolder(r, _) =>
      CountBelow(c, r, TreeOf(c, r), Sub(c, r));
  }

  lemma {:induction false} SelectionCount(c: Cache, picks: seq<Pick>)
    requires Inv(c) && GoodPicks(c, picks) && Apart(c, picks)
    ensures |PersonsIn(c, SubAll(c, PickedSet(picks)))| == |PersonVals(c, picks)| + CountAll(LocalAll(Trees(c, picks)))
  {
    if picks == [] {
      assert SubAll(c, PickedSet(picks)) == {};
      assert PersonsIn(c, {}) == {};
    } else {
      var p, rest := picks[0], picks[1..];
      assert GoodPick(c, p);
      assert Apart(c, rest) by {
        forall i, j | 0 <= i < j < |rest| && PickRef(rest[i]).Some? && PickRef(rest[j]).Some?
          ensures !Reaches(c.heap, PickRef(rest[i]).value, PickRef(rest[j]).value)
          ensures !Reaches(c.heap, PickRef(rest[j]).value, PickRef(rest[i]).value)
        {
          assert rest[i] == picks[i + 1] && rest[j] == picks[j + 1];
        }
      }
      SelectionCount(c, rest);
      hide Inv, Apart;
      SelectionSplit(c, picks);
      FrontCount(c, picks);
    }
  }

  /** The front pick's persons are nobody else's. */
  lemma SelectionSplit(c: Cache, picks: seq<Pick>)
    requires Inv(c) && GoodPicks(c, picks) && Apart(c, picks) && picks != [] && GoodPick(c, picks[0])
    ensures |PersonsIn(c, SubAll(c, PickedSet(picks)))| ==
      PickCount(c, picks[0]) + |PersonsIn(c, SubAll(c, PickedSet(picks[1..])))|
  {
    var p, rest := picks[0], picks[1..];
    var all, old_ := SubAll(c, PickedSet(picks)), SubAll(c, PickedSet(rest));
    if PickRef(p) == None {
      assert PickedSet(picks) == PickedSet(rest);
    } else {
      var x := PickRef(p).value;
      assert PickedSet(picks) == {x} + PickedSet(rest);
      hide Inv;
      assert all == Sub(c, x) + old_;
      forall r | r in Sub(c, x)
        ensures r !in old_
      {
        forall y | y in PickedSet(rest)
          ensures r !in Sub(c, y)
        {
          var q :| q in rest && PickRef(q) == Some(y);
          var j :| 0 <= j < |rest| && rest[j] == q;
          assert picks[j + 1] == q;
          assert !Reaches(c.heap, x, y) && !Reaches(c.heap, y, x);
          if r in Sub(c, y) {
            AboveOrBelow(c.heap, x, y, r);
          }
        }
      }
      PickCounts(c, p);
      assert PersonsIn(c, all) == PersonsIn(c, Sub(c, x)) + PersonsIn(c, old_);
      assert PersonsIn(c, Sub(c, x)) !! PersonsIn(c, old_);
    }
  }

  lemma FrontCount(c: Cache, picks: seq<Pick>)
    requires Inv(c) && GoodPicks(c, picks) && picks != [] && GoodPick(c, picks[0]) && GoodPicks(c, picks[1..])
    ensures |PersonVals(c, picks)| + CountAll(LocalAll(Trees(c, picks))) ==
      PickCount(c, picks[0]) + |PersonVals(c, picks[1..])| + CountAll(LocalAll(Trees(c, picks[1..])))
  {
    hide Inv, PersonVals, Trees, LocalAll, GoodPicks, PersonValOf, Local, CountAll, GoodPick, CountPersons;
    FrontPick(c, picks, 0);
    assert picks[0..] == picks;
    var rest := LocalAll(Trees(c, picks[1..]));
    if picks[0].PickFolder? {
      var t := TreeOf(c, picks[0].folder);
      NamedCount(t, picks[0].name);
      CountFront(Local(t).(name := picks[0].name), rest);
    } else {
      assert [] + rest == rest;
    }
    assert [] + PersonVals(c, picks[1..]) == PersonVals(c, picks[1..]);
  }

  lemma CountFront(x: Tree, rest: seq<Tree>)
    ensures CountAll([x] + rest) == CountPersons(x) + CountAll(rest)
  {
    assert ([x] + rest)[1..] == rest;
  }

  /** The condition matters: a person selected together with a folder above it is copied twice
      and deleted once. */
  lemma {:induction false} NestedSelectionDoubles(c: Cache, p: Ref, f: Ref, name: string)
    requires Inv(c) && IsPerson(c, p) && IsFolder(c, f) && Reaches(c.heap, f, p)
    ensures var picks := [PickPerson(p), PickFolder(f, name)];
      && GoodPicks(c, picks) && !Apart(c, picks)
      && |PersonVals(c, picks)| + CountAll(LocalAll(Trees(c, picks))) == |PersonsIn(c, SubAll(c, PickedSet(picks)))| + 1
  {
    var a, b := PickPerson(p), PickFolder(f, name);
    var picks := [a, b];
    assert picks[0] == a && picks[1] == b;
    assert PickRef(picks[0]) == Some(p) && PickRef(picks[1]) == Some(f);
    assert picks[1..] == [b] && [b][1..] == [];
    assert GoodPick(c, a) && GoodPick(c, b);
    FrontCount(c, picks);
    FrontCount(c, [b]);
    hide Inv;
    PickedSetCons(a, [b]);
    PickedSetCons(b, []);
    assert [a] + [b] == picks && [b] + [] == [b];
    forall r | r in Sub(c, p)
      ensures r in Sub(c, f)
    {
      ReachesTrans(c.heap, f, p, r);
    }
    assert SubAll(c, PickedSet(picks)) == Sub(c, f);
    PickCounts(c, b);
  }

  /** Deleting takes away as many persons as lay in the selection. */
  lemma DeletingCount(c0: Cache, c: Cache, xs: set<Ref>)
    requires Deleting(c0, c, xs)
    ensures NumPersons(c) + |PersonsIn(c0, SubAll(c0, xs))| == NumPersons(c0)
  {
    var d := SubAll(c0, xs);
    if xs == {} {
      assert d == {};
      assert PersonsIn(c0, d) == {};
    } else {
      hide Inv;
      forall p
        ensures p in PersonSet(c) <==> p in PersonSet(c0) && p !in d
      {
        PrunedDown(c0, d, p);
      }
      assert PersonSet(c0) == PersonSet(c) + PersonsIn(c0, d);
      assert PersonSet(c) !! PersonsIn(c0, d);
    }
  }

  // ---------- the deletion deletes what was copied ----------

  /** No whole address book is selected. */
  predicate NoBooks(items: seq<SelectItem>) {
    forall i | i in items :: i.uid != "" || !i.isDataSource
  }

  lemma {:induction false} SelectedIsPicked(c: Cache, items: seq<SelectItem>, known: set<string>, target: Ref,
      name: string)
    requires Inv(c) && NoBooks(items)
    ensures Selected(c, KnownUids(items, known)) == PickedSet(Picks(c, items, known, target, false, name))
  {
    if items == [] {
      assert Selected(c, []) == {};
    } else {
      var item, rest := items[0], items[1..];
      SelectedIsPicked(c, rest, known, target, name);
      NoEmptyUid(c);
      var p := PickOf(c, item, known, target, false, name);
      var picks := Picks(c, rest, known, target, false, name);
      hide Inv;
      assert item in items;
      PickedSetCons(p, picks);
      if item.cacheID in known {
        SelectedCons(c, item.uid, KnownUids(rest, known));
      }
    }
  }

  lemma PickedSetCons(p: Pick, picks: seq<Pick>)
    ensures PickedSet([p] + picks) == PickedSet(picks) + if PickRef(p).Some? then {PickRef(p).value} else {}
  {
    forall r
      ensures r in PickedSet([p] + picks) <==> r in PickedSet(picks) || PickRef(p) == Some(r)
    {
      if PickRef(p) == Some(r) {
        assert p in [p] + picks;
      }
      if r in PickedSet(picks) {
        var q :| q in picks && PickRef(q) == Some(r);
        assert q in [p] + picks;
      }
    }
  }

  lemma SelectedCons(c: Cache, u: Uid, us: seq<Uid>)
    ensures Selected(c, [u] + us) == Selected(c, us) +
      if u in c.hash && c.hash[u] in c.heap && !c.heap[c.hash[u]].EMail? then {c.hash[u]} else {}
  {
    var known := u in c.hash && c.hash[u] in c.heap && !c.heap[c.hash[u]].EMail?;
    forall r
      ensures r in Selected(c, [u] + us) <==> r in Selected(c, us) || (known && r == c.hash[u])
    {
      if known && r == c.hash[u] {
        assert u in [u] + us;
      }
      assert forall v | v in us :: v in [u] + us;
    }
  }

  // ---------- cut and paste ----------

  /** `addrclip_paste_cut` into another book, and then `addrclip_delete_item`, which the caller
      invokes for a cut.  The selected subtrees, and only they, leave the source; the target
      gains items that show the same; and if no selected item is inside another, the two books
      together have as many persons as before. */
  method CutAcross(cache: AddressCache, target: Ref, items: seq<SelectItem>, src: AddressCache, index: map<string,
      AddressCache>)
    returns (folderGroup: seq<Ref>, ghost n: News)
    requires Inv(cache.View()) && IsFolder(cache.View(), target) && Inv(src.View()) && src != cache
    requires forall i | i in items && i.cacheID in index :: index[i.cacheID] == src
    requires forall i | i in items :: FreshUid(src.View(), i.uid)
    modifies cache`heap, cache`itemHash, cache`nextID, cache`top, cache`dirtyFlag
    modifies src`heap, src`itemHash, src`dirtyFlag
    ensures Inv(cache.View()) && Inv(src.View()) && folderGroup == n.folders + n.groups
    ensures var cs := old(src.View()); var picks := Picks(cs, items, index.Keys, target, false, src.name);
      && GoodPicks(cs, picks) && PastedCopies(cs, old(cache.View()), cache.View(), target, picks, n)
      && Deleting(cs, src.View(), Selected(cs, KnownUids(items, index.Keys)))
      && (NoBooks(items) && Apart(cs, picks) ==>
            NumPersons(cache.View()) + NumPersons(src.View()) == NumPersons(old(cache.View())) + NumPersons(cs))
  {
    hide Inv, PastedCopies, Deleting, NumPersons, Apart, GoodPicks, FreshUid;
    ghost var cs, c0 := src.View(), cache.View();
    ghost var picks := Picks(cs, items, index.Keys, target, false, src.name);
    folderGroup, n := PasteItems(cache, target, items, src, index);
    DeleteItems(src, false, items, index);
    DeletingCount(cs, src.View(), Selected(cs, KnownUids(items, index.Keys)));
    CopiesCount(cs, c0, cache.View(), target, picks, n);
    if NoBooks(items) && Apart(cs, picks) {
      SelectedIsPicked(cs, items, index.Keys, target, src.name);
      SelectionCount(cs, picks);
    }
  }

  lemma CopiesCount(cs: Cache, c0: Cache, c: Cache, target: Ref, picks: seq<Pick>, n: News)
    requires IsFolder(c0, target) && Inv(cs) && GoodPicks(cs, picks) && PastedCopies(cs, c0, c, target, picks, n)
    ensures NumPersons(c) == NumPersons(c0) + |PersonVals(cs, picks)| + CountAll(LocalAll(Trees(cs, picks)))
  {
  }

  /** `addrclip_paste_cut`.  Inside one book the items are moved, and the move flag tells
      `addrclip_delete_item` that nothing is to be deleted. */
  method PasteCut(cache: AddressCache, folder: Option<Ref>, items: seq<SelectItem>, src: AddressCache,
      index: map<string, AddressCache>)
    returns (folderGroup: seq<Ref>, moveFlag: bool, ghost n: News)
    requires Inv(cache.View()) && Inv(src.View()) && (folder.Some? ==> IsFolder(cache.View(), folder.value))
    requires forall i | i in items && i.cacheID in index :: index[i.cacheID] == src
    requires forall i | i in items :: FreshUid(src.View(), i.uid)
    modifies cache`heap, cache`itemHash, cache`nextID, cache`top, cache`dirtyFlag
    ensures Inv(cache.View()) && (moveFlag <==> src == cache && items != [] && items[0].cacheID in index)
    ensures var t := if folder.Some? then folder.value else cache.rootFolder;
      && IsFolder(old(cache.View()), t)
      && (moveFlag ==> cache.View() == MoveAll(old(cache.View()), t, KnownUids(items, index.Keys))
                       && folderGroup == MovedNodes(old(cache.View()), t, KnownUids(items, index.Keys)))
      && (!moveFlag ==> folderGroup == n.folders + n.groups)
      && var cs := old(src.View());
      && var picks := Picks(cs, items, index.Keys, t, src == cache, src.name);
      && (!moveFlag ==> GoodPicks(cs, picks) && PastedCopies(cs, old(cache.View()), cache.View(), t, picks, n))
  {
    RootIsFolder(cache.View());
    hide Inv, PastedCopies, FreshUid, GoodPicks;
    var t := if folder.Some? then folder.value else cache.rootFolder;
    moveFlag := false;
    if items != [] && items[0].cacheID in index {
      moveFlag := index[items[0].cacheID] == cache;
    }
    n := News([], [], []);
    if moveFlag {
      folderGroup := MoveItems(cache, t, items, index);
    } else {
      folderGroup, n := PasteItems(cache, t, items, src, index);
    }
  }
}
