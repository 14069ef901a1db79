/** The loops of `addrbook_resolve_folder_items` (src/addrbook.c:791-907), one uid at a time. */
module BookLink {
  import opened Items
  import opened CacheState
  import opened BookParse
  import opened BookResolve

  // ---------- how far the first loop has come ----------

  /** The folder that has named `z` last when the first `i` folders and `j` uids of the next one
      have been gone through. */
  function NamerSoFar(s: Loading, i: nat, j: nat, z: Ref): Option<Ref>
    requires i <= |s.temp| && (i < |s.temp| ==> j <= |ItemsOf(s, s.temp[i])|)
  {
    if i < |s.temp| && NamedIn(s.c, ItemsOf(s, s.temp[i])[..j], z) then Some(s.temp[i])
      else LastNamer(s, s.temp[..i], z)
  }

  /** The uids of `f` that have been gone through. */
  function UidsSoFar(s: Loading, i: nat, j: nat, f: Ref): seq<Uid>
    requires i <= |s.temp| && (i < |s.temp| ==> j <= |ItemsOf(s, s.temp[i])|)
  {
    if f in s.temp[..i] then ItemsOf(s, f)
    else if i < |s.temp| && f == s.temp[i] then ItemsOf(s, f)[..j]
    else []
  }

  /** The objects that a folder can hold and the resolver has to place. */
  predicate Placeable(s: Loading, z: Ref) {
    z in s.c.heap && !s.c.heap[z].EMail? && s.c.heap[z].uid in s.c.hash && s.c.hash[s.c.heap[z].uid] == z
  }

  function PartItem(s: Loading, i: nat, j: nat, z: Ref): Item
    requires z in s.c.heap && i <= |s.temp| && (i < |s.temp| ==> j <= |ItemsOf(s, s.temp[i])|)
  {
    var it := s.c.heap[z];
    if z == s.c.root then (if it.Folder? then it.(folders := it.folders + s.temp[..i]) else it)
    else if !Placeable(s, z) then it
    else
      var p := NamerSoFar(s, i, j, z);
      var us := UidsSoFar(s, i, j, z);
      if it.Folder? then
        Folder(it.uid, it.name, p, it.remarks, it.folders + Kids(s.c, us, FolderKind),
          it.persons + Kids(s.c, us, PersonKind),
               it.groups + Kids(s.c, us, GroupKind))
      else WithParent(it, p)
  }

  function PartHeap(s: Loading, i: nat, j: nat): map<Ref, Item>
    requires i <= |s.temp| && (i < |s.temp| ==> j <= |ItemsOf(s, s.temp[i])|)
  {
    map z | z in s.c.heap :: PartItem(s, i, j, z)
  }

  lemma {:induction false} KidsAppend(c: Cache, us: seq<Uid>, u: Uid, k: Kind)
    ensures Kids(c, us + [u], k) == Kids(c, us, k) + Kids(c, [u], k)
  {
    if us == [] {
      assert [] + [u] == [u];
    } else {
      assert (us + [u])[1..] == us[1..] + [u];
      KidsAppend(c, us[1..], u, k);
    }
  }

  lemma NamedAppend(c: Cache, us: seq<Uid>, u: Uid, z: Ref)
    ensures NamedIn(c, us + [u], z) <==> NamedIn(c, us, z) || NamedIn(c, [u], z)
    ensures NamedIn(c, [u], z) <==> z in c.heap && !c.heap[z].EMail? && Lookup(c, u) == Some(z)
  {
    var s := us + [u];
    assert s[|us|] == u && [u][0] == u;
    assert forall i | 0 <= i < |us| :: s[i] == us[i];
    if NamedIn(c, us, z) {
      var i :| 0 <= i < |us| && Lookup(c, us[i]) == Some(z);
      assert s[i] == us[i];
    }
  }

  lemma OneKid(c: Cache, u: Uid, k: Kind)
    ensures Kids(c, [u], k) == if Lookup(c, u).Some?
      && Is(c.heap[Lookup(c, u).value], k) then [Lookup(c, u).value] else []
  {
    assert [u][1..] == [];
  }

  /** One uid of one folder, as the source treats it: the object goes to the end of the folder's
      list of its kind and gets the folder as its parent. */
  function Place(h: map<Ref, Item>, f: Ref, aio: Ref): map<Ref, Item>
    requires f in h && h[f].Folder? && aio in h && !h[aio].EMail?
  {
    var k := KindOf(h[aio]);
    var g := h[f := WithList(h[f], k, ListOf(h[f], k) + [aio])];
    g[aio := WithParent(g[aio], Some(f))]
  }

  ghost predicate At(s: Loading, i: nat, j: nat) {
    LoadOk(s) && i < |s.temp| && j <= |ItemsOf(s, s.temp[i])|
  }

  lemma TempFacts(s: Loading, i: nat)
    requires LoadOk(s) && i < |s.temp|
    ensures var f := s.temp[i];
      f in s.c.heap && s.c.heap[f].Folder? && Placeable(s, f) && f !in s.temp[..i] && f != s.c.root
        && s.temp[..i + 1] == s.temp[..i] + [f]
  {
    assert s.temp[i] in s.temp;
  }

  lemma NamedPlaceable(s: Loading, us: seq<Uid>, z: Ref)
    requires LoadOk(s) && NamedIn(s.c, us, z)
    ensures Placeable(s, z) && z != s.c.root
  {
    var i :| 0 <= i < |us| && Lookup(s.c, us[i]) == Some(z);
  }

  /** A uid that leads to no object of a list changes nothing. */
  lemma SkipUid(s: Loading, i: nat, j: nat)
    requires At(s, i, j) && j < |ItemsOf(s, s.temp[i])|
    requires var o := Lookup(s.c, ItemsOf(s, s.temp[i])[j]); o.None? || s.c.heap[o.value].EMail?
    ensures PartHeap(s, i, j + 1) == PartHeap(s, i, j)
  {
    var f := s.temp[i];
    var us := ItemsOf(s, f);
    TakeMore(us, j);
    TempFacts(s, i);
    forall z | z in s.c.heap
      ensures PartItem(s, i, j + 1, z) == PartItem(s, i, j, z)
    {
      NamedAppend(s.c, us[..j], us[j], z);
      if z == f {
        forall k: Kind
          ensures Kids(s.c, us[..j + 1], k) == Kids(s.c, us[..j], k)
        {
          KidsAppend(s.c, us[..j], us[j], k);
          OneKid(s.c, us[j], k);
        }
      }
    }
  }

  /** A uid that leads to an object of a list. */
  ghost predicate Leads(s: Loading, i: nat, j: nat, r: Ref) {
    && At(s, i, j) && j < |ItemsOf(s, s.temp[i])|
    && Lookup(s.c, ItemsOf(s, s.temp[i])[j]) == Some(r) && !s.c.heap[r].EMail?
  }

  lemma LeadsTo(s: Loading, i: nat, j: nat, r: Ref, z: Ref)
    requires Leads(s, i, j, r)
    ensures r in s.c.heap && Placeable(s, r) && r != s.c.root
    ensures var us := ItemsOf(s, s.temp[i]);
      && (NamedIn(s.c, us[..j + 1], z) <==> NamedIn(s.c, us[..j], z) || z == r)
      && forall k: Kind :: Kids(s.c, us[..j + 1], k) == Kids(s.c, us[..j], k) + if k == KindOf(s.c.heap[r]) then [r]
        else []
  {
    var us := ItemsOf(s, s.temp[i]);
    TakeMore(us, j);
    NamedAppend(s.c, us[..j], us[j], z);
    NamedAppend(s.c, us[..j], us[j], r);
    NamedPlaceable(s, [us[j]], r);
    forall m: Kind
      ensures Kids(s.c, us[..j + 1], m) == Kids(s.c, us[..j], m) + if m == KindOf(s.c.heap[r]) then [r] else []
    {
      KidsAppend(s.c, us[..j], us[j], m);
      OneKid(s.c, us[j], m);
    }
  }

  lemma PlaceParent(s: Loading, i: nat, j: nat, r: Ref, z: Ref)
    requires Leads(s, i, j, r)
    ensures NamerSoFar(s, i, j + 1, z) == if z == r then Some(s.temp[i]) else NamerSoFar(s, i, j, z)
  {
    LeadsTo(s, i, j, r, z);
  }

  lemma PlaceFolder(s: Loading, i: nat, j: nat, r: Ref)
    requires Leads(s, i, j, r)
    ensures var f := s.temp[i];
      && f in s.c.heap && PartItem(s, i, j, f).Folder? && r in s.c.heap
      && var a := PartItem(s, i, j, f); var k := KindOf(s.c.heap[r]);
      var b := WithList(a, k, ListOf(a, k) + [r]);
      PartItem(s, i, j + 1, f) == if r == f then WithParent(b, Some(f)) else b
  {
    var f := s.temp[i];
    var us := ItemsOf(s, f);
    TempFacts(s, i);
    LeadsTo(s, i, j, r, f);
    PlaceParent(s, i, j, r, f);
    assert UidsSoFar(s, i, j, f) == us[..j] && UidsSoFar(s, i, j + 1, f) == us[..j + 1];
    hide Leads, LoadOk, NamerSoFar, NamedIn, Kids;
    var it := s.c.heap[f];
    var x, y, z := Kids(s.c, us[..j], FolderKind), Kids(s.c, us[..j], PersonKind), Kids(s.c, us[..j], GroupKind);
    assert x + [] == x && y + [] == y && z + [] == z;
    match KindOf(s.c.heap[r])
    case FolderKind => assert it.folders + Kids(s.c, us[..j], FolderKind) + [r] ==
      it.folders + Kids(s.c, us[..j + 1], FolderKind);
    case PersonKind => assert it.persons + Kids(s.c, us[..j], PersonKind) + [r] ==
      it.persons + Kids(s.c, us[..j + 1], PersonKind);
    case GroupKind => assert it.groups + Kids(s.c, us[..j], GroupKind) + [r] ==
      it.groups + Kids(s.c, us[..j + 1], GroupKind);
  }

  lemma PlaceOther(s: Loading, i: nat, j: nat, r: Ref, z: Ref)
    requires Leads(s, i, j, r) && z in s.c.heap && z != s.temp[i]
    ensures PartItem(s, i, j + 1, z) == if z == r then WithParent(PartItem(s, i, j, z), Some(s.temp[i]))
      else PartItem(s, i, j, z)
  {
    LeadsTo(s, i, j, r, z);
    PlaceParent(s, i, j, r, z);
    hide LoadOk, NamerSoFar, NamedIn, Kids;
    assert UidsSoFar(s, i, j + 1, z) == UidsSoFar(s, i, j, z);
  }

  lemma PlaceThere(s: Loading, i: nat, j: nat, r: Ref)
    requires Leads(s, i, j, r)
    ensures var h := PartHeap(s, i, j); var f := s.temp[i];
      && f in s.c.heap && f in h && h[f].Folder? && r in h && !h[r].EMail? && KindOf(h[r]) == KindOf(s.c.heap[r])
      && (f in PartHeap(s, i, j + 1) && PartHeap(s, i, j + 1)[f] == Place(h, f, r)[f])
  {
    PlaceFolder(s, i, j, r);
    LeadsTo(s, i, j, r, r);
  }

  lemma PlacedAt(h: map<Ref, Item>, f: Ref, r: Ref, z: Ref)
    requires f in h && h[f].Folder? && r in h && !h[r].EMail?
    ensures Place(h, f, r).Keys == h.Keys
    ensures z in h && z != f ==> Place(h, f, r)[z] == if z == r then WithParent(h[r], Some(f)) else h[z]
  {
  }

  lemma PlaceUid(s: Loading, i: nat, j: nat, r: Ref)
    requires Leads(s, i, j, r)
    ensures var h := PartHeap(s, i, j); var f := s.temp[i];
      && f in h && h[f].Folder? && r in h && !h[r].EMail? && KindOf(h[r]) == KindOf(s.c.heap[r])
      && PartHeap(s, i, j + 1) == Place(h, f, r)
  {
    PlaceThere(s, i, j, r);
    hide Leads, PartItem, Place;
    var h := PartHeap(s, i, j);
    var f := s.temp[i];
    PlacedAt(h, f, r, f);
    forall z | z in s.c.heap
      ensures PartHeap(s, i, j + 1)[z] == Place(h, f, r)[z]
    {
      if z != f {
        PlaceOther(s, i, j, r, z);
        PlacedAt(h, f, r, z);
      }
    }
    SameMaps(PartHeap(s, i, j + 1), Place(h, f, r));
  }

  /** When a folder's uids have been gone through, the folder goes to the end of the root's list. */
  lemma NextFolder(s: Loading, i: nat)
    requires LoadOk(s) && i < |s.temp|
    ensures var h := PartHeap(s, i, |ItemsOf(s, s.temp[i])|);
      && s.c.root in h && h[s.c.root].Folder?
      && PartHeap(s, i + 1, 0) == h[s.c.root := h[s.c.root].(folders := h[s.c.root].folders + [s.temp[i]])]
  {
    var f := s.temp[i];
    var us := ItemsOf(s, f);
    TempFacts(s, i);
    var h := PartHeap(s, i, |us|);
    var root := s.c.root;
    assert us[..|us|] == us;
    assert s.c.heap[root].folders + s.temp[..i] + [f] == s.c.heap[root].folders + s.temp[..i + 1];
    forall z | z in s.c.heap && z != root
      ensures PartItem(s, i + 1, 0, z) == PartItem(s, i, |us|, z)
    {
      NextNamer(s, i, z);
      assert i + 1 < |s.temp| && z == s.temp[i + 1] ==> ItemsOf(s, z)[..0] == [];
      assert i + 1 < |s.temp| && z == s.temp[i + 1] ==> z !in s.temp[..i + 1];
      assert UidsSoFar(s, i + 1, 0, z) == UidsSoFar(s, i, |us|, z);
    }
    assert PartHeap(s, i + 1, 0) == h[root := h[root].(folders := h[root].folders + [f])];
  }

  lemma NextNamer(s: Loading, i: nat, z: Ref)
    requires LoadOk(s) && i < |s.temp|
    ensures NamerSoFar(s, i + 1, 0, z) == NamerSoFar(s, i, |ItemsOf(s, s.temp[i])|, z)
  {
    var us := ItemsOf(s, s.temp[i]);
    assert us[..|us|] == us;
    assert s.temp[..i + 1][..i] == s.temp[..i];
  }

  lemma NothingPlaced(s: Loading)
    requires LoadOk(s)
    ensures PartHeap(s, 0, 0) == s.c.heap
  {
    var h := PartHeap(s, 0, 0);
    forall z | z in s.c.heap
      ensures h[z] == s.c.heap[z]
    {
      assert s.temp[..0] == [];
      assert UidsSoFar(s, 0, 0, z) == [];
      assert NamerSoFar(s, 0, 0, z) == None;
      var it := s.c.heap[z];
      assert it.Folder? ==> it.folders + [] == it.folders && it.persons + [] == it.persons
                            && it.groups + [] == it.groups;
    }
  }

  // ---------- the second and the third loop ----------

  function Linked(s: Loading): map<Ref, Item> {
    PartHeap(s, |s.temp|, 0)
  }

  /** Folders that nobody names are put under the root; the first `m` have been seen to. */
  function Grounded(s: Loading, m: nat): map<Ref, Item>
    requires m <= |s.temp|
  {
    map z | z in s.c.heap :: if z in s.temp[..m]
      && Namer(s, z).None? then WithParent(PartItem(s, |s.temp|, 0, z), Some(s.c.root)) else PartItem(s, |s.temp|, 0, z)
  }

  lemma GroundOneMore(s: Loading, m: nat)
    requires LoadOk(s) && m < |s.temp|
    ensures var f := s.temp[m]; var h := Grounded(s, m);
      && f in h && h[f].parent == Namer(s, f)
      && Grounded(s, m + 1) == if Namer(s, f).None? then h[f := WithParent(h[f], Some(s.c.root))] else h
  {
    var f := s.temp[m];
    TempFacts(s, m);
    var h := Grounded(s, m);
    assert s.temp[..|s.temp|] == s.temp;
    hide PartItem, LoadOk, Namer;
    SameMaps(Grounded(s, m + 1), if Namer(s, f).None? then h[f := WithParent(h[f], Some(s.c.root))] else h);
  }

  /** The list that the third loop takes folders off. */
  lemma {:induction false} UnnamedIsWithout(s: Loading, rs: seq<Ref>, d: set<Ref>)
    requires forall r | r in rs :: r in d <==> Namer(s, r).Some?
    ensures Unnamed(s, rs) == Without(rs, d)
  {
    if rs != [] {
      assert rs[0] in rs;
      UnnamedIsWithout(s, rs[1..], d);
    }
  }

  /** The state when the folders are done: only persons and groups are still to be placed. */
  function FoldersDone(s: Loading): map<Ref, Item>
    requires s.c.root in s.c.heap && s.c.heap[s.c.root].Folder?
  {
    Grounded(s, |s.temp|)[s.c.root := s.c.heap[s.c.root].(folders := Unnamed(s, s.temp))]
  }

  // ---------- the visitor ----------

  function VisitedSoFar(s: Loading, seen: seq<Uid>, z: Ref): Item
    requires z in s.c.heap && s.c.root in s.c.heap && s.c.heap[s.c.root].Folder?
  {
    var h := FoldersDone(s);
    var it := h[z];
    if z == s.c.root then
      (if it.Folder? then it.(persons := Unnamed(s, Visited(s.c, seen, PersonKind)),
        groups := Unnamed(s, Visited(s.c, seen, GroupKind))) else it)
    else if Placeable(s, z) && !it.Folder? && it.uid in seen && it.parent == None then WithParent(it, Some(s.c.root))
    else it
  }

  function Visiting(s: Loading, seen: seq<Uid>): map<Ref, Item>
    requires s.c.root in s.c.heap && s.c.heap[s.c.root].Folder?
  {
    map z | z in s.c.heap :: VisitedSoFar(s, seen, z)
  }

  lemma {:induction false} VisitedAppend(c: Cache, seen: seq<Uid>, u: Uid, k: Kind)
    ensures Visited(c, seen + [u], k) == Visited(c, seen, k) + Visited(c, [u], k)
  {
    if seen == [] {
      assert [] + [u] == [u];
    } else {
      assert (seen + [u])[1..] == seen[1..] + [u];
      VisitedAppend(c, seen[1..], u, k);
    }
  }

  lemma {:induction false} UnnamedConcat(s: Loading, a: seq<Ref>, b: seq<Ref>)
    ensures Unnamed(s, a + b) == Unnamed(s, a) + Unnamed(s, b)
  {
    if a == [] {
      assert a + b == b;
    } else {
      assert (a + b)[1..] == a[1..] + b;
      UnnamedConcat(s, a[1..], b);
    }
  }

  /** `addrbook_res_items_vis` on one object. */
  function Visit(h: map<Ref, Item>, root: Ref, r: Ref): map<Ref, Item>
    requires root in h && h[root].Folder? && r in h && r != root
  {
    if h[r].parent.Some? then h
    else if h[r].Person? then h[root := h[root].(persons := h[root].persons + [r])][r := WithParent(h[r], Some(root))]
    else if h[r].Group? then h[root := h[root].(groups := h[root].groups + [r])][r := WithParent(h[r], Some(root))]
    else h
  }

  lemma OneVisited(s: Loading, u: Uid, k: Kind)
    requires LoadOk(s) && u in s.c.hash
    ensures var r := s.c.hash[u];
      Unnamed(s, Visited(s.c, [u], k)) == if Is(s.c.heap[r], k) && Namer(s, r).None? then [r] else []
  {
    assert [u][1..] == [];
    var r := s.c.hash[u];
    assert Visited(s.c, [u], k) == if Is(s.c.heap[r], k) then [r] else [];
    assert [r][1..] == [];
  }

  lemma RootVisited(s: Loading, seen: seq<Uid>, u: Uid)
    requires LoadOk(s) && u in s.c.hash
    ensures var r := s.c.hash[u]; var a, b := VisitedSoFar(s, seen, s.c.root), VisitedSoFar(s, seen + [u], s.c.root);
      && a.Folder?
      && b == if Namer(s, r).Some? then a
              else if s.c.heap[r].Person? then a.(persons := a.persons + [r])
              else if s.c.heap[r].Group? then a.(groups := a.groups + [r])
              else a
  {
    VisitedAppend(s.c, seen, u, PersonKind);
    VisitedAppend(s.c, seen, u, GroupKind);
    UnnamedConcat(s, Visited(s.c, seen, PersonKind), Visited(s.c, [u], PersonKind));
    UnnamedConcat(s, Visited(s.c, seen, GroupKind), Visited(s.c, [u], GroupKind));
    OneVisited(s, u, PersonKind);
    OneVisited(s, u, GroupKind);
    var p, g := Unnamed(s, Visited(s.c, seen, PersonKind)), Unnamed(s, Visited(s.c, seen, GroupKind));
    assert p + [] == p && g + [] == g;
  }

  /** A person or group in the state before the visit. */
  lemma BeforeVisit(s: Loading, r: Ref)
    requires LoadOk(s) && Placeable(s, r) && !s.c.heap[r].Folder?
    ensures r in FoldersDone(s) && r != s.c.root && FoldersDone(s)[r] == WithParent(s.c.heap[r], Namer(s, r))
  {
    assert s.temp[..|s.temp|] == s.temp;
    assert r !in s.temp;
  }

  lemma VisitStep(s: Loading, seen: seq<Uid>, u: Uid)
    requires LoadOk(s) && u in s.c.hash && u !in seen
    ensures var r := s.c.hash[u]; var h := Visiting(s, seen);
      && r in h && s.c.root in h && h[s.c.root].Folder? && r != s.c.root
      && Visiting(s, seen + [u]) == Visit(h, s.c.root, r)
  {
    hide LoadOk, FoldersDone, Unnamed, Visited, Namer, VisitedSoFar, Placeable;
    var r := s.c.hash[u];
    RootThere(s);
    var root := s.c.root;
    var h := Visiting(s, seen);
    RootVisited(s, seen, u);
    VisitKind(s, seen, u);
    var i := VisitedSoFar(s, seen, r);
    assert h[r] == i && h[root] == VisitedSoFar(s, seen, root);
    var a, b := Visiting(s, seen + [u]), Visit(h, root, r);
    forall z | z in s.c.heap
      ensures a[z] == b[z]
    {
      if z != root {
        OtherVisited(s, seen, u, z);
      }
    }
    assert a.Keys == b.Keys;
    assert a == b;
  }

  lemma RootThere(s: Loading)
    requires LoadOk(s)
    ensures s.c.root in s.c.heap && s.c.heap[s.c.root].Folder?
  {
  }

  /** What the visitor sees of an object. */
  lemma VisitKind(s: Loading, seen: seq<Uid>, u: Uid)
    requires LoadOk(s) && u in s.c.hash && u !in seen
    ensures var r := s.c.hash[u];
      && r in s.c.heap && r != s.c.root && s.c.heap[r].uid == u
      && var i := VisitedSoFar(s, seen, r);
      && (i.Person? <==> s.c.heap[r].Person?) && (i.Group? <==> s.c.heap[r].Group?)
      && (s.c.heap[r].Person? || s.c.heap[r].Group? ==> i.parent == Namer(s, r) && i == FoldersDone(s)[r]
                                                        && Placeable(s, r) && i.uid == u)
  {
    var r := s.c.hash[u];
    if s.c.heap[r].Person? || s.c.heap[r].Group? {
      BeforeVisit(s, r);
    }
  }

  lemma OtherVisited(s: Loading, seen: seq<Uid>, u: Uid, z: Ref)
    requires LoadOk(s) && u in s.c.hash && u !in seen && z in s.c.heap && z != s.c.root
    ensures var r := s.c.hash[u]; var a := VisitedSoFar(s, seen, z);
      VisitedSoFar(s, seen + [u], z) ==
        if z == r && (s.c.heap[r].Person? || s.c.heap[r].Group?)
          && Namer(s, r).None? then WithParent(a, Some(s.c.root)) else a
  {
    var r := s.c.hash[u];
    assert forall x :: x in seen + [u] <==> x in seen || x == u;
    if Placeable(s, z) && !s.c.heap[z].Folder? {
      BeforeVisit(s, z);
    }
    hide FoldersDone, Namer;
  }

  lemma NoneVisited(s: Loading)
    requires LoadOk(s)
    ensures s.c.root in s.c.heap && s.c.heap[s.c.root].Folder? && Visiting(s, []) == FoldersDone(s)
  {
    var h := Visiting(s, []);
    forall z | z in s.c.heap
      ensures h[z] == FoldersDone(s)[z]
    {
      if z == s.c.root {
        assert Unnamed(s, Visited(s.c, [], PersonKind)) == [] && Unnamed(s, Visited(s.c, [], GroupKind)) == [];
      }
    }
  }

  /** The three loops and the visitor together are the resolution. */
  lemma AllVisited(s: Loading, order: seq<Uid>)
    requires LoadOk(s) && Elems(order) == s.c.hash.Keys
    ensures s.c.root in s.c.heap && s.c.heap[s.c.root].Folder? && Visiting(s, order) == Resolved(s, order).heap
  {
    var a, b := Visiting(s, order), Resolved(s, order).heap;
    RootThere(s);
    hide LoadOk;
    forall z | z in s.c.heap
      ensures a[z] == b[z]
    {
      if z == s.c.root {
        RootResolved(s, order);
      } else if s.c.heap[z].Folder? {
        FolderResolved(s, order, z);
      } else {
        OtherResolved(s, order, z);
      }
    }
    assert a == b;
  }

  lemma RootResolved(s: Loading, order: seq<Uid>)
    requires LoadOk(s)
    ensures s.c.root in s.c.heap && s.c.heap[s.c.root].Folder?
      && VisitedSoFar(s, order, s.c.root) == ResolvedItem(s, order, s.c.root)
  {
    var a, b, c := Unnamed(s, s.temp), Unnamed(s, Visited(s.c, order, PersonKind)),
      Unnamed(s, Visited(s.c, order, GroupKind));
    assert [] + a == a && [] + b == b && [] + c == c;
  }

  lemma FolderResolved(s: Loading, order: seq<Uid>, z: Ref)
    requires LoadOk(s) && IsFolder(s.c, z) && z != s.c.root
    ensures s.c.root in s.c.heap && s.c.heap[s.c.root].Folder? && VisitedSoFar(s, order, z) == ResolvedItem(s, order, z)
  {
    assert s.temp[..|s.temp|] == s.temp;
    if z in s.temp {
      assert Placeable(s, z);
    } else {
      assert !Placeable(s, z);
    }
  }

  lemma OtherResolved(s: Loading, order: seq<Uid>, z: Ref)
    requires LoadOk(s) && z in s.c.heap && z != s.c.root && !s.c.heap[z].Folder? && Elems(order) == s.c.hash.Keys
    ensures s.c.root in s.c.heap && s.c.heap[s.c.root].Folder? && VisitedSoFar(s, order, z) == ResolvedItem(s, order, z)
  {
    if Placeable(s, z) {
      BeforeVisit(s, z);
      assert s.c.heap[z].uid in Elems(order);
      assert WithParent(WithParent(s.c.heap[z], None), Some(s.c.root)) == WithParent(s.c.heap[z], Some(s.c.root));
    } else {
      assert s.temp[..|s.temp|] == s.temp;
      assert z !in s.temp;
    }
  }

  lemma GroundNone(s: Loading)
    requires LoadOk(s)
    ensures Grounded(s, 0) == Linked(s)
    ensures s.c.root in Linked(s) && Linked(s)[s.c.root] == s.c.heap[s.c.root].(folders := s.temp) && NoDup(s.temp)
  {
    assert s.temp[..|s.temp|] == s.temp && [] + s.temp == s.temp;
    assert Grounded(s, 0) == Linked(s);
  }

  lemma GroundRoot(s: Loading, m: nat)
    requires LoadOk(s) && m <= |s.temp|
    ensures s.c.root in Grounded(s, m) && Grounded(s, m)[s.c.root] == s.c.heap[s.c.root].(folders := s.temp)
    ensures s.c.root in s.c.heap && s.c.heap[s.c.root].Folder?
  {
    GroundNone(s);
    assert s.c.root !in s.temp;
  }

  /** The items with the root's list of folders replaced. */
  function WithFolders(h: map<Ref, Item>, root: Ref, fs: seq<Ref>): map<Ref, Item>
    requires root in h && h[root].Folder?
  {
    h[root := h[root].(folders := fs)]
  }

  lemma WithFoldersTwice(h: map<Ref, Item>, root: Ref, a: seq<Ref>, b: seq<Ref>)
    requires root in h && h[root].Folder?
    ensures var g := WithFolders(h, root, a);
      && root in g && g[root].Folder? && g[root].folders == a
      && g[root := g[root].(folders := b)] == WithFolders(h, root, b)
  {
  }

  /** One marked folder taken off the list. */
  lemma TakeOff(node: seq<Ref>, d: set<Ref>, x: Ref)
    requires NoDup(node)
    ensures RemoveFirst(Without(node, d), x) == Without(node, d + {x})
  {
    WithoutNoDup(node, d);
    RemoveFirstIsWithout(Without(node, d), x);
    WithoutTwice(node, d, {x});
  }

  lemma GroundedDone(s: Loading, d: set<Ref>)
    requires LoadOk(s) && forall f :: f in d <==> f in s.temp && Namer(s, f).Some?
    ensures s.c.root in s.c.heap && s.c.heap[s.c.root].Folder?
    ensures var g := Grounded(s, |s.temp|);
      && s.c.root in g && g[s.c.root].Folder? && g[s.c.root].folders == s.temp
      && WithFolders(g, s.c.root, Without(s.temp, d)) == FoldersDone(s)
      && WithFolders(g, s.c.root, s.temp) == g
  {
    hide LoadOk, Grounded, Unnamed, Without, Namer;
    GroundRoot(s, |s.temp|);
    UnnamedIsWithout(s, s.temp, d);
    var g := Grounded(s, |s.temp|);
    assert g[s.c.root].(folders := s.temp) == g[s.c.root];
  }
}
