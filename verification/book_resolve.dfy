/** Turning the uid lists of a book that has just been read into a forest
    (`addrbook_res_items_vis` and `addrbook_resolve_folder_items`, src/addrbook.c:791-907). */
module BookResolve {
  import opened Items
  import opened CacheState
  import opened CacheEdit
  import opened XmlFiles
  import opened BookParse

  // ---------- what the lists name ----------

  function ItemsOf(s: Loading, f: Ref): seq<Uid> {
    if f in s.items then s.items[f] else []
  }

  /** The objects of one kind among those that the uids name, in order.  A uid that leads nowhere
      leaves no trace. */
  function Kids(c: Cache, us: seq<Uid>, k: Kind): seq<Ref> {
    if us == [] then []
    else
      var r := Lookup(c, us[0]);
      if r.Some? && Is(c.heap[r.value], k) then [r.value] + Kids(c, us[1..], k) else Kids(c, us[1..], k)
  }

  /** The uids name `r`, which is not an email. */
  predicate NamedIn(c: Cache, us: seq<Uid>, r: Ref) {
    r in c.heap && !c.heap[r].EMail? && exists i :: 0 <= i < |us| && Lookup(c, us[i]) == Some(r)
  }

  /** The last of the folders that names `r`: its parent is overwritten each time. */
  function LastNamer(s: Loading, temp: seq<Ref>, r: Ref): Option<Ref> {
    if temp == [] then None
    else
      var n := |temp| - 1;
      if NamedIn(s.c, ItemsOf(s, temp[n]), r) then Some(temp[n]) else LastNamer(s, temp[..n], r)
  }

  function Namer(s: Loading, r: Ref): Option<Ref> {
    LastNamer(s, s.temp, r)
  }

  /** Those of `rs` that no folder names. */
  function Unnamed(s: Loading, rs: seq<Ref>): seq<Ref> {
    if rs == [] then []
    else if Namer(s, rs[0]).None? then [rs[0]] + Unnamed(s, rs[1..])
    else Unnamed(s, rs[1..])
  }

  /** The objects of one kind, in the order in which the hash table is traversed. */
  function Visited(c: Cache, order: seq<Uid>, k: Kind): seq<Ref> {
    if order == [] then []
    else
      var rest := Visited(c, order[1..], k);
      if order[0] in c.hash && c.hash[order[0]] in c.heap
        && Is(c.heap[c.hash[order[0]]], k) then [c.hash[order[0]]] + rest else rest
  }

  // ---------- the outcome ----------

  /** The parent of an object that lies somewhere: its folder, or the root if none names it. */
  function Home(s: Loading, r: Ref): Option<Ref> {
    if Namer(s, r).Some? then Namer(s, r) else Some(s.c.root)
  }

  function ResolvedItem(s: Loading, order: seq<Uid>, z: Ref): Item
    requires z in s.c.heap
  {
    var i := s.c.heap[z];
    if z == s.c.root then
      if i.Folder? then i.(folders := i.folders + Unnamed(s, s.temp),
                           persons := i.persons + Unnamed(s, Visited(s.c, order, PersonKind)),
                           groups := i.groups + Unnamed(s, Visited(s.c, order, GroupKind)))
      else i
    else if i.Folder? && z in s.temp then
      var us := ItemsOf(s, z);
      Folder(i.uid, i.name, Home(s, z), i.remarks, i.folders + Kids(s.c, us, FolderKind),
             i.persons + Kids(s.c, us, PersonKind), i.groups + Kids(s.c, us, GroupKind))
    else if (i.Person? || i.Group?) && i.uid in s.c.hash && s.c.hash[i.uid] == z then WithParent(i, Home(s, z))
    else i
  }

  function Resolved(s: Loading, order: seq<Uid>): Cache {
    s.c.(heap := map z | z in s.c.heap :: ResolvedItem(s, order, z))
  }

  /** `order` is some traversal of the hash table: each key once. */
  ghost predicate Traversal(c: Cache, order: seq<Uid>) {
    NoDup(order) && Elems(order) == c.hash.Keys
  }

  /** Any keys can be put in some order. */
  lemma {:induction false} SomeTraversal(hash: map<Uid, Ref>, keys: set<Uid>) returns (order: seq<Uid>)
    requires keys <= hash.Keys
    ensures NoDup(order) && Elems(order) == keys
    decreases keys
  {
    if keys == {} {
      order := [];
    } else {
      var u :| u in keys;
      order := SomeTraversal(hash, keys - {u});
      assert u !in Elems(order);
      NoDupAppend(order, u);
      assert Elems(order + [u]) == Elems(order) + {u};
      order := order + [u];
    }
  }

  // ---------- what has been loaded ----------

  /** What holds of any book that has been read, however its file looked: the hash is keyed by uid
      and nothing in it but emails lies anywhere yet; the queued folders are hashed. */
  ghost predicate LoadOk(s: Loading) {
    && IsFolder(s.c, s.c.root) && s.c.heap[s.c.root].parent == None && s.c.heap[s.c.root].uid == ""
      && Empty(s.c.heap[s.c.root])
    && (forall r {:trigger r in s.c.heap} | r in s.c.heap :: r < s.c.top)
    && (forall u {:trigger s.c.hash[u]} {:trigger u in s.c.hash} | u in s.c.hash ::
          s.c.hash[u] in s.c.heap && s.c.heap[s.c.hash[u]].uid == u && s.c.hash[u] != s.c.root
          && (s.c.heap[s.c.hash[u]].Folder? ==> s.c.hash[u] in s.temp))
    && (forall r {:trigger s.c.heap[r]} | r in s.c.heap && !s.c.heap[r].EMail? :: s.c.heap[r].parent == None)
    && NoDup(s.temp)
    && (forall f {:trigger f in s.temp} | f in s.temp :: IsFolder(s.c, f) && s.c.heap[f].uid in s.c.hash
                                                         && s.c.hash[s.c.heap[f].uid] == f)
  }

  /** A book without lost objects, as unique uids give it: every object is hashed under a uid, every
      hashed folder is queued, nothing is in a folder's list, and emails and groups are in order. */
  ghost predicate Sound(s: Loading) {
    && LoadOk(s) && "" !in s.c.hash
    && (forall r {:trigger s.c.heap[r]} | r in s.c.heap && r != s.c.root :: s.c.heap[r].uid in s.c.hash
                                                                            && s.c.hash[s.c.heap[r].uid] == r)
    && (forall f {:trigger IsFolder(s.c, f)} | IsFolder(s.c, f) && f != s.c.root :: f in s.temp && Empty(s.c.heap[f]))
    && (forall e {:trigger s.c.heap[e]} | e in s.c.heap && s.c.heap[e].EMail? :: Owned(s.c, e))
    && PersonsOk(s.c) && EmailsOk(s.c) && GroupsOk(s.c) && FreshOk(s.c)
  }

  // ---------- the condition ----------

  /** The `i`-th uid of folder `f` leads to `r`, which is not an email. */
  predicate Names(s: Loading, f: Ref, i: nat, r: Ref) {
    f in s.temp && i < |ItemsOf(s, f)| && Lookup(s.c, ItemsOf(s, f)[i]) == Some(r) && !s.c.heap[r].EMail?
  }

  /** No object is named twice, be it in one list or in two. */
  ghost predicate NamedOnce(s: Loading) {
    forall f, g, i: nat, j: nat, r :: Names(s, f, i, r) && Names(s, g, j, r) ==> f == g && i == j
  }

  /** The objects, each below the folder that names it. */
  function NamedHeap(s: Loading): map<Ref, Item> {
    map z | z in s.c.heap :: WithParent(s.c.heap[z], Namer(s, z))
  }

  /** No folder lies, by way of the lists, in itself. */
  ghost predicate Acyclic(s: Loading) {
    forall r, n: nat {:trigger Climb(NamedHeap(s), r, n)} | r in s.c.heap
      && n > 0 :: Climb(NamedHeap(s), r, n) != Some(r)
  }

  // ---------- lemmas about lists ----------

  lemma {:induction false} InKids(c: Cache, us: seq<Uid>, k: Kind, r: Ref)
    ensures r in Kids(c, us, k) <==> NamedIn(c, us, r) && Is(c.heap[r], k)
  {
    if us != [] {
      InKids(c, us[1..], k, r);
      assert forall i | 0 <= i < |us| :: i == 0 || us[i] == us[1..][i - 1];
      assert forall i | 0 <= i < |us[1..]| :: us[1..][i] == us[i + 1];
    }
  }

  /** A list comes out without repetitions exactly if no two of its uids lead to the same object. */
  lemma {:induction false} KidsNoDup(c: Cache, us: seq<Uid>, k: Kind)
    ensures NoDup(Kids(c, us, k)) <==> ApartIn(c, us, k)
  {
    if us != [] {
      var rest := us[1..];
      KidsNoDup(c, rest, k);
      assert forall i | 0 <= i < |rest| :: rest[i] == us[i + 1];
      var r := Lookup(c, us[0]);
      ApartCons(c, us, k);
      if r.Some? && Is(c.heap[r.value], k) {
        InKids(c, rest, k, r.value);
        NoDupFront(r.value, Kids(c, rest, k));
      }
    }
  }

  ghost predicate ApartIn(c: Cache, us: seq<Uid>, k: Kind) {
    forall i, j :: 0 <= i < j < |us| && Lookup(c, us[i]).Some? && Is(c.heap[Lookup(c, us[i]).value], k) ==>
      Lookup(c, us[i]) != Lookup(c, us[j])
  }

  lemma ApartCons(c: Cache, us: seq<Uid>, k: Kind)
    requires us != []
    ensures var r := Lookup(c, us[0]);
      ApartIn(c, us, k) <==> ApartIn(c, us[1..], k)
                             && (r.Some? && Is(c.heap[r.value], k) ==> !NamedIn(c, us[1..], r.value))
  {
    var rest := us[1..];
    var r := Lookup(c, us[0]);
    assert forall i | 0 <= i < |rest| :: rest[i] == us[i + 1];
    assert forall i | 0 < i < |us| :: us[i] == rest[i - 1];
    if ApartIn(c, us, k) {
      assert forall i, j | 0 <= i < j < |rest| :: rest[i] == us[i + 1] && rest[j] == us[j + 1];
    }
  }

  lemma {:induction false} InUnnamed(s: Loading, rs: seq<Ref>, r: Ref)
    ensures r in Unnamed(s, rs) <==> r in rs && Namer(s, r).None?
    ensures NoDup(rs) ==> NoDup(Unnamed(s, rs))
  {
    if rs != [] {
      InUnnamed(s, rs[1..], r);
      assert rs == [rs[0]] + rs[1..];
      NoDupFront(rs[0], rs[1..]);
      NoDupFront(rs[0], Unnamed(s, rs[1..]));
      UnnamedSub(s, rs[1..], rs[0]);
    }
  }

  lemma {:induction false} UnnamedSub(s: Loading, rs: seq<Ref>, r: Ref)
    ensures r in Unnamed(s, rs) ==> r in rs
  {
    if rs != [] {
      UnnamedSub(s, rs[1..], r);
    }
  }

  lemma {:induction false} InVisited(c: Cache, order: seq<Uid>, k: Kind, r: Ref)
    requires forall u | u in c.hash :: c.hash[u] in c.heap && c.heap[c.hash[u]].uid == u
    ensures r in Visited(c, order, k) <==>
      r in c.heap && Is(c.heap[r], k) && c.heap[r].uid in order && c.heap[r].uid in c.hash && c.hash[c.heap[r].uid] == r
    ensures NoDup(order) ==> NoDup(Visited(c, order, k))
  {
    if order != [] {
      InVisited(c, order[1..], k, r);
      assert forall u | u in order :: u == order[0] || u in order[1..];
      if order[0] in c.hash && Is(c.heap[c.hash[order[0]]], k) {
        var x := c.hash[order[0]];
        if NoDup(order) {
          assert order[0] !in order[1..];
          VisitedSub(c, order[1..], k, x);
        }
        NoDupFront(x, Visited(c, order[1..], k));
      }
    }
  }

  lemma {:induction false} VisitedSub(c: Cache, order: seq<Uid>, k: Kind, r: Ref)
    requires forall u | u in c.hash :: c.hash[u] in c.heap && c.heap[c.hash[u]].uid == u
    ensures r in Visited(c, order, k) ==> r in c.heap && c.heap[r].uid in order
  {
    if order != [] {
      VisitedSub(c, order[1..], k, r);
    }
  }

  lemma {:induction false} LastNamerIs(s: Loading, temp: seq<Ref>, r: Ref)
    ensures LastNamer(s, temp, r).Some? ==> LastNamer(s, temp, r).value in temp
                                            && NamedIn(s.c, ItemsOf(s, LastNamer(s, temp, r).value), r)
    ensures LastNamer(s, temp, r).None? ==> forall f | f in temp :: !NamedIn(s.c, ItemsOf(s, f), r)
    decreases |temp|
  {
    if temp != [] {
      var n := |temp| - 1;
      LastNamerIs(s, temp[..n], r);
      assert forall f | f in temp :: f == temp[n] || f in temp[..n];
    }
  }

  /** Where objects are named once, an object's namer is the folder whose list has it: the order in
      which the folders stand in the file plays no part. */
  lemma NamerIs(s: Loading, f: Ref, r: Ref)
    requires NamedOnce(s) && f in s.temp
    ensures Namer(s, r) == Some(f) <==> NamedIn(s.c, ItemsOf(s, f), r)
  {
    LastNamerIs(s, s.temp, r);
    if NamedIn(s.c, ItemsOf(s, f), r) {
      var i :| 0 <= i < |ItemsOf(s, f)| && Lookup(s.c, ItemsOf(s, f)[i]) == Some(r);
      assert Names(s, f, i, r);
      var g := Namer(s, r).value;
      var j :| 0 <= j < |ItemsOf(s, g)| && Lookup(s.c, ItemsOf(s, g)[j]) == Some(r);
      assert Names(s, g, j, r);
    }
  }

  // ---------- from the condition to agreement ----------

  /** Where an object of a sound book ends. */
  lemma ResolvedAt(s: Loading, order: seq<Uid>, z: Ref)
    requires Sound(s)
    ensures var d := Resolved(s, order);
      && d.heap.Keys == s.c.heap.Keys && d.root == s.c.root && d.hash == s.c.hash
      && (z in s.c.heap ==>
            && d.heap[z].uid == s.c.heap[z].uid
            && (d.heap[z].EMail? <==> s.c.heap[z].EMail?)
              && (forall k: Kind :: Is(d.heap[z], k) <==> Is(s.c.heap[z], k))
            && (s.c.heap[z].EMail? ==> d.heap[z] == s.c.heap[z])
            && (!s.c.heap[z].EMail? ==> d.heap[z].parent == if z == s.c.root then None else Home(s, z))
            && (s.c.heap[z].Person? ==> d.heap[z].emails == s.c.heap[z].emails)
            && (s.c.heap[z].Group? ==> d.heap[z].members == s.c.heap[z].members))
  {
    if z in s.c.heap && z != s.c.root {
      assert s.c.heap[z].uid in s.c.hash && s.c.hash[s.c.heap[z].uid] == z;
      assert IsFolder(s.c, z) ==> z in s.temp;
    }
  }

  /** The objects that the root gets unless a folder names them. */
  function Loose(s: Loading, order: seq<Uid>, k: Kind): seq<Ref> {
    if k == FolderKind then s.temp else Visited(s.c, order, k)
  }

  lemma ResolvedList(s: Loading, order: seq<Uid>, f: Ref, k: Kind)
    requires Sound(s) && IsFolder(s.c, f)
    ensures IsFolder(Resolved(s, order), f)
    ensures f != s.c.root ==> f in s.temp && ListOf(Resolved(s, order).heap[f], k) == Kids(s.c, ItemsOf(s, f), k)
    ensures f == s.c.root ==> ListOf(Resolved(s, order).heap[f], k) == Unnamed(s, Loose(s, order, k))
  {
    var us := ItemsOf(s, f);
    assert f != s.c.root ==> f in s.temp && Empty(s.c.heap[f]);
    assert [] + Kids(s.c, us, k) == Kids(s.c, us, k);
    var v := Unnamed(s, Loose(s, order, k));
    assert [] + v == v;
  }

  /** An object is in a folder's list exactly if the folder names it, and in the root's exactly if
      none does. */
  lemma ResolvedHolds(s: Loading, order: seq<Uid>, f: Ref, k: Kind, r: Ref)
    requires Sound(s) && Traversal(s.c, order) && IsFolder(s.c, f)
    ensures IsFolder(Resolved(s, order), f)
    ensures r in ListOf(Resolved(s, order).heap[f], k) <==>
      r in s.c.heap && Is(s.c.heap[r], k) && r != s.c.root
        && if f == s.c.root then Namer(s, r).None? else NamedIn(s.c, ItemsOf(s, f), r)
  {
    ResolvedList(s, order, f, k);
    if f != s.c.root {
      InKids(s.c, ItemsOf(s, f), k, r);
    } else {
      InUnnamed(s, Loose(s, order, k), r);
      InVisited(s.c, order, k, r);
      assert IsFolder(s.c, r) && r != s.c.root ==> r in s.temp;
      assert r in s.temp ==> IsFolder(s.c, r) && r != s.c.root;
      if r in s.c.heap && r != s.c.root {
        assert s.c.heap[r].uid in s.c.hash && s.c.hash[s.c.heap[r].uid] == r;
      }
    }
  }

  lemma ListsIf(s: Loading, order: seq<Uid>)
    requires Sound(s) && Traversal(s.c, order) && NamedOnce(s)
    ensures ListsOk(Resolved(s, order)) && PlacedOk(Resolved(s, order))
  {
    var d := Resolved(s, order);
    forall f, k: Kind | IsFolder(d, f)
      ensures ListOk(d.heap, f, k)
    {
      ResolvedAt(s, order, f);
      ResolvedListNoDup(s, order, f, k);
      forall r | r in ListOf(d.heap[f], k)
        ensures r in d.heap && Is(d.heap[r], k) && d.heap[r].parent == Some(f)
      {
        ResolvedHolds(s, order, f, k, r);
        ResolvedAt(s, order, r);
        if f != s.c.root {
          ResolvedList(s, order, f, k);
          NamerIs(s, f, r);
        }
      }
    }
    forall r | r in d.heap && r != d.root && !d.heap[r].EMail?
      ensures PlacedAt(d, r)
    {
      ResolvedAt(s, order, r);
      LastNamerIs(s, s.temp, r);
      var f := Home(s, r).value;
      assert IsFolder(s.c, f);
      ResolvedHolds(s, order, f, KindOf(d.heap[r]), r);
      assert f == s.c.root ==> Namer(s, r).None? by { assert s.c.root !in s.temp; }
    }
  }

  lemma ResolvedListNoDup(s: Loading, order: seq<Uid>, f: Ref, k: Kind)
    requires Sound(s) && Traversal(s.c, order) && NamedOnce(s) && IsFolder(s.c, f)
    ensures NoDup(ListOf(Resolved(s, order).heap[f], k))
  {
    ResolvedList(s, order, f, k);
    var us := ItemsOf(s, f);
    if f != s.c.root {
      forall i, j | 0 <= i < j < |us| && Lookup(s.c, us[i]).Some? && Is(s.c.heap[Lookup(s.c, us[i]).value], k)
        ensures Lookup(s.c, us[i]) != Lookup(s.c, us[j])
      {
        var r := Lookup(s.c, us[i]).value;
        assert Names(s, f, i, r);
        assert Lookup(s.c, us[j]) == Some(r) ==> Names(s, f, j, r);
      }
      KidsNoDup(s.c, us, k);
    } else {
      InUnnamed(s, Loose(s, order, k), 0);
      InVisited(s.c, order, k, 0);
    }
  }

  lemma ResolvedRest(s: Loading, order: seq<Uid>)
    requires Sound(s)
    ensures var d := Resolved(s, order);
      RootOk(d) && KeysOk(d) && HashedOk(d) && PersonsOk(d) && EmailsOk(d) && UidsOk(d) && GroupsOk(d) && FreshOk(d)
  {
    var d := Resolved(s, order);
    forall z
      ensures z in d.heap <==> z in s.c.heap
      ensures z in s.c.heap ==> d.heap[z].uid == s.c.heap[z].uid && (d.heap[z].EMail? <==> s.c.heap[z].EMail?)
      ensures z in s.c.heap ==> (d.heap[z].Person? <==> s.c.heap[z].Person?)
                                                        && (d.heap[z].Group? <==> s.c.heap[z].Group?)
      ensures z in s.c.heap && s.c.heap[z].EMail? ==> d.heap[z] == s.c.heap[z]
      ensures z in s.c.heap && s.c.heap[z].Person? ==> d.heap[z].emails == s.c.heap[z].emails
      ensures z in s.c.heap && s.c.heap[z].Group? ==> d.heap[z].members == s.c.heap[z].members
      ensures z in s.c.heap && !s.c.heap[z].EMail? && z != s.c.root ==> d.heap[z].parent.Some?
      ensures z == s.c.root ==> d.heap[z].Folder? && d.heap[z].parent == None
    {
      ResolvedAt(s, order, z);
      if z in s.c.heap {
        assert Is(d.heap[z], PersonKind) <==> Is(s.c.heap[z], PersonKind);
        assert Is(d.heap[z], GroupKind) <==> Is(s.c.heap[z], GroupKind);
      }
    }
    forall a, b | Namesakes(s.c, a, b)
      ensures a == b
    {
    }
    EmailFrame(s.c, d);
    GroupFrame(s.c, d);
    FreshFrame(s.c, d);
  }

  // ---------- the way to the root ----------

  lemma NamedAt(s: Loading, r: Ref)
    requires LoadOk(s) && r in s.c.heap
    ensures r in NamedHeap(s) && NamedHeap(s)[r].parent == Namer(s, r)
    ensures Namer(s, r).Some? ==> IsFolder(s.c, Namer(s, r).value) && Namer(s, r).value != s.c.root && r != s.c.root
  {
    LastNamerIs(s, s.temp, r);
    if Namer(s, r).Some? {
      assert Namer(s, r).value in s.temp;
    }
  }

  ghost predicate Above(h: map<Ref, Item>, q: Ref, v: Ref) {
    exists m: nat :: m > 0 && Climb(h, v, m) == Some(q)
  }

  /** Going up without ever coming back ends somewhere: there are only so many objects. */
  lemma {:induction false} UpEnds(s: Loading, r: Ref, seen: set<Ref>) returns (n: nat, top: Ref)
    requires LoadOk(s) && Acyclic(s) && r in s.c.heap && seen <= s.c.heap.Keys && r !in seen
    requires forall v | v in seen :: Above(NamedHeap(s), r, v)
    ensures Climb(NamedHeap(s), r, n) == Some(top) && top in s.c.heap && Namer(s, top).None?
    decreases s.c.heap.Keys - seen
  {
    var h := NamedHeap(s);
    NamedAt(s, r);
    if Namer(s, r).None? {
      n, top := 0, r;
    } else {
      var q := Namer(s, r).value;
      assert Climb(h, r, 1) == Some(q);
      forall v | v in seen + {r}
        ensures Above(h, q, v) && v != q
      {
        if v != r {
          var m: nat :| m > 0 && Climb(h, v, m) == Some(r);
          ClimbAdd(h, v, m, 1);
          assert Climb(h, v, m + 1) == Some(q);
        }
      }
      n, top := UpEnds(s, q, seen + {r});
      n := n + 1;
    }
  }

  /** The parent in the outcome. */
  lemma HomeAt(s: Loading, order: seq<Uid>, r: Ref)
    requires Sound(s) && r in s.c.heap
    ensures LoadOk(s) && r in Resolved(s, order).heap
    ensures !s.c.heap[r].EMail? && r != s.c.root ==> Resolved(s, order).heap[r].parent == Home(s, r)
    ensures Namer(s, r).Some? ==> Resolved(s, order).heap[r].parent == Namer(s, r)
    ensures Namer(s, r).Some? ==> IsFolder(s.c, Namer(s, r).value) && Namer(s, r).value != s.c.root
  {
    ResolvedAt(s, order, r);
    NamedAt(s, r);
    LastNamerIs(s, s.temp, r);
  }

  lemma {:induction false} UpReaches(s: Loading, order: seq<Uid>, r: Ref, n: nat, top: Ref)
    requires Sound(s) && r in s.c.heap && !s.c.heap[r].EMail? && r != s.c.root
    requires Climb(NamedHeap(s), r, n) == Some(top) && Namer(s, top).None?
    ensures Reaches(Resolved(s, order).heap, s.c.root, r)
    decreases n
  {
    hide Sound, Resolved, Namer;
    var d := Resolved(s, order);
    HomeAt(s, order, r);
    if n == 0 {
      ReachesRefl(d.heap, s.c.root);
    } else {
      UpReaches(s, order, Namer(s, r).value, n - 1, top);
    }
    ReachesStep(d.heap, s.c.root, r);
  }

  lemma RootedIf(s: Loading, order: seq<Uid>)
    requires Sound(s) && Acyclic(s)
    ensures RootedOk(Resolved(s, order))
  {
    var d := Resolved(s, order);
    forall r | r in d.heap && d.heap[r].parent.Some?
      ensures Reaches(d.heap, d.root, r)
    {
      ResolvedAt(s, order, r);
      var p := if d.heap[r].EMail? then d.heap[r].parent.value else r;
      if d.heap[r].EMail? {
        assert EmailOk(s.c, r);
      }
      ResolvedAt(s, order, p);
      var n, top := UpEnds(s, p, {});
      UpReaches(s, order, p, n, top);
      ReachesStep(d.heap, d.root, r);
    }
  }

  /** Whatever climbs by names climbs in the outcome. */
  lemma {:induction false} NamedClimb(s: Loading, order: seq<Uid>, r: Ref, n: nat)
    requires Sound(s) && r in s.c.heap && Climb(NamedHeap(s), r, n).Some?
    ensures Climb(Resolved(s, order).heap, r, n) == Climb(NamedHeap(s), r, n)
    decreases n
  {
    hide Sound, Resolved, Namer;
    if n > 0 {
      HomeAt(s, order, r);
      NamedClimb(s, order, Namer(s, r).value, n - 1);
    }
  }

  /** The lists of a sound book make a forest in agreement with the hash exactly if they name no
      object twice and no folder within itself. */
  lemma ResolvedInv(s: Loading, order: seq<Uid>)
    requires Sound(s) && Traversal(s.c, order)
    ensures Inv(Resolved(s, order)) <==> NamedOnce(s) && Acyclic(s)
  {
    var d := Resolved(s, order);
    if NamedOnce(s) && Acyclic(s) {
      ListsIf(s, order);
      ResolvedRest(s, order);
      RootedIf(s, order);
    }
    if Inv(d) {
      forall f, g, i: nat, j: nat, r | Names(s, f, i, r) && Names(s, g, j, r)
        ensures f == g && i == j
      {
        OnceFromInv(s, order, f, g, i, j, r);
      }
      forall r, n: nat | r in s.c.heap && n > 0
        ensures Climb(NamedHeap(s), r, n) != Some(r)
      {
        if Climb(NamedHeap(s), r, n) == Some(r) {
          NamedClimb(s, order, r, n);
          assert d.heap[r].parent.Some?;
          NoCycle(d, r, n);
        }
      }
    }
  }

  lemma OnceFromInv(s: Loading, order: seq<Uid>, f: Ref, g: Ref, i: nat, j: nat, r: Ref)
    requires Sound(s) && Traversal(s.c, order) && Inv(Resolved(s, order)) && Names(s, f, i, r) && Names(s, g, j, r)
    ensures f == g && i == j
  {
    var d := Resolved(s, order);
    var k := KindOf(s.c.heap[r]);
    ResolvedList(s, order, f, k);
    ResolvedList(s, order, g, k);
    InKids(s.c, ItemsOf(s, f), k, r);
    InKids(s.c, ItemsOf(s, g), k, r);
    assert ListOk(d.heap, f, k) && ListOk(d.heap, g, k);
    KidsNoDup(s.c, ItemsOf(s, f), k);
  }

  // ---------- the order of the traversal ----------

  /** With the hash table traversed in another order every object has the same parent, every folder but
      the root the same lists in the same order, and the root the same objects. */
  lemma TraversalDoesNotMatter(s: Loading, a: seq<Uid>, b: seq<Uid>)
    requires Sound(s) && Traversal(s.c, a) && Traversal(s.c, b)
    ensures var d, e := Resolved(s, a), Resolved(s, b);
      && e.heap.Keys == d.heap.Keys && e.hash == d.hash
      && (forall r | r in d.heap && r != d.root :: e.heap[r] == d.heap[r])
      && IsFolder(d, d.root) && IsFolder(e, d.root)
      && forall k: Kind :: Elems(ListOf(e.heap[d.root], k)) == Elems(ListOf(d.heap[d.root], k))
  {
    var d, e := Resolved(s, a), Resolved(s, b);
    assert forall r | r in d.heap && r != d.root :: e.heap[r] == d.heap[r];
    hide Sound, Resolved;
    RootStays(s, a);
    RootStays(s, b);
    forall k: Kind, r
      ensures r in ListOf(e.heap[d.root], k) <==> r in ListOf(d.heap[d.root], k)
    {
      ResolvedHolds(s, a, s.c.root, k, r);
      ResolvedHolds(s, b, s.c.root, k, r);
    }
  }

  lemma RootStays(s: Loading, order: seq<Uid>)
    requires Sound(s)
    ensures IsFolder(s.c, s.c.root) && IsFolder(Resolved(s, order), s.c.root)
  {
    ResolvedAt(s, order, s.c.root);
    assert Is(Resolved(s, order).heap[s.c.root], FolderKind) <==> Is(s.c.heap[s.c.root], FolderKind);
  }

  // ---------- whatever the file says ----------

  lemma NewObjectOk(s: Loading, i: Item)
    requires LoadOk(s) && i.parent == None
    ensures LoadOk(NewObject(s, i))
  {
    assert s.c.top !in s.c.heap;
    assert NewObject(s, i).c.heap[s.c.root] == s.c.heap[s.c.root];
  }

  lemma AddParsedOk(s: Loading, p: Ref, e: Item)
    requires LoadOk(s) && e.EMail?
    ensures LoadOk(s.(c := AddParsed(s.c, p, e))) && Grows(s, s.(c := AddParsed(s.c, p, e)))
  {
    var t := s.(c := AddParsed(s.c, p, e));
    assert s.c.top !in s.c.heap;
    assert t.c.heap[t.c.root] == s.c.heap[s.c.root];
    forall f | f in s.temp
      ensures IsFolder(t.c, f) && t.c.heap[f].uid in t.c.hash && t.c.hash[t.c.heap[f].uid] == f
    {
      assert IsFolder(s.c, f) && t.c.heap[f] == s.c.heap[f];
    }
  }

  /** Objects are only added and stay what they are. */
  ghost predicate Grows(s: Loading, t: Loading) {
    && s.c.heap.Keys <= t.c.heap.Keys && t.c.root == s.c.root
    && forall z {:trigger t.c.heap[z]} | z in s.c.heap :: t.c.heap[z].Folder? <==> s.c.heap[z].Folder?
  }

  lemma WithAttribOk(s: Loading, p: Ref, attribs: seq<Attrib>)
    requires LoadOk(s) && IsPerson(s.c, p)
    ensures LoadOk(s.(c := s.c.(heap := s.c.heap[p := s.c.heap[p].(attribs := attribs)])))
  {
  }

  lemma JoinOk(s: Loading, g: Ref, e: Ref)
    requires LoadOk(s) && IsGroup(s.c, g)
    ensures LoadOk(s.(c := Join(s.c, g, e)))
  {
  }

  /** No element, well formed or not, leads out of what the resolver can deal with. */
  lemma ParseElementOk(k: ListKind, tag: Tag, text: string, s: Loading)
    requires LoadOk(s)
    ensures LoadOk(ParseElement(k, tag, text, s)) && Grows(s, ParseElement(k, tag, text, s))
  {
    hide LoadOk, Value, Strip;
    var a := tag.attr;
    match k
    case Addresses(p) =>
      if p.Some? && a != [] {
        AddParsedOk(s, p.value, EMail(Value(a, "uid"), Value(a, "alias"), None, Value(a, "email"),
          Value(a, "remarks")));
      }
    case Attributes(p) =>
      if p.Some? && IsPerson(s.c, p.value) {
        WithAttribOk(s, p.value, s.c.heap[p.value].attribs + [Attrib(Value(a, "uid"), Value(a, "name"), Strip(text))]);
      }
    case Members(g) =>
      var e := Lookup(s.c, Value(a, "eid"));
      if g.Some? && e.Some? && IsGroup(s.c, g.value) {
        JoinOk(s, g.value, e.value);
      }
    case ItemList(f) =>
      ItemsOk(s, ParseElement(k, tag, text, s));
  }

  lemma ItemsOk(s: Loading, t: Loading)
    requires LoadOk(s) && t.c == s.c && t.temp == s.temp
    ensures LoadOk(t)
  {
  }

  lemma HashingOk(o: Option<Ref>, s: Loading)
    requires LoadOk(s) && (o.Some? ==> o.value in s.c.heap && !s.c.heap[o.value].Folder?)
    ensures LoadOk(Hashed(o, s)) && Grows(s, Hashed(o, s))
  {
  }

  lemma QueuedOk(o: Option<Ref>, s: Loading)
    requires LoadOk(s) && (o.Some? ==> IsFolder(s.c, o.value) && o.value != s.c.root)
    ensures LoadOk(Queued(o, s)) && Grows(s, Queued(o, s))
  {
    if o.Some? && s.c.heap[o.value].uid !in s.c.hash {
      assert o.value !in s.temp;
      NoDupAppend(s.temp, o.value);
    }
  }

  lemma DiscardedOk(o: Option<Ref>, s: Loading)
    requires LoadOk(s) && (o.Some? ==> o.value != s.c.root && (forall u | u in s.c.hash :: s.c.hash[u] != o.value))
    ensures LoadOk(Discarded(o, s))
  {
    if o.Some? {
      assert o.value !in s.temp;
      var t := Discarded(o, s);
      assert t.c.heap[t.c.root] == s.c.heap[s.c.root];
    }
  }

  lemma MadeOk(tag: Tag, s: Loading)
    requires LoadOk(s)
    ensures var t := WithMade(tag, s); var o := MadeRef(tag, s);
      && LoadOk(t) && Grows(s, t) && t.c.hash == s.c.hash
      && (o.Some? ==> o.value in t.c.heap && o.value != t.c.root
                      && (forall u | u in t.c.hash :: t.c.hash[u] != o.value))
      && (o.Some? ==> (tag.name != "person" && tag.name != "group" <==> IsFolder(t.c, o.value)))
  {
    if Made(tag).Some? {
      NewObjectOk(s, Made(tag).value);
    }
  }

  lemma {:induction false} ParseListOk(k: ListKind, x: Reader, s: Loading)
    requires LoadOk(s)
    ensures LoadOk(ParseList(k, x, s).s) && Grows(s, ParseList(k, x, s).s)
    decreases x.Left()
  {
    hide LoadOk, ParseElement;
    var (rc, y) := NextTag(x);
    if rc == 0 && y.Level() >= x.Level() {
      if Current(y, ElementName(k)) {
        var t := ParseElement(k, y.stack[0], y.text, s);
        ParseElementOk(k, y.stack[0], y.text, s);
        ParseListOk(k, y, t);
        var r := ParseList(k, y, t);
        if r.ok {
          ParseListOk(k, r.x, r.s);
        }
      } else {
        ParseListOk(k, y, s);
      }
    }
  }

  lemma ParsePersonOk(x: Reader, s: Loading)
    requires LoadOk(s) && Current(x, "person")
    ensures LoadOk(ParsePerson(x, s).s)
  {
    hide LoadOk, ParseList, Hashed;
    var p := MadeRef(x.stack[0], s);
    var s1 := WithMade(x.stack[0], s);
    MadeOk(x.stack[0], s);
    var (rc, y) := NextTag(x);
    if rc == 0 {
      var r := if Current(y, "address-list") then ParseList(Addresses(p), y, s1) else Parsed(true, y, s1);
      ParseListOk(Addresses(p), y, s1);
      if r.ok {
        HashingOk(p, r.s);
        var s2 := if Current(y, "address-list") then Hashed(p, r.s) else r.s;
        var (rc2, z) := NextTag(r.x);
        ParseListOk(Attributes(p), z, s2);
      }
    }
  }

  lemma ParseListerOk(x: Reader, s: Loading)
    requires LoadOk(s) && (Current(x, "group") || Current(x, "folder"))
    ensures LoadOk(ParseLister(x, s).s)
  {
    hide LoadOk, ParseList, Hashed, Queued, Discarded;
    var o := MadeRef(x.stack[0], s);
    var s1 := WithMade(x.stack[0], s);
    MadeOk(x.stack[0], s);
    var (rc, y) := NextTag(x);
    DiscardedOk(o, s1);
    if Current(x, "group") {
      HashingOk(o, s1);
      ParseListOk(Members(o), y, Hashed(o, s1));
    } else {
      QueuedOk(o, s1);
      ParseListOk(ItemList(o), y, Queued(o, s1));
    }
  }

  lemma {:induction false} ParseObjectsOk(x: Reader, s: Loading)
    requires LoadOk(s)
    ensures LoadOk(ParseObjects(x, s).s)
    decreases x.Left()
  {
    hide LoadOk, ParsePerson, ParseLister;
    if x.Level() != 0 {
      var (rc, y) := NextTag(x);
      if rc == 0 {
        if Current(y, "person") {
          ParsePersonOk(y, s);
        } else if Current(y, "group") || Current(y, "folder") {
          ParseListerOk(y, s);
        }
        var r := ParseObject(y, s);
        if r.ok {
          ParseObjectsOk(r.x, r.s);
        }
      }
    }
  }

  lemma ReadTreeOk(dtd: bool, tokens: seq<Token>, s: Loading)
    requires LoadOk(s)
    ensures LoadOk(ReadTree(dtd, tokens, s).s)
  {
    var (rc, x) := NextTag(Reader(tokens, [], false, ""));
    ParseObjectsOk(x, s);
    ParseObjectsOk(x, s.(c := s.c.(dirty := true)));
  }
}
