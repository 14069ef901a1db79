/** The state of an address cache as a value, its invariant, and the ancestor relation
    of the forest it holds (src/addrcache.h, src/addrcache.c). */
module CacheState {
  import opened Items

  /** `heap` holds the cache's items, `hash` is the source's `itemHash`, and `top` is the
      next unused address (memory allocation). */
  datatype Cache = Cache(heap: map<Ref, Item>, hash: map<Uid, Ref>, root: Ref, nextId: nat, top: Ref, dirty: bool)

  // ---------- the parent chain ----------

  /** The item `n` parent pointers above `r`. */
  ghost function Climb(h: map<Ref, Item>, r: Ref, n: nat): Option<Ref>
    decreases n
  {
    if n == 0 then Some(r)
    else if r in h && h[r].parent.Some? then Climb(h, h[r].parent.value, n - 1)
    else None
  }

  /** `a` is `r` or an ancestor of `r`. */
  ghost predicate Reaches(h: map<Ref, Item>, a: Ref, r: Ref) {
    exists n: nat :: Climb(h, r, n) == Some(a)
  }

  lemma {:induction false} ClimbAdd(h: map<Ref, Item>, r: Ref, m: nat, n: nat)
    requires Climb(h, r, m).Some?
    ensures Climb(h, r, m + n) == Climb(h, Climb(h, r, m).value, n)
    decreases m
  {
    if m > 0 {
      ClimbAdd(h, h[r].parent.value, m - 1, n);
    }
  }

  lemma ReachesRefl(h: map<Ref, Item>, r: Ref)
    ensures Reaches(h, r, r)
  {
    assert Climb(h, r, 0) == Some(r);
  }

  lemma ReachesTrans(h: map<Ref, Item>, a: Ref, b: Ref, r: Ref)
    requires Reaches(h, a, b) && Reaches(h, b, r)
    ensures Reaches(h, a, r)
  {
    var m: nat :| Climb(h, r, m) == Some(b);
    var n: nat :| Climb(h, b, n) == Some(a);
    ClimbAdd(h, r, m, n);
  }

  /** One step up: an item other than `a` is below `a` exactly if its parent is. */
  lemma ReachesStep(h: map<Ref, Item>, a: Ref, r: Ref)
    ensures Reaches(h, a, r) <==> a == r || (r in h && h[r].parent.Some? && Reaches(h, a, h[r].parent.value))
  {
    if Reaches(h, a, r) && a != r {
      var n: nat :| Climb(h, r, n) == Some(a);
      assert Climb(h, h[r].parent.value, n - 1) == Some(a);
    }
    if a == r {
      ReachesRefl(h, r);
    }
    if r in h && h[r].parent.Some? && Reaches(h, a, h[r].parent.value) {
      var n: nat :| Climb(h, h[r].parent.value, n) == Some(a);
      assert Climb(h, r, n + 1) == Some(a);
    }
  }

  /** `s` is closed under the parent pointers of `h`, and `k` has the same ones there. */
  ghost predicate SameParents(h: map<Ref, Item>, k: map<Ref, Item>, s: set<Ref>) {
    forall r {:trigger r in s} | r in s ::
      r in h && r in k && k[r].parent == h[r].parent && (h[r].parent.Some? ==> h[r].parent.value in s)
  }

  lemma {:induction false} ClimbAgrees(h: map<Ref, Item>, k: map<Ref, Item>, s: set<Ref>, r: Ref, n: nat)
    requires SameParents(h, k, s) && r in s
    ensures Climb(k, r, n) == Climb(h, r, n)
    decreases n
  {
    if n > 0 && h[r].parent.Some? {
      ClimbAgrees(h, k, s, h[r].parent.value, n - 1);
    }
  }

  /** Where parents agree, so do ancestors. */
  lemma ReachesAgrees(h: map<Ref, Item>, k: map<Ref, Item>, s: set<Ref>, a: Ref, r: Ref)
    requires SameParents(h, k, s) && r in s
    ensures Reaches(k, a, r) <==> Reaches(h, a, r)
  {
    if Reaches(h, a, r) {
      var n: nat :| Climb(h, r, n) == Some(a);
      ClimbAgrees(h, k, s, r, n);
    }
    if Reaches(k, a, r) {
      var n: nat :| Climb(k, r, n) == Some(a);
      ClimbAgrees(h, k, s, r, n);
    }
  }

  // ---------- the invariant ----------

  predicate IsFolder(c: Cache, f: Ref) { f in c.heap && c.heap[f].Folder? }
  predicate IsPerson(c: Cache, p: Ref) { p in c.heap && c.heap[p].Person? }
  predicate IsGroup(c: Cache, g: Ref) { g in c.heap && c.heap[g].Group? }

  /** An email that a person of the cache holds, whether it is hashed or not. */
  predicate Owned(c: Cache, e: Ref) { e in c.heap && c.heap[e].EMail? && c.heap[e].parent.Some? }

  /** An email that no person holds: made by a caller, or just taken from a person. */
  predicate Pending(c: Cache, e: Ref) { e in c.heap && c.heap[e].EMail? && c.heap[e].parent == None }

  /** The root folder is never hashed and has no uid. */
  ghost predicate RootOk(c: Cache) {
    IsFolder(c, c.root) && c.heap[c.root].parent == None && c.heap[c.root].uid == ""
  }

  /** Each hash entry is keyed by the uid of its object, which is placed somewhere. */
  ghost predicate KeysOk(c: Cache) {
    forall u {:trigger c.hash[u]} {:trigger u in c.hash} | u in c.hash ::
      c.hash[u] in c.heap && c.heap[c.hash[u]].uid == u && u != "" && c.heap[c.hash[u]].parent.Some?
  }

  /** Each person, each group and each folder but the root is hashed. */
  ghost predicate HashedOk(c: Cache) {
    forall r {:trigger c.heap[r]} {:trigger r in c.heap} | r in c.heap && r != c.root && !c.heap[r].EMail? ::
      c.heap[r].uid in c.hash && c.hash[c.heap[r].uid] == r
  }

  /** A folder's list names each item once, and only items of its kind whose parent it is. */
  ghost predicate ListOk(h: map<Ref, Item>, f: Ref, k: Kind)
    requires f in h && h[f].Folder?
  {
    && NoDup(ListOf(h[f], k))
    && forall r | r in ListOf(h[f], k) :: r in h && Is(h[r], k) && h[r].parent == Some(f)
  }

  ghost predicate ListsOk(c: Cache) {
    forall f, k: Kind {:trigger ListOk(c.heap, f, k)} | IsFolder(c, f) :: ListOk(c.heap, f, k)
  }

  /** A person, group or folder is in the list of its kind of its parent. */
  ghost predicate PlacedAt(c: Cache, r: Ref) {
    && r in c.heap && !c.heap[r].EMail?
    && c.heap[r].parent.Some?
    && IsFolder(c, c.heap[r].parent.value)
    && r in ListOf(c.heap[c.heap[r].parent.value], KindOf(c.heap[r]))
  }

  ghost predicate PlacedOk(c: Cache) {
    forall r {:trigger PlacedAt(c, r)} | r in c.heap && r != c.root && !c.heap[r].EMail? :: PlacedAt(c, r)
  }

  ghost predicate PersonOk(c: Cache, p: Ref) {
    && IsPerson(c, p)
    && NoDup(c.heap[p].emails)
    && forall e | e in c.heap[p].emails :: e in c.heap && c.heap[e].EMail? && c.heap[e].parent == Some(p)
  }

  ghost predicate PersonsOk(c: Cache) {
    forall p {:trigger PersonOk(c, p)} | IsPerson(c, p) :: PersonOk(c, p)
  }

  /** An owned email is in its parent's list, and its uid leads to it or to nothing:
      `addrcache_add_contact` leaves the email it makes out of the hash. */
  ghost predicate EmailOk(c: Cache, e: Ref) {
    && Owned(c, e)
    && IsPerson(c, c.heap[e].parent.value)
    && e in c.heap[c.heap[e].parent.value].emails
    && c.heap[e].uid != ""
    && (c.heap[e].uid in c.hash ==> c.hash[c.heap[e].uid] == e)
  }

  ghost predicate EmailsOk(c: Cache) {
    forall e {:trigger EmailOk(c, e)} | Owned(c, e) :: EmailOk(c, e)
  }

  predicate Namesakes(c: Cache, d: Ref, e: Ref) {
    Owned(c, d) && Owned(c, e) && c.heap[d].uid == c.heap[e].uid
  }

  ghost predicate UidsOk(c: Cache) {
    forall d, e {:trigger Namesakes(c, d, e)} | Namesakes(c, d, e) :: d == e
  }

  /** A group refers to each of its members once, and each is owned by a person of the cache. */
  ghost predicate GroupOk(c: Cache, g: Ref) {
    IsGroup(c, g) && NoDup(c.heap[g].members) && forall e | e in c.heap[g].members :: Owned(c, e)
  }

  ghost predicate GroupsOk(c: Cache) {
    forall g {:trigger GroupOk(c, g)} | IsGroup(c, g) :: GroupOk(c, g)
  }

  /** Every parent chain ends at the root. */
  ghost predicate RootedOk(c: Cache) {
    forall r {:trigger Reaches(c.heap, c.root, r)} | r in c.heap && c.heap[r].parent.Some? ::
      Reaches(c.heap, c.root, r)
  }

  /** No uid that the counter is still to give out is in use. */
  ghost predicate FreshUid(c: Cache, u: Uid) {
    forall n: nat | n > c.nextId :: Decimal(n) != u
  }

  ghost predicate FreshOk(c: Cache) {
    && (forall r {:trigger r in c.heap} | r in c.heap :: r < c.top)
    && (forall u {:trigger FreshUid(c, u)} | u in c.hash :: FreshUid(c, u))
    && (forall e {:trigger FreshUid(c, c.heap[e].uid)} | Owned(c, e) :: FreshUid(c, c.heap[e].uid))
  }

  ghost predicate Inv(c: Cache) {
    && RootOk(c)
    && KeysOk(c)
    && HashedOk(c)
    && ListsOk(c)
    && PlacedOk(c)
    && PersonsOk(c)
    && EmailsOk(c)
    && UidsOk(c)
    && GroupsOk(c)
    && RootedOk(c)
    && FreshOk(c)
  }

  // ---------- consequences ----------

  lemma RootIsFolder(c: Cache)
    requires Inv(c)
    ensures IsFolder(c, c.root)
  {
  }

  /** The root is nobody's descendant. */
  lemma AboveRoot(c: Cache, a: Ref)
    requires RootOk(c) && Reaches(c.heap, a, c.root)
    ensures a == c.root
  {
    var n: nat :| Climb(c.heap, c.root, n) == Some(a);
  }

  /** The number of steps from an item to the root is unique, so no parent chain returns to
      where it started. */
  lemma NoCycle(c: Cache, r: Ref, n: nat)
    requires RootOk(c) && Reaches(c.heap, c.root, r)
    requires Climb(c.heap, r, n) == Some(r)
    ensures n == 0
  {
    var m: nat :| Climb(c.heap, r, m) == Some(c.root);
    NoCycleFrom(c, r, n, m);
  }

  lemma {:induction false} NoCycleFrom(c: Cache, r: Ref, n: nat, m: nat)
    requires RootOk(c) && Climb(c.heap, r, m) == Some(c.root) && Climb(c.heap, r, n) == Some(r)
    ensures n == 0
    decreases m
  {
    if n > 0 {
      if n <= m {
        ClimbAdd(c.heap, r, n, m - n);
        NoCycleFrom(c, r, n, m - n);
      } else {
        ClimbAdd(c.heap, r, m, n - m);
      }
    }
  }

  /** Two items each above the other are the same. */
  lemma ReachesAntisym(c: Cache, a: Ref, b: Ref)
    requires RootOk(c) && Reaches(c.heap, c.root, a)
    requires Reaches(c.heap, a, b) && Reaches(c.heap, b, a)
    ensures a == b
  {
    var m: nat :| Climb(c.heap, a, m) == Some(b);
    var n: nat :| Climb(c.heap, b, n) == Some(a);
    ClimbAdd(c.heap, a, m, n);
    NoCycle(c, a, m + n);
  }

  /** Everything at or below `x`: for a folder its subtree with the persons' emails, for a
      person the person and the emails, otherwise `x` alone. */
  ghost function Sub(c: Cache, x: Ref): set<Ref> {
    set r | r in c.heap && Reaches(c.heap, x, r)
  }

  /** A child's subtree is strictly smaller than its parent's: recursion over the forest ends. */
  lemma SubShrinks(c: Cache, x: Ref, y: Ref)
    requires Inv(c) && x in c.heap && y in c.heap && c.heap[y].parent == Some(x)
    ensures Sub(c, y) < Sub(c, x)
    ensures x !in Sub(c, y)
  {
    ReachesStep(c.heap, x, y);
    ReachesRefl(c.heap, x);
    forall r | r in Sub(c, y)
      ensures r in Sub(c, x)
    {
      ReachesTrans(c.heap, x, y, r);
    }
    if x in Sub(c, y) {
      ReachesTrans(c.heap, y, x, y);
      ReachesAntisym(c, y, x);
      assert Climb(c.heap, y, 1) == Some(y);
      NoCycle(c, y, 1);
    }
    assert x in Sub(c, x);
  }

  /** Emails hold nothing, and only folders and persons are parents. */
  lemma ParentType(c: Cache, r: Ref)
    requires Inv(c) && r in c.heap && c.heap[r].parent.Some?
    ensures var p := c.heap[r].parent.value;
      p in c.heap && (if c.heap[r].EMail? then c.heap[p].Person? && r in c.heap[p].emails
                      else c.heap[p].Folder? && r in ListOf(c.heap[p], KindOf(c.heap[r])))
  {
    if c.heap[r].EMail? {
      assert EmailOk(c, r);
    } else {
      assert PlacedAt(c, r);
    }
  }

  lemma SubOfGroup(c: Cache, g: Ref)
    requires Inv(c) && IsGroup(c, g)
    ensures Sub(c, g) == {g}
  {
    ReachesRefl(c.heap, g);
    forall r | r in Sub(c, g)
      ensures r == g
    {
      NothingBelow(c, g, r);
    }
  }

  lemma SubOfEMail(c: Cache, e: Ref)
    requires Inv(c) && e in c.heap && c.heap[e].EMail?
    ensures Sub(c, e) == {e}
  {
    ReachesRefl(c.heap, e);
    forall r | r in Sub(c, e)
      ensures r == e
    {
      NothingBelow(c, e, r);
    }
  }

  lemma NothingBelow(c: Cache, x: Ref, r: Ref)
    requires Inv(c) && x in c.heap && Reaches(c.heap, x, r)
    requires c.heap[x].Group? || c.heap[x].EMail? || (c.heap[x].Folder? && Empty(c.heap[x]))
    ensures r == x
  {
    if r != x {
      var n: nat :| Climb(c.heap, r, n) == Some(x);
      var y := ChildOnPath(c.heap, r, x, n);
      ParentType(c, y);
    }
  }

  /** The last item before `x` on the way up from `r`. */
  lemma {:induction false} ChildOnPath(h: map<Ref, Item>, r: Ref, x: Ref, n: nat) returns (y: Ref)
    requires Climb(h, r, n) == Some(x) && n > 0
    ensures y in h && h[y].parent == Some(x) && Reaches(h, y, r)
    decreases n
  {
    if n == 1 {
      y := r;
      ReachesRefl(h, r);
    } else {
      var p := h[r].parent.value;
      y := ChildOnPath(h, p, x, n - 1);
      ReachesStep(h, y, r);
    }
  }

  lemma SubOfPerson(c: Cache, p: Ref)
    requires Inv(c) && IsPerson(c, p)
    ensures Sub(c, p) == {p} + Elems(c.heap[p].emails)
  {
    ReachesRefl(c.heap, p);
    forall r | r in Sub(c, p)
      ensures r == p || r in c.heap[p].emails
    {
      if r != p {
        var n: nat :| Climb(c.heap, r, n) == Some(p);
        var y := ChildOnPath(c.heap, r, p, n);
        ParentType(c, y);
        NothingBelow(c, y, r);
      }
    }
    forall e | e in c.heap[p].emails
      ensures e in Sub(c, p)
    {
      assert PersonOk(c, p);
      ReachesStep(c.heap, p, e);
    }
  }

  lemma SubOfEmptyFolder(c: Cache, f: Ref)
    requires Inv(c) && IsFolder(c, f) && Empty(c.heap[f])
    ensures Sub(c, f) == {f}
  {
    ReachesRefl(c.heap, f);
    forall r | r in Sub(c, f)
      ensures r == f
    {
      NothingBelow(c, f, r);
    }
  }
}
