/** What every step of a paste by copying does to the target cache: it adds items at new
    addresses under new uids, and of the old items it touches one folder only. */
module ClipGrow {
  import opened Items
  import opened CacheState
  import opened CacheEdit
  import opened AddrCache

  /** A uid that the counter has given out between `c` and `c'`. */
  ghost predicate GivenOut(c: Cache, c': Cache, u: Uid) {
    exists n: nat :: c.nextId < n <= c'.nextId && u == Decimal(n)
  }

  /** From `c` the cache has become `c'`; of what was there only the item `t` may differ. */
  ghost predicate Grown(c: Cache, c': Cache, t: Ref) {
    && c'.root == c.root && c'.top >= c.top && c'.nextId >= c.nextId
    && (forall r {:trigger c'.heap[r]} {:trigger r in c.heap} | r in c.heap :: r in c'.heap
                                                                               && (r != t ==> c'.heap[r] == c.heap[r]))
    && (forall r {:trigger r in c'.heap} | r in c'.heap && r !in c.heap :: c.top <= r < c'.top)
    && (forall u {:trigger u in c.hash} | u in c.hash :: u in c'.hash && c'.hash[u] == c.hash[u])
    && (forall u {:trigger u in c'.hash} | u in c'.hash && u !in c.hash :: c'.hash[u] !in c.heap && GivenOut(c, c', u))
  }

  lemma GrownTrans(c: Cache, c1: Cache, c2: Cache, t: Ref, x: Ref)
    requires Grown(c, c1, t) && Grown(c1, c2, x) && (x == t || x !in c.heap)
    ensures Grown(c, c2, t)
  {
    forall u | u in c2.hash && u !in c.hash
      ensures c2.hash[u] !in c.heap && GivenOut(c, c2, u)
    {
      if u in c1.hash {
        var n: nat :| c.nextId < n <= c1.nextId && u == Decimal(n);
        assert c.nextId < n <= c2.nextId;
      } else {
        var n: nat :| c1.nextId < n <= c2.nextId && u == Decimal(n);
        assert c.nextId < n <= c2.nextId;
      }
    }
  }

  /** The addresses from `lo` up to `hi`. */
  function Range(lo: Ref, hi: Ref): (s: set<Ref>)
    ensures forall r: Ref :: r in s <==> lo <= r < hi
    decreases hi - lo
  {
    if lo < hi then {lo} + Range(lo + 1, hi) else {}
  }

  ghost function PersonSet(c: Cache): set<Ref> { set p | p in c.heap && c.heap[p].Person? }

  ghost function NumPersons(c: Cache): nat { |PersonSet(c)| }

  // ---------- the two ways of adding a copy ----------

  lemma TickInsertShape(c: Cache, f: Ref, item: Item)
    requires Inv(c) && IsFolder(c, f) && !item.EMail? && Empty(item) && item.uid == NextUid(c)
    ensures Inv(Insert(Tick(c), f, item)) && c.top !in c.heap && item.uid !in c.hash
    ensures var k := KindOf(item);
      Insert(Tick(c), f, item) ==
      Cache(c.heap[c.top := WithParent(item, Some(f))][f := WithList(c.heap[f], k, ListOf(c.heap[f], k) + [c.top])],
            c.hash[item.uid := c.top], c.root, c.nextId + 1, c.top + 1, true)
  {
    TickInv(c);
    InsertInv(Tick(c), f, item);
  }

  lemma TickInsertGrows(c: Cache, f: Ref, item: Item)
    requires Inv(c) && IsFolder(c, f) && !item.EMail? && Empty(item) && item.uid == NextUid(c)
    ensures var c' := Insert(Tick(c), f, item);
      && Inv(c') && Grown(c, c', f)
      && c.top !in c.heap && c'.top == c.top + 1 && c'.nextId == c.nextId + 1
      && c'.heap[f] == WithList(c.heap[f], KindOf(item), ListOf(c.heap[f], KindOf(item)) + [c.top])
      && c.top in c'.heap && c'.heap[c.top] == WithParent(item, Some(f))
      && NumPersons(c') == NumPersons(c) + if item.Person? then 1 else 0
  {
    hide Inv;
    TickInsertShape(c, f, item);
    var k := KindOf(item);
    var c', a, b := Insert(Tick(c), f, item), WithParent(item, Some(f)),
      WithList(c.heap[f], k, ListOf(c.heap[f], k) + [c.top]);
    OneMoreGrows(c, c', f, item.uid, a, b);
    OneMoreCounts(c, c', f, item.uid, a, b);
    hide Grown, NumPersons;
  }

  ghost predicate OneMore(c: Cache, c': Cache, f: Ref, u: Uid, a: Item, b: Item) {
    && c' == Cache(c.heap[c.top := a][f := b], c.hash[u := c.top], c.root, c.nextId + 1, c.top + 1, true)
    && f in c.heap && c.top !in c.heap && u !in c.hash && u == Decimal(c.nextId + 1)
    && c.heap[f].Folder? && b.Folder?
  }

  lemma OneMoreGrows(c: Cache, c': Cache, f: Ref, u: Uid, a: Item, b: Item)
    requires OneMore(c, c', f, u, a, b)
    ensures Grown(c, c', f) && c'.heap[f] == b && c'.heap[c.top] == a
  {
    hide Decimal;
    assert GivenOut(c, c', Decimal(c.nextId + 1));
  }

  lemma OneMoreCounts(c: Cache, c': Cache, f: Ref, u: Uid, a: Item, b: Item)
    requires OneMore(c, c', f, u, a, b)
    ensures NumPersons(c') == NumPersons(c) + if a.Person? then 1 else 0
  {
    hide Decimal;
    var s, s' := PersonSet(c), PersonSet(c');
    assert c.top !in s;
    assert forall p :: p in s' <==> p in s || (p == c.top && a.Person?);
    if a.Person? {
      assert s' == s + {c.top};
    } else {
      assert s' == s;
    }
  }

  lemma EmailMade(c: Cache, p: Ref, e: Item)
    requires Inv(c) && IsPerson(c, p) && e.EMail? && e.uid == NextUid(c)
    ensures var b := MakeEmail(Tick(c), e);
      && Inv(Tick(c)) && Inv(b) && IsPerson(b, p) && Pending(b, c.top) && b.heap[c.top].uid == e.uid
        && GoodUid(b, e.uid)
      && Inv(AddEmail(b, p, c.top)) && c.top !in c.heap && (forall r | r in c.heap :: r < c.top)
        && NextUid(c) !in c.hash
  {
    TickInv(c);
    MakeEmailInv(Tick(c), e);
    MakeEmailKeepsUid(Tick(c), e, e.uid);
    AddEmailInv(MakeEmail(Tick(c), e), p, c.top);
  }

  lemma EmailAdded(c: Cache, p: Ref, e: Item)
    requires IsPerson(c, p) && e.EMail? && e.uid == NextUid(c) && p != c.top && NextUid(c) !in c.hash
    ensures var b := MakeEmail(Tick(c), e); IsPerson(b, p) && Pending(b, c.top)
    ensures AddEmail(MakeEmail(Tick(c), e), p, c.top) ==
      Cache(c.heap[p := c.heap[p].(emails := c.heap[p].emails + [c.top])][c.top := WithParent(e, Some(p))],
            c.hash[e.uid := c.top], c.root, c.nextId + 1, c.top + 1, true)
  {
    var c' := AddEmail(MakeEmail(Tick(c), e), p, c.top);
    assert c'.heap == c.heap[p := c.heap[p].(emails := c.heap[p].emails + [c.top])][c.top := WithParent(e, Some(p))];
  }

  lemma EmailGrows(c: Cache, p: Ref, e: Item)
    requires Inv(c) && IsPerson(c, p) && e.EMail? && e.uid == NextUid(c)
    ensures var b := MakeEmail(Tick(c), e);
      && Inv(Tick(c)) && Inv(b) && IsPerson(b, p) && Pending(b, c.top) && b.heap[c.top].uid == e.uid
        && GoodUid(b, e.uid)
    ensures var c' := AddEmail(MakeEmail(Tick(c), e), p, c.top);
      && Inv(c') && Grown(c, c', p) && c.top !in c.heap && c'.top == c.top + 1
      && c'.heap[p] == c.heap[p].(emails := c.heap[p].emails + [c.top])
      && c.top in c'.heap && c'.heap[c.top] == WithParent(e, Some(p))
      && Owned(c', c.top) && NumPersons(c') == NumPersons(c)
  {
    hide Inv, GoodUid, MakeEmail, AddEmail;
    EmailMade(c, p, e);
    EmailAdded(c, p, e);
    var c' := AddEmail(MakeEmail(Tick(c), e), p, c.top);
    assert GivenOut(c, c', Decimal(c.nextId + 1));
    assert PersonSet(c') == PersonSet(c);
  }

  /** Copying an attribute that has no uid takes one from the counter. */
  function AddAttrib(c: Cache, p: Ref, a: Attrib): Cache
    requires IsPerson(c, p)
  {
    c.(heap := c.heap[p := c.heap[p].(attribs := c.heap[p].attribs + [a])])
  }

  lemma AttribGrows(c: Cache, p: Ref, a: Attrib)
    requires Inv(c) && IsPerson(c, p)
    ensures var c' := AddAttrib(c, p, a);
      && Inv(c') && Grown(c, c', p) && c'.heap[p] == c.heap[p].(attribs := c.heap[p].attribs + [a])
      && c'.top == c.top && NumPersons(c') == NumPersons(c)
  {
    hide Inv;
    var c' := AddAttrib(c, p, a);
    SameRecords(c, c');
    assert PersonSet(c') == PersonSet(c);
  }

  lemma TickGrows(c: Cache, p: Ref)
    requires Inv(c)
    ensures Inv(Tick(c)) && Grown(c, Tick(c), p) && NumPersons(Tick(c)) == NumPersons(c)
  {
    TickInv(c);
    assert PersonSet(Tick(c)) == PersonSet(c);
  }

  lemma JoinGrows(c: Cache, g: Ref, e: Ref)
    requires Inv(c) && IsGroup(c, g) && Owned(c, e)
    ensures var c' := Join(c, g, e);
      && Inv(c') && Grown(c, c', g) && c'.top == c.top && NumPersons(c') == NumPersons(c)
      && c'.heap[g] == (if e in c.heap[g].members then c.heap[g] else c.heap[g].(members := c.heap[g].members + [e]))
  {
    JoinInv(c, g, e);
    hide Inv;
    assert PersonSet(Join(c, g, e)) == PersonSet(c);
  }
}
