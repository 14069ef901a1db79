/** Merging persons: the data part of `addrmerge_do_merge` (src/addrmerge.c:69-143). */
module AddrMerge {
  import opened Items
  import opened CacheState
  import opened CachePrune
  import opened CacheEdit
  import opened AddrCache

  // ---------- one selected email ----------

  /** Taking an email from whoever has it and giving it to `t`. */
  ghost function MoveEmail(c: Cache, t: Ref, e: Ref): Cache
    requires Inv(c) && IsPerson(c, t) && Owned(c, e)
  {
    DetachReady(c, t, e);
    AddEmail(Detach(c, e), t, e)
  }

  lemma DetachReady(c: Cache, t: Ref, e: Ref)
    requires Inv(c) && IsPerson(c, t) && Owned(c, e)
    ensures var d := Detach(c, e);
      Inv(d) && IsPerson(d, t) && Pending(d, e) && GoodUid(d, d.heap[e].uid) && d.heap[e].uid !in d.hash
    ensures IsPerson(c, c.heap[e].parent.value) && e in c.heap[c.heap[e].parent.value].emails && Sub(c, e) == {e}
  {
    var d := Detach(c, e);
    assert EmailOk(c, e);
    DetachInv(c, e);
    SubOfEMail(c, e);
    PrunedItem(c, e, t);
    assert FreshUid(c, c.heap[e].uid);
    forall x | Owned(d, x)
      ensures d.heap[x].uid != d.heap[e].uid
    {
      PrunedItem(c, e, x);
      if c.heap[x].uid == c.heap[e].uid {
        assert Namesakes(c, x, e);
      }
    }
  }

  lemma MoveEmailAt(c: Cache, t: Ref, e: Ref, z: Ref)
    requires Inv(c) && IsPerson(c, t) && Owned(c, e) && z in c.heap
    ensures z in MoveEmail(c, t, e).heap && MoveEmail(c, t, e).heap[z] == GatheredItem(c, t, [e], z)
  {
    hide Inv, Detach, GoodUid, PersonOk;
    DetachReady(c, t, e);
    var p := c.heap[e].parent.value;
    DetachedAt(c, p, e, z);
    DetachedAt(c, p, e, t);
    assert Elems([e]) == {e};
    LosesOne(c, p, e, z);
    assert t != e && e in Detach(c, e).heap;
    assert WithParent(WithParent(c.heap[e], None), Some(t)) == WithParent(c.heap[e], Some(t));
  }

  /** An email is in one person's list, and there only once. */
  lemma LosesOne(c: Cache, p: Ref, e: Ref, z: Ref)
    requires Inv(c) && IsPerson(c, p) && e in c.heap[p].emails
    ensures IsPerson(c, z) ==>
      Without(c.heap[z].emails, {e}) == if z == p then RemoveFirst(c.heap[p].emails, e) else c.heap[z].emails
  {
    assert PersonOk(c, p);
    RemoveFirstIsWithout(c.heap[p].emails, e);
    if IsPerson(c, z) && z != p {
      assert PersonOk(c, z);
      WithoutDisjoint(c.heap[z].emails, {e});
    }
  }

  lemma MoveEmailRest(c: Cache, t: Ref, e: Ref)
    requires Inv(c) && IsPerson(c, t) && Owned(c, e)
    ensures var m := MoveEmail(c, t, e);
      && Inv(m) && m.heap.Keys == c.heap.Keys
      && m == Cache(m.heap, c.hash[c.heap[e].uid := e], c.root, c.nextId, c.top, true)
  {
    hide Inv, Detach, GoodUid;
    DetachReady(c, t, e);
    AddEmailInv(Detach(c, e), t, e);
    DetachShape(c, e);
    OwnHash(c, e);
    UnhashOne(c, {}, e);
    assert HashWithout(c.hash, {}) == c.hash && {} + {e} == {e};
    assert Detach(c, e).heap[e].uid == c.heap[e].uid by {
      DetachedAt(c, c.heap[e].parent.value, e, e);
    }
    assert (c.hash - {c.heap[e].uid})[c.heap[e].uid := e] == c.hash[c.heap[e].uid := e];
  }

  lemma OwnHash(c: Cache, e: Ref)
    requires Inv(c) && Owned(c, e)
    ensures c.heap[e].uid in c.hash ==> c.hash[c.heap[e].uid] == e
  {
    assert EmailOk(c, e);
  }

  // ---------- all selected emails ----------

  /** What becomes of an item when the emails `es` go to `t`: they leave their persons and
      every group, and end, in order, `t`'s list. */
  function GatheredItem(c: Cache, t: Ref, es: seq<Ref>, z: Ref): Item
    requires z in c.heap
  {
    var i := c.heap[z];
    if z in es then WithParent(i, Some(t))
    else if i.Person? then i.(emails := Without(i.emails, Elems(es)) + if z == t then es else [])
    else if i.Group? then i.(members := Without(i.members, Elems(es)))
    else i
  }

  /** The hash once the emails are in it under their uids. */
  function Rehashed(hash: map<Uid, Ref>, h: map<Ref, Item>, es: seq<Ref>): map<Uid, Ref>
    requires forall e | e in es :: e in h
  {
    if es == [] then hash
    else
      var n := |es| - 1;
      Rehashed(hash, h, es[..n])[h[es[n]].uid := es[n]]
  }

  function Gathered(c: Cache, t: Ref, es: seq<Ref>): Cache
    requires forall e | e in es :: e in c.heap
  {
    Cache(map z | z in c.heap :: GatheredItem(c, t, es, z), Rehashed(c.hash, c.heap, es),
          c.root, c.nextId, c.top, c.dirty || es != [])
  }

  lemma GatheredNone(c: Cache, t: Ref)
    ensures Gathered(c, t, []) == c
  {
    assert Elems<Ref>([]) == {};
    forall z | z in c.heap
      ensures GatheredItem(c, t, [], z) == c.heap[z]
    {
      if c.heap[z].Person? {
        WithoutDisjoint(c.heap[z].emails, {});
      } else if c.heap[z].Group? {
        WithoutDisjoint(c.heap[z].members, {});
      }
    }
    assert Gathered(c, t, []).heap == c.heap;
  }

  lemma GatheredTwice(c: Cache, t: Ref, es: seq<Ref>, e: Ref, z: Ref)
    requires IsPerson(c, t) && (forall x | x in es + [e] :: x in c.heap && c.heap[x].EMail?) && e !in es && z in c.heap
    ensures GatheredItem(Gathered(c, t, es), t, [e], z) == GatheredItem(c, t, es + [e], z)
  {
    var i := c.heap[z];
    assert Elems(es + [e]) == Elems(es) + Elems([e]);
    if z !in es && z != e {
      if i.Person? {
        WithoutTwice(i.emails, Elems(es), Elems([e]));
        WithoutConcat(Without(i.emails, Elems(es)), es, Elems([e]));
        WithoutDisjoint(es, Elems([e]));
        var w := Without(i.emails, Elems(es));
        assert w + [] == w;
        assert Without(i.emails, Elems(es + [e])) + es + [e] == Without(i.emails, Elems(es + [e])) + (es + [e]);
      } else if i.Group? {
        WithoutTwice(i.members, Elems(es), Elems([e]));
      }
    }
    assert WithParent(WithParent(i, Some(t)), Some(t)) == WithParent(i, Some(t));
  }

  /** Emails that can be gathered, each once. */
  ghost predicate AllOwned(c: Cache, es: seq<Ref>) {
    NoDup(es) && forall e | e in es :: Owned(c, e)
  }

  lemma GatheredFacts(c: Cache, t: Ref, es: seq<Ref>, e: Ref)
    requires IsPerson(c, t) && AllOwned(c, es + [e]) && AllOwned(c, es)
    ensures Owned(c, e) && e !in es && t !in es && e != t && (es + [e])[..|es|] == es
    ensures var g := Gathered(c, t, es);
      IsPerson(g, t) && Owned(g, e) && g.heap.Keys == c.heap.Keys && g.heap[e].uid == c.heap[e].uid
  {
    OwnedPrefix(c, es, e);
  }

  lemma GatherStep(c: Cache, t: Ref, es: seq<Ref>, e: Ref)
    requires Inv(c) && IsPerson(c, t) && AllOwned(c, es + [e]) && AllOwned(c, es) && Inv(Gathered(c, t, es))
    ensures Owned(c, e)
    ensures var g := Gathered(c, t, es);
      IsPerson(g, t) && Owned(g, e) && MoveEmail(g, t, e) == Gathered(c, t, es + [e]) && Inv(Gathered(c, t, es + [e]))
  {
    hide Inv, MoveEmail, GatheredItem, NoDup;
    GatheredFacts(c, t, es, e);
    var g := Gathered(c, t, es);
    MoveEmailRest(g, t, e);
    var a, b := MoveEmail(g, t, e), Gathered(c, t, es + [e]);
    forall z | z in c.heap
      ensures a.heap[z] == b.heap[z]
    {
      MoveEmailAt(g, t, e, z);
      GatheredTwice(c, t, es, e, z);
    }
    assert a.heap == b.heap;
  }

  lemma OwnedPrefix(c: Cache, es: seq<Ref>, e: Ref)
    requires AllOwned(c, es + [e])
    ensures AllOwned(c, es) && Owned(c, e) && e !in es
  {
    var s := es + [e];
    assert s[|es|] == e;
    forall i | 0 <= i < |es|
      ensures es[i] != e && Owned(c, es[i])
    {
      assert s[i] == es[i] && s[i] in s;
    }
    forall i, j | 0 <= i < j < |es|
      ensures es[i] != es[j]
    {
      assert s[i] != s[j];
    }
  }

  lemma {:induction false} GatheredInv(c: Cache, t: Ref, es: seq<Ref>)
    requires Inv(c) && IsPerson(c, t) && AllOwned(c, es)
    ensures Inv(Gathered(c, t, es))
    decreases |es|
  {
    hide Inv;
    if es == [] {
      GatheredNone(c, t);
    } else {
      var n := |es| - 1;
      assert es == es[..n] + [es[n]];
      OwnedPrefix(c, es[..n], es[n]);
      GatheredInv(c, t, es[..n]);
      GatherStep(c, t, es[..n], es[n]);
    }
  }

  // ---------- one merged person ----------

  /** The emails and the attributes of `p` handed to `t`. */
  function AbsorbedItem(c: Cache, t: Ref, p: Ref, z: Ref): Item
    requires IsPerson(c, t) && IsPerson(c, p) && z in c.heap
  {
    var i := c.heap[z];
    if z == p then c.heap[p].(emails := [], attribs := [])
    else if z == t then c.heap[t].(emails := c.heap[t].emails + c.heap[p].emails,
      attribs := c.heap[t].attribs + c.heap[p].attribs)
    else if i.EMail? && i.parent == Some(p) then WithParent(i, Some(t))
    else i
  }

  function Absorb(c: Cache, t: Ref, p: Ref): Cache
    requires IsPerson(c, t) && IsPerson(c, p)
  {
    c.(heap := map z | z in c.heap :: AbsorbedItem(c, t, p, z))
  }

  ghost predicate TwoPersons(c: Cache, t: Ref, p: Ref) {
    Inv(c) && IsPerson(c, t) && IsPerson(c, p) && t != p
  }

  lemma AbsorbPersons(c: Cache, t: Ref, p: Ref)
    requires TwoPersons(c, t, p)
    ensures PersonsOk(Absorb(c, t, p))
  {
    var b := Absorb(c, t, p);
    assert PersonOk(c, t) && PersonOk(c, p);
    NoDupConcat(c.heap[t].emails, c.heap[p].emails);
    forall q | IsPerson(b, q)
      ensures PersonOk(b, q)
    {
      assert PersonOk(c, q);
      if q == t {
        assert NoDup(b.heap[t].emails);
      }
    }
  }

  lemma AbsorbEmails(c: Cache, t: Ref, p: Ref)
    requires TwoPersons(c, t, p)
    ensures var b := Absorb(c, t, p); EmailsOk(b) && UidsOk(b) && KeysOk(b)
  {
    var b := Absorb(c, t, p);
    forall e | Owned(b, e)
      ensures EmailOk(b, e)
    {
      assert EmailOk(c, e);
    }
    forall d, e | Namesakes(b, d, e)
      ensures d == e
    {
      assert Namesakes(c, d, e);
    }
  }

  lemma AbsorbRooted(c: Cache, t: Ref, p: Ref)
    requires TwoPersons(c, t, p)
    ensures RootedOk(Absorb(c, t, p))
  {
    var b := Absorb(c, t, p);
    var s := set z | z in c.heap && !c.heap[z].EMail?;
    assert SameParents(c.heap, b.heap, s) by {
      forall z | z in s && c.heap[z].parent.Some?
        ensures c.heap[z].parent.value in s
      {
        ParentType(c, z);
      }
    }
    forall r | r in b.heap && b.heap[r].parent.Some?
      ensures Reaches(b.heap, b.root, r)
    {
      if b.heap[r].EMail? {
        var q := b.heap[r].parent.value;
        ParentType(c, r);
        assert q in s && c.heap[q].Person?;
        assert PlacedAt(c, q);
        ReachesAgrees(c.heap, b.heap, s, c.root, q);
        ReachesStep(b.heap, b.root, r);
      } else {
        ReachesAgrees(c.heap, b.heap, s, c.root, r);
      }
    }
  }

  lemma AbsorbInv(c: Cache, t: Ref, p: Ref)
    requires TwoPersons(c, t, p)
    ensures Inv(Absorb(c, t, p))
  {
    hide RootOk, KeysOk, HashedOk, ListsOk, PlacedOk, PersonsOk, EmailsOk, UidsOk, GroupsOk, RootedOk, FreshOk;
    var b := Absorb(c, t, p);
    AbsorbPersons(c, t, p);
    AbsorbEmails(c, t, p);
    AbsorbRooted(c, t, p);
    ForestFrame(c, b);
    GroupFrame(c, b);
    FreshFrame(c, b);
  }

  // ---------- all merged persons ----------

  predicate ArePersons(h: map<Ref, Item>, ps: seq<Ref>) {
    forall p | p in ps :: p in h && h[p].Person?
  }

  /** The lists of the persons of `ps` other than `t`, one after the other. */
  function EmailsOf(h: map<Ref, Item>, t: Ref, ps: seq<Ref>): seq<Ref>
    requires ArePersons(h, ps)
  {
    if ps == [] then []
    else
      var n := |ps| - 1;
      EmailsOf(h, t, ps[..n]) + if ps[n] == t then [] else h[ps[n]].emails
  }

  function AttribsOf(h: map<Ref, Item>, t: Ref, ps: seq<Ref>): seq<Attrib>
    requires ArePersons(h, ps)
  {
    if ps == [] then []
    else
      var n := |ps| - 1;
      AttribsOf(h, t, ps[..n]) + if ps[n] == t then [] else h[ps[n]].attribs
  }

  /** What becomes of an item when the persons `ps` are merged into `t`. */
  function MergedItem(c: Cache, t: Ref, ps: seq<Ref>, z: Ref): Item
    requires IsPerson(c, t) && z in c.heap && ArePersons(c.heap, ps)
  {
    var i := c.heap[z];
    if z == t then c.heap[t].(emails := c.heap[t].emails + EmailsOf(c.heap, t, ps),
      attribs := c.heap[t].attribs + AttribsOf(c.heap, t, ps))
    else if i.EMail? && i.parent.Some? && i.parent.value in ps then WithParent(i, Some(t))
    else if i.Folder? then i.(persons := Without(i.persons, Elems(ps) - {t}))
    else i
  }

  function Merged(c: Cache, t: Ref, ps: seq<Ref>): Cache
    requires IsPerson(c, t) && ArePersons(c.heap, ps)
  {
    var gone := Elems(ps) - {t};
    Cache(map z | z in c.heap && z !in gone :: MergedItem(c, t, ps, z), HashWithout(c.hash, gone),
          c.root, c.nextId, c.top, c.dirty || gone != {})
  }

  lemma MergedNone(c: Cache, t: Ref)
    requires Inv(c) && IsPerson(c, t)
    ensures Merged(c, t, []) == c
  {
    assert Elems<Ref>([]) == {};
    var m := Merged(c, t, []);
    forall z | z in c.heap
      ensures m.heap[z] == c.heap[z]
    {
      if c.heap[z].Folder? {
        WithoutDisjoint(c.heap[z].persons, {});
      }
    }
    assert m.heap == c.heap;
  }

  /** Absorbing and removing one person. */
  lemma MergeOneAt(c: Cache, t: Ref, p: Ref, z: Ref)
    requires TwoPersons(c, t, p) && z in c.heap && z != p
    ensures Sub(Absorb(c, t, p), p) == {p}
    ensures z in Prune(Absorb(c, t, p), p).heap && Prune(Absorb(c, t, p), p).heap[z] == MergedItem(c, t, [p], z)
  {
    hide Inv, Absorb;
    var b := Absorb(c, t, p);
    AbsorbInv(c, t, p);
    AbsorbedAt(c, t, p, p);
    AbsorbedAt(c, t, p, z);
    SubOfPerson(b, p);
    assert Elems<Ref>([]) == {};
    PersonElsewhere(b, p);
    PrunedItem(b, p, z);
    assert Elems([p]) - {t} == {p};
    if c.heap[z].Folder? {
      ScrubFolder(b, p, z);
    } else if c.heap[z].Person? {
      ScrubPerson(b, p, z);
    } else if c.heap[z].Group? {
      ScrubGroup(b, p, {}, z);
      WithoutDisjoint(b.heap[z].members, {});
    }
    assert EmailsOf(c.heap, t, [p]) == c.heap[p].emails by { assert [p][..0] == []; }
    assert AttribsOf(c.heap, t, [p]) == c.heap[p].attribs by { assert [p][..0] == []; }
  }

  lemma AbsorbedAt(c: Cache, t: Ref, p: Ref, z: Ref)
    requires IsPerson(c, t) && IsPerson(c, p)
    ensures var b := Absorb(c, t, p);
      && (z in b.heap <==> z in c.heap) && (z in c.heap ==> b.heap[z] == AbsorbedItem(c, t, p, z))
      && b.root == c.root
  {
  }

  /** A person's parent is a folder. */
  lemma PersonElsewhere(c: Cache, p: Ref)
    requires Inv(c) && IsPerson(c, p)
    ensures p != c.root && c.heap[p].parent.Some? && IsFolder(c, c.heap[p].parent.value)
    ensures c.heap[p].uid in c.hash && c.hash[c.heap[p].uid] == p
  {
    assert PlacedAt(c, p);
  }

  lemma MergedTwice(c: Cache, t: Ref, ps: seq<Ref>, p: Ref, z: Ref)
    requires IsPerson(c, t) && ArePersons(c.heap, ps + [p]) && p !in ps && p != t
    requires z in c.heap && z != p && z !in Elems(ps) - {t}
    ensures ArePersons(c.heap, ps)
    ensures IsPerson(Merged(c, t, ps), t) && IsPerson(Merged(c, t, ps), p)
    ensures MergedItem(Merged(c, t, ps), t, [p], z) == MergedItem(c, t, ps + [p], z)
  {
    var i := c.heap[z];
    var s := ps + [p];
    assert forall q | q in ps :: q in s;
    assert p in s;
    var g := Merged(c, t, ps);
    assert Elems(s) - {t} == (Elems(ps) - {t}) + (Elems([p]) - {t});
    assert g.heap[p] == c.heap[p];
    if z == t {
      MergedTargetGrows(c, t, ps, p);
    } else if i.Folder? {
      WithoutTwice(i.persons, Elems(ps) - {t}, Elems([p]) - {t});
    } else if i.EMail? {
      assert WithParent(WithParent(i, Some(t)), Some(t)) == WithParent(i, Some(t));
    }
  }

  lemma EmailsOfGrow(h: map<Ref, Item>, t: Ref, ps: seq<Ref>, p: Ref)
    requires ArePersons(h, ps + [p]) && ArePersons(h, ps) && p != t
    ensures EmailsOf(h, t, ps + [p]) == EmailsOf(h, t, ps) + h[p].emails
      && AttribsOf(h, t, ps + [p]) == AttribsOf(h, t, ps) + h[p].attribs
  {
    assert (ps + [p])[..|ps|] == ps;
  }

  lemma EmailsOfOne(h: map<Ref, Item>, t: Ref, p: Ref)
    requires ArePersons(h, [p]) && p in h && h[p].Person? && p != t
    ensures EmailsOf(h, t, [p]) == h[p].emails && AttribsOf(h, t, [p]) == h[p].attribs
  {
    assert [p][..0] == [];
    assert [] + h[p].attribs == h[p].attribs && [] + h[p].emails == h[p].emails;
  }

  /** The target's lists grow by one more person's. */
  lemma MergedTargetGrows(c: Cache, t: Ref, ps: seq<Ref>, p: Ref)
    requires IsPerson(c, t) && ArePersons(c.heap, ps + [p]) && ArePersons(c.heap, ps) && p !in ps && p != t
    requires var g := Merged(c, t, ps); IsPerson(g, t) && IsPerson(g, p) && g.heap[p] == c.heap[p]
    ensures MergedItem(Merged(c, t, ps), t, [p], t) == MergedItem(c, t, ps + [p], t)
  {
    var g := Merged(c, t, ps);
    assert p in ps + [p] && g.heap[t] == MergedItem(c, t, ps, t);
    hide Merged;
    EmailsOfOne(g.heap, t, p);
    EmailsOfGrow(c.heap, t, ps, p);
    hide EmailsOf, AttribsOf, ArePersons;
    Associative(c.heap[t].emails, EmailsOf(c.heap, t, ps), c.heap[p].emails);
    Associative(c.heap[t].attribs, AttribsOf(c.heap, t, ps), c.heap[p].attribs);
  }

  /** Persons to merge, each once. */
  ghost predicate AllPersons(c: Cache, ps: seq<Ref>) {
    NoDup(ps) && ArePersons(c.heap, ps)
  }

  lemma PersonsPrefix(c: Cache, ps: seq<Ref>, p: Ref)
    requires AllPersons(c, ps + [p])
    ensures AllPersons(c, ps) && IsPerson(c, p) && p !in ps && (ps + [p])[..|ps|] == ps
  {
    var s := ps + [p];
    assert s[|ps|] == p;
    assert forall i | 0 <= i < |ps| :: s[i] == ps[i] && s[i] in s;
  }

  lemma MergeOneRest(c: Cache, t: Ref, p: Ref)
    requires TwoPersons(c, t, p)
    ensures var a := Prune(Absorb(c, t, p), p);
      && Inv(a) && a.heap.Keys == c.heap.Keys - {p}
      && a == Cache(a.heap, HashWithout(c.hash, {p}), c.root, c.nextId, c.top, true)
  {
    AbsorbInv(c, t, p);
    MergeOneAt(c, t, p, t);
    AbsorbedAt(c, t, p, p);
    PersonElsewhere(Absorb(c, t, p), p);
    PruneInv(Absorb(c, t, p), p);
  }

  lemma MergeStep(c: Cache, t: Ref, ps: seq<Ref>, p: Ref)
    requires Inv(c) && IsPerson(c, t) && AllPersons(c, ps + [p]) && AllPersons(c, ps) && p != t && Inv(Merged(c, t, ps))
    ensures var g := Merged(c, t, ps);
      && TwoPersons(g, t, p) && g.heap[p] == c.heap[p] && Prune(Absorb(g, t, p), p) == Merged(c, t, ps + [p])
      && Inv(Merged(c, t, ps + [p]))
  {
    hide Inv, MergedItem, Prune, Absorb, AbsorbedItem, NoDup;
    MergedFacts(c, t, ps, p);
    var g := Merged(c, t, ps);
    MergeOneRest(g, t, p);
    var a, b := Prune(Absorb(g, t, p), p), Merged(c, t, ps + [p]);
    MergedGone(c, t, ps, p);
    assert a.heap.Keys == b.heap.Keys;
    forall z | z in b.heap
      ensures a.heap[z] == b.heap[z]
    {
      MergeOneAt(g, t, p, z);
      MergedTwice(c, t, ps, p, z);
    }
    HashWithoutTwice(c.hash, Elems(ps) - {t}, {p});
    assert a.heap == b.heap;
  }

  lemma MergedGone(c: Cache, t: Ref, ps: seq<Ref>, p: Ref)
    requires p != t
    ensures Elems(ps + [p]) - {t} == (Elems(ps) - {t}) + {p}
  {
  }

  lemma MergedFacts(c: Cache, t: Ref, ps: seq<Ref>, p: Ref)
    requires Inv(c) && IsPerson(c, t) && AllPersons(c, ps + [p]) && AllPersons(c, ps) && p != t
    ensures IsPerson(c, p) && p !in ps && ArePersons(c.heap, ps + [p])
    ensures var g := Merged(c, t, ps); IsPerson(g, t) && IsPerson(g, p) && g.heap[p] == c.heap[p]
    ensures (ps + [p])[..|ps|] == ps
  {
    PersonsPrefix(c, ps, p);
  }

  lemma {:induction false} MergedInv(c: Cache, t: Ref, ps: seq<Ref>)
    requires Inv(c) && IsPerson(c, t) && AllPersons(c, ps)
    ensures Inv(Merged(c, t, ps))
    decreases |ps|
  {
    hide Inv;
    if ps == [] {
      MergedNone(c, t);
    } else {
      var n := |ps| - 1;
      var p := ps[n];
      assert ps == ps[..n] + [p];
      PersonsPrefix(c, ps[..n], p);
      MergedInv(c, t, ps[..n]);
      if p == t {
        MergedTarget(c, t, ps[..n]);
      } else {
        MergeStep(c, t, ps[..n], p);
      }
    }
  }

  /** The target itself is passed over. */
  lemma MergedTarget(c: Cache, t: Ref, ps: seq<Ref>)
    requires Inv(c) && IsPerson(c, t) && AllPersons(c, ps + [t]) && AllPersons(c, ps)
    ensures Merged(c, t, ps + [t]) == Merged(c, t, ps)
  {
    PersonsPrefix(c, ps, t);
    assert Elems(ps + [t]) - {t} == Elems(ps) - {t};
    var a, b := Merged(c, t, ps + [t]), Merged(c, t, ps);
    forall z | z in b.heap
      ensures a.heap[z] == b.heap[z]
    {
      assert c.heap[z].EMail? && c.heap[z].parent == Some(t) ==> WithParent(c.heap[z], Some(t)) == c.heap[z];
      assert EmailsOf(c.heap, t, ps + [t]) == EmailsOf(c.heap, t, ps);
      assert AttribsOf(c.heap, t, ps + [t]) == AttribsOf(c.heap, t, ps);
    }
    assert a.heap == b.heap;
  }

  // ---------- the whole merge ----------

  /** The target under the names of `n`. */
  function Renamed(c: Cache, t: Ref, n: Ref): Cache
    requires IsPerson(c, t) && IsPerson(c, n)
  {
    if n == t then c
    else
      var i := c.heap[n];
      c.(heap := c.heap[t := c.heap[t].(firstName := i.firstName, lastName := i.lastName,
        nickName := i.nickName, name := i.name)])
  }

  lemma RenamedInv(c: Cache, t: Ref, n: Ref)
    requires Inv(c) && IsPerson(c, t) && IsPerson(c, n)
    ensures Inv(Renamed(c, t, n))
  {
    var b := Renamed(c, t, n);
    forall z | z in c.heap
      ensures z in b.heap && b.heap[z].uid == c.heap[z].uid && b.heap[z].parent == c.heap[z].parent
      ensures z != t ==> b.heap[z] == c.heap[z]
      ensures c.heap[z].Person? ==> b.heap[z].Person? && b.heap[z].emails == c.heap[z].emails
    {
    }
    SameRecords(c, b);
  }

  function MergeAll(c: Cache, t: Ref, n: Ref, es: seq<Ref>, ps: seq<Ref>): Cache
    requires IsPerson(c, t) && IsPerson(c, n) && AllOwned(c, es) && AllPersons(c, ps)
  {
    Merged(Gathered(Renamed(c, t, n), t, es), t, ps).(dirty := true)
  }

  ghost predicate Mergeable(c: Cache, t: Ref, n: Ref, es: seq<Ref>, ps: seq<Ref>) {
    Inv(c) && IsPerson(c, t) && IsPerson(c, n) && AllOwned(c, es) && AllPersons(c, ps)
  }

  lemma MergeInv(c: Cache, t: Ref, n: Ref, es: seq<Ref>, ps: seq<Ref>)
    requires Mergeable(c, t, n, es, ps)
    ensures Inv(MergeAll(c, t, n, es, ps))
  {
    hide Inv, Merged, Gathered;
    RenamedInv(c, t, n);
    var b := Renamed(c, t, n);
    GatheredInv(b, t, es);
    GatheredReady(b, t, es, ps);
    MergedInv(Gathered(b, t, es), t, ps);
    DirtyInv(Merged(Gathered(b, t, es), t, ps));
  }

  lemma GatheredReady(c: Cache, t: Ref, es: seq<Ref>, ps: seq<Ref>)
    requires IsPerson(c, t) && AllOwned(c, es) && AllPersons(c, ps)
    ensures IsPerson(Gathered(c, t, es), t) && AllPersons(Gathered(c, t, es), ps)
  {
  }

  lemma {:induction false} RehashedUids(hash: map<Uid, Ref>, h: map<Ref, Item>, es: seq<Ref>, u: Uid)
    requires forall e | e in es :: e in h
    ensures u in Rehashed(hash, h, es) <==> u in hash || u in UidsOf(h, es)
    ensures u in Rehashed(hash, h, es) ==>
      (u in hash && Rehashed(hash, h, es)[u] == hash[u])
        || (Rehashed(hash, h, es)[u] in es && h[Rehashed(hash, h, es)[u]].uid == u)
    decreases |es|
  {
    if es != [] {
      var n := |es| - 1;
      RehashedUids(hash, h, es[..n], u);
      assert es == es[..n] + [es[n]];
      assert UidsOf(h, es) == UidsOf(h, es[..n]) + {h[es[n]].uid};
    }
  }

  /** Of a person's emails those that were selected have gone to the target before. */
  lemma {:induction false} EmailsOfGathered(c: Cache, t: Ref, es: seq<Ref>, ps: seq<Ref>)
    requires IsPerson(c, t) && AllOwned(c, es) && ArePersons(c.heap, ps)
    ensures var g := Gathered(c, t, es);
      ArePersons(g.heap, ps) && EmailsOf(g.heap, t, ps) == Without(EmailsOf(c.heap, t, ps), Elems(es))
    decreases |ps|
  {
    var g := Gathered(c, t, es);
    if ps != [] {
      var n := |ps| - 1;
      EmailsOfGathered(c, t, es, ps[..n]);
      var mine := if ps[n] == t then [] else c.heap[ps[n]].emails;
      WithoutConcat(EmailsOf(c.heap, t, ps[..n]), mine, Elems(es));
      if ps[n] != t {
        var w := Without(mine, Elems(es));
        assert w + [] == w && g.heap[ps[n]].emails == w;
      }
    }
  }

  /** The persons that a merge removes. */
  function Gone(t: Ref, ps: seq<Ref>): set<Ref> { Elems(ps) - {t} }

  lemma {:induction false} EmailsOfWhom(c: Cache, t: Ref, ps: seq<Ref>, e: Ref)
    requires Inv(c) && IsPerson(c, t) && ArePersons(c.heap, ps)
    ensures e in EmailsOf(c.heap, t, ps) <==> Owned(c, e) && c.heap[e].parent.value in Gone(t, ps)
    decreases |ps|
  {
    if ps != [] {
      var n := |ps| - 1;
      EmailsOfWhom(c, t, ps[..n], e);
      assert ps == ps[..n] + [ps[n]];
      assert PersonOk(c, ps[n]);
      if Owned(c, e) {
        assert EmailOk(c, e);
      }
    }
  }

  /** One item, before and after. */
  function MergedFrom(c: Cache, t: Ref, es: seq<Ref>, ps: seq<Ref>, z: Ref): Item
    requires z in c.heap
  {
    var i := c.heap[z];
    match i
    case Folder(_, _, _, _, _, _, _) => i.(persons := Without(i.persons, Gone(t, ps)))
    case Person(_, _, _, _, _, _, _, _) => i.(emails := Without(i.emails, Elems(es)))
    case EMail(_, _, _, _, _) => if z in es || (i.parent.Some? && i.parent.value in ps) then WithParent(i, Some(t))
      else i
    case Group(_, _, _, _, _) => i.(members := Without(i.members, Elems(es)))
  }

  lemma MergedFromAt(c: Cache, t: Ref, n: Ref, es: seq<Ref>, ps: seq<Ref>, z: Ref)
    requires Mergeable(c, t, n, es, ps)
    ensures z in MergeAll(c, t, n, es, ps).heap <==> z in c.heap && z !in Gone(t, ps)
    ensures z in c.heap && z !in Gone(t, ps) && z != t ==>
      MergeAll(c, t, n, es, ps).heap[z] == MergedFrom(c, t, es, ps, z)
  {
    hide Inv, NoDup, MergedItem, GatheredItem;
    var b := Renamed(c, t, n);
    GatheredReady(b, t, es, ps);
    var g := Gathered(b, t, es);
    assert AllOwned(b, es);
    if z in c.heap && z !in Gone(t, ps) && z != t {
      MergedFromSteps(c, t, n, es, ps, z);
    }
  }

  lemma MergedFromSteps(c: Cache, t: Ref, n: Ref, es: seq<Ref>, ps: seq<Ref>, z: Ref)
    requires Mergeable(c, t, n, es, ps) && z in c.heap && z != t
    ensures var g := Gathered(Renamed(c, t, n), t, es);
      IsPerson(g, t) && ArePersons(g.heap, ps) && MergedItem(g, t, ps, z) == MergedFrom(c, t, es, ps, z)
  {
    hide Inv, NoDup;
    var b := Renamed(c, t, n);
    GatheredReady(b, t, es, ps);
    assert z in es ==> Owned(c, z);
    if IsPerson(c, z) {
      var w := Without(c.heap[z].emails, Elems(es));
      assert w + [] == w;
    } else if c.heap[z].EMail? {
      assert WithParent(WithParent(c.heap[z], Some(t)), Some(t)) == WithParent(c.heap[z], Some(t));
    }
  }

  /** A merge loses no email: the target ends with its own emails, the selected ones and those of
      the merged persons, each exactly once, and every email is where the dialog says. */
  lemma MergeKeepsEmails(c: Cache, t: Ref, n: Ref, es: seq<Ref>, ps: seq<Ref>)
    requires Mergeable(c, t, n, es, ps)
    ensures var m := MergeAll(c, t, n, es, ps);
      && Inv(m) && IsPerson(m, t) && NoDup(m.heap[t].emails)
      && m.heap[t].emails == Without(c.heap[t].emails, Elems(es)) + es + Without(EmailsOf(c.heap, t, ps), Elems(es))
      && (forall e :: Owned(c, e) <==> Owned(m, e))
      && (forall e | Owned(c, e) && Owned(m, e) :: m.heap[e] ==
            if e in es || c.heap[e].parent.value in ps then WithParent(c.heap[e], Some(t)) else c.heap[e])
      && (forall e | Owned(c, e) :: e in m.heap[t].emails <==> e in es || c.heap[e].parent.value in ps
                                                               || c.heap[e].parent == Some(t))
  {
    hide Inv, MergeAll, NoDup;
    MergeInv(c, t, n, es, ps);
    var m := MergeAll(c, t, n, es, ps);
    MergeTarget(c, t, n, es, ps);
    forall e
      ensures Owned(c, e) <==> Owned(m, e)
      ensures Owned(c, e) ==> m.heap[e] == MergedFrom(c, t, es, ps, e)
      ensures Owned(m, e) ==> (e in m.heap[t].emails <==> m.heap[e].parent == Some(t))
    {
      MergedFromAt(c, t, n, es, ps, e);
      OwnersList(m, t, e);
    }
  }

  lemma OwnersList(c: Cache, t: Ref, e: Ref)
    requires Inv(c) && IsPerson(c, t)
    ensures NoDup(c.heap[t].emails)
    ensures Owned(c, e) ==> (e in c.heap[t].emails <==> c.heap[e].parent == Some(t))
  {
    assert PersonOk(c, t);
    if Owned(c, e) {
      assert EmailOk(c, e);
    }
  }

  lemma {:induction false} EmailsOfRenamed(c: Cache, t: Ref, n: Ref, ps: seq<Ref>)
    requires IsPerson(c, t) && IsPerson(c, n) && ArePersons(c.heap, ps)
    ensures ArePersons(Renamed(c, t, n).heap, ps) && EmailsOf(Renamed(c, t, n).heap, t, ps) == EmailsOf(c.heap, t, ps)
    decreases |ps|
  {
    if ps != [] {
      EmailsOfRenamed(c, t, n, ps[..|ps| - 1]);
    }
  }

  lemma MergeTarget(c: Cache, t: Ref, n: Ref, es: seq<Ref>, ps: seq<Ref>)
    requires Mergeable(c, t, n, es, ps)
    ensures var m := MergeAll(c, t, n, es, ps);
      && IsPerson(m, t) && NoDup(m.heap[t].emails)
      && m.heap[t].emails == Without(c.heap[t].emails, Elems(es)) + es + Without(EmailsOf(c.heap, t, ps), Elems(es))
  {
    var b := Renamed(c, t, n);
    MergeInv(c, t, n, es, ps);
    hide Inv;
    assert t !in es && AllOwned(b, es);
    EmailsOfGathered(b, t, es, ps);
    EmailsOfRenamed(c, t, n, ps);
    OwnersList(MergeAll(c, t, n, es, ps), t, t);
  }

  lemma {:induction false} AttribsOfRenamed(c: Cache, t: Ref, n: Ref, ps: seq<Ref>)
    requires IsPerson(c, t) && IsPerson(c, n) && ArePersons(c.heap, ps)
    ensures ArePersons(Renamed(c, t, n).heap, ps) && AttribsOf(Renamed(c, t, n).heap, t, ps) == AttribsOf(c.heap, t, ps)
    decreases |ps|
  {
    if ps != [] {
      AttribsOfRenamed(c, t, n, ps[..|ps| - 1]);
    }
  }

  lemma {:induction false} AttribsOfGathered(c: Cache, t: Ref, es: seq<Ref>, ps: seq<Ref>)
    requires IsPerson(c, t) && AllOwned(c, es) && ArePersons(c.heap, ps)
    ensures var g := Gathered(c, t, es);
      ArePersons(g.heap, ps) && AttribsOf(g.heap, t, ps) == AttribsOf(c.heap, t, ps)
    decreases |ps|
  {
    if ps != [] {
      AttribsOfGathered(c, t, es, ps[..|ps| - 1]);
    }
  }

  /** The target of a merge takes all the names of the person that was chosen for them, stays where it
      was under its uid, and has its own attributes and then those of the merged persons. */
  lemma MergeTakesNames(c: Cache, t: Ref, n: Ref, es: seq<Ref>, ps: seq<Ref>)
    requires Mergeable(c, t, n, es, ps)
    ensures var m := MergeAll(c, t, n, es, ps);
      && IsPerson(m, t) && m.heap[t].uid == c.heap[t].uid && m.heap[t].parent == c.heap[t].parent
      && m.heap[t].firstName == c.heap[n].firstName && m.heap[t].lastName == c.heap[n].lastName
      && m.heap[t].nickName == c.heap[n].nickName && m.heap[t].name == c.heap[n].name
      && m.heap[t].attribs == c.heap[t].attribs + AttribsOf(c.heap, t, ps)
  {
    var b := Renamed(c, t, n);
    hide Inv;
    assert t !in es && AllOwned(b, es) && ArePersons(b.heap, ps);
    AttribsOfRenamed(c, t, n, ps);
    AttribsOfGathered(b, t, es, ps);
    GatheredReady(b, t, es, ps);
  }

  /** What one after the other means for the emails and attributes of the merged persons: nothing of the
      target's own, and of the rest what comes from the persons in front and then from those behind. */
  lemma {:induction false} MergedInTurn(h: map<Ref, Item>, t: Ref, ps: seq<Ref>, qs: seq<Ref>, p: Ref)
    requires ArePersons(h, ps) && ArePersons(h, qs) && p in h && h[p].Person?
    ensures ArePersons(h, ps + qs) && EmailsOf(h, t, ps + qs) == EmailsOf(h, t, ps) + EmailsOf(h, t, qs)
    ensures AttribsOf(h, t, ps + qs) == AttribsOf(h, t, ps) + AttribsOf(h, t, qs)
    ensures EmailsOf(h, t, [p]) == if p == t then [] else h[p].emails
    ensures AttribsOf(h, t, [p]) == if p == t then [] else h[p].attribs
    decreases |qs|
  {
    hide EmailsOf, AttribsOf;
    MergedAlone(h, t, p);
    if qs == [] {
      assert ps + qs == ps;
    } else {
      var n := |qs| - 1;
      MergedInTurn(h, t, ps, qs[..n], p);
      OneMerged(h, t, ps + qs[..n], qs[n]);
      OneMerged(h, t, qs[..n], qs[n]);
      assert ps + qs[..n] + [qs[n]] == ps + qs && qs[..n] + [qs[n]] == qs;
      Associative(EmailsOf(h, t, ps), EmailsOf(h, t, qs[..n]), if qs[n] == t then [] else h[qs[n]].emails);
      Associative(AttribsOf(h, t, ps), AttribsOf(h, t, qs[..n]), if qs[n] == t then [] else h[qs[n]].attribs);
    }
  }

  lemma MergedAlone(h: map<Ref, Item>, t: Ref, p: Ref)
    requires p in h && h[p].Person?
    ensures EmailsOf(h, t, []) == [] && AttribsOf(h, t, []) == []
    ensures EmailsOf(h, t, [p]) == if p == t then [] else h[p].emails
    ensures AttribsOf(h, t, [p]) == if p == t then [] else h[p].attribs
  {
    assert [p][..0] == [];
  }

  lemma OneMerged(h: map<Ref, Item>, t: Ref, ps: seq<Ref>, p: Ref)
    requires ArePersons(h, ps) && p in h && h[p].Person?
    ensures ArePersons(h, ps + [p])
    ensures EmailsOf(h, t, ps + [p]) == EmailsOf(h, t, ps) + if p == t then [] else h[p].emails
    ensures AttribsOf(h, t, ps + [p]) == AttribsOf(h, t, ps) + if p == t then [] else h[p].attribs
  {
    assert (ps + [p])[..|ps|] == ps;
  }

  /** A merge takes from the hash exactly the merged persons and puts the selected emails in it;
      every group keeps, in order, all its members but the selected emails; every other person
      keeps its emails but the selected ones, and folders lose the merged persons only. */
  lemma MergeKeepsRest(c: Cache, t: Ref, n: Ref, es: seq<Ref>, ps: seq<Ref>)
    requires Mergeable(c, t, n, es, ps)
    ensures var m := MergeAll(c, t, n, es, ps);
      && m.heap.Keys == c.heap.Keys - Gone(t, ps)
      && (forall u :: u in m.hash <==> (u in c.hash && c.hash[u] !in Gone(t, ps)) || u in UidsOf(c.heap, es))
      && (forall g | IsGroup(c, g) :: g in m.heap
                                      && m.heap[g] == c.heap[g].(members := Without(c.heap[g].members, Elems(es))))
      && (forall p | IsPerson(c, p) && p != t && p !in ps ::
            p in m.heap && m.heap[p] == c.heap[p].(emails := Without(c.heap[p].emails, Elems(es))))
      && (forall f | IsFolder(c, f) :: f in m.heap
                                       && m.heap[f] == c.heap[f].(persons := Without(c.heap[f].persons, Gone(t, ps))))
  {
    hide Inv, MergeAll, NoDup;
    var m := MergeAll(c, t, n, es, ps);
    forall u
      ensures u in m.hash <==> (u in c.hash && c.hash[u] !in Gone(t, ps)) || u in UidsOf(c.heap, es)
    {
      MergeHash(c, t, n, es, ps, u);
    }
    forall z
      ensures z in m.heap <==> z in c.heap && z !in Gone(t, ps)
      ensures z in m.heap && z != t ==> m.heap[z] == MergedFrom(c, t, es, ps, z)
      ensures z in Gone(t, ps) ==> IsPerson(c, z)
    {
      MergedFromAt(c, t, n, es, ps, z);
    }
  }

  lemma MergeHash(c: Cache, t: Ref, n: Ref, es: seq<Ref>, ps: seq<Ref>, u: Uid)
    requires Mergeable(c, t, n, es, ps)
    ensures u in MergeAll(c, t, n, es, ps).hash <==> (u in c.hash && c.hash[u] !in Gone(t, ps))
                                                     || u in UidsOf(c.heap, es)
  {
    var b := Renamed(c, t, n);
    RehashedUids(b.hash, b.heap, es, u);
    assert UidsOf(b.heap, es) == UidsOf(c.heap, es);
    if u in UidsOf(c.heap, es) {
      var e :| e in es && e in c.heap && c.heap[e].uid == u;
      OwnHash(c, e);
    }
  }

  // ---------- the loops ----------

  /** Halfway through the emails of `p`. */
  function Absorbing(h: map<Ref, Item>, t: Ref, p: Ref, moved: seq<Ref>): map<Ref, Item>
    requires t in h && h[t].Person?
  {
    map z | z in h ::
      if z == t then h[t].(emails := h[t].emails + moved)
      else if z in moved then WithParent(h[z], Some(t))
      else h[z]
  }

  lemma AbsorbOneMore(h: map<Ref, Item>, t: Ref, p: Ref, es: seq<Ref>, i: nat)
    requires t in h && h[t].Person? && i < |es| && es[i] in h && es[i] != t
    ensures var g := Absorbing(h, t, p, es[..i]);
      var g1 := g[t := g[t].(emails := g[t].emails + [es[i]])];
      g1[es[i] := WithParent(g1[es[i]], Some(t))] == Absorbing(h, t, p, es[..i + 1])
  {
    TakeMore(es, i);
    assert h[t].emails + es[..i] + [es[i]] == h[t].emails + es[..i + 1];
    assert WithParent(WithParent(h[es[i]], Some(t)), Some(t)) == WithParent(h[es[i]], Some(t));
  }

  lemma AbsorbReady(c: Cache, t: Ref, p: Ref)
    requires TwoPersons(c, t, p)
    ensures var es := c.heap[p].emails;
      && NoDup(es) && (forall e | e in es :: e in c.heap && c.heap[e].EMail? && e !in c.heap[t].emails)
      && (forall z | z in c.heap :: z in es <==> c.heap[z].EMail? && c.heap[z].parent == Some(p))
  {
    assert PersonOk(c, t) && PersonOk(c, p);
    forall z | z in c.heap && c.heap[z].EMail? && c.heap[z].parent == Some(p)
      ensures z in c.heap[p].emails
    {
      assert EmailOk(c, z);
    }
  }

  lemma AbsorbDone(c: Cache, t: Ref, p: Ref)
    requires TwoPersons(c, t, p)
    ensures var h := Absorbing(c.heap, t, p, c.heap[p].emails);
      && t in h && h[t].Person? && p in h && h[p] == c.heap[p]
      && h[p := h[p].(emails := [], attribs := [])][t := h[t].(attribs := h[t].attribs + h[p].attribs)] ==
        Absorb(c, t, p).heap
  {
    AbsorbReady(c, t, p);
  }

  /** The two inner loops of `addrmerge_do_merge`: the emails and attributes of one person. */
  method TakeOver(cache: AddressCache, t: Ref, p: Ref)
    requires TwoPersons(cache.View(), t, p)
    modifies cache`heap
    ensures cache.View() == Absorb(old(cache.View()), t, p)
  {
    ghost var h := cache.heap;
    AbsorbReady(cache.View(), t, p);
    AbsorbDone(cache.View(), t, p);
    hide TwoPersons, Absorb, NoDup;
    var node := cache.heap[p].emails;
    var i := 0;
    assert h[t].emails + node[..0] == h[t].emails;
    while i < |node|
      invariant 0 <= i <= |node|
      invariant cache.heap == Absorbing(h, t, p, node[..i])
    {
      var email := node[i];
      if email !in cache.heap[t].emails {
        cache.heap := cache.heap[t := cache.heap[t].(emails := cache.heap[t].emails + [email])];
        cache.heap := cache.heap[email := WithParent(cache.heap[email], Some(t))];
      }
      AbsorbOneMore(h, t, p, node, i);
      i := i + 1;
    }
    assert node[..i] == node;
    cache.heap := cache.heap[p := cache.heap[p].(emails := [])];
    var attribs := cache.heap[p].attribs;
    ghost var own := cache.heap[t].attribs;
    ghost var k := cache.heap;
    var j := 0;
    assert own + attribs[..0] == own && k[t].(attribs := own) == k[t];
    while j < |attribs|
      invariant 0 <= j <= |attribs|
      invariant t in k && k[t].Person? && cache.heap == k[t := k[t].(attribs := own + attribs[..j])]
    {
      cache.heap := cache.heap[t := cache.heap[t].(attribs := cache.heap[t].attribs + [attribs[j]])];
      assert own + attribs[..j] + [attribs[j]] == own + attribs[..j + 1];
      j := j + 1;
    }
    assert attribs[..j] == attribs;
    cache.heap := cache.heap[p := cache.heap[p].(attribs := [])];
  }

  /** Taking the person out of its folder's list beforehand makes no difference, whichever
      folder is on display. */
  lemma UnlinkTwice(c: Cache, p: Ref, f: Ref)
    requires Inv(c) && IsPerson(c, p) && IsFolder(c, f)
    ensures var h := c.heap[f := c.heap[f].(persons := RemoveFirst(c.heap[f].persons, p))];
      && PlacedAt(c, p) && GroupsFound(h, c.hash)
      && Unlink(GroupsWithout(h, {}), p) == Unlink(GroupsWithout(c.heap, {}), p)
  {
    hide Inv;
    var h := c.heap[f := c.heap[f].(persons := RemoveFirst(c.heap[f].persons, p))];
    InvGroupsFound(c);
    PersonElsewhere(c, p);
    PlacedPerson(c, p, f);
    GroupsWithoutNone(h);
    GroupsWithoutNone(c.heap);
    var s := c.heap[f].persons;
    RemoveFirstIsWithout(s, p);
    WithoutNoDup(s, {p});
    RemoveFirstIsWithout(Without(s, {p}), p);
    WithoutTwice(s, {p}, {p});
    assert {p} + {p} == {p};
    if c.heap[p].parent != Some(f) {
      WithoutDisjoint(s, {p});
      assert c.heap[f].(persons := s) == c.heap[f];
    } else {
      assert KindOf(c.heap[p]) == PersonKind;
      var w := RemoveFirst(s, p);
      assert RemoveFirst(w, p) == w && h[f] == c.heap[f].(persons := w);
      assert WithList(h[f], PersonKind, w) == WithList(c.heap[f], PersonKind, w);
      var k := WithList(c.heap[f], PersonKind, w);
      assert h[f := k] == c.heap[f := k];
    }
  }

  lemma PlacedPerson(c: Cache, p: Ref, f: Ref)
    requires Inv(c) && IsPerson(c, p) && IsFolder(c, f)
    ensures PlacedAt(c, p) && NoDup(c.heap[f].persons) && (p in c.heap[f].persons <==> c.heap[p].parent == Some(f))
  {
    assert PlacedAt(c, p);
    assert ListOk(c.heap, f, PersonKind) && c.heap[f].persons == ListOf(c.heap[f], PersonKind);
  }

  lemma {:induction false} DropReady(c: Cache, p: Ref, pobj: Option<Ref>)
    requires Inv(c) && IsPerson(c, p) && c.heap[p].emails == [] && (pobj.Some? ==> IsFolder(c, pobj.value))
    ensures var h := if pobj.Some? then c.heap[pobj.value :=
      c.heap[pobj.value].(persons := RemoveFirst(c.heap[pobj.value].persons, p))]
                     else c.heap;
      && PlacedAt(c, p) && GroupsFound(h, c.hash) && EmailsHashed(h, c.hash, h[p].emails)
      && IsFolder(c, c.heap[p].parent.value)
      && var g := GroupsWithout(h, Elems<Ref>([]));
      && p in g && g[p].Person? && g[p].parent == c.heap[p].parent && g[p].parent.value in g
        && g[g[p].parent.value].Folder?
      && Cache(Unlink(g, p) - Elems([]), c.hash - UidsOf(h, []) - {c.heap[p].uid}, c.root, c.nextId, c.top, true) ==
        Prune(c, p)
  {
    hide Inv, Prune, GroupsFound;
    PersonStep(c, p);
    assert Elems<Ref>([]) == {};
    if pobj.Some? {
      UnlinkTwice(c, p, pobj.value);
    }
  }

  lemma MoveSteps(c: Cache, t: Ref, e: Ref)
    requires Inv(c) && IsPerson(c, t) && Owned(c, e)
    ensures var p := c.heap[e].parent.value;
      IsPerson(c, p) && e in c.heap[p].emails
    ensures var d := Detach(c, e);
      Inv(d) && IsPerson(d, t) && Pending(d, e) && GoodUid(d, d.heap[e].uid) && MoveEmail(c, t, e) == AddEmail(d, t, e)
  {
    DetachReady(c, t, e);
  }

  /** The first loop: each selected email goes from its person to the target. */
  method GatherEmails(cache: AddressCache, target: Ref, emails: seq<Ref>)
    requires Inv(cache.View()) && IsPerson(cache.View(), target) && AllOwned(cache.View(), emails)
    modifies cache`heap, cache`itemHash, cache`dirtyFlag
    ensures cache.View() == Gathered(old(cache.View()), target, emails) && Inv(cache.View())
  {
    hide Inv, Gathered, NoDup, MoveEmail, AddEmail, Detach, GoodUid, AllOwned;
    ghost var c := cache.View();
    var i := 0;
    GatheredNone(c, target);
    NothingYet(c);
    assert emails[..0] == [];
    while i < |emails|
      invariant 0 <= i <= |emails| && AllOwned(c, emails[..i])
      invariant (forall e | e in emails[..i] :: e in c.heap) && cache.View() == Gathered(c, target, emails[..i])
        && Inv(cache.View())
    {
      var email := emails[i];
      OwnedUpTo(c, emails, i);
      GatherStep(c, target, emails[..i], email);
      MoveSteps(cache.View(), target, email);
      var person := cache.heap[email].parent.value;
      var found := cache.TakeEmail(person, email);
      if found {
        var added := cache.PersonAddEmail(target, email);
      }
      i := i + 1;
    }
    assert emails[..i] == emails;
  }

  lemma NothingYet(c: Cache)
    ensures AllOwned(c, []) && AllPersons(c, [])
  {
  }

  lemma OwnedUpTo(c: Cache, es: seq<Ref>, i: nat)
    requires AllOwned(c, es) && i < |es|
    ensures es[..i] + [es[i]] == es[..i + 1]
    ensures AllOwned(c, es[..i]) && AllOwned(c, es[..i + 1]) && (forall e | e in es[..i + 1] :: e in c.heap)
  {
  }

  lemma PersonsUpTo(c: Cache, ps: seq<Ref>, i: nat)
    requires AllPersons(c, ps) && i < |ps|
    ensures ps[..i] + [ps[i]] == ps[..i + 1]
    ensures AllPersons(c, ps[..i]) && AllPersons(c, ps[..i + 1]) && ArePersons(c.heap, ps[..i + 1])
  {
  }

  /** The second loop: each other person is emptied into the target and removed. */
  method MergePersons(cache: AddressCache, pobj: Option<Ref>, target: Ref, persons: seq<Ref>)
    requires Inv(cache.View()) && IsPerson(cache.View(), target) && AllPersons(cache.View(), persons)
    requires pobj.Some? ==> IsFolder(cache.View(), pobj.value)
    modifies cache`heap, cache`itemHash, cache`dirtyFlag
    ensures ArePersons(old(cache.View()).heap, persons)
    ensures cache.View() == Merged(old(cache.View()), target, persons) && Inv(cache.View())
  {
    hide Inv, Merged, NoDup, Prune, Absorb, AllPersons;
    ghost var c := cache.View();
    var i := 0;
    MergedNone(c, target);
    NothingYet(c);
    assert persons[..0] == [];
    while i < |persons|
      invariant 0 <= i <= |persons| && AllPersons(c, persons[..i])
      invariant ArePersons(c.heap, persons[..i]) && cache.View() == Merged(c, target, persons[..i]) && Inv(cache.View())
    {
      var person := persons[i];
      PersonsUpTo(c, persons, i);
      if person == target {
        MergedTarget(c, target, persons[..i]);
      } else {
        MergeStep(c, target, persons[..i], person);
        FolderStays(c, target, persons[..i], pobj);
        MergeOne(cache, pobj, target, person);
      }
      i := i + 1;
    }
    assert persons[..i] == persons;
  }

  method MergeOne(cache: AddressCache, pobj: Option<Ref>, target: Ref, person: Ref)
    requires TwoPersons(cache.View(), target, person) && (pobj.Some? ==> IsFolder(cache.View(), pobj.value))
    modifies cache`heap, cache`itemHash, cache`dirtyFlag
    ensures cache.View() == Prune(Absorb(old(cache.View()), target, person), person)
  {
    hide Inv, Prune, Absorb, GroupsFound;
    ghost var c := cache.View();
    AbsorbInv(c, target, person);
    AbsorbedAt(c, target, person, person);
    AbsorbedFolder(c, target, person, pobj);
    TakeOver(cache, target, person);
    ghost var b := cache.View();
    DropReady(b, person, pobj);
    if pobj.Some? {
      var f := pobj.value;
      if person in cache.heap[f].persons {
        cache.heap := cache.heap[f := cache.heap[f].(persons := RemoveFirst(cache.heap[f].persons, person))];
      } else {
        RemoveFirstAbsent(cache.heap[f].persons, person);
        assert cache.heap[f].(persons := RemoveFirst(cache.heap[f].persons, person)) == cache.heap[f];
      }
    }
    assert cache.heap == if pobj.Some? then b.heap[pobj.value :=
      b.heap[pobj.value].(persons := RemoveFirst(b.heap[pobj.value].persons, person))]
                         else b.heap;
    cache.DropPerson(person);
  }

  lemma {:induction false} RemoveFirstAbsent(s: seq<Ref>, x: Ref)
    requires x !in s
    ensures RemoveFirst(s, x) == s
  {
    if s != [] {
      RemoveFirstAbsent(s[1..], x);
    }
  }

  lemma AbsorbedFolder(c: Cache, t: Ref, p: Ref, f: Option<Ref>)
    requires IsPerson(c, t) && IsPerson(c, p) && (f.Some? ==> IsFolder(c, f.value))
    ensures f.Some? ==> IsFolder(Absorb(c, t, p), f.value)
    ensures IsPerson(Absorb(c, t, p), p) && Absorb(c, t, p).heap[p].emails == []
  {
  }

  lemma FolderStays(c: Cache, t: Ref, ps: seq<Ref>, f: Option<Ref>)
    requires IsPerson(c, t) && ArePersons(c.heap, ps) && (f.Some? ==> IsFolder(c, f.value))
    ensures f.Some? ==> IsFolder(Merged(c, t, ps), f.value)
  {
  }

  lemma OwnedStill(c: Cache, t: Ref, n: Ref, es: seq<Ref>)
    requires IsPerson(c, t) && IsPerson(c, n) && AllOwned(c, es)
    ensures AllOwned(Renamed(c, t, n), es)
  {
  }

  lemma RenamedReady(c: Cache, t: Ref, n: Ref, es: seq<Ref>, ps: seq<Ref>, f: Option<Ref>)
    requires Mergeable(c, t, n, es, ps) && (f.Some? ==> IsFolder(c, f.value))
    ensures var g := Gathered(Renamed(c, t, n), t, es);
      IsPerson(g, t) && AllPersons(g, ps) && (f.Some? ==> IsFolder(g, f.value))
  {
  }

  /** `addrmerge_do_merge` without its dialog: `pobj` is the folder on display, if it is one.  The
      selected emails and persons are distinct (src/addrselect.c:273-274). */
  method DoMerge(cache: AddressCache, pobj: Option<Ref>, target: Ref, nameTarget: Ref, emails: seq<Ref>,
      persons: seq<Ref>)
    requires Mergeable(cache.View(), target, nameTarget, emails, persons)
    requires pobj.Some? ==> IsFolder(cache.View(), pobj.value)
    modifies cache`heap, cache`itemHash, cache`dirtyFlag
    ensures cache.View() == MergeAll(old(cache.View()), target, nameTarget, emails, persons) && Inv(cache.View())
  {
    hide Inv, Gathered, Merged, NoDup, Prune, Absorb, AllOwned, AllPersons, MoveEmail;
    ghost var c := cache.View();
    MergeInv(c, target, nameTarget, emails, persons);
    RenamedInv(c, target, nameTarget);
    if nameTarget != target {
      var n := cache.heap[nameTarget];
      cache.heap := cache.heap[target := cache.heap[target].(firstName := n.firstName,
        lastName := n.lastName, nickName := n.nickName, name := n.name)];
    }
    OwnedStill(c, target, nameTarget, emails);
    GatherEmails(cache, target, emails);
    RenamedReady(c, target, nameTarget, emails, persons, pobj);
    MergePersons(cache, pobj, target, persons);
    cache.dirtyFlag := true;
  }
}
