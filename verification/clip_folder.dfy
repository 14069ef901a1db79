/** Pasting a whole folder by copying (src/addrclip.c:347-401): the copy shows the same tree. */
module ClipFolder {
  import opened Items
  import opened CacheState
  import opened AddrCache
  import opened ClipTree
  import opened ClipGrow
  import opened ClipCopy

  function CountPersons(t: Tree): nat
    decreases t
  {
    |t.persons| + CountAll(t.folders)
  }

  function CountAll(ts: seq<Tree>): nat
    decreases ts
  {
    if ts == [] then 0 else CountPersons(ts[0]) + CountAll(ts[1..])
  }

  lemma {:induction false} CountAllAppend(ts: seq<Tree>, t: Tree)
    ensures CountAll(ts + [t]) == CountAll(ts) + CountPersons(t)
  {
    if ts == [] {
      assert ts + [t] == [t];
    } else {
      assert (ts + [t])[1..] == ts[1..] + [t];
      CountAllAppend(ts[1..], t);
    }
  }

  lemma {:induction false} AllEmailsAppend(h: map<Ref, Item>, ps: seq<Ref>, p: Ref)
    ensures AllEmails(h, ps + [p]) == AllEmails(h, ps) + EmailsAt(h, p)
  {
    if ps == [] {
      assert ps + [p] == [p];
    } else {
      assert (ps + [p])[1..] == ps[1..] + [p];
      AllEmailsAppend(h, ps[1..], p);
    }
  }

  /** The new folder `nf` in `target` already shows `i` of the persons of `t`, `j` of its groups
      and `k` of its folders; nothing old has changed but `target`. */
  ghost predicate FolderGoing(c0: Cache, c: Cache, target: Ref, nf: Ref, t: Tree, i: nat, j: nat, k: nat)
    requires i <= |t.persons| && j <= |t.groups| && k <= |t.folders| && IsFolder(c0, target)
  {
    && Inv(c) && Grown(c0, c, target) && nf == c0.top && nf < c.top && nf != target
    && IsFolder(c, target) && c.heap[target] == WithList(c0.heap[target], FolderKind, c0.heap[target].folders + [nf])
    && IsFolder(c, nf) && c.heap[nf].name == t.name && c.heap[nf].parent == Some(target)
    && FolderShows(c, nf, t, i, j, k)
    && NumPersons(c) == NumPersons(c0) + i + CountAll(t.folders[..k])
  }

  ghost predicate FolderShows(c: Cache, nf: Ref, t: Tree, i: nat, j: nat, k: nat)
    requires i <= |t.persons| && j <= |t.groups| && k <= |t.folders| && IsFolder(c, nf)
  {
    var s := Range(nf + 1, c.top);
    && ShowsPersons(c.heap, c.heap[nf].persons, t.persons[..i], s)
    && ShowsGroups(c.heap, c.heap[nf].groups, LocalGroups(t.groups[..j]), AllEmails(c.heap, c.heap[nf].persons), s)
    && ShowsAll(c.heap, c.heap[nf].folders, LocalAll(t.folders[..k]), s)
  }

  lemma {:induction false} LocalGroupsAppend(vs: seq<GroupVal>, j: nat)
    requires j < |vs|
    ensures LocalGroups(vs[..j + 1]) == LocalGroups(vs[..j]) + [LocalGroup(vs[j])]
  {
    hide LocalGroup;
    TakeMore(vs, j);
  }

  lemma {:induction false} LocalAllAppend(ts: seq<Tree>, j: nat)
    requires j < |ts|
    ensures LocalAll(ts[..j + 1]) == LocalAll(ts[..j]) + [Local(ts[j])]
  {
    hide Local;
    TakeMore(ts, j);
  }

  /** What is already shown stays so while the cache grows elsewhere in `nf`. */
  lemma FolderShowsFrame(c: Cache, c': Cache, nf: Ref, t: Tree, i: nat, j: nat, k: nat)
    requires i <= |t.persons| && j <= |t.groups| && k <= |t.folders| && IsFolder(c, nf) && nf < c.top
    requires FolderShows(c, nf, t, i, j, k) && Grown(c, c', nf)
    ensures var s, h := Range(nf + 1, c'.top), c.heap[nf];
      && ShowsPersons(c'.heap, h.persons, t.persons[..i], s)
      && AllEmails(c'.heap, h.persons) == AllEmails(c.heap, h.persons)
      && ShowsGroups(c'.heap, h.groups, LocalGroups(t.groups[..j]), AllEmails(c.heap, h.persons), s)
      && ShowsAll(c'.heap, h.folders, LocalAll(t.folders[..k]), s)
  {
    var s, s', h := Range(nf + 1, c.top), Range(nf + 1, c'.top), c.heap[nf];
    assert SameOn(c.heap, c'.heap, s) && s <= s';
    ShowsPersonsFrame(c.heap, c'.heap, h.persons, t.persons[..i], s, s');
    PersonsInside(c.heap, h.persons, t.persons[..i], s);
    AllEmailsFrame(c.heap, c'.heap, h.persons);
    ShowsGroupsFrame(c.heap, c'.heap, h.groups, LocalGroups(t.groups[..j]), AllEmails(c.heap, h.persons), s, s');
    ShowsAllFrame(c.heap, c'.heap, h.folders, LocalAll(t.folders[..k]), s, s');
  }

  /** A wider range of handles shows no less. */
  lemma WiderPerson(h: map<Ref, Item>, p: Ref, v: PersonVal, s: set<Ref>, s': set<Ref>)
    requires ShowsPerson(h, p, v, s) && s <= s'
    ensures ShowsPerson(h, p, v, s')
  {
    forall j | 0 <= j < |v.emails|
      ensures ShowsEmail(h, h[p].emails[j], v.emails[j], s')
    {
      assert ShowsEmail(h, h[p].emails[j], v.emails[j], s);
    }
  }

  /** What one step has added to the new folder. */
  ghost predicate Added(c: Cache, c': Cache, nf: Ref, k: Kind, r: Ref)
    requires IsFolder(c, nf)
  {
    && Inv(c') && Grown(c, c', nf) && r == c.top
    && IsFolder(c', nf) && c'.heap[nf] == WithList(c.heap[nf], k, ListOf(c.heap[nf], k) + [r])
  }

  lemma StepBase(c0: Cache, c: Cache, c': Cache, target: Ref, nf: Ref, t: Tree, i: nat, j: nat, k: nat, kind: Kind,
      r: Ref)
    requires i <= |t.persons| && j <= |t.groups| && k <= |t.folders| && IsFolder(c0, target) && c0.top !in c0.heap
    requires FolderGoing(c0, c, target, nf, t, i, j, k) && Added(c, c', nf, kind, r)
    ensures Inv(c') && Grown(c0, c', target) && nf < c'.top && IsFolder(c', target) && c'.heap[target] == c.heap[target]
    ensures IsFolder(c', nf) && c'.heap[nf].name == t.name && c'.heap[nf].parent == Some(target)
  {
    hide Inv;
    GrownTrans(c0, c, c', target, nf);
  }

  lemma RangeInside(lo: Ref, mid: Ref, hi: Ref)
    requires lo <= mid
    ensures Range(mid, hi) <= Range(lo, hi)
  {
  }

  lemma ShowsPersonsAppend(h: map<Ref, Item>, ps: seq<Ref>, vs: seq<PersonVal>, p: Ref, v: PersonVal, s: set<Ref>,
      s': set<Ref>)
    requires ShowsPersons(h, ps, vs, s') && ShowsPerson(h, p, v, s) && s <= s'
    ensures ShowsPersons(h, ps + [p], vs + [v], s')
  {
    WiderPerson(h, p, v, s, s');
  }

  lemma NoGroupsYet(c: Cache, nf: Ref, t: Tree, i: nat)
    requires i <= |t.persons| && IsFolder(c, nf) && FolderShows(c, nf, t, i, 0, 0)
    ensures c.heap[nf].groups == [] && LocalGroups(t.groups[..0]) == []
  {
  }

  lemma AddedIs(c: Cache, c': Cache, nf: Ref, k: Kind, r: Ref)
    requires IsFolder(c, nf) && Added(c, c', nf, k, r)
    ensures Grown(c, c', nf) && r == c.top && c'.top >= c.top && IsFolder(c', nf)
    ensures var i, j := c.heap[nf], c'.heap[nf];
      && j.persons == (if k == PersonKind then i.persons + [r] else i.persons)
      && j.groups == (if k == GroupKind then i.groups + [r] else i.groups)
      && j.folders == (if k == FolderKind then i.folders + [r] else i.folders)
  {
  }

  lemma MakeFolderShows(c: Cache, nf: Ref, t: Tree, i: nat, j: nat, k: nat)
    requires i <= |t.persons| && j <= |t.groups| && k <= |t.folders| && IsFolder(c, nf)
    requires var s, x := Range(nf + 1, c.top), c.heap[nf];
      && ShowsPersons(c.heap, x.persons, t.persons[..i], s)
      && ShowsGroups(c.heap, x.groups, LocalGroups(t.groups[..j]), AllEmails(c.heap, x.persons), s)
      && ShowsAll(c.heap, x.folders, LocalAll(t.folders[..k]), s)
    ensures FolderShows(c, nf, t, i, j, k)
  {
  }

  lemma PersonStepEmails(c: Cache, c': Cache, nf: Ref, t: Tree, i: nat, np: Ref)
    requires i < |t.persons| && IsFolder(c, nf) && nf < c.top && FolderShows(c, nf, t, i, 0, 0)
      && Added(c, c', nf, PersonKind, np)
    requires np in c'.heap && c'.heap[np].Person?
    ensures IsFolder(c', nf) && AllEmails(c'.heap, c'.heap[nf].persons) ==
      AllEmails(c.heap, c.heap[nf].persons) + c'.heap[np].emails
  {
    AddedIs(c, c', nf, PersonKind, np);
    hide Inv, Added, FolderShows, Grown, ShowsPersons, ShowsGroups, ShowsAll, LocalGroups, LocalAll, AllEmails;
    var ps := c.heap[nf].persons;
    FolderShowsFrame(c, c', nf, t, i, 0, 0);
    AllEmailsAppend(c'.heap, ps, np);
  }

  lemma {:induction false} PersonStepShows(c: Cache, c': Cache, nf: Ref, t: Tree, i: nat, np: Ref)
    requires i < |t.persons| && IsFolder(c, nf) && nf < c.top && FolderShows(c, nf, t, i, 0, 0)
      && Added(c, c', nf, PersonKind, np)
    requires ShowsPerson(c'.heap, np, t.persons[i], Range(np, c'.top))
    ensures IsFolder(c', nf) && FolderShows(c', nf, t, i + 1, 0, 0)
  {
    hide Inv, Added, FolderShows, Grown, ShowsPerson, ShowsPersons, ShowsGroups, ShowsAll, LocalGroups, LocalAll,
      AllEmails;
    AddedIs(c, c', nf, PersonKind, np);
    NoGroupsYet(c, nf, t, i);
    NoGroupsShown(c'.heap, AllEmails(c'.heap, c'.heap[nf].persons), Range(nf + 1, c'.top));
    FolderShowsFrame(c, c', nf, t, i, 0, 0);
    RangeInside(nf + 1, np, c'.top);
    var before, after := t.persons[..i], t.persons[i];
    ShowsPersonsAppend(c'.heap, c.heap[nf].persons, before, np, after, Range(np, c'.top), Range(nf + 1, c'.top));
    TakeMore(t.persons, i);
    MakeFolderShows(c', nf, t, i + 1, 0, 0);
  }

  lemma NoGroupsShown(h: map<Ref, Item>, es: seq<Ref>, s: set<Ref>)
    ensures ShowsGroups(h, [], [], es, s)
  {
  }

  lemma PersonStep(c0: Cache, c: Cache, c': Cache, target: Ref, nf: Ref, t: Tree, i: nat, np: Ref)
    requires i < |t.persons| && IsFolder(c0, target) && c0.top !in c0.heap
    requires FolderGoing(c0, c, target, nf, t, i, 0, 0) && Added(c, c', nf, PersonKind, np)
    requires ShowsPerson(c'.heap, np, t.persons[i], Range(np, c'.top)) && NumPersons(c') == NumPersons(c) + 1
    ensures FolderGoing(c0, c', target, nf, t, i + 1, 0, 0)
    ensures AllEmails(c'.heap, c'.heap[nf].persons) == AllEmails(c.heap, c.heap[nf].persons) + c'.heap[np].emails
  {
    hide Inv, NumPersons, Grown;
    StepBase(c0, c, c', target, nf, t, i, 0, 0, PersonKind, np);
    PersonStepShows(c, c', nf, t, i, np);
    PersonStepEmails(c, c', nf, t, i, np);
  }

  lemma {:induction false} GroupStepShows(c: Cache, c': Cache, nf: Ref, t: Tree, j: nat, ng: Ref)
    requires j < |t.groups| && IsFolder(c, nf) && nf < c.top && FolderShows(c, nf, t, |t.persons|, j, 0)
      && Added(c, c', nf, GroupKind, ng)
    requires ShowsGroup(c'.heap, ng, LocalGroup(t.groups[j]), AllEmails(c.heap, c.heap[nf].persons), Range(ng, c'.top))
    ensures IsFolder(c', nf) && FolderShows(c', nf, t, |t.persons|, j + 1, 0)
    ensures AllEmails(c'.heap, c'.heap[nf].persons) == AllEmails(c.heap, c.heap[nf].persons)
  {
    hide Inv, Added, FolderShows, Grown, ShowsPersons, ShowsGroups, ShowsGroup, ShowsAll, AllEmails, LocalGroup,
      LocalGroups, LocalAll;
    AddedIs(c, c', nf, GroupKind, ng);
    FolderShowsFrame(c, c', nf, t, |t.persons|, j, 0);
    LocalGroupsAppend(t.groups, j);
    RangeInside(nf + 1, ng, c'.top);
    ShowsGroupsAppend(c'.heap, c.heap[nf].groups, LocalGroups(t.groups[..j]), ng, LocalGroup(t.groups[j]),
      AllEmails(c.heap, c.heap[nf].persons), Range(ng, c'.top), Range(nf + 1, c'.top));
    MakeFolderShows(c', nf, t, |t.persons|, j + 1, 0);
  }

  lemma ShowsGroupsAppend(h: map<Ref, Item>, gs: seq<Ref>, vs: seq<GroupVal>, g: Ref, v: GroupVal, es: seq<Ref>,
      s: set<Ref>, s': set<Ref>)
    requires ShowsGroups(h, gs, vs, es, s') && ShowsGroup(h, g, v, es, s) && s <= s'
    ensures ShowsGroups(h, gs + [g], vs + [v], es, s')
  {
  }

  lemma GroupStep(c0: Cache, c: Cache, c': Cache, target: Ref, nf: Ref, t: Tree, j: nat, ng: Ref)
    requires j < |t.groups| && IsFolder(c0, target) && c0.top !in c0.heap
    requires FolderGoing(c0, c, target, nf, t, |t.persons|, j, 0) && Added(c, c', nf, GroupKind, ng)
    requires ShowsGroup(c'.heap, ng, LocalGroup(t.groups[j]), AllEmails(c.heap, c.heap[nf].persons), Range(ng, c'.top))
    requires NumPersons(c') == NumPersons(c)
    ensures FolderGoing(c0, c', target, nf, t, |t.persons|, j + 1, 0)
    ensures AllEmails(c'.heap, c'.heap[nf].persons) == AllEmails(c.heap, c.heap[nf].persons)
  {
    hide Inv, NumPersons, Grown;
    StepBase(c0, c, c', target, nf, t, |t.persons|, j, 0, GroupKind, ng);
    GroupStepShows(c, c', nf, t, j, ng);
  }

  lemma {:induction false} FolderStepShows(c: Cache, c': Cache, nf: Ref, t: Tree, k: nat, sf: Ref)
    requires k < |t.folders| && IsFolder(c, nf) && nf < c.top && FolderShows(c, nf, t, |t.persons|, |t.groups|, k)
    requires Added(c, c', nf, FolderKind, sf) && Shows(c'.heap, sf, Local(t.folders[k]), Range(sf, c'.top))
    ensures IsFolder(c', nf) && FolderShows(c', nf, t, |t.persons|, |t.groups|, k + 1)
  {
    hide Inv, Added, FolderShows, Grown, Shows, ShowsPersons, ShowsGroups, ShowsAll, LocalGroups, LocalAll, Local,
      AllEmails;
    AddedIs(c, c', nf, FolderKind, sf);
    FolderShowsFrame(c, c', nf, t, |t.persons|, |t.groups|, k);
    LocalAllAppend(t.folders, k);
    RangeInside(nf + 1, sf, c'.top);
    ShowsFrame(c'.heap, c'.heap, sf, Local(t.folders[k]), Range(sf, c'.top), Range(nf + 1, c'.top));
    ShowsAllAppend(c'.heap, c.heap[nf].folders, LocalAll(t.folders[..k]), sf, Local(t.folders[k]),
      Range(nf + 1, c'.top));
    MakeFolderShows(c', nf, t, |t.persons|, |t.groups|, k + 1);
  }

  lemma ShowsAllAppend(h: map<Ref, Item>, fs: seq<Ref>, ts: seq<Tree>, f: Ref, t: Tree, s: set<Ref>)
    requires ShowsAll(h, fs, ts, s) && Shows(h, f, t, s)
    ensures ShowsAll(h, fs + [f], ts + [t], s)
  {
    hide Shows;
  }

  lemma FolderStep(c0: Cache, c: Cache, c': Cache, target: Ref, nf: Ref, t: Tree, k: nat, sf: Ref)
    requires k < |t.folders| && IsFolder(c0, target) && c0.top !in c0.heap
    requires FolderGoing(c0, c, target, nf, t, |t.persons|, |t.groups|, k) && Added(c, c', nf, FolderKind, sf)
    requires Shows(c'.heap, sf, Local(t.folders[k]), Range(sf, c'.top))
    requires NumPersons(c') == NumPersons(c) + CountPersons(t.folders[k])
    ensures FolderGoing(c0, c', target, nf, t, |t.persons|, |t.groups|, k + 1)
  {
    hide Inv, NumPersons, Shows, CountAll, Grown, FolderShows, Local;
    StepBase(c0, c, c', target, nf, t, |t.persons|, |t.groups|, k, FolderKind, sf);
    FolderStepShows(c, c', nf, t, k, sf);
    TakeMore(t.folders, k);
    CountAllAppend(t.folders[..k], t.folders[k]);
  }

  // ---------- the recursion ----------

  lemma {:induction false} EmailsOfOthers(c: Cache, ps: seq<Ref>, e: Ref)
    requires Inv(c) && forall p | p in ps :: IsPerson(c, p)
    ensures e in AllEmails(c.heap, ps) ==> Owned(c, e) && c.heap[e].parent.value in ps
  {
    if ps != [] {
      EmailsOfOthers(c, ps[1..], e);
      assert PersonOk(c, ps[0]);
    }
  }

  lemma {:induction false} AllEmailsNoDup(c: Cache, ps: seq<Ref>)
    requires Inv(c) && NoDup(ps) && forall p | p in ps :: IsPerson(c, p)
    ensures NoDup(AllEmails(c.heap, ps))
  {
    hide Inv;
    if ps != [] {
      assert ps[0] in ps;
      AllEmailsNoDup(c, ps[1..]);
      var a, b := c.heap[ps[0]].emails, AllEmails(c.heap, ps[1..]);
      forall e | e in a
        ensures e !in b
      {
        EmailsOfOthers(c, ps[1..], e);
        PersonEmails(c, ps[0]);
      }
      PersonEmails(c, ps[0]);
      NoDupConcat(a, b);
    }
  }

  lemma PersonEmails(c: Cache, p: Ref)
    requires Inv(c) && IsPerson(c, p)
    ensures NoDup(c.heap[p].emails) && forall e | e in c.heap[p].emails :: Owned(c, e) && c.heap[e].parent == Some(p)
  {
    assert PersonOk(c, p);
  }

  /** The copies under a folder are distinct and owned: a copied group may refer to them. */
  lemma FolderEmails(c: Cache, f: Ref)
    requires Inv(c) && IsFolder(c, f)
    ensures NoDup(AllEmails(c.heap, c.heap[f].persons))
    ensures forall e | e in AllEmails(c.heap, c.heap[f].persons) :: Owned(c, e)
  {
    assert ListOk(c.heap, f, PersonKind);
    var ps := c.heap[f].persons;
    assert forall p | p in ps :: p in ListOf(c.heap[f], PersonKind) && IsPerson(c, p);
    AllEmailsNoDup(c, ps);
    forall e | e in AllEmails(c.heap, ps)
      ensures Owned(c, e)
    {
      EmailsOfOthers(c, ps, e);
    }
  }

  lemma MembersNoDup(c: Cache, g: Ref)
    requires Inv(c) && IsGroup(c, g)
    ensures NoDup(c.heap[g].members)
  {
    assert GroupOk(c, g);
  }

  /** The part that is being copied: it lies in the handles `s`, and as long as the copy goes
      to another place it stays as it was. */
  ghost predicate SourceSafe(src: AddressCache, cache: AddressCache, h0: map<Ref, Item>, s: set<Ref>, nf: Ref)
    reads src, cache
  {
    && Inv(src.View()) && SameOn(h0, src.heap, s) && (src != cache ==> src.heap == h0)
    && (src == cache ==> s <= src.heap.Keys && nf !in s)
  }

  lemma SafeAfter(src: AddressCache, cache: AddressCache, h0: map<Ref, Item>, h: map<Ref, Item>, s: set<Ref>,
      c: Cache, nf: Ref)
    requires SameOn(h0, h, s) && Inv(src.View()) && (src != cache ==> src.heap == h)
    requires src == cache ==> h == c.heap && Grown(c, cache.View(), nf) && s <= c.heap.Keys && nf !in s
    requires src != cache ==> h == h0
    ensures SourceSafe(src, cache, h0, s, nf)
  {
  }

  /** Before the first person has been copied. */
  lemma NoPersonsYet(c0: Cache, c: Cache, target: Ref, nf: Ref, t: Tree, h0: map<Ref, Item>, node: seq<Ref>,
      s: set<Ref>)
    requires IsFolder(c0, target) && FolderGoing(c0, c, target, nf, t, 0, 0, 0) && ShowsPersons(h0, node, t.persons, s)
    ensures |node| == |t.persons| && AllEmails(h0, []) == [] && IsFolder(c, nf)
    ensures AllEmails(c.heap, c.heap[nf].persons) == []
  {
  }

  /** The first loop of the folder copy: its persons. */
  method CopyPersons(cache: AddressCache, src: AddressCache, node: seq<Ref>, nf: Ref,
                     ghost target: Ref, ghost c0: Cache, ghost h0: map<Ref, Item>, ghost t: Tree, ghost s: set<Ref>)
    returns (copyList: CopyList)
    requires IsFolder(c0, target) && c0.top !in c0.heap && ShowsPersons(h0, node, t.persons, s)
    requires FolderGoing(c0, cache.View(), target, nf, t, 0, 0, 0) && SourceSafe(src, cache, h0, s, nf)
    modifies cache`heap, cache`itemHash, cache`nextID, cache`top, cache`dirtyFlag
    ensures FolderGoing(c0, cache.View(), target, nf, t, |t.persons|, 0, 0) && SourceSafe(src, cache, h0, s, nf)
    ensures IsFolder(cache.View(), nf)
    ensures Originals(copyList) == AllEmails(h0, node)
    ensures Copies(copyList) == AllEmails(cache.heap, cache.heap[nf].persons)
  {
    hide Inv, Shows, SourceSafe, FolderGoing, Added, Grown, NumPersons, ShowsGroups, ShowsAll, ShowsPersons, SameOn,
      ShowsPerson, Range, AllEmails;
    copyList := [];
    NoPersonsYet(c0, cache.View(), target, nf, t, h0, node, s);
    var i := 0;
    FolderHere(c0, cache.View(), target, nf, t, 0, 0, 0);
    assert node[..0] == [];
    while i < |node|
      invariant 0 <= i <= |node| == |t.persons|
      invariant FolderGoing(c0, cache.View(), target, nf, t, i, 0, 0) && SourceSafe(src, cache, h0, s, nf)
      invariant Inv(cache.View()) && IsFolder(cache.View(), nf)
      invariant Originals(copyList) == AllEmails(h0, node[..i])
      invariant Copies(copyList) == AllEmails(cache.heap, cache.heap[nf].persons)
    {
      ghost var c := cache.View();
      SafePerson(src, cache, h0, s, nf, node, t.persons, i);
      ghost var h := src.heap;
      var np;
      np, copyList := AddPersonCopy(cache, nf, src, node[i], copyList, t.persons[i], s);
      MakeAdded(c, cache.View(), nf, PersonKind, np);
      PersonStep(c0, c, cache.View(), target, nf, t, i, np);
      SafeAfter(src, cache, h0, h, s, c, nf);
      FolderHere(c0, cache.View(), target, nf, t, i + 1, 0, 0);
      TakeMore(node, i);
      AllEmailsAppend(h0, node[..i], node[i]);
      i := i + 1;
    }
    assert node[..i] == node;
  }

  /** The second loop: its groups, re-linked through the list of copied emails. */
  method CopyGroups(cache: AddressCache, src: AddressCache, groups: seq<Ref>, nf: Ref, copyList: CopyList,
                    ghost target: Ref, ghost c0: Cache, ghost h0: map<Ref, Item>, ghost t: Tree, ghost s: set<Ref>)
    requires IsFolder(c0, target) && c0.top !in c0.heap && ShowsGroups(h0, groups, t.groups, Originals(copyList), s)
    requires FolderGoing(c0, cache.View(), target, nf, t, |t.persons|, 0, 0) && SourceSafe(src, cache, h0, s, nf)
    requires IsFolder(cache.View(), nf) && Copies(copyList) == AllEmails(cache.heap, cache.heap[nf].persons)
    modifies cache`heap, cache`itemHash, cache`nextID, cache`top, cache`dirtyFlag
    ensures FolderGoing(c0, cache.View(), target, nf, t, |t.persons|, |t.groups|, 0)
      && SourceSafe(src, cache, h0, s, nf)
  {
    hide Inv, Shows, SourceSafe, FolderGoing, Added, Grown, NumPersons, ShowsPersons, ShowsAll, SameOn, ShowsGroup,
      Range;
    FolderHere(c0, cache.View(), target, nf, t, |t.persons|, 0, 0);
    var j := 0;
    while j < |groups|
      invariant 0 <= j <= |groups| == |t.groups|
      invariant FolderGoing(c0, cache.View(), target, nf, t, |t.persons|, j, 0) && SourceSafe(src, cache, h0, s, nf)
      invariant Inv(cache.View()) && IsFolder(cache.View(), nf)
      invariant Copies(copyList) == AllEmails(cache.heap, cache.heap[nf].persons)
    {
      ghost var c := cache.View();
      ghost var h := src.heap;
      SafeGroup(src, cache, h0, s, nf, groups, t.groups, Originals(copyList), j);
      FolderEmails(c, nf);
      var ng := AddGroupCopy(cache, nf, src, groups[j], copyList, t.groups[j], s);
      MakeAdded(c, cache.View(), nf, GroupKind, ng);
      GroupStep(c0, c, cache.View(), target, nf, t, j, ng);
      SafeAfter(src, cache, h0, h, s, c, nf);
      FolderHere(c0, cache.View(), target, nf, t, |t.persons|, j + 1, 0);
      j := j + 1;
    }
  }

  /** The third loop: the folders in it, recursively. */
  method CopyFolders(cache: AddressCache, src: AddressCache, folders: seq<Ref>, nf: Ref,
                     ghost target: Ref, ghost c0: Cache, ghost h0: map<Ref, Item>, ghost t: Tree, ghost s: set<Ref>)
    requires IsFolder(c0, target) && c0.top !in c0.heap && ShowsAll(h0, folders, t.folders, s)
    requires FolderGoing(c0, cache.View(), target, nf, t, |t.persons|, |t.groups|, 0)
      && SourceSafe(src, cache, h0, s, nf)
    modifies cache`heap, cache`itemHash, cache`nextID, cache`top, cache`dirtyFlag
    ensures FolderGoing(c0, cache.View(), target, nf, t, |t.persons|, |t.groups|, |t.folders|)
    decreases t, 0
  {
    hide Inv, Shows, SourceSafe, FolderGoing, Added, Grown, NumPersons, ShowsPersons, ShowsGroups, SameOn, Range, Local;
    FolderHere(c0, cache.View(), target, nf, t, |t.persons|, |t.groups|, 0);
    var k := 0;
    while k < |folders|
      invariant 0 <= k <= |folders| == |t.folders|
      invariant FolderGoing(c0, cache.View(), target, nf, t, |t.persons|, |t.groups|, k)
        && SourceSafe(src, cache, h0, s, nf)
      invariant Inv(cache.View()) && IsFolder(cache.View(), nf)
    {
      ghost var c := cache.View();
      ghost var h := src.heap;
      SafeFolder(src, cache, h0, s, nf, folders, t.folders, k);
      var sf := CopyFolder(cache, nf, src, folders[k], t.folders[k], s);
      MakeAdded(c, cache.View(), nf, FolderKind, sf);
      FolderStep(c0, c, cache.View(), target, nf, t, k, sf);
      SafeAfter(src, cache, h0, h, s, c, nf);
      FolderHere(c0, cache.View(), target, nf, t, |t.persons|, |t.groups|, k + 1);
      k := k + 1;
    }
  }

  /** `addrclip_cache_copy_folder`.  The recursion follows the tree that the source shows, so it
      ends; the guard appears as the condition that the target is not among the source's
      handles.  The copy shows the same tree, with fresh uids, and each copied group keeps
      exactly its members from the same folder; of the old items only the target has changed. */
  method CopyFolder(cache: AddressCache, target: Ref, src: AddressCache, folder: Ref, ghost t: Tree, ghost s: set<Ref>)
    returns (nf: Ref)
    requires Inv(cache.View()) && IsFolder(cache.View(), target)
    requires Inv(src.View()) && Shows(src.heap, folder, t, s)
    requires src == cache ==> target !in s && s <= cache.heap.Keys
    modifies cache`heap, cache`itemHash, cache`nextID, cache`top, cache`dirtyFlag
    ensures Inv(cache.View()) && Grown(old(cache.View()), cache.View(), target)
    ensures nf == old(cache.top) && nf !in old(cache.heap)
    ensures IsFolder(cache.View(), target) && cache.heap[target] ==
      WithList(old(cache.heap[target]), FolderKind, old(cache.heap[target]).folders + [nf])
    ensures Shows(cache.heap, nf, Local(t), Range(nf, cache.top)) && cache.heap[nf].parent == Some(target)
    ensures ShowsOutside(cache.heap, nf, Local(t), Range(nf, cache.top))
    ensures NumPersons(cache.View()) == NumPersons(old(cache.View())) + CountPersons(t)
    decreases t, 1
  {
    hide Inv, Shows, SourceSafe, FolderGoing, Grown, NumPersons, ShowsPersons, ShowsGroups, ShowsAll, SameOn, Range,
      Local;
    hide ShowsOutside;
    ghost var c0 := cache.View();
    ghost var h0 := src.heap;
    ShowsParts(h0, folder, t, s);
    TopUnused(c0);
    var item := src.heap[folder];
    nf := CopyInto(cache, target, Folder("", item.name, None, "", [], [], []));
    FolderStart(c0, cache.View(), target, nf, t);
    SafeStart(src, cache, h0, s, c0, target, nf);
    var copyList := CopyPersons(cache, src, item.persons, nf, target, c0, h0, t, s);
    CopyGroups(cache, src, item.groups, nf, copyList, target, c0, h0, t, s);
    CopyFolders(cache, src, item.folders, nf, target, c0, h0, t, s);
    FolderDone(c0, cache.View(), target, nf, t);
  }

  lemma ShowsParts(h: map<Ref, Item>, f: Ref, t: Tree, s: set<Ref>)
    requires Shows(h, f, t, s)
    ensures f in s && f in h && h[f].Folder? && h[f].name == t.name
    ensures ShowsPersons(h, h[f].persons, t.persons, s) && ShowsAll(h, h[f].folders, t.folders, s)
    ensures ShowsGroups(h, h[f].groups, t.groups, AllEmails(h, h[f].persons), s)
    ensures |h[f].persons| == |t.persons| && |h[f].groups| == |t.groups| && |h[f].folders| == |t.folders|
  {
  }

  lemma TopUnused(c: Cache)
    requires Inv(c)
    ensures c.top !in c.heap
  {
  }

  lemma FolderStart(c0: Cache, c: Cache, target: Ref, nf: Ref, t: Tree)
    requires Inv(c) && Grown(c0, c, target) && IsFolder(c0, target) && nf == c0.top && nf !in c0.heap && c.top == nf + 1
    requires target in c.heap && c.heap[target] == WithList(c0.heap[target], FolderKind, c0.heap[target].folders + [nf])
    requires IsFolder(c, nf) && Empty(c.heap[nf]) && c.heap[nf].name == t.name && c.heap[nf].parent == Some(target)
    requires NumPersons(c) == NumPersons(c0)
    ensures FolderGoing(c0, c, target, nf, t, 0, 0, 0)
  {
  }

  lemma FolderHere(c0: Cache, c: Cache, target: Ref, nf: Ref, t: Tree, i: nat, j: nat, k: nat)
    requires i <= |t.persons| && j <= |t.groups| && k <= |t.folders| && IsFolder(c0, target)
    requires FolderGoing(c0, c, target, nf, t, i, j, k)
    ensures Inv(c) && IsFolder(c, nf)
    ensures i == 0 ==> AllEmails(c.heap, c.heap[nf].persons) == []
  {
  }

  lemma FolderDone(c0: Cache, c: Cache, target: Ref, nf: Ref, t: Tree)
    requires IsFolder(c0, target) && FolderGoing(c0, c, target, nf, t, |t.persons|, |t.groups|, |t.folders|)
    ensures Shows(c.heap, nf, Local(t), Range(nf, c.top)) && c.heap[nf].parent == Some(target)
    ensures ShowsOutside(c.heap, nf, Local(t), Range(nf, c.top))
    ensures Inv(c) && Grown(c0, c, target) && IsFolder(c, target)
    ensures c.heap[target] == WithList(c0.heap[target], FolderKind, c0.heap[target].folders + [nf])
    ensures NumPersons(c) == NumPersons(c0) + CountPersons(t)
  {
    hide Inv, Grown, NumPersons;
    assert t.persons[..|t.persons|] == t.persons && t.groups[..|t.groups|] == t.groups
      && t.folders[..|t.folders|] == t.folders;
    var s, s', h := Range(nf + 1, c.top), Range(nf, c.top), c.heap;
    assert s == s' - {nf};
    ShowsPersonsFrame(h, h, h[nf].persons, t.persons, s, s');
    ShowsGroupsFrame(h, h, h[nf].groups, LocalGroups(t.groups), AllEmails(h, h[nf].persons), s, s');
    ShowsAllFrame(h, h, h[nf].folders, LocalAll(t.folders), s, s');
  }

  lemma MakeAdded(c: Cache, c': Cache, nf: Ref, k: Kind, r: Ref)
    requires IsFolder(c, nf) && Inv(c') && Grown(c, c', nf) && r == c.top && nf in c'.heap
    requires c'.heap[nf] == WithList(c.heap[nf], k, ListOf(c.heap[nf], k) + [r])
    ensures Added(c, c', nf, k, r)
  {
  }

  lemma SafeStart(src: AddressCache, cache: AddressCache, h0: map<Ref, Item>, s: set<Ref>, c0: Cache, target: Ref,
      nf: Ref)
    requires Inv(src.View()) && nf !in c0.heap && (src != cache ==> src.heap == h0)
    requires src == cache ==> h0 == c0.heap && Grown(c0, cache.View(), target) && target !in s && s <= c0.heap.Keys
    ensures SourceSafe(src, cache, h0, s, nf)
  {
  }

  lemma SafePerson(src: AddressCache, cache: AddressCache, h0: map<Ref, Item>, s: set<Ref>, nf: Ref,
                   ps: seq<Ref>, vs: seq<PersonVal>, i: nat)
    requires SourceSafe(src, cache, h0, s, nf) && ShowsPersons(h0, ps, vs, s) && i < |ps|
    ensures ShowsPerson(src.heap, ps[i], vs[i], s) && (src == cache ==> nf !in s)
    ensures SameOn(h0, src.heap, s) && Inv(src.View()) && (src == cache ==> s <= src.heap.Keys)
      && (src != cache ==> src.heap == h0)
    ensures ps[i] in h0 && ps[i] in src.heap && src.heap[ps[i]] == h0[ps[i]] && h0[ps[i]].Person?
  {
    ShowsPersonsFrame(h0, src.heap, ps, vs, s, s);
    assert ShowsPerson(h0, ps[i], vs[i], s);
  }

  lemma SafeGroup(src: AddressCache, cache: AddressCache, h0: map<Ref, Item>, s: set<Ref>, nf: Ref,
                  gs: seq<Ref>, vs: seq<GroupVal>, es: seq<Ref>, i: nat)
    requires SourceSafe(src, cache, h0, s, nf) && ShowsGroups(h0, gs, vs, es, s) && i < |gs|
    ensures ShowsGroup(src.heap, gs[i], vs[i], es, s) && NoDup(src.heap[gs[i]].members) && (src == cache ==> nf !in s)
    ensures SameOn(h0, src.heap, s) && Inv(src.View()) && (src == cache ==> s <= src.heap.Keys)
      && (src != cache ==> src.heap == h0)
  {
    ShowsGroupsFrame(h0, src.heap, gs, vs, es, s, s);
    MembersNoDup(src.View(), gs[i]);
  }

  lemma SafeFolder(src: AddressCache, cache: AddressCache, h0: map<Ref, Item>, s: set<Ref>, nf: Ref,
                   fs: seq<Ref>, ts: seq<Tree>, i: nat)
    requires SourceSafe(src, cache, h0, s, nf) && ShowsAll(h0, fs, ts, s) && i < |fs|
    ensures Shows(src.heap, fs[i], ts[i], s) && (src == cache ==> nf !in s)
    ensures SameOn(h0, src.heap, s) && Inv(src.View()) && (src == cache ==> s <= src.heap.Keys)
      && (src != cache ==> src.heap == h0)
  {
    hide Inv;
    ShowsAllFrame(h0, src.heap, fs, ts, s, s);
  }
}
