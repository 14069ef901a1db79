/** Pasting by copying (src/addrclip.c:215-401): persons with their emails and attributes,
    groups re-linked to the copied emails, and whole folders, recursively. */
module ClipCopy {
  import opened Items
  import opened CacheState
  import opened AddrCache
  import opened ClipTree
  import opened ClipGrow

  /** The source's list of copied addresses: each email with its copy. */
  type CopyList = seq<(Ref, Ref)>

  function Originals(l: CopyList): (s: seq<Ref>)
    ensures |s| == |l| && forall i | 0 <= i < |l| :: s[i] == l[i].0
  {
    if l == [] then [] else [l[0].0] + Originals(l[1..])
  }

  function Copies(l: CopyList): (s: seq<Ref>)
    ensures |s| == |l| && forall i | 0 <= i < |l| :: s[i] == l[i].1
  {
    if l == [] then [] else [l[0].1] + Copies(l[1..])
  }

  lemma {:induction false} CopyListAppend(l: CopyList, x: (Ref, Ref))
    ensures Originals(l + [x]) == Originals(l) + [x.0]
    ensures Copies(l + [x]) == Copies(l) + [x.1]
  {
  }

  // ---------- one item ----------

  /** Copying an item without its contents into a folder, under a new uid. */
  method CopyInto(cache: AddressCache, folder: Ref, item: Item) returns (r: Ref)
    requires Inv(cache.View()) && IsFolder(cache.View(), folder)
    requires !item.EMail? && Empty(item) && item.uid == ""
    modifies cache`heap, cache`itemHash, cache`nextID, cache`top, cache`dirtyFlag
    ensures Inv(cache.View()) && Grown(old(cache.View()), cache.View(), folder)
    ensures r == old(cache.top) && r !in old(cache.heap) && cache.top == r + 1
    ensures folder in cache.heap && cache.heap[folder] ==
      WithList(old(cache.heap[folder]), KindOf(item), ListOf(old(cache.heap[folder]), KindOf(item)) + [r])
    ensures r in cache.heap && cache.heap[r] == WithParent(WithUid(item, Decimal(cache.nextID)), Some(folder))
    ensures NumPersons(cache.View()) == NumPersons(old(cache.View())) + if item.Person? then 1 else 0
  {
    hide Inv;
    var uid := cache.AllocateUid("");
    TickInsertGrows(old(cache.View()), folder, WithUid(item, uid));
    var added;
    added, r := cache.FolderAdd(folder, WithUid(item, uid));
  }

  /** Copying one email to a person under a new uid. */
  method CopyEmail(cache: AddressCache, p: Ref, email: Item) returns (e: Ref)
    requires Inv(cache.View()) && IsPerson(cache.View(), p) && email.EMail?
    modifies cache`heap, cache`itemHash, cache`nextID, cache`top, cache`dirtyFlag
    ensures Inv(cache.View()) && Grown(old(cache.View()), cache.View(), p)
    ensures e == old(cache.top) && e !in old(cache.heap) && cache.top == e + 1
    ensures p in cache.heap && cache.heap[p] == old(cache.heap[p]).(emails := old(cache.heap[p]).emails + [e])
    ensures e in cache.heap && Owned(cache.View(), e)
    ensures cache.heap[e] == EMail(Decimal(cache.nextID), email.name, Some(p), email.address, email.remarks)
    ensures NumPersons(cache.View()) == NumPersons(old(cache.View()))
  {
    hide Inv;
    var uid := cache.AllocateUid("");
    var copy := EMail(uid, email.name, None, email.address, email.remarks);
    EmailGrows(old(cache.View()), p, copy);
    e := cache.CreateEmail(copy);
    var added := cache.PersonAddEmail(p, e);
  }

  /** Copying one attribute; it keeps its uid if it has one. */
  method CopyAttrib(cache: AddressCache, p: Ref, a: Attrib)
    requires Inv(cache.View()) && IsPerson(cache.View(), p)
    modifies cache`heap, cache`nextID
    ensures Inv(cache.View()) && Grown(old(cache.View()), cache.View(), p) && cache.top == old(cache.top)
    ensures IsPerson(cache.View(), p) && cache.heap[p] == old(cache.heap[p]).(attribs := cache.heap[p].attribs)
    ensures var x := Attrib(if a.uid != "" then a.uid else Decimal(cache.nextID), a.name, a.value);
      cache.heap[p].attribs == old(cache.heap[p]).attribs + [x]
    ensures NumPersons(cache.View()) == NumPersons(old(cache.View()))
  {
    hide Inv;
    TickGrows(cache.View(), p);
    var uid := cache.AllocateUid(a.uid);
    var copy := Attrib(uid, a.name, a.value);
    AttribGrows(cache.View(), p, copy);
    GrownTrans2(old(cache.View()), cache.View(), AddAttrib(cache.View(), p, copy), p);
    cache.heap := cache.heap[p := cache.heap[p].(attribs := cache.heap[p].attribs + [copy])];
  }

  lemma GrownTrans2(c: Cache, c1: Cache, c2: Cache, t: Ref)
    requires (c1 == c || Grown(c, c1, t)) && Grown(c1, c2, t)
    ensures Grown(c, c2, t)
  {
    if c1 != c {
      GrownTrans(c, c1, c2, t, t);
    }
  }

  // ---------- persons ----------

  lemma {:induction false} AttribValsAppend(s: seq<Attrib>, x: Attrib)
    ensures AttribVals(s + [x]) == AttribVals(s) + [(x.name, x.value)]
  {
    if s != [] {
      assert (s + [x])[1..] == s[1..] + [x];
      AttribValsAppend(s[1..], x);
    }
  }

  /** Part of a person has been copied: the first `i` emails and `j` attributes. */
  ghost predicate PersonGoing(c0: Cache, c: Cache, f: Ref, np: Ref, p: Item, i: nat, j: nat, l0: CopyList, l: CopyList)
    requires p.Person? && i <= |p.emails| && j <= |p.attribs| && IsFolder(c0, f)
  {
    && Inv(c) && Grown(c0, c, f) && np == c0.top && np < c.top && f != np
    && f in c.heap && c.heap[f] == WithList(c0.heap[f], PersonKind, c0.heap[f].persons + [np])
    && IsPerson(c, np)
    && c.heap[np].name == p.name && c.heap[np].firstName == p.firstName && c.heap[np].lastName == p.lastName
    && c.heap[np].nickName == p.nickName && c.heap[np].parent == Some(f)
    && |c.heap[np].emails| == i && AttribVals(c.heap[np].attribs) == AttribVals(p.attribs[..j])
    && (forall k | 0 <= k < i :: np < c.heap[np].emails[k] < c.top && Owned(c, c.heap[np].emails[k]))
    && Originals(l) == Originals(l0) + p.emails[..i] && Copies(l) == Copies(l0) + c.heap[np].emails
    && NumPersons(c) == NumPersons(c0) + 1
  }

  ghost predicate EmailsMatch(h: map<Ref, Item>, es: seq<Ref>, k: map<Ref, Item>, ds: seq<Ref>) {
    |ds| <= |es| && forall i | 0 <= i < |ds| ::
      && es[i] in h && ds[i] in k && h[es[i]].EMail? && k[ds[i]].EMail?
      && k[ds[i]].name == h[es[i]].name && k[ds[i]].address == h[es[i]].address && k[ds[i]].remarks == h[es[i]].remarks
  }

  lemma PersonEmailStep(c0: Cache, c: Cache, c': Cache, f: Ref, np: Ref, p: Item, i: nat, l0: CopyList, l: CopyList,
                        h: map<Ref, Item>)
    requires p.Person? && i < |p.emails| && IsFolder(c0, f) && f in c0.heap && c0.top !in c0.heap
    requires PersonGoing(c0, c, f, np, p, i, 0, l0, l) && EmailsMatch(h, p.emails, c.heap, c.heap[np].emails)
    requires Inv(c') && Grown(c, c', np) && c'.top == c.top + 1 && NumPersons(c') == NumPersons(c)
    requires np in c'.heap && c'.heap[np] == c.heap[np].(emails := c.heap[np].emails + [c.top])
    requires c.top !in c.heap && c.top in c'.heap && Owned(c', c.top)
    requires p.emails[i] in h && h[p.emails[i]].EMail?
    requires var a, b := h[p.emails[i]], c'.heap[c.top]; b.EMail? && b.name == a.name && b.address == a.address
                                                         && b.remarks == a.remarks
    ensures PersonGoing(c0, c', f, np, p, i + 1, 0, l0, l + [(p.emails[i], c.top)])
    ensures EmailsMatch(h, p.emails, c'.heap, c'.heap[np].emails)
  {
    hide Inv, Grown, NumPersons, Originals, Copies, WithList, AttribVals;
    GrownTrans(c0, c, c', f, np);
    CopyListAppend(l, (p.emails[i], c.top));
    TakeMore(p.emails, i);
    var es: seq<Ref> := c'.heap[np].emails;
    forall k | 0 <= k < i + 1
      ensures np < es[k] < c'.top && Owned(c', es[k])
    {
      if k < i {
        assert es[k] == c.heap[np].emails[k];
        GrownKeeps(c, c', np, es[k]);
      }
    }
    forall k: nat | k < |es|
      ensures es[k] in c'.heap && (k < i ==> es[k] in c.heap && c'.heap[es[k]] == c.heap[es[k]])
    {
      if k < i {
        GrownKeeps(c, c', np, es[k]);
      }
    }
    GrownKeeps(c, c', np, f);
  }

  lemma GrownKeeps(c: Cache, c': Cache, t: Ref, r: Ref)
    requires Grown(c, c', t) && r in c.heap
    ensures r in c'.heap && (r != t ==> c'.heap[r] == c.heap[r])
  {
  }

  lemma PersonAttribStep(c0: Cache, c: Cache, c': Cache, f: Ref, np: Ref, p: Item, j: nat, l0: CopyList, l: CopyList,
                         h: map<Ref, Item>, x: Attrib)
    requires p.Person? && j < |p.attribs| && IsFolder(c0, f) && c0.top !in c0.heap
    requires PersonGoing(c0, c, f, np, p, |p.emails|, j, l0, l) && EmailsMatch(h, p.emails, c.heap, c.heap[np].emails)
    requires Inv(c') && Grown(c, c', np) && c'.top == c.top && NumPersons(c') == NumPersons(c)
    requires IsPerson(c', np) && c'.heap[np] == c.heap[np].(attribs := c.heap[np].attribs + [x])
    requires x.name == p.attribs[j].name && x.value == p.attribs[j].value
    ensures PersonGoing(c0, c', f, np, p, |p.emails|, j + 1, l0, l)
      && EmailsMatch(h, p.emails, c'.heap, c'.heap[np].emails)
  {
    hide Inv;
    GrownTrans(c0, c, c', f, np);
    TakeMore(p.attribs, j);
    AttribValsAppend(p.attribs[..j], p.attribs[j]);
    AttribValsAppend(c.heap[np].attribs, x);
    hide Grown, NumPersons, AttribVals;
    var es: seq<Ref> := c'.heap[np].emails;
    forall k: nat | k < |es|
      ensures np < es[k] < c'.top && Owned(c', es[k]) && es[k] in c.heap && c'.heap[es[k]] == c.heap[es[k]]
    {
      assert es[k] == c.heap[np].emails[k];
      GrownKeeps(c, c', np, es[k]);
    }
    GrownKeeps(c, c', np, f);
  }

  /** When everything has been copied. */
  lemma PersonCopied(c0: Cache, c: Cache, f: Ref, np: Ref, p: Item, l0: CopyList, l: CopyList, h: map<Ref, Item>,
                     person: Ref, v: PersonVal, s: set<Ref>)
    requires p.Person? && IsFolder(c0, f) && PersonGoing(c0, c, f, np, p, |p.emails|, |p.attribs|, l0, l)
    requires person in h && h[person] == p && ShowsPerson(h, person, v, s)
    requires IsPerson(c, np) && EmailsMatch(h, p.emails, c.heap, c.heap[np].emails)
    ensures Inv(c) && Grown(c0, c, f) && np == c0.top && f in c.heap
    ensures c.heap[f] == WithList(c0.heap[f], PersonKind, c0.heap[f].persons + [np])
    ensures ShowsPerson(c.heap, np, v, Range(np, c.top)) && c.heap[np].parent == Some(f)
    ensures forall e | e in c.heap[np].emails :: Owned(c, e)
    ensures Originals(l) == Originals(l0) + p.emails && Copies(l) == Copies(l0) + c.heap[np].emails
    ensures NumPersons(c) == NumPersons(c0) + 1
  {
    hide Inv, Grown, NumPersons;
    assert p.emails[..|p.emails|] == p.emails && p.attribs[..|p.attribs|] == p.attribs;
    forall k | 0 <= k < |v.emails|
      ensures ShowsEmail(c.heap, c.heap[np].emails[k], v.emails[k], Range(np, c.top))
    {
      assert ShowsEmail(h, p.emails[k], v.emails[k], s);
    }
  }

  /** `addrclip_cache_add_person`.  The person may lie in the same cache, but then not be the
      folder that receives the copy; `v` is what it shows and `s` the handles it takes up. */
  method AddPersonCopy(cache: AddressCache, folder: Ref, src: AddressCache, person: Ref, copyList: CopyList,
                       ghost v: PersonVal, ghost s: set<Ref>)
    returns (np: Ref, list: CopyList)
    requires Inv(cache.View()) && IsFolder(cache.View(), folder)
    requires ShowsPerson(src.heap, person, v, s) && (src == cache ==> folder !in s)
    modifies cache`heap, cache`itemHash, cache`nextID, cache`top, cache`dirtyFlag
    ensures Inv(cache.View()) && Grown(old(cache.View()), cache.View(), folder)
    ensures np == old(cache.top) && np !in old(cache.heap)
    ensures folder in cache.heap && cache.heap[folder] ==
      WithList(old(cache.heap[folder]), PersonKind, old(cache.heap[folder]).persons + [np])
    ensures ShowsPerson(cache.heap, np, v, Range(np, cache.top)) && cache.heap[np].parent == Some(folder)
    ensures forall e | e in cache.heap[np].emails :: Owned(cache.View(), e)
    ensures Originals(list) == Originals(copyList) + old(src.heap[person]).emails
    ensures Copies(list) == Copies(copyList) + cache.heap[np].emails
    ensures NumPersons(cache.View()) == NumPersons(old(cache.View())) + 1
  {
    hide Inv, Grown, NumPersons;
    ghost var c0 := cache.View();
    ghost var h := src.heap;
    var p := src.heap[person];
    np := CopyInto(cache, folder, Person("", p.name, None, p.firstName, p.lastName, p.nickName, [], []));
    list := copyList;
    var node := p.emails;
    var i := 0;
    while i < |node|
      invariant 0 <= i <= |node|
      invariant PersonGoing(c0, cache.View(), folder, np, p, i, 0, copyList, list)
      invariant EmailsMatch(h, p.emails, cache.heap, cache.heap[np].emails)
      invariant src != cache ==> src.heap == h
    {
      ghost var c := cache.View();
      assert ShowsEmail(h, node[i], v.emails[i], s);
      if src == cache {
        GrownKeeps(c0, c, folder, node[i]);
      }
      assert node[i] in src.heap && src.heap[node[i]] == h[node[i]];
      var newEMail := CopyEmail(cache, np, src.heap[node[i]]);
      PersonEmailStep(c0, c, cache.View(), folder, np, p, i, copyList, list, h);
      list := list + [(node[i], newEMail)];
      i := i + 1;
    }
    assert p.emails[..i] == p.emails;
    var attribs := p.attribs;
    var j := 0;
    while j < |attribs|
      invariant 0 <= j <= |attribs|
      invariant PersonGoing(c0, cache.View(), folder, np, p, |p.emails|, j, copyList, list)
      invariant EmailsMatch(h, p.emails, cache.heap, cache.heap[np].emails)
    {
      ghost var c := cache.View();
      CopyAttrib(cache, np, attribs[j]);
      ghost var a := attribs[j];
      PersonAttribStep(c0, c, cache.View(), folder, np, p, j, copyList, list, h,
                       Attrib(if a.uid != "" then a.uid else Decimal(cache.nextID), a.name, a.value));
      j := j + 1;
    }
    assert p.attribs[..j] == p.attribs;
    PersonCopied(c0, cache.View(), folder, np, p, copyList, list, h, person, v, s);
  }

  // ---------- groups ----------

  /** The copy of an original, by its first entry in the list. */
  function CopyOf(l: CopyList, e: Ref): Option<Ref> {
    match IndexOf(Originals(l), e)
    case None => None
    case Some(i) => Some(l[i].1)
  }

  /** `addrclip_find_copied_email`. */
  method FindCopied(copyList: CopyList, original: Ref) returns (copy: Option<Ref>)
    ensures copy == CopyOf(copyList, original)
  {
    copy := None;
    var i := 0;
    while i < |copyList|
      invariant 0 <= i <= |copyList|
      invariant original !in Originals(copyList)[..i]
    {
      if copyList[i].0 == original {
        FirstIndex(Originals(copyList), original, i);
        return Some(copyList[i].1);
      }
      i := i + 1;
    }
    assert Originals(copyList)[..i] == Originals(copyList);
  }

  lemma {:induction false} FirstIndex(s: seq<Ref>, x: Ref, i: nat)
    requires i < |s| && s[i] == x && x !in s[..i]
    ensures IndexOf(s, x) == Some(i)
  {
    if i > 0 {
      assert s[0] in s[..i];
      assert s[1..][..i - 1] == s[..i][1..];
      FirstIndex(s[1..], x, i - 1);
    }
  }

  lemma {:induction false} IndexNoDup(s: seq<Ref>, i: nat)
    requires i < |s| && NoDup(s)
    ensures IndexOf(s, s[i]) == Some(i)
  {
    FirstIndex(s, s[i], i);
  }

  lemma {:induction false} PositionsAppend(es: seq<Ref>, ms: seq<Ref>, m: Ref)
    ensures Positions(es, ms + [m]) == Positions(es, ms) + [IndexOf(es, m)]
  {
    if ms != [] {
      assert (ms + [m])[1..] == ms[1..] + [m];
      PositionsAppend(es, ms[1..], m);
    }
  }

  lemma {:induction false} SomeOnlyAppend(s: seq<Option<nat>>, x: Option<nat>)
    ensures SomeOnly(s + [x]) == SomeOnly(s) + if x.Some? then [x] else []
  {
    if s != [] {
      assert (s + [x])[1..] == s[1..] + [x];
      SomeOnlyAppend(s[1..], x);
    }
  }

  /** `m` is the copy of one of the first `i` members. */
  ghost predicate FromEarlier(l: CopyList, ms: seq<Ref>, i: nat, m: Ref) {
    i <= |ms| && exists j :: 0 <= j < i && CopyOf(l, ms[j]) == Some(m)
  }

  /** The first `i` members of `g` have been looked up: those that were copied have joined. */
  ghost predicate GroupGoing(c0: Cache, c: Cache, f: Ref, ng: Ref, g: Item, i: nat, l: CopyList)
    requires g.Group? && i <= |g.members| && IsFolder(c0, f)
  {
    && Inv(c) && Grown(c0, c, f) && ng == c0.top && c.top == ng + 1 && f != ng
    && f in c.heap && c.heap[f] == WithList(c0.heap[f], GroupKind, c0.heap[f].groups + [ng])
    && IsGroup(c, ng) && c.heap[ng].name == g.name && c.heap[ng].remarks == g.remarks && c.heap[ng].parent == Some(f)
    && Positions(Copies(l), c.heap[ng].members) == SomeOnly(Positions(Originals(l), g.members[..i]))
    && (forall m | m in c.heap[ng].members :: FromEarlier(l, g.members, i, m))
    && NumPersons(c) == NumPersons(c0)
  }

  /** The next copy has not joined yet: two members with the same copy would be the same. */
  lemma {:induction false} NotJoined(ms: seq<Ref>, i: nat, l: CopyList, k: nat)
    requires i < |ms| && NoDup(ms) && NoDup(Copies(l)) && IndexOf(Originals(l), ms[i]) == Some(k)
    ensures k < |l| && !FromEarlier(l, ms, i, l[k].1)
  {
    hide IndexOf, Originals, Copies;
    if FromEarlier(l, ms, i, l[k].1) {
      var j :| 0 <= j < i && CopyOf(l, ms[j]) == Some(l[k].1);
      var n := IndexOf(Originals(l), ms[j]).value;
      SameCopy(l, n, k);
    }
  }

  lemma SameCopy(l: CopyList, n: nat, k: nat)
    requires n < |l| && k < |l| && NoDup(Copies(l)) && l[n].1 == l[k].1
    ensures n == k
  {
    var s := Copies(l);
    assert s[n] == s[k];
  }

  /** `c'` is `c` with the email in the group `ng`. */
  ghost predicate JoinedBy(c: Cache, c': Cache, ng: Ref, e: Ref)
    requires IsGroup(c, ng)
  {
    && Inv(c') && Grown(c, c', ng) && c'.top == c.top && NumPersons(c') == NumPersons(c) && ng in c'.heap
    && c'.heap[ng] == (if e in c.heap[ng].members then c.heap[ng] else c.heap[ng].(members := c.heap[ng].members + [e]))
  }

  lemma {:induction false} FromLater(l: CopyList, ms: seq<Ref>, i: nat, k: nat)
    requires i < |ms|
    ensures forall m | FromEarlier(l, ms, i, m) :: FromEarlier(l, ms, i + 1, m)
    ensures k < |l| && IndexOf(Originals(l), ms[i]) == Some(k) ==> FromEarlier(l, ms, i + 1, l[k].1)
  {
    if k < |l| && IndexOf(Originals(l), ms[i]) == Some(k) {
      assert CopyOf(l, ms[i]) == Some(l[k].1);
    }
  }

  lemma {:induction false} GroupJoinStep(c0: Cache, c: Cache, c': Cache, f: Ref, ng: Ref, g: Item, i: nat, l: CopyList,
      k: nat)
    requires g.Group? && i < |g.members| && IsFolder(c0, f) && c0.top !in c0.heap && NoDup(g.members)
      && NoDup(Copies(l))
    requires GroupGoing(c0, c, f, ng, g, i, l)
    requires IndexOf(Originals(l), g.members[i]) == Some(k) && k < |l| && JoinedBy(c, c', ng, l[k].1)
    ensures GroupGoing(c0, c', f, ng, g, i + 1, l)
  {
    hide Inv, Grown, NumPersons, Positions, SomeOnly, IndexOf, WithList, FromEarlier;
    var e := l[k].1;
    TakeMore(g.members, i);
    PositionsAppend(Originals(l), g.members[..i], g.members[i]);
    SomeOnlyAppend(Positions(Originals(l), g.members[..i]), Some(k));
    NotJoined(g.members, i, l, k);
    assert e !in c.heap[ng].members;
    GrownTrans(c0, c, c', f, ng);
    GrownKeeps(c, c', ng, f);
    PositionsAppend(Copies(l), c.heap[ng].members, e);
    IndexNoDup(Copies(l), k);
    FromLater(l, g.members, i, k);
  }

  lemma {:induction false} GroupSkipStep(c0: Cache, c: Cache, f: Ref, ng: Ref, g: Item, i: nat, l: CopyList)
    requires g.Group? && i < |g.members| && IsFolder(c0, f) && GroupGoing(c0, c, f, ng, g, i, l)
    requires IndexOf(Originals(l), g.members[i]) == None
    ensures GroupGoing(c0, c, f, ng, g, i + 1, l)
  {
    hide Inv, Grown, NumPersons, Positions, SomeOnly, IndexOf, WithList, FromEarlier;
    TakeMore(g.members, i);
    PositionsAppend(Originals(l), g.members[..i], g.members[i]);
    SomeOnlyAppend(Positions(Originals(l), g.members[..i]), None);
    FromLater(l, g.members, i, 0);
  }

  lemma {:induction false} GroupStep(c0: Cache, c: Cache, c': Cache, f: Ref, ng: Ref, g: Item, i: nat, l: CopyList)
    requires g.Group? && i < |g.members| && IsFolder(c0, f) && c0.top !in c0.heap && NoDup(g.members)
      && NoDup(Copies(l))
    requires GroupGoing(c0, c, f, ng, g, i, l)
    requires CopyOf(l, g.members[i]) == None ==> c' == c
    requires CopyOf(l, g.members[i]).Some? ==> JoinedBy(c, c', ng, CopyOf(l, g.members[i]).value)
    ensures GroupGoing(c0, c', f, ng, g, i + 1, l)
  {
    hide GroupGoing, JoinedBy, Inv;
    match IndexOf(Originals(l), g.members[i])
    case None => GroupSkipStep(c0, c, f, ng, g, i, l);
    case Some(k) => GroupJoinStep(c0, c, c', f, ng, g, i, l, k);
  }

  /** `addrclip_cache_add_group`: the copy refers to the copies of those members that were
      copied with it, in the same order. */
  method AddGroupCopy(cache: AddressCache, folder: Ref, src: AddressCache, group: Ref, copyList: CopyList,
                      ghost v: GroupVal, ghost s: set<Ref>)
    returns (ng: Ref)
    requires Inv(cache.View()) && IsFolder(cache.View(), folder)
    requires ShowsGroup(src.heap, group, v, Originals(copyList), s) && NoDup(src.heap[group].members)
    requires NoDup(Copies(copyList)) && forall e | e in Copies(copyList) :: Owned(cache.View(), e)
    modifies cache`heap, cache`itemHash, cache`nextID, cache`top, cache`dirtyFlag
    ensures Inv(cache.View()) && Grown(old(cache.View()), cache.View(), folder)
    ensures ng == old(cache.top) && ng !in old(cache.heap)
    ensures folder in cache.heap && cache.heap[folder] ==
      WithList(old(cache.heap[folder]), GroupKind, old(cache.heap[folder]).groups + [ng])
    ensures ShowsGroup(cache.heap, ng, LocalGroup(v), Copies(copyList), Range(ng, cache.top))
    ensures cache.heap[ng].parent == Some(folder)
    ensures NumPersons(cache.View()) == NumPersons(old(cache.View()))
  {
    hide Inv;
    ghost var c0 := cache.View();
    var g := src.heap[group];
    ng := CopyInto(cache, folder, Group("", g.name, None, g.remarks, []));
    var node := g.members;
    var i := 0;
    while i < |node|
      invariant 0 <= i <= |node|
      invariant GroupGoing(c0, cache.View(), folder, ng, g, i, copyList)
    {
      ghost var c := cache.View();
      var emailCopy := FindCopied(copyList, node[i]);
      if emailCopy.Some? {
        assert emailCopy.value in Copies(copyList) by {
          assert Copies(copyList)[IndexOf(Originals(copyList), node[i]).value] == emailCopy.value;
        }
        assert Owned(c0, emailCopy.value);
        GrownKeeps(c0, c, folder, emailCopy.value);
        JoinGrows(c, ng, emailCopy.value);
        cache.GroupAddEmail(ng, emailCopy.value);
      }
      GroupStep(c0, c, cache.View(), folder, ng, g, i, copyList);
      i := i + 1;
    }
    assert g.members[..i] == g.members;
  }
}
