/** Saving and loading (src/addrbook.c:364-907, 1029-1256): what a book writes, and why reading it
    makes the same book again. */
module BookRound {
  import opened Items
  import opened CacheState
  import opened CacheEdit
  import opened XmlFiles
  import opened BookDoc
  import opened BookParse
  import opened BookResolve

  // ---------- what is written ----------

  function EmailRecOf(h: map<Ref, Item>, e: Ref): EmailRec {
    if e in h && h[e].EMail? then EmailRec(h[e].uid, h[e].name, h[e].address, h[e].remarks)
      else EmailRec("", "", "", "")
  }

  function EmailRecs(h: map<Ref, Item>, es: seq<Ref>): (r: seq<EmailRec>)
    ensures |r| == |es|
  {
    seq(|es|, i requires 0 <= i < |es| => EmailRecOf(h, es[i]))
  }

  function PersonRecOf(h: map<Ref, Item>, p: Ref): PersonRec
    requires p in h && h[p].Person?
  {
    var i := h[p];
    PersonRec(i.uid, i.firstName, i.lastName, i.nickName, i.name, EmailRecs(h, i.emails), i.attribs)
  }

  function UidOf(h: map<Ref, Item>, r: Ref): Uid {
    if r in h then h[r].uid else ""
  }

  function Uids(h: map<Ref, Item>, rs: seq<Ref>): (us: seq<Uid>)
    ensures |us| == |rs|
  {
    seq(|rs|, i requires 0 <= i < |rs| => UidOf(h, rs[i]))
  }

  /** A member is written as the uid of the person that has it and its own. */
  function MemberRecOf(h: map<Ref, Item>, e: Ref): MemberRec {
    MemberRec(if e in h && h[e].parent.Some? then UidOf(h, h[e].parent.value) else "", UidOf(h, e))
  }

  function MemberRecs(h: map<Ref, Item>, es: seq<Ref>): (r: seq<MemberRec>)
    ensures |r| == |es|
  {
    seq(|es|, i requires 0 <= i < |es| => MemberRecOf(h, es[i]))
  }

  function GroupRecOf(h: map<Ref, Item>, g: Ref): GroupRec
    requires g in h && h[g].Group?
  {
    GroupRec(h[g].uid, h[g].name, h[g].remarks, MemberRecs(h, h[g].members))
  }

  function ItemRecs(h: map<Ref, Item>, k: Kind, rs: seq<Ref>): (r: seq<ItemRec>)
    ensures |r| == |rs|
  {
    seq(|rs|, i requires 0 <= i < |rs| => ItemRec(k, UidOf(h, rs[i])))
  }

  /** A folder's items are written persons first, then groups, then folders. */
  function FolderRecOf(h: map<Ref, Item>, f: Ref): FolderRec
    requires f in h && h[f].Folder?
  {
    var i := h[f];
    FolderRec(i.uid, i.name, i.remarks, ItemRecs(h, PersonKind, i.persons) + ItemRecs(h, GroupKind,
      i.groups) + ItemRecs(h, FolderKind, i.folders))
  }

  function PersonRecs(h: map<Ref, Item>, ps: seq<Ref>): (r: seq<PersonRec>)
    requires forall p | p in ps :: p in h && h[p].Person?
    ensures |r| == |ps|
  {
    if ps == [] then [] else PersonRecs(h, ps[..|ps| - 1]) + [PersonRecOf(h, ps[|ps| - 1])]
  }

  function GroupRecs(h: map<Ref, Item>, gs: seq<Ref>): (r: seq<GroupRec>)
    requires forall g | g in gs :: g in h && h[g].Group?
    ensures |r| == |gs|
  {
    if gs == [] then [] else GroupRecs(h, gs[..|gs| - 1]) + [GroupRecOf(h, gs[|gs| - 1])]
  }

  function FolderRecs(h: map<Ref, Item>, fs: seq<Ref>): (r: seq<FolderRec>)
    requires forall f | f in fs :: f in h && h[f].Folder?
    ensures |r| == |fs|
  {
    if fs == [] then [] else FolderRecs(h, fs[..|fs| - 1]) + [FolderRecOf(h, fs[|fs| - 1])]
  }

  lemma {:induction false} VisitedAre(c: Cache, order: seq<Uid>, k: Kind)
    ensures forall r | r in Visited(c, order, k) :: r in c.heap && Is(c.heap[r], k)
  {
    if order != [] {
      VisitedAre(c, order[1..], k);
    }
  }

  /** The document that a traversal of the hash table in this order writes. */
  function DocOf(c: Cache, name: string, order: seq<Uid>): Doc {
    VisitedAre(c, order, PersonKind);
    VisitedAre(c, order, GroupKind);
    VisitedAre(c, order, FolderKind);
    Doc(name, PersonRecs(c.heap, Visited(c, order, PersonKind)), GroupRecs(c.heap, Visited(c, order, GroupKind)),
        FolderRecs(c.heap, Visited(c, order, FolderKind)))
  }

  // ---------- what comes back ----------

  /** The text of an attribute loses the white space around it when it is read; nothing else does. */
  function StrippedAll(s: seq<Attrib>): (r: seq<Attrib>)
    ensures |r| == |s|
  {
    seq(|s|, i requires 0 <= i < |s| => Attrib(s[i].uid, s[i].name, Strip(s[i].value)))
  }

  function Stripped(p: PersonRec): PersonRec {
    p.(attribs := StrippedAll(p.attribs))
  }

  // ---------- loading one person ----------

  /** The objects `from`, `from + 1`, and so on. */
  function Consecutive(from: Ref, n: nat): (r: seq<Ref>)
    ensures |r| == n
  {
    seq(n, i requires 0 <= i < n => from + i)
  }

  function Span(from: Ref, n: nat): (r: set<Ref>)
    ensures forall z :: z in r <==> from <= z < from + n
  {
    if n == 0 then {} else Span(from, n - 1) + {from + n - 1}
  }

  /** Nothing that is loaded under these uids clashes with what is there. */
  ghost predicate UnusedUids(s: Loading, us: seq<Uid>) {
    NoDup(us) && forall u | u in us :: u !in s.c.hash
  }

  /** Nor with what the counter will give out. */
  ghost predicate FreshUids(s: Loading, us: seq<Uid>) {
    UnusedUids(s, us) && forall u | u in us :: u != "" && FreshUid(s.c, u)
  }

  function AddressUids(es: seq<EmailRec>): (r: seq<Uid>)
    ensures |r| == |es|
  {
    seq(|es|, i requires 0 <= i < |es| => es[i].uid)
  }

  function EmailItem(e: EmailRec, p: Ref): Item {
    EMail(e.uid, e.alias, Some(p), e.address, e.remarks)
  }

  function PersonItem(p: PersonRec, es: seq<Ref>, attribs: seq<Attrib>): Item {
    Person(p.uid, p.commonName, None, p.firstName, p.lastName, p.nickName, es, attribs)
  }

  /** The hash with the first `n` addresses in it. */
  function HashFrom(hash: map<Uid, Ref>, es: seq<EmailRec>, from: Ref, n: nat): map<Uid, Ref>
    requires n <= |es|
  {
    if n == 0 then hash else HashFrom(hash, es, from, n - 1)[es[n - 1].uid := from + (n - 1)]
  }

  function ReadItem(s: Loading, p: PersonRec, n: nat, z: Ref): Item
    requires n <= |p.emails| && (z in s.c.heap || s.c.top <= z <= s.c.top + n)
  {
    var r := s.c.top;
    if z == r then PersonItem(p, Consecutive(r + 1, n), [])
    else if r < z <= r + n then EmailItem(p.emails[z - r - 1], r)
    else s.c.heap[z]
  }

  /** `t` is `s` with a new person and the first `n` of its addresses. */
  ghost predicate AddressesRead(s: Loading, t: Loading, p: PersonRec, n: nat)
    requires n <= |p.emails|
  {
    var r := s.c.top;
    && t.items == s.items && t.temp == s.temp && t.c.root == s.c.root && t.c.nextId == s.c.nextId
      && t.c.top == r + 1 + n
    && t.c.hash == HashFrom(s.c.hash, p.emails, r + 1, n)
    && t.c.heap.Keys == s.c.heap.Keys + Span(r, n + 1)
    && forall z | z in t.c.heap :: t.c.heap[z] == ReadItem(s, p, n, z)
  }

  lemma AddressValues(e: EmailRec)
    ensures var a := AddressElem(e).tag.attr;
      && a != [] && Value(a, "uid") == e.uid && Value(a, "alias") == e.alias
      && Value(a, "email") == e.address && Value(a, "remarks") == e.remarks
  {
    var a := AddressElem(e).tag.attr;
    ValueAt(a, "uid", 0);
    ValueAt(a, "alias", 1);
    ValueAt(a, "email", 2);
    ValueAt(a, "remarks", 3);
  }

  lemma {:induction false} HashFromAt(hash: map<Uid, Ref>, es: seq<EmailRec>, from: Ref, n: nat, u: Uid)
    requires n <= |es| && NoDup(AddressUids(es)) && forall i | 0 <= i < |es| :: es[i].uid !in hash
    ensures u in HashFrom(hash, es, from, n) <==> u in hash || exists i :: 0 <= i < n && es[i].uid == u
    ensures u in hash ==> HashFrom(hash, es, from, n)[u] == hash[u]
    ensures forall i | 0 <= i < n :: es[i].uid in HashFrom(hash, es, from, n)
                                     && HashFrom(hash, es, from, n)[es[i].uid] == from + i
    decreases n
  {
    if n > 0 {
      HashFromAt(hash, es, from, n - 1, u);
      var us := AddressUids(es);
      forall i | 0 <= i < n
        ensures es[i].uid in HashFrom(hash, es, from, n) && HashFrom(hash, es, from, n)[es[i].uid] == from + i
      {
        assert i < n - 1 ==> us[i] != us[n - 1];
      }
    }
  }

  lemma AddParsedIs(c: Cache, p: Ref, e: Item)
    requires IsPerson(c, p) && p < c.top && c.top !in c.heap && e.EMail? && e.uid !in c.hash
    ensures AddParsed(c, p, e) == Cache(
      c.heap[p := c.heap[p].(emails := c.heap[p].emails + [c.top])][c.top :=
        EMail(e.uid, e.name, Some(p), e.address, e.remarks)],
      c.hash[e.uid := c.top], c.root, c.nextId, c.top + 1, true)
  {
    var m := MakeEmail(c, e);
    assert AddParsed(c, p, e).heap ==
      c.heap[p := c.heap[p].(emails := c.heap[p].emails + [c.top])][c.top :=
        EMail(e.uid, e.name, Some(p), e.address, e.remarks)];
  }

  /** All uids of the addresses are new. */
  ghost predicate NewAddresses(s: Loading, es: seq<EmailRec>) {
    NoDup(AddressUids(es)) && forall i | 0 <= i < |es| :: es[i].uid !in s.c.hash
  }

  lemma AddressParsed(s: Loading, t: Loading, p: PersonRec, n: nat)
    requires LoadOk(s) && n < |p.emails| && NewAddresses(s, p.emails) && AddressesRead(s, t, p, n)
    ensures var r := s.c.top; var e := AddressElem(p.emails[n]);
      r in t.c.heap && ParseElement(Addresses(Some(r)), e.tag, ElemText(e), t) == t.(c := Cache(
        t.c.heap[r := PersonItem(p, Consecutive(r + 1, n) + [t.c.top], [])][t.c.top := EmailItem(p.emails[n], r)],
        t.c.hash[p.emails[n].uid := t.c.top], t.c.root, t.c.nextId, t.c.top + 1, true))
  {
    var r := s.c.top;
    var e := p.emails[n];
    AddressValues(e);
    HashFromAt(s.c.hash, p.emails, r + 1, n, e.uid);
    AddressUnseen(p.emails, n);
    assert t.c.top !in t.c.heap;
    hide LoadOk, HashFrom;
    AddParsedIs(t.c, r, EMail(e.uid, e.alias, None, e.address, e.remarks));
  }

  lemma OneMore(hash: map<Uid, Ref>, es: seq<EmailRec>, r: Ref, n: nat)
    requires n < |es|
    ensures Consecutive(r + 1, n) + [r + 1 + n] == Consecutive(r + 1, n + 1)
    ensures Span(r, n + 1) + {r + 1 + n} == Span(r, n + 2) && r in Span(r, n + 1)
    ensures HashFrom(hash, es, r + 1, n)[es[n].uid := r + 1 + n] == HashFrom(hash, es, r + 1, n + 1)
  {
  }

  lemma ReadOneMore(s: Loading, t: Loading, u: Loading, p: PersonRec, n: nat)
    requires n < |p.emails| && AddressesRead(s, t, p, n) && (forall z | z in s.c.heap :: z < s.c.top)
    requires var r := s.c.top;
      r in t.c.heap && u == t.(c := Cache(
        t.c.heap[r := PersonItem(p, Consecutive(r + 1, n) + [t.c.top], [])][t.c.top := EmailItem(p.emails[n], r)],
        t.c.hash[p.emails[n].uid := t.c.top], t.c.root, t.c.nextId, t.c.top + 1, true))
    ensures AddressesRead(s, u, p, n + 1)
  {
    hide HashFrom, Consecutive, PersonItem, EmailItem, Span;
    var r := s.c.top;
    OneMore(s.c.hash, p.emails, r, n);
    assert u.c.heap.Keys == s.c.heap.Keys + Span(r, n + 2);
    forall z | z in u.c.heap
      ensures u.c.heap[z] == ReadItem(s, p, n + 1, z)
    {
      ReadItemSame(s, t, p, n, z);
    }
  }

  lemma ReadItemSame(s: Loading, t: Loading, p: PersonRec, n: nat, z: Ref)
    requires n < |p.emails| && AddressesRead(s, t, p, n) && (forall z | z in s.c.heap :: z < s.c.top)
    ensures z in t.c.heap && z != s.c.top ==> z <= s.c.top + n && t.c.heap[z] == ReadItem(s, p, n + 1, z)
  {
    hide HashFrom, Consecutive, PersonItem, EmailItem;
    assert z in t.c.heap ==> t.c.heap[z] == ReadItem(s, p, n, z);
  }

  lemma AddressStep(s: Loading, t: Loading, p: PersonRec, n: nat)
    requires LoadOk(s) && n < |p.emails| && NewAddresses(s, p.emails) && AddressesRead(s, t, p, n)
    ensures var e := AddressElem(p.emails[n]);
      AddressesRead(s, ParseElement(Addresses(Some(s.c.top)), e.tag, ElemText(e), t), p, n + 1)
  {
    AddressParsed(s, t, p, n);
    var e := AddressElem(p.emails[n]);
    ReadOneMore(s, t, ParseElement(Addresses(Some(s.c.top)), e.tag, ElemText(e), t), p, n);
  }

  lemma AddressUnseen(es: seq<EmailRec>, n: nat)
    requires n < |es| && NoDup(AddressUids(es))
    ensures forall i | 0 <= i < n :: es[i].uid != es[n].uid
  {
    var us := AddressUids(es);
    forall i | 0 <= i < n
      ensures es[i].uid != es[n].uid
    {
      assert us[i] != us[n];
    }
  }

  lemma {:induction false} AddressesFrom(s: Loading, t: Loading, p: PersonRec, n: nat)
    requires LoadOk(s) && n <= |p.emails| && NewAddresses(s, p.emails) && AddressesRead(s, t, p, n)
    ensures AddressesRead(s, LoadElems(Addresses(Some(s.c.top)), AddressElems(p.emails)[n..], t), p, |p.emails|)
    decreases |p.emails| - n
  {
    hide LoadOk, AddressesRead, NewAddresses;
    var es := AddressElems(p.emails)[n..];
    if n < |p.emails| {
      AddressStep(s, t, p, n);
      assert es[0] == AddressElem(p.emails[n]) && es[1..] == AddressElems(p.emails)[n + 1..];
      AddressesFrom(s, ParseElement(Addresses(Some(s.c.top)), es[0].tag, ElemText(es[0]), t), p, n + 1);
    }
  }

  lemma AttributeValues(a: Attrib)
    ensures var v := AttributeElem(a).tag.attr; v != [] && Value(v, "uid") == a.uid && Value(v, "name") == a.name
  {
    var v := AttributeElem(a).tag.attr;
    ValueAt(v, "uid", 0);
    ValueAt(v, "name", 1);
  }

  function WithAttribs(t: Loading, r: Ref, attribs: seq<Attrib>): Loading
    requires IsPerson(t.c, r)
  {
    t.(c := t.c.(heap := t.c.heap[r := t.c.heap[r].(attribs := attribs)]))
  }

  lemma AttributeStep(t: Loading, r: Ref, attribs: seq<Attrib>, n: nat)
    requires IsPerson(t.c, r) && n < |attribs|
    ensures var e := AttributeElem(attribs[n]); var done := StrippedAll(attribs);
      ParseElement(Attributes(Some(r)), e.tag, ElemText(e), WithAttribs(t, r, done[..n])) ==
        WithAttribs(t, r, done[..n + 1])
  {
    hide Value, Strip;
    AttributeValues(attribs[n]);
    var done := StrippedAll(attribs);
    assert done[..n] + [done[n]] == done[..n + 1];
    var u := WithAttribs(t, r, done[..n]);
    var e := AttributeElem(attribs[n]);
    assert ElemText(e) == attribs[n].value;
    assert ParseElement(Attributes(Some(r)), e.tag, ElemText(e), u).c.heap == WithAttribs(t, r, done[..n + 1]).c.heap;
  }

  lemma {:induction false} AttributesFrom(t: Loading, r: Ref, attribs: seq<Attrib>, n: nat)
    requires IsPerson(t.c, r) && n <= |attribs|
    ensures LoadElems(Attributes(Some(r)), AttributeElems(attribs)[n..],
      WithAttribs(t, r, StrippedAll(attribs)[..n])) ==
      WithAttribs(t, r, StrippedAll(attribs))
    decreases |attribs| - n
  {
    hide ParseElement, WithAttribs, ElemText, AttributeElem, StrippedAll;
    var es := AttributeElems(attribs)[n..];
    if n < |attribs| {
      AttributeStep(t, r, attribs, n);
      assert es[0] == AttributeElem(attribs[n]) && es[1..] == AttributeElems(attribs)[n + 1..];
      AttributesFrom(t, r, attribs, n + 1);
    } else {
      assert StrippedAll(attribs)[..n] == StrippedAll(attribs);
    }
  }

  function PersonUids(p: PersonRec): seq<Uid> {
    [p.uid] + AddressUids(p.emails)
  }

  function LoadedItem(s: Loading, p: PersonRec, z: Ref): Item
    requires z in s.c.heap || s.c.top <= z <= s.c.top + |p.emails|
  {
    if z == s.c.top then PersonItem(p, Consecutive(z + 1, |p.emails|), StrippedAll(p.attribs))
      else ReadItem(s, p, |p.emails|, z)
  }

  /** `u` is `s` with one more person, its addresses, its attributes and its uids in the hash. */
  ghost predicate PersonLoaded(s: Loading, u: Loading, p: PersonRec) {
    var r := s.c.top;
    && u.items == s.items && u.temp == s.temp && u.c.root == s.c.root && u.c.nextId == s.c.nextId
      && u.c.top == r + 1 + |p.emails|
    && u.c.hash == HashFrom(s.c.hash, p.emails, r + 1, |p.emails|)[p.uid := r]
    && u.c.heap.Keys == s.c.heap.Keys + Span(r, |p.emails| + 1)
    && forall z | z in u.c.heap :: u.c.heap[z] == LoadedItem(s, p, z)
  }

  lemma UnusedParts(s: Loading, p: PersonRec)
    requires UnusedUids(s, PersonUids(p))
    ensures NewAddresses(s, p.emails) && p.uid !in s.c.hash
    ensures forall i | 0 <= i < |p.emails| :: p.emails[i].uid != p.uid
  {
    var us := PersonUids(p);
    assert us[0] == p.uid && p.uid in us;
    forall i | 0 <= i < |p.emails|
      ensures p.emails[i].uid != p.uid && p.emails[i].uid !in s.c.hash
    {
      assert us[i + 1] == p.emails[i].uid && us[i + 1] in us;
    }
    forall i, j | 0 <= i < j < |p.emails|
      ensures AddressUids(p.emails)[i] != AddressUids(p.emails)[j]
    {
      assert us[i + 1] == p.emails[i].uid && us[j + 1] == p.emails[j].uid;
    }
  }

  lemma FreshParts(s: Loading, p: PersonRec)
    requires FreshUids(s, PersonUids(p))
    ensures UnusedUids(s, PersonUids(p))
    ensures NewAddresses(s, p.emails) && p.uid !in s.c.hash && p.uid != "" && FreshUid(s.c, p.uid)
    ensures forall i | 0 <= i < |p.emails| :: p.emails[i].uid != p.uid
    ensures forall i | 0 <= i < |p.emails| :: p.emails[i].uid != "" && FreshUid(s.c, p.emails[i].uid)
  {
    UnusedParts(s, p);
    var us := PersonUids(p);
    assert us[0] == p.uid && p.uid in us;
    forall i | 0 <= i < |p.emails|
      ensures p.emails[i].uid != "" && FreshUid(s.c, p.emails[i].uid)
    {
      assert us[i + 1] == p.emails[i].uid && us[i + 1] in us;
    }
  }

  lemma StartPerson(s: Loading, p: PersonRec)
    requires LoadOk(s)
    ensures AddressesRead(s, WithMade(PersonTag(p), s), p, 0)
  {
    MadePerson(p);
    assert Consecutive(s.c.top + 1, 0) == [];
  }

  function AfterAddresses(s: Loading, p: PersonRec): Loading {
    LoadElems(Addresses(Some(s.c.top)), AddressElems(p.emails), WithMade(PersonTag(p), s))
  }

  lemma ReadPerson(s: Loading, t: Loading, p: PersonRec, n: nat)
    requires n <= |p.emails| && AddressesRead(s, t, p, n)
    ensures IsPerson(t.c, s.c.top) && t.c.heap[s.c.top] == PersonItem(p, Consecutive(s.c.top + 1, n), [])
    ensures t.c.hash == HashFrom(s.c.hash, p.emails, s.c.top + 1, n)
  {
    hide HashFrom, Consecutive;
    assert s.c.top in Span(s.c.top, n + 1);
  }

  lemma AfterRead(s: Loading, p: PersonRec)
    requires LoadOk(s) && NewAddresses(s, p.emails)
    ensures AddressesRead(s, AfterAddresses(s, p), p, |p.emails|)
  {
    StartPerson(s, p);
    AddressesFrom(s, WithMade(PersonTag(p), s), p, 0);
    assert AddressElems(p.emails)[0..] == AddressElems(p.emails);
  }

  lemma AfterAddressesIs(s: Loading, p: PersonRec)
    requires LoadOk(s) && UnusedUids(s, PersonUids(p))
    ensures AddressesRead(s, AfterAddresses(s, p), p, |p.emails|) && IsPerson(AfterAddresses(s, p).c, s.c.top)
    ensures p.uid !in AfterAddresses(s, p).c.hash
  {
    UnusedParts(s, p);
    HashFromAt(s.c.hash, p.emails, s.c.top + 1, |p.emails|, p.uid);
    hide LoadOk, UnusedUids, AfterAddresses, AddressesRead;
    AfterRead(s, p);
    ReadPerson(s, AfterAddresses(s, p), p, |p.emails|);
  }

  lemma AfterHashing(t: Loading, r: Ref, p: PersonRec)
    requires IsPerson(t.c, r) && t.c.heap[r].attribs == [] && t.c.heap[r].uid !in t.c.hash
    ensures IsPerson(Hashed(Some(r), t).c, r)
    ensures LoadElems(Attributes(Some(r)), AttributeElems(p.attribs), Hashed(Some(r), t)) ==
      WithAttribs(t.(c := t.c.(hash := t.c.hash[t.c.heap[r].uid := r])), r, StrippedAll(p.attribs))
  {
    var v := Hashed(Some(r), t);
    AttributesFrom(v, r, p.attribs, 0);
    assert AttributeElems(p.attribs)[0..] == AttributeElems(p.attribs) && StrippedAll(p.attribs)[..0] == [];
    assert v.c.heap[r].(attribs := []) == v.c.heap[r];
    assert WithAttribs(v, r, []) == v;
  }

  lemma LoadPersonIs(s: Loading, p: PersonRec)
    requires LoadOk(s) && UnusedUids(s, PersonUids(p))
    ensures PersonLoaded(s, LoadPerson(s, p), p)
  {
    hide LoadOk, UnusedUids, HashFrom, ParseElement, Hashed, LoadElems, AfterAddresses;
    var r := s.c.top;
    AfterAddressesIs(s, p);
    var t := AfterAddresses(s, p);
    assert t.c.heap[r] == PersonItem(p, Consecutive(r + 1, |p.emails|), []);
    AfterHashing(t, r, p);
    assert LoadPerson(s, p) == LoadElems(Attributes(Some(r)), AttributeElems(p.attribs),
      Hashed(Some(r), t)) by { LoadPersonParts(s, p); }
    var u := LoadPerson(s, p);
    forall z | z in u.c.heap
      ensures u.c.heap[z] == LoadedItem(s, p, z)
    {
      assert z in t.c.heap && t.c.heap[z] == ReadItem(s, p, |p.emails|, z);
    }
  }

  lemma LoadPersonParts(s: Loading, p: PersonRec)
    ensures LoadPerson(s, p) ==
      LoadElems(Attributes(Some(s.c.top)), AttributeElems(p.attribs), Hashed(Some(s.c.top), AfterAddresses(s, p)))
  {
  }

  // ---------- loading one group ----------

  /** The email that a member's uid leads to. */
  function EmailFor(c: Cache, u: Uid): Option<Ref> {
    var e := Lookup(c, u);
    if e.Some? && c.heap[e.value].EMail? then e else None
  }

  /** The members that a group is loaded with: each email that is found, once. */
  function Joined(c: Cache, ms: seq<MemberRec>): seq<Ref> {
    if ms == [] then []
    else
      var n := |ms| - 1;
      var es, e := Joined(c, ms[..n]), EmailFor(c, ms[n].eid);
      if e.Some? && e.value !in es then es + [e.value] else es
  }

  function WithGroup(s: Loading, g: GroupRec, members: seq<Ref>): Loading {
    s.(c := s.c.(heap := s.c.heap[s.c.top := Group(g.uid, g.name, None, g.remarks, members)],
                 hash := s.c.hash[g.uid := s.c.top],
                 top := s.c.top + 1, dirty := s.c.dirty || members != []))
  }

  lemma MemberStep(s: Loading, g: GroupRec, n: nat)
    requires LoadOk(s) && g.uid !in s.c.hash && n < |g.members|
    ensures var e := MemberElem(g.members[n]);
      ParseElement(Members(Some(s.c.top)), e.tag, ElemText(e), WithGroup(s, g, Joined(s.c, g.members[..n]))) ==
      WithGroup(s, g, Joined(s.c, g.members[..n + 1]))
  {
    var e := MemberElem(g.members[n]);
    var u := g.members[n].eid;
    ValueAt(e.tag.attr, "eid", 1);
    assert g.members[..n + 1][..n] == g.members[..n];
    var es := Joined(s.c, g.members[..n]);
    var t := WithGroup(s, g, es);
    assert s.c.top !in s.c.heap;
    assert EmailFor(t.c, u) == EmailFor(s.c, u);
    var x := EmailFor(s.c, u);
    if x.Some? && x.value !in es {
      assert Join(t.c, s.c.top, x.value).heap == WithGroup(s, g, es + [x.value]).c.heap;
    }
  }

  lemma {:induction false} MembersFrom(s: Loading, g: GroupRec, n: nat)
    requires LoadOk(s) && g.uid !in s.c.hash && n <= |g.members|
    ensures LoadElems(Members(Some(s.c.top)), MemberElems(g.members)[n..],
      WithGroup(s, g, Joined(s.c, g.members[..n]))) ==
      WithGroup(s, g, Joined(s.c, g.members))
    decreases |g.members| - n
  {
    hide LoadOk, WithGroup, ParseElement, Joined;
    var es := MemberElems(g.members)[n..];
    if n < |g.members| {
      MemberStep(s, g, n);
      assert es[0] == MemberElem(g.members[n]) && es[1..] == MemberElems(g.members)[n + 1..];
      MembersFrom(s, g, n + 1);
    } else {
      assert g.members[..n] == g.members;
    }
  }

  lemma LoadGroupIs(s: Loading, g: GroupRec)
    requires LoadOk(s) && g.uid !in s.c.hash
    ensures LoadGroup(s, g) == WithGroup(s, g, Joined(s.c, g.members))
  {
    MembersFrom(s, g, 0);
    MadeGroup(g);
    assert MemberElems(g.members)[0..] == MemberElems(g.members) && g.members[..0] == [];
    assert Hashed(Some(s.c.top), WithMade(GroupTag(g), s)) == WithGroup(s, g, []);
  }

  /** Each member's uid leads to an email, and no two to the same. */
  ghost predicate MembersFound(c: Cache, ms: seq<MemberRec>) {
    && (forall i {:trigger ms[i]} | 0 <= i < |ms| :: Lookup(c, ms[i].eid).Some?
                                                     && c.heap[Lookup(c, ms[i].eid).value].EMail?)
    && (forall i, j :: 0 <= i < j < |ms| ==> Lookup(c, ms[i].eid) != Lookup(c, ms[j].eid))
  }

  function Found(c: Cache, ms: seq<MemberRec>): (r: seq<Ref>)
    ensures |r| == |ms|
  {
    seq(|ms|, i requires 0 <= i < |ms| => if Lookup(c, ms[i].eid).Some? then Lookup(c, ms[i].eid).value else 0)
  }

  /** Where all members are found, all of them join. */
  lemma {:induction false} JoinedAll(c: Cache, ms: seq<MemberRec>)
    requires MembersFound(c, ms)
    ensures Joined(c, ms) == Found(c, ms)
    decreases |ms|
  {
    if ms != [] {
      var n := |ms| - 1;
      var front := ms[..n];
      assert forall i | 0 <= i < n :: front[i] == ms[i];
      JoinedAll(c, front);
      var es := Found(c, front);
      assert ms[n] == ms[n];
      forall i | 0 <= i < n
        ensures es[i] != Lookup(c, ms[n].eid).value
      {
        assert front[i] == ms[i] && Lookup(c, ms[i].eid) == Some(es[i]);
      }
      assert Found(c, ms) == es + [Lookup(c, ms[n].eid).value];
    }
  }

  // ---------- loading one folder ----------

  function ItemUids(s: seq<ItemRec>): (r: seq<Uid>)
    ensures |r| == |s|
  {
    seq(|s|, i requires 0 <= i < |s| => s[i].uid)
  }

  function WithFolder(s: Loading, f: FolderRec, us: seq<Uid>): Loading {
    s.(c := s.c.(heap := s.c.heap[s.c.top := Folder(f.uid, f.name, None, f.remarks, [], [], [])],
      hash := s.c.hash[f.uid := s.c.top],
                 top := s.c.top + 1),
       items := if us == [] then s.items else s.items[s.c.top := us],
       temp := s.temp + [s.c.top])
  }

  lemma {:induction false} ItemsFrom(s: Loading, f: FolderRec, n: nat)
    requires s.c.top !in s.items && n <= |f.items|
    ensures LoadElems(ItemList(Some(s.c.top)), ItemElems(f.items)[n..], WithFolder(s, f, ItemUids(f.items)[..n])) ==
      WithFolder(s, f, ItemUids(f.items))
    decreases |f.items| - n
  {
    var es := ItemElems(f.items)[n..];
    var us := ItemUids(f.items);
    if n < |f.items| {
      var e := ItemElem(f.items[n]);
      assert es[0] == e && es[1..] == ItemElems(f.items)[n + 1..];
      ValueAt(e.tag.attr, "uid", 1);
      assert us[..n] + [us[n]] == us[..n + 1];
      assert ParseElement(ItemList(Some(s.c.top)), e.tag, ElemText(e), WithFolder(s, f, us[..n])) ==
        WithFolder(s, f, us[..n + 1]);
      ItemsFrom(s, f, n + 1);
    } else {
      assert us[..n] == us;
    }
  }

  lemma LoadFolderIs(s: Loading, f: FolderRec)
    requires s.c.top !in s.items && s.c.top !in s.c.heap && f.uid !in s.c.hash
    ensures LoadFolder(s, f) == WithFolder(s, f, ItemUids(f.items))
  {
    ItemsFrom(s, f, 0);
    MadeFolder(f);
    assert ItemElems(f.items)[0..] == ItemElems(f.items) && ItemUids(f.items)[..0] == [];
    assert Queued(Some(s.c.top), WithMade(FolderTag(f), s)) == WithFolder(s, f, []);
  }

  // ---------- a sound book stays sound ----------

  lemma WithGroupFrames(s: Loading, g: GroupRec)
    requires Sound(s) && g.uid !in s.c.hash && g.uid != "" && FreshUid(s.c, g.uid) && MembersFound(s.c, g.members)
    ensures var t := WithGroup(s, g, Found(s.c, g.members)); PersonsOk(t.c) && EmailsOk(t.c) && GroupsOk(t.c)
                                                             && FreshOk(t.c)
  {
    var t := WithGroup(s, g, Found(s.c, g.members));
    var ms := Found(s.c, g.members);
    assert s.c.top !in s.c.heap;
    forall a, b | Namesakes(s.c, a, b)
      ensures a == b
    {
    }
    EmailFrame(s.c, t.c);
    FreshFrame(s.c, t.c);
    forall x | IsGroup(t.c, x)
      ensures GroupOk(t.c, x)
    {
      if x == s.c.top {
        forall i | 0 <= i < |ms|
          ensures Owned(t.c, ms[i])
        {
          assert g.members[i] == g.members[i];
        }
        forall i, j | 0 <= i < j < |ms|
          ensures ms[i] != ms[j]
        {
          assert Lookup(s.c, g.members[i].eid) == Some(ms[i]) && Lookup(s.c, g.members[j].eid) == Some(ms[j]);
        }
      } else {
        assert GroupOk(s.c, x);
        assert forall e | e in s.c.heap[x].members :: Owned(s.c, e) && Owned(t.c, e);
      }
    }
  }

  lemma WithGroupOk(s: Loading, g: GroupRec, members: seq<Ref>)
    requires LoadOk(s) && g.uid !in s.c.hash
    ensures LoadOk(WithGroup(s, g, members)) && s.c.top !in s.c.heap && s.c.root in s.c.heap
  {
    assert WithGroup(s, g, members).c.heap[s.c.root] == s.c.heap[s.c.root];
  }

  lemma WithGroupSound(s: Loading, g: GroupRec)
    requires Sound(s) && g.uid !in s.c.hash && g.uid != "" && FreshUid(s.c, g.uid) && MembersFound(s.c, g.members)
    ensures Sound(WithGroup(s, g, Found(s.c, g.members)))
  {
    hide PersonsOk, EmailsOk, GroupsOk, FreshOk, LoadOk, MembersFound, Found;
    var t := WithGroup(s, g, Found(s.c, g.members));
    WithGroupFrames(s, g);
    WithGroupOk(s, g, Found(s.c, g.members));
    forall f | IsFolder(t.c, f) && f != t.c.root
      ensures f in t.temp && Empty(t.c.heap[f])
    {
      assert IsFolder(s.c, f) && t.c.heap[f] == s.c.heap[f];
    }
  }

  lemma WithFolderFrames(s: Loading, f: FolderRec, us: seq<Uid>)
    requires Sound(s) && f.uid !in s.c.hash && f.uid != "" && FreshUid(s.c, f.uid)
    ensures var t := WithFolder(s, f, us); PersonsOk(t.c) && EmailsOk(t.c) && GroupsOk(t.c) && FreshOk(t.c)
  {
    hide RootOk, HashedOk, ListsOk, PlacedOk, PersonsOk, EmailsOk, UidsOk, GroupsOk, RootedOk, FreshOk;
    var t := WithFolder(s, f, us);
    assert s.c.top !in s.c.heap;
    forall a, b | Namesakes(s.c, a, b)
      ensures a == b
    {
    }
    EmailFrame(s.c, t.c);
    GroupFrame(s.c, t.c);
    FreshFrame(s.c, t.c);
  }

  lemma WithFolderSound(s: Loading, f: FolderRec, us: seq<Uid>)
    requires Sound(s) && f.uid !in s.c.hash && f.uid != "" && FreshUid(s.c, f.uid)
    ensures Sound(WithFolder(s, f, us))
  {
    WithFolderFrames(s, f, us);
    var t := WithFolder(s, f, us);
    assert s.c.top !in s.c.heap;
    hide PersonsOk, EmailsOk, GroupsOk, FreshOk;
    assert t.c.heap[t.c.root] == s.c.heap[s.c.root];
    assert s.c.top !in s.temp by {
      assert forall x | x in s.temp :: IsFolder(s.c, x);
    }
    NoDupAppend(s.temp, s.c.top);
    forall x | IsFolder(t.c, x) && x != t.c.root
      ensures x in t.temp && Empty(t.c.heap[x])
    {
      assert x != s.c.top ==> IsFolder(s.c, x) && t.c.heap[x] == s.c.heap[x];
    }
  }

  /** Everything that was loaded is still there, unchanged. */
  ghost predicate Keeps(s: Loading, t: Loading) {
    && t.c.root == s.c.root && t.c.nextId == s.c.nextId && t.c.top >= s.c.top
    && (forall z {:trigger z in t.c.heap} {:trigger t.c.heap[z]} | z in s.c.heap :: z in t.c.heap
                                                                                    && t.c.heap[z] == s.c.heap[z])
    && (forall u {:trigger u in t.c.hash} | u in s.c.hash :: u in t.c.hash && t.c.hash[u] == s.c.hash[u])
    && (forall f | f in s.c.heap :: ItemsOf(t, f) == ItemsOf(s, f))
  }

  lemma UidsOfPerson(p: PersonRec, u: Uid)
    ensures u in PersonUids(p) <==> u == p.uid || exists i :: 0 <= i < |p.emails| && p.emails[i].uid == u
  {
    var us := PersonUids(p);
    assert us[0] == p.uid;
    assert forall i | 0 <= i < |p.emails| :: us[i + 1] == p.emails[i].uid;
    if u in us && u != p.uid {
      var i :| 0 <= i < |us| && us[i] == u;
      assert us[i] == p.emails[i - 1].uid;
    }
  }

  lemma LoadedHash(s: Loading, t: Loading, p: PersonRec, u: Uid)
    requires LoadOk(s) && UnusedUids(s, PersonUids(p)) && PersonLoaded(s, t, p)
    ensures u in t.c.hash <==> u in s.c.hash || u in PersonUids(p)
    ensures u in s.c.hash ==> t.c.hash[u] == s.c.hash[u]
    ensures p.uid in t.c.hash && t.c.hash[p.uid] == s.c.top
    ensures forall i | 0 <= i < |p.emails| :: p.emails[i].uid in t.c.hash
                                              && t.c.hash[p.emails[i].uid] == s.c.top + 1 + i
  {
    UnusedParts(s, p);
    var n := |p.emails|;
    assert NoDup(AddressUids(p.emails)) && t.c.hash == HashFrom(s.c.hash, p.emails, s.c.top + 1, n)[p.uid := s.c.top];
    hide LoadOk, UnusedUids, PersonLoaded, PersonUids, HashFrom, FreshUid;
    HashFromAt(s.c.hash, p.emails, s.c.top + 1, n, u);
    UidsOfPerson(p, u);
  }

  lemma LoadedHeap(s: Loading, t: Loading, p: PersonRec, z: Ref)
    requires LoadOk(s) && PersonLoaded(s, t, p)
    ensures z in t.c.heap <==> z in s.c.heap || s.c.top <= z <= s.c.top + |p.emails|
    ensures z in s.c.heap ==> z < s.c.top && t.c.heap[z] == s.c.heap[z]
    ensures z == s.c.top ==>
      z in t.c.heap && t.c.heap[z] == PersonItem(p, Consecutive(s.c.top + 1, |p.emails|), StrippedAll(p.attribs))
    ensures s.c.top < z <= s.c.top + |p.emails| ==> z in t.c.heap
                                                    && t.c.heap[z] == EmailItem(p.emails[z - s.c.top - 1], s.c.top)
  {
    hide HashFrom, Consecutive, StrippedAll, PersonItem, EmailItem;
    assert z in t.c.heap ==> t.c.heap[z] == LoadedItem(s, p, z);
    assert z in s.c.heap ==> z < s.c.top;
  }

  /** The person comes back as it was written, but for the white space around attribute text. */
  lemma LoadedRecord(s: Loading, t: Loading, p: PersonRec)
    requires LoadOk(s) && PersonLoaded(s, t, p)
    ensures IsPerson(t.c, s.c.top) && PersonRecOf(t.c.heap, s.c.top) == Stripped(p)
  {
    var r := s.c.top;
    LoadedHeap(s, t, p, r);
    var es := t.c.heap[r].emails;
    forall i | 0 <= i < |p.emails|
      ensures EmailRecOf(t.c.heap, es[i]) == p.emails[i]
    {
      LoadedHeap(s, t, p, r + 1 + i);
    }
    assert EmailRecs(t.c.heap, es) == p.emails;
  }

  lemma LoadedKeeps(s: Loading, t: Loading, p: PersonRec)
    requires LoadOk(s) && UnusedUids(s, PersonUids(p)) && PersonLoaded(s, t, p)
    ensures Keeps(s, t)
  {
    hide LoadOk, UnusedUids, HashFrom, LoadedItem;
    forall z | z in s.c.heap
      ensures z in t.c.heap && t.c.heap[z] == s.c.heap[z]
    {
      LoadedHeap(s, t, p, z);
    }
    forall u | u in s.c.hash
      ensures u in t.c.hash && t.c.hash[u] == s.c.hash[u]
    {
      LoadedHash(s, t, p, u);
    }
  }

  lemma LoadedPersons(s: Loading, t: Loading, p: PersonRec)
    requires Sound(s) && FreshUids(s, PersonUids(p)) && PersonLoaded(s, t, p)
    ensures PersonsOk(t.c) && EmailsOk(t.c) && GroupsOk(t.c)
  {
    forall q | IsPerson(t.c, q)
      ensures PersonOk(t.c, q)
    {
      LoadedPersonOk(s, t, p, q);
    }
    forall e | Owned(t.c, e)
      ensures EmailOk(t.c, e)
    {
      LoadedEmailOk(s, t, p, e);
    }
    hide PersonLoaded, FreshUids;
    forall g | IsGroup(t.c, g)
      ensures GroupOk(t.c, g)
    {
      LoadedHeap(s, t, p, g);
      assert GroupOk(s.c, g);
      forall e | e in s.c.heap[g].members
        ensures Owned(t.c, e)
      {
        LoadedHeap(s, t, p, e);
      }
    }
  }

  lemma LoadedPersonOk(s: Loading, t: Loading, p: PersonRec, q: Ref)
    requires Sound(s) && FreshUids(s, PersonUids(p)) && PersonLoaded(s, t, p) && IsPerson(t.c, q)
    ensures PersonOk(t.c, q)
  {
    hide PersonLoaded, FreshUids;
    LoadedHeap(s, t, p, q);
    if q != s.c.top {
      assert PersonOk(s.c, q);
      hide Sound;
      forall e | e in s.c.heap[q].emails
        ensures e in t.c.heap && t.c.heap[e] == s.c.heap[e]
      {
        LoadedHeap(s, t, p, e);
      }
    } else {
      hide Sound;
      forall e | e in t.c.heap[q].emails
        ensures e in t.c.heap && t.c.heap[e].EMail? && t.c.heap[e].parent == Some(q)
      {
        LoadedHeap(s, t, p, e);
      }
    }
  }

  lemma LoadedEmailOk(s: Loading, t: Loading, p: PersonRec, e: Ref)
    requires Sound(s) && FreshUids(s, PersonUids(p)) && PersonLoaded(s, t, p) && Owned(t.c, e)
    ensures EmailOk(t.c, e)
  {
    hide PersonLoaded, FreshUids;
    var r := s.c.top;
    FreshParts(s, p);
    LoadedHeap(s, t, p, e);
    if e in s.c.heap {
      assert EmailOk(s.c, e);
      LoadedKeeps(s, t, p);
      hide Sound;
      LoadedHeap(s, t, p, s.c.heap[e].parent.value);
      LoadedHash(s, t, p, s.c.heap[e].uid);
    } else {
      hide Sound;
      LoadedHeap(s, t, p, r);
      LoadedHash(s, t, p, p.uid);
      assert t.c.heap[r].emails[e - r - 1] == e;
      assert p.emails[e - r - 1].uid == t.c.heap[e].uid;
    }
  }

  lemma LoadedFresh(s: Loading, t: Loading, p: PersonRec)
    requires Sound(s) && FreshUids(s, PersonUids(p)) && PersonLoaded(s, t, p)
    ensures FreshOk(t.c)
  {
    FreshParts(s, p);
    forall r | r in t.c.heap
      ensures r < t.c.top
    {
      LoadedHeap(s, t, p, r);
    }
    forall u | u in t.c.hash
      ensures FreshUid(t.c, u)
    {
      LoadedHash(s, t, p, u);
      assert FreshUid(s.c, u);
    }
    forall e: Ref | Owned(t.c, e)
      ensures FreshUid(t.c, t.c.heap[e].uid)
    {
      LoadedHeap(s, t, p, e);
      if e in s.c.heap {
        assert FreshUid(s.c, s.c.heap[e].uid);
      } else {
        assert FreshUid(s.c, p.emails[e - s.c.top - 1].uid);
      }
    }
  }

  lemma LoadedEach(s: Loading, t: Loading, p: PersonRec, r: Ref)
    requires Sound(s) && FreshUids(s, PersonUids(p)) && PersonLoaded(s, t, p) && r in t.c.heap
    ensures r != t.c.root ==> t.c.heap[r].uid in t.c.hash && t.c.hash[t.c.heap[r].uid] == r
    ensures !t.c.heap[r].EMail? ==> t.c.heap[r].parent == None
    ensures t.c.heap[r].EMail? ==> Owned(t.c, r)
    ensures r < t.c.top
    ensures IsFolder(t.c, r) ==> r in s.c.heap && t.c.heap[r] == s.c.heap[r]
  {
    FreshParts(s, p);
    LoadedHeap(s, t, p, r);
    LoadedHash(s, t, p, t.c.heap[r].uid);
    assert t.c.root == s.c.root && t.c.top == s.c.top + 1 + |p.emails|;
    hide PersonLoaded, FreshUids;
    if s.c.top < r {
      assert t.c.heap[r].uid == p.emails[r - s.c.top - 1].uid;
    }
  }

  lemma LoadedOk(s: Loading, t: Loading, p: PersonRec)
    requires Sound(s) && FreshUids(s, PersonUids(p)) && PersonLoaded(s, t, p)
    ensures LoadOk(t) && "" !in t.c.hash
  {
    FreshParts(s, p);
    LoadedKeeps(s, t, p);
    LoadedTemp(s, t, p);
    forall u | u in t.c.hash
      ensures t.c.hash[u] in t.c.heap && t.c.heap[t.c.hash[u]].uid == u && t.c.hash[u] != t.c.root && u != ""
      ensures t.c.heap[t.c.hash[u]].Folder? ==> t.c.hash[u] in t.temp
    {
      LoadedUid(s, t, p, u);
      LoadedEach(s, t, p, t.c.hash[u]);
    }
    forall r | r in t.c.heap
      ensures r < t.c.top && (!t.c.heap[r].EMail? ==> t.c.heap[r].parent == None)
    {
      LoadedEach(s, t, p, r);
    }
    var root := s.c.root;
    forall f | f in t.temp
      ensures IsFolder(t.c, f) && t.c.heap[f].uid in t.c.hash && t.c.hash[t.c.heap[f].uid] == f
    {
      assert IsFolder(s.c, f);
    }
    hide PersonLoaded, FreshUids, PersonsOk, EmailsOk, GroupsOk, FreshOk, Keeps;
  }

  lemma LoadedSound(s: Loading, t: Loading, p: PersonRec)
    requires Sound(s) && FreshUids(s, PersonUids(p)) && PersonLoaded(s, t, p)
    ensures Sound(t)
  {
    LoadedPersons(s, t, p);
    LoadedFresh(s, t, p);
    LoadedKeeps(s, t, p);
    LoadedOk(s, t, p);
    LoadedTemp(s, t, p);
    assert s.c.root in s.c.heap;
    forall r | r in t.c.heap
      ensures r != t.c.root ==> t.c.heap[r].uid in t.c.hash && t.c.hash[t.c.heap[r].uid] == r
      ensures t.c.heap[r].EMail? ==> Owned(t.c, r)
      ensures IsFolder(t.c, r) ==> r in s.c.heap && t.c.heap[r] == s.c.heap[r]
    {
      LoadedEach(s, t, p, r);
    }
    hide PersonLoaded, FreshUids, PersonsOk, EmailsOk, GroupsOk, FreshOk, LoadOk;
    forall f | IsFolder(t.c, f) && f != t.c.root
      ensures f in t.temp && Empty(t.c.heap[f])
    {
      assert IsFolder(s.c, f);
    }
  }

  lemma LoadedTemp(s: Loading, t: Loading, p: PersonRec)
    requires PersonLoaded(s, t, p)
    ensures t.temp == s.temp && t.items == s.items
  {
  }

  lemma LoadedUid(s: Loading, t: Loading, p: PersonRec, u: Uid)
    requires Sound(s) && FreshUids(s, PersonUids(p)) && PersonLoaded(s, t, p) && u in t.c.hash
    ensures t.c.hash[u] in t.c.heap && t.c.heap[t.c.hash[u]].uid == u && t.c.hash[u] != t.c.root && u != ""
  {
    FreshParts(s, p);
    LoadedHash(s, t, p, u);
    assert t.c.root == s.c.root && s.c.root < s.c.top;
    if u in s.c.hash {
      assert s.c.hash[u] in s.c.heap && s.c.heap[s.c.hash[u]].uid == u && s.c.hash[u] != s.c.root && u != "";
      hide Sound, PersonLoaded, FreshUids;
      LoadedHeap(s, t, p, s.c.hash[u]);
    } else {
      assert u != "";
      hide Sound, PersonLoaded, FreshUids;
      UidsOfPerson(p, u);
      LoadedHeap(s, t, p, s.c.top);
      if u != p.uid {
        var i :| 0 <= i < |p.emails| && p.emails[i].uid == u;
        LoadedHeap(s, t, p, s.c.top + 1 + i);
      }
    }
  }
}
