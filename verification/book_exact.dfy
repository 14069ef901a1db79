/** When the file of a book that counts as read and unchanged is, tag for tag, what the book would write
    (src/addrbook.c:914-951, 1353-1367, src/addrindex.c:1835-1862). */
module BookExact {
  import opened Items
  import opened CacheState
  import opened CacheEdit
  import opened CacheForest
  import opened CacheRuns
  import opened AddrCache
  import opened XmlFiles
  import opened BookDoc
  import opened BookParse
  import opened BookResolve
  import opened BookRound
  import opened BookSame
  import opened BookUnique
  import opened BookRecords
  import opened BookNormal
  import opened BookTidy
  import opened BookFile
  import opened BookDisk

  /** The file is what the book would write, in some order of its hash table. */
  ghost predicate WritesBack(c: Cache, name: string, f: Stored) {
    exists o {:trigger Traversal(c, o)} :: Traversal(c, o) && f == Stored(true, DocTokens(DocOf(c, name, o)))
  }

  /** The file holds a normal document. */
  ghost predicate WellWritten(f: Stored) {
    f.dtd && exists d {:trigger Normal(d)} :: Normal(d) && f.tokens == DocTokens(d)
  }

  // ---------- one read ----------

  lemma DirtyWrites(c: Cache, dirty: bool, name: string, f: Stored)
    ensures WritesBack(c.(dirty := dirty), name, f) <==> WritesBack(c, name, f)
  {
    forall o
      ensures Traversal(c.(dirty := dirty), o) <==> Traversal(c, o)
      ensures DocOf(c.(dirty := dirty), name, o) == DocOf(c, name, o)
    {
      VisitedSame(c, c.(dirty := dirty), o);
    }
  }

  lemma {:induction false} VisitedSame(c: Cache, d: Cache, o: seq<Uid>)
    requires d.hash == c.hash && d.heap == c.heap
    ensures forall k: Kind :: Visited(d, o, k) == Visited(c, o, k)
  {
    if o != [] {
      VisitedSame(c, d, o[1..]);
    }
  }

  lemma WellIsExact(f: Stored, root: Ref, nextId: nat, top: Ref, dirty: bool, order: seq<Uid>)
    requires root < top && WellWritten(f)
    ensures var t := ReadTree(f.dtd, f.tokens, Cleared(root, nextId, top, dirty));
      && t.outcome == Success && t.name.Some? && Strip(t.name.value) == t.name.value
      && WritesBack(Resolved(t.s, order), t.name.value, f)
  {
    hide ReadTree, DocTokens, Resolved, LoadDoc, Got, Traversal, DocOf, Strip;
    var d :| Normal(d) && f.tokens == DocTokens(d);
    ReadWritten(d, Cleared(root, nextId, top, dirty));
    assert Unique(d) && Strip(d.name) == d.name;
    UniqueIsLoaded(root, nextId, top, true, d);
    hide Normal;
    var o := NormalComesBack(LoadDoc(Cleared(root, nextId, top, true), d), d, order);
  }

  lemma ExactIsWell(f: Stored, name: string, root: Ref, nextId: nat, top: Ref, dirty: bool, order: seq<Uid>)
    requires root < top && WritesBack(Resolved(ReadTree(f.dtd, f.tokens, Cleared(root, nextId, top, dirty)).s, order),
      name, f)
    requires Strip(name) == name
    ensures WellWritten(f)
  {
    hide ReadTree, DocTokens, Resolved, LoadDoc, Got, Normal, Traversal, DocOf, Strip, Unique, Tidy, LoadOk;
    var e := Resolved(ReadTree(f.dtd, f.tokens, Cleared(root, nextId, top, dirty)).s, order);
    var o :| Traversal(e, o) && f == Stored(true, DocTokens(DocOf(e, name, o)));
    var d := DocOf(e, name, o);
    ReadWritten(d, Cleared(root, nextId, top, dirty));
    var s := LoadDoc(Cleared(root, nextId, top, true), d);
    LoadDocTidy(root, nextId, top, d);
    ReadIsUnique(s, order, name, o);
    UniqueIsLoaded(root, nextId, top, true, d);
    WrittenIsNormal(s, order, name, o);
  }

  lemma NameWasRead(b: Book, order: seq<Uid>)
    requires b.file.Some? && ReadBook(b, order).dataRead
    requires WritesBack(ReadBook(b, order).cache, ReadBook(b, order).name, b.file.value)
    ensures Strip(ReadBook(b, order).name) == ReadBook(b, order).name
  {
    hide ReadTree, Resolved, Strip, DocTokens, DocOf;
    var d := ReadBook(b, order);
    var o :| Traversal(d.cache, o) && b.file.value == Stored(true, DocTokens(DocOf(d.cache, d.name, o)));
    ReadWritten(DocOf(d.cache, d.name, o), Cleared(b.cache.root, b.cache.nextId, b.cache.root + 1, b.cache.dirty));
    DocName(d.cache, d.name, o);
    StripTwice(d.name);
  }

  /** A book that has just been read, from whatever file, would write that very file if and only if the
      file holds a normal document. */
  lemma ReadExact(b: Book, order: seq<Uid>)
    requires b.file.Some? && ReadBook(b, order).dataRead
    ensures WritesBack(ReadBook(b, order).cache, ReadBook(b, order).name, b.file.value) <==> WellWritten(b.file.value)
  {
    hide ReadTree, Resolved, WritesBack, WellWritten, Strip;
    var f := b.file.value;
    var r := b.cache.root;
    var s := Cleared(r, b.cache.nextId, r + 1, b.cache.dirty);
    var t := BookParse.ReadTree(f.dtd, f.tokens, s);
    var d := ReadBook(b, order);
    DirtyWrites(Resolved(t.s, order), false, d.name, f);
    if WellWritten(f) {
      WellIsExact(f, r, b.cache.nextId, r + 1, b.cache.dirty, order);
    }
    if WritesBack(d.cache, d.name, f) {
      NameWasRead(b, order);
      ExactIsWell(f, d.name, r, b.cache.nextId, r + 1, b.cache.dirty, order);
    }
  }

  // ---------- a file written from a book in agreement ----------

  predicate TextOk(t: Token) {
    t.Open? && t.tag.name == "attribute" ==> Strip(t.text) == t.text
  }

  /** No attribute text in the file has white space around it. */
  predicate TextsOk(ts: seq<Token>) {
    forall i :: 0 <= i < |ts| ==> TextOk(ts[i])
  }

  lemma TextsConcat(a: seq<Token>, b: seq<Token>)
    ensures TextsOk(a + b) <==> TextsOk(a) && TextsOk(b)
  {
    hide TextOk;
    var s := a + b;
    assert forall i | 0 <= i < |a| :: s[i] == a[i];
    assert forall j | 0 <= j < |b| :: s[|a| + j] == b[j];
  }

  predicate ElemOk(e: Elem) {
    e.tag.name == "attribute" && e.text.Some? ==> Strip(e.text.value) == e.text.value
  }

  lemma ElemTexts(e: Elem)
    requires e.tag.name == "attribute" ==> e.text.Some?
    ensures TextsOk(ElemTokens(e)) <==> ElemOk(e)
  {
    hide Strip;
    if e.text.Some? {
      assert ElemTokens(e)[0] == Open(e.tag, false, e.text.value);
    }
  }

  lemma {:induction false} ElemsTexts(es: seq<Elem>)
    requires forall e | e in es :: e.tag.name == "attribute" ==> e.text.Some?
    ensures TextsOk(ElemsTokens(es)) <==> forall e | e in es :: ElemOk(e)
  {
    hide TextsOk, ElemOk, ElemTokens;
    if es == [] {
      assert TextsOk([]) by { NoTexts(); }
    } else {
      assert es[0] in es;
      ElemTexts(es[0]);
      ElemsTexts(es[1..]);
      TextsConcat(ElemTokens(es[0]), ElemsTokens(es[1..]));
      assert forall e | e in es :: e == es[0] || e in es[1..];
    }
  }

  lemma NoTexts()
    ensures TextsOk([])
  {
  }

  lemma OtherTag(t: Token)
    requires t.Open? ==> t.tag.name != "attribute"
    ensures TextsOk([t])
  {
  }

  lemma ListTexts(name: string, es: seq<Elem>)
    requires name != "attribute" && forall e | e in es :: e.tag.name == "attribute" ==> e.text.Some?
    ensures TextsOk(ListTokens(name, es)) <==> forall e | e in es :: ElemOk(e)
  {
    hide TextsOk, ElemOk, ElemsTokens;
    OtherTag(Open(Tag(name, []), false, ""));
    OtherTag(Close(name));
    ElemsTexts(es);
    TextsConcat([Open(Tag(name, []), false, "")], ElemsTokens(es));
    TextsConcat([Open(Tag(name, []), false, "")] + ElemsTokens(es), [Close(name)]);
  }

  lemma PersonTexts(p: PersonRec)
    ensures TextsOk(PersonTokens(p)) <==> AttribsStripped(p.attribs)
  {
    hide TextsOk, ListTokens, Strip;
    var a, b := AddressElems(p.emails), AttributeElems(p.attribs);
    forall e | e in a
      ensures e.tag.name == "address" && ElemOk(e)
    {
    }
    forall i | 0 <= i < |b|
      ensures b[i] in b && b[i].tag.name == "attribute" && b[i].text == Some(p.attribs[i].value)
    {
    }
    ListTexts("address-list", a);
    ListTexts("attribute-list", b);
    OtherTag(Open(PersonTag(p), false, ""));
    OtherTag(Close("person"));
    var x := [Open(PersonTag(p), false, "")];
    TextsConcat(x, ListTokens("address-list", a));
    TextsConcat(x + ListTokens("address-list", a), ListTokens("attribute-list", b));
    TextsConcat(x + ListTokens("address-list", a) + ListTokens("attribute-list", b), [Close("person")]);
    if AttribsStripped(p.attribs) {
      assert forall e | e in b :: ElemOk(e);
    }
    if forall e | e in b :: ElemOk(e) {
      forall i | 0 <= i < |p.attribs|
        ensures Strip(p.attribs[i].value) == p.attribs[i].value
      {
        assert ElemOk(b[i]);
      }
    }
  }

  lemma GroupTexts(g: GroupRec)
    ensures TextsOk(GroupTokens(g))
  {
    hide TextsOk, ListTokens;
    var a := MemberElems(g.members);
    assert forall e | e in a :: e.tag.name == "member" && ElemOk(e);
    ListTexts("member-list", a);
    OtherTag(Open(GroupTag(g), false, ""));
    OtherTag(Close("group"));
    TextsConcat([Open(GroupTag(g), false, "")], ListTokens("member-list", a));
    TextsConcat([Open(GroupTag(g), false, "")] + ListTokens("member-list", a), [Close("group")]);
  }

  lemma FolderTexts(f: FolderRec)
    ensures TextsOk(FolderTokens(f))
  {
    hide TextsOk, ListTokens;
    var a := ItemElems(f.items);
    assert forall e | e in a :: e.tag.name == "item" && ElemOk(e);
    ListTexts("item-list", a);
    OtherTag(Open(FolderTag(f), false, ""));
    OtherTag(Close("folder"));
    TextsConcat([Open(FolderTag(f), false, "")], ListTokens("item-list", a));
    TextsConcat([Open(FolderTag(f), false, "")] + ListTokens("item-list", a), [Close("folder")]);
  }

  lemma {:induction false} PersonsTexts(ps: seq<PersonRec>)
    ensures TextsOk(PersonsTokens(ps)) <==> forall p | p in ps :: AttribsStripped(p.attribs)
    decreases |ps|
  {
    hide TextsOk, AttribsStripped, PersonTokens;
    if ps == [] {
      NoTexts();
    } else {
      var n := |ps| - 1;
      PersonsTexts(ps[..n]);
      PersonTexts(ps[n]);
      TextsConcat(PersonsTokens(ps[..n]), PersonTokens(ps[n]));
      assert forall p | p in ps :: p == ps[n] || p in ps[..n];
      assert ps[n] in ps && forall p | p in ps[..n] :: p in ps;
    }
  }

  lemma {:induction false} GroupsTexts(gs: seq<GroupRec>)
    ensures TextsOk(GroupsTokens(gs))
    decreases |gs|
  {
    hide TextsOk, GroupTokens;
    if gs == [] {
      NoTexts();
    } else {
      GroupsTexts(gs[..|gs| - 1]);
      GroupTexts(gs[|gs| - 1]);
      TextsConcat(GroupsTokens(gs[..|gs| - 1]), GroupTokens(gs[|gs| - 1]));
    }
  }

  lemma {:induction false} FoldersTexts(fs: seq<FolderRec>)
    ensures TextsOk(FoldersTokens(fs))
    decreases |fs|
  {
    hide TextsOk, FolderTokens;
    if fs == [] {
      NoTexts();
    } else {
      FoldersTexts(fs[..|fs| - 1]);
      FolderTexts(fs[|fs| - 1]);
      TextsConcat(FoldersTokens(fs[..|fs| - 1]), FolderTokens(fs[|fs| - 1]));
    }
  }

  /** The name and the attribute texts, as they stand in the file. */
  lemma DocTexts(d: Doc)
    ensures TextsOk(DocTokens(d)) <==> forall p | p in d.persons :: AttribsStripped(p.attribs)
    ensures DocTokens(d) != [] && DocTokens(d)[0] == Open(Tag("address-book", [Attr("name", d.name)]), false, "")
  {
    hide TextsOk, AttribsStripped, PersonsTokens, GroupsTokens, FoldersTokens;
    var x := [Open(Tag("address-book", [Attr("name", d.name)]), false, "")];
    var gs := GroupsTokens(d.groups) + FoldersTokens(d.folders);
    OtherTag(x[0]);
    OtherTag(Close("address-book"));
    PersonsTexts(d.persons);
    GroupsTexts(d.groups);
    FoldersTexts(d.folders);
    TextsConcat(GroupsTokens(d.groups), FoldersTokens(d.folders));
    TextsConcat(PersonsTokens(d.persons), gs);
    TextsConcat(x, PersonsTokens(d.persons) + gs);
    TextsConcat(x + (PersonsTokens(d.persons) + gs), [Close("address-book")]);
  }

  ghost predicate AllStripped(c: Cache) {
    forall p {:trigger IsPerson(c, p)} | IsPerson(c, p) :: AttribsStripped(c.heap[p].attribs)
  }

  ghost function Objects(c: Cache): set<Ref> {
    set z | z in c.heap && Object(c, z)
  }

  lemma SavedUnique(c: Cache, name: string, o: seq<Uid>)
    requires Inv(c) && Traversal(c, o)
    ensures Unique(DocOf(c, name, o))
  {
    var all := Objects(c);
    InvHash(c);
    hide Inv, DocOf, Unique;
    forall x, y | x in all && y in all && c.heap[x].uid == c.heap[y].uid
      ensures x == y
    {
      UidTells(c, x, y);
    }
    forall u | u in c.hash && c.heap[c.hash[u]].Person?
      ensures PersonIn(c.heap, all, c.hash[u])
    {
      InvPerson(c, c.hash[u]);
    }
    WrittenUnique(c, all, name, o);
  }

  lemma InvHash(c: Cache)
    requires Inv(c)
    ensures forall u | u in c.hash :: c.hash[u] in c.heap && c.heap[c.hash[u]].uid == u && c.hash[u] in Objects(c)
  {
  }

  lemma InvPerson(c: Cache, p: Ref)
    requires Inv(c) && IsPerson(c, p)
    ensures PersonIn(c.heap, Objects(c), p)
  {
    assert PersonOk(c, p);
  }

  lemma SavedMembers(c: Cache, name: string, o: seq<Uid>, g: Ref)
    requires Inv(c) && Traversal(c, o) && IsGroup(c, g)
    ensures MembersKept(DocOf(c, name, o), MemberRecs(c.heap, c.heap[g].members))
  {
    var d := DocOf(c, name, o);
    var es := c.heap[g].members;
    var ms := MemberRecs(c.heap, es);
    InvGroup(c, g);
    hide Inv, DocOf, MemberRecOf;
    forall i | 0 <= i < |ms|
      ensures es[i] in c.heap && ms[i].eid == c.heap[es[i]].uid && ms[i].eid != ""
      ensures exists p :: p in d.persons && p.uid == ms[i].pid && Bears(p, ms[i].eid)
    {
      assert es[i] in es;
      OwnerWritten(c, name, o, es[i]);
    }
    forall i, j | 0 <= i < j < |ms|
      ensures ms[i].eid != ms[j].eid
    {
      assert es[i] in es && es[j] in es && es[i] != es[j];
      if ms[i].eid == ms[j].eid {
        UidTells(c, es[i], es[j]);
      }
    }
  }

  lemma InvGroup(c: Cache, g: Ref)
    requires Inv(c) && IsGroup(c, g)
    ensures NoDup(c.heap[g].members) && forall e | e in c.heap[g].members :: Owned(c, e) && Object(c, e)
  {
    assert GroupOk(c, g);
    assert RootOk(c);
  }

  /** The owner of an email is written with it. */
  lemma OwnerWritten(c: Cache, name: string, o: seq<Uid>, e: Ref)
    requires Inv(c) && Traversal(c, o) && Owned(c, e)
    ensures MemberRecOf(c.heap, e).eid == c.heap[e].uid && c.heap[e].uid != ""
    ensures exists p :: p in DocOf(c, name, o).persons && p.uid == MemberRecOf(c.heap, e).pid && Bears(p, c.heap[e].uid)
  {
    assert EmailOk(c, e);
    UidFacts(c, e);
    var r := c.heap[e].parent.value;
    var i :| 0 <= i < |c.heap[r].emails| && c.heap[r].emails[i] == e;
    VisitedSorts(c, o, PersonKind);
    assert Is(c.heap[r], PersonKind) && r != c.root;
    var rs := Visited(c, o, PersonKind);
    var j :| 0 <= j < |rs| && rs[j] == r;
    VisitedAre(c, o, PersonKind);
    PersonRecAt(c.heap, rs, j);
    hide Inv;
    var p := DocOf(c, name, o).persons[j];
    assert p == PersonRecOf(c.heap, r) && p.emails[i].uid == c.heap[e].uid;
    assert p in DocOf(c, name, o).persons && Bears(p, c.heap[e].uid);
  }

  lemma WrittenKind(c: Cache, name: string, o: seq<Uid>, z: Ref, k: Kind)
    requires Inv(c) && Traversal(c, o) && Object(c, z) && Is(c.heap[z], k)
    ensures c.heap[z].uid != "" && OfKind(DocOf(c, name, o), c.heap[z].uid, k)
  {
    UidFacts(c, z);
    VisitedSorts(c, o, k);
    VisitedAre(c, o, k);
    hide Inv;
    var rs := Visited(c, o, k);
    var j :| 0 <= j < |rs| && rs[j] == z;
    var d := DocOf(c, name, o);
    match k
    case PersonKind =>
      PersonRecAt(c.heap, rs, j);
      assert d.persons[j] in d.persons;
    case GroupKind =>
      GroupRecAt(c.heap, rs, j);
      assert d.groups[j] in d.groups;
    case FolderKind =>
      FolderRecAt(c.heap, rs, j);
      assert d.folders[j] in d.folders;
  }

  lemma SavedItems(c: Cache, name: string, o: seq<Uid>, f: Ref)
    requires Inv(c) && Traversal(c, o) && IsFolder(c, f)
    ensures ItemsKept(DocOf(c, name, o), FolderRecOf(c.heap, f).items)
  {
    var d := DocOf(c, name, o);
    var x := c.heap[f];
    var items := FolderRecOf(c.heap, f).items;
    ListedKinds(c, f);
    hide Inv, DocOf, OfKind;
    var all := x.persons + x.groups + x.folders;
    forall i | 0 <= i < |items|
      ensures items[i].uid != "" && OfKind(d, items[i].uid, items[i].kind)
      ensures items[i].kind == if i < |x.persons| then PersonKind else if i < |x.persons| + |x.groups| then GroupKind
        else FolderKind
    {
      var k := if i < |x.persons| then PersonKind else if i < |x.persons| + |x.groups| then GroupKind else FolderKind;
      assert all[i] in (if i < |x.persons| then x.persons else if i < |x.persons| + |x.groups| then x.groups
        else x.folders);
      WrittenKind(c, name, o, all[i], k);
    }
  }

  lemma PersonsStripped(c: Cache, name: string, o: seq<Uid>)
    requires Inv(c) && Traversal(c, o)
    ensures AllStripped(c) <==> forall p | p in DocOf(c, name, o).persons :: AttribsStripped(p.attribs)
  {
    VisitedSorts(c, o, PersonKind);
    VisitedAre(c, o, PersonKind);
    hide Inv, AttribsStripped, Visited;
    var d := DocOf(c, name, o);
    var rs := Visited(c, o, PersonKind);
    if AllStripped(c) {
      forall p | p in d.persons
        ensures AttribsStripped(p.attribs)
      {
        var r := PersonRecIs(c, name, o, p);
        assert IsPerson(c, r);
      }
    }
    if forall p | p in d.persons :: AttribsStripped(p.attribs) {
      forall r | IsPerson(c, r)
        ensures AttribsStripped(c.heap[r].attribs)
      {
        assert Is(c.heap[r], PersonKind);
        var j :| 0 <= j < |rs| && rs[j] == r;
        PersonRecAt(c.heap, rs, j);
        assert d.persons[j] in d.persons;
      }
    }
  }

  lemma SavedNormal(c: Cache, name: string, o: seq<Uid>)
    requires Inv(c) && Traversal(c, o)
    ensures Normal(DocOf(c, name, o)) <==> Strip(name) == name && AllStripped(c)
  {
    hide Inv, DocOf, Unique, Traversal, AttribsStripped, MembersKept, ItemsKept, AllStripped, Strip;
    var d := DocOf(c, name, o);
    DocName(c, name, o);
    SavedUnique(c, name, o);
    PersonsStripped(c, name, o);
    forall g | g in d.groups
      ensures MembersKept(d, g.members)
    {
      var r := GroupRecIs(c, name, o, g);
      SavedMembers(c, name, o, r);
    }
    forall f | f in d.folders
      ensures ItemsKept(d, f.items)
    {
      var r := FolderRecIs(c, name, o, f);
      SavedItems(c, name, o, r);
    }
  }

  /** What a book in agreement writes is read back as a book that would write the same if and only if
      the name and all attribute texts are stripped, in the book or, what is the same, in the file. */
  lemma SavedIsWell(c: Cache, name: string, o: seq<Uid>)
    requires Inv(c) && Traversal(c, o)
    ensures var f := Stored(true, DocTokens(DocOf(c, name, o)));
      && (WellWritten(f) <==> Strip(name) == name && AllStripped(c))
      && (WellWritten(f) <==> Strip(name) == name && TextsOk(f.tokens))
  {
    hide Inv, DocOf, Traversal, AllStripped, AttribsStripped, DocTokens, TextsOk, Strip;
    var d := DocOf(c, name, o);
    SavedNormal(c, name, o);
    DocName(c, name, o);
    DocTexts(d);
    PersonsStripped(c, name, o);
    if e :| Normal(e) && DocTokens(e) == DocTokens(d) {
      DocTexts(e);
    }
  }

  // ---------- whole runs ----------

  /** The disk agreement in its strict sense: a book that has been read and not changed since would write
      its very file. */
  ghost predicate ExactOnDisk(b: Book) {
    && Strip(b.name) == b.name
    && (b.dataRead && !b.cache.dirty ==> b.file.Some? && WritesBack(b.cache, b.name, b.file.value))
  }

  /** Without a change to what is hashed or held the book writes the same. */
  lemma CoreWrites(c: Cache, d: Cache, name: string, o: seq<Uid>)
    requires Inv(c) && Inv(d) && Core(d) == Core(c)
    ensures DocOf(d, name, o) == DocOf(c, name, o) && d.hash == c.hash
  {
    CoreSame(c, d);
    forall k: Kind
      ensures Visited(d, o, k) == Visited(c, o, k)
    {
      CoreVisited(c, d, o, k);
    }
    var ps, gs, fs := Visited(c, o, PersonKind), Visited(c, o, GroupKind), Visited(c, o, FolderKind);
    VisitedAre(c, o, PersonKind);
    VisitedAre(c, o, GroupKind);
    VisitedAre(c, o, FolderKind);
    VisitedAre(d, o, PersonKind);
    VisitedAre(d, o, GroupKind);
    VisitedAre(d, o, FolderKind);
    hide Inv, Core, Visited, PersonRecOf, GroupRecOf, FolderRecOf;
    forall i | 0 <= i < |ps|
      ensures PersonRecs(d.heap, ps)[i] == PersonRecs(c.heap, ps)[i]
    {
      PersonRecAt(c.heap, ps, i);
      PersonRecAt(d.heap, ps, i);
      CorePerson(c, d, ps[i]);
    }
    forall i | 0 <= i < |gs|
      ensures GroupRecs(d.heap, gs)[i] == GroupRecs(c.heap, gs)[i]
    {
      GroupRecAt(c.heap, gs, i);
      GroupRecAt(d.heap, gs, i);
      CoreGroup(c, d, gs[i]);
    }
    forall i | 0 <= i < |fs|
      ensures FolderRecs(d.heap, fs)[i] == FolderRecs(c.heap, fs)[i]
    {
      FolderRecAt(c.heap, fs, i);
      FolderRecAt(d.heap, fs, i);
      CoreFolder(c, d, fs[i]);
    }
  }

  lemma {:induction false} CoreVisited(c: Cache, d: Cache, o: seq<Uid>, k: Kind)
    requires d.hash == c.hash
    requires forall z :: z in c.heap && !Pending(c, z) <==> z in d.heap && !Pending(d, z)
    requires forall z | z in c.heap && !Pending(c, z) :: z in d.heap && d.heap[z] == c.heap[z]
    ensures Visited(d, o, k) == Visited(c, o, k)
  {
    if o != [] {
      CoreVisited(c, d, o[1..], k);
    }
  }

  lemma CorePerson(c: Cache, d: Cache, p: Ref)
    requires Inv(c) && Core(d) == Core(c) && IsPerson(c, p)
    ensures IsPerson(d, p) && PersonRecOf(d.heap, p) == PersonRecOf(c.heap, p)
  {
    CoreSame(c, d);
    assert PersonOk(c, p);
    hide Inv, Core;
    var es := c.heap[p].emails;
    forall i | 0 <= i < |es|
      ensures EmailRecOf(d.heap, es[i]) == EmailRecOf(c.heap, es[i])
    {
      assert es[i] in es;
    }
    assert EmailRecs(d.heap, es) == EmailRecs(c.heap, es);
  }

  lemma CoreGroup(c: Cache, d: Cache, g: Ref)
    requires Inv(c) && Core(d) == Core(c) && IsGroup(c, g)
    ensures IsGroup(d, g) && GroupRecOf(d.heap, g) == GroupRecOf(c.heap, g)
  {
    CoreSame(c, d);
    assert GroupOk(c, g);
    hide Core;
    var es := c.heap[g].members;
    forall i | 0 <= i < |es|
      ensures MemberRecOf(d.heap, es[i]) == MemberRecOf(c.heap, es[i])
    {
      assert es[i] in es && Owned(c, es[i]);
      assert EmailOk(c, es[i]);
    }
    assert MemberRecs(d.heap, es) == MemberRecs(c.heap, es);
  }

  lemma CoreFolder(c: Cache, d: Cache, f: Ref)
    requires Inv(c) && Core(d) == Core(c) && IsFolder(c, f)
    ensures IsFolder(d, f) && FolderRecOf(d.heap, f) == FolderRecOf(c.heap, f)
  {
    CoreSame(c, d);
    ListedKinds(c, f);
    hide Inv, Core;
    var i := c.heap[f];
    ItemsSameUids(c.heap, d.heap, PersonKind, i.persons);
    ItemsSameUids(c.heap, d.heap, GroupKind, i.groups);
    ItemsSameUids(c.heap, d.heap, FolderKind, i.folders);
  }

  lemma ItemsSameUids(h: map<Ref, Item>, m: map<Ref, Item>, k: Kind, rs: seq<Ref>)
    requires forall r | r in rs :: r in h && r in m && m[r] == h[r]
    ensures ItemRecs(m, k, rs) == ItemRecs(h, k, rs)
  {
    forall i | 0 <= i < |rs|
      ensures UidOf(m, rs[i]) == UidOf(h, rs[i])
    {
      assert rs[i] in rs;
    }
  }

  lemma EditExact(b: Book, op: Op)
    requires ExactOnDisk(b) && Happens(b, Edit(op))
    ensures ExactOnDisk(Next(b, Edit(op)))
  {
    hide Inv, Allowed, Apply, DocOf, DocTokens, Core, Strip;
    var d := Next(b, Edit(op));
    if d.dataRead && !d.cache.dirty {
      CleanEdit(b.cache, op);
      ApplyInv(b.cache, op);
      var o :| Traversal(b.cache, o) && b.file.value == Stored(true, DocTokens(DocOf(b.cache, b.name, o)));
      CoreWrites(b.cache, d.cache, b.name, o);
      SameTraversal(b.cache, d.cache, o);
    }
  }

  lemma SaveExact(b: Book, order: seq<Uid>, fate: Fate)
    requires ExactOnDisk(b) && (Stores(b, fate) ==> Traversal(b.cache, order))
    ensures ExactOnDisk(SaveBook(b, order, fate))
  {
    hide DocOf, DocTokens, Strip, WritesBack;
    if Stores(b, fate) {
      DirtyWrites(b.cache, false, b.name, Stored(true, DocTokens(DocOf(b.cache, b.name, order))));
      WritesNow(b.cache, b.name, order);
    }
  }

  lemma WritesNow(c: Cache, name: string, o: seq<Uid>)
    requires Traversal(c, o)
    ensures WritesBack(c, name, Stored(true, DocTokens(DocOf(c, name, o))))
  {
  }

  /** Whether the event is a read that succeeds on a file that holds no normal document. */
  ghost predicate ReadsForeign(b: Book, e: Event) {
    && e.ReadIt? && b.file.Some? && ReadBook(b, e.order).dataRead && !WellWritten(b.file.value)
  }

  /** Of all that can happen to a book one thing, and one thing only, ends the strict agreement: that it
      is read from a file that does not hold a normal document. */
  lemma ExactStep(b: Book, e: Event)
    requires ExactOnDisk(b) && Happens(b, e)
    ensures ExactOnDisk(Next(b, e)) <==> !ReadsForeign(b, e)
  {
    hide Inv, Apply, Allowed, WritesBack, WellWritten, ReadTree, Resolved, DocTokens, DocOf, Strip;
    match e
    case Edit(op) => EditExact(b, op);
    case Change(_) =>
    case Rename(name) => StripTwice(name);
    case Refresh =>
    case ReadIt(order) => ReadStep(b, order);
    case SaveIt(order, fate) => SaveExact(b, order, fate);
    case SavePassed(order, fate) =>
      if b.cache.dirty && b.dataRead {
        SaveExact(b, order, fate);
      }
  }

  lemma ReadStep(b: Book, order: seq<Uid>)
    requires Strip(b.name) == b.name
    ensures ExactOnDisk(ReadBook(b, order)) <==>
      !(b.file.Some? && ReadBook(b, order).dataRead && !WellWritten(b.file.value))
  {
    hide WritesBack, WellWritten, ReadTree, Resolved, Strip;
    if b.file.Some? {
      var s := Cleared(b.cache.root, b.cache.nextId, b.cache.root + 1, b.cache.dirty);
      NameIsStripped(b.file.value, s);
      if ReadBook(b, order).dataRead {
        ReadExact(b, order);
      }
    }
  }

  ghost predicate ReadsWell(b: Book, es: seq<Event>)
    requires HappenAll(b, es)
    decreases |es|
  {
    es == [] || (!ReadsForeign(b, es[0]) && ReadsWell(Next(b, es[0]), es[1..]))
  }

  /** Over every run in which whatever is read was well written the strict agreement holds. */
  lemma {:induction false} ExactAgreement(b: Book, es: seq<Event>)
    requires ExactOnDisk(b) && HappenAll(b, es) && ReadsWell(b, es)
    ensures ExactOnDisk(After(b, es))
    decreases |es|
  {
    hide ExactOnDisk, ReadsForeign, Happens, Next;
    if es != [] {
      ExactStep(b, es[0]);
      ExactAgreement(Next(b, es[0]), es[1..]);
    }
  }

  // ---------- books without outer white space ----------

  /** Nothing in the book or its file has white space around it that reading would strip. */
  ghost predicate Fine(b: Book) {
    Strip(b.name) == b.name && AllStripped(b.cache) && (b.file.Some? ==> WellWritten(b.file.value))
  }

  /** Nor does the event bring any. */
  ghost predicate BringsStripped(e: Event) {
    match e
    case Edit(AddItem(_, item)) => item.Person? ==> AttribsStripped(item.attribs)
    case Change(c) => AllStripped(c)
    case _ => true
  }

  lemma EditStripped(c: Cache, op: Op)
    requires Inv(c) && Allowed(c, op) && AllStripped(c) && BringsStripped(Edit(op))
    ensures AllStripped(Apply(c, op))
  {
    hide Strip, Apply, Inv, Allowed;
    var d := Apply(c, op);
    forall p | IsPerson(d, p)
      ensures AttribsStripped(d.heap[p].attribs)
    {
      EditedPerson(c, op, p);
    }
  }

  /** What an operation leaves of a person's attributes. */
  ghost predicate AttribsFrom(c: Cache, op: Op, p: Ref, i: Item)
    requires i.Person?
  {
    || (IsPerson(c, p) && i.attribs == c.heap[p].attribs) || i.attribs == []
    || (op.AddItem? && op.item.Person? && i.attribs == op.item.attribs)
  }

  lemma EditedPerson(c: Cache, op: Op, p: Ref)
    requires Inv(c) && Allowed(c, op) && IsPerson(Apply(c, op), p)
    ensures AttribsFrom(c, op, p, Apply(c, op).heap[p])
  {
    hide Inv, Decimal, Sub, Movable, GoodUid, WithList;
    if op.AddItem? || op.AddEmailTo? || op.AddMember? || op.AddContact? {
      AddedPerson(c, op, p);
    } else {
      match op
      case MoveItem(r, t) => MovedItem(c, r, t, p);
      case RemoveItem(x) =>
      case TakeEmail(e) =>
      case RemoveFolderOnly(f) =>
      case _ =>
    }
  }

  lemma AddedPerson(c: Cache, op: Op, p: Ref)
    requires Inv(c) && Allowed(c, op) && (op.AddItem? || op.AddEmailTo? || op.AddMember? || op.AddContact?)
    requires IsPerson(Apply(c, op), p)
    ensures AttribsFrom(c, op, p, Apply(c, op).heap[p])
  {
    hide Inv, Decimal, GoodUid, BringsUid, WithList;
  }

  /** What has been read from a well-written file has no outer white space. */
  lemma ReadStripped(b: Book, order: seq<Uid>)
    requires b.file.Some? && WellWritten(b.file.value)
    ensures AllStripped(ReadBook(b, order).cache)
  {
    hide ReadTree, DocTokens, LoadDoc, Strip, Normal, Resolved, LoadOk, AttribsStripped;
    var f := b.file.value;
    var r := b.cache.root;
    var d :| Normal(d) && f.tokens == DocTokens(d);
    ReadWritten(d, Cleared(r, b.cache.nextId, r + 1, b.cache.dirty));
    LoadDocTidy(r, b.cache.nextId, r + 1, d);
    var s := LoadDoc(Cleared(r, b.cache.nextId, r + 1, true), d);
    var c := ReadBook(b, order).cache;
    ResolvedParts(s, order);
    forall p | IsPerson(c, p)
      ensures AttribsStripped(c.heap[p].attribs)
    {
      ResolvedKeeps(s, order, p);
      assert Is(c.heap[p], PersonKind) && IsPerson(s.c, p);
    }
  }

  lemma SaveFine(b: Book, order: seq<Uid>, fate: Fate)
    requires Fine(b) && (Stores(b, fate) ==> Inv(b.cache) && Traversal(b.cache, order))
    ensures Fine(SaveBook(b, order, fate))
  {
    hide Inv, DocOf, DocTokens, Strip, WellWritten, AttribsStripped;
    if Stores(b, fate) {
      SavedIsWell(b.cache, b.name, order);
      assert forall p | IsPerson(b.cache.(dirty := false), p) :: IsPerson(b.cache, p);
    }
  }

  lemma FineStep(b: Book, e: Event)
    requires Fine(b) && Happens(b, e) && SavesSound(b, e) && BringsStripped(e)
    ensures Fine(Next(b, e)) && !ReadsForeign(b, e)
  {
    hide Inv, Apply, Allowed, WellWritten, ReadTree, Resolved, DocTokens, DocOf, Strip, AttribsStripped;
    match e
    case Edit(op) => EditStripped(b.cache, op);
    case Change(c) => assert forall p | IsPerson(c.(dirty := true), p) :: IsPerson(c, p);
    case Rename(name) =>
      StripTwice(name);
      assert forall p | IsPerson(b.cache.(dirty := true), p) :: IsPerson(b.cache, p);
    case Refresh =>
    case ReadIt(order) =>
      if b.file.Some? {
        NameIsStripped(b.file.value, Cleared(b.cache.root, b.cache.nextId, b.cache.root + 1, b.cache.dirty));
        ReadStripped(b, order);
      }
    case SaveIt(order, fate) => SaveFine(b, order, fate);
    case SavePassed(order, fate) =>
      if b.cache.dirty && b.dataRead {
        SaveFine(b, order, fate);
      }
  }

  /** Over every run of a book without outer white space, new or read from a well-written file: as long as
      none is brought in, a book that has been read and not changed since would write its very file. */
  lemma {:induction false} FineAgreement(b: Book, es: seq<Event>)
    requires Fine(b) && ExactOnDisk(b) && HappenAll(b, es) && SaveAllSound(b, es)
    requires forall e | e in es :: BringsStripped(e)
    ensures Fine(After(b, es)) && ExactOnDisk(After(b, es))
    decreases |es|
  {
    hide Fine, ExactOnDisk, ReadsForeign, Happens, Next, BringsStripped, SavesSound;
    if es != [] {
      assert es[0] in es;
      FineStep(b, es[0]);
      ExactStep(b, es[0]);
      FineAgreement(Next(b, es[0]), es[1..]);
    }
  }

  /** In particular a new book without a file. */
  lemma NewBookExact(now: nat, path: string, fileName: string, es: seq<Event>)
    requires var b := Book(Fresh(now), "", false, MguSuccess, path, fileName, None);
      HappenAll(b, es) && SaveAllSound(b, es)
    requires forall e | e in es :: BringsStripped(e)
    ensures ExactOnDisk(After(Book(Fresh(now), "", false, MguSuccess, path, fileName, None), es))
  {
    hide HappenAll, After, BringsStripped, SaveAllSound;
    FineAgreement(Book(Fresh(now), "", false, MguSuccess, path, fileName, None), es);
  }
}
