/** Writing an address-book file (src/addrbook.c:1029-1335): the three visitors over the hash table
    and the frame around them. */
module BookWrite {
  import opened Items
  import opened CacheState
  import opened XmlFiles
  import opened BookDoc
  import opened BookParse
  import opened BookResolve
  import opened BookRound

  lemma {:induction false} ElemsTokensAppend(es: seq<Elem>, i: nat)
    requires i < |es|
    ensures ElemsTokens(es[..i + 1]) == ElemsTokens(es[..i]) + ElemTokens(es[i])
  {
    TakeMore(es, i);
    ElemsTokensConcat(es[..i], [es[i]]);
    assert [es[i]][1..] == [];
  }

  /** The list of a person's, group's or folder's elements, one after the other. */
  method WriteList(name: string, es: seq<Elem>) returns (out: seq<Token>)
    ensures out == ListTokens(name, es)
  {
    out := [Open(Tag(name, []), false, "")];
    var i := 0;
    while i < |es|
      invariant 0 <= i <= |es| && out == [Open(Tag(name, []), false, "")] + ElemsTokens(es[..i])
    {
      ElemsTokensAppend(es, i);
      if es[i].text.None? {
        out := out + [Open(es[i].tag, true, "")];
      } else {
        out := out + [Open(es[i].tag, false, es[i].text.value), Close(es[i].tag.name)];
      }
      i := i + 1;
    }
    assert es[..i] == es;
    out := out + [Close(name)];
  }

  /** `addrbook_write_item_person_vis` on a person. */
  method WritePerson(h: map<Ref, Item>, p: Ref) returns (out: seq<Token>)
    requires p in h && h[p].Person?
    ensures out == PersonTokens(PersonRecOf(h, p))
  {
    var addresses: seq<Elem> := [];
    var i := 0;
    while i < |h[p].emails|
      invariant 0 <= i <= |h[p].emails| && |addresses| == i
      invariant forall j | 0 <= j < i :: addresses[j] == AddressElem(EmailRecOf(h, h[p].emails[j]))
    {
      addresses := addresses + [AddressElem(EmailRecOf(h, h[p].emails[i]))];
      i := i + 1;
    }
    assert addresses == AddressElems(PersonRecOf(h, p).emails);
    var attributes: seq<Elem> := [];
    i := 0;
    while i < |h[p].attribs|
      invariant 0 <= i <= |h[p].attribs| && |attributes| == i
      invariant forall j | 0 <= j < i :: attributes[j] == AttributeElem(h[p].attribs[j])
    {
      attributes := attributes + [AttributeElem(h[p].attribs[i])];
      i := i + 1;
    }
    assert attributes == AttributeElems(h[p].attribs);
    var a := WriteList("address-list", addresses);
    var b := WriteList("attribute-list", attributes);
    var tag := Tag("person", [Attr("uid", h[p].uid), Attr("first-name", h[p].firstName),
      Attr("last-name", h[p].lastName),
                              Attr("nick-name", h[p].nickName), Attr("cn", h[p].name)]);
    out := [Open(tag, false, "")] + a + b + [Close("person")];
  }

  /** `addrbook_write_item_group_vis` on a group. */
  method WriteGroup(h: map<Ref, Item>, g: Ref) returns (out: seq<Token>)
    requires g in h && h[g].Group?
    ensures out == GroupTokens(GroupRecOf(h, g))
  {
    var members: seq<Elem> := [];
    var i := 0;
    while i < |h[g].members|
      invariant 0 <= i <= |h[g].members| && |members| == i
      invariant forall j | 0 <= j < i :: members[j] == MemberElem(MemberRecOf(h, h[g].members[j]))
    {
      members := members + [MemberElem(MemberRecOf(h, h[g].members[i]))];
      i := i + 1;
    }
    assert members == MemberElems(GroupRecOf(h, g).members);
    var a := WriteList("member-list", members);
    var tag := Tag("group", [Attr("uid", h[g].uid), Attr("name", h[g].name), Attr("remarks", h[g].remarks)]);
    out := [Open(tag, false, "")] + a + [Close("group")];
  }

  /** One of the three loops over a folder's lists. */
  method WriteItems(h: map<Ref, Item>, k: Kind, node: seq<Ref>) returns (items: seq<Elem>)
    ensures items == ItemElems(ItemRecs(h, k, node))
  {
    items := [];
    var i := 0;
    while i < |node|
      invariant 0 <= i <= |node| && |items| == i
      invariant forall j | 0 <= j < i :: items[j] == ItemElem(ItemRec(k, UidOf(h, node[j])))
    {
      items := items + [ItemElem(ItemRec(k, UidOf(h, node[i])))];
      i := i + 1;
    }
  }

  /** `addrbook_write_item_folder_vis` on a folder. */
  method WriteFolder(h: map<Ref, Item>, f: Ref) returns (out: seq<Token>)
    requires f in h && h[f].Folder?
    ensures out == FolderTokens(FolderRecOf(h, f))
  {
    var persons := WriteItems(h, PersonKind, h[f].persons);
    var groups := WriteItems(h, GroupKind, h[f].groups);
    var folders := WriteItems(h, FolderKind, h[f].folders);
    assert persons + groups + folders == ItemElems(FolderRecOf(h, f).items);
    var a := WriteList("item-list", persons + groups + folders);
    var tag := Tag("folder", [Attr("uid", h[f].uid), Attr("name", h[f].name), Attr("remarks", h[f].remarks)]);
    out := [Open(tag, false, "")] + a + [Close("folder")];
  }

  // ---------- the three passes ----------

  ghost predicate AllAre(h: map<Ref, Item>, rs: seq<Ref>, k: Kind) {
    forall r | r in rs :: r in h && Is(h[r], k)
  }

  ghost function KindTokens(h: map<Ref, Item>, rs: seq<Ref>, k: Kind): seq<Token>
    requires AllAre(h, rs, k)
  {
    match k
    case PersonKind => PersonsTokens(PersonRecs(h, rs))
    case GroupKind => GroupsTokens(GroupRecs(h, rs))
    case FolderKind => FoldersTokens(FolderRecs(h, rs))
  }

  /** What the pass for one kind writes of the objects in this order. */
  ghost function Written(c: Cache, order: seq<Uid>, k: Kind): seq<Token> {
    VisitedAre(c, order, k);
    KindTokens(c.heap, Visited(c, order, k), k)
  }

  function TokensOf(h: map<Ref, Item>, r: Ref): seq<Token>
    requires r in h && !h[r].EMail?
  {
    if h[r].Person? then PersonTokens(PersonRecOf(h, r))
    else if h[r].Group? then GroupTokens(GroupRecOf(h, r))
    else FolderTokens(FolderRecOf(h, r))
  }

  lemma {:induction false} VisitedMore(c: Cache, seen: seq<Uid>, u: Uid, k: Kind)
    ensures Visited(c, seen + [u], k) == Visited(c, seen, k) + Visited(c, [u], k)
    ensures Visited(c, [u], k) == if u in c.hash && c.hash[u] in c.heap
      && Is(c.heap[c.hash[u]], k) then [c.hash[u]] else []
  {
    assert [u][1..] == [];
    if seen == [] {
      assert [] + [u] == [u];
    } else {
      assert (seen + [u])[1..] == seen[1..] + [u];
      VisitedMore(c, seen[1..], u, k);
    }
  }

  lemma KindMore(h: map<Ref, Item>, rs: seq<Ref>, r: Ref, k: Kind)
    requires AllAre(h, rs, k) && r in h && Is(h[r], k) && AllAre(h, rs + [r], k)
    ensures KindTokens(h, rs + [r], k) == KindTokens(h, rs, k) + TokensOf(h, r)
  {
    var s := rs + [r];
    assert s[..|s| - 1] == rs;
    match k
    case PersonKind => assert PersonRecs(h, s)[..|rs|] == PersonRecs(h, rs);
    case GroupKind => assert GroupRecs(h, s)[..|rs|] == GroupRecs(h, rs);
    case FolderKind => assert FolderRecs(h, s)[..|rs|] == FolderRecs(h, rs);
  }

  lemma WrittenMore(c: Cache, order: seq<Uid>, i: nat, k: Kind)
    requires i < |order|
    ensures var u := order[i];
      Written(c, order[..i + 1], k) ==
        if u in c.hash && c.hash[u] in c.heap
          && Is(c.heap[c.hash[u]], k) then Written(c, order[..i], k) + TokensOf(c.heap, c.hash[u])
        else Written(c, order[..i], k)
  {
    hide KindTokens, TokensOf;
    var u := order[i];
    assert order[..i + 1] == order[..i] + [u];
    VisitedMore(c, order[..i], u, k);
    var before, after := Visited(c, order[..i], k), Visited(c, order[..i + 1], k);
    VisitedAre(c, order[..i], k);
    VisitedAre(c, order[..i + 1], k);
    if u in c.hash && c.hash[u] in c.heap && Is(c.heap[c.hash[u]], k) {
      KindMore(c.heap, before, c.hash[u], k);
    } else {
      assert after == before;
    }
  }

  /** `g_hash_table_foreach` with one of the three visitors. */
  method WritePass(h: map<Ref, Item>, hash: map<Uid, Ref>, order: seq<Uid>, k: Kind, ghost c: Cache)
      returns (out: seq<Token>)
    requires c.heap == h && c.hash == hash
    ensures out == Written(c, order, k)
  {
    hide Written;
    out := [];
    var i := 0;
    WrittenNone(c, k);
    assert order[..0] == [];
    while i < |order|
      invariant 0 <= i <= |order| && out == Written(c, order[..i], k)
    {
      WrittenMore(c, order, i, k);
      if order[i] in hash && hash[order[i]] in h && Is(h[hash[order[i]]], k) {
        var obj := hash[order[i]];
        var more;
        if h[obj].Person? {
          more := WritePerson(h, obj);
        } else if h[obj].Group? {
          more := WriteGroup(h, obj);
        } else {
          more := WriteFolder(h, obj);
        }
        out := out + more;
      }
      i := i + 1;
    }
    assert order[..i] == order;
  }

  lemma WrittenNone(c: Cache, k: Kind)
    ensures Written(c, [], k) == []
  {
  }

  /** Some order of the keys: a table that does not change is traversed in the same order each
      time. */
  method HashOrder(hash: map<Uid, Ref>) returns (order: seq<Uid>)
    ensures NoDup(order) && Elems(order) == hash.Keys
  {
    order := [];
    var keys := hash.Keys;
    while keys != {}
      invariant keys <= hash.Keys && NoDup(order) && Elems(order) == hash.Keys - keys
      decreases keys
    {
      var u :| u in keys;
      keys := keys - {u};
      assert u !in Elems(order);
      NoDupAppend(order, u);
      assert Elems(order + [u]) == Elems(order) + {u};
      order := order + [u];
    }
  }

  /** The body of `addrbook_write_to`. */
  method WriteBook(h: map<Ref, Item>, hash: map<Uid, Ref>, name: string, ghost c: Cache)
      returns (out: seq<Token>, order: seq<Uid>)
    requires c.heap == h && c.hash == hash
    ensures Traversal(c, order) && out == DocTokens(DocOf(c, name, order))
  {
    hide Written, DocTokens;
    order := HashOrder(hash);
    var persons := WritePass(h, hash, order, PersonKind, c);
    var groups := WritePass(h, hash, order, GroupKind, c);
    var folders := WritePass(h, hash, order, FolderKind, c);
    out := [Open(Tag("address-book", [Attr("name", name)]), false,
      "")] + persons + groups + folders + [Close("address-book")];
    WrittenDoc(c, name, order);
  }

  lemma WrittenDoc(c: Cache, name: string, order: seq<Uid>)
    ensures DocTokens(DocOf(c, name, order)) ==
      [Open(Tag("address-book", [Attr("name", name)]), false, "")] + Written(c, order, PersonKind) + Written(c, order,
        GroupKind)
        + Written(c, order, FolderKind) + [Close("address-book")]
  {
    hide PersonsTokens, GroupsTokens, FoldersTokens, PersonRecs, GroupRecs, FolderRecs, Visited;
    var d := DocOf(c, name, order);
    WrittenParts(c, name, order);
    var p, g, f := PersonsTokens(d.persons), GroupsTokens(d.groups), FoldersTokens(d.folders);
    hide Written, DocOf;
    var x := [Open(Tag("address-book", [Attr("name", name)]), false, "")];
    assert x + (p + (g + f)) == x + p + g + f;
  }

  lemma WrittenParts(c: Cache, name: string, order: seq<Uid>)
    ensures var d := DocOf(c, name, order);
      && d.name == name && PersonsTokens(d.persons) == Written(c, order, PersonKind)
      && GroupsTokens(d.groups) == Written(c, order, GroupKind)
        && FoldersTokens(d.folders) == Written(c, order, FolderKind)
  {
    hide PersonsTokens, GroupsTokens, FoldersTokens, PersonRecs, GroupRecs, FolderRecs, Visited;
  }
}
