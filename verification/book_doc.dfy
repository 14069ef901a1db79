/** What an address-book file says (src/addrbook.c:292-343): persons with their addresses and
    attributes, then groups, then folders, which name their contents by uid. */
module BookDoc {
  import opened Items
  import opened XmlFiles

  datatype EmailRec = EmailRec(uid: Uid, alias: string, address: string, remarks: string)
  datatype PersonRec = PersonRec(uid: Uid, firstName: string, lastName: string, nickName: string, commonName: string,
                                 emails: seq<EmailRec>, attribs: seq<Attrib>)
  /** A member is written with the uids of its person and of the email; only the latter is read. */
  datatype MemberRec = MemberRec(pid: Uid, eid: Uid)
  datatype GroupRec = GroupRec(uid: Uid, name: string, remarks: string, members: seq<MemberRec>)
  /** An item is written with its type and its uid; only the latter is read. */
  datatype ItemRec = ItemRec(kind: Kind, uid: Uid)
  datatype FolderRec = FolderRec(uid: Uid, name: string, remarks: string, items: seq<ItemRec>)
  datatype Doc = Doc(name: string, persons: seq<PersonRec>, groups: seq<GroupRec>, folders: seq<FolderRec>)

  // ---------- elements of lists ----------

  /** An element that closes itself, or one with text. */
  datatype Elem = Elem(tag: Tag, text: Option<string>)

  function ElemTokens(e: Elem): seq<Token> {
    if e.text.None? then [Open(e.tag, true, "")] else [Open(e.tag, false, e.text.value), Close(e.tag.name)]
  }

  function ElemsTokens(es: seq<Elem>): seq<Token> {
    if es == [] then [] else ElemTokens(es[0]) + ElemsTokens(es[1..])
  }

  lemma {:induction false} ElemsTokensConcat(a: seq<Elem>, b: seq<Elem>)
    ensures ElemsTokens(a + b) == ElemsTokens(a) + ElemsTokens(b)
  {
    if a == [] {
      assert a + b == b;
    } else {
      assert (a + b)[1..] == a[1..] + b;
      ElemsTokensConcat(a[1..], b);
    }
  }

  function AddressElem(e: EmailRec): Elem {
    Elem(Tag("address", [Attr("uid", e.uid), Attr("alias", e.alias), Attr("email", e.address),
      Attr("remarks", e.remarks)]), None)
  }

  function AttributeElem(a: Attrib): Elem {
    Elem(Tag("attribute", [Attr("uid", a.uid), Attr("name", a.name)]), Some(a.value))
  }

  function MemberElem(m: MemberRec): Elem {
    Elem(Tag("member", [Attr("pid", m.pid), Attr("eid", m.eid)]), None)
  }

  function KindName(k: Kind): string {
    match k
    case PersonKind => "person"
    case GroupKind => "group"
    case FolderKind => "folder"
  }

  function ItemElem(i: ItemRec): Elem {
    Elem(Tag("item", [Attr("type", KindName(i.kind)), Attr("uid", i.uid)]), None)
  }

  function AddressElems(es: seq<EmailRec>): (r: seq<Elem>)
    ensures |r| == |es|
  {
    seq(|es|, i requires 0 <= i < |es| => AddressElem(es[i]))
  }

  function AttributeElems(s: seq<Attrib>): (r: seq<Elem>)
    ensures |r| == |s|
  {
    seq(|s|, i requires 0 <= i < |s| => AttributeElem(s[i]))
  }

  function MemberElems(ms: seq<MemberRec>): (r: seq<Elem>)
    ensures |r| == |ms|
  {
    seq(|ms|, i requires 0 <= i < |ms| => MemberElem(ms[i]))
  }

  function ItemElems(s: seq<ItemRec>): (r: seq<Elem>)
    ensures |r| == |s|
  {
    seq(|s|, i requires 0 <= i < |s| => ItemElem(s[i]))
  }

  // ---------- the whole file ----------

  function PersonTag(p: PersonRec): Tag {
    Tag("person", [Attr("uid", p.uid), Attr("first-name", p.firstName), Attr("last-name", p.lastName),
      Attr("nick-name", p.nickName), Attr("cn", p.commonName)])
  }

  function GroupTag(g: GroupRec): Tag {
    Tag("group", [Attr("uid", g.uid), Attr("name", g.name), Attr("remarks", g.remarks)])
  }

  function FolderTag(f: FolderRec): Tag {
    Tag("folder", [Attr("uid", f.uid), Attr("name", f.name), Attr("remarks", f.remarks)])
  }

  function ListTokens(name: string, es: seq<Elem>): seq<Token> {
    [Open(Tag(name, []), false, "")] + ElemsTokens(es) + [Close(name)]
  }

  function PersonTokens(p: PersonRec): seq<Token> {
    [Open(PersonTag(p), false, "")] + ListTokens("address-list", AddressElems(p.emails))
      + ListTokens("attribute-list", AttributeElems(p.attribs)) + [Close("person")]
  }

  function GroupTokens(g: GroupRec): seq<Token> {
    [Open(GroupTag(g), false, "")] + ListTokens("member-list", MemberElems(g.members)) + [Close("group")]
  }

  function FolderTokens(f: FolderRec): seq<Token> {
    [Open(FolderTag(f), false, "")] + ListTokens("item-list", ItemElems(f.items)) + [Close("folder")]
  }

  function PersonsTokens(ps: seq<PersonRec>): seq<Token> {
    if ps == [] then [] else PersonsTokens(ps[..|ps| - 1]) + PersonTokens(ps[|ps| - 1])
  }

  function GroupsTokens(gs: seq<GroupRec>): seq<Token> {
    if gs == [] then [] else GroupsTokens(gs[..|gs| - 1]) + GroupTokens(gs[|gs| - 1])
  }

  function FoldersTokens(fs: seq<FolderRec>): seq<Token> {
    if fs == [] then [] else FoldersTokens(fs[..|fs| - 1]) + FolderTokens(fs[|fs| - 1])
  }

  function DocTokens(d: Doc): seq<Token> {
    [Open(Tag("address-book", [Attr("name", d.name)]), false, "")]
      + (PersonsTokens(d.persons) + (GroupsTokens(d.groups) + FoldersTokens(d.folders))) + [Close("address-book")]
  }
}
