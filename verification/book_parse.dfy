/** Reading an address-book file (src/addrbook.c:364-783): the level-driven parser as a function of
    the reader and of what has been loaded so far, and what it makes of a written file. */
module BookParse {
  import opened Items
  import opened CacheState
  import opened CacheEdit
  import opened XmlFiles
  import opened BookDoc

  /** A book while it is read: the cache, the uids each folder lists, and the folders still to be
      resolved, `tempList`. */
  datatype Loading = Loading(c: Cache, items: map<Ref, seq<Uid>>, temp: seq<Ref>)

  /** The state after parsing, whether to go on or, on an error, to jump out. */
  datatype Parsed = Parsed(ok: bool, x: Reader, s: Loading)

  // ---------- attributes of a tag ----------

  predicate Has(attrs: seq<Attr>, name: string) {
    exists i :: 0 <= i < |attrs| && attrs[i].name == name
  }

  /** The value of the last attribute of that name; none reads as the empty string. */
  function Value(attrs: seq<Attr>, name: string): string {
    if attrs == [] then ""
    else if attrs[|attrs| - 1].name == name then attrs[|attrs| - 1].value
    else Value(attrs[..|attrs| - 1], name)
  }

  predicate Current(x: Reader, name: string) {
    x.stack != [] && x.stack[0].name == name
  }

  // ---------- making objects ----------

  function NewObject(s: Loading, i: Item): Loading {
    s.(c := s.c.(heap := s.c.heap[s.c.top := i], top := s.c.top + 1))
  }

  /** `addrcache_hash_add_person` and its siblings. */
  function HashAdd(c: Cache, r: Ref): Cache {
    if r !in c.heap || c.heap[r].uid in c.hash then c else c.(hash := c.hash[c.heap[r].uid := r])
  }

  /** `addrcache_get_object`, whatever the cache holds. */
  function Lookup(c: Cache, uid: Uid): Option<Ref> {
    if uid != "" && uid in c.hash && c.hash[uid] in c.heap
      && c.heap[c.hash[uid]].uid == uid then Some(c.hash[uid]) else None
  }

  /** `addrcache_person_add_email` on an email made for it. */
  function AddParsed(c: Cache, p: Ref, e: Item): Cache
    requires e.EMail?
  {
    var m := MakeEmail(c, e);
    if IsPerson(m, p) && Pending(m, c.top) then AddEmail(m, p, c.top) else m
  }

  /** The four kinds of list, with the object whose list it is, if there is one. */
  datatype ListKind =
    | Addresses(person: Option<Ref>)
    | Attributes(person: Option<Ref>)
    | Members(group: Option<Ref>)
    | ItemList(folder: Option<Ref>)

  function ElementName(k: ListKind): string {
    match k
    case Addresses(_) => "address"
    case Attributes(_) => "attribute"
    case Members(_) => "member"
    case ItemList(_) => "item"
  }

  /** `addrbook_parse_address`, `_attribute`, `_member` and `_folder_item`. */
  function ParseElement(k: ListKind, tag: Tag, text: string, s: Loading): Loading {
    var a := tag.attr;
    match k
    case Addresses(p) =>
      if p.None? || a == [] then s
      else s.(c := AddParsed(s.c, p.value, EMail(Value(a, "uid"), Value(a, "alias"), None, Value(a, "email"),
        Value(a, "remarks"))))
    case Attributes(p) =>
      if p.None? || a == [] || !IsPerson(s.c, p.value) then s
      else
        var i := s.c.heap[p.value];
        s.(c := s.c.(heap := s.c.heap[p.value :=
          i.(attribs := i.attribs + [Attrib(Value(a, "uid"), Value(a, "name"), Strip(text))])]))
    case Members(g) =>
      var e := Lookup(s.c, Value(a, "eid"));
      if g.None? || e.None? || !s.c.heap[e.value].EMail? || !IsGroup(s.c, g.value) then s
      else s.(c := Join(s.c, g.value, e.value))
    case ItemList(f) =>
      if f.None? || !Has(a, "uid") then s
      else s.(items := s.items[f.value := (if f.value in s.items then s.items[f.value] else []) + [Value(a, "uid")]])
  }

  // ---------- the parser ----------

  /** `addrbook_parse_addr_list` and its three siblings, each a loop that calls itself for every
      element and comes back when the level drops. */
  function ParseList(k: ListKind, x: Reader, s: Loading): (r: Parsed)
    ensures r.x.Left() <= x.Left()
    decreases x.Left()
  {
    var (rc, y) := NextTag(x);
    if rc != 0 then Parsed(false, y, s)
    else if y.Level() < x.Level() then Parsed(true, y, s)
    else if Current(y, ElementName(k)) then
      var r := ParseList(k, y, ParseElement(k, y.stack[0], y.text, s));
      if r.ok then ParseList(k, r.x, r.s) else r
    else ParseList(k, y, s)
  }

  /** The object that a person's, group's or folder's tag makes; a tag without attributes makes
      none. */
  function Made(tag: Tag): Option<Item> {
    var a := tag.attr;
    if a == [] then None
    else if tag.name == "person" then
      Some(Person(Value(a, "uid"), Value(a, "cn"), None, Value(a, "first-name"), Value(a, "last-name"),
        Value(a, "nick-name"), [], []))
    else if tag.name == "group" then Some(Group(Value(a, "uid"), Value(a, "name"), None, Value(a, "remarks"), []))
    else Some(Folder(Value(a, "uid"), Value(a, "name"), None, Value(a, "remarks"), [], [], []))
  }

  function MadeRef(tag: Tag, s: Loading): Option<Ref> {
    if Made(tag).None? then None else Some(s.c.top)
  }

  function WithMade(tag: Tag, s: Loading): Loading {
    if Made(tag).None? then s else NewObject(s, Made(tag).value)
  }

  function Hashed(o: Option<Ref>, s: Loading): Loading {
    if o.None? then s else s.(c := HashAdd(s.c, o.value))
  }

  /** A folder that could be hashed is queued to be resolved. */
  function Queued(o: Option<Ref>, s: Loading): Loading {
    if o.None? || o.value !in s.c.heap || s.c.heap[o.value].uid in s.c.hash then s
    else Hashed(o, s).(temp := s.temp + [o.value])
  }

  function Discarded(o: Option<Ref>, s: Loading): Loading {
    if o.None? then s else s.(c := s.c.(heap := s.c.heap - {o.value}))
  }

  /** `addrbook_parse_person`: hashed once its addresses have been read. */
  function ParsePerson(x: Reader, s: Loading): (r: Parsed)
    requires Current(x, "person")
    ensures r.x.Left() <= x.Left()
  {
    var p := MadeRef(x.stack[0], s);
    var s1 := WithMade(x.stack[0], s);
    var (rc, y) := NextTag(x);
    if rc != 0 then Parsed(false, y, s1)
    else
      var r := if Current(y, "address-list") then ParseList(Addresses(p), y, s1) else Parsed(true, y, s1);
      if !r.ok then r
      else
        var s2 := if Current(y, "address-list") then Hashed(p, r.s) else r.s;
        var (rc2, z) := NextTag(r.x);
        if rc2 != 0 then Parsed(false, z, s2)
        else if Current(z, "attribute-list") then ParseList(Attributes(p), z, s2)
        else Parsed(true, z, s2)
  }

  /** `addrbook_parse_group` and `addrbook_parse_folder`: hashed before their lists are read, and
      dropped if there is no list. */
  function ParseLister(x: Reader, s: Loading): (r: Parsed)
    requires Current(x, "group") || Current(x, "folder")
    ensures r.x.Left() <= x.Left()
  {
    var o := MadeRef(x.stack[0], s);
    var s1 := WithMade(x.stack[0], s);
    var (rc, y) := NextTag(x);
    if rc != 0 then Parsed(false, y, s1)
    else if Current(x, "group") then
      if Current(y, "member-list") then ParseList(Members(o), y, Hashed(o, s1)) else Parsed(true, y, Discarded(o, s1))
    else
      if Current(y, "item-list") then ParseList(ItemList(o), y, Queued(o, s1)) else Parsed(true, y, Discarded(o, s1))
  }

  function ParseObject(x: Reader, s: Loading): (r: Parsed)
    ensures r.x.Left() <= x.Left()
  {
    if Current(x, "person") then ParsePerson(x, s)
    else if Current(x, "group") || Current(x, "folder") then ParseLister(x, s)
    else Parsed(true, x, s)
  }

  /** The loop of `addrbook_read_tree`, to the end of the outermost element. */
  function ParseObjects(x: Reader, s: Loading): (r: Parsed)
    ensures r.x.Left() <= x.Left()
    decreases x.Left()
  {
    if x.Level() == 0 then Parsed(true, x, s)
    else
      var (rc, y) := NextTag(x);
      if rc != 0 then Parsed(false, y, s)
      else
        var r := ParseObject(y, s);
        if r.ok then ParseObjects(r.x, r.s) else r
  }

  /** How `addrbook_read_tree` comes back: with success, with a file of another format, or not at
      all, by the jump. */
  datatype Outcome = Success | BadFormat | Jump

  datatype Tree = Tree(outcome: Outcome, name: Option<string>, s: Loading)

  function ReadTree(dtd: bool, tokens: seq<Token>, s: Loading): Tree {
    if !dtd then Tree(BadFormat, None, s)
    else
      var (rc, x) := NextTag(Reader(tokens, [], false, ""));
      if rc != 0 then Tree(Jump, None, s)
      else if !Current(x, "address-book") then Tree(BadFormat, None, s)
      else
        var a := x.stack[0].attr;
        var name := if Has(a, "name") then Some(Strip(Value(a, "name"))) else None;
        var r := ParseObjects(x, if name.Some? then s.(c := s.c.(dirty := true)) else s);
        Tree(if r.ok then Success else Jump, name, r.s)
  }

  // ---------- what a written file loads ----------

  function ElemText(e: Elem): string { if e.text.Some? then e.text.value else "" }

  function LoadElems(k: ListKind, es: seq<Elem>, s: Loading): Loading {
    if es == [] then s else LoadElems(k, es[1..], ParseElement(k, es[0].tag, ElemText(es[0]), s))
  }

  function LoadPerson(s: Loading, p: PersonRec): Loading {
    var r := Some(s.c.top);
    var s1 := WithMade(PersonTag(p), s);
    LoadElems(Attributes(r), AttributeElems(p.attribs), Hashed(r, LoadElems(Addresses(r), AddressElems(p.emails), s1)))
  }

  function LoadGroup(s: Loading, g: GroupRec): Loading {
    LoadElems(Members(Some(s.c.top)), MemberElems(g.members), Hashed(Some(s.c.top), WithMade(GroupTag(g), s)))
  }

  function LoadFolder(s: Loading, f: FolderRec): Loading {
    LoadElems(ItemList(Some(s.c.top)), ItemElems(f.items), Queued(Some(s.c.top), WithMade(FolderTag(f), s)))
  }

  function LoadPersons(s: Loading, ps: seq<PersonRec>): Loading {
    if ps == [] then s else LoadPerson(LoadPersons(s, ps[..|ps| - 1]), ps[|ps| - 1])
  }

  function LoadGroups(s: Loading, gs: seq<GroupRec>): Loading {
    if gs == [] then s else LoadGroup(LoadGroups(s, gs[..|gs| - 1]), gs[|gs| - 1])
  }

  function LoadFolders(s: Loading, fs: seq<FolderRec>): Loading {
    if fs == [] then s else LoadFolder(LoadFolders(s, fs[..|fs| - 1]), fs[|fs| - 1])
  }

  function LoadDoc(s: Loading, d: Doc): Loading {
    LoadFolders(LoadGroups(LoadPersons(s, d.persons), d.groups), d.folders)
  }

  lemma ParseElem(k: ListKind, e: Elem, after: seq<Token>, here: seq<Tag>, text: string, s: Loading)
    requires e.tag.name == ElementName(k) && here != []
    ensures ParseList(k, Reader(ElemTokens(e) + after, here, false, text), s) ==
      ParseList(k, Reader(after, here, false, ""), ParseElement(k, e.tag, ElemText(e), s))
  {
    hide ParseElement;
    var x := Reader(ElemTokens(e) + after, here, false, text);
    var inside := if e.text.None? then after else [Close(e.tag.name)] + after;
    assert x.input[1..] == inside;
    var y := Reader(inside, [e.tag] + here, e.text.None?, ElemText(e));
    assert NextTag(x) == (0, y);
    assert ([e.tag] + here)[1..] == here && (e.text.Some? ==> inside[1..] == after);
    assert NextTag(y) == (0, Reader(after, here, false, ""));
  }

  lemma ParseNoElems(k: ListKind, name: string, rest: seq<Token>, stack: seq<Tag>, text: string, s: Loading)
    ensures ParseList(k, Reader([] + ([Close(name)] + rest), [Tag(name, [])] + stack, false, text), s) ==
      Parsed(true, Reader(rest, stack, false, ""), s)
  {
    var here := [Tag(name, [])] + stack;
    var x := Reader([] + ([Close(name)] + rest), here, false, text);
    assert x.input == [Close(name)] + rest;
    assert here[1..] == stack && x.input[1..] == rest;
  }

  /** The elements of one list are read one after the other, and the closing tag ends it. */
  lemma {:induction false} ParseElems(k: ListKind, name: string, es: seq<Elem>, rest: seq<Token>, stack: seq<Tag>,
      text: string, s: Loading)
    requires forall e | e in es :: e.tag.name == ElementName(k)
    ensures ParseList(k, Reader(ElemsTokens(es) + ([Close(name)] + rest), [Tag(name, [])] + stack, false, text), s) ==
      Parsed(true, Reader(rest, stack, false, ""), LoadElems(k, es, s))
    decreases |es|
  {
    hide ParseElement, ParseList, ElementName, ElemText;
    if es == [] {
      ParseNoElems(k, name, rest, stack, text, s);
    } else {
      var after := ElemsTokens(es[1..]) + ([Close(name)] + rest);
      assert es[0] in es && forall e | e in es[1..] :: e in es;
      assert ElemsTokens(es) + ([Close(name)] + rest) == ElemTokens(es[0]) + after;
      ParseElem(k, es[0], after, [Tag(name, [])] + stack, text, s);
      ParseElems(k, name, es[1..], rest, stack, "", ParseElement(k, es[0].tag, ElemText(es[0]), s));
    }
  }

  lemma {:induction false} ValueAt(a: seq<Attr>, name: string, k: nat)
    requires k < |a| && a[k].name == name && forall j | k < j < |a| :: a[j].name != name
    ensures Value(a, name) == a[k].value && Has(a, name)
    decreases |a|
  {
    if k < |a| - 1 {
      ValueAt(a[..|a| - 1], name, k);
    }
  }

  lemma MadePerson(p: PersonRec)
    ensures Made(PersonTag(p)) == Some(Person(p.uid, p.commonName, None, p.firstName, p.lastName, p.nickName, [], []))
  {
    var a := PersonTag(p).attr;
    ValueAt(a, "uid", 0);
    ValueAt(a, "first-name", 1);
    ValueAt(a, "last-name", 2);
    ValueAt(a, "nick-name", 3);
    ValueAt(a, "cn", 4);
  }

  lemma MadeGroup(g: GroupRec)
    ensures Made(GroupTag(g)) == Some(Group(g.uid, g.name, None, g.remarks, []))
  {
    var a := GroupTag(g).attr;
    ValueAt(a, "uid", 0);
    ValueAt(a, "name", 1);
    ValueAt(a, "remarks", 2);
  }

  lemma MadeFolder(f: FolderRec)
    ensures Made(FolderTag(f)) == Some(Folder(f.uid, f.name, None, f.remarks, [], [], []))
  {
    var a := FolderTag(f).attr;
    ValueAt(a, "uid", 0);
    ValueAt(a, "name", 1);
    ValueAt(a, "remarks", 2);
  }

  /** A list with its opening tag still to be read. */
  lemma ParseWholeList(k: ListKind, name: string, es: seq<Elem>, rest: seq<Token>, stack: seq<Tag>, text: string,
      s: Loading)
    requires forall e | e in es :: e.tag.name == ElementName(k)
    ensures var (rc, y) := NextTag(Reader(ListTokens(name, es) + rest, stack, false, text));
      && rc == 0 && Current(y, name)
      && ParseList(k, y, s) == Parsed(true, Reader(rest, stack, false, ""), LoadElems(k, es, s))
  {
    var x := Reader(ListTokens(name, es) + rest, stack, false, text);
    assert x.input == [Open(Tag(name, []), false, "")] + (ElemsTokens(es) + ([Close(name)] + rest));
    assert x.input[1..] == ElemsTokens(es) + ([Close(name)] + rest);
    ParseElems(k, name, es, rest, stack, "", s);
  }

  lemma ParseWritten(x: Reader, tag: Tag, body: seq<Token>, stack: seq<Tag>)
    requires x.input == [Open(tag, false, "")] + body && x.stack == stack && !x.isEmptyElement
    ensures NextTag(x) == (0, Reader(body, [tag] + stack, false, ""))
  {
    assert x.input[1..] == body;
  }

  /** After an object has been read, its closing tag is passed over. */
  lemma SkipClose(name: string, rest: seq<Token>, tag: Tag, book: Tag, s: Loading)
    requires tag.name == name && book.name == "address-book"
    ensures ParseObjects(Reader([Close(name)] + rest, [tag, book], false, ""), s) ==
      ParseObjects(Reader(rest, [book], false, ""), s)
  {
    var x := Reader([Close(name)] + rest, [tag, book], false, "");
    assert x.input[1..] == rest && [tag, book][1..] == [book];
    assert NextTag(x) == (0, Reader(rest, [book], false, ""));
  }

  /** The loop goes on where an object's parser has left off. */
  lemma ObjectParsed(x: Reader, y: Reader, s: Loading)
    requires x.Level() != 0 && NextTag(x) == (0, y)
    ensures ParseObjects(x, s) == var r := ParseObject(y, s); if r.ok then ParseObjects(r.x, r.s) else r
  {
  }

  lemma PersonElems(p: PersonRec)
    ensures forall e | e in AddressElems(p.emails) :: e.tag.name == "address"
    ensures forall e | e in AttributeElems(p.attribs) :: e.tag.name == "attribute"
  {
  }

  lemma ParseOnePerson(p: PersonRec, rest: seq<Token>, book: Tag, text: string, s: Loading)
    requires book.name == "address-book"
    ensures ParseObjects(Reader(PersonTokens(p) + rest, [book], false, text), s) ==
      ParseObjects(Reader(rest, [book], false, ""), LoadPerson(s, p))
  {
    PersonElems(p);
    hide LoadElems, ParseList, PersonTag, ElemsTokens, AddressElems, AttributeElems, ParseObjects, Hashed;
    var tag := PersonTag(p);
    var x := Reader(PersonTokens(p) + rest, [book], false, text);
    var end := [Close("person")] + rest;
    var second := ListTokens("attribute-list", AttributeElems(p.attribs)) + end;
    var first := ListTokens("address-list", AddressElems(p.emails)) + second;
    assert x.input == [Open(tag, false, "")] + first;
    ParseWritten(x, tag, first, [book]);
    assert [tag] + [book] == [tag, book];
    MadePerson(p);
    var r := Some(s.c.top);
    var s1 := WithMade(tag, s);
    ParseWholeList(Addresses(r), "address-list", AddressElems(p.emails), second, [tag, book], "", s1);
    var s2 := Hashed(r, LoadElems(Addresses(r), AddressElems(p.emails), s1));
    ParseWholeList(Attributes(r), "attribute-list", AttributeElems(p.attribs), end, [tag, book], "", s2);
    assert ParsePerson(Reader(first, [tag, book], false, ""), s) ==
      Parsed(true, Reader(end, [tag, book], false, ""), LoadPerson(s, p));
    ObjectParsed(x, Reader(first, [tag, book], false, ""), s);
    SkipClose("person", rest, tag, book, LoadPerson(s, p));
  }

  lemma ParseOneGroup(g: GroupRec, rest: seq<Token>, book: Tag, text: string, s: Loading)
    requires book.name == "address-book"
    ensures ParseObjects(Reader(GroupTokens(g) + rest, [book], false, text), s) ==
      ParseObjects(Reader(rest, [book], false, ""), LoadGroup(s, g))
  {
    var tag := GroupTag(g);
    var x := Reader(GroupTokens(g) + rest, [book], false, text);
    var end := [Close("group")] + rest;
    var first := ListTokens("member-list", MemberElems(g.members)) + end;
    assert x.input == [Open(tag, false, "")] + first;
    ParseWritten(x, tag, first, [book]);
    assert [tag] + [book] == [tag, book];
    MadeGroup(g);
    ParseWholeList(Members(Some(s.c.top)), "member-list", MemberElems(g.members), end, [tag, book], "",
      Hashed(Some(s.c.top), WithMade(tag, s)));
    assert ParseLister(Reader(first, [tag, book], false, ""), s) ==
      Parsed(true, Reader(end, [tag, book], false, ""), LoadGroup(s, g));
    SkipClose("group", rest, tag, book, LoadGroup(s, g));
  }

  lemma ParseOneFolder(f: FolderRec, rest: seq<Token>, book: Tag, text: string, s: Loading)
    requires book.name == "address-book"
    ensures ParseObjects(Reader(FolderTokens(f) + rest, [book], false, text), s) ==
      ParseObjects(Reader(rest, [book], false, ""), LoadFolder(s, f))
  {
    var tag := FolderTag(f);
    var x := Reader(FolderTokens(f) + rest, [book], false, text);
    var end := [Close("folder")] + rest;
    var first := ListTokens("item-list", ItemElems(f.items)) + end;
    assert x.input == [Open(tag, false, "")] + first;
    ParseWritten(x, tag, first, [book]);
    assert [tag] + [book] == [tag, book];
    MadeFolder(f);
    ParseWholeList(ItemList(Some(s.c.top)), "item-list", ItemElems(f.items), end, [tag, book], "",
      Queued(Some(s.c.top), WithMade(tag, s)));
    assert ParseLister(Reader(first, [tag, book], false, ""), s) ==
      Parsed(true, Reader(end, [tag, book], false, ""), LoadFolder(s, f));
    SkipClose("folder", rest, tag, book, LoadFolder(s, f));
  }

  lemma {:induction false} ParsePersons(ps: seq<PersonRec>, rest: seq<Token>, book: Tag, text: string, s: Loading)
      returns (t: string)
    requires book.name == "address-book"
    ensures ParseObjects(Reader(PersonsTokens(ps) + rest, [book], false, text), s) ==
      ParseObjects(Reader(rest, [book], false, t), LoadPersons(s, ps))
    decreases |ps|
  {
    hide ParseObjects, PersonTokens, LoadPerson;
    t := text;
    if ps == [] {
      assert [] + rest == rest;
    } else {
      var n := |ps| - 1;
      assert PersonsTokens(ps) + rest == PersonsTokens(ps[..n]) + (PersonTokens(ps[n]) + rest);
      var u := ParsePersons(ps[..n], PersonTokens(ps[n]) + rest, book, text, s);
      ParseOnePerson(ps[n], rest, book, u, LoadPersons(s, ps[..n]));
      t := "";
    }
  }

  lemma {:induction false} ParseGroups(gs: seq<GroupRec>, rest: seq<Token>, book: Tag, text: string, s: Loading)
      returns (t: string)
    requires book.name == "address-book"
    ensures ParseObjects(Reader(GroupsTokens(gs) + rest, [book], false, text), s) ==
      ParseObjects(Reader(rest, [book], false, t), LoadGroups(s, gs))
    decreases |gs|
  {
    hide ParseObjects, GroupTokens, LoadGroup;
    t := text;
    if gs == [] {
      assert [] + rest == rest;
    } else {
      var n := |gs| - 1;
      assert GroupsTokens(gs) + rest == GroupsTokens(gs[..n]) + (GroupTokens(gs[n]) + rest);
      var u := ParseGroups(gs[..n], GroupTokens(gs[n]) + rest, book, text, s);
      ParseOneGroup(gs[n], rest, book, u, LoadGroups(s, gs[..n]));
      t := "";
    }
  }

  lemma {:induction false} ParseFolders(fs: seq<FolderRec>, rest: seq<Token>, book: Tag, text: string, s: Loading)
      returns (t: string)
    requires book.name == "address-book"
    ensures ParseObjects(Reader(FoldersTokens(fs) + rest, [book], false, text), s) ==
      ParseObjects(Reader(rest, [book], false, t), LoadFolders(s, fs))
    decreases |fs|
  {
    hide ParseObjects, FolderTokens, LoadFolder;
    t := text;
    if fs == [] {
      assert [] + rest == rest;
    } else {
      var n := |fs| - 1;
      assert FoldersTokens(fs) + rest == FoldersTokens(fs[..n]) + (FolderTokens(fs[n]) + rest);
      var u := ParseFolders(fs[..n], FolderTokens(fs[n]) + rest, book, text, s);
      ParseOneFolder(fs[n], rest, book, u, LoadFolders(s, fs[..n]));
      t := "";
    }
  }

  lemma ReadBody(d: Doc, book: Tag, s: Loading)
    requires book.name == "address-book"
    ensures var body :=
        PersonsTokens(d.persons) + (GroupsTokens(d.groups) + (FoldersTokens(d.folders) + [Close("address-book")]));
      var r := ParseObjects(Reader(body, [book], false, ""), s); r.ok && r.s == LoadDoc(s, d)
  {
    var end := [Close("address-book")];
    var folders := FoldersTokens(d.folders) + end;
    var groups := GroupsTokens(d.groups) + folders;
    var t := ParsePersons(d.persons, groups, book, "", s);
    var s1 := LoadPersons(s, d.persons);
    var u := ParseGroups(d.groups, folders, book, t, s1);
    var s2 := LoadGroups(s1, d.groups);
    var v := ParseFolders(d.folders, end, book, u, s2);
    var last := Reader(end, [book], false, v);
    assert last.input[1..] == [] && [book][1..] == [];
    assert NextTag(last) == (0, Reader([], [], false, ""));
  }

  /** The first stage of the round trip: reading the tags of any document makes its objects, in its
      order, to the end of the file and without an error. */
  lemma ReadWritten(d: Doc, s: Loading)
    ensures ReadTree(true, DocTokens(d), s) ==
      Tree(Success, Some(Strip(d.name)), LoadDoc(s.(c := s.c.(dirty := true)), d))
  {
    hide ParseObjects, LoadDoc, PersonsTokens, GroupsTokens, FoldersTokens, Strip;
    var book := Tag("address-book", [Attr("name", d.name)]);
    var x := Reader(DocTokens(d), [], false, "");
    var body :=
      PersonsTokens(d.persons) + (GroupsTokens(d.groups) + (FoldersTokens(d.folders) + [Close("address-book")]));
    assert x.input == [Open(book, false, "")] + body;
    ParseWritten(x, book, body, []);
    assert [book] + [] == [book];
    ValueAt(book.attr, "name", 0);
    ReadBody(d, book, s.(c := s.c.(dirty := true)));
  }

  // ---------- records without their list ----------

  lemma {:induction false} AttributesKeepHash(p: Option<Ref>, x: Reader, s: Loading)
    ensures ParseList(Attributes(p), x, s).s.c.hash == s.c.hash
    decreases x.Left()
  {
    hide ParseElement;
    var k := Attributes(p);
    var (rc, y) := NextTag(x);
    if rc == 0 && y.Level() >= x.Level() {
      if Current(y, ElementName(k)) {
        var t := ParseElement(k, y.stack[0], y.text, s);
        AttributeKeepsHash(p, y.stack[0], y.text, s);
        AttributesKeepHash(p, y, t);
        var r := ParseList(k, y, t);
        if r.ok {
          AttributesKeepHash(p, r.x, r.s);
        }
      } else {
        AttributesKeepHash(p, y, s);
      }
    }
  }

  lemma AttributeKeepsHash(p: Option<Ref>, tag: Tag, text: string, s: Loading)
    ensures ParseElement(Attributes(p), tag, text, s).c.hash == s.c.hash
  {
  }

  /** A person whose tag is not followed by its address list is not hashed, so that nothing finds it; a
      group or a folder without its list is thrown away. */
  lemma WithoutList(x: Reader, s: Loading)
    requires NextTag(x).0 == 0 && s.c.top !in s.c.heap
    ensures Current(x, "person") && !Current(NextTag(x).1, "address-list") ==>
      ParsePerson(x, s).s.c.hash == s.c.hash
    ensures Current(x, "group") && !Current(NextTag(x).1, "member-list") ==>
      ParseLister(x, s).ok && ParseLister(x, s).s.c.hash == s.c.hash && ParseLister(x, s).s.c.heap == s.c.heap
    ensures Current(x, "folder") && !Current(NextTag(x).1, "item-list") ==>
      && ParseLister(x, s).ok && ParseLister(x, s).s.c.hash == s.c.hash && ParseLister(x, s).s.c.heap == s.c.heap
      && ParseLister(x, s).s.temp == s.temp
  {
    hide ParseList, Made;
    var y := NextTag(x).1;
    if Current(x, "person") && !Current(y, "address-list") {
      var s1 := WithMade(x.stack[0], s);
      AttributesKeepHash(MadeRef(x.stack[0], s), NextTag(y).1, s1);
    }
    if Current(x, "group") || Current(x, "folder") {
      var o := Made(x.stack[0]);
      assert o.Some? ==> s.c.heap[s.c.top := o.value] - {s.c.top} == s.c.heap;
    }
  }
}
