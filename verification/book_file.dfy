/** The address-book file as the source has it: a parser, a resolver and a writer that work on the
    book step by step (src/addrbook.c:364-951, 1029-1367). */
module BookFile {
  import opened Items
  import opened CacheState
  import opened AddrCache
  import opened XmlFiles
  import opened BookDoc
  import opened BookParse
  import opened BookResolve
  import opened BookRound
  import opened BookLink
  import opened BookWrite
  import opened BookSame

  /** What a file holds: whether it starts with a document type, and its tags. */
  datatype Stored = Stored(dtd: bool, tokens: seq<Token>)

  /** The return codes of the source (src/mgutils.h). */
  datatype Status = MguSuccess | MguBadFormat | MguOpenFile | MguNoFile | MguErrorWrite

  /** A book and its file: `file` is what the path and the file name lead to. */
  datatype Book = Book(cache: Cache, name: string, dataRead: bool, retVal: Status, path: string, fileName: string,
    file: Option<Stored>)

  /** How a write can end: the old file is replaced as a whole or stays. */
  datatype Fate = Written | NotOpened | Failed

  /** `addrbook_read_data`.  A jump out of the parser leaves the cache half read. */
  function ReadBook(b: Book, order: seq<Uid>): Book {
    var s := Cleared(b.cache.root, b.cache.nextId, b.cache.root + 1, b.cache.dirty);
    match b.file
    case None => b.(cache := s.c, dataRead := false, retVal := MguOpenFile)
    case Some(f) =>
      var t := BookParse.ReadTree(f.dtd, f.tokens, s);
      var name := if t.name.Some? then t.name.value else b.name;
      match t.outcome
      case Jump => b.(cache := t.s.c, name := name, dataRead := false, retVal := MguBadFormat)
      case _ => b.(cache := Resolved(t.s, order).(dirty := false), name := name, dataRead := true,
                   retVal := if t.outcome == Success then MguSuccess else MguBadFormat)
  }

  /** Whether saving gets as far as replacing the file. */
  predicate Stores(b: Book, fate: Fate) {
    b.fileName != "" && b.path != "" && fate == Written
  }

  /** `addrbook_save_data`. */
  function SaveBook(b: Book, order: seq<Uid>, fate: Fate): Book {
    if b.fileName == "" || b.path == "" then b.(retVal := MguNoFile)
    else
      match fate
      case NotOpened => b.(retVal := MguOpenFile)
      case Failed => b.(retVal := MguErrorWrite)
      case Written =>
        b.(file := Some(Stored(true, DocTokens(DocOf(b.cache, b.name, order)))),
          cache := b.cache.(dirty := false), retVal := MguSuccess)
  }

  lemma ClearedOk(root: Ref, nextId: nat, top: Ref, dirty: bool)
    requires root < top
    ensures LoadOk(Cleared(root, nextId, top, dirty))
  {
  }

  lemma ValueNext(a: seq<Attr>, i: nat, name: string)
    requires i < |a|
    ensures Value(a[..i + 1], name) == if a[i].name == name then a[i].value else Value(a[..i], name)
    ensures Has(a[..i + 1], name) <==> a[i].name == name || Has(a[..i], name)
  {
    assert a[..i + 1][..i] == a[..i];
    if Has(a[..i], name) {
      var j :| 0 <= j < i && a[..i][j].name == name;
      assert a[..i + 1][j].name == name;
    }
    assert a[..i + 1][i] == a[i];
  }

  class AddressBookFile {
    const addressCache: AddressCache
    var listItems: map<Ref, seq<Uid>>
    var tempList: seq<Ref>
    var retVal: Status
    var path: string
    var fileName: string
    /** What is on disk. */
    var file: Option<Stored>

    ghost function View(): Book
      reads this, addressCache
    {
      Book(addressCache.View(), addressCache.name, addressCache.dataRead, retVal, path, fileName, file)
    }

    ghost function Loaded(): Loading
      reads this, addressCache
    {
      Loading(addressCache.View(), listItems, tempList)
    }

    constructor (cache: AddressCache, path: string, fileName: string, file: Option<Stored>)
      ensures addressCache == cache && listItems == map[] && tempList == []
      ensures View() == Book(cache.View(), cache.name, cache.dataRead, MguSuccess, path, fileName, file)
    {
      addressCache := cache;
      this.path, this.fileName, this.file := path, fileName, file;
      listItems := map[];
      tempList := [];
      retVal := MguSuccess;
    }

    // ---------- elements of lists ----------

    /** `addrbook_parse_address`.  The test before the email is linked stands for a pointer that
        is always valid. */
    method ParseAddress(file: XmlFile, person: Option<Ref>)
      requires file.tagStack != []
      modifies addressCache`heap, addressCache`itemHash, addressCache`top, addressCache`dirtyFlag
      ensures Loaded() == BookParse.ParseElement(Addresses(person), file.tagStack[0], file.text, old(Loaded()))
    {
      var attr := file.tagStack[0].attr;
      var uid, alias, address, remarks := "", "", "", "";
      var i := 0;
      while i < |attr|
        invariant 0 <= i <= |attr| && Loaded() == old(Loaded())
        invariant uid == Value(attr[..i], "uid") && alias == Value(attr[..i], "alias")
        invariant address == Value(attr[..i], "email") && remarks == Value(attr[..i], "remarks")
      {
        var name, value := attr[i].name, attr[i].value;
        ValueNext(attr, i, "uid");
        ValueNext(attr, i, "alias");
        ValueNext(attr, i, "email");
        ValueNext(attr, i, "remarks");
        if name == "uid" {
          uid := value;
        } else if name == "alias" {
          alias := value;
        } else if name == "email" {
          address := value;
        } else if name == "remarks" {
          remarks := value;
        }
        i := i + 1;
      }
      assert attr[..i] == attr;
      if attr != [] && person.Some? {
        var e := EMail(uid, alias, None, address, remarks);
        var r := addressCache.top;
        addressCache.heap := addressCache.heap[r := e];
        addressCache.top := r + 1;
        if person.value in addressCache.heap && addressCache.heap[person.value].Person? {
          var added := addressCache.LinkEmail(person.value, r);
        }
      }
    }

    /** `addrbook_parse_attribute`. */
    method ParseAttribute(file: XmlFile, person: Option<Ref>)
      requires file.tagStack != []
      modifies addressCache`heap
      ensures Loaded() == BookParse.ParseElement(Attributes(person), file.tagStack[0], file.text, old(Loaded()))
    {
      var attr := file.tagStack[0].attr;
      var uid, title := "", "";
      var i := 0;
      while i < |attr|
        invariant 0 <= i <= |attr| && Loaded() == old(Loaded())
        invariant uid == Value(attr[..i], "uid") && title == Value(attr[..i], "name")
      {
        ValueNext(attr, i, "uid");
        ValueNext(attr, i, "name");
        if attr[i].name == "uid" {
          uid := attr[i].value;
        } else if attr[i].name == "name" {
          title := attr[i].value;
        }
        i := i + 1;
      }
      assert attr[..i] == attr;
      var element := file.GetElement();
      if attr != [] && person.Some? && person.value in addressCache.heap && addressCache.heap[person.value].Person? {
        var p := addressCache.heap[person.value];
        addressCache.heap := addressCache.heap[person.value :=
          p.(attribs := p.attribs + [Attrib(uid, title, element)])];
      }
    }

    /** `addrbook_parse_member`. */
    method ParseMember(file: XmlFile, group: Option<Ref>)
      requires file.tagStack != []
      modifies addressCache`heap, addressCache`dirtyFlag
      ensures Loaded() == BookParse.ParseElement(Members(group), file.tagStack[0], file.text, old(Loaded()))
    {
      var attr := file.tagStack[0].attr;
      var eid := "";
      var i := 0;
      while i < |attr|
        invariant 0 <= i <= |attr| && Loaded() == old(Loaded()) && eid == Value(attr[..i], "eid")
      {
        ValueNext(attr, i, "eid");
        if attr[i].name == "eid" {
          eid := attr[i].value;
        }
        i := i + 1;
      }
      assert attr[..i] == attr;
      var email := FindObject(eid);
      if email.Some? && addressCache.heap[email.value].EMail? && group.Some? {
        var g, e := group.value, email.value;
        if g in addressCache.heap && addressCache.heap[g].Group? {
          if e !in addressCache.heap[g].members {
            addressCache.heap := addressCache.heap[g :=
              addressCache.heap[g].(members := addressCache.heap[g].members + [e])];
          }
          addressCache.dirtyFlag := true;
        }
      }
    }

    /** `addrcache_get_object`, on a cache that is still being loaded. */
    method FindObject(uid: Uid) returns (r: Option<Ref>)
      ensures r == BookParse.Lookup(addressCache.View(), uid)
    {
      if uid == "" {
        return None;
      }
      if uid in addressCache.itemHash && addressCache.itemHash[uid] in addressCache.heap {
        var obj := addressCache.itemHash[uid];
        if addressCache.heap[obj].uid == uid {
          return Some(obj);
        }
      }
      return None;
    }

    /** `addrbook_parse_folder_item`. */
    method ParseFolderItem(file: XmlFile, folder: Option<Ref>)
      requires file.tagStack != []
      modifies this`listItems
      ensures Loaded() == BookParse.ParseElement(ItemList(folder), file.tagStack[0], file.text, old(Loaded()))
    {
      var attr := file.tagStack[0].attr;
      var uid: Option<Uid> := None;
      var i := 0;
      while i < |attr|
        invariant 0 <= i <= |attr| && Loaded() == old(Loaded())
        invariant uid == if Has(attr[..i], "uid") then Some(Value(attr[..i], "uid")) else None
      {
        ValueNext(attr, i, "uid");
        if attr[i].name == "uid" {
          uid := Some(attr[i].value);
        }
        i := i + 1;
      }
      assert attr[..i] == attr;
      if folder.Some? && uid.Some? {
        var f := folder.value;
        listItems := listItems[f := (if f in listItems then listItems[f] else []) + [uid.value]];
      }
    }

    // ---------- the parser ----------

    /** The common shape of the four list parsers: every element is parsed and then, by a call to
        the same parser, passed over; the loop comes back when the level has dropped.  A result of
        false is the jump out of the whole parser. */
    method ParseList(file: XmlFile, k: ListKind) returns (ok: bool)
      requires file.Valid()
      modifies file, this`listItems, addressCache`heap, addressCache`itemHash, addressCache`top, addressCache`dirtyFlag
      ensures file.Valid() && Parsed(ok, file.View(), Loaded()) ==
        BookParse.ParseList(k, old(file.View()), old(Loaded()))
      decreases file.View().Left()
    {
      ghost var x, s := file.View(), Loaded();
      while true
        invariant file.Valid() && BookParse.ParseList(k, file.View(), Loaded()) == BookParse.ParseList(k, x, s)
        invariant file.View().Left() <= x.Left()
        decreases file.View().Left()
      {
        var prevLevel := file.level;
        var rc := file.ParseNextTag();
        if rc != 0 {
          return false;
        }
        if file.level < prevLevel {
          return true;
        }
        var matches := file.CompareTag(ElementName(k));
        if matches {
          match k {
            case Addresses(p) => ParseAddress(file, p);
            case Attributes(p) => ParseAttribute(file, p);
            case Members(g) => ParseMember(file, g);
            case ItemList(f) => ParseFolderItem(file, f);
          }
          var again := ParseList(file, k);
          if !again {
            return false;
          }
        }
      }
    }

    /** The loop over a tag's attributes that makes the object of a person, group or folder. */
    method MakeObject(file: XmlFile) returns (obj: Option<Ref>)
      requires file.tagStack != []
      modifies addressCache`heap, addressCache`top
      ensures obj == MadeRef(file.tagStack[0], old(Loaded())) && Loaded() == WithMade(file.tagStack[0], old(Loaded()))
    {
      var tag := file.tagStack[0];
      var attr := tag.attr;
      var uid, title, firstName, lastName, nickName, commonName, remarks := "", "", "", "", "", "", "";
      var i := 0;
      while i < |attr|
        invariant 0 <= i <= |attr| && Loaded() == old(Loaded())
        invariant uid == Value(attr[..i], "uid") && title == Value(attr[..i], "name")
          && remarks == Value(attr[..i], "remarks")
        invariant firstName == Value(attr[..i], "first-name") && lastName == Value(attr[..i], "last-name")
        invariant nickName == Value(attr[..i], "nick-name") && commonName == Value(attr[..i], "cn")
      {
        var name, value := attr[i].name, attr[i].value;
        ValueNext(attr, i, "uid");
        ValueNext(attr, i, "name");
        ValueNext(attr, i, "remarks");
        ValueNext(attr, i, "first-name");
        ValueNext(attr, i, "last-name");
        ValueNext(attr, i, "nick-name");
        ValueNext(attr, i, "cn");
        match name {
          case "uid" => uid := value;
          case "name" => title := value;
          case "remarks" => remarks := value;
          case "first-name" => firstName := value;
          case "last-name" => lastName := value;
          case "nick-name" => nickName := value;
          case "cn" => commonName := value;
          case _ =>
        }
        i := i + 1;
      }
      assert attr[..i] == attr;
      if attr == [] {
        return None;
      }
      var r := addressCache.top;
      addressCache.heap := addressCache.heap[r :=
        if tag.name == "person" then Person(uid, commonName, None, firstName, lastName, nickName, [], [])
        else if tag.name == "group" then Group(uid, title, None, remarks, [])
        else Folder(uid, title, None, remarks, [], [], [])];
      addressCache.top := r + 1;
      return Some(r);
    }

    /** `addrcache_hash_add_person`, `_group` and `_folder`. */
    method HashAddObject(r: Ref) returns (added: bool)
      modifies addressCache`itemHash
      ensures addressCache.View() == BookParse.HashAdd(old(addressCache.View()), r)
      ensures added <==> r in addressCache.heap && addressCache.heap[r].uid !in old(addressCache.itemHash)
    {
      added := r in addressCache.heap && addressCache.heap[r].uid !in addressCache.itemHash;
      if added {
        addressCache.itemHash := addressCache.itemHash[addressCache.heap[r].uid := r];
      }
    }

    /** `addrbook_parse_person`. */
    method ParsePerson(file: XmlFile) returns (ok: bool)
      requires file.Valid() && Current(file.View(), "person")
      modifies file, this`listItems, addressCache`heap, addressCache`itemHash, addressCache`top, addressCache`dirtyFlag
      ensures file.Valid() && Parsed(ok, file.View(), Loaded()) ==
        BookParse.ParsePerson(old(file.View()), old(Loaded()))
    {
      var person := MakeObject(file);
      var rc := file.ParseNextTag();
      if rc != 0 {
        return false;
      }
      var isList := file.CompareTag("address-list");
      if isList {
        ok := ParseList(file, Addresses(person));
        if !ok {
          return;
        }
        if person.Some? {
          var added := HashAddObject(person.value);
        }
      }
      rc := file.ParseNextTag();
      if rc != 0 {
        return false;
      }
      isList := file.CompareTag("attribute-list");
      ok := true;
      if isList {
        ok := ParseList(file, Attributes(person));
      }
    }

    /** `addrbook_parse_group`. */
    method ParseGroup(file: XmlFile) returns (ok: bool)
      requires file.Valid() && Current(file.View(), "group")
      modifies file, this`listItems, addressCache`heap, addressCache`itemHash, addressCache`top, addressCache`dirtyFlag
      ensures file.Valid() && Parsed(ok, file.View(), Loaded()) ==
        BookParse.ParseLister(old(file.View()), old(Loaded()))
    {
      var group := MakeObject(file);
      var rc := file.ParseNextTag();
      if rc != 0 {
        return false;
      }
      var isList := file.CompareTag("member-list");
      ok := true;
      if isList {
        if group.Some? {
          var added := HashAddObject(group.value);
        }
        ok := ParseList(file, Members(group));
      } else if group.Some? {
        addressCache.heap := addressCache.heap - {group.value};
      }
    }

    /** `addrbook_parse_folder`. */
    method ParseFolder(file: XmlFile) returns (ok: bool)
      requires file.Valid() && Current(file.View(), "folder")
      modifies file, this`listItems, this`tempList, addressCache`heap, addressCache`itemHash, addressCache`top,
        addressCache`dirtyFlag
      ensures file.Valid() && Parsed(ok, file.View(), Loaded()) ==
        BookParse.ParseLister(old(file.View()), old(Loaded()))
    {
      var folder := MakeObject(file);
      var rc := file.ParseNextTag();
      if rc != 0 {
        return false;
      }
      var isList := file.CompareTag("item-list");
      ok := true;
      if isList {
        if folder.Some? {
          var added := HashAddObject(folder.value);
          if added {
            tempList := tempList + [folder.value];
          }
        }
        ok := ParseList(file, ItemList(folder));
      } else if folder.Some? {
        addressCache.heap := addressCache.heap - {folder.value};
      }
    }

    /** The loop of `addrbook_read_tree`. */
    method ParseObjects(file: XmlFile) returns (ok: bool)
      requires file.Valid()
      modifies file, this`listItems, this`tempList, addressCache`heap, addressCache`itemHash, addressCache`top,
        addressCache`dirtyFlag
      ensures file.Valid() && Parsed(ok, file.View(), Loaded()) ==
        BookParse.ParseObjects(old(file.View()), old(Loaded()))
    {
      ghost var x, s := file.View(), Loaded();
      while true
        invariant file.Valid() && BookParse.ParseObjects(file.View(), Loaded()) == BookParse.ParseObjects(x, s)
        decreases file.View().Left()
      {
        if file.level == 0 {
          return true;
        }
        var rc := file.ParseNextTag();
        if rc != 0 {
          return false;
        }
        var isPerson := file.CompareTag("person");
        var isGroup := file.CompareTag("group");
        var isFolder := file.CompareTag("folder");
        ok := true;
        if isPerson {
          ok := ParsePerson(file);
        } else if isGroup {
          ok := ParseGroup(file);
        } else if isFolder {
          ok := ParseFolder(file);
        }
        if !ok {
          return;
        }
      }
    }

    /** `addrbook_set_name`. */
    method SetName(value: string)
      modifies addressCache`name, addressCache`dirtyFlag
      ensures addressCache.name == Strip(value) && addressCache.dirtyFlag
    {
      addressCache.name := Strip(value);
      addressCache.dirtyFlag := true;
    }

    /** The loop of `addrbook_read_tree` over the attributes of the outermost element. */
    method NameFrom(attr: seq<Attr>)
      modifies addressCache`name, addressCache`dirtyFlag
      ensures addressCache.dirtyFlag == (old(addressCache.dirtyFlag) || Has(attr, "name"))
      ensures addressCache.name == if Has(attr, "name") then Strip(Value(attr, "name")) else old(addressCache.name)
    {
      var i := 0;
      while i < |attr|
        invariant 0 <= i <= |attr|
        invariant addressCache.dirtyFlag == (old(addressCache.dirtyFlag) || Has(attr[..i], "name"))
        invariant addressCache.name == if Has(attr[..i], "name") then Strip(Value(attr[..i], "name"))
          else old(addressCache.name)
      {
        ValueNext(attr, i, "name");
        if attr[i].name == "name" {
          SetName(attr[i].value);
        }
        i := i + 1;
      }
      assert attr[..i] == attr;
    }

    /** `addrbook_read_tree`; the jump is a result of its own. */
    method ReadTree(stored: Stored) returns (outcome: Outcome)
      modifies this`listItems, this`tempList, this`retVal
      modifies addressCache`heap, addressCache`itemHash, addressCache`top, addressCache`dirtyFlag, addressCache`name
      ensures var t := BookParse.ReadTree(stored.dtd, stored.tokens, old(Loaded()));
        && outcome == t.outcome && Loaded() == t.s
        && addressCache.name == (if t.name.Some? then t.name.value else old(addressCache.name))
      ensures retVal == if outcome == Success then MguSuccess else MguBadFormat
    {
      retVal := MguBadFormat;
      if !stored.dtd {
        return BadFormat;
      }
      var file := new XmlFile(stored.tokens);
      var rc := file.ParseNextTag();
      if rc != 0 {
        return Jump;
      }
      var isBook := file.CompareTag("address-book");
      if !isBook {
        return BadFormat;
      }
      NameFrom(file.tagStack[0].attr);
      hide Has, Value, Strip;
      var ok := ParseObjects(file);
      if !ok {
        return Jump;
      }
      retVal := MguSuccess;
      return Success;
    }

    // ---------- resolving ----------

    /** The inner loop of `addrbook_resolve_folder_items`: the uids of one folder.  The list nodes
        that hold the uids are freed at the end, so their rewriting leaves no trace. */
    method PlaceItems(folder: Ref, ghost s: Loading, ghost i: nat)
      requires LoadOk(s) && i < |s.temp| && s.temp[i] == folder && listItems == s.items && tempList == s.temp
      requires addressCache.View() == s.c.(heap := PartHeap(s, i, 0))
      modifies addressCache`heap
      ensures addressCache.View() == s.c.(heap := PartHeap(s, i, |ItemsOf(s, folder)|))
    {
      hide LoadOk, PartHeap;
      var node := if folder in listItems then listItems[folder] else [];
      var j := 0;
      while j < |node|
        invariant 0 <= j <= |node| && node == ItemsOf(s, folder)
        invariant addressCache.View() == s.c.(heap := PartHeap(s, i, j))
      {
        LookupStays(s, i, j, node[j]);
        var aio := FindObject(node[j]);
        if aio.Some? && !addressCache.heap[aio.value].EMail? {
          PlaceUid(s, i, j, aio.value);
          var k := KindOf(addressCache.heap[aio.value]);
          var item := aio.value;
          addressCache.heap := addressCache.heap[folder :=
            WithList(addressCache.heap[folder], k, ListOf(addressCache.heap[folder], k) + [item])];
          addressCache.heap := addressCache.heap[item := WithParent(addressCache.heap[item], Some(folder))];
        } else {
          SkipUid(s, i, j);
        }
        j := j + 1;
      }
    }

    /** The second loop: folders that have a parent are marked, the others get the root as theirs. */
    method MarkFolders(ghost s: Loading) returns (listRemove: seq<Ref>)
      requires LoadOk(s) && addressCache.View() == s.c.(heap := Linked(s))
      modifies addressCache`heap
      ensures addressCache.View() == s.c.(heap := Grounded(s, |s.temp|))
      ensures forall f :: f in listRemove <==> f in s.temp && Namer(s, f).Some?
    {
      hide LoadOk, PartHeap, PartItem, Linked, Grounded, NoDup, Namer;
      GroundNone(s);
      var root := addressCache.rootFolder;
      var node := addressCache.heap[root].folders;
      listRemove := [];
      var m := 0;
      while m < |node|
        invariant 0 <= m <= |node| && node == s.temp && addressCache.View() == s.c.(heap := Grounded(s, m))
        invariant forall f :: f in listRemove <==> f in node[..m] && Namer(s, f).Some?
      {
        var folder := node[m];
        GroundOneMore(s, m);
        assert node[..m + 1] == node[..m] + [folder];
        if addressCache.heap[folder].parent.Some? {
          listRemove := listRemove + [folder];
        } else {
          addressCache.heap := addressCache.heap[folder := WithParent(addressCache.heap[folder], Some(root))];
        }
        m := m + 1;
      }
      assert node[..m] == node;
    }

    /** The second and the third loop: what has been marked leaves the root's list. */
    method GroundFolders(ghost s: Loading)
      requires LoadOk(s) && addressCache.View() == s.c.(heap := Linked(s))
      modifies addressCache`heap
      ensures s.c.root in s.c.heap && s.c.heap[s.c.root].Folder? && addressCache.View() == s.c.(heap := FoldersDone(s))
    {
      hide LoadOk, PartHeap, PartItem, Linked, Grounded, NoDup, Namer, WithFolders, FoldersDone, RemoveFirst, Without;
      var listRemove := MarkFolders(s);
      GroundNone(s);
      GroundedDone(s, Elems(listRemove));
      var root := addressCache.rootFolder;
      ghost var g, node := addressCache.heap, s.temp;
      var n := 0;
      assert Elems(listRemove[..0]) == {};
      WithoutDisjoint(node, {});
      while n < |listRemove|
        invariant 0 <= n <= |listRemove| && root in g && g[root].Folder?
        invariant addressCache.View() == s.c.(heap := WithFolders(g, root, Without(node, Elems(listRemove[..n]))))
      {
        var x := listRemove[n];
        assert listRemove[..n + 1] == listRemove[..n] + [x];
        assert Elems(listRemove[..n + 1]) == Elems(listRemove[..n]) + {x};
        TakeOff(node, Elems(listRemove[..n]), x);
        WithFoldersTwice(g, root, Without(node, Elems(listRemove[..n])), Without(node, Elems(listRemove[..n + 1])));
        addressCache.heap := addressCache.heap[root :=
          addressCache.heap[root].(folders := RemoveFirst(addressCache.heap[root].folders, x))];
        n := n + 1;
      }
      assert listRemove[..n] == listRemove;
    }

    /** `g_hash_table_foreach` with `addrbook_res_items_vis`. */
    method VisitAll(ghost s: Loading) returns (ghost order: seq<Uid>)
      requires LoadOk(s) && s.c.root in s.c.heap && s.c.heap[s.c.root].Folder?
        && addressCache.View() == s.c.(heap := FoldersDone(s))
      modifies addressCache`heap
      ensures Traversal(s.c, order) && addressCache.View() == s.c.(heap := Visiting(s, order))
    {
      hide LoadOk, FoldersDone, Visiting;
      var root := addressCache.rootFolder;
      order := [];
      NoneVisited(s);
      var keys := addressCache.itemHash.Keys;
      while keys != {}
        invariant keys <= addressCache.itemHash.Keys && NoDup(order)
          && Elems(order) == addressCache.itemHash.Keys - keys
        invariant addressCache.View() == s.c.(heap := Visiting(s, order))
        decreases keys
      {
        var u :| u in keys;
        keys := keys - {u};
        var obj := addressCache.itemHash[u];
        assert u !in Elems(order);
        VisitStep(s, order, u);
        if addressCache.heap[obj].parent == None {
          if addressCache.heap[obj].Person? {
            addressCache.heap := addressCache.heap[root :=
              addressCache.heap[root].(persons := addressCache.heap[root].persons + [obj])];
            addressCache.heap := addressCache.heap[obj := WithParent(addressCache.heap[obj], Some(root))];
          } else if addressCache.heap[obj].Group? {
            addressCache.heap := addressCache.heap[root :=
              addressCache.heap[root].(groups := addressCache.heap[root].groups + [obj])];
            addressCache.heap := addressCache.heap[obj := WithParent(addressCache.heap[obj], Some(root))];
          }
        }
        NoDupAppend(order, u);
        assert Elems(order + [u]) == Elems(order) + {u};
        order := order + [u];
      }
    }

    /** `addrbook_resolve_folder_items`. */
    method ResolveFolderItems() returns (ghost order: seq<Uid>)
      requires LoadOk(Loaded())
      modifies this`listItems, this`tempList, addressCache`heap
      ensures Traversal(old(addressCache.View()), order)
      ensures addressCache.View() == Resolved(old(Loaded()), order) && listItems == map[] && tempList == []
    {
      hide LoadOk, PartHeap, FoldersDone, Visiting, ResolvedItem;
      ghost var s := Loaded();
      RootThere(s);
      var rootFolder := addressCache.rootFolder;
      NothingPlaced(s);
      var i := 0;
      while i < |tempList|
        invariant 0 <= i <= |tempList| && listItems == s.items && tempList == s.temp
        invariant addressCache.View() == s.c.(heap := PartHeap(s, i, 0))
      {
        var folder := tempList[i];
        PlaceItems(folder, s, i);
        NextFolder(s, i);
        addressCache.heap := addressCache.heap[rootFolder :=
          addressCache.heap[rootFolder].(folders := addressCache.heap[rootFolder].folders + [folder])];
        i := i + 1;
      }
      GroundFolders(s);
      order := VisitAll(s);
      AllVisited(s, order);
      listItems := map[];
      tempList := [];
    }

    // ---------- the file ----------

    /** `addrbook_read_data`. */
    method ReadData() returns (ghost order: seq<Uid>)
      modifies this`listItems, this`tempList, this`retVal
      modifies addressCache`heap, addressCache`itemHash, addressCache`top, addressCache`dirtyFlag, addressCache`name,
        addressCache`dataRead
      ensures View() == ReadBook(old(View()), order)
      ensures addressCache.dataRead ==> Traversal(addressCache.View(), order)
    {
      hide Resolved, BookParse.ReadTree, LoadOk, Traversal;
      order := [];
      retVal := MguOpenFile;
      addressCache.Clear();
      listItems := map[];
      if file.Some? {
        tempList := [];
        ghost var s := Loaded();
        ClearedOk(s.c.root, s.c.nextId, s.c.top, s.c.dirty);
        ReadTreeOk(file.value.dtd, file.value.tokens, s);
        var outcome := ReadTree(file.value);
        if outcome == Jump {
          return;
        }
        order := ResolveFolderItems();
        ResolvedTraversal(BookParse.ReadTree(file.value.dtd, file.value.tokens, s).s, order);
        addressCache.dataRead := true;
        addressCache.dirtyFlag := false;
      }
    }

    /** `addrbook_save_data` and `addrbook_write_to`. */
    method SaveData(fate: Fate) returns (ghost order: seq<Uid>)
      modifies this`retVal, this`file, addressCache`dirtyFlag
      ensures View() == SaveBook(old(View()), order, fate)
      ensures retVal == MguSuccess <==> fileName != "" && path != "" && fate == Written
      ensures retVal != MguSuccess ==> file == old(file)
      ensures addressCache.dirtyFlag <==> old(addressCache.dirtyFlag) && retVal != MguSuccess
      ensures Stores(old(View()), fate) ==> Traversal(old(View()).cache, order)
    {
      hide DocOf, BookDoc.DocTokens, Traversal;
      order := [];
      retVal := MguNoFile;
      if fileName == "" || path == "" {
        return;
      }
      retVal := MguOpenFile;
      if fate == NotOpened {
        return;
      }
      var tokens, keys := WriteBook(addressCache.heap, addressCache.itemHash, addressCache.name, addressCache.View());
      order := keys;
      if fate == Failed {
        retVal := MguErrorWrite;
        return;
      }
      file := Some(Stored(true, tokens));
      retVal := MguSuccess;
      addressCache.dirtyFlag := false;
    }
  }

  lemma ResolvedTraversal(s: Loading, order: seq<Uid>)
    requires Traversal(s.c, order)
    ensures Traversal(Resolved(s, order).(dirty := false), order)
  {
  }

  lemma LookupStays(s: Loading, i: nat, j: nat, u: Uid)
    requires LoadOk(s) && i <= |s.temp| && (i < |s.temp| ==> j <= |ItemsOf(s, s.temp[i])|)
    ensures BookParse.Lookup(s.c.(heap := PartHeap(s, i, j)), u) == BookParse.Lookup(s.c, u)
    ensures var r := BookParse.Lookup(s.c, u); r.Some? ==>
      r.value in PartHeap(s, i, j) && (PartHeap(s, i, j)[r.value].EMail? <==> s.c.heap[r.value].EMail?)
  {
  }
}
