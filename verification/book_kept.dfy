/** What saving and loading keeps of a book, field by field (src/addrbook.c:364-1256): all of it, if no
    text has white space at an end. */
module BookKept {
  import opened Items
  import opened CacheState
  import opened XmlFiles
  import opened BookDoc
  import opened BookParse
  import opened BookResolve
  import opened BookRound
  import opened BookSame

  ghost predicate SameEmail(c: Cache, d: Cache, e: Ref, f: Ref) {
    && e in c.heap && f in d.heap && c.heap[e].EMail? && d.heap[f].EMail?
    && var i, j := c.heap[e], d.heap[f];
    j.uid == i.uid && j.name == i.name && j.address == i.address && j.remarks == i.remarks
  }

  ghost predicate SamePerson(c: Cache, d: Cache, p: Ref, q: Ref) {
    && IsPerson(c, p) && IsPerson(d, q)
    && var i, j := c.heap[p], d.heap[q];
    && j.uid == i.uid && j.name == i.name && j.firstName == i.firstName && j.lastName == i.lastName
    && j.nickName == i.nickName && j.attribs == i.attribs && |j.emails| == |i.emails|
    && forall k {:trigger SameEmail(c, d, i.emails[k], j.emails[k])} | 0 <= k < |i.emails| ::
         SameEmail(c, d, i.emails[k], j.emails[k])
  }

  /** The email has the uid, and its person's has, that the other and its person have. */
  ghost predicate SameMember(c: Cache, d: Cache, e: Ref, f: Ref) {
    && Owned(c, e) && Owned(d, f) && d.heap[f].uid == c.heap[e].uid
    && UidOf(d.heap, d.heap[f].parent.value) == UidOf(c.heap, c.heap[e].parent.value)
  }

  ghost predicate SameGroup(c: Cache, d: Cache, g: Ref, q: Ref) {
    && IsGroup(c, g) && IsGroup(d, q)
    && var i, j := c.heap[g], d.heap[q];
    && j.uid == i.uid && j.name == i.name && j.remarks == i.remarks && |j.members| == |i.members|
    && forall k {:trigger SameMember(c, d, i.members[k], j.members[k])} | 0 <= k < |i.members| ::
         SameMember(c, d, i.members[k], j.members[k])
  }

  ghost predicate SameFolder(c: Cache, d: Cache, f: Ref, q: Ref) {
    && IsFolder(c, f) && IsFolder(d, q)
    && var i, j := c.heap[f], d.heap[q];
    && j.uid == i.uid && j.name == i.name && j.remarks == i.remarks
    && Uids(d.heap, j.persons) == Uids(c.heap, i.persons) && Uids(d.heap, j.groups) == Uids(c.heap, i.groups)
    && Uids(d.heap, j.folders) == Uids(c.heap, i.folders)
  }

  // ---------- from records to fields ----------

  lemma KeptPerson(c: Cache, d: Cache, p: Ref)
    requires Inv(c) && Inv(d) && SameObject(c, d, p) && IsPerson(c, p)
    requires forall k | 0 <= k < |c.heap[p].attribs| :: Trim(c.heap[p].attribs[k].value)
    ensures SamePerson(c, d, p, d.hash[c.heap[p].uid])
  {
    var q := d.hash[c.heap[p].uid];
    assert PersonOk(c, p) && PersonOk(d, q);
    hide Inv, Strip;
    var i, j := c.heap[p], d.heap[q];
    var x, y := PersonRecOf(c.heap, p), PersonRecOf(d.heap, q);
    assert y == Stripped(x);
    forall k | 0 <= k < |i.attribs|
      ensures StrippedAll(i.attribs)[k] == i.attribs[k]
    {
      StripKeeps(i.attribs[k].value);
    }
    assert j.attribs == StrippedAll(i.attribs) == i.attribs;
    assert |y.emails| == |x.emails|;
    forall k | 0 <= k < |i.emails|
      ensures SameEmail(c, d, i.emails[k], j.emails[k])
    {
      assert i.emails[k] in i.emails && j.emails[k] in j.emails;
      assert y.emails[k] == x.emails[k];
    }
  }

  lemma KeptGroup(c: Cache, d: Cache, g: Ref)
    requires Inv(c) && Inv(d) && SameObject(c, d, g) && IsGroup(c, g)
    ensures SameGroup(c, d, g, d.hash[c.heap[g].uid])
  {
    var q := d.hash[c.heap[g].uid];
    assert GroupOk(c, g) && GroupOk(d, q);
    hide Inv;
    var i, j := c.heap[g], d.heap[q];
    var x, y := MemberRecs(c.heap, i.members), MemberRecs(d.heap, j.members);
    assert y == x;
    forall k | 0 <= k < |i.members|
      ensures SameMember(c, d, i.members[k], j.members[k])
    {
      assert i.members[k] in i.members && j.members[k] in j.members;
      assert y[k] == x[k];
    }
  }

  /** The records of a folder's lists stand one list behind the other, and each says which it is of. */
  lemma {:induction false} ItemsApart(h: map<Ref, Item>, m: map<Ref, Item>, i: Item, j: Item)
    requires i.Folder? && j.Folder?
    requires ItemRecs(h, PersonKind, i.persons) + ItemRecs(h, GroupKind, i.groups)
      + ItemRecs(h, FolderKind, i.folders) ==
      ItemRecs(m, PersonKind, j.persons) + ItemRecs(m, GroupKind, j.groups) + ItemRecs(m, FolderKind, j.folders)
    ensures Uids(m, j.persons) == Uids(h, i.persons) && Uids(m, j.groups) == Uids(h, i.groups)
    ensures Uids(m, j.folders) == Uids(h, i.folders)
  {
    var a, b, e := ItemRecs(h, PersonKind, i.persons), ItemRecs(h, GroupKind, i.groups),
      ItemRecs(h, FolderKind, i.folders);
    var x, y, z := ItemRecs(m, PersonKind, j.persons), ItemRecs(m, GroupKind, j.groups),
      ItemRecs(m, FolderKind, j.folders);
    assert a + (b + e) == a + b + e && x + (y + z) == x + y + z;
    FrontKinds(a, b + e, x, y + z, PersonKind);
    FrontKinds(b, e, y, z, GroupKind);
    SameRecs(h, i.persons, m, j.persons, PersonKind);
    SameRecs(h, i.groups, m, j.groups, GroupKind);
    SameRecs(h, i.folders, m, j.folders, FolderKind);
  }

  /** What is of one kind in front of what is of others is the same in the same sequence. */
  lemma {:induction false} FrontKinds(a: seq<ItemRec>, b: seq<ItemRec>, x: seq<ItemRec>, y: seq<ItemRec>, k: Kind)
    requires a + b == x + y
    requires (forall r | r in a :: r.kind == k) && (forall r | r in x :: r.kind == k)
    requires (forall r | r in b :: r.kind != k) && (forall r | r in y :: r.kind != k)
    ensures a == x && b == y
  {
    var s := a + b;
    assert forall i | 0 <= i < |s| :: s[i].kind == k <==> i < |a|;
    assert forall i | 0 <= i < |s| :: s[i].kind == k <==> i < |x|;
    assert |a| < |s| ==> (s[|a|].kind == k <==> |a| < |x|);
    assert |x| < |s| ==> (s[|x|].kind == k <==> |x| < |a|);
    assert a == s[..|a|] && x == s[..|x|] && b == s[|a|..] && y == s[|x|..];
  }

  lemma SameRecs(h: map<Ref, Item>, rs: seq<Ref>, m: map<Ref, Item>, qs: seq<Ref>, k: Kind)
    requires ItemRecs(h, k, rs) == ItemRecs(m, k, qs)
    ensures Uids(h, rs) == Uids(m, qs)
  {
    var a, b := ItemRecs(h, k, rs), ItemRecs(m, k, qs);
    assert |a| == |b|;
    forall i | 0 <= i < |rs|
      ensures Uids(h, rs)[i] == Uids(m, qs)[i]
    {
      assert a[i] == b[i];
    }
  }

  lemma KeptFolder(c: Cache, d: Cache, f: Ref)
    requires SameObject(c, d, f) && IsFolder(c, f)
    ensures SameFolder(c, d, f, d.hash[c.heap[f].uid])
  {
    var q := d.hash[c.heap[f].uid];
    hide ItemRecs;
    ItemsApart(c.heap, d.heap, c.heap[f], d.heap[q]);
  }

  // ---------- the whole book ----------

  /** Save and load, without a word of stripping: a book whose name and attribute texts have no white
      space at either end is read back under its name with every person, email, attribute, group and
      folder as it was, each in the folder of the same uid. */
  lemma SaveLoadKept(c: Cache, name: string, order: seq<Uid>, root: Ref, nextId: nat, top: Ref, dirty: bool,
      again: seq<Uid>)
    requires Inv(c) && Traversal(c, order) && root < top && nextId >= c.nextId
    requires Traversal(ReadTree(true, DocTokens(DocOf(c, name, order)), Cleared(root, nextId, top, dirty)).s.c, again)
    requires Trim(name)
    requires forall p, k | IsPerson(c, p) && 0 <= k < |c.heap[p].attribs| :: Trim(c.heap[p].attribs[k].value)
    ensures var t := ReadTree(true, DocTokens(DocOf(c, name, order)), Cleared(root, nextId, top, dirty));
      var d := Resolved(t.s, again);
      && t.outcome == Success && t.name == Some(name) && Inv(d)
      && (forall p | IsPerson(c, p) :: c.heap[p].uid in d.hash && SamePerson(c, d, p, d.hash[c.heap[p].uid]))
      && (forall g | IsGroup(c, g) :: c.heap[g].uid in d.hash && SameGroup(c, d, g, d.hash[c.heap[g].uid]))
      && (forall f | IsFolder(c, f) && f != c.root ::
            c.heap[f].uid in d.hash && SameFolder(c, d, f, d.hash[c.heap[f].uid]))
      && (forall z | Object(c, z) :: SamePlace(c, d, z))
  {
    hide Resolved, ReadTree, DocTokens, SameObject, SamePerson, SameGroup, SameFolder, Traversal, DocOf, Strip;
    SaveLoad(c, name, order, root, nextId, top, dirty, again);
    StripKeeps(name);
    var d := Resolved(ReadTree(true, DocTokens(DocOf(c, name, order)), Cleared(root, nextId, top, dirty)).s, again);
    RootIsFolder(c);
    hide Inv;
    forall z | Object(c, z)
      ensures SamePlace(c, d, z) && c.heap[z].uid in d.hash
      ensures c.heap[z].Person? ==> SamePerson(c, d, z, d.hash[c.heap[z].uid])
      ensures c.heap[z].Group? ==> SameGroup(c, d, z, d.hash[c.heap[z].uid])
      ensures c.heap[z].Folder? ==> SameFolder(c, d, z, d.hash[c.heap[z].uid])
    {
      assert SameObject(c, d, z);
      KeptPlace(c, d, z);
      match c.heap[z]
      case Person(_, _, _, _, _, _, _, _) => KeptPerson(c, d, z);
      case Group(_, _, _, _, _) => KeptGroup(c, d, z);
      case Folder(_, _, _, _, _, _, _) => KeptFolder(c, d, z);
      case EMail(_, _, _, _, _) =>
    }
  }

  /** Under the same uid an object of the same place. */
  ghost predicate SamePlace(c: Cache, d: Cache, z: Ref) {
    && z in c.heap && c.heap[z].uid in d.hash && d.hash[c.heap[z].uid] in d.heap
    && var i, j := c.heap[z], d.heap[d.hash[c.heap[z].uid]];
    && i.parent.Some? && j.parent.Some? && i.parent.value in c.heap && j.parent.value in d.heap
    && d.heap[j.parent.value].uid == c.heap[i.parent.value].uid
  }

  lemma KeptPlace(c: Cache, d: Cache, z: Ref)
    requires Inv(c) && Inv(d) && SameObject(c, d, z)
    ensures SamePlace(c, d, z)
  {
    ParentType(c, z);
    ParentType(d, d.hash[c.heap[z].uid]);
  }
}
