/** The written form of a book, tag by tag (src/addrbook.c:1029-1256). */
module BookFormat {
  import opened Items
  import opened XmlFiles
  import opened BookDoc
  import opened BookRound

  // ---------- where the elements of a list stand ----------

  lemma {:induction false} ClosedAt(es: seq<Elem>, k: nat)
    requires forall e | e in es :: e.text.None?
    ensures |ElemsTokens(es)| == |es|
    ensures k < |es| ==> ElemsTokens(es)[k] == Open(es[k].tag, true, "")
    decreases |es|
  {
    if es != [] {
      assert es[0] in es;
      ClosedAt(es[1..], if k > 0 then k - 1 else 0);
    }
  }

  lemma {:induction false} TextAt(es: seq<Elem>, k: nat)
    requires forall e | e in es :: e.text.Some?
    ensures |ElemsTokens(es)| == 2 * |es|
    ensures k < |es| ==> ElemsTokens(es)[2 * k] == Open(es[k].tag, false, es[k].text.value)
    ensures k < |es| ==> ElemsTokens(es)[2 * k + 1] == Close(es[k].tag.name)
    decreases |es|
  {
    if es != [] {
      assert es[0] in es;
      assert ElemTokens(es[0]) == [Open(es[0].tag, false, es[0].text.value), Close(es[0].tag.name)];
      TextAt(es[1..], if k > 0 then k - 1 else 0);
    }
  }

  lemma ListAt(name: string, es: seq<Elem>)
    ensures var ts := ListTokens(name, es);
      && |ts| == |ElemsTokens(es)| + 2 && ts[0] == Open(Tag(name, []), false, "") && ts[|ts| - 1] == Close(name)
      && forall k | 0 <= k < |ElemsTokens(es)| :: ts[k + 1] == ElemsTokens(es)[k]
  {
  }

  // ---------- the records ----------

  /** The two lists of a person's record, one behind the other. */
  lemma PersonSpread(p: PersonRec)
    ensures var ts := PersonTokens(p);
      var a, b := ListTokens("address-list", AddressElems(p.emails)),
        ListTokens("attribute-list", AttributeElems(p.attribs));
      && |ts| == |a| + |b| + 2 && ts[0] == Open(PersonTag(p), false, "") && ts[1 + |a| + |b|] == Close("person")
      && (forall k | 0 <= k < |a| :: ts[1 + k] == a[k]) && (forall k | 0 <= k < |b| :: ts[1 + |a| + k] == b[k])
  {
    hide ListTokens, PersonTag;
    TwoInside(Open(PersonTag(p), false, ""), ListTokens("address-list", AddressElems(p.emails)),
      ListTokens("attribute-list", AttributeElems(p.attribs)), Close("person"));
  }

  lemma TwoInside<T>(x: T, a: seq<T>, b: seq<T>, y: T)
    ensures var s := [x] + a + b + [y];
      && |s| == |a| + |b| + 2 && s[0] == x && s[1 + |a| + |b|] == y
      && (forall k | 0 <= k < |a| :: s[1 + k] == a[k]) && (forall k | 0 <= k < |b| :: s[1 + |a| + k] == b[k])
  {
    var t := [x] + a;
    var s := t + b + [y];
    assert |t| == 1 + |a|;
    assert forall k | 0 <= k < |a| :: t[1 + k] == a[k];
    forall k | 0 <= k < |b|
      ensures s[1 + |a| + k] == b[k]
    {
      assert (t + b)[|t| + k] == b[k];
    }
  }

  lemma AddressesFormat(es: seq<EmailRec>)
    ensures var a := ListTokens("address-list", AddressElems(es));
      && |a| == |es| + 2 && a[0] == Open(Tag("address-list", []), false, "") && a[|es| + 1] == Close("address-list")
      && forall k | 0 <= k < |es| :: a[1 + k] == Open(AddressElem(es[k]).tag, true, "")
  {
    hide ElemsTokens, ListTokens;
    var xs := AddressElems(es);
    ListAt("address-list", xs);
    ClosedAt(xs, 0);
    var a := ListTokens("address-list", xs);
    forall k | 0 <= k < |es|
      ensures a[1 + k] == Open(AddressElem(es[k]).tag, true, "")
    {
      ClosedAt(xs, k);
      assert a[k + 1] == ElemsTokens(xs)[k];
    }
  }

  lemma AttributesFormat(s: seq<Attrib>)
    ensures var b := ListTokens("attribute-list", AttributeElems(s));
      && |b| == 2 * |s| + 2 && b[0] == Open(Tag("attribute-list", []), false, "")
      && b[2 * |s| + 1] == Close("attribute-list")
      && forall k | 0 <= k < |s| :: b[1 + 2 * k] == Open(AttributeElem(s[k]).tag, false, s[k].value)
                                    && b[2 + 2 * k] == Close("attribute")
  {
    hide ElemsTokens, ListTokens;
    var ys := AttributeElems(s);
    ListAt("attribute-list", ys);
    TextAt(ys, 0);
    var b := ListTokens("attribute-list", ys);
    forall k | 0 <= k < |s|
      ensures b[1 + 2 * k] == Open(ys[k].tag, false, s[k].value) && b[2 + 2 * k] == Close("attribute")
    {
      TextAt(ys, k);
      assert b[2 * k + 1] == ElemsTokens(ys)[2 * k] && b[(2 * k + 1) + 1] == ElemsTokens(ys)[2 * k + 1];
    }
  }

  /** A person: its tag, the addresses that close themselves, and the attributes with their text. */
  lemma PersonFormat(h: map<Ref, Item>, r: Ref)
    requires r in h && h[r].Person? && forall e | e in h[r].emails :: e in h && h[e].EMail?
    ensures var i := h[r]; var ts := PersonTokens(PersonRecOf(h, r)); var n, m := |i.emails|, |i.attribs|;
      && |ts| == n + 2 * m + 6
      && ts[0] == Open(Tag("person", [Attr("uid", i.uid), Attr("first-name", i.firstName),
        Attr("last-name", i.lastName), Attr("nick-name", i.nickName), Attr("cn", i.name)]), false, "")
      && ts[1] == Open(Tag("address-list", []), false, "")
      && (forall k | 0 <= k < n :: i.emails[k] in h && h[i.emails[k]].EMail? && var e := h[i.emails[k]];
            ts[2 + k] == Open(Tag("address", [Attr("uid", e.uid), Attr("alias", e.name), Attr("email", e.address),
              Attr("remarks", e.remarks)]), true, ""))
      && ts[2 + n] == Close("address-list") && ts[3 + n] == Open(Tag("attribute-list", []), false, "")
      && (forall k | 0 <= k < m :: var a := i.attribs[k];
            && ts[4 + n + 2 * k] == Open(Tag("attribute", [Attr("uid", a.uid), Attr("name", a.name)]), false, a.value)
            && ts[5 + n + 2 * k] == Close("attribute"))
      && ts[4 + n + 2 * m] == Close("attribute-list") && ts[5 + n + 2 * m] == Close("person")
  {
    hide ListTokens, PersonTokens, AddressElems, AttributeElems;
    var i, p := h[r], PersonRecOf(h, r);
    var n, m := |i.emails|, |i.attribs|;
    PersonSpread(p);
    AddressesFormat(p.emails);
    AttributesFormat(p.attribs);
    var ts := PersonTokens(p);
    var a, b := ListTokens("address-list", AddressElems(p.emails)),
      ListTokens("attribute-list", AttributeElems(p.attribs));
    assert ts[1 + 0] == a[0] && ts[1 + (n + 1)] == a[n + 1] && ts[1 + |a| + 0] == b[0];
    assert ts[1 + |a| + (2 * m + 1)] == b[2 * m + 1];
    forall k | 0 <= k < n
      ensures i.emails[k] in h && h[i.emails[k]].EMail? && ts[2 + k] == Open(AddressElem(p.emails[k]).tag, true, "")
      ensures p.emails[k] == EmailRecOf(h, i.emails[k])
    {
      assert i.emails[k] in i.emails && ts[1 + (1 + k)] == a[1 + k];
    }
    forall k | 0 <= k < m
      ensures ts[4 + n + 2 * k] == Open(AttributeElem(i.attribs[k]).tag, false, i.attribs[k].value)
      ensures ts[5 + n + 2 * k] == Close("attribute")
    {
      assert ts[1 + |a| + (1 + 2 * k)] == b[1 + 2 * k] && ts[1 + |a| + (2 + 2 * k)] == b[2 + 2 * k];
    }
  }

  /** A group: its tag and its members, each by its person's uid and its own. */
  lemma GroupFormat(h: map<Ref, Item>, r: Ref)
    requires r in h && h[r].Group?
    ensures var i := h[r]; var ts := GroupTokens(GroupRecOf(h, r)); var n := |i.members|;
      && |ts| == n + 4
      && ts[0] == Open(Tag("group", [Attr("uid", i.uid), Attr("name", i.name), Attr("remarks", i.remarks)]), false, "")
      && ts[1] == Open(Tag("member-list", []), false, "")
      && (forall k | 0 <= k < n && i.members[k] in h && h[i.members[k]].parent.Some?
            && h[i.members[k]].parent.value in h ::
            ts[2 + k] == Open(Tag("member", [Attr("pid", h[h[i.members[k]].parent.value].uid),
              Attr("eid", h[i.members[k]].uid)]), true, ""))
      && ts[2 + n] == Close("member-list") && ts[3 + n] == Close("group")
  {
    hide ElemsTokens, ListTokens;
    var i, g := h[r], GroupRecOf(h, r);
    var xs := MemberElems(g.members);
    ClosedAt(xs, 0);
    ListAt("member-list", xs);
    var a := ListTokens("member-list", xs);
    var ts := GroupTokens(g);
    assert forall k | 0 <= k < |i.members| + 2 :: ts[1 + k] == a[k];
    forall k | 0 <= k < |i.members|
      ensures ts[2 + k] == Open(xs[k].tag, true, "") && g.members[k] == MemberRecOf(h, i.members[k])
    {
      ClosedAt(xs, k);
      assert ts[1 + (k + 1)] == a[k + 1];
    }
  }

  function ItemTag(kind: string, uid: Uid): Token {
    Open(Tag("item", [Attr("type", kind), Attr("uid", uid)]), true, "")
  }

  lemma ItemsFormat(f: FolderRec)
    ensures var ts := FolderTokens(f); var n := |f.items|;
      && |ts| == n + 4 && ts[0] == Open(FolderTag(f), false, "") && ts[1] == Open(Tag("item-list", []), false, "")
      && (forall k | 0 <= k < n :: ts[2 + k] == ItemTag(KindName(f.items[k].kind), f.items[k].uid))
      && ts[2 + n] == Close("item-list") && ts[3 + n] == Close("folder")
  {
    hide ElemsTokens, ListTokens, KindName, FolderTag;
    var xs := ItemElems(f.items);
    ClosedAt(xs, 0);
    ListAt("item-list", xs);
    var l := ListTokens("item-list", xs);
    var ts := FolderTokens(f);
    TwoInside(Open(FolderTag(f), false, ""), l, [], Close("folder"));
    assert [Open(FolderTag(f), false, "")] + l + [] == [Open(FolderTag(f), false, "")] + l;
    assert ts[1 + 0] == l[0] && ts[1 + (|f.items| + 1)] == l[|f.items| + 1];
    forall k | 0 <= k < |f.items|
      ensures ts[2 + k] == ItemTag(KindName(f.items[k].kind), f.items[k].uid)
    {
      ClosedAt(xs, k);
      assert ts[1 + (k + 1)] == l[k + 1];
    }
  }

  lemma ItemsAt(h: map<Ref, Item>, i: Item)
    requires i.Folder?
    ensures var xs := ItemRecs(h, PersonKind, i.persons) + ItemRecs(h, GroupKind, i.groups)
      + ItemRecs(h, FolderKind, i.folders);
      var a, b, d := |i.persons|, |i.groups|, |i.folders|;
      && |xs| == a + b + d
      && (forall k | 0 <= k < a :: xs[k] == ItemRec(PersonKind, UidOf(h, i.persons[k])))
      && (forall k | 0 <= k < b :: xs[a + k] == ItemRec(GroupKind, UidOf(h, i.groups[k])))
      && (forall k | 0 <= k < d :: xs[a + b + k] == ItemRec(FolderKind, UidOf(h, i.folders[k])))
  {
    hide UidOf;
  }

  /** A folder: its tag and what it lists, persons, groups and folders, each under its type. */
  lemma FolderFormat(h: map<Ref, Item>, r: Ref)
    requires r in h && h[r].Folder?
    ensures var i := h[r]; var ts := FolderTokens(FolderRecOf(h, r));
      var a, b, d := |i.persons|, |i.groups|, |i.folders|;
      && |ts| == a + b + d + 4
      && ts[0] == Open(Tag("folder", [Attr("uid", i.uid), Attr("name", i.name), Attr("remarks", i.remarks)]), false, "")
      && ts[1] == Open(Tag("item-list", []), false, "")
      && (forall k | 0 <= k < a && i.persons[k] in h :: ts[2 + k] == ItemTag("person", h[i.persons[k]].uid))
      && (forall k | 0 <= k < b && i.groups[k] in h :: ts[2 + a + k] == ItemTag("group", h[i.groups[k]].uid))
      && (forall k | 0 <= k < d && i.folders[k] in h :: ts[2 + a + b + k] == ItemTag("folder", h[i.folders[k]].uid))
      && ts[2 + a + b + d] == Close("item-list") && ts[3 + a + b + d] == Close("folder")
  {
    hide FolderTokens, ItemRecs, KindName, ItemTag;
    var i, f := h[r], FolderRecOf(h, r);
    var a, b, d := |i.persons|, |i.groups|, |i.folders|;
    ItemsFormat(f);
    ItemsAt(h, i);
    KindNames();
    var ts := FolderTokens(f);
    forall k | 0 <= k < a
      ensures ts[2 + k] == ItemTag("person", UidOf(h, i.persons[k]))
    {
      assert f.items[k] == ItemRec(PersonKind, UidOf(h, i.persons[k]));
    }
    forall k | 0 <= k < b
      ensures ts[2 + a + k] == ItemTag("group", UidOf(h, i.groups[k]))
    {
      assert ts[2 + (a + k)] == ItemTag(KindName(f.items[a + k].kind), f.items[a + k].uid);
    }
    forall k | 0 <= k < d
      ensures ts[2 + a + b + k] == ItemTag("folder", UidOf(h, i.folders[k]))
    {
      assert ts[2 + (a + b + k)] == ItemTag(KindName(f.items[a + b + k].kind), f.items[a + b + k].uid);
    }
  }

  lemma KindNames()
    ensures KindName(PersonKind) == "person" && KindName(GroupKind) == "group" && KindName(FolderKind) == "folder"
  {
  }
}
