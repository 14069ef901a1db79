/** The address-book items and the list primitives that every operation uses
    (src/addritem.h and src/addritem.c).

    A pointer to an item is a handle, `Ref`, into the heap of its cache.  Two lists
    that hold the same handle share the item, so a change made through one of them is
    seen through the other, as it is through C pointers.  An item that has been freed
    is no longer in the heap: a handle to it dangles. */
module Items {

  type Ref = nat
  type Uid = string

  datatype Option<+T> = None | Some(value: T)

  /** A user attribute; the source keeps these in the person's list by value. */
  datatype Attrib = Attrib(uid: Uid, name: string, value: string)

  /** The source's `AddrItemObject` header (uid, name, parent) followed by the fields of
      each type of item.  The empty uid stands for the source's null uid. */
  datatype Item =
    | Folder(uid: Uid, name: string, parent: Option<Ref>, remarks: string,
             folders: seq<Ref>, persons: seq<Ref>, groups: seq<Ref>)
    | Person(uid: Uid, name: string, parent: Option<Ref>,
             firstName: string, lastName: string, nickName: string,
             emails: seq<Ref>, attribs: seq<Attrib>)
    | EMail(uid: Uid, name: string, parent: Option<Ref>, address: string, remarks: string)
    | Group(uid: Uid, name: string, parent: Option<Ref>, remarks: string, members: seq<Ref>)

  /** The three types of item that a folder lists. */
  datatype Kind = FolderKind | PersonKind | GroupKind

  predicate Is(item: Item, k: Kind) {
    match k
    case FolderKind => item.Folder?
    case PersonKind => item.Person?
    case GroupKind => item.Group?
  }

  function KindOf(item: Item): (k: Kind)
    requires !item.EMail?
    ensures Is(item, k)
  {
    if item.Folder? then FolderKind else if item.Person? then PersonKind else GroupKind
  }

  function ListOf(f: Item, k: Kind): seq<Ref>
    requires f.Folder?
  {
    match k
    case FolderKind => f.folders
    case PersonKind => f.persons
    case GroupKind => f.groups
  }

  /** The folder `f` with its list of kind `k` replaced by `s`. */
  function WithList(f: Item, k: Kind, s: seq<Ref>): (r: Item)
    requires f.Folder?
    ensures r.Folder? && r.uid == f.uid && r.name == f.name && r.parent == f.parent && r.remarks == f.remarks
    ensures r.folders == (if k == FolderKind then s else f.folders)
    ensures r.persons == (if k == PersonKind then s else f.persons)
      && r.groups == (if k == GroupKind then s else f.groups)
  {
    match k
    case FolderKind => f.(folders := s)
    case PersonKind => f.(persons := s)
    case GroupKind => f.(groups := s)
  }

  /** An item with another uid, as `addrcache_id_person` and its siblings give it one. */
  function WithUid(item: Item, u: Uid): (r: Item)
    ensures r.uid == u && r.name == item.name && r.parent == item.parent
    ensures (r.EMail? <==> item.EMail?) && (r.Folder? <==> item.Folder?)
    ensures (r.Person? <==> item.Person?) && (r.Group? <==> item.Group?)
    ensures !item.EMail? ==> KindOf(r) == KindOf(item)
    ensures Empty(item) ==> Empty(r)
  {
    item.(uid := u)
  }

  /** `addritem_person_set_common_name` and `addritem_folder_set_name`. */
  function WithName(item: Item, name: string): (r: Item)
    ensures r.name == name && r.uid == item.uid && r.parent == item.parent
    ensures (r.Folder? <==> item.Folder?) && (r.Person? <==> item.Person?)
  {
    item.(name := name)
  }

  /** `item` under another parent. */
  function WithParent(item: Item, p: Option<Ref>): (r: Item)
    ensures r.parent == p && r.uid == item.uid && r.name == item.name
    ensures (r.EMail? <==> item.EMail?) && (r.Folder? <==> item.Folder?)
    ensures (r.Person? <==> item.Person?) && (r.Group? <==> item.Group?)
    ensures r.Folder? ==> r.folders == item.folders && r.persons == item.persons && r.groups == item.groups
  {
    item.(parent := p)
  }

  /** An item as the create and copy functions leave it: it holds no other item. */
  predicate Empty(item: Item) {
    match item
    case Folder(_, _, _, _, fs, ps, gs) => fs == [] && ps == [] && gs == []
    case Person(_, _, _, _, _, _, es, _) => es == []
    case EMail(_, _, _, _, _) => true
    case Group(_, _, _, _, ms) => ms == []
  }

  // ---------- lists ----------

  ghost predicate NoDup<T(!new)>(s: seq<T>) {
    forall i, j :: 0 <= i < j < |s| ==> s[i] != s[j]
  }

  function Elems<T>(s: seq<T>): set<T> {
    set x | x in s
  }

  /** `g_list_remove`: the first occurrence goes, later ones stay. */
  function RemoveFirst<T(==)>(s: seq<T>, x: T): seq<T> {
    if s == [] then []
    else if s[0] == x then s[1..]
    else [s[0]] + RemoveFirst(s[1..], x)
  }

  /** `s` without any element of `d`, in order. */
  function Without<T(==,!new)>(s: seq<T>, d: set<T>): (r: seq<T>)
    ensures forall x :: x in r <==> x in s && x !in d
    ensures |r| <= |s|
  {
    if s == [] then []
    else if s[0] in d then Without(s[1..], d)
    else [s[0]] + Without(s[1..], d)
  }

  lemma {:induction false} WithoutNoDup<T(!new)>(s: seq<T>, d: set<T>)
    requires NoDup(s)
    ensures NoDup(Without(s, d))
  {
    if s != [] {
      WithoutNoDup(s[1..], d);
      assert s[0] !in s[1..];
      var w := Without(s[1..], d);
      assert s[0] !in w;
    }
  }

  lemma {:induction false} WithoutDisjoint<T(!new)>(s: seq<T>, d: set<T>)
    requires forall x :: x in s ==> x !in d
    ensures Without(s, d) == s
  {
    if s != [] {
      WithoutDisjoint(s[1..], d);
    }
  }

  lemma {:induction false} WithoutTwice<T(!new)>(s: seq<T>, a: set<T>, b: set<T>)
    ensures Without(Without(s, a), b) == Without(s, a + b)
  {
    if s != [] {
      var h, t := s[0], s[1..];
      WithoutTwice(t, a, b);
      if h in a {
        assert h in a + b;
      } else {
        var w := [h] + Without(t, a);
        assert w[1..] == Without(t, a);
        assert Without(w, b) == if h in b then Without(w[1..], b) else [h] + Without(w[1..], b);
      }
    }
  }

  lemma {:induction false} WithoutConcat<T(!new)>(s: seq<T>, t: seq<T>, d: set<T>)
    ensures Without(s + t, d) == Without(s, d) + Without(t, d)
  {
    if s == [] {
      assert s + t == t;
    } else {
      assert (s + t)[1..] == s[1..] + t;
      WithoutConcat(s[1..], t, d);
    }
  }

  /** Removing the first occurrence removes them all exactly when there was no second one:
      group clean-up relies on this. */
  lemma {:induction false} RemoveFirstIsWithout<T(!new)>(s: seq<T>, x: T)
    requires NoDup(s)
    ensures RemoveFirst(s, x) == Without(s, {x})
  {
    if s != [] {
      assert NoDup(s[1..]);
      if s[0] == x {
        assert x !in s[1..];
        WithoutDisjoint(s[1..], {x});
      } else {
        RemoveFirstIsWithout(s[1..], x);
      }
    }
  }

  lemma NoDupAppend<T(!new)>(s: seq<T>, x: T)
    requires NoDup(s) && x !in s
    ensures NoDup(s + [x])
  {
  }

  lemma NoDupConcat<T(!new)>(s: seq<T>, t: seq<T>)
    requires NoDup(s) && NoDup(t) && forall x :: x in s ==> x !in t
    ensures NoDup(s + t)
  {
    var st := s + t;
    forall i, j | 0 <= i < j < |st|
      ensures st[i] != st[j]
    {
      if i < |s| <= j {
        assert st[i] in s && st[j] in t;
      }
    }
  }

  lemma SameMaps<K, V>(a: map<K, V>, b: map<K, V>)
    requires a.Keys == b.Keys && forall k | k in a.Keys :: a[k] == b[k]
    ensures a == b
  {
  }

  lemma TakeMore<T>(s: seq<T>, i: nat)
    requires i < |s|
    ensures s[..i + 1] == s[..i] + [s[i]]
  {
  }

  lemma NoDupParts<T(!new)>(a: seq<T>, b: seq<T>)
    requires NoDup(a + b)
    ensures NoDup(a) && NoDup(b) && forall x | x in a :: x !in b
  {
    var s := a + b;
    assert forall i | 0 <= i < |a| :: s[i] == a[i];
    assert forall j | 0 <= j < |b| :: s[|a| + j] == b[j];
  }

  lemma NoDupFront<T(!new)>(x: T, s: seq<T>)
    ensures NoDup([x] + s) <==> NoDup(s) && x !in s
  {
    var t := [x] + s;
    assert forall i | 0 <= i < |s| :: t[i + 1] == s[i];
    if x in s {
      var i :| 0 <= i < |s| && s[i] == x;
      assert t[i + 1] == t[0];
    }
  }

  lemma Associative<T>(a: seq<T>, b: seq<T>, c: seq<T>)
    ensures a + b + c == a + (b + c)
  {
  }

  // ---------- identifiers ----------

  function Digit(d: nat): char
    requires d < 10
  {
    "0123456789"[d]
  }

  /** The character at `p`, where a string ends with a terminator of its own. */
  function CharAt(s: string, p: nat): char {
    if p < |s| then s[p] else '\0'
  }

  /** `g_strdup_printf("%d", n)`. */
  function Decimal(n: nat): (s: string)
    ensures |s| >= 1
  {
    if n < 10 then [Digit(n)] else Decimal(n / 10) + [Digit(n % 10)]
  }

  /** Different counters give different uids: this is what makes allocated uids fresh. */
  lemma {:induction false} DecimalInjective(m: nat, n: nat)
    requires Decimal(m) == Decimal(n)
    ensures m == n
  {
    var s, t := Decimal(m), Decimal(n);
    assert s[|s| - 1] == Digit(m % 10) && t[|t| - 1] == Digit(n % 10);
    assert m % 10 == n % 10;
    if m >= 10 && n >= 10 {
      assert Decimal(m / 10) == s[..|s| - 1] && Decimal(n / 10) == t[..|t| - 1];
      DecimalInjective(m / 10, n / 10);
    }
  }

  /** The number that decimal digits stand for. */
  function Number(s: string): int {
    if s == "" then 0 else 10 * Number(s[..|s| - 1]) + (s[|s| - 1] as int - '0' as int)
  }

  /** A counter is printed in decimal digits that read as the counter, without a zero in front. */
  lemma {:induction false} DecimalReads(n: nat)
    ensures forall c | c in Decimal(n) :: '0' <= c <= '9'
    ensures Number(Decimal(n)) == n && (n > 0 ==> Decimal(n)[0] != '0')
  {
    assert forall d: nat | d < 10 :: "0123456789"[d] as int == '0' as int + d;
    if n >= 10 {
      DecimalReads(n / 10);
      assert Decimal(n)[..|Decimal(n)| - 1] == Decimal(n / 10);
    } else {
      assert [Digit(n)][..0] == "";
    }
  }
}
