/** Pasting a clipboard by copying (src/addrclip.c:424-542, 626-652). */
module ClipPaste {
  import opened Items
  import opened CacheState
  import opened CacheEdit
  import opened AddrCache
  import opened ClipMove
  import opened ClipTree
  import opened ClipGrow
  import opened ClipCopy
  import opened ClipFolder
  import opened ClipDelete

  // ---------- what the selected items show ----------

  /** The tree below a folder. */
  ghost function TreeOf(c: Cache, f: Ref): (t: Tree)
    requires Inv(c) && IsFolder(c, f)
    ensures Shows(c.heap, f, t, Sub(c, f))
  {
    TreeExists(c, f);
    var t :| Shows(c.heap, f, t, Sub(c, f));
    t
  }

  lemma TreeExists(c: Cache, f: Ref)
    requires Inv(c) && IsFolder(c, f)
    ensures exists t :: Shows(c.heap, f, t, Sub(c, f))
  {
    var t := ShowsExists(c, f);
  }

  ghost function PersonValOf(c: Cache, p: Ref): (v: PersonVal)
    requires Inv(c) && IsPerson(c, p)
    ensures ShowsPerson(c.heap, p, v, Sub(c, p))
  {
    PersonValExists(c, p);
    var v :| ShowsPerson(c.heap, p, v, Sub(c, p));
    v
  }

  lemma PersonValExists(c: Cache, p: Ref)
    requires Inv(c) && IsPerson(c, p)
    ensures exists v :: ShowsPerson(c.heap, p, v, Sub(c, p))
  {
    SubOfPerson(c, p);
    var vs := ShowsPersonsExist(c, [p], Sub(c, p));
    assert ShowsPerson(c.heap, [p][0], vs[0], Sub(c, p));
  }

  /** What pasting does with one item of a clipboard that was filled from `c`. */
  datatype Pick = PickNothing | PickPerson(person: Ref) | PickGroup(group: Ref) | PickFolder(folder: Ref, name: string)

  /** `same`: the items lie in the cache that is pasted into.  A folder that holds the target is
      refused then, and so is the whole book; otherwise a book is copied as a folder under the
      book's name. */
  ghost function PickOf(c: Cache, item: SelectItem, known: set<string>, target: Ref, same: bool, bookName: string): Pick
  {
    if item.cacheID !in known then PickNothing
    else if item.uid != "" then
      if item.uid in c.hash && c.hash[item.uid] in c.heap then
        var r := c.hash[item.uid];
        match c.heap[r]
        case Person(_, _, _, _, _, _, _, _) => PickPerson(r)
        case Group(_, _, _, _, _) => PickGroup(r)
        case Folder(_, name, _, _, _, _, _) => if same
          && Reaches(c.heap, r, target) then PickNothing else PickFolder(r, name)
        case EMail(_, _, _, _, _) => PickNothing
      else PickNothing
    else if item.isDataSource && !same then PickFolder(c.root, bookName)
    else PickNothing
  }

  /** The selection, resolved. */
  ghost function Picks(c: Cache, items: seq<SelectItem>, known: set<string>, target: Ref, same: bool,
      bookName: string): (ps: seq<Pick>)
    ensures |ps| == |items|
  {
    if items == [] then []
    else [PickOf(c, items[0], known, target, same, bookName)] + Picks(c, items[1..], known, target, same, bookName)
  }

  lemma {:induction false} PicksAt(c: Cache, items: seq<SelectItem>, known: set<string>, target: Ref, same: bool,
      bookName: string, i: nat)
    requires i < |items|
    ensures Picks(c, items, known, target, same, bookName)[i] == PickOf(c, items[i], known, target, same, bookName)
  {
    if i > 0 {
      PicksAt(c, items[1..], known, target, same, bookName, i - 1);
    }
  }

  ghost predicate GoodPicks(c: Cache, picks: seq<Pick>) {
    forall p | p in picks :: GoodPick(c, p)
  }

  ghost predicate GoodPick(c: Cache, p: Pick) {
    match p
    case PickNothing => true
    case PickPerson(r) => IsPerson(c, r)
    case PickGroup(r) => IsGroup(c, r)
    case PickFolder(r, _) => IsFolder(c, r)
  }

  ghost function PickedPersons(picks: seq<Pick>): seq<Ref> {
    if picks == [] then []
    else (if picks[0].PickPerson? then [picks[0].person] else []) + PickedPersons(picks[1..])
  }

  ghost function PersonVals(c: Cache, picks: seq<Pick>): seq<PersonVal>
    requires Inv(c) && GoodPicks(c, picks)
  {
    if picks == [] then []
    else
      assert GoodPick(c, picks[0]);
      (if picks[0].PickPerson? then [PersonValOf(c, picks[0].person)] else []) + PersonVals(c, picks[1..])
  }

  ghost function Trees(c: Cache, picks: seq<Pick>): seq<Tree>
    requires Inv(c) && GoodPicks(c, picks)
  {
    if picks == [] then []
    else
      assert GoodPick(c, picks[0]);
      (if picks[0].PickFolder? then [TreeOf(c, picks[0].folder).(name := picks[0].name)] else []) + Trees(c, picks[1..])
  }

  ghost function GroupVals(c: Cache, picks: seq<Pick>, es: seq<Ref>): seq<GroupVal>
    requires GoodPicks(c, picks)
  {
    if picks == [] then []
    else
      assert GoodPick(c, picks[0]);
      (if picks[0].PickGroup? then
         var g := c.heap[picks[0].group];
         [GroupVal(g.name, g.remarks, Positions(es, g.members))]
       else []) + GroupVals(c, picks[1..], es)
  }

  // ---------- the target part way ----------

  /** The target folder with what has been pasted so far at the end of its lists. */
  function Extended(f: Item, ps: seq<Ref>, fs: seq<Ref>, gs: seq<Ref>): Item
    requires f.Folder?
  {
    Folder(f.uid, f.name, f.parent, f.remarks, f.folders + fs, f.persons + ps, f.groups + gs)
  }

  /** The new items of the target: handles of the persons, folders and groups. */
  datatype News = News(persons: seq<Ref>, folders: seq<Ref>, groups: seq<Ref>)

  /** What they show. */
  datatype Shown = Shown(persons: seq<PersonVal>, folders: seq<Tree>, groups: seq<GroupVal>)

  ghost predicate PasteGoing(c0: Cache, c: Cache, target: Ref, n: News, v: Shown)
    requires IsFolder(c0, target)
  {
    && Inv(c) && Grown(c0, c, target) && target < c0.top
    && IsFolder(c, target) && c.heap[target] == Extended(c0.heap[target], n.persons, n.folders, n.groups)
    && PasteShows(c0, c, n, v)
    && NumPersons(c) == NumPersons(c0) + |v.persons| + CountAll(v.folders)
  }

  ghost predicate PasteShows(c0: Cache, c: Cache, n: News, v: Shown) {
    var s := Range(c0.top, c.top);
    && ShowsPersons(c.heap, n.persons, v.persons, s)
    && ShowsAll(c.heap, n.folders, v.folders, s)
    && ShowsGroups(c.heap, n.groups, v.groups, AllEmails(c.heap, n.persons), s)
  }

  lemma PasteFrame(c0: Cache, c: Cache, c': Cache, target: Ref, n: News, v: Shown)
    requires PasteShows(c0, c, n, v) && Grown(c, c', target) && target < c0.top
    ensures PasteShows(c0, c', n, v) && AllEmails(c'.heap, n.persons) == AllEmails(c.heap, n.persons)
  {
    var s, s' := Range(c0.top, c.top), Range(c0.top, c'.top);
    assert SameOn(c.heap, c'.heap, s) && s <= s';
    ShowsPersonsFrame(c.heap, c'.heap, n.persons, v.persons, s, s');
    PersonsInside(c.heap, n.persons, v.persons, s);
    AllEmailsFrame(c.heap, c'.heap, n.persons);
    ShowsAllFrame(c.heap, c'.heap, n.folders, v.folders, s, s');
    ShowsGroupsFrame(c.heap, c'.heap, n.groups, v.groups, AllEmails(c.heap, n.persons), s, s');
  }

  /** One item has been added to the target's list of kind `k`. */
  ghost predicate Gained(c: Cache, c': Cache, target: Ref, k: Kind, r: Ref)
    requires IsFolder(c, target)
  {
    && Inv(c') && Grown(c, c', target) && r == c.top
    && IsFolder(c', target) && c'.heap[target] == WithList(c.heap[target], k, ListOf(c.heap[target], k) + [r])
  }

  lemma GainPerson(c0: Cache, c: Cache, c': Cache, target: Ref, n: News, v: Shown, r: Ref, x: PersonVal)
    requires IsFolder(c0, target) && PasteGoing(c0, c, target, n, v) && n.groups == [] && v.groups == []
    requires Gained(c, c', target, PersonKind, r) && ShowsPerson(c'.heap, r, x, Range(r, c'.top))
    requires NumPersons(c') == NumPersons(c) + 1
    ensures PasteGoing(c0, c', target, n.(persons := n.persons + [r]), v.(persons := v.persons + [x]))
    ensures AllEmails(c'.heap, n.persons + [r]) == AllEmails(c.heap, n.persons) + c'.heap[r].emails
  {
    hide Inv, NumPersons;
    GrownTrans(c0, c, c', target, target);
    PasteFrame(c0, c, c', target, n, v);
    WiderPerson(c'.heap, r, x, Range(r, c'.top), Range(c0.top, c'.top));
    AllEmailsAppend(c'.heap, n.persons, r);
    ExtendMore(c0.heap[target], n, PersonKind, r);
    hide Grown;
  }

  lemma GainFolder(c0: Cache, c: Cache, c': Cache, target: Ref, n: News, v: Shown, r: Ref, x: Tree)
    requires IsFolder(c0, target) && PasteGoing(c0, c, target, n, v)
    requires Gained(c, c', target, FolderKind, r) && Shows(c'.heap, r, x, Range(r, c'.top))
    requires NumPersons(c') == NumPersons(c) + CountPersons(x)
    ensures PasteGoing(c0, c', target, n.(folders := n.folders + [r]), v.(folders := v.folders + [x]))
    ensures AllEmails(c'.heap, n.persons) == AllEmails(c.heap, n.persons)
  {
    hide Inv, NumPersons, Shows, CountAll;
    GrownTrans(c0, c, c', target, target);
    PasteFrame(c0, c, c', target, n, v);
    assert SameOn(c'.heap, c'.heap, Range(r, c'.top));
    ShowsFrame(c'.heap, c'.heap, r, x, Range(r, c'.top), Range(c0.top, c'.top));
    CountAllAppend(v.folders, x);
    ExtendMore(c0.heap[target], n, FolderKind, r);
    hide Grown;
  }

  lemma GainGroup(c0: Cache, c: Cache, c': Cache, target: Ref, n: News, v: Shown, r: Ref, x: GroupVal)
    requires IsFolder(c0, target) && PasteGoing(c0, c, target, n, v)
    requires Gained(c, c', target, GroupKind, r)
      && ShowsGroup(c'.heap, r, x, AllEmails(c.heap, n.persons), Range(r, c'.top))
    requires NumPersons(c') == NumPersons(c)
    ensures PasteGoing(c0, c', target, n.(groups := n.groups + [r]), v.(groups := v.groups + [x]))
    ensures AllEmails(c'.heap, n.persons) == AllEmails(c.heap, n.persons)
  {
    hide Inv, NumPersons;
    GrownTrans(c0, c, c', target, target);
    PasteFrame(c0, c, c', target, n, v);
    ExtendMore(c0.heap[target], n, GroupKind, r);
    hide Grown;
  }

  lemma ExtendMore(f: Item, n: News, k: Kind, r: Ref)
    requires f.Folder?
    ensures var e := Extended(f, n.persons, n.folders, n.groups);
      WithList(e, k, ListOf(e, k) + [r]) ==
      match k
      case PersonKind => Extended(f, n.persons + [r], n.folders, n.groups)
      case FolderKind => Extended(f, n.persons, n.folders + [r], n.groups)
      case GroupKind => Extended(f, n.persons, n.folders, n.groups + [r])
  {
    assert f.persons + n.persons + [r] == f.persons + (n.persons + [r]);
    assert f.folders + n.folders + [r] == f.folders + (n.folders + [r]);
    assert f.groups + n.groups + [r] == f.groups + (n.groups + [r]);
  }

  // ---------- looking the selection up while pasting ----------

  /** The handles of the source that pasting leaves alone. */
  ghost function Untouched(cs: Cache, same: bool, target: Ref): set<Ref> {
    if same then cs.heap.Keys - {target} else cs.heap.Keys
  }

  /** The source as it was when pasting began, `cs`, seen from now. */
  ghost predicate SourceAs(src: AddressCache, cache: AddressCache, cs: Cache, target: Ref)
    reads src, cache
  {
    && Inv(cs) && Inv(src.View())
    && (src != cache ==> src.View() == cs)
    && (src == cache ==> Grown(cs, src.View(), target))
    && (src == cache ==> IsFolder(cs, target) && IsFolder(src.View(), target))
    && (src == cache && IsFolder(cs, target) && IsFolder(src.View(), target) ==>
      src.heap[target].parent == cs.heap[target].parent)
  }

  /** The cycle guard, too, is as it was. */
  lemma GuardThen(src: AddressCache, cache: AddressCache, cs: Cache, target: Ref, f: Ref)
    requires SourceAs(src, cache, cs, target) && src == cache && IsFolder(cs, f)
    ensures IsFolder(src.View(), f) && IsFolder(src.View(), target)
    ensures Reaches(src.heap, f, target) <==> Reaches(cs.heap, f, target)
    ensures !Reaches(cs.heap, f, target) ==> target !in Sub(cs, f)
  {
    forall r | r in cs.heap
      ensures r in src.heap && src.heap[r].parent == cs.heap[r].parent
    {
    }
    HeapClosed(cs, src.heap);
    ReachesAgrees(cs.heap, src.heap, cs.heap.Keys, f, target);
  }

  /** What a picked person shows now. */
  lemma PersonThen(src: AddressCache, cache: AddressCache, cs: Cache, target: Ref, p: Ref)
    requires SourceAs(src, cache, cs, target) && IsPerson(cs, p)
    ensures ShowsPerson(src.heap, p, PersonValOf(cs, p), Untouched(cs, src == cache, target))
    ensures p in src.heap && src.heap[p] == cs.heap[p]
    ensures src == cache ==> target !in Untouched(cs, src == cache, target)
  {
    var v, s := PersonValOf(cs, p), Untouched(cs, src == cache, target);
    PersonSubUntouched(cs, src == cache, target, p);
    assert forall i | 0 <= i < |[p]| :: ShowsPerson(cs.heap, [p][i], [v][i], Sub(cs, p));
    ShowsPersonsFrame(cs.heap, src.heap, [p], [v], Sub(cs, p), s);
    assert ShowsPerson(src.heap, [p][0], [v][0], s);
  }

  lemma PersonSubUntouched(cs: Cache, same: bool, target: Ref, p: Ref)
    requires Inv(cs) && IsPerson(cs, p) && (same ==> IsFolder(cs, target))
    ensures Sub(cs, p) <= Untouched(cs, same, target)
  {
    if same {
      NotBelowPerson(cs, p, target);
    }
  }

  /** What a picked folder shows now. */
  lemma FolderThen(src: AddressCache, cache: AddressCache, cs: Cache, target: Ref, f: Ref)
    requires SourceAs(src, cache, cs, target) && IsFolder(cs, f)
    requires src == cache ==> !Reaches(cs.heap, f, target)
    ensures Shows(src.heap, f, TreeOf(cs, f), Sub(cs, f))
    ensures src == cache ==> target !in Sub(cs, f) && Sub(cs, f) <= cache.heap.Keys
  {
    assert SameOn(cs.heap, src.heap, Sub(cs, f)) by {
      assert Sub(cs, f) <= Untouched(cs, src == cache, target);
    }
    ShowsFrame(cs.heap, src.heap, f, TreeOf(cs, f), Sub(cs, f), Sub(cs, f));
  }

  /** What a picked group shows now. */
  lemma GroupThen(src: AddressCache, cache: AddressCache, cs: Cache, target: Ref, g: Ref, es: seq<Ref>)
    requires SourceAs(src, cache, cs, target) && IsGroup(cs, g)
    ensures g in src.heap && src.heap[g] == cs.heap[g] && NoDup(src.heap[g].members)
    ensures ShowsGroup(src.heap, g, GroupVal(cs.heap[g].name, cs.heap[g].remarks, Positions(es, cs.heap[g].members)),
      es, {g})
  {
    MembersNoDup(cs, g);
  }

  lemma SourceAfter(src: AddressCache, cache: AddressCache, cs: Cache, c: Cache, target: Ref)
    requires Inv(cs) && Inv(cache.View()) && IsFolder(c, target)
    requires Grown(c, cache.View(), target) && IsFolder(cache.View(), target)
      && cache.heap[target].parent == c.heap[target].parent
    requires src != cache ==> src.View() == cs
    requires src == cache ==> Grown(cs, c, target) && IsFolder(cs, target)
                              && c.heap[target].parent == cs.heap[target].parent
    ensures SourceAs(src, cache, cs, target)
  {
    if src == cache {
      GrownTrans(cs, c, cache.View(), target, target);
    }
  }

  // ---------- a whole book ----------

  lemma RenameInv(c: Cache, f: Ref, name: string)
    requires Inv(c) && IsFolder(c, f) && f != c.root
    ensures Inv(c.(heap := c.heap[f := WithName(c.heap[f], name)]))
  {
    hide Inv;
    SameRecords(c, c.(heap := c.heap[f := WithName(c.heap[f], name)]));
  }

  lemma RenameGrows(c: Cache, f: Ref, name: string)
    requires Inv(c) && IsFolder(c, f) && f != c.root
    ensures var c' := c.(heap := c.heap[f := WithName(c.heap[f], name)]);
      Inv(c') && Grown(c, c', f) && NumPersons(c') == NumPersons(c)
  {
    hide Inv;
    var c' := c.(heap := c.heap[f := WithName(c.heap[f], name)]);
    RenameInv(c, f, name);
    assert PersonSet(c') == PersonSet(c);
  }

  lemma RenameShows(h: map<Ref, Item>, f: Ref, t: Tree, s: set<Ref>, name: string)
    requires Shows(h, f, t, s) && ShowsOutside(h, f, t, s)
    ensures Shows(h[f := WithName(h[f], name)], f, t.(name := name), s)
  {
    var k := h[f := WithName(h[f], name)];
    var s' := s - {f};
    assert SameOn(h, k, s');
    ShowsPersonsFrame(h, k, h[f].persons, t.persons, s', s);
    PersonsInside(h, h[f].persons, t.persons, s');
    AllEmailsFrame(h, k, h[f].persons);
    ShowsGroupsFrame(h, k, h[f].groups, t.groups, AllEmails(h, h[f].persons), s', s);
    ShowsAllFrame(h, k, h[f].folders, t.folders, s', s);
  }

  /** Copying the whole of another book: its root, under the book's name. */
  method CopyBook(cache: AddressCache, target: Ref, src: AddressCache) returns (nf: Ref)
    requires Inv(cache.View()) && IsFolder(cache.View(), target) && Inv(src.View()) && src != cache
    modifies cache`heap, cache`itemHash, cache`nextID, cache`top, cache`dirtyFlag
    ensures Inv(cache.View()) && Gained(old(cache.View()), cache.View(), target, FolderKind, nf)
    ensures Shows(cache.heap, nf, Local(TreeOf(src.View(), src.rootFolder)).(name := src.name), Range(nf, cache.top))
    ensures NumPersons(cache.View()) == NumPersons(old(cache.View())) + CountPersons(TreeOf(src.View(), src.rootFolder))
  {
    RootIsFolder(src.View());
    hide Inv, Shows, Grown, NumPersons, ShowsOutside, Gained, Sub, WithList;
    ghost var t := TreeOf(src.View(), src.rootFolder);
    ghost var c0 := cache.View();
    nf := CopyFolder(cache, target, src, src.rootFolder, t, Sub(src.View(), src.rootFolder));
    ghost var c := cache.View();
    RenameGrows(c, nf, src.name);
    RenameShows(c.heap, nf, Local(t), Range(nf, cache.top), src.name);
    cache.heap := cache.heap[nf := WithName(cache.heap[nf], src.name)];
    GrownTrans(c0, c, cache.View(), target, nf);
    GrownKeeps(c, cache.View(), nf, target);
    MakeGained(c0, cache.View(), target, FolderKind, nf);
  }

  /** `Gained` from what the copying methods promise. */
  lemma MakeGained(c: Cache, c': Cache, target: Ref, k: Kind, r: Ref)
    requires IsFolder(c, target) && Inv(c') && Grown(c, c', target) && r == c.top && target in c'.heap
    requires c'.heap[target] == WithList(c.heap[target], k, ListOf(c.heap[target], k) + [r])
    ensures Gained(c, c', target, k, r)
  {
  }

  // ---------- the first loop: persons and folders ----------

  lemma {:induction false} PicksGood(c: Cache, items: seq<SelectItem>, known: set<string>, target: Ref, same: bool,
      bookName: string)
    requires Inv(c)
    ensures GoodPicks(c, Picks(c, items, known, target, same, bookName))
  {
    if items != [] {
      PicksGood(c, items[1..], known, target, same, bookName);
      var ps := Picks(c, items, known, target, same, bookName);
      forall p | p in ps
        ensures GoodPick(c, p)
      {
        if p != ps[0] {
          assert p in ps[1..];
        }
      }
    }
  }

  /** What is left of the selection in the first loop. */
  ghost predicate FirstGoing(cs: Cache, c0: Cache, c: Cache, target: Ref, picks: seq<Pick>, i: nat,
                             n: News, v: Shown, sp: seq<Ref>, copyList: CopyList)
    requires i <= |picks| && IsFolder(c0, target) && Inv(cs) && GoodPicks(cs, picks)
  {
    && PasteGoing(c0, c, target, n, v) && n.groups == [] && v.groups == []
    && GoodPicks(cs, picks[i..])
    && v.persons + PersonVals(cs, picks[i..]) == PersonVals(cs, picks)
    && v.folders + LocalAll(Trees(cs, picks[i..])) == LocalAll(Trees(cs, picks))
    && sp + PickedPersons(picks[i..]) == PickedPersons(picks)
    && Originals(copyList) == AllEmails(cs.heap, sp)
    && Copies(copyList) == AllEmails(c.heap, n.persons)
  }

  lemma FirstStart(cs: Cache, c0: Cache, target: Ref, picks: seq<Pick>)
    requires IsFolder(c0, target) && Inv(c0) && Inv(cs) && GoodPicks(cs, picks)
    ensures FirstGoing(cs, c0, c0, target, picks, 0, News([], [], []), Shown([], [], []), [], [])
  {
    assert picks[0..] == picks;
    var f := c0.heap[target];
    assert Extended(f, [], [], []) == f by {
      assert f.persons + [] == f.persons && f.folders + [] == f.folders && f.groups + [] == f.groups;
    }
    assert ShowsPersons(c0.heap, [], [], Range(c0.top, c0.top));
  }

  /** The front of what is left. */
  lemma FrontPick(cs: Cache, picks: seq<Pick>, i: nat)
    requires i < |picks| && Inv(cs) && GoodPicks(cs, picks)
    ensures GoodPick(cs, picks[i]) && GoodPicks(cs, picks[i..]) && GoodPicks(cs, picks[i + 1..])
    ensures PersonVals(cs, picks[i..]) ==
      (if picks[i].PickPerson? then [PersonValOf(cs, picks[i].person)] else []) + PersonVals(cs, picks[i + 1..])
    ensures LocalAll(Trees(cs, picks[i..])) ==
      (if picks[i].PickFolder? then [Local(TreeOf(cs, picks[i].folder)).(name := picks[i].name)]
        else []) + LocalAll(Trees(cs, picks[i + 1..]))
    ensures PickedPersons(picks[i..]) == (if picks[i].PickPerson? then [picks[i].person]
      else []) + PickedPersons(picks[i + 1..])
  {
    var rest := picks[i..];
    assert picks[i] in picks && GoodPick(cs, picks[i]);
    assert rest[0] == picks[i] && rest[1..] == picks[i + 1..];
    assert forall p | p in rest :: p in picks;
    assert forall p | p in picks[i + 1..] :: p in picks;
    if picks[i].PickFolder? {
      var t := TreeOf(cs, picks[i].folder).(name := picks[i].name);
      var ts := Trees(cs, picks[i + 1..]);
      assert Local(t) == Local(TreeOf(cs, picks[i].folder)).(name := picks[i].name);
      assert ([t] + ts)[0] == t && ([t] + ts)[1..] == ts;
      assert LocalAll([t] + ts) == [Local(t)] + LocalAll(ts);
    } else {
      assert [] + Trees(cs, picks[i + 1..]) == Trees(cs, picks[i + 1..]);
      assert [] + LocalAll(Trees(cs, picks[i + 1..])) == LocalAll(Trees(cs, picks[i + 1..]));
    }
  }

  /** Moving the front of what is left to the end of what is done. */
  lemma Shift<T>(all: seq<T>, done: seq<T>, x: seq<T>, rest: seq<T>, tail: seq<T>)
    requires done + tail == all && tail == x + rest
    ensures done + x + rest == all
    ensures x == [] ==> done + rest == all
  {
    assert done + (x + rest) == done + x + rest;
    assert x == [] ==> done + x == done;
  }

  lemma FirstRest(cs: Cache, c0: Cache, c: Cache, target: Ref, picks: seq<Pick>, i: nat, n: News, v: Shown,
      sp: seq<Ref>, l: CopyList)
    requires i < |picks| && IsFolder(c0, target) && Inv(cs) && GoodPicks(cs, picks)
    requires FirstGoing(cs, c0, c, target, picks, i, n, v, sp, l)
    ensures GoodPick(cs, picks[i]) && GoodPicks(cs, picks[i + 1..])
    ensures v.persons + (if picks[i].PickPerson? then [PersonValOf(cs, picks[i].person)]
      else []) + PersonVals(cs, picks[i + 1..])
      == PersonVals(cs, picks)
    ensures !picks[i].PickPerson? ==> v.persons + PersonVals(cs, picks[i + 1..]) == PersonVals(cs, picks)
    ensures v.folders + (if picks[i].PickFolder? then [Local(TreeOf(cs, picks[i].folder)).(name := picks[i].name)]
      else [])
      + LocalAll(Trees(cs, picks[i + 1..])) == LocalAll(Trees(cs, picks))
    ensures !picks[i].PickFolder? ==> v.folders + LocalAll(Trees(cs, picks[i + 1..])) == LocalAll(Trees(cs, picks))
    ensures sp + (if picks[i].PickPerson? then [picks[i].person] else []) + PickedPersons(picks[i + 1..]) ==
      PickedPersons(picks)
    ensures !picks[i].PickPerson? ==> sp + PickedPersons(picks[i + 1..]) == PickedPersons(picks)
  {
    FrontPick(cs, picks, i);
    hide Inv, PasteGoing, PersonVals, Trees, PickedPersons, LocalAll, GoodPicks;
    var a := if picks[i].PickPerson? then [PersonValOf(cs, picks[i].person)] else [];
    var b := if picks[i].PickFolder? then [Local(TreeOf(cs, picks[i].folder)).(name := picks[i].name)] else [];
    var d := if picks[i].PickPerson? then [picks[i].person] else [];
    Shift(PersonVals(cs, picks), v.persons, a, PersonVals(cs, picks[i + 1..]), PersonVals(cs, picks[i..]));
    Shift(LocalAll(Trees(cs, picks)), v.folders, b, LocalAll(Trees(cs, picks[i + 1..])),
      LocalAll(Trees(cs, picks[i..])));
    Shift(PickedPersons(picks), sp, d, PickedPersons(picks[i + 1..]), PickedPersons(picks[i..]));
  }

  lemma FirstNothing(cs: Cache, c0: Cache, c: Cache, target: Ref, picks: seq<Pick>, i: nat, n: News, v: Shown,
      sp: seq<Ref>, l: CopyList)
    requires i < |picks| && IsFolder(c0, target) && Inv(cs) && GoodPicks(cs, picks)
    requires FirstGoing(cs, c0, c, target, picks, i, n, v, sp, l) && !picks[i].PickPerson? && !picks[i].PickFolder?
    ensures FirstGoing(cs, c0, c, target, picks, i + 1, n, v, sp, l)
  {
    hide Inv, PasteGoing, PersonVals, Trees, PickedPersons, LocalAll, GoodPicks;
    FirstRest(cs, c0, c, target, picks, i, n, v, sp, l);
  }

  lemma FirstPerson(cs: Cache, c0: Cache, c: Cache, c': Cache, target: Ref, picks: seq<Pick>, i: nat,
                    n: News, v: Shown, sp: seq<Ref>, l: CopyList, l': CopyList, r: Ref)
    requires i < |picks| && IsFolder(c0, target) && Inv(cs) && GoodPicks(cs, picks)
    requires FirstGoing(cs, c0, c, target, picks, i, n, v, sp, l) && picks[i].PickPerson? && GoodPick(cs, picks[i])
    requires IsFolder(c, target) && Gained(c, c', target, PersonKind, r) && NumPersons(c') == NumPersons(c) + 1
    requires ShowsPerson(c'.heap, r, PersonValOf(cs, picks[i].person), Range(r, c'.top))
    requires Originals(l') == Originals(l) + cs.heap[picks[i].person].emails
      && Copies(l') == Copies(l) + c'.heap[r].emails
    ensures FirstGoing(cs, c0, c', target, picks, i + 1, n.(persons := n.persons + [r]),
                       v.(persons := v.persons + [PersonValOf(cs, picks[i].person)]), sp + [picks[i].person], l')
  {
    hide Inv, PasteGoing, PersonVals, Trees, PickedPersons, LocalAll, GoodPicks, NumPersons, Gained;
    FirstRest(cs, c0, c, target, picks, i, n, v, sp, l);
    GainPerson(c0, c, c', target, n, v, r, PersonValOf(cs, picks[i].person));
    AllEmailsAppend(cs.heap, sp, picks[i].person);
    assert EmailsAt(cs.heap, picks[i].person) == cs.heap[picks[i].person].emails;
    hide ShowsPerson, AllEmails, EmailsAt;
  }

  lemma FirstFolder(cs: Cache, c0: Cache, c: Cache, c': Cache, target: Ref, picks: seq<Pick>, i: nat,
                    n: News, v: Shown, sp: seq<Ref>, l: CopyList, r: Ref, x: Tree)
    requires i < |picks| && IsFolder(c0, target) && Inv(cs) && GoodPicks(cs, picks)
    requires FirstGoing(cs, c0, c, target, picks, i, n, v, sp, l) && picks[i].PickFolder? && GoodPick(cs, picks[i])
    requires x == Local(TreeOf(cs, picks[i].folder)).(name := picks[i].name)
    requires IsFolder(c, target) && Gained(c, c', target, FolderKind, r) && Shows(c'.heap, r, x, Range(r, c'.top))
    requires NumPersons(c') == NumPersons(c) + CountPersons(x)
    ensures FirstGoing(cs, c0, c', target, picks, i + 1, n.(folders := n.folders + [r]),
      v.(folders := v.folders + [x]), sp, l)
  {
    hide Inv, PasteGoing, PersonVals, Trees, PickedPersons, LocalAll, GoodPicks, NumPersons, Gained, Shows, AllEmails;
    FirstRest(cs, c0, c, target, picks, i, n, v, sp, l);
    GainFolder(c0, c, c', target, n, v, r, x);
  }

  lemma {:induction false} LocalCount(t: Tree)
    ensures CountPersons(Local(t)) == CountPersons(t)
    decreases t, 0
  {
    LocalCountAll(t.folders);
  }

  lemma {:induction false} LocalCountAll(ts: seq<Tree>)
    ensures CountAll(LocalAll(ts)) == CountAll(ts)
    decreases ts
  {
    if ts != [] {
      LocalCount(ts[0]);
      LocalCountAll(ts[1..]);
      assert LocalAll(ts)[1..] == LocalAll(ts[1..]);
    }
  }

  lemma NamedCount(t: Tree, name: string)
    ensures CountPersons(Local(t).(name := name)) == CountPersons(t)
  {
    LocalCount(t);
  }

  /** The bookkeeping of the proof: the new items, what they show, the persons copied so far. */
  datatype Going = Going(n: News, v: Shown, sp: seq<Ref>)

  ghost predicate AnyGroup(picks: seq<Pick>) { exists p :: p in picks && p.PickGroup? }

  /** What the lookup of an item means for its pick. */
  ghost predicate TurnAgrees(src: AddressCache, cache: AddressCache, cs: Cache, target: Ref, item: SelectItem,
      pick: Pick)
    reads src, cache
  {
    && (item.uid in src.itemHash <==> item.uid in cs.hash)
    && if item.uid !in src.itemHash then pick.PickNothing?
      else FoundAgrees(src, cache, cs, target, src.itemHash[item.uid], pick)
  }

  ghost predicate FoundAgrees(src: AddressCache, cache: AddressCache, cs: Cache, target: Ref, r: Ref, pick: Pick)
    reads src, cache
  {
    && r in src.heap && r in cs.heap
    && (src.heap[r].Person? ==> pick == PickPerson(r) && IsPerson(cs, r))
    && (src.heap[r].Group? ==> pick == PickGroup(r) && IsGroup(cs, r))
    && (src.heap[r].EMail? ==> pick.PickNothing?)
    && (src.heap[r].Folder? ==> IsFolder(cs, r))
    && (src.heap[r].Folder? ==> pick == if src == cache
      && Reaches(cs.heap, r, target) then PickNothing else PickFolder(r, cs.heap[r].name))
  }

  ghost predicate BookAgrees(src: AddressCache, cache: AddressCache, cs: Cache, item: SelectItem, pick: Pick)
    reads src
  {
    pick == if item.isDataSource && src != cache then PickFolder(cs.root, src.name) else PickNothing
  }

  /** What one turn of the first loop finds. */
  lemma FirstTurn(src: AddressCache, cache: AddressCache, cs: Cache, target: Ref, items: seq<SelectItem>,
      known: set<string>, i: nat)
    requires SourceAs(src, cache, cs, target) && i < |items| && FreshUid(cs, items[i].uid)
    ensures items[i].cacheID !in known ==> Picks(cs, items, known, target, src == cache, src.name)[i].PickNothing?
    ensures items[i].cacheID in known && items[i].uid != "" ==>
      TurnAgrees(src, cache, cs, target, items[i], Picks(cs, items, known, target, src == cache, src.name)[i])
    ensures items[i].cacheID in known && items[i].uid == "" ==>
      BookAgrees(src, cache, cs, items[i], Picks(cs, items, known, target, src == cache, src.name)[i])
  {
    PicksAt(cs, items, known, target, src == cache, src.name, i);
  }

  /** One person of the clipboard. */
  method PasteOnePerson(cache: AddressCache, target: Ref, src: AddressCache, person: Ref, copyList: CopyList,
                        ghost cs: Cache, ghost c0: Cache, ghost picks: seq<Pick>, ghost i: nat, ghost g: Going)
    returns (list: CopyList, ghost g': Going)
    requires Inv(cs) && IsFolder(c0, target) && i < |picks| && GoodPicks(cs, picks) && (src == cache ==> c0 == cs)
    requires FirstGoing(cs, c0, cache.View(), target, picks, i, g.n, g.v, g.sp, copyList)
      && SourceAs(src, cache, cs, target)
    requires picks[i] == PickPerson(person) && IsPerson(cs, person)
    modifies cache`heap, cache`itemHash, cache`nextID, cache`top, cache`dirtyFlag
    ensures FirstGoing(cs, c0, cache.View(), target, picks, i + 1, g'.n, g'.v, g'.sp, list)
      && SourceAs(src, cache, cs, target)
    ensures g'.n.folders == g.n.folders
  {
    hide Inv, SourceAs, FirstGoing, Gained, Grown, NumPersons, ShowsPerson, PasteGoing, GoodPicks, PersonVals, Trees;
    ghost var c := cache.View();
    GoingHere(cs, c0, c, target, picks, i, g.n, g.v, g.sp, copyList);
    GoingTarget(cs, c0, c, target, picks, i, g, copyList);
    SourceHere(src, cache, cs, target);
    PersonThen(src, cache, cs, target, person);
    ghost var v := PersonValOf(cs, person);
    var np;
    np, list := AddPersonCopy(cache, target, src, person, copyList, v, Untouched(cs, src == cache, target));
    MakeGained(c, cache.View(), target, PersonKind, np);
    FirstPerson(cs, c0, c, cache.View(), target, picks, i, g.n, g.v, g.sp, copyList, list, np);
    GainedSource(src, cache, cs, c0, c, target, PersonKind, np);
    g' := Going(g.n.(persons := g.n.persons + [np]), g.v.(persons := g.v.persons + [v]), g.sp + [person]);
  }

  /** One folder of the clipboard. */
  method PasteOneFolder(cache: AddressCache, target: Ref, src: AddressCache, folder: Ref, ghost copyList: CopyList,
                        ghost cs: Cache, ghost c0: Cache, ghost picks: seq<Pick>, ghost i: nat, ghost g: Going)
    returns (newFolder: Ref, ghost g': Going)
    requires Inv(cs) && IsFolder(c0, target) && i < |picks| && GoodPicks(cs, picks) && (src == cache ==> c0 == cs)
    requires FirstGoing(cs, c0, cache.View(), target, picks, i, g.n, g.v, g.sp, copyList)
      && SourceAs(src, cache, cs, target)
    requires IsFolder(cs, folder) && picks[i] == PickFolder(folder, cs.heap[folder].name)
    requires src == cache ==> !Reaches(cs.heap, folder, target)
    modifies cache`heap, cache`itemHash, cache`nextID, cache`top, cache`dirtyFlag
    ensures FirstGoing(cs, c0, cache.View(), target, picks, i + 1, g'.n, g'.v, g'.sp, copyList)
      && SourceAs(src, cache, cs, target)
    ensures g'.n.folders == g.n.folders + [newFolder]
  {
    hide Inv, SourceAs, FirstGoing, Gained, Grown, NumPersons, Shows, PasteGoing, GoodPicks, PersonVals, Trees,
      ShowsOutside;
    ghost var c := cache.View();
    GoingHere(cs, c0, c, target, picks, i, g.n, g.v, g.sp, copyList);
    GoingTarget(cs, c0, c, target, picks, i, g, copyList);
    SourceHere(src, cache, cs, target);
    FolderThen(src, cache, cs, target, folder);
    ghost var t := TreeOf(cs, folder);
    newFolder := CopyFolder(cache, target, src, folder, t, Sub(cs, folder));
    SameName(cs, folder);
    NamedCount(t, cs.heap[folder].name);
    MakeGained(c, cache.View(), target, FolderKind, newFolder);
    FirstFolder(cs, c0, c, cache.View(), target, picks, i, g.n, g.v, g.sp, copyList, newFolder, Local(t));
    GainedSource(src, cache, cs, c0, c, target, FolderKind, newFolder);
    g' := Going(g.n.(folders := g.n.folders + [newFolder]), g.v.(folders := g.v.folders + [Local(t)]), g.sp);
  }

  /** A whole book of the clipboard. */
  method PasteOneBook(cache: AddressCache, target: Ref, src: AddressCache, ghost copyList: CopyList,
                      ghost cs: Cache, ghost c0: Cache, ghost picks: seq<Pick>, ghost i: nat, ghost g: Going)
    returns (newFolder: Ref, ghost g': Going)
    requires Inv(cs) && IsFolder(c0, target) && i < |picks| && GoodPicks(cs, picks) && src != cache
    requires FirstGoing(cs, c0, cache.View(), target, picks, i, g.n, g.v, g.sp, copyList)
      && SourceAs(src, cache, cs, target)
    requires picks[i] == PickFolder(cs.root, src.name)
    modifies cache`heap, cache`itemHash, cache`nextID, cache`top, cache`dirtyFlag
    ensures FirstGoing(cs, c0, cache.View(), target, picks, i + 1, g'.n, g'.v, g'.sp, copyList)
      && SourceAs(src, cache, cs, target)
    ensures g'.n.folders == g.n.folders + [newFolder]
  {
    hide Inv, SourceAs, FirstGoing, Gained, Grown, NumPersons, Shows, PasteGoing, GoodPicks, PersonVals, Trees;
    ghost var c := cache.View();
    GoingHere(cs, c0, c, target, picks, i, g.n, g.v, g.sp, copyList);
    SourceHere(src, cache, cs, target);
    ghost var t := TreeOf(cs, cs.root);
    newFolder := CopyBook(cache, target, src);
    NamedCount(t, src.name);
    ghost var x := Local(t).(name := src.name);
    FirstFolder(cs, c0, c, cache.View(), target, picks, i, g.n, g.v, g.sp, copyList, newFolder, x);
    GainedSource(src, cache, cs, c0, c, target, FolderKind, newFolder);
    g' := Going(g.n.(folders := g.n.folders + [newFolder]), g.v.(folders := g.v.folders + [x]), g.sp);
  }

  /** The first loop of `addrclip_cache_add_folder`. */
  method PastePersonsAndFolders(cache: AddressCache, target: Ref, items: seq<SelectItem>, src: AddressCache,
                                index: map<string, AddressCache>, ghost cs: Cache, ghost c0: Cache,
                                  ghost picks: seq<Pick>)
    returns (folderGroup: seq<Ref>, haveGroups: bool, copyList: CopyList, ghost g: Going)
    requires Inv(cs) && SourceAs(src, cache, cs, target) && c0 == cache.View() && Inv(c0) && IsFolder(c0, target)
    requires forall i | i in items && i.cacheID in index :: index[i.cacheID] == src
    requires forall i | i in items :: FreshUid(cs, i.uid)
    requires picks == Picks(cs, items, index.Keys, target, src == cache, src.name) && GoodPicks(cs, picks)
    requires src == cache ==> c0 == cs
    modifies cache`heap, cache`itemHash, cache`nextID, cache`top, cache`dirtyFlag
    ensures FirstGoing(cs, c0, cache.View(), target, picks, |picks|, g.n, g.v, g.sp, copyList)
    ensures SourceAs(src, cache, cs, target) && folderGroup == g.n.folders
    ensures haveGroups <==> AnyGroup(picks)
  {
    hide Inv, SourceAs, FirstGoing, PasteGoing, GoodPicks, FreshUid, Picks, Reaches;
    g := Going(News([], [], []), Shown([], [], []), []);
    folderGroup, copyList, haveGroups := [], [], false;
    FirstStart(cs, c0, target, picks);
    assert picks[..0] == [];
    var i := 0;
    while i < |items|
      invariant 0 <= i <= |items| == |picks|
      invariant FirstGoing(cs, c0, cache.View(), target, picks, i, g.n, g.v, g.sp, copyList)
        && SourceAs(src, cache, cs, target)
      invariant folderGroup == g.n.folders && (haveGroups <==> AnyGroup(picks[..i]))
    {
      ghost var c := cache.View();
      var item := items[i];
      TakeMore(picks, i);
      FirstTurn(src, cache, cs, target, items, index.Keys, i);
      SourceHere(src, cache, cs, target);
      GoingHere(cs, c0, c, target, picks, i, g.n, g.v, g.sp, copyList);
      var found := None;
      if item.cacheID in index && item.uid != "" {
        found := index[item.cacheID].GetObject(item.uid);
      }
      if found.Some? && src.heap[found.value].Person? {
        copyList, g := PasteOnePerson(cache, target, src, found.value, copyList, cs, c0, picks, i, g);
      } else if found.Some? && src.heap[found.value].Folder? {
        var inside := false;
        if src == cache {
          GuardThen(src, cache, cs, target, found.value);
          inside := IsSubfolderOf(cache, found.value, target);
        }
        if !inside {
          var newFolder;
          newFolder, g := PasteOneFolder(cache, target, src, found.value, copyList, cs, c0, picks, i, g);
          folderGroup := folderGroup + [newFolder];
        } else {
          FirstNothing(cs, c0, c, target, picks, i, g.n, g.v, g.sp, copyList);
        }
      } else if item.cacheID in index && item.uid == "" && item.isDataSource && src != cache {
        var newFolder;
        newFolder, g := PasteOneBook(cache, target, src, copyList, cs, c0, picks, i, g);
        folderGroup := folderGroup + [newFolder];
      } else {
        if found.Some? && src.heap[found.value].Group? {
          haveGroups := true;
        }
        FirstNothing(cs, c0, c, target, picks, i, g.n, g.v, g.sp, copyList);
      }
      i := i + 1;
    }
    assert picks[..i] == picks;
  }

  lemma GoingTarget(cs: Cache, c0: Cache, c: Cache, target: Ref, picks: seq<Pick>, i: nat, g: Going, l: CopyList)
    requires i < |picks| && IsFolder(c0, target) && Inv(cs) && GoodPicks(cs, picks)
    requires FirstGoing(cs, c0, c, target, picks, i, g.n, g.v, g.sp, l)
    ensures Grown(c0, c, target) && IsFolder(c, target) && c.heap[target].parent == c0.heap[target].parent
  {
  }

  lemma GoingHere(cs: Cache, c0: Cache, c: Cache, target: Ref, picks: seq<Pick>, i: nat, n: News, v: Shown,
      sp: seq<Ref>, l: CopyList)
    requires i < |picks| && IsFolder(c0, target) && Inv(cs) && GoodPicks(cs, picks)
    requires FirstGoing(cs, c0, c, target, picks, i, n, v, sp, l)
    ensures Inv(c) && IsFolder(c, target) && picks[i] in picks && GoodPick(cs, picks[i])
  {
  }

  lemma SourceHere(src: AddressCache, cache: AddressCache, cs: Cache, target: Ref)
    requires SourceAs(src, cache, cs, target)
    ensures Inv(src.View()) && (src != cache ==> src.View() == cs) && src.rootFolder == cs.root
    ensures Inv(cs) && IsFolder(cs, cs.root)
  {
    RootIsFolder(cs);
  }

  /** After a gain the source is still what it was. */
  lemma GainedSource(src: AddressCache, cache: AddressCache, cs: Cache, c0: Cache, c: Cache, target: Ref, k: Kind,
      r: Ref)
    requires Inv(cs) && IsFolder(c, target) && Gained(c, cache.View(), target, k, r)
    requires src != cache ==> src.View() == cs
    requires src == cache ==> Grown(cs, c, target) && IsFolder(cs, target)
                              && c.heap[target].parent == cs.heap[target].parent
    ensures SourceAs(src, cache, cs, target)
  {
    SourceAfter(src, cache, cs, c, target);
  }

  lemma SameName(c: Cache, f: Ref)
    requires Inv(c) && IsFolder(c, f)
    ensures Local(TreeOf(c, f)).(name := c.heap[f].name) == Local(TreeOf(c, f))
  {
    ShowsParts(c.heap, f, TreeOf(c, f), Sub(c, f));
  }

  // ---------- the second loop: groups ----------

  /** What is left of the selection in the second loop. */
  ghost predicate SecondGoing(cs: Cache, c0: Cache, c: Cache, target: Ref, picks: seq<Pick>, i: nat, g: Going,
      l: CopyList)
    requires i <= |picks| && IsFolder(c0, target) && GoodPicks(cs, picks) && Inv(cs)
  {
    && PasteGoing(c0, c, target, g.n, g.v)
    && g.v.persons == PersonVals(cs, picks) && g.v.folders == LocalAll(Trees(cs, picks))
    && GoodPicks(cs, picks[i..])
    && g.v.groups + LocalGroups(GroupVals(cs, picks[i..], Originals(l))) ==
      LocalGroups(GroupVals(cs, picks, Originals(l)))
    && Originals(l) == AllEmails(cs.heap, PickedPersons(picks)) && Copies(l) == AllEmails(c.heap, g.n.persons)
  }

  lemma SecondStart(cs: Cache, c0: Cache, c: Cache, target: Ref, picks: seq<Pick>, g: Going, l: CopyList)
    requires IsFolder(c0, target) && Inv(cs) && GoodPicks(cs, picks)
    requires FirstGoing(cs, c0, c, target, picks, |picks|, g.n, g.v, g.sp, l)
    ensures SecondGoing(cs, c0, c, target, picks, 0, g, l)
    ensures !AnyGroup(picks) ==> SecondGoing(cs, c0, c, target, picks, |picks|, g, l) && g.n.groups == []
  {
    hide Inv, PasteGoing, GoodPicks;
    assert picks[|picks|..] == [] && picks[0..] == picks;
    assert g.v.persons + [] == g.v.persons && g.v.folders + [] == g.v.folders && g.sp + [] == g.sp;
    var vs := LocalGroups(GroupVals(cs, picks, Originals(l)));
    assert [] + vs == vs;
    if !AnyGroup(picks) {
      NoGroups(cs, picks, Originals(l));
    }
  }

  lemma {:induction false} NoGroups(cs: Cache, picks: seq<Pick>, es: seq<Ref>)
    requires GoodPicks(cs, picks) && !AnyGroup(picks)
    ensures GroupVals(cs, picks, es) == []
  {
    if picks != [] {
      assert picks[0] in picks;
      assert forall p | p in picks[1..] :: p in picks;
      NoGroups(cs, picks[1..], es);
    }
  }

  ghost function GroupValOf(cs: Cache, r: Ref, es: seq<Ref>): GroupVal
    requires IsGroup(cs, r)
  {
    GroupVal(cs.heap[r].name, cs.heap[r].remarks, Positions(es, cs.heap[r].members))
  }

  lemma SecondLeft(cs: Cache, c0: Cache, c: Cache, target: Ref, picks: seq<Pick>, i: nat, g: Going, l: CopyList)
    requires i <= |picks| && IsFolder(c0, target) && Inv(cs) && GoodPicks(cs, picks)
    requires SecondGoing(cs, c0, c, target, picks, i, g, l)
    ensures GoodPicks(cs, picks[i..])
    ensures g.v.groups + LocalGroups(GroupVals(cs, picks[i..], Originals(l))) ==
      LocalGroups(GroupVals(cs, picks, Originals(l)))
  {
  }

  lemma FirstGroupVal(c: Cache, picks: seq<Pick>, es: seq<Ref>)
    requires GoodPicks(c, picks) && picks != []
    ensures GoodPick(c, picks[0]) && GoodPicks(c, picks[1..])
    ensures GroupVals(c, picks, es) == (if picks[0].PickGroup? then [GroupValOf(c, picks[0].group, es)]
      else []) + GroupVals(c, picks[1..], es)
  {
    assert picks[0] in picks;
    assert forall p | p in picks[1..] :: p in picks;
  }

  lemma PickAt(c: Cache, picks: seq<Pick>, i: nat)
    requires i < |picks| && GoodPicks(c, picks)
    ensures GoodPick(c, picks[i]) && GoodPicks(c, picks[i + 1..])
    ensures picks[i].PickGroup? ==> IsGroup(c, picks[i].group)
  {
    assert picks[i] in picks;
    assert forall p | p in picks[i + 1..] :: p in picks;
  }

  lemma SecondRest(cs: Cache, c0: Cache, c: Cache, target: Ref, picks: seq<Pick>, i: nat, g: Going, l: CopyList)
    requires i < |picks| && IsFolder(c0, target) && Inv(cs) && GoodPicks(cs, picks)
    requires SecondGoing(cs, c0, c, target, picks, i, g, l)
    ensures GoodPick(cs, picks[i]) && GoodPicks(cs, picks[i + 1..])
    ensures var all, rest := LocalGroups(GroupVals(cs, picks, Originals(l))),
      LocalGroups(GroupVals(cs, picks[i + 1..], Originals(l)));
      && (!picks[i].PickGroup? ==> g.v.groups + rest == all)
      && (picks[i].PickGroup? ==> g.v.groups + [LocalGroup(GroupValOf(cs, picks[i].group, Originals(l)))] + rest == all)
  {
    hide SecondGoing, Inv, LocalGroups, Originals, Positions, GroupVals, GroupValOf, GoodPick, GoodPicks;
    var es := Originals(l);
    var tail := picks[i..];
    PickAt(cs, picks, i);
    assert tail[0] == picks[i] && tail[1..] == picks[i + 1..];
    SecondLeft(cs, c0, c, target, picks, i, g, l);
    var more := GroupVals(cs, picks[i + 1..], es);
    var x := if picks[i].PickGroup? then [GroupValOf(cs, picks[i].group, es)] else [];
    FirstGroupVal(cs, tail, es);
    Shift(LocalGroups(GroupVals(cs, picks, es)), g.v.groups, LocalGroups(x), LocalGroups(more),
      LocalGroups(GroupVals(cs, tail, es)));
  }

  lemma SecondNothing(cs: Cache, c0: Cache, c: Cache, target: Ref, picks: seq<Pick>, i: nat, g: Going, l: CopyList)
    requires i < |picks| && IsFolder(c0, target) && Inv(cs) && GoodPicks(cs, picks)
    requires SecondGoing(cs, c0, c, target, picks, i, g, l) && !picks[i].PickGroup?
    ensures SecondGoing(cs, c0, c, target, picks, i + 1, g, l)
  {
    hide Inv, PasteGoing, GoodPicks, PersonVals, Trees, GroupVals;
    SecondRest(cs, c0, c, target, picks, i, g, l);
  }

  lemma SecondGroup(cs: Cache, c0: Cache, c: Cache, c': Cache, target: Ref, picks: seq<Pick>, i: nat, g: Going,
      l: CopyList, r: Ref)
    requires i < |picks| && IsFolder(c0, target) && Inv(cs) && GoodPicks(cs, picks)
    requires SecondGoing(cs, c0, c, target, picks, i, g, l) && picks[i].PickGroup? && GoodPick(cs, picks[i])
    requires IsFolder(c, target) && Gained(c, c', target, GroupKind, r) && NumPersons(c') == NumPersons(c)
    requires ShowsGroup(c'.heap, r, LocalGroup(GroupValOf(cs, picks[i].group, Originals(l))), Copies(l),
      Range(r, c'.top))
    ensures var x := LocalGroup(GroupValOf(cs, picks[i].group, Originals(l)));
      SecondGoing(cs, c0, c', target, picks, i + 1,
        Going(g.n.(groups := g.n.groups + [r]), g.v.(groups := g.v.groups + [x]), g.sp), l)
  {
    hide Inv, PasteGoing, GoodPicks, PersonVals, Trees, GroupVals, Gained, NumPersons, ShowsGroup;
    SecondRest(cs, c0, c, target, picks, i, g, l);
    GainGroup(c0, c, c', target, g.n, g.v, r, LocalGroup(GroupValOf(cs, picks[i].group, Originals(l))));
  }

  lemma SecondHere(cs: Cache, c0: Cache, c: Cache, target: Ref, picks: seq<Pick>, i: nat, g: Going, l: CopyList)
    requires i <= |picks| && IsFolder(c0, target) && Inv(cs) && GoodPicks(cs, picks)
    requires SecondGoing(cs, c0, c, target, picks, i, g, l)
    ensures Inv(c) && IsFolder(c, target) && Grown(c0, c, target) && c.heap[target].parent == c0.heap[target].parent
    ensures NoDup(Copies(l)) && forall e | e in Copies(l) :: Owned(c, e)
  {
    hide Inv, Grown, PasteShows, GoodPicks, NumPersons;
    ListsHere(c, target);
    TailOf(c0.heap[target].persons, g.n.persons);
    AllEmailsNoDup(c, g.n.persons);
    forall e | e in Copies(l)
      ensures Owned(c, e)
    {
      EmailsOfOthers(c, g.n.persons, e);
    }
  }

  lemma TailOf(s: seq<Ref>, t: seq<Ref>)
    requires NoDup(s + t)
    ensures NoDup(t) && forall x | x in t :: x in s + t
  {
    forall a, b | 0 <= a < b < |t|
      ensures t[a] != t[b]
    {
      assert (s + t)[|s| + a] == t[a] && (s + t)[|s| + b] == t[b];
    }
  }

  /** The second loop of `addrclip_cache_add_folder`. */
  method PasteGroups(cache: AddressCache, target: Ref, items: seq<SelectItem>, src: AddressCache, copyList: CopyList,
                     index: map<string, AddressCache>, ghost cs: Cache, ghost c0: Cache, ghost picks: seq<Pick>,
                       ghost g0: Going)
    returns (newGroups: seq<Ref>, ghost g: Going)
    requires Inv(cs) && SourceAs(src, cache, cs, target) && IsFolder(c0, target) && (src == cache ==> c0 == cs)
    requires forall i | i in items && i.cacheID in index :: index[i.cacheID] == src
    requires forall i | i in items :: FreshUid(cs, i.uid)
    requires picks == Picks(cs, items, index.Keys, target, src == cache, src.name) && GoodPicks(cs, picks)
    requires SecondGoing(cs, c0, cache.View(), target, picks, 0, g0, copyList) && g0.n.groups == []
    modifies cache`heap, cache`itemHash, cache`nextID, cache`top, cache`dirtyFlag
    ensures SecondGoing(cs, c0, cache.View(), target, picks, |picks|, g, copyList) && SourceAs(src, cache, cs, target)
    ensures newGroups == g.n.groups && g.n.folders == g0.n.folders
  {
    hide Inv, SourceAs, SecondGoing, PasteGoing, GoodPicks, FreshUid, Picks, Reaches, Gained, Grown, NumPersons,
      ShowsGroup, LocalGroups,
      GroupVals, Originals, Copies, Positions;
    g := g0;
    newGroups := [];
    var i := 0;
    while i < |items|
      invariant 0 <= i <= |items| == |picks|
      invariant SecondGoing(cs, c0, cache.View(), target, picks, i, g, copyList) && SourceAs(src, cache, cs, target)
      invariant newGroups == g.n.groups && g.n.folders == g0.n.folders
    {
      ghost var c := cache.View();
      var item := items[i];
      FirstTurn(src, cache, cs, target, items, index.Keys, i);
      SourceHere(src, cache, cs, target);
      SecondHere(cs, c0, c, target, picks, i, g, copyList);
      SecondRest(cs, c0, c, target, picks, i, g, copyList);
      var found := None;
      if item.cacheID in index {
        found := index[item.cacheID].GetObject(item.uid);
        NoEmptyUid(src.View());
      }
      if found.Some? && src.heap[found.value].Group? {
        var group := found.value;
        ghost var x := GroupValOf(cs, group, Originals(copyList));
        GroupThen(src, cache, cs, target, group, Originals(copyList));
        var newGroup := AddGroupCopy(cache, target, src, group, copyList, x, {group});
        MakeGained(c, cache.View(), target, GroupKind, newGroup);
        SecondGroup(cs, c0, c, cache.View(), target, picks, i, g, copyList, newGroup);
        GainedSource(src, cache, cs, c0, c, target, GroupKind, newGroup);
        g := Going(g.n.(groups := g.n.groups + [newGroup]), g.v.(groups := g.v.groups + [LocalGroup(x)]), g.sp);
        newGroups := newGroups + [newGroup];
      } else {
        SecondNothing(cs, c0, c, target, picks, i, g, copyList);
      }
      i := i + 1;
    }
  }

  lemma NoEmptyUid(c: Cache)
    requires Inv(c)
    ensures "" !in c.hash
  {
  }

  // ---------- the whole paste ----------

  /** What a paste by copying has done: at the end of the target's lists there are new items
      that show, in clipboard order, the selected persons, folders and groups; of the old items
      only the target has changed. */
  ghost predicate PastedCopies(cs: Cache, c0: Cache, c: Cache, target: Ref, picks: seq<Pick>, n: News)
    requires IsFolder(c0, target) && Inv(cs) && GoodPicks(cs, picks)
  {
    PasteGoing(c0, c, target, n,
      Shown(PersonVals(cs, picks), LocalAll(Trees(cs, picks)),
            LocalGroups(GroupVals(cs, picks, AllEmails(cs.heap, PickedPersons(picks))))))
  }

  lemma SecondDone(cs: Cache, c0: Cache, c: Cache, target: Ref, picks: seq<Pick>, g: Going, l: CopyList)
    requires IsFolder(c0, target) && Inv(cs) && GoodPicks(cs, picks)
    requires SecondGoing(cs, c0, c, target, picks, |picks|, g, l)
    ensures PastedCopies(cs, c0, c, target, picks, g.n) && Inv(c)
  {
    assert picks[|picks|..] == [];
    hide Inv;
    assert g.v.groups + LocalGroups([]) == g.v.groups;
    assert g.v == Shown(PersonVals(cs, picks), LocalAll(Trees(cs, picks)),
                        LocalGroups(GroupVals(cs, picks, AllEmails(cs.heap, PickedPersons(picks)))));
  }

  /** `addrclip_cache_add_folder`, for a clipboard whose items come from `src` or from caches
      that are gone; `src` may be the cache that is pasted into.  As for every generated uid,
      the uids in the clipboard are none that the counter is still to give out. */
  method PasteItems(cache: AddressCache, target: Ref, items: seq<SelectItem>, src: AddressCache, index: map<string,
      AddressCache>)
    returns (folderGroup: seq<Ref>, ghost n: News)
    requires Inv(cache.View()) && IsFolder(cache.View(), target) && Inv(src.View())
    requires forall i | i in items && i.cacheID in index :: index[i.cacheID] == src
    requires forall i | i in items :: FreshUid(src.View(), i.uid)
    modifies cache`heap, cache`itemHash, cache`nextID, cache`top, cache`dirtyFlag
    ensures Inv(cache.View()) && folderGroup == n.folders + n.groups
    ensures var cs := old(src.View()); var picks := Picks(cs, items, index.Keys, target, src == cache, src.name);
      GoodPicks(cs, picks) && PastedCopies(cs, old(cache.View()), cache.View(), target, picks, n)
  {
    hide Inv, GoodPicks, FreshUid, SecondGoing, FirstGoing, PastedCopies, Picks, AnyGroup;
    ghost var cs, c0 := src.View(), cache.View();
    ghost var picks := Picks(cs, items, index.Keys, target, src == cache, src.name);
    PicksGood(cs, items, index.Keys, target, src == cache, src.name);
    hide SourceAs;
    var haveGroups, copyList;
    ghost var g;
    folderGroup, haveGroups, copyList, g := PastePersonsAndFolders(cache, target, items, src, index, cs, c0, picks);
    SecondStart(cs, c0, cache.View(), target, picks, g, copyList);
    FirstNoGroups(cs, c0, cache.View(), target, picks, g, copyList);
    if haveGroups {
      var newGroups;
      newGroups, g := PasteGroups(cache, target, items, src, copyList, index, cs, c0, picks, g);
      folderGroup := folderGroup + newGroups;
    }
    SecondDone(cs, c0, cache.View(), target, picks, g, copyList);
    n := g.n;
  }

  lemma FirstNoGroups(cs: Cache, c0: Cache, c: Cache, target: Ref, picks: seq<Pick>, g: Going, l: CopyList)
    requires IsFolder(c0, target) && Inv(cs) && GoodPicks(cs, picks)
    requires FirstGoing(cs, c0, c, target, picks, |picks|, g.n, g.v, g.sp, l)
    ensures g.n.groups == [] && g.n.folders + [] == g.n.folders
  {
  }

}
