/** What a reader of an address book sees below a folder, as a tree of plain values without
    handles and uids: the measure by which a copy matches its original. */
module ClipTree {
  import opened Items
  import opened CacheState

  datatype EmailVal = EmailVal(name: string, address: string, remarks: string)
  datatype PersonVal = PersonVal(name: string, firstName: string, lastName: string, nickName: string,
                                 emails: seq<EmailVal>, attribs: seq<(string, string)>)
  /** A member of a group is shown by its position among the emails of the persons that lie
      directly in the same folder, or as `None` if its person lies elsewhere. */
  datatype GroupVal = GroupVal(name: string, remarks: string, members: seq<Option<nat>>)
  datatype Tree = Tree(name: string, persons: seq<PersonVal>, groups: seq<GroupVal>, folders: seq<Tree>)

  // ---------- reading a heap ----------

  function EmailsAt(h: map<Ref, Item>, p: Ref): seq<Ref> {
    if p in h && h[p].Person? then h[p].emails else []
  }

  /** The emails of several persons, person by person. */
  function AllEmails(h: map<Ref, Item>, ps: seq<Ref>): seq<Ref> {
    if ps == [] then [] else EmailsAt(h, ps[0]) + AllEmails(h, ps[1..])
  }

  function IndexOf(s: seq<Ref>, x: Ref): (i: Option<nat>)
    ensures i.Some? ==> i.value < |s| && s[i.value] == x
    ensures i.None? <==> x !in s
  {
    if s == [] then None
    else if s[0] == x then Some(0)
    else match IndexOf(s[1..], x)
      case None => None
      case Some(i) => Some(i + 1)
  }

  function Positions(es: seq<Ref>, ms: seq<Ref>): seq<Option<nat>> {
    if ms == [] then [] else [IndexOf(es, ms[0])] + Positions(es, ms[1..])
  }

  function AttribVals(s: seq<Attrib>): seq<(string, string)> {
    if s == [] then [] else [(s[0].name, s[0].value)] + AttribVals(s[1..])
  }

  predicate ShowsEmail(h: map<Ref, Item>, e: Ref, v: EmailVal, s: set<Ref>) {
    e in s && e in h && h[e].EMail? && h[e].name == v.name && h[e].address == v.address && h[e].remarks == v.remarks
  }

  predicate ShowsPerson(h: map<Ref, Item>, p: Ref, v: PersonVal, s: set<Ref>) {
    && p in s && p in h && h[p].Person?
    && h[p].name == v.name && h[p].firstName == v.firstName
    && h[p].lastName == v.lastName && h[p].nickName == v.nickName
    && AttribVals(h[p].attribs) == v.attribs
    && |h[p].emails| == |v.emails|
    && forall j | 0 <= j < |v.emails| :: ShowsEmail(h, h[p].emails[j], v.emails[j], s)
  }

  predicate ShowsPersons(h: map<Ref, Item>, ps: seq<Ref>, vs: seq<PersonVal>, s: set<Ref>) {
    |ps| == |vs| && forall i | 0 <= i < |ps| :: ShowsPerson(h, ps[i], vs[i], s)
  }

  predicate ShowsGroup(h: map<Ref, Item>, g: Ref, v: GroupVal, es: seq<Ref>, s: set<Ref>) {
    && g in s && g in h && h[g].Group?
    && h[g].name == v.name && h[g].remarks == v.remarks && Positions(es, h[g].members) == v.members
  }

  predicate ShowsGroups(h: map<Ref, Item>, gs: seq<Ref>, vs: seq<GroupVal>, es: seq<Ref>, s: set<Ref>) {
    |gs| == |vs| && forall i | 0 <= i < |gs| :: ShowsGroup(h, gs[i], vs[i], es, s)
  }

  /** Below the folder `f` the heap `h` shows the tree `t`, all of it in handles of `s`. */
  ghost predicate Shows(h: map<Ref, Item>, f: Ref, t: Tree, s: set<Ref>)
    decreases t
  {
    && f in s && f in h && h[f].Folder? && h[f].name == t.name
    && ShowsPersons(h, h[f].persons, t.persons, s)
    && ShowsGroups(h, h[f].groups, t.groups, AllEmails(h, h[f].persons), s)
    && ShowsAll(h, h[f].folders, t.folders, s)
  }

  ghost predicate ShowsAll(h: map<Ref, Item>, fs: seq<Ref>, ts: seq<Tree>, s: set<Ref>)
    decreases ts
  {
    |fs| == |ts| && forall i | 0 <= i < |ts| :: Shows(h, fs[i], ts[i], s)
  }

  /** The parts of what `f` shows do not include `f` itself. */
  ghost predicate ShowsOutside(h: map<Ref, Item>, f: Ref, t: Tree, s: set<Ref>)
    requires f in h && h[f].Folder?
  {
    && ShowsPersons(h, h[f].persons, t.persons, s - {f})
    && ShowsGroups(h, h[f].groups, t.groups, AllEmails(h, h[f].persons), s - {f})
    && ShowsAll(h, h[f].folders, t.folders, s - {f})
  }

  // ---------- frames ----------

  ghost predicate SameOn(h: map<Ref, Item>, k: map<Ref, Item>, s: set<Ref>) {
    forall r {:trigger k[r]} {:trigger r in s} | r in s && r in h :: r in k && k[r] == h[r]
  }

  lemma ShowsPersonsFrame(h: map<Ref, Item>, k: map<Ref, Item>, ps: seq<Ref>, vs: seq<PersonVal>, s: set<Ref>,
      s': set<Ref>)
    requires ShowsPersons(h, ps, vs, s) && SameOn(h, k, s) && s <= s'
    ensures ShowsPersons(k, ps, vs, s')
  {
    forall i | 0 <= i < |ps|
      ensures ShowsPerson(k, ps[i], vs[i], s')
    {
      assert ShowsPerson(h, ps[i], vs[i], s);
      forall j | 0 <= j < |vs[i].emails|
        ensures ShowsEmail(k, h[ps[i]].emails[j], vs[i].emails[j], s')
      {
        assert ShowsEmail(h, h[ps[i]].emails[j], vs[i].emails[j], s);
      }
    }
  }

  lemma {:induction false} AllEmailsFrame(h: map<Ref, Item>, k: map<Ref, Item>, ps: seq<Ref>)
    requires forall p | p in ps && p in h :: p in k && k[p] == h[p]
    requires forall p | p in ps :: p in h
    ensures AllEmails(k, ps) == AllEmails(h, ps)
  {
    if ps != [] {
      AllEmailsFrame(h, k, ps[1..]);
    }
  }

  lemma ShowsGroupsFrame(h: map<Ref, Item>, k: map<Ref, Item>, gs: seq<Ref>, vs: seq<GroupVal>, es: seq<Ref>,
                         s: set<Ref>, s': set<Ref>)
    requires ShowsGroups(h, gs, vs, es, s) && SameOn(h, k, s) && s <= s'
    ensures ShowsGroups(k, gs, vs, es, s')
  {
    forall i | 0 <= i < |gs|
      ensures ShowsGroup(k, gs[i], vs[i], es, s')
    {
      assert ShowsGroup(h, gs[i], vs[i], es, s);
    }
  }

  /** A tree is shown for as long as nothing in its handles changes. */
  lemma {:induction false} ShowsFrame(h: map<Ref, Item>, k: map<Ref, Item>, f: Ref, t: Tree, s: set<Ref>, s': set<Ref>)
    requires Shows(h, f, t, s) && SameOn(h, k, s) && s <= s'
    ensures Shows(k, f, t, s')
    decreases t
  {
    assert k[f] == h[f];
    ShowsPersonsFrame(h, k, h[f].persons, t.persons, s, s');
    PersonsInside(h, h[f].persons, t.persons, s);
    AllEmailsFrame(h, k, h[f].persons);
    ShowsGroupsFrame(h, k, h[f].groups, t.groups, AllEmails(h, h[f].persons), s, s');
    ShowsAllFrame(h, k, h[f].folders, t.folders, s, s');
  }

  lemma PersonsInside(h: map<Ref, Item>, ps: seq<Ref>, vs: seq<PersonVal>, s: set<Ref>)
    requires ShowsPersons(h, ps, vs, s)
    ensures forall p | p in ps :: p in s && p in h && h[p].Person?
  {
    forall i | 0 <= i < |ps|
      ensures ps[i] in s && ps[i] in h && h[ps[i]].Person?
    {
      assert ShowsPerson(h, ps[i], vs[i], s);
    }
  }

  lemma {:induction false} ShowsAllFrame(h: map<Ref, Item>, k: map<Ref, Item>, fs: seq<Ref>, ts: seq<Tree>,
      s: set<Ref>, s': set<Ref>)
    requires ShowsAll(h, fs, ts, s) && SameOn(h, k, s) && s <= s'
    ensures ShowsAll(k, fs, ts, s')
    decreases ts
  {
    forall i | 0 <= i < |ts|
      ensures Shows(k, fs[i], ts[i], s')
    {
      ShowsFrame(h, k, fs[i], ts[i], s, s');
    }
  }

  // ---------- every folder of a cache shows a tree ----------

  lemma ShowsPersonsExist(c: Cache, ps: seq<Ref>, s: set<Ref>) returns (vs: seq<PersonVal>)
    requires Inv(c)
    requires forall p | p in ps :: IsPerson(c, p) && p in s && forall e | e in c.heap[p].emails :: e in s
    ensures ShowsPersons(c.heap, ps, vs, s)
  {
    vs := [];
    for i := 0 to |ps|
      invariant |vs| == i && forall j | 0 <= j < i :: ShowsPerson(c.heap, ps[j], vs[j], s)
    {
      assert ps[i] in ps;
      var p := c.heap[ps[i]];
      assert PersonOk(c, ps[i]);
      var es := [];
      for j := 0 to |p.emails|
        invariant |es| == j && forall k | 0 <= k < j :: ShowsEmail(c.heap, p.emails[k], es[k], s)
      {
        var e := c.heap[p.emails[j]];
        es := es + [EmailVal(e.name, e.address, e.remarks)];
      }
      vs := vs + [PersonVal(p.name, p.firstName, p.lastName, p.nickName, es, AttribVals(p.attribs))];
    }
  }

  lemma ShowsGroupsExist(c: Cache, gs: seq<Ref>, es: seq<Ref>, s: set<Ref>) returns (vs: seq<GroupVal>)
    requires forall g | g in gs :: IsGroup(c, g) && g in s
    ensures ShowsGroups(c.heap, gs, vs, es, s)
  {
    vs := [];
    for i := 0 to |gs|
      invariant |vs| == i && forall j | 0 <= j < i :: ShowsGroup(c.heap, gs[j], vs[j], es, s)
    {
      assert gs[i] in gs;
      var g := c.heap[gs[i]];
      vs := vs + [GroupVal(g.name, g.remarks, Positions(es, g.members))];
    }
  }

  /** In a cache in agreement the part below any folder is a finite tree. */
  /** What lies in a folder lies in its subtree. */
  lemma FolderInside(c: Cache, f: Ref)
    requires Inv(c) && IsFolder(c, f)
    ensures f in Sub(c, f)
    ensures forall p | p in c.heap[f].persons :: p in Sub(c, f) && IsPerson(c, p)
    ensures forall p, e | p in c.heap[f].persons && IsPerson(c, p) && e in c.heap[p].emails :: e in Sub(c, f)
    ensures forall g | g in c.heap[f].groups :: g in Sub(c, f) && IsGroup(c, g)
    ensures forall k | k in c.heap[f].folders :: k in Sub(c, f) && IsFolder(c, k) && c.heap[k].parent == Some(f)
  {
    var s := Sub(c, f);
    ReachesRefl(c.heap, f);
    assert ListOk(c.heap, f, FolderKind) && ListOk(c.heap, f, PersonKind) && ListOk(c.heap, f, GroupKind);
    forall r | r in c.heap && c.heap[r].parent.Some? && c.heap[r].parent.value in s
      ensures r in s
    {
      ReachesStep(c.heap, f, r);
    }
    forall p | p in c.heap[f].persons
      ensures p in s && IsPerson(c, p) && forall e | e in c.heap[p].emails :: e in s
    {
      assert p in ListOf(c.heap[f], PersonKind);
      assert PersonOk(c, p);
    }
    assert forall g | g in c.heap[f].groups :: g in ListOf(c.heap[f], GroupKind);
    assert forall k | k in c.heap[f].folders :: k in ListOf(c.heap[f], FolderKind);
  }

  lemma ShowsExists(c: Cache, f: Ref) returns (t: Tree)
    requires Inv(c) && IsFolder(c, f)
    ensures Shows(c.heap, f, t, Sub(c, f))
    decreases Sub(c, f)
  {
    hide Inv, AllEmails;
    var s := Sub(c, f);
    FolderInside(c, f);
    var vs := ShowsPersonsExist(c, c.heap[f].persons, s);
    var gs := ShowsGroupsExist(c, c.heap[f].groups, AllEmails(c.heap, c.heap[f].persons), s);
    var ts: seq<Tree> := [];
    var fs := c.heap[f].folders;
    for i := 0 to |fs|
      invariant |ts| == i && forall j | 0 <= j < i :: Shows(c.heap, fs[j], ts[j], s)
    {
      assert fs[i] in fs && IsFolder(c, fs[i]);
      SubShrinks(c, f, fs[i]);
      var u := ShowsExists(c, fs[i]);
      ShowsFrame(c.heap, c.heap, fs[i], u, Sub(c, fs[i]), s);
      ts := ts + [u];
    }
    t := Tree(c.heap[f].name, vs, gs, ts);
  }

  // ---------- what a copy keeps ----------

  function SomeOnly(s: seq<Option<nat>>): seq<Option<nat>> {
    if s == [] then [] else (if s[0].Some? then [s[0]] else []) + SomeOnly(s[1..])
  }

  /** The group with only the members whose person lies in the same folder. */
  function LocalGroup(v: GroupVal): GroupVal { v.(members := SomeOnly(v.members)) }

  function LocalGroups(vs: seq<GroupVal>): (r: seq<GroupVal>)
    ensures |r| == |vs| && forall i | 0 <= i < |vs| :: r[i] == LocalGroup(vs[i])
  {
    if vs == [] then [] else [LocalGroup(vs[0])] + LocalGroups(vs[1..])
  }

  /** The tree that a copy of `t` shows. */
  function Local(t: Tree): Tree
    decreases t
  {
    Tree(t.name, t.persons, LocalGroups(t.groups), LocalAll(t.folders))
  }

  function LocalAll(ts: seq<Tree>): (r: seq<Tree>)
    ensures |r| == |ts| && forall i | 0 <= i < |ts| :: r[i] == Local(ts[i])
    decreases ts
  {
    if ts == [] then [] else [Local(ts[0])] + LocalAll(ts[1..])
  }
}
