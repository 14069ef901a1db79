/** Replacing a person's email addresses: `addrbook_update_address_list`
    (src/addrbook.c:1391-1542).  Groups are to follow from the old addresses to the new. */
module AddrRelink {
  import opened Items
  import opened CacheState
  import opened CachePrune
  import opened CacheEdit
  import opened AddrCache

  // ---------- what is documented ----------

  /** The first new email with this address, compared in lower case.  `lower` is
      `g_utf8_strdown`. */
  function FirstByAddress(h: map<Ref, Item>, es: seq<Ref>, lower: string -> string, a: string): Option<Ref>
    requires AreEmails(h, es)
  {
    if es == [] then None
    else if lower(h[es[0]].address) == a then Some(es[0])
    else FirstByAddress(h, es[1..], lower, a)
  }

  function FirstByAlias(h: map<Ref, Item>, es: seq<Ref>, a: string): Option<Ref>
    requires AreEmails(h, es)
  {
    if es == [] then None
    else if h[es[0]].name == a then Some(es[0])
    else FirstByAlias(h, es[1..], a)
  }

  predicate AreEmails(h: map<Ref, Item>, es: seq<Ref>) {
    forall e | e in es :: e in h && h[e].EMail?
  }

  /** The distinct addresses among the new emails. */
  function Addresses(h: map<Ref, Item>, es: seq<Ref>, lower: string -> string): set<string>
    requires AreEmails(h, es)
  {
    set e | e in es :: lower(h[e].address)
  }

  /** Which new email takes the place of an old one in a group. */
  function Successor(h: map<Ref, Item>, es: seq<Ref>, lower: string -> string, e: Ref): Option<Ref>
    requires AreEmails(h, es) && e in h && h[e].EMail?
  {
    var byAddress := FirstByAddress(h, es, lower, lower(h[e].address));
    var byAlias := if h[e].name == "" then None else FirstByAlias(h, es, h[e].name);
    if byAddress.Some? then byAddress
    else if byAlias.Some? then byAlias
    else if |Addresses(h, es, lower)| == 1 then Some(es[0])
    else None
  }

  predicate Mine(h: map<Ref, Item>, p: Ref, e: Ref) {
    e in h && h[e].EMail? && h[e].parent == Some(p)
  }

  /** A group's members with each of the person's emails replaced in place, or left out. */
  function Slots(h: map<Ref, Item>, p: Ref, es: seq<Ref>, lower: string -> string, ms: seq<Ref>): seq<Ref>
    requires AreEmails(h, es)
  {
    if ms == [] then []
    else
      var rest := Slots(h, p, es, lower, ms[1..]);
      if !Mine(h, p, ms[0]) then [ms[0]] + rest
      else match Successor(h, es, lower, ms[0]) case Some(e) => [e] + rest case None => rest
  }

  /** What the lookups mean: the first in the list, or none at all. */
  lemma {:induction false} FirstByAddressMeans(h: map<Ref, Item>, es: seq<Ref>, lower: string -> string, a: string)
    requires AreEmails(h, es)
    ensures match FirstByAddress(h, es, lower, a)
      case None => forall e | e in es :: lower(h[e].address) != a
      case Some(x) => exists i :: 0 <= i < |es| && es[i] == x && lower(h[es[i]].address) == a
                                  && forall j | 0 <= j < i :: lower(h[es[j]].address) != a
  {
    if es != [] && lower(h[es[0]].address) != a {
      FirstByAddressMeans(h, es[1..], lower, a);
      assert forall e | e in es :: e == es[0] || e in es[1..];
      var r := FirstByAddress(h, es[1..], lower, a);
      if r.Some? {
        var i :| 0 <= i < |es[1..]| && es[1..][i] == r.value
          && forall j | 0 <= j < i :: lower(h[es[1..][j]].address) != a;
        assert es[i + 1] == r.value;
        forall j | 0 <= j < i + 1
          ensures lower(h[es[j]].address) != a
        {
          assert j > 0 ==> es[j] == es[1..][j - 1];
        }
      }
    } else if es != [] {
      assert es[0] in es;
    }
  }

  lemma {:induction false} FirstByAliasMeans(h: map<Ref, Item>, es: seq<Ref>, a: string)
    requires AreEmails(h, es)
    ensures match FirstByAlias(h, es, a)
      case None => forall e | e in es :: h[e].name != a
      case Some(x) => exists i :: 0 <= i < |es| && es[i] == x && h[es[i]].name == a
                                  && forall j | 0 <= j < i :: h[es[j]].name != a
  {
    if es != [] && h[es[0]].name != a {
      FirstByAliasMeans(h, es[1..], a);
      assert forall e | e in es :: e == es[0] || e in es[1..];
      var r := FirstByAlias(h, es[1..], a);
      if r.Some? {
        var i :| 0 <= i < |es[1..]| && es[1..][i] == r.value && forall j | 0 <= j < i :: h[es[1..][j]].name != a;
        assert es[i + 1] == r.value;
        forall j | 0 <= j < i + 1
          ensures h[es[j]].name != a
        {
          assert j > 0 ==> es[j] == es[1..][j - 1];
        }
      }
    } else if es != [] {
      assert es[0] in es;
    }
  }

  lemma {:induction false} FirstByAddressAppend(h: map<Ref, Item>, es: seq<Ref>, x: Ref, lower: string -> string,
      a: string)
    requires AreEmails(h, es + [x]) && AreEmails(h, es)
    ensures FirstByAddress(h, es + [x], lower, a) ==
      if FirstByAddress(h, es, lower, a).Some? then FirstByAddress(h, es, lower, a)
      else if lower(h[x].address) == a then Some(x) else None
  {
    if es == [] {
      assert es + [x] == [x] && [x][1..] == [];
    } else {
      assert (es + [x])[1..] == es[1..] + [x];
      FirstByAddressAppend(h, es[1..], x, lower, a);
    }
  }

  lemma {:induction false} FirstByAliasAppend(h: map<Ref, Item>, es: seq<Ref>, x: Ref, a: string)
    requires AreEmails(h, es + [x]) && AreEmails(h, es)
    ensures FirstByAlias(h, es + [x], a) ==
      if FirstByAlias(h, es, a).Some? then FirstByAlias(h, es, a)
      else if h[x].name == a then Some(x) else None
  {
    if es == [] {
      assert es + [x] == [x] && [x][1..] == [];
    } else {
      assert (es + [x])[1..] == es[1..] + [x];
      FirstByAliasAppend(h, es[1..], x, a);
    }
  }

  // ---------- the two lookup tables ----------

  function EntryOf(m: map<string, Ref>, a: string): Option<Ref> {
    if a in m then Some(m[a]) else None
  }

  /** `hashEMail` and `hashEMailAlias`: a later address never replaces an earlier one. */
  method BuildTables(h: map<Ref, Item>, es: seq<Ref>, lower: string -> string)
    returns (hashEMail: map<string, Ref>, hashAlias: map<string, Ref>)
    requires AreEmails(h, es)
    ensures TablesFor(h, es, lower, hashEMail, hashAlias)
  {
    hashEMail, hashAlias := map[], map[];
    var i := 0;
    assert es[..0] == [];
    while i < |es|
      invariant 0 <= i <= |es| && AreEmails(h, es[..i])
      invariant forall a :: EntryOf(hashEMail, a) == FirstByAddress(h, es[..i], lower, a)
      invariant forall a | a != "" :: EntryOf(hashAlias, a) == FirstByAlias(h, es[..i], a)
      invariant hashEMail.Keys == Addresses(h, es[..i], lower)
    {
      var email := es[i];
      var alias := h[email].name;
      var addr := lower(h[email].address);
      assert es[..i + 1] == es[..i] + [email];
      ghost var m, n := hashEMail, hashAlias;
      if addr !in hashEMail {
        hashEMail := hashEMail[addr := email];
      }
      if alias != "" && alias !in hashAlias {
        hashAlias := hashAlias[alias := email];
      }
      forall a
        ensures EntryOf(hashEMail, a) == FirstByAddress(h, es[..i + 1], lower, a)
        ensures a != "" ==> EntryOf(hashAlias, a) == FirstByAlias(h, es[..i + 1], a)
      {
        assert EntryOf(m, a) == FirstByAddress(h, es[..i], lower, a);
        assert a != "" ==> EntryOf(n, a) == FirstByAlias(h, es[..i], a);
        FirstByAddressAppend(h, es[..i], email, lower, a);
        FirstByAliasAppend(h, es[..i], email, a);
      }
      assert Addresses(h, es[..i + 1], lower) == Addresses(h, es[..i], lower) + {addr};
      i := i + 1;
    }
    assert es[..i] == es;
  }

  // ---------- one group, cell by cell ----------

  /** What the list nodes hold once the first loop has gone over them. */
  function Written(h: map<Ref, Item>, p: Ref, es: seq<Ref>, lower: string -> string, e: Ref): Ref
    requires AreEmails(h, es)
  {
    if Mine(h, p, e) && Successor(h, es, lower, e).Some? then Successor(h, es, lower, e).value else e
  }

  /** The member is to be dropped. */
  predicate Dropped(h: map<Ref, Item>, p: Ref, es: seq<Ref>, lower: string -> string, e: Ref)
    requires AreEmails(h, es)
  {
    Mine(h, p, e) && Successor(h, es, lower, e).None?
  }

  function WrittenAll(h: map<Ref, Item>, p: Ref, es: seq<Ref>, lower: string -> string, ms: seq<Ref>): (r: seq<Ref>)
    requires AreEmails(h, es)
    ensures |r| == |ms| && forall i | 0 <= i < |ms| :: r[i] == Written(h, p, es, lower, ms[i])
  {
    if ms == [] then [] else [Written(h, p, es, lower, ms[0])] + WrittenAll(h, p, es, lower, ms[1..])
  }

  /** Dropping the marked nodes from the rewritten list leaves the documented slots. */
  lemma {:induction false} SlotsAreWritten(h: map<Ref, Item>, p: Ref, es: seq<Ref>, lower: string -> string,
      ms: seq<Ref>, d: set<Ref>)
    requires AreEmails(h, es) && (forall e | e in es :: e !in d)
    requires forall e | e in ms :: e in d <==> Dropped(h, p, es, lower, e)
    ensures Slots(h, p, es, lower, ms) == Without(WrittenAll(h, p, es, lower, ms), d)
  {
    if ms != [] {
      SlotsAreWritten(h, p, es, lower, ms[1..], d);
      var w := WrittenAll(h, p, es, lower, ms);
      assert w[1..] == WrittenAll(h, p, es, lower, ms[1..]);
      assert ms[0] in ms;
      if Mine(h, p, ms[0]) && Successor(h, es, lower, ms[0]).Some? {
        SuccessorIsNew(h, es, lower, ms[0]);
      }
    }
  }

  lemma SomeAddress(h: map<Ref, Item>, es: seq<Ref>, lower: string -> string)
    requires AreEmails(h, es)
    ensures |Addresses(h, es, lower)| == 1 ==> es != []
  {
    assert es == [] ==> Addresses(h, es, lower) == {};
  }

  lemma SuccessorIsNew(h: map<Ref, Item>, es: seq<Ref>, lower: string -> string, e: Ref)
    requires AreEmails(h, es) && e in h && h[e].EMail?
    ensures Successor(h, es, lower, e).Some? ==> Successor(h, es, lower, e).value in es
  {
    FirstByAddressMeans(h, es, lower, lower(h[e].address));
    FirstByAliasMeans(h, es, h[e].name);
    SomeAddress(h, es, lower);
  }

  /** `x` stands in `s` at most once. */
  ghost predicate Once(s: seq<Ref>, x: Ref) {
    forall i, j :: 0 <= i < j < |s| && s[i] == x ==> s[j] != x
  }

  /** Where `x` stands at most once, removing the first removes it. */
  lemma {:induction false} RemoveOnce(s: seq<Ref>, d: set<Ref>, x: Ref)
    requires Once(s, x)
    ensures RemoveFirst(Without(s, d), x) == Without(s, d + {x})
  {
    if s != [] {
      RemoveOnce(s[1..], d, x);
      var w := Without(s[1..], d);
      if s[0] == x && x !in d {
        assert x !in s[1..];
        WithoutTwice(s[1..], d, {x});
        WithoutDisjoint(w, {x});
        assert ([x] + w)[1..] == w;
      } else if s[0] !in d {
        assert ([s[0]] + w)[1..] == w;
      }
    }
  }

  ghost predicate TablesFor(h: map<Ref, Item>, es: seq<Ref>, lower: string -> string, hashEMail: map<string, Ref>,
      hashAlias: map<string, Ref>)
    requires AreEmails(h, es)
  {
    && (forall a :: EntryOf(hashEMail, a) == FirstByAddress(h, es, lower, a))
    && (forall a | a != "" :: EntryOf(hashAlias, a) == FirstByAlias(h, es, a))
    && hashEMail.Keys == Addresses(h, es, lower)
  }

  lemma DroppedValue(h: map<Ref, Item>, p: Ref, es: seq<Ref>, lower: string -> string, ms: seq<Ref>, x: Ref)
    requires AreEmails(h, es) && NoDup(ms) && (forall e | e in es :: e !in ms) && x in ms && Dropped(h, p, es, lower, x)
    ensures var w := WrittenAll(h, p, es, lower, ms);
      && Once(w, x)
      && (forall i | 0 <= i < |w| :: w[i] == x <==> ms[i] == x)
  {
    var w := WrittenAll(h, p, es, lower, ms);
    forall i | 0 <= i < |w|
      ensures w[i] == x <==> ms[i] == x
    {
      if Mine(h, p, ms[i]) {
        SuccessorIsNew(h, es, lower, ms[i]);
      }
    }
  }

  lemma FirstKept(s: seq<Ref>, d: set<Ref>)
    requires s != [] && s[0] !in d
    ensures Without(s, d) != [] && Without(s, d)[0] == s[0]
  {
  }

  /** The second inner loop: each marked email is taken off the local list.  The first node of
      that list is the one to which `group->listEMail` points, until it is freed. */
  method RemoveMarked(data: seq<Ref>, listRemove: seq<Ref>) returns (groupEMail: seq<Ref>, headFreed: bool)
    requires forall x | x in listRemove :: Once(data, x)
    ensures groupEMail == Without(data, Elems(listRemove))
    ensures headFreed <==> data != [] && data[0] in listRemove
  {
    groupEMail, headFreed := data, false;
    var i := 0;
    assert Elems(listRemove[..0]) == {};
    WithoutDisjoint(data, {});
    while i < |listRemove|
      invariant 0 <= i <= |listRemove|
      invariant groupEMail == Without(data, Elems(listRemove[..i]))
      invariant headFreed <==> data != [] && data[0] in listRemove[..i]
    {
      var x := listRemove[i];
      assert listRemove[..i + 1] == listRemove[..i] + [x];
      assert Elems(listRemove[..i + 1]) == Elems(listRemove[..i]) + {x};
      RemoveOnce(data, Elems(listRemove[..i]), x);
      if !headFreed && data != [] {
        FirstKept(data, Elems(listRemove[..i]));
      }
      if !headFreed && groupEMail != [] && groupEMail[0] == x {
        headFreed := true;
      }
      groupEMail := RemoveFirst(groupEMail, x);
      i := i + 1;
    }
    assert listRemove[..i] == listRemove;
  }

  /** The successor of an email as the tables give it. */
  lemma SuccessorIs(h: map<Ref, Item>, es: seq<Ref>, lower: string -> string, hashEMail: map<string, Ref>,
      hashAlias: map<string, Ref>, e: Ref)
    requires AreEmails(h, es) && TablesFor(h, es, lower, hashEMail, hashAlias) && e in h && h[e].EMail?
    ensures |hashEMail.Keys| == 1 ==> es != []
    ensures var x := EntryOf(hashEMail, lower(h[e].address));
      var y := if x.None? && h[e].name != "" then EntryOf(hashAlias, h[e].name) else x;
      Successor(h, es, lower, e) == if y.Some? then y else if |hashEMail.Keys| == 1 then Some(es[0]) else None
  {
    if |hashEMail.Keys| == 1 {
      SomeAddress(h, es, lower);
    }
  }

  /** The first inner loop: the nodes rewritten in place, and the emails to be dropped. */
  method RewriteNodes(h: map<Ref, Item>, p: Ref, es: seq<Ref>, lower: string -> string, hashEMail: map<string, Ref>,
                      hashAlias: map<string, Ref>, listEMail: seq<Ref>)
    returns (data: seq<Ref>, listRemove: seq<Ref>)
    requires AreEmails(h, es) && AreEmails(h, listEMail)
    requires TablesFor(h, es, lower, hashEMail, hashAlias)
    ensures data == WrittenAll(h, p, es, lower, listEMail)
    ensures forall x :: x in listRemove <==> x in listEMail && Dropped(h, p, es, lower, x)
  {
    data, listRemove := listEMail, [];
    var i := 0;
    while i < |listEMail|
      invariant 0 <= i <= |listEMail| == |data|
      invariant forall j | 0 <= j < i :: data[j] == Written(h, p, es, lower, listEMail[j])
      invariant forall j | i <= j < |listEMail| :: data[j] == listEMail[j]
      invariant forall x :: x in listRemove <==> x in listEMail[..i] && Dropped(h, p, es, lower, x)
    {
      var emailGrp := data[i];
      TakeMore(listEMail, i);
      assert emailGrp in listEMail;
      SuccessorIs(h, es, lower, hashEMail, hashAlias, emailGrp);
      if h[emailGrp].parent == Some(p) {
        var alias := h[emailGrp].name;
        var addr := lower(h[emailGrp].address);
        var emailNew := EntryOf(hashEMail, addr);
        if emailNew.None? && alias != "" {
          emailNew := EntryOf(hashAlias, alias);
        }
        if emailNew.Some? {
          data := data[i := emailNew.value];
        } else if |hashEMail.Keys| == 1 {
          data := data[i := es[0]];
        } else {
          listRemove := listRemove + [emailGrp];
        }
      }
      i := i + 1;
    }
    assert listEMail[..i] == listEMail;
    assert data == WrittenAll(h, p, es, lower, listEMail);
  }

  /** The loop body for one group, on its local list.  The second result says that the node to
      which `group->listEMail` still points, the first, has been freed. */
  method RelinkGroup(h: map<Ref, Item>, p: Ref, es: seq<Ref>, lower: string -> string, hashEMail: map<string, Ref>,
                     hashAlias: map<string, Ref>, listEMail: seq<Ref>)
    returns (list: seq<Ref>, headFreed: bool)
    requires AreEmails(h, es) && AreEmails(h, listEMail) && NoDup(listEMail) && (forall e | e in es :: e !in listEMail)
    requires TablesFor(h, es, lower, hashEMail, hashAlias)
    ensures list == Slots(h, p, es, lower, listEMail)
    ensures headFreed <==> listEMail != [] && Dropped(h, p, es, lower, listEMail[0])
  {
    hide TablesFor, NoDup, Dropped;
    var data, listRemove := RewriteNodes(h, p, es, lower, hashEMail, hashAlias, listEMail);
    forall x | x in listRemove
      ensures Once(data, x)
    {
      DroppedValue(h, p, es, lower, listEMail, x);
    }
    SlotsAreWritten(h, p, es, lower, listEMail, Elems(listRemove));
    list, headFreed := RemoveMarked(data, listRemove);
    if data != [] {
      HeadDropped(h, p, es, lower, listEMail, listRemove);
    }
  }

  lemma HeadDropped(h: map<Ref, Item>, p: Ref, es: seq<Ref>, lower: string -> string, ms: seq<Ref>, d: seq<Ref>)
    requires AreEmails(h, es) && ms != [] && (forall e | e in es :: e !in ms)
    requires forall x :: x in d <==> x in ms && Dropped(h, p, es, lower, x)
    ensures Written(h, p, es, lower, ms[0]) in d <==> Dropped(h, p, es, lower, ms[0])
  {
    assert ms[0] in ms;
    if Mine(h, p, ms[0]) {
      SuccessorIsNew(h, es, lower, ms[0]);
    }
  }

  // ---------- all groups ----------

  function Relinked(h: map<Ref, Item>, p: Ref, es: seq<Ref>, lower: string -> string): map<Ref, Item>
    requires AreEmails(h, es)
  {
    map z | z in h :: if h[z].Group? then h[z].(members := Slots(h, p, es, lower, h[z].members)) else h[z]
  }

  /** No group's first member is to be dropped. */
  ghost predicate HeadsKept(h: map<Ref, Item>, p: Ref, es: seq<Ref>, lower: string -> string)
    requires AreEmails(h, es)
  {
    forall g | g in h && h[g].Group? && h[g].members != [] :: !Dropped(h, p, es, lower, h[g].members[0])
  }

  lemma {:induction false} SlotsNone(h: map<Ref, Item>, p: Ref, es: seq<Ref>, lower: string -> string, ms: seq<Ref>)
    requires AreEmails(h, es) && forall e | e in ms :: !Mine(h, p, e)
    ensures Slots(h, p, es, lower, ms) == ms
  {
    if ms != [] {
      assert ms[0] in ms;
      SlotsNone(h, p, es, lower, ms[1..]);
    }
  }

  ghost predicate HeadsKeptIn(h: map<Ref, Item>, p: Ref, es: seq<Ref>, lower: string -> string, gs: seq<Ref>)
    requires AreEmails(h, es)
  {
    forall g | g in gs && g in h && h[g].Group? && h[g].members != [] :: !Dropped(h, p, es, lower, h[g].members[0])
  }

  lemma HeadsKeptStep(h: map<Ref, Item>, p: Ref, es: seq<Ref>, lower: string -> string, gs: seq<Ref>, g: Ref)
    requires AreEmails(h, es) && g in h && h[g].Group?
    ensures HeadsKeptIn(h, p, es, lower, gs + [g]) <==>
      HeadsKeptIn(h, p, es, lower, gs) && (h[g].members != [] ==> !Dropped(h, p, es, lower, h[g].members[0]))
  {
    var s := gs + [g];
    assert g in s && forall x | x in gs :: x in s;
  }

  /** The relinking when only the groups of `gs` have been done. */
  function RelinkedIn(h: map<Ref, Item>, p: Ref, es: seq<Ref>, lower: string -> string, gs: seq<Ref>): map<Ref, Item>
    requires AreEmails(h, es)
  {
    map z | z in h :: if h[z].Group? && z in gs then h[z].(members := Slots(h, p, es, lower, h[z].members)) else h[z]
  }

  lemma NoGroupsYet(h: map<Ref, Item>, p: Ref, es: seq<Ref>, lower: string -> string)
    requires AreEmails(h, es)
    ensures RelinkedIn(h, p, es, lower, []) == h && HeadsKeptIn(h, p, es, lower, [])
  {
  }

  lemma AllGroupsDone(c: Cache, p: Ref, es: seq<Ref>, lower: string -> string, gs: seq<Ref>)
    requires Inv(c) && (forall e | e in es :: Pending(c, e))
    requires forall g :: g in gs <==> IsGroup(c, g) && RefersTo(c.heap, g, p)
    ensures AreEmails(c.heap, es)
    ensures HeadsKeptIn(c.heap, p, es, lower, gs) <==> HeadsKept(c.heap, p, es, lower)
    ensures RelinkedIn(c.heap, p, es, lower, gs) == Relinked(c.heap, p, es, lower)
  {
    forall g | IsGroup(c, g) && g !in gs
      ensures Slots(c.heap, p, es, lower, c.heap[g].members) == c.heap[g].members
      ensures c.heap[g].members != [] ==> !Dropped(c.heap, p, es, lower, c.heap[g].members[0])
    {
      GroupReady(c, p, es, lower, g);
      assert c.heap[g].members != [] ==> c.heap[g].members[0] in c.heap[g].members;
    }
  }

  /** What the loop over groups needs of one group. */
  lemma GroupReady(c: Cache, p: Ref, es: seq<Ref>, lower: string -> string, g: Ref)
    requires Inv(c) && IsGroup(c, g) && (forall e | e in es :: Pending(c, e))
    ensures AreEmails(c.heap, es) && AreEmails(c.heap, c.heap[g].members) && NoDup(c.heap[g].members)
    ensures forall e | e in es :: e !in c.heap[g].members
    ensures !RefersTo(c.heap, g, p) ==>
      Slots(c.heap, p, es, lower, c.heap[g].members) == c.heap[g].members
        && forall e | e in c.heap[g].members :: !Mine(c.heap, p, e)
  {
    assert GroupOk(c, g);
    if !RefersTo(c.heap, g, p) {
      forall e | e in c.heap[g].members
        ensures !Mine(c.heap, p, e)
      {
        var i :| 0 <= i < |c.heap[g].members| && c.heap[g].members[i] == e;
        assert c.heap[g].members[i] in c.heap;
      }
      SlotsNone(c.heap, p, es, lower, c.heap[g].members);
    }
  }

  lemma RelinkStep(h: map<Ref, Item>, p: Ref, es: seq<Ref>, lower: string -> string, gs: seq<Ref>, g: Ref)
    requires AreEmails(h, es) && g in h && h[g].Group?
    ensures HeadsKeptIn(h, p, es, lower, gs + [g]) <==>
      HeadsKeptIn(h, p, es, lower, gs) && (h[g].members != [] ==> !Dropped(h, p, es, lower, h[g].members[0]))
    ensures RelinkedIn(h, p, es, lower, gs + [g]) ==
      RelinkedIn(h, p, es, lower, gs)[g := h[g].(members := Slots(h, p, es, lower, h[g].members))]
    ensures RelinkedIn(h, p, es, lower, gs).Keys == h.Keys
  {
    HeadsKeptStep(h, p, es, lower, gs, g);
  }

  /** One group's list, relinked. */
  method RelinkOne(items: map<Ref, Item>, ghost c: Cache, p: Ref, es: seq<Ref>, lower: string -> string,
      hashEMail: map<string, Ref>,
                   hashAlias: map<string, Ref>, group: Ref)
    returns (list: seq<Ref>, headFreed: bool)
    requires Inv(c) && items == c.heap && (forall e | e in es :: Pending(c, e)) && AreEmails(items, es)
    requires TablesFor(items, es, lower, hashEMail, hashAlias) && IsGroup(c, group)
    ensures AreEmails(items, items[group].members) && list == Slots(items, p, es, lower, items[group].members)
    ensures headFreed <==> items[group].members != [] && Dropped(items, p, es, lower, items[group].members[0])
  {
    hide Inv, TablesFor, NoDup, Dropped, RefersTo, Slots, Pending, Mine;
    GroupReady(c, p, es, lower, group);
    list, headFreed := RelinkGroup(items, p, es, lower, hashEMail, hashAlias, items[group].members);
  }

  /** The loop over the groups found, once the two tables stand. */
  method RelinkListed(cache: AddressCache, ghost c: Cache, p: Ref, es: seq<Ref>, lower: string -> string,
      hashEMail: map<string, Ref>,
                      hashAlias: map<string, Ref>, listGroup: seq<Ref>)
    returns (ok: bool)
    requires Inv(c) && c.heap == cache.heap && (forall e | e in es :: Pending(c, e)) && AreEmails(c.heap, es)
    requires TablesFor(c.heap, es, lower, hashEMail, hashAlias) && forall g | g in listGroup :: IsGroup(c, g)
    modifies cache`heap
    ensures ok <==> HeadsKeptIn(c.heap, p, es, lower, listGroup)
    ensures ok ==> cache.heap == RelinkedIn(c.heap, p, es, lower, listGroup)
  {
    hide Inv, AreEmails, TablesFor, Dropped, Slots, HeadsKeptIn, RelinkedIn, Pending;
    var items := cache.heap;
    ok := true;
    assert listGroup[..0] == [];
    NoGroupsYet(items, p, es, lower);
    var i := 0;
    while i < |listGroup|
      invariant 0 <= i <= |listGroup|
      invariant ok <==> HeadsKeptIn(items, p, es, lower, listGroup[..i])
      invariant ok ==> cache.heap == RelinkedIn(items, p, es, lower, listGroup[..i])
    {
      var group := listGroup[i];
      assert group in listGroup;
      assert group in items && items[group].Group?;
      var list, headFreed := RelinkOne(items, c, p, es, lower, hashEMail, hashAlias, group);
      RelinkStep(items, p, es, lower, listGroup[..i], group);
      TakeMore(listGroup, i);
      if headFreed {
        ok := false;
      } else if ok {
        var item := items[group];
        cache.heap := cache.heap[group := item.(members := list)];
      }
      i := i + 1;
    }
    assert listGroup[..i] == listGroup;
  }

  /** `listGroup` and the loop over it.  The loop writes only the groups' own lists, so each
      group's emails are read as they were before. */
  method RelinkGroups(cache: AddressCache, p: Ref, es: seq<Ref>, lower: string -> string) returns (ok: bool)
    requires Inv(cache.View()) && IsPerson(cache.View(), p) && (forall e | e in es :: Pending(cache.View(), e))
    modifies cache`heap
    ensures AreEmails(old(cache.heap), es)
    ensures ok <==> HeadsKept(old(cache.heap), p, es, lower)
    ensures ok ==> cache.heap == Relinked(old(cache.heap), p, es, lower)
  {
    ghost var c := cache.View();
    var listGroup := cache.GetGroupForPerson(p);
    hide Inv, AreEmails, TablesFor, NoDup, RefersTo, HeadsKept, HeadsKeptIn, Relinked, RelinkedIn, Pending;
    var hashEMail, hashAlias := BuildTables(cache.heap, es, lower);
    ok := RelinkListed(cache, c, p, es, lower, hashEMail, hashAlias, listGroup);
    AllGroupsDone(c, p, es, lower, listGroup);
  }

  // ---------- agreement apart from the groups' members ----------

  /** The cache with every group emptied: while addresses are replaced, groups already refer to
      emails that the person does not hold yet, and only the rest is in agreement. */
  function Bare(c: Cache): Cache {
    c.(heap := BareHeap(c.heap))
  }

  function BareHeap(h: map<Ref, Item>): map<Ref, Item> {
    map z | z in h :: if h[z].Group? then h[z].(members := []) else h[z]
  }

  lemma BareInv(c: Cache)
    requires Inv(c)
    ensures Inv(Bare(c))
  {
    var b := Bare(c);
    ForestFrame(c, b);
    EmailFrame(c, b);
    FreshFrame(c, b);
    RootedAfter(c, b);
    forall g | IsGroup(b, g)
      ensures GroupOk(b, g)
    {
    }
  }

  lemma BareRooted(c: Cache)
    requires RootedOk(Bare(c))
    ensures RootedOk(c)
  {
    var b := Bare(c);
    forall r | r in c.heap && c.heap[r].parent.Some?
      ensures Reaches(c.heap, c.root, r)
    {
      assert Reaches(b.heap, b.root, r);
      var n: nat :| Climb(b.heap, r, n) == Some(b.root);
      BareClimb(c.heap, r, n);
      assert Climb(c.heap, r, n) == Some(c.root);
    }
  }

  lemma {:induction false} BareClimb(h: map<Ref, Item>, r: Ref, n: nat)
    ensures Climb(BareHeap(h), r, n) == Climb(h, r, n)
    decreases n
  {
    if n > 0 && r in h && h[r].parent.Some? {
      BareClimb(h, h[r].parent.value, n - 1);
    }
  }

  /** What is missing to full agreement. */
  lemma UnbareInv(c: Cache)
    requires Inv(Bare(c))
    ensures Inv(c) <==> GroupsOk(c)
  {
    hide RootOk, HashedOk, ListsOk, PlacedOk, PersonsOk, EmailsOk, UidsOk, GroupsOk, RootedOk, FreshOk;
    if GroupsOk(c) {
      var b := Bare(c);
      ForestFrame(b, c);
      EmailFrame(b, c);
      FreshFrame(b, c);
      BareRooted(c);
    }
  }

  // ---------- the old addresses ----------

  /** No group refers to an email of the person. */
  ghost predicate Unreferenced(h: map<Ref, Item>, p: Ref) {
    forall g, e | g in h && h[g].Group? && e in h[g].members :: !Mine(h, p, e)
  }

  /** The emails `es` taken from the person. */
  function Emptied(h: map<Ref, Item>, p: Ref, es: seq<Ref>, left: seq<Ref>): map<Ref, Item>
    requires p in h && h[p].Person?
  {
    map z | z in h ::
      if z == p then h[p].(emails := left)
      else if z in es then WithParent(h[z], None)
      else h[z]
  }

  lemma {:induction false} NotThere(ms: seq<Ref>, e: Ref)
    requires e !in ms
    ensures RemoveFirst(ms, e) == ms
  {
    if ms != [] {
      NotThere(ms[1..], e);
    }
  }

  /** What is taken off the person's list leaves the groups as they are. */
  lemma NothingToDrop(c: Cache, p: Ref, e: Ref)
    requires IsPerson(c, p) && Unreferenced(c.heap, p) && Mine(c.heap, p, e) && c.heap[p].emails != []
      && c.heap[p].emails[0] == e && e != p
    ensures var t := TakenFrom(c.heap, p, e);
      && t == c.heap[p := c.heap[p].(emails := c.heap[p].emails[1..])][e := WithParent(c.heap[e], None)]
      && GroupsDrop(t, e) == t && Unreferenced(t, p)
        && GroupsWithout(TakenFrom(BareHeap(c.heap), p, e), {e}) == BareHeap(t)
  {
    var t := TakenFrom(c.heap, p, e);
    forall g | g in t && t[g].Group?
      ensures RemoveFirst(t[g].members, e) == t[g].members
    {
      NotThere(c.heap[g].members, e);
    }
    assert GroupsDrop(t, e) == t;
    assert GroupsWithout(TakenFrom(BareHeap(c.heap), p, e), {e}) == BareHeap(t);
    forall g, x | g in t && t[g].Group? && x in t[g].members
      ensures !Mine(t, p, x)
    {
      assert x in c.heap[g].members && !Mine(c.heap, p, x);
    }
  }

  /** One turn of the loop over the person's list, on which groups have no claim any more. */
  lemma OldStep(c: Cache, p: Ref)
    requires Inv(Bare(c)) && IsPerson(c, p) && c.heap[p].emails != [] && Unreferenced(c.heap, p)
    ensures var e := c.heap[p].emails[0];
      && e in c.heap && c.heap[e].EMail? && e != p && GroupsHashed(c.heap, c.hash)
      && GroupsDrop(TakenFrom(c.heap, p, e), e) ==
        c.heap[p := c.heap[p].(emails := c.heap[p].emails[1..])][e := WithParent(c.heap[e], None)]
      && WithoutEMail(c.heap, c.hash, c.heap[e].uid) == c.hash - {c.heap[e].uid}
      && var c' := Cache(GroupsDrop(TakenFrom(c.heap, p, e), e), c.hash - {c.heap[e].uid}, c.root, c.nextId, c.top,
        true);
      && Inv(Bare(c')) && Unreferenced(c'.heap, p)
  {
    hide Inv, Prune, GroupsDrop, Unreferenced, GroupsFound, GroupsHashed, Detach;
    var b := Bare(c);
    var e := c.heap[p].emails[0];
    assert b.heap[p] == c.heap[p] && e in b.heap[p].emails;
    DetachFacts(b, p, e);
    DetachStep(b, p, e);
    BareHashed(c);
    assert Mine(c.heap, p, e);
    NothingToDrop(c, p, e);
    hide TakenFrom, BareHeap, Mine;
    var c' := Cache(GroupsDrop(TakenFrom(c.heap, p, e), e), c.hash - {c.heap[e].uid}, c.root, c.nextId, c.top, true);
    assert Bare(c') == Detach(b, e);
  }

  lemma BareHashed(c: Cache)
    requires Inv(Bare(c))
    ensures GroupsHashed(c.heap, c.hash)
  {
    var b := Bare(c);
    forall u | u in c.hash
      ensures c.hash[u] in c.heap && c.heap[c.hash[u]].uid == u
    {
      assert u in b.hash;
    }
    forall r | r in c.heap && c.heap[r].Group?
      ensures c.heap[r].uid in c.hash && c.hash[c.heap[r].uid] == r
    {
      assert b.heap[r].Group? && r != b.root;
    }
  }

  lemma EmptiedMore(h: map<Ref, Item>, p: Ref, es: seq<Ref>, i: nat)
    requires p in h && h[p].Person? && h[p].emails == es && i < |es| && p !in es && es[i] in h
    ensures var g := Emptied(h, p, es[..i], es[i..]);
      g[p := g[p].(emails := es[i..][1..])][es[i] := WithParent(g[es[i]], None)] ==
        Emptied(h, p, es[..i + 1], es[i + 1..])
  {
    assert es[..i + 1] == es[..i] + [es[i]] && es[i..][1..] == es[i + 1..];
    assert WithParent(WithParent(h[es[i]], None), None) == WithParent(h[es[i]], None);
    var g := Emptied(h, p, es[..i], es[i..]);
    var a, b := g[p := g[p].(emails := es[i..][1..])][es[i] := WithParent(g[es[i]], None)],
      Emptied(h, p, es[..i + 1], es[i + 1..]);
    forall z | z in h
      ensures a[z] == b[z]
    {
    }
    assert a == b;
  }

  lemma BareEmails(c: Cache, p: Ref)
    requires Inv(Bare(c)) && IsPerson(c, p)
    ensures NoDup(c.heap[p].emails) && (forall e | e in c.heap[p].emails :: Mine(c.heap, p, e))
      && p !in c.heap[p].emails
    ensures forall e | Mine(c.heap, p, e) :: e in c.heap[p].emails
  {
    var b := Bare(c);
    assert PersonOk(b, p) && b.heap[p] == c.heap[p];
    forall e | Mine(c.heap, p, e)
      ensures e in c.heap[p].emails
    {
      assert Owned(b, e);
      assert EmailOk(b, e);
    }
  }

  lemma NoUids(h: map<Ref, Item>)
    ensures UidsOf(h, []) == {}
  {
  }

  method RemoveOld(cache: AddressCache, p: Ref) returns (listDelete: seq<Ref>)
    requires Inv(Bare(cache.View())) && IsPerson(cache.View(), p) && Unreferenced(cache.heap, p)
    modifies cache`heap, cache`itemHash, cache`dirtyFlag
    ensures listDelete == old(cache.heap[p].emails) && p in old(cache.heap)
    ensures cache.heap == Emptied(old(cache.heap), p, listDelete, [])
    ensures cache.itemHash == old(cache.itemHash) - UidsOf(old(cache.heap), listDelete)
    ensures Inv(Bare(cache.View()))
  {
    hide Inv, Bare, Unreferenced, GroupsHashed, GroupsDrop, WithoutEMail, TakenFrom, UidsOf;
    NoUids(cache.heap);
    ghost var h := cache.heap;
    ghost var es := cache.heap[p].emails;
    BareEmails(cache.View(), p);
    listDelete := [];
    ghost var i := 0;
    assert es[..0] == [] && es[0..] == es && Emptied(h, p, [], es) == h;
    while cache.heap[p].emails != []
      invariant 0 <= i <= |es| && listDelete == es[..i] && p in cache.heap && IsPerson(cache.View(), p)
      invariant cache.heap == Emptied(h, p, es[..i], es[i..])
      invariant cache.itemHash == old(cache.itemHash) - UidsOf(h, es[..i])
      invariant Inv(Bare(cache.View())) && Unreferenced(cache.heap, p)
      decreases |es| - i
    {
      assert cache.heap[p].emails == es[i..];
      var email := cache.heap[p].emails[0];
      assert email == es[i] && email in es;
      OldStep(cache.View(), p);
      EmptiedMore(h, p, es, i);
      EmptiedUid(h, p, es, i);
      var found := cache.UnlinkEmail(p, email);
      listDelete := listDelete + [email];
      assert es[..i + 1] == es[..i] + [email];
      i := i + 1;
    }
    assert es[i..] == [] && i == |es|;
    assert es[..i] == es;
  }

  lemma EmptiedUid(h: map<Ref, Item>, p: Ref, es: seq<Ref>, i: nat)
    requires p in h && h[p].Person? && i < |es| && es[i] in h
    ensures Emptied(h, p, es[..i], es[i..])[es[i]].uid == h[es[i]].uid
    ensures UidsOf(h, es[..i + 1]) == UidsOf(h, es[..i]) + {h[es[i]].uid}
  {
    TakeMore(es, i);
  }

  // ---------- the new addresses ----------

  /** What a caller must see to: each new email is listed once and held by nobody, and the uids
      they bring are in nobody else's use and all different. */
  ghost predicate NewReady(c: Cache, es: seq<Ref>) {
    && NoDup(es)
    && (forall e | e in es :: Pending(c, e))
    && (forall e | e in es && c.heap[e].uid != "" :: c.heap[e].uid !in c.hash && GoodUid(c, c.heap[e].uid))
    && (forall d, e | d in es && e in es && d != e :: c.heap[d].uid == "" || c.heap[d].uid != c.heap[e].uid)
  }

  /** How many of the emails come without a uid. */
  function Blanks(h: map<Ref, Item>, es: seq<Ref>): nat
    requires AreEmails(h, es)
  {
    if es == [] then 0
    else Blanks(h, es[..|es| - 1]) + if h[es[|es| - 1]].uid == "" then 1 else 0
  }

  /** The uid under which the `k`-th new email is hashed. */
  function UidAt(c: Cache, es: seq<Ref>, k: nat): Uid
    requires k < |es| && AreEmails(c.heap, es)
  {
    if c.heap[es[k]].uid != "" then c.heap[es[k]].uid else Decimal(c.nextId + 1 + Blanks(c.heap, es[..k]))
  }

  function NewItem(c: Cache, p: Ref, es: seq<Ref>, k: nat): Item
    requires k < |es| && AreEmails(c.heap, es)
  {
    var i := c.heap[es[k]];
    EMail(UidAt(c, es, k), i.name, Some(p), i.address, i.remarks)
  }

  /** `c'` is `c` with the first `n` emails of `es` added to the person, in order. */
  ghost predicate Added(c: Cache, c': Cache, p: Ref, es: seq<Ref>, n: nat)
    requires n <= |es| && AreEmails(c.heap, es) && IsPerson(c, p)
  {
    && c'.heap.Keys == c.heap.Keys && c'.root == c.root && c'.top == c.top
      && c'.nextId == c.nextId + Blanks(c.heap, es[..n])
    && c'.heap[p] == c.heap[p].(emails := c.heap[p].emails + es[..n])
    && (forall k | 0 <= k < n :: c'.heap[es[k]] == NewItem(c, p, es, k))
    && (forall z | z in c.heap && z != p && z !in es[..n] :: c'.heap[z] == c.heap[z])
    && (forall u | u in c.hash :: u in c'.hash && c'.hash[u] == c.hash[u])
    && (forall k | 0 <= k < n :: UidAt(c, es, k) in c'.hash && c'.hash[UidAt(c, es, k)] == es[k])
    && (forall u | u in c'.hash && u !in c.hash :: c'.hash[u] in es[..n])
  }

  /** `addrcache_id_email` on an email without a uid. */
  function Fill(c: Cache, e: Ref): Cache
    requires e in c.heap && c.heap[e].EMail?
  {
    if c.heap[e].uid != "" then c
    else c.(heap := c.heap[e := WithUid(c.heap[e], NextUid(c))], nextId := c.nextId + 1)
  }

  lemma RespareInv(c: Cache, e: Ref, i: Item)
    requires Inv(c) && Pending(c, e) && i.EMail?
    ensures Inv(Spare(c, e, i))
  {
    hide RootOk, HashedOk, ListsOk, PlacedOk, PersonsOk, EmailsOk, UidsOk, GroupsOk, RootedOk, FreshOk;
    var b := Spare(c, e, i);
    ForestFrame(c, b);
    EmailFrame(c, b);
    GroupFrame(c, b);
    FreshFrame(c, b);
    RootedAfter(c, b);
  }

  lemma FillInv(c: Cache, e: Ref)
    requires Inv(Bare(c)) && Pending(c, e)
      && (c.heap[e].uid != "" ==> GoodUid(c, c.heap[e].uid) && c.heap[e].uid !in c.hash)
    ensures var f := Fill(c, e);
      && Inv(Bare(f)) && Pending(f, e) && GoodUid(f, f.heap[e].uid) && f.heap[e].uid !in f.hash && f.hash == c.hash
      && (c.heap[e].uid == "" ==> f.heap[e].uid == Decimal(c.nextId + 1))
  {
    if c.heap[e].uid == "" {
      var b := Bare(c);
      TickInv(b);
      var i := WithUid(c.heap[e], NextUid(c));
      RespareInv(Tick(b), e, i);
      assert Spare(Tick(b), e, i).heap == Bare(Fill(c, e)).heap;
      assert GoodUid(Tick(c), NextUid(c)) by { BareGood(Tick(c), NextUid(c)); }
      var f := Fill(c, e);
      forall d | Owned(f, d)
        ensures f.heap[d].uid != NextUid(c)
      {
        assert Owned(Tick(c), d);
      }
    }
  }

  lemma BareGood(c: Cache, u: Uid)
    ensures GoodUid(Bare(c), u) <==> GoodUid(c, u)
  {
    var b := Bare(c);
    if GoodUid(b, u) {
      forall d | Owned(c, d)
        ensures c.heap[d].uid != u
      {
        assert Owned(b, d);
      }
    }
    if GoodUid(c, u) {
      forall d | Owned(b, d)
        ensures b.heap[d].uid != u
      {
        assert Owned(c, d);
      }
    }
  }

  /** Adding one email, uid and all. */
  lemma AddStepInv(c: Cache, p: Ref, e: Ref)
    requires Inv(Bare(c)) && IsPerson(c, p) && Pending(c, e) && GoodUid(c, c.heap[e].uid) && c.heap[e].uid !in c.hash
    ensures Inv(Bare(AddEmail(c, p, e)))
  {
    BareGood(c, c.heap[e].uid);
    AddEmailInv(Bare(c), p, e);
    assert Bare(AddEmail(c, p, e)).heap == AddEmail(Bare(c), p, e).heap;
    assert Bare(AddEmail(c, p, e)) == AddEmail(Bare(c), p, e);
  }

  /** One addition, seen whole. */
  lemma AddShape(c: Cache, p: Ref, e: Ref)
    requires IsPerson(c, p) && Pending(c, e) && Fill(c, e).heap[e].uid !in c.hash
    ensures var f := Fill(c, e); var u := f.heap[e].uid;
      && IsPerson(f, p) && Pending(f, e) && p != e
      && u == (if c.heap[e].uid != "" then c.heap[e].uid else Decimal(c.nextId + 1))
      && var i := c.heap[e];
      AddEmail(f, p, e) == Cache(c.heap[p := c.heap[p].(emails := c.heap[p].emails + [e])][e :=
        EMail(u, i.name, Some(p), i.address, i.remarks)],
        c.hash[u := e], c.root, if i.uid == "" then c.nextId + 1 else c.nextId, c.top, true)
  {
    var f := Fill(c, e);
    var i := c.heap[e];
    assert AddEmail(f, p, e).heap == c.heap[p := c.heap[p].(emails := c.heap[p].emails + [e])][e :=
      EMail(f.heap[e].uid, i.name, Some(p), i.address, i.remarks)];
  }

  lemma StillGood(c: Cache, p: Ref, e: Ref, u: Uid)
    requires IsPerson(c, p) && Pending(c, e) && Fill(c, e).heap[e].uid !in c.hash
    requires GoodUid(c, u) && u !in c.hash && u != Fill(c, e).heap[e].uid
    ensures var f := Fill(c, e); IsPerson(f, p) && Pending(f, e)
    ensures var a := AddEmail(Fill(c, e), p, e); GoodUid(a, u) && u !in a.hash
  {
    AddShape(c, p, e);
    var a := AddEmail(Fill(c, e), p, e);
    hide AddEmail, Fill;
    forall d | Owned(a, d)
      ensures a.heap[d].uid != u
    {
      assert d != e ==> Owned(c, d) && a.heap[d].uid == c.heap[d].uid;
    }
  }

  lemma AddStepReady(c: Cache, p: Ref, es: seq<Ref>)
    requires Inv(Bare(c)) && IsPerson(c, p) && es != [] && NewReady(c, es)
    ensures Pending(c, es[0]) && Fill(c, es[0]).heap[es[0]].uid !in c.hash
    ensures var f := Fill(c, es[0]); IsPerson(f, p) && Pending(f, es[0])
    ensures var a := AddEmail(Fill(c, es[0]), p, es[0]); Inv(Bare(a)) && NewReady(a, es[1..]) && IsPerson(a, p)
  {
    hide Inv, Bare, GoodUid, AddEmail, Fill;
    var e := es[0];
    assert e in es;
    FillInv(c, e);
    AddShape(c, p, e);
    var f := Fill(c, e);
    AddStepInv(f, p, e);
    var a := AddEmail(f, p, e);
    assert e !in es[1..];
    forall x | x in es[1..]
      ensures x in es && Pending(a, x) && a.heap[x] == c.heap[x]
      ensures c.heap[x].uid != "" ==> c.heap[x].uid !in a.hash && GoodUid(a, c.heap[x].uid)
    {
      assert Pending(c, x) && x != p;
      if c.heap[x].uid != "" {
        assert c.heap[x].uid != f.heap[e].uid by {
          GoodIsFresh(c, c.heap[x].uid);
        }
        StillGood(c, p, e, c.heap[x].uid);
      }
    }
  }

  lemma GoodIsFresh(c: Cache, u: Uid)
    requires GoodUid(c, u)
    ensures u != Decimal(c.nextId + 1)
  {
  }

  lemma AddedOneMore(c: Cache, m: Cache, a: Cache, p: Ref, es: seq<Ref>, n: nat)
    requires n < |es| && AreEmails(c.heap, es) && IsPerson(c, p) && NoDup(es) && Added(c, m, p, es, n)
    requires IsPerson(m, p) && p != es[n] && es[n] in m.heap && m.heap[es[n]] == c.heap[es[n]]
    requires a == Cache(m.heap[p := m.heap[p].(emails := m.heap[p].emails + [es[n]])][es[n] := NewItem(c, p, es, n)],
      m.hash[UidAt(c, es, n) := es[n]], m.root, c.nextId + Blanks(c.heap, es[..n + 1]), m.top, true)
    requires UidAt(c, es, n) !in m.hash
    ensures Added(c, a, p, es, n + 1)
  {
    hide NewItem, UidAt, Blanks;
    var e := es[n];
    TakeMore(es, n);
    assert c.heap[p].emails + es[..n] + [e] == c.heap[p].emails + es[..n + 1];
    assert a.heap[p] == c.heap[p].(emails := c.heap[p].emails + es[..n + 1]);
    forall k | 0 <= k < n + 1
      ensures a.heap[es[k]] == NewItem(c, p, es, k)
      ensures UidAt(c, es, k) in a.hash && a.hash[UidAt(c, es, k)] == es[k]
    {
      assert es[k] in es && c.heap[es[k]].EMail? && es[k] != p;
      assert k < n ==> es[k] != e && UidAt(c, es, k) in m.hash;
    }
  }

  lemma AddedSoFar(c: Cache, m: Cache, p: Ref, es: seq<Ref>, n: nat)
    requires n < |es| && AreEmails(c.heap, es) && IsPerson(c, p) && NoDup(es) && Added(c, m, p, es, n)
    ensures IsPerson(m, p) && es[n] != p && es[n] in m.heap && m.heap[es[n]] == c.heap[es[n]] && c.heap[es[n]].EMail?
    ensures m.nextId == c.nextId + Blanks(c.heap, es[..n])
    ensures Blanks(c.heap, es[..n + 1]) == Blanks(c.heap, es[..n]) + (if c.heap[es[n]].uid == "" then 1 else 0)
  {
    hide NewItem, UidAt;
    var e := es[n];
    assert e in es && e !in es[..n] && e != p;
    assert es[..n + 1][..n] == es[..n];
  }

  lemma AddStepAdded(c: Cache, m: Cache, p: Ref, es: seq<Ref>, n: nat)
    requires n < |es| && AreEmails(c.heap, es) && IsPerson(c, p) && Added(c, m, p, es, n)
    requires NoDup(es) && Pending(m, es[n]) && Fill(m, es[n]).heap[es[n]].uid !in m.hash
    ensures IsPerson(Fill(m, es[n]), p) && Pending(Fill(m, es[n]), es[n])
    ensures Added(c, AddEmail(Fill(m, es[n]), p, es[n]), p, es, n + 1)
  {
    AddedSoFar(c, m, p, es, n);
    hide Added, Decimal, AddEmail, Fill;
    AddShape(m, p, es[n]);
    AddedOneMore(c, m, AddEmail(Fill(m, es[n]), p, es[n]), p, es, n);
  }

  /** The loop that gives the new emails to the person. */
  method AddNew(cache: AddressCache, p: Ref, es: seq<Ref>)
    requires Inv(Bare(cache.View())) && IsPerson(cache.View(), p) && NewReady(cache.View(), es)
    modifies cache`heap, cache`itemHash, cache`nextID, cache`dirtyFlag
    ensures AreEmails(old(cache.heap), es)
    ensures Added(old(cache.View()), cache.View(), p, es, |es|) && Inv(Bare(cache.View()))
      && cache.top == old(cache.top)
  {
    hide Inv, Bare, GoodUid, Added, NewReady;
    ghost var c := cache.View();
    NewReadyList(c, es);
    AddedNone(c, p, es);
    var i := 0;
    assert es[0..] == es;
    while i < |es|
      invariant 0 <= i <= |es| && Inv(Bare(cache.View())) && IsPerson(cache.View(), p)
      invariant NewReady(cache.View(), es[i..]) && Added(c, cache.View(), p, es, i)
    {
      var email := es[i];
      assert es[i..][0] == email && es[i..][1..] == es[i + 1..];
      AddStepReady(cache.View(), p, es[i..]);
      AddStepAdded(c, cache.View(), p, es, i);
      ghost var m := cache.View();
      assert m.heap[email := m.heap[email]] == m.heap;
      var uid := cache.FillUid(cache.heap[email].uid);
      cache.heap := cache.heap[email := WithUid(cache.heap[email], uid)];
      assert cache.View() == Fill(m, email);
      var added := cache.LinkEmail(p, email);
      i := i + 1;
    }
  }

  lemma NewReadyList(c: Cache, es: seq<Ref>)
    requires NewReady(c, es)
    ensures AreEmails(c.heap, es) && NoDup(es)
  {
  }

  lemma AddedNone(c: Cache, p: Ref, es: seq<Ref>)
    requires AreEmails(c.heap, es) && IsPerson(c, p)
    ensures Added(c, c, p, es, 0)
  {
    assert c.heap[p].emails + es[..0] == c.heap[p].emails;
  }

  // ---------- the whole replacement ----------

  /** What a caller must see to in the cache as it finds it: the new emails are held by nobody,
      and a uid that one of them brings is an old email's of the same person or nobody's. */
  ghost predicate NewUids(c: Cache, p: Ref, es: seq<Ref>) {
    && NoDup(es) && IsPerson(c, p)
    && (forall e | e in es :: Pending(c, e))
    && (forall e | e in es && c.heap[e].uid != "" :: MayUse(c, p, c.heap[e].uid))
    && (forall d, e | d in es && e in es && d != e :: c.heap[d].uid == "" || c.heap[d].uid != c.heap[e].uid)
  }

  ghost predicate MayUse(c: Cache, p: Ref, u: Uid) {
    && FreshUid(c, u)
    && (u in c.hash ==> Mine(c.heap, p, c.hash[u]))
    && (forall e {:trigger c.heap[e]} | Owned(c, e) && c.heap[e].uid == u :: Mine(c.heap, p, e))
  }

  /** What has become of an item: the person holds the new emails, in order; every group holds its
      slots; nothing else has changed. */
  ghost predicate ItemReplaced(c: Cache, h: map<Ref, Item>, p: Ref, es: seq<Ref>, lower: string -> string, z: Ref)
    requires IsPerson(c, p) && AreEmails(c.heap, es)
  {
    z in c.heap && z in h && h[z] ==
      if z == p then c.heap[p].(emails := es)
      else if c.heap[z].Group? then c.heap[z].(members := Slots(c.heap, p, es, lower, c.heap[z].members))
      else c.heap[z]
  }

  ghost predicate NewHeld(c: Cache, r: Cache, p: Ref, es: seq<Ref>, k: nat)
    requires AreEmails(c.heap, es)
  {
    k < |es| && es[k] in r.heap && r.heap[es[k]] == NewItem(c, p, es, k) && UidAt(c, es, k) in r.hash
      && r.hash[UidAt(c, es, k)] == es[k]
  }

  ghost predicate HashReplaced(c: Cache, r: Cache, p: Ref, es: seq<Ref>, u: Uid)
    requires IsPerson(c, p)
  {
    && (u in c.hash && c.hash[u] !in c.heap[p].emails ==> u in r.hash && r.hash[u] == c.hash[u])
    && (u in r.hash && r.hash[u] !in es ==> u in c.hash && c.hash[u] !in c.heap[p].emails && r.hash[u] == c.hash[u])
  }

  /** The outcome that is documented. */
  ghost predicate Replaced(c: Cache, r: Cache, p: Ref, es: seq<Ref>, lower: string -> string)
    requires IsPerson(c, p) && AreEmails(c.heap, es)
  {
    && r.heap.Keys == c.heap.Keys - Elems(c.heap[p].emails)
    && (forall z {:trigger ItemReplaced(c, r.heap, p, es, lower, z)} | z in r.heap
      && z !in es :: ItemReplaced(c, r.heap, p, es, lower, z))
    && (forall k: nat {:trigger NewHeld(c, r, p, es, k)} | k < |es| :: NewHeld(c, r, p, es, k))
    && (forall u {:trigger HashReplaced(c, r, p, es, u)} :: HashReplaced(c, r, p, es, u))
    && r.root == c.root && r.top == c.top && r.dirty && r.nextId == c.nextId + Blanks(c.heap, es)
  }

  /** No two members of the group are sent to the same new email. */
  ghost predicate ApartIn(h: map<Ref, Item>, p: Ref, es: seq<Ref>, lower: string -> string, g: Ref)
    requires AreEmails(h, es) && g in h && h[g].Group?
  {
    forall d, e | d in h[g].members && e in h[g].members && d != e && Mine(h, p, d) && Mine(h, p, e) ::
      Successor(h, es, lower, d).None? || Successor(h, es, lower, d) != Successor(h, es, lower, e)
  }

  ghost predicate KeepsApart(h: map<Ref, Item>, p: Ref, es: seq<Ref>, lower: string -> string)
    requires AreEmails(h, es)
  {
    forall g | g in h && h[g].Group? :: ApartIn(h, p, es, lower, g)
  }

  lemma {:induction false} InSlots(h: map<Ref, Item>, p: Ref, es: seq<Ref>, lower: string -> string, ms: seq<Ref>,
      x: Ref)
    requires AreEmails(h, es)
    ensures x in Slots(h, p, es, lower, ms) <==>
      exists e :: e in ms && (if Mine(h, p, e) then Successor(h, es, lower, e) == Some(x) else e == x)
  {
    if ms != [] {
      InSlots(h, p, es, lower, ms[1..], x);
      assert forall e | e in ms :: e == ms[0] || e in ms[1..];
      assert ms[0] in ms && forall e | e in ms[1..] :: e in ms;
    }
  }

  /** A group comes out without repetitions exactly if its members are kept apart. */
  lemma {:induction false} SlotsApart(h: map<Ref, Item>, p: Ref, es: seq<Ref>, lower: string -> string, ms: seq<Ref>)
    requires AreEmails(h, es) && NoDup(ms) && forall e | e in es :: e !in ms
    ensures NoDup(Slots(h, p, es, lower, ms)) <==>
      forall d, e | d in ms && e in ms && d != e && Mine(h, p, d) && Mine(h, p, e) ::
        Successor(h, es, lower, d).None? || Successor(h, es, lower, d) != Successor(h, es, lower, e)
  {
    if ms != [] {
      var m, rest := ms[0], ms[1..];
      assert NoDup(rest) && m !in rest;
      SlotsApart(h, p, es, lower, rest);
      var s := Slots(h, p, es, lower, rest);
      assert forall e | e in ms :: e == m || e in rest;
      assert forall e | e in rest :: e in ms;
      assert m in ms;
      if !Mine(h, p, m) {
        InSlots(h, p, es, lower, rest, m);
        forall e | e in rest && Mine(h, p, e)
          ensures Successor(h, es, lower, e) != Some(m)
        {
          SuccessorIsNew(h, es, lower, e);
        }
        NoDupFront(m, s);
      } else if Successor(h, es, lower, m).Some? {
        var x := Successor(h, es, lower, m).value;
        SuccessorIsNew(h, es, lower, m);
        InSlots(h, p, es, lower, rest, x);
        NoDupFront(x, s);
      }
    }
  }

  /** Freeing emails that nobody holds leaves the forest and what is held. */
  lemma ForgetFrame(c: Cache, d: set<Ref>)
    requires forall e | e in d :: Pending(c, e)
    ensures var b := c.(heap := c.heap - d);
      && SameForest(c, b) && SameOwned(c, b)
      && (forall p {:trigger IsPerson(b, p)} :: IsPerson(c, p) <==> IsPerson(b, p))
      && (forall p {:trigger IsPerson(b, p)} | IsPerson(c, p) && IsPerson(b, p) :: b.heap[p].emails == c.heap[p].emails)
      && (forall g {:trigger IsGroup(b, g)} | IsGroup(b, g) :: IsGroup(c, g) && b.heap[g].members == c.heap[g].members)
  {
  }

  lemma ForgetRooted(c: Cache, d: set<Ref>)
    requires Inv(c) && forall e | e in d :: Pending(c, e)
    ensures RootedOk(c.(heap := c.heap - d)) && KeysOk(c.(heap := c.heap - d))
  {
    var b := c.(heap := c.heap - d);
    var s := c.heap.Keys - d;
    forall r | r in s && c.heap[r].parent.Some?
      ensures c.heap[r].parent.value in s
    {
      ParentType(c, r);
    }
    assert SameParents(c.heap, b.heap, s);
    forall r | r in b.heap && b.heap[r].parent.Some?
      ensures Reaches(b.heap, b.root, r)
    {
      ReachesAgrees(c.heap, b.heap, s, c.root, r);
    }
  }

  lemma ForgetInv(c: Cache, d: set<Ref>)
    requires Inv(c) && forall e | e in d :: Pending(c, e)
    ensures Inv(c.(heap := c.heap - d))
  {
    var b := c.(heap := c.heap - d);
    ForgetFrame(c, d);
    ForgetRooted(c, d);
    hide SameForest, SameOwned, RootOk, KeysOk, HashedOk, ListsOk, PlacedOk, PersonsOk, UidsOk, GroupsOk, RootedOk,
      FreshOk;
    ForestFrame(c, b);
    EmailFrame(c, b);
    GroupFrame(c, b);
    FreshFrame(c, b);
  }

  /** The cache when the groups have been relinked and the old emails taken off. */
  function Emptying(c: Cache, p: Ref, es: seq<Ref>, lower: string -> string, dirty: bool): Cache
    requires IsPerson(c, p) && AreEmails(c.heap, es)
  {
    var olds := c.heap[p].emails;
    Cache(Emptied(Relinked(c.heap, p, es, lower), p, olds, []), c.hash - UidsOf(c.heap, olds), c.root, c.nextId,
      c.top, dirty)
  }

  lemma OldEmails(c: Cache, p: Ref)
    requires Inv(c) && IsPerson(c, p)
    ensures forall e :: e in c.heap[p].emails <==> Mine(c.heap, p, e)
    ensures forall u | u in c.hash :: u in UidsOf(c.heap, c.heap[p].emails) <==> c.hash[u] in c.heap[p].emails
  {
    assert PersonOk(c, p);
    forall e | Mine(c.heap, p, e)
      ensures EmailOk(c, e)
    {
      assert Owned(c, e);
    }
    forall u | u in c.hash
      ensures u in UidsOf(c.heap, c.heap[p].emails) <==> c.hash[u] in c.heap[p].emails
    {
      assert c.heap[c.hash[u]].uid == u;
      if u in UidsOf(c.heap, c.heap[p].emails) {
        var e :| e in c.heap[p].emails && e in c.heap && c.heap[e].uid == u;
        assert EmailOk(c, e);
      }
    }
  }

  lemma NewUidsReady(c: Cache, p: Ref, es: seq<Ref>, lower: string -> string, dirty: bool)
    requires Inv(c) && NewUids(c, p, es)
    ensures AreEmails(c.heap, es) && NewReady(Emptying(c, p, es, lower, dirty), es)
      && IsPerson(Emptying(c, p, es, lower, dirty), p)
  {
    OldEmails(c, p);
    hide Inv;
    var c2 := Emptying(c, p, es, lower, dirty);
    var olds := c.heap[p].emails;
    forall e | e in es
      ensures Pending(c2, e) && c2.heap[e] == c.heap[e]
      ensures c.heap[e].uid != "" ==> c.heap[e].uid !in c2.hash && GoodUid(c2, c.heap[e].uid)
    {
      assert Pending(c, e) && !Mine(c.heap, p, e);
      var u := c.heap[e].uid;
      if u != "" {
        assert MayUse(c, p, u);
        forall d | Owned(c2, d)
          ensures c2.heap[d].uid != u
        {
          assert Owned(c, d) && c2.heap[d] == c.heap[d] && d !in olds;
        }
        assert FreshUid(c2, u);
      }
    }
  }

  lemma SlotsNotMine(c: Cache, p: Ref, es: seq<Ref>, lower: string -> string)
    requires Inv(c) && IsPerson(c, p) && (forall e | e in es :: Pending(c, e))
    ensures AreEmails(c.heap, es) && Unreferenced(Relinked(c.heap, p, es, lower), p)
    ensures Bare(c.(heap := Relinked(c.heap, p, es, lower))) == Bare(c)
  {
    var k := Relinked(c.heap, p, es, lower);
    forall g, x | g in k && k[g].Group? && x in k[g].members
      ensures !Mine(k, p, x)
    {
      InSlots(c.heap, p, es, lower, c.heap[g].members, x);
      var e :| e in c.heap[g].members && (if Mine(c.heap, p, e) then Successor(c.heap, es, lower, e) == Some(x)
        else e == x);
      if Mine(c.heap, p, e) {
        SuccessorIsNew(c.heap, es, lower, e);
      }
    }
    assert BareHeap(k) == BareHeap(c.heap);
  }

  lemma EmptyingAt(c: Cache, p: Ref, es: seq<Ref>, lower: string -> string, dirty: bool, z: Ref)
    requires Inv(c) && NewUids(c, p, es) && AreEmails(c.heap, es)
    ensures var c2 := Emptying(c, p, es, lower, dirty);
      && (z in c2.heap <==> z in c.heap)
      && (z == p ==> z in c2.heap && c2.heap[z] == c.heap[p].(emails := []))
      && (IsGroup(c, z) ==> z in c2.heap
                            && c2.heap[z] == c.heap[z].(members := Slots(c.heap, p, es, lower, c.heap[z].members)))
      && (z in c.heap && z != p && !c.heap[z].Group? && z !in c.heap[p].emails ==> z in c2.heap
                                                                                   && c2.heap[z] == c.heap[z])
    ensures z in es ==> z in c.heap && c.heap[z].EMail? && z !in c.heap[p].emails && z != p
    ensures IsGroup(c, z) ==> z !in c.heap[p].emails && z !in es
  {
    OldEmails(c, p);
    hide Inv, Slots;
    assert IsGroup(c, z) ==> !Mine(c.heap, p, z);
    if z in es {
      assert Pending(c, z);
    }
  }

  lemma NewUidsPerson(c: Cache, p: Ref, es: seq<Ref>)
    requires NewUids(c, p, es)
    ensures IsPerson(c, p)
  {
  }

  lemma SameNew(c: Cache, c2: Cache, p: Ref, es: seq<Ref>, k: nat)
    requires AreEmails(c.heap, es) && AreEmails(c2.heap, es) && k < |es|
    requires c2.nextId == c.nextId && forall e | e in es :: c2.heap[e] == c.heap[e]
    ensures NewItem(c2, p, es, k) == NewItem(c, p, es, k) && UidAt(c2, es, k) == UidAt(c, es, k)
      && Blanks(c2.heap, es) == Blanks(c.heap, es)
  {
    hide Blanks, Decimal;
    SameBlanks(c.heap, c2.heap, es);
    SameBlanks(c.heap, c2.heap, es[..k]);
    assert es[k] in es;
  }

  lemma EmptyingNew(c: Cache, p: Ref, es: seq<Ref>, lower: string -> string, dirty: bool, k: nat)
    requires Inv(c) && NewUids(c, p, es) && AreEmails(c.heap, es) && k < |es|
    requires AreEmails(Emptying(c, p, es, lower, dirty).heap, es)
    ensures var c2 := Emptying(c, p, es, lower, dirty);
      NewItem(c2, p, es, k) == NewItem(c, p, es, k) && UidAt(c2, es, k) == UidAt(c, es, k)
        && Blanks(c2.heap, es) == Blanks(c.heap, es)
  {
    hide Inv, Emptying, NewUids, NewItem, UidAt, Blanks, Slots;
    assert IsPerson(c, p) by { NewUidsPerson(c, p, es); }
    var c2 := Emptying(c, p, es, lower, dirty);
    forall e | e in es
      ensures c2.heap[e] == c.heap[e]
    {
      EmptyingAt(c, p, es, lower, dirty, e);
    }
    EmptyingNext(c, p, es, lower, dirty);
    SameNew(c, c2, p, es, k);
  }

  lemma EmptyingNext(c: Cache, p: Ref, es: seq<Ref>, lower: string -> string, dirty: bool)
    requires IsPerson(c, p) && AreEmails(c.heap, es)
    ensures var c2 := Emptying(c, p, es, lower, dirty); c2.nextId == c.nextId && c2.root == c.root && c2.top == c.top
    ensures Emptying(c, p, es, lower, dirty).hash == c.hash - UidsOf(c.heap, c.heap[p].emails)
  {
  }

  lemma AddedAt(c: Cache, c': Cache, p: Ref, es: seq<Ref>, z: Ref)
    requires IsPerson(c, p) && AreEmails(c.heap, es) && Added(c, c', p, es, |es|)
    ensures z in c'.heap <==> z in c.heap
    ensures p in c'.heap && c'.heap[p] == c.heap[p].(emails := c.heap[p].emails + es)
    ensures z in c.heap && z != p && z !in es ==> c'.heap[z] == c.heap[z]
    ensures c'.nextId == c.nextId + Blanks(c.heap, es) && c'.root == c.root && c'.top == c.top
  {
    assert es[..|es|] == es;
  }

  lemma AddedHashAt(c: Cache, c': Cache, p: Ref, es: seq<Ref>, u: Uid)
    requires IsPerson(c, p) && AreEmails(c.heap, es) && Added(c, c', p, es, |es|)
    ensures u in c.hash ==> u in c'.hash && c'.hash[u] == c.hash[u]
    ensures u in c'.hash && u !in c.hash ==> c'.hash[u] in es
  {
    assert es[..|es|] == es;
  }

  /** The new emails are in, the old ones are off the person's list. */
  ghost predicate Readded(c: Cache, c3: Cache, p: Ref, es: seq<Ref>, lower: string -> string, dirty: bool)
    requires IsPerson(c, p) && AreEmails(c.heap, es)
  {
    var c2 := Emptying(c, p, es, lower, dirty);
    IsPerson(c2, p) && AreEmails(c2.heap, es) && Added(c2, c3, p, es, |es|)
  }

  /** The end: the old emails freed. */
  function Freed(c3: Cache, olds: seq<Ref>): Cache {
    c3.(heap := c3.heap - Elems(olds), dirty := true)
  }

  lemma ReaddedAt(c: Cache, c3: Cache, p: Ref, es: seq<Ref>, lower: string -> string, dirty: bool, z: Ref)
    requires Inv(c) && NewUids(c, p, es) && AreEmails(c.heap, es) && Readded(c, c3, p, es, lower, dirty)
    ensures z in c3.heap <==> z in c.heap
    ensures z in c.heap && z !in es && z !in c.heap[p].emails ==>
      ItemReplaced(c, Freed(c3, c.heap[p].emails).heap, p, es, lower, z)
  {
    NewUidsPerson(c, p, es);
    hide Inv, Emptying, NewUids, NewItem, UidAt, Slots, Blanks, Added;
    var c2 := Emptying(c, p, es, lower, dirty);
    EmptyingAt(c, p, es, lower, dirty, p);
    EmptyingAt(c, p, es, lower, dirty, z);
    AddedAt(c2, c3, p, es, z);
    assert [] + es == es;
  }

  lemma ReaddedNew(c: Cache, c3: Cache, p: Ref, es: seq<Ref>, lower: string -> string, dirty: bool, k: nat)
    requires Inv(c) && NewUids(c, p, es) && AreEmails(c.heap, es) && Readded(c, c3, p, es, lower, dirty) && k < |es|
    ensures NewHeld(c, Freed(c3, c.heap[p].emails), p, es, k) && c3.nextId == c.nextId + Blanks(c.heap, es)
  {
    var c2 := Emptying(c, p, es, lower, dirty);
    AddedAt(c2, c3, p, es, p);
    EmptyingNew(c, p, es, lower, dirty, k);
    EmptyingNext(c, p, es, lower, dirty);
    EmptyingAt(c, p, es, lower, dirty, es[k]);
  }

  lemma ReaddedHash(c: Cache, c3: Cache, p: Ref, es: seq<Ref>, lower: string -> string, dirty: bool, u: Uid)
    requires Inv(c) && NewUids(c, p, es) && AreEmails(c.heap, es) && Readded(c, c3, p, es, lower, dirty)
    ensures HashReplaced(c, Freed(c3, c.heap[p].emails), p, es, u)
  {
    OldEmails(c, p);
    EmptyingNext(c, p, es, lower, dirty);
    AddedHashAt(Emptying(c, p, es, lower, dirty), c3, p, es, u);
  }

  lemma ReaddedRest(c: Cache, c3: Cache, p: Ref, es: seq<Ref>, lower: string -> string, dirty: bool)
    requires Inv(c) && NewUids(c, p, es) && AreEmails(c.heap, es) && Readded(c, c3, p, es, lower, dirty)
    ensures IsPerson(c, p) && c3.nextId == c.nextId + Blanks(c.heap, es) && c3.root == c.root && c3.top == c.top
  {
    AddedAt(Emptying(c, p, es, lower, dirty), c3, p, es, p);
    EmptyingNext(c, p, es, lower, dirty);
    if es != [] {
      ReaddedNew(c, c3, p, es, lower, dirty, 0);
    }
  }

  lemma ReaddedItems(c: Cache, c3: Cache, p: Ref, es: seq<Ref>, lower: string -> string, dirty: bool)
    requires Inv(c) && NewUids(c, p, es) && AreEmails(c.heap, es) && Readded(c, c3, p, es, lower, dirty)
    ensures IsPerson(c, p) && Freed(c3, c.heap[p].emails).heap.Keys == c.heap.Keys - Elems(c.heap[p].emails)
    ensures forall z {:trigger ItemReplaced(c, Freed(c3, c.heap[p].emails).heap, p, es, lower, z)}
      | z in Freed(c3, c.heap[p].emails).heap && z !in es ::
      ItemReplaced(c, Freed(c3, c.heap[p].emails).heap, p, es, lower, z)
  {
    NewUidsPerson(c, p, es);
    hide Inv, NewUids, Readded, ItemReplaced, AreEmails;
    forall z
      ensures z in c3.heap <==> z in c.heap
      ensures z in c.heap && z !in es && z !in c.heap[p].emails ==>
        ItemReplaced(c, Freed(c3, c.heap[p].emails).heap, p, es, lower, z)
    {
      ReaddedAt(c, c3, p, es, lower, dirty, z);
    }
    assert c3.heap.Keys == c.heap.Keys;
  }

  lemma AddedIsReplaced(c: Cache, c3: Cache, p: Ref, es: seq<Ref>, lower: string -> string, dirty: bool)
    requires Inv(c) && NewUids(c, p, es) && AreEmails(c.heap, es) && Readded(c, c3, p, es, lower, dirty)
    ensures Replaced(c, Freed(c3, c.heap[p].emails), p, es, lower)
  {
    NewUidsPerson(c, p, es);
    hide Inv, NewUids, Readded, ItemReplaced, NewHeld, HashReplaced, Blanks, AreEmails, Elems;
    ReaddedRest(c, c3, p, es, lower, dirty);
    ReaddedItems(c, c3, p, es, lower, dirty);
    var r := Freed(c3, c.heap[p].emails);
    forall k: nat | k < |es|
      ensures NewHeld(c, r, p, es, k)
    {
      ReaddedNew(c, c3, p, es, lower, dirty, k);
    }
    forall u
      ensures HashReplaced(c, r, p, es, u)
    {
      ReaddedHash(c, c3, p, es, lower, dirty, u);
    }
  }

  lemma {:induction false} SameBlanks(h: map<Ref, Item>, k: map<Ref, Item>, es: seq<Ref>)
    requires AreEmails(h, es) && AreEmails(k, es) && forall e | e in es :: k[e].uid == h[e].uid
    ensures Blanks(k, es) == Blanks(h, es)
    decreases |es|
  {
    if es != [] {
      SameBlanks(h, k, es[..|es| - 1]);
    }
  }

  /** The replaced cache is in full agreement exactly if no group was made to refer to a new
      email twice. */
  lemma ReplacedInv(c: Cache, r: Cache, p: Ref, es: seq<Ref>, lower: string -> string)
    requires Inv(c) && NewUids(c, p, es) && AreEmails(c.heap, es) && Replaced(c, r, p, es, lower)
    requires Inv(Bare(r))
    ensures Inv(r) <==> KeepsApart(c.heap, p, es, lower)
  {
    UnbareInv(r);
    forall g | IsGroup(c, g)
      ensures IsGroup(r, g) && (forall x | x in r.heap[g].members :: Owned(r, x))
      ensures NoDup(r.heap[g].members) <==> ApartIn(c.heap, p, es, lower, g)
    {
      GroupSlots(c, r, p, es, lower, g);
    }
    hide Inv;
    if KeepsApart(c.heap, p, es, lower) {
      forall g | IsGroup(r, g)
        ensures GroupOk(r, g)
      {
        GroupWas(c, r, p, es, lower, g);
        assert ApartIn(c.heap, p, es, lower, g);
      }
    }
    if GroupsOk(r) {
      forall g | IsGroup(c, g)
        ensures ApartIn(c.heap, p, es, lower, g)
      {
        assert GroupOk(r, g);
      }
    }
  }

  lemma GroupWas(c: Cache, r: Cache, p: Ref, es: seq<Ref>, lower: string -> string, g: Ref)
    requires IsPerson(c, p) && AreEmails(c.heap, es) && Replaced(c, r, p, es, lower) && IsGroup(r, g)
    ensures IsGroup(c, g)
  {
    forall k | 0 <= k < |es|
      ensures es[k] != g
    {
      assert NewHeld(c, r, p, es, k);
    }
    assert ItemReplaced(c, r.heap, p, es, lower, g);
  }

  lemma GroupSlots(c: Cache, r: Cache, p: Ref, es: seq<Ref>, lower: string -> string, g: Ref)
    requires Inv(c) && NewUids(c, p, es) && AreEmails(c.heap, es) && Replaced(c, r, p, es, lower) && IsGroup(c, g)
    ensures IsGroup(r, g) && (forall x | x in r.heap[g].members :: Owned(r, x))
    ensures NoDup(r.heap[g].members) <==> ApartIn(c.heap, p, es, lower, g)
  {
    var ms := c.heap[g].members;
    assert GroupOk(c, g);
    assert forall e | e in es :: Pending(c, e) && e !in ms;
    assert g !in c.heap[p].emails by { GroupNotMine(c, p, g); }
    hide Inv;
    assert ItemReplaced(c, r.heap, p, es, lower, g);
    SlotsApart(c.heap, p, es, lower, ms);
    forall x | x in Slots(c.heap, p, es, lower, ms)
      ensures Owned(r, x)
    {
      InSlots(c.heap, p, es, lower, ms, x);
      var e :| e in ms && (if Mine(c.heap, p, e) then Successor(c.heap, es, lower, e) == Some(x) else e == x);
      assert Owned(c, e);
      if Mine(c.heap, p, e) {
        SuccessorIsNew(c.heap, es, lower, e);
      }
      SlotOwned(c, r, p, es, lower, x);
    }
  }

  lemma GroupNotMine(c: Cache, p: Ref, g: Ref)
    requires Inv(c) && IsPerson(c, p) && IsGroup(c, g)
    ensures g !in c.heap[p].emails
  {
    assert PersonOk(c, p);
  }

  lemma SlotOwned(c: Cache, r: Cache, p: Ref, es: seq<Ref>, lower: string -> string, x: Ref)
    requires Inv(c) && IsPerson(c, p) && AreEmails(c.heap, es) && Replaced(c, r, p, es, lower)
    requires x in es || (Owned(c, x) && !Mine(c.heap, p, x))
    ensures Owned(r, x)
  {
    OldEmails(c, p);
    if x in es {
      var k :| 0 <= k < |es| && es[k] == x;
      assert NewHeld(c, r, p, es, k);
    } else {
      assert x !in c.heap[p].emails && x in r.heap;
      assert ItemReplaced(c, r.heap, p, es, lower, x);
    }
  }

  /** `addrbook_update_address_list`.  It stops being defined as soon as the head of a group's list
      has been freed: the loop that follows walks every group's list.  That happens exactly if some
      group's first member has no successor.  Otherwise the outcome is the documented one, and it
      is in agreement exactly if no group was made to refer to a new email twice. */
  method UpdateAddressList(cache: AddressCache, p: Ref, es: seq<Ref>, lower: string -> string) returns (ok: bool)
    requires Inv(cache.View()) && NewUids(cache.View(), p, es)
    modifies cache`heap, cache`itemHash, cache`nextID, cache`dirtyFlag
    ensures AreEmails(old(cache.heap), es)
    ensures ok <==> HeadsKept(old(cache.heap), p, es, lower)
    ensures ok ==> Replaced(old(cache.View()), cache.View(), p, es, lower)
    ensures ok ==> (Inv(cache.View()) <==> KeepsApart(old(cache.heap), p, es, lower))
  {
    hide Inv, NewReady, Added, Replaced, Bare, Unreferenced, HeadsKept, Relinked, Emptied, KeepsApart, UidsOf, NoDup;
    ghost var c := cache.View();
    SlotsNotMine(c, p, es, lower);
    BareInv(c);
    ok := RelinkGroups(cache, p, es, lower);
    if !ok {
      return;
    }
    RelinkedPerson(c, p, es, lower);
    var listDelete := RemoveOld(cache, p);
    ghost var dirty := cache.dirtyFlag;
    ghost var c2 := cache.View();
    assert c2 == Emptying(c, p, es, lower, dirty);
    assert es == es[..|es|];
    NewUidsReady(c, p, es, lower, dirty);
    AddNew(cache, p, es);
    AddedIsReplaced(c, cache.View(), p, es, lower, dirty);
    OldsPending(c, cache.View(), p, es, lower, dirty);
    cache.dirtyFlag := true;
    cache.heap := cache.heap - Elems(listDelete);
    ReplacedInv(c, cache.View(), p, es, lower);
  }

  lemma RelinkedPerson(c: Cache, p: Ref, es: seq<Ref>, lower: string -> string)
    requires IsPerson(c, p) && AreEmails(c.heap, es)
    ensures var k := Relinked(c.heap, p, es, lower); p in k && k[p] == c.heap[p]
    ensures UidsOf(Relinked(c.heap, p, es, lower), c.heap[p].emails) == UidsOf(c.heap, c.heap[p].emails)
  {
  }

  /** The old emails, which nobody holds any more, can be freed. */
  lemma OldsPending(c: Cache, c3: Cache, p: Ref, es: seq<Ref>, lower: string -> string, dirty: bool)
    requires Inv(c) && NewUids(c, p, es) && AreEmails(c.heap, es) && Inv(Bare(c3))
    requires Readded(c, c3, p, es, lower, dirty)
    ensures Inv(Bare(Freed(c3, c.heap[p].emails)))
  {
    OldEmails(c, p);
    hide Inv;
    var olds := c.heap[p].emails;
    var b := Bare(c3);
    assert es[..|es|] == es;
    forall e | e in Elems(olds)
      ensures Pending(b, e)
    {
      assert Mine(c.heap, p, e);
      OldPending(c, c3, p, es, lower, dirty, e);
    }
    hide Readded, Bare;
    ForgetInv(b, Elems(olds));
    DirtyInv(b.(heap := b.heap - Elems(olds)));
    BareWithout(c3, Elems(olds));
  }

  lemma BareWithout(c: Cache, d: set<Ref>)
    ensures Bare(c.(heap := c.heap - d, dirty := true)) == Bare(c).(heap := Bare(c).heap - d, dirty := true)
  {
    assert BareHeap(c.heap - d) == BareHeap(c.heap) - d;
  }

  lemma OldPending(c: Cache, c3: Cache, p: Ref, es: seq<Ref>, lower: string -> string, dirty: bool, e: Ref)
    requires NewUids(c, p, es) && AreEmails(c.heap, es) && Mine(c.heap, p, e) && e in c.heap[p].emails
    requires Readded(c, c3, p, es, lower, dirty)
    ensures Pending(Bare(c3), e)
  {
    assert forall x | x in es :: Pending(c, x);
    assert es[..|es|] == es && e != p;
    var c2 := Emptying(c, p, es, lower, dirty);
    assert c2.heap[e] == WithParent(c.heap[e], None);
  }

  // ---------- where the documented outcome fails ----------

  /** A book with one person, 1, whose emails 2 and 3 are the members of the group 4; the emails
      5 and 6 are new and nobody holds them yet. */
  function Edited(): Cache {
    Cache(map[
      0 := Folder("", "", None, "", [], [1], [4]),
      1 := Person("p", "", Some(0), "", "", "", [2, 3], []),
      2 := EMail("e", "", Some(1), "a", ""),
      3 := EMail("f", "", Some(1), "b", ""),
      4 := Group("g", "", Some(0), "", [2, 3]),
      5 := EMail("", "", None, "c", ""),
      6 := EMail("", "", None, "d", "")],
      map["p" := 1, "e" := 2, "f" := 3, "g" := 4], 0, 0, 7, false)
  }

  lemma LetterIsFresh(u: Uid, n: nat)
    requires u == "p" || u == "e" || u == "f" || u == "g"
    ensures Decimal(n) != u
  {
    var d := Decimal(n);
    assert d[|d| - 1] == Digit(n % 10);
  }

  lemma EditedRooted()
    ensures RootedOk(Edited())
  {
    var h := Edited().heap;
    ReachesRefl(h, 0);
    ReachesStep(h, 0, 1);
    ReachesStep(h, 0, 4);
    ReachesStep(h, 0, 2);
    ReachesStep(h, 0, 3);
  }

  lemma EditedFresh()
    ensures FreshOk(Edited())
  {
    var c := Edited();
    forall u | u in c.hash
      ensures FreshUid(c, u)
    {
      forall n: nat | n > 0
        ensures Decimal(n) != u
      {
        LetterIsFresh(u, n);
      }
    }
  }

  lemma EditedHashed()
    ensures var c := Edited(); RootOk(c) && KeysOk(c) && HashedOk(c)
  {
  }

  lemma EditedPlaces()
    ensures PlacedOk(Edited())
  {
    var c := Edited();
    assert IsFolder(c, 0);
    forall r | r in c.heap && r != c.root && !c.heap[r].EMail?
      ensures PlacedAt(c, r)
    {
      assert r == 1 || r == 4;
      assert ListOf(c.heap[0], PersonKind) == [1] && ListOf(c.heap[0], GroupKind) == [4];
    }
  }

  lemma EditedLists()
    ensures ListsOk(Edited())
  {
    var c := Edited();
    forall f, k: Kind | IsFolder(c, f)
      ensures ListOk(c.heap, f, k)
    {
      assert f == 0;
    }
  }

  lemma EditedOwned()
    ensures var c := Edited(); EmailsOk(c) && UidsOk(c)
  {
    var c := Edited();
    forall e | Owned(c, e)
      ensures EmailOk(c, e)
    {
      assert e == 2 || e == 3;
    }
  }

  lemma EditedEmails()
    ensures var c := Edited(); PersonsOk(c) && GroupsOk(c)
  {
    var c := Edited();
    forall p | IsPerson(c, p)
      ensures PersonOk(c, p)
    {
      assert p == 1;
    }
    forall g | IsGroup(c, g)
      ensures GroupOk(c, g)
    {
      assert g == 4;
    }
  }

  lemma EditedInv()
    ensures Inv(Edited()) && NewUids(Edited(), 1, [5]) && NewUids(Edited(), 1, [5, 6])
  {
    hide RootOk, KeysOk, HashedOk, ListsOk, PlacedOk, PersonsOk, EmailsOk, UidsOk, GroupsOk, RootedOk, FreshOk;
    EditedRooted();
    EditedFresh();
    EditedHashed();
    EditedPlaces();
    EditedLists();
    EditedOwned();
    EditedEmails();
  }

  /** Addresses that are in lower case already. */
  function AsIs(x: string): string { x }

  /** Neither new address matches, so the group's first member is dropped: from there on the
      group's list head is freed memory. */
  lemma FirstMemberDropped()
    ensures var c := Edited(); Inv(c) && NewUids(c, 1, [5, 6]) && AreEmails(c.heap, [5, 6])
                               && !HeadsKept(c.heap, 1, [5, 6], AsIs)
  {
    EditedInv();
    hide Inv, NewUids;
    var h := Edited().heap;
    var es: seq<Ref> := [5, 6];
    assert es[1..] == [6] && [6][1..] == [];
    assert es[0] == 5 && es[1] == 6 && 5 in es && 6 in es;
    assert AsIs(h[5].address) in Addresses(h, es, AsIs) && AsIs(h[6].address) in Addresses(h, es, AsIs);
    assert Addresses(h, es, AsIs) == {"c", "d"};
    assert Dropped(h, 1, es, AsIs, h[4].members[0]);
  }

  /** The person is left with one address, both members go to it, and the group refers to it
      twice: the outcome is the documented one and yet breaks the rule that removal relies on. */
  lemma MembersRunTogether()
    ensures var c := Edited(); Inv(c) && NewUids(c, 1, [5]) && AreEmails(c.heap, [5]) && HeadsKept(c.heap, 1, [5], AsIs)
    ensures !KeepsApart(Edited().heap, 1, [5], AsIs)
  {
    EditedInv();
    hide Inv, NewUids;
    var h := Edited().heap;
    var es: seq<Ref> := [5];
    assert es[1..] == [] && es[0] == 5 && 5 in es;
    assert AsIs(h[5].address) in Addresses(h, es, AsIs);
    assert Addresses(h, es, AsIs) == {"c"};
    assert Successor(h, es, AsIs, 2) == Some(5) && Successor(h, es, AsIs, 3) == Some(5);
    assert !ApartIn(h, 1, es, AsIs, 4);
  }
}
