/** Where each harvested address ends and what its person holds (src/addrharvest.c:317-387). */
module HarvestHomes {
  import opened Items
  import opened CacheState
  import opened AddrCache
  import opened AddrHarvest

  // ---------- the addresses that are new ----------

  /** The `i`-th address is not among those before it, in lower case. */
  ghost predicate IsFirst(puts: seq<Put>, lower: string -> string, i: nat) {
    i < |puts| && forall j {:trigger puts[j]} | 0 <= j < i :: lower(puts[j].address) != lower(puts[i].address)
  }

  /** How many new addresses the header `k` has brought. */
  ghost function Rank(puts: seq<Put>, lower: string -> string, k: nat): nat {
    if puts == [] then 0
    else
      var n := |puts| - 1;
      Rank(puts[..n], lower, k) + if puts[n].entry == k && IsFirst(puts, lower, n) then 1 else 0
  }

  // ---------- a person and its place ----------

  /** The person holds one email, of this address and nothing else. */
  ghost predicate HoldsOnly(c: Cache, p: Ref, address: string) {
    && IsPerson(c, p) && |c.heap[p].emails| == 1
    && var e := c.heap[p].emails[0];
    && e in c.heap && c.heap[e].EMail? && c.heap[e].parent == Some(p)
    && c.heap[e].address == address && c.heap[e].name == "" && c.heap[e].remarks == ""
  }

  /** The person of `key` is the `r`-th of the header `k`, counted through its folders. */
  ghost predicate LiesAt(h: Harvest, made: seq<seq<Ref>>, k: nat, key: string, r: nat) {
    && key in h.dup && k < |made| && h.size > 0 && r / h.size < |made[k]|
    && var f := made[k][r / h.size];
    IsFolder(h.c, f) && r % h.size < |h.c.heap[f].persons| && h.c.heap[f].persons[r % h.size] == h.dup[key]
  }

  ghost predicate Housed(h: Harvest, made: seq<seq<Ref>>, done: seq<Put>, lower: string -> string) {
    && |made| == |h.entries|
    && (forall k: nat {:trigger h.entries[k]} | k < |h.entries| :: h.entries[k].count == Rank(done, lower, k))
    && (forall i: nat {:trigger IsFirst(done, lower, i)} | IsFirst(done, lower, i) ::
          && LiesAt(h, made, done[i].entry, lower(done[i].address), Rank(done[..i], lower, done[i].entry))
          && HoldsOnly(h.c, h.dup[lower(done[i].address)], done[i].address))
  }

  // ---------- one more ----------

  lemma RankMore(done: seq<Put>, p: Put, lower: string -> string, k: nat)
    ensures Rank(done + [p], lower, k) ==
      Rank(done, lower, k) + if p.entry == k && IsFirst(done + [p], lower, |done|) then 1 else 0
  {
    assert (done + [p])[..|done|] == done;
  }

  lemma FirstBefore(done: seq<Put>, p: Put, lower: string -> string, i: nat)
    requires i < |done|
    ensures IsFirst(done + [p], lower, i) <==> IsFirst(done, lower, i)
    ensures (done + [p])[i] == done[i] && (done + [p])[..i] == done[..i]
  {
    var more := done + [p];
    assert forall j | 0 <= j <= i :: more[j] == done[j];
    if IsFirst(more, lower, i) {
      forall j | 0 <= j < i
        ensures lower(done[j].address) != lower(done[i].address)
      {
        assert more[j] == done[j];
      }
    }
  }

  /** An address is known exactly if it has been put in. */
  lemma FirstExactly(h: Harvest, done: seq<Put>, p: Put, lower: string -> string)
    requires Known(h, SeenOf(done), lower)
    ensures IsFirst(done + [p], lower, |done|) <==> lower(p.address) !in h.dup
  {
    KnownKeys(h, done, lower);
    var more := done + [p];
    if lower(p.address) in h.dup {
      var i :| 0 <= i < |done| && lower(done[i].address) == lower(p.address);
      assert more[i] == done[i];
    } else {
      forall j | 0 <= j < |done|
        ensures lower(more[j].address) != lower(p.address)
      {
        assert more[j] == done[j] && lower(done[j].address) in h.dup;
      }
    }
  }

  lemma ContactHolds(c: Cache, f: Ref, name: string, address: string)
    requires Inv(c) && IsFolder(c, f)
    ensures HoldsOnly(Contact(c, f, name, address, ""), c.top, address)
  {
  }

  /** What is no folder stays as it is when a new address is put in. */
  lemma OthersStay(h: Harvest, k: nat, name: string, address: string, lower: string -> string, z: Ref)
    requires Ready(h, k) && lower(address) !in h.dup && z in h.c.heap && !h.c.heap[z].Folder?
    ensures var g := InsertOne(h, k, name, address, lower); z in g.c.heap && g.c.heap[z] == h.c.heap[z]
  {
    TargetAt(h, k, z);
    RootIsFolder(h.c);
    var (c, f) := Target(h, k);
    ContactAt(c, f, name, address, z);
    hide Inv, Contact, Target;
  }

  /** A known address may rename its person, which changes no place and no email. */
  lemma KnownHoused(h: Harvest, made: seq<seq<Ref>>, done: seq<Put>, lower: string -> string, p: Put)
    requires Ready(h, p.entry) && Known(h, SeenOf(done), lower) && Housed(h, made, done, lower)
    requires lower(p.address) in h.dup
    ensures Housed(InsertOne(h, p.entry, p.name, p.address, lower), made, done + [p], lower)
  {
    FirstExactly(h, done, p, lower);
    var g := InsertOne(h, p.entry, p.name, p.address, lower);
    var more := done + [p];
    hide Known, Inv;
    forall k: nat | k < |g.entries|
      ensures g.entries[k].count == Rank(more, lower, k)
    {
      RankMore(done, p, lower, k);
    }
    forall i: nat | IsFirst(more, lower, i)
      ensures LiesAt(g, made, more[i].entry, lower(more[i].address), Rank(more[..i], lower, more[i].entry))
      ensures HoldsOnly(g.c, g.dup[lower(more[i].address)], more[i].address)
    {
      FirstBefore(done, p, lower, i);
      assert IsFirst(done, lower, i);
    }
  }

  /** The place of the new person, and what it holds. */
  lemma NewHome(h: Harvest, made: seq<seq<Ref>>, k: nat, name: string, address: string, lower: string -> string)
    requires Ready(h, k) && k < |made| && Chunked(h.c, h.entries[k], made[k], h.size) && lower(address) !in h.dup
    ensures var g := InsertOne(h, k, name, address, lower);
      && LiesAt(g, MadeAfter(h, made, k), k, lower(address), h.entries[k].count)
      && HoldsOnly(g.c, g.dup[lower(address)], address)
  {
    var e := h.entries[k];
    var (c, f) := Target(h, k);
    var g := InsertOne(h, k, name, address, lower);
    TargetInv(h, k);
    ContactHolds(c, f, name, address);
    assert g.c == Contact(c, f, name, address, "") && g.dup[lower(address)] == c.top;
    NewPlace(h, made, k);
    if NeedsFolder(e, h.size) {
      NewFolderAt(h, k, name, address, lower);
    } else {
      InsertedAt(h, k, name, address, lower, f);
    }
    hide InsertOne, Target, Contact, Inv, HoldsOnly, Chunked;
  }

  /** The next address goes behind all that the header has. */
  lemma NewPlace(h: Harvest, made: seq<seq<Ref>>, k: nat)
    requires Ready(h, k) && k < |made| && Chunked(h.c, h.entries[k], made[k], h.size)
    ensures var e := h.entries[k]; var f := Target(h, k).1; var n := e.count / h.size;
      && n < |MadeAfter(h, made, k)[k]| && MadeAfter(h, made, k)[k][n] == f
      && (NeedsFolder(e, h.size) ==> e.count % h.size == 0)
      && (!NeedsFolder(e, h.size) ==> IsFolder(h.c, f) && |h.c.heap[f].persons| == e.count % h.size)
  {
    TargetAt(h, k, Target(h, k).1);
    hide Target, Inv;
  }

  lemma OldHome(h: Harvest, made: seq<seq<Ref>>, k: nat, name: string, address: string, lower: string -> string,
      l: nat, key: string, r: nat)
    requires Ready(h, k) && k < |made| && lower(address) !in h.dup && LiesAt(h, made, l, key, r)
    ensures LiesAt(InsertOne(h, k, name, address, lower), MadeAfter(h, made, k), l, key, r)
  {
    var f := made[l][r / h.size];
    InsertedAt(h, k, name, address, lower, f);
    hide InsertOne, Target, Inv;
    assert MadeAfter(h, made, k)[l][r / h.size] == f;
  }

  lemma OldHolds(h: Harvest, k: nat, name: string, address: string, lower: string -> string, key: string, a: string)
    requires Ready(h, k) && lower(address) !in h.dup && key in h.dup && HoldsOnly(h.c, h.dup[key], a)
    ensures var g := InsertOne(h, k, name, address, lower);
      key in g.dup && g.dup[key] == h.dup[key] && HoldsOnly(g.c, h.dup[key], a)
  {
    var p := h.dup[key];
    InsertedAt(h, k, name, address, lower, p);
    OthersStay(h, k, name, address, lower, p);
    OthersStay(h, k, name, address, lower, h.c.heap[p].emails[0]);
    hide InsertOne, Target, Inv;
  }

  lemma EntriesAfter(h: Harvest, k: nat, name: string, address: string, lower: string -> string)
    requires Ready(h, k) && lower(address) !in h.dup
    ensures var g := InsertOne(h, k, name, address, lower);
      |g.entries| == |h.entries| && forall l: nat | l < |g.entries| ::
        g.entries[l].count == h.entries[l].count + if l == k then 1 else 0
  {
  }

  lemma NewHoused(h: Harvest, made: seq<seq<Ref>>, done: seq<Put>, lower: string -> string, p: Put)
    requires Ready(h, p.entry) && Known(h, SeenOf(done), lower) && Housed(h, made, done, lower)
    requires Chunked(h.c, h.entries[p.entry], made[p.entry], h.size) && lower(p.address) !in h.dup
    ensures Housed(InsertOne(h, p.entry, p.name, p.address, lower), MadeAfter(h, made, p.entry), done + [p], lower)
  {
    FirstExactly(h, done, p, lower);
    EntriesAfter(h, p.entry, p.name, p.address, lower);
    NewHome(h, made, p.entry, p.name, p.address, lower);
    hide Known, InsertOne, LiesAt, HoldsOnly, Chunked, Inv;
    var g := InsertOne(h, p.entry, p.name, p.address, lower);
    var after := MadeAfter(h, made, p.entry);
    var more := done + [p];
    forall k: nat | k < |g.entries|
      ensures g.entries[k].count == Rank(more, lower, k)
    {
      RankMore(done, p, lower, k);
      assert h.entries[k].count == Rank(done, lower, k);
    }
    forall i: nat | IsFirst(more, lower, i)
      ensures LiesAt(g, after, more[i].entry, lower(more[i].address), Rank(more[..i], lower, more[i].entry))
      ensures lower(more[i].address) in g.dup && HoldsOnly(g.c, g.dup[lower(more[i].address)], more[i].address)
    {
      if i < |done| {
        FirstBefore(done, p, lower, i);
        assert IsFirst(done, lower, i);
        LiesKey(h, made, done[i].entry, lower(done[i].address), Rank(done[..i], lower, done[i].entry));
        OldHome(h, made, p.entry, p.name, p.address, lower, done[i].entry, lower(done[i].address),
          Rank(done[..i], lower, done[i].entry));
        OldHolds(h, p.entry, p.name, p.address, lower, lower(done[i].address), done[i].address);
      } else {
        assert more[i] == p && more[..i] == done;
        assert h.entries[p.entry].count == Rank(done, lower, p.entry);
        LiesKey(g, after, p.entry, lower(p.address), Rank(done, lower, p.entry));
      }
    }
  }

  lemma LiesKey(h: Harvest, made: seq<seq<Ref>>, k: nat, key: string, r: nat)
    requires LiesAt(h, made, k, key, r)
    ensures key in h.dup
  {
  }

  // ---------- whole runs ----------

  lemma {:induction false} RunHoused(h: Harvest, made: seq<seq<Ref>>, done: seq<Put>, puts: seq<Put>,
      lower: string -> string)
    requires Working(h, made, SeenOf(done), lower) && Housed(h, made, done, lower)
    requires forall i | 0 <= i < |puts| :: puts[i].entry < |h.entries|
    ensures ReadyAll(h, puts, lower)
    ensures Housed(InsertAll(h, puts, lower), MadeAll(h, made, puts, lower), done + puts, lower)
    decreases |puts|
  {
    hide Ready, NextMade, SeenOf, InsertOne, Housed, Working;
    if puts == [] {
      assert done + puts == done;
    } else {
      var p := puts[0];
      var next := InsertWorks(h, made, SeenOf(done), lower, p.entry, p.name, p.address);
      var g := InsertOne(h, p.entry, p.name, p.address, lower);
      NextHoused(h, made, done, lower, p);
      SameEntries(h, p.entry, p.name, p.address, lower);
      SeenMore(done, p);
      assert forall i | 0 <= i < |puts[1..]| :: puts[1..][i] == puts[i + 1];
      RunHoused(g, next, done + [p], puts[1..], lower);
      assert done + [p] + puts[1..] == done + puts;
    }
  }

  lemma SeenMore(done: seq<Put>, p: Put)
    ensures SeenOf(done + [p]) == SeenOf(done) + [Seen(p.name, p.address)]
  {
  }

  lemma NextHoused(h: Harvest, made: seq<seq<Ref>>, done: seq<Put>, lower: string -> string, p: Put)
    requires Working(h, made, SeenOf(done), lower) && Housed(h, made, done, lower) && Ready(h, p.entry)
      && p.entry < |made|
    ensures Housed(InsertOne(h, p.entry, p.name, p.address, lower), NextMade(h, made, p.entry, lower(p.address)),
      done + [p], lower)
  {
    assert Chunked(h.c, h.entries[p.entry], made[p.entry], h.size);
    hide Known, InsertOne, Chunked, Housed, Ready, MadeAfter, Inv;
    if lower(p.address) in h.dup {
      KnownHoused(h, made, done, lower, p);
    } else {
      NewHoused(h, made, done, lower, p);
    }
  }

  /** Each new address of a header goes to the next place in the folders of that header, in the order in
      which they were found, and its person holds one email: that address as it was first found, with
      neither alias nor remarks. */
  lemma HarvestedInTurn(c: Cache, headers: seq<string>, size: nat, puts: seq<Put>, lower: string -> string)
    requires Inv(c) && size > 0 && forall i | 0 <= i < |puts| :: puts[i].entry < |headers|
    ensures ReadyAll(NewHarvest(c, headers, size), puts, lower)
    ensures var h := InsertAll(NewHarvest(c, headers, size), puts, lower);
      var made := FoldersOf(c, headers, size, puts, lower);
      && |made| == |h.entries| == |headers| && h.size == size
      && (forall k: nat | k < |headers| :: h.entries[k].count == Rank(puts, lower, k))
      && (forall i: nat | IsFirst(puts, lower, i) ::
            && LiesAt(h, made, puts[i].entry, lower(puts[i].address), Rank(puts[..i], lower, puts[i].entry))
            && HoldsOnly(h.c, h.dup[lower(puts[i].address)], puts[i].address))
  {
    hide Inv, LiesAt, HoldsOnly, Working, Rank, NewHarvest, NoneMade, InsertAll, MadeAll, Harvests,
      ReadyAll, IsFirst, SeenOf;
    var h0 := NewHarvest(c, headers, size);
    var made0 := FreshWorks(c, headers, size, lower);
    NothingHoused(c, headers, size, lower);
    assert SeenOf([]) == [];
    RunHoused(h0, made0, [], puts, lower);
    assert [] + puts == puts;
    RunEntries(h0, puts, lower);
  }

  lemma NothingHoused(c: Cache, headers: seq<string>, size: nat, lower: string -> string)
    ensures Housed(NewHarvest(c, headers, size), NoneMade(headers), [], lower)
  {
  }
}
