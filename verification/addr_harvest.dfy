/** Harvesting addresses into folders of a limited size (src/addrharvest.c:176-183, 311-387,
    532-599). */
module AddrHarvest {
  import opened Items
  import opened CacheState
  import opened CacheEdit
  import opened AddrCache
  import opened HarvestScan

  /** `HeaderEntry`: a header, the folder being filled and the number of addresses so far. */
  datatype Entry = Entry(header: string, folder: Option<Ref>, count: nat)

  /** A harvester with the cache it fills; `dup` is the source's `dupTable`. */
  datatype Harvest = Harvest(c: Cache, dup: map<string, Ref>, entries: seq<Entry>, size: nat)

  /** The name of the folder that is begun when there are `count` addresses. */
  function FolderName(header: string, count: nat, size: nat): string
    requires size > 0
  {
    header + " (" + Decimal(1 + count / size) + ")"
  }

  function NewFolder(uid: Uid, name: string): Item {
    Folder(uid, name, None, "", [], [], [])
  }

  /** The cache with a new folder below the root. */
  function WithFolder(c: Cache, name: string): Cache
    requires IsFolder(c, c.root)
  {
    Insert(Tick(c), c.root, NewFolder(NextUid(c), name))
  }

  lemma WithFolderInv(c: Cache, name: string)
    requires Inv(c)
    ensures IsFolder(c, c.root)
    ensures var d := WithFolder(c, name);
      && Inv(d) && d.top == c.top + 1 && c.top !in c.heap && d.root == c.root
      && d.heap == c.heap[c.top := WithParent(NewFolder(NextUid(c), name), Some(c.root))]
                         [c.root := c.heap[c.root].(folders := c.heap[c.root].folders + [c.top])]
  {
    TickInv(c);
    InsertInv(Tick(c), c.root, NewFolder(NextUid(c), name));
  }

  // ---------- one address ----------

  ghost predicate Ready(h: Harvest, k: nat) {
    && Inv(h.c) && h.size > 0 && k < |h.entries|
    && (h.entries[k].folder.Some? ==> IsFolder(h.c, h.entries[k].folder.value))
    && forall key | key in h.dup :: IsPerson(h.c, h.dup[key])
  }

  predicate NeedsFolder(e: Entry, size: nat)
    requires size > 0
  {
    e.folder.None? || e.count % size == 0
  }

  /** The cache and the folder that the next address of entry `k` goes to. */
  ghost function Target(h: Harvest, k: nat): (Cache, Ref)
    requires Ready(h, k)
  {
    WithFolderInv(h.c, "");
    var e := h.entries[k];
    if NeedsFolder(e, h.size) then (WithFolder(h.c, FolderName(e.header, e.count, h.size)), h.c.top)
      else (h.c, e.folder.value)
  }

  lemma TargetInv(h: Harvest, k: nat)
    requires Ready(h, k)
    ensures var (c, f) := Target(h, k); Inv(c) && IsFolder(c, f)
  {
    WithFolderInv(h.c, FolderName(h.entries[k].header, h.entries[k].count, h.size));
  }

  /** `addrharvest_insert_cache`.  The parsing of first and last names is not part of this model. */
  ghost function InsertOne(h: Harvest, k: nat, name: string, address: string, lower: string -> string): Harvest
    requires Ready(h, k)
  {
    var key := lower(address);
    if key in h.dup then
      var p := h.dup[key];
      if |name| > |h.c.heap[p].name| then h.(c := h.c.(heap := h.c.heap[p := WithName(h.c.heap[p], name)])) else h
    else
      TargetInv(h, k);
      var (c, f) := Target(h, k);
      var e := h.entries[k];
      Harvest(Contact(c, f, name, address, ""), h.dup[key := c.top],
        h.entries[k := Entry(e.header, Some(f), e.count + 1)], h.size)
  }

  // ---------- the chunks ----------

  /** Entry `k` has filled the folders `fs`: all of them are full, but for the last if the count does
      not come out even. */
  ghost predicate Chunked(c: Cache, e: Entry, fs: seq<Ref>, size: nat)
    requires size > 0
  {
    && |fs| == e.count / size + (if e.count % size == 0 then 0 else 1)
    && (forall i {:trigger fs[i]} | 0 <= i < |fs| :: IsFolder(c, fs[i]) && fs[i] != c.root
          && |c.heap[fs[i]].persons| == if i < e.count / size then size else e.count % size)
    && e.folder == if fs == [] then None else Some(fs[|fs| - 1])
  }

  /** No folder is in two places. */
  ghost predicate Separate(made: seq<seq<Ref>>) {
    forall k, i, l, j {:trigger made[k][i], made[l][j]} ::
      0 <= k < |made| && 0 <= i < |made[k]| && 0 <= l < |made| && 0 <= j < |made[l]| && made[k][i] == made[l][j] ==>
        k == l && i == j
  }

  function Total(entries: seq<Entry>): nat {
    if entries == [] then 0 else Total(entries[..|entries| - 1]) + entries[|entries| - 1].count
  }

  datatype Seen = Seen(name: string, address: string)

  /** The first of the longest names seen with an address. */
  function Longest(seen: seq<Seen>, lower: string -> string, key: string): Option<string> {
    if seen == [] then None
    else
      var n := |seen| - 1;
      var rest := Longest(seen[..n], lower, key);
      if lower(seen[n].address) != key then rest
      else if rest.None? || |seen[n].name| > |rest.value| then Some(seen[n].name)
      else rest
  }

  /** What that means. */
  lemma {:induction false} LongestMeans(seen: seq<Seen>, lower: string -> string, key: string)
    ensures match Longest(seen, lower, key)
      case None => forall i | 0 <= i < |seen| :: lower(seen[i].address) != key
      case Some(m) =>
        && (exists i :: 0 <= i < |seen| && lower(seen[i].address) == key && seen[i].name == m
              && forall j | 0 <= j < i :: lower(seen[j].address) == key ==> |seen[j].name| < |m|)
        && (forall j | 0 <= j < |seen| :: lower(seen[j].address) == key ==> |seen[j].name| <= |m|)
    decreases |seen|
  {
    if seen != [] {
      var n := |seen| - 1;
      var before := seen[..n];
      LongestMeans(before, lower, key);
      assert forall i | 0 <= i < n :: before[i] == seen[i];
      var rest := Longest(before, lower, key);
      if lower(seen[n].address) == key && (rest.None? || |seen[n].name| > |rest.value|) {
        assert lower(seen[n].address) == key && seen[n].name == seen[n].name;
      } else if rest.Some? {
        var i :| 0 <= i < |before| && lower(before[i].address) == key && before[i].name == rest.value
          && forall j | 0 <= j < i :: lower(before[j].address) == key ==> |before[j].name| < |rest.value|;
        assert seen[i].name == rest.value;
      }
    }
  }

  /** The table of known addresses: each leads to a person of its own with the longest name seen. */
  ghost predicate Known(h: Harvest, seen: seq<Seen>, lower: string -> string) {
    && (forall key {:trigger key in h.dup} :: key in h.dup <==> Longest(seen, lower, key).Some?)
    && (forall key {:trigger h.dup[key]} | key in h.dup :: IsPerson(h.c, h.dup[key])
               && Some(h.c.heap[h.dup[key]].name) == Longest(seen, lower, key))
    && (forall a, b {:trigger h.dup[a], h.dup[b]} | a in h.dup && b in h.dup && h.dup[a] == h.dup[b] :: a == b)
  }

  /** A harvester at work: `made[k]` are the folders of entry `k`, `seen` all that was put in. */
  ghost predicate Working(h: Harvest, made: seq<seq<Ref>>, seen: seq<Seen>, lower: string -> string) {
    && Inv(h.c) && h.size > 0 && |made| == |h.entries|
    && (forall k {:trigger made[k]} | 0 <= k < |made| :: Chunked(h.c, h.entries[k], made[k], h.size))
    && Separate(made) && Total(h.entries) == |h.dup|
    && Known(h, seen, lower)
  }

  lemma DivStep(n: nat, s: nat)
    requires s > 0
    ensures if n % s == s - 1 then (n + 1) / s == n / s + 1 && (n + 1) % s == 0 else (n + 1) / s == n / s
                                                                                     && (n + 1) % s == n % s + 1
  {
    var q, r := n / s, n % s;
    assert n == q * s + r;
    if r == s - 1 {
      assert n + 1 == (q + 1) * s;
      DivUnique(n + 1, s, q + 1, 0);
    } else {
      DivUnique(n + 1, s, q, r + 1);
    }
  }

  lemma {:induction false} MulStep(a: nat, b: nat, s: nat)
    requires a < b
    ensures a * s + s <= b * s
    decreases b - a
  {
    assert (a + 1) * s == a * s + s;
    if a + 1 < b {
      MulStep(a + 1, b, s);
    }
  }

  lemma DivUnique(n: nat, s: nat, q: nat, r: nat)
    requires r < s && n == q * s + r
    ensures n / s == q && n % s == r
  {
    var a, b := n / s, n % s;
    assert n == a * s + b;
    if a < q {
      MulStep(a, q, s);
    } else if q < a {
      MulStep(q, a, s);
    }
  }

  /** The number of folders is the count divided by the size, rounded up. */
  lemma FoldersAreCeiling(n: nat, s: nat)
    requires s > 0
    ensures n / s + (if n % s == 0 then 0 else 1) == (n + s - 1) / s
  {
    var q, r := n / s, n % s;
    assert n == q * s + r;
    if r == 0 {
      DivUnique(n + s - 1, s, q, s - 1);
    } else {
      assert n + s - 1 == (q + 1) * s + (r - 1);
      DivUnique(n + s - 1, s, q + 1, r - 1);
    }
  }

  lemma {:induction false} TotalSet(entries: seq<Entry>, k: nat, e: Entry)
    requires k < |entries|
    ensures Total(entries[k := e]) == Total(entries) - entries[k].count + e.count
    decreases |entries|
  {
    var n := |entries| - 1;
    if k < n {
      assert entries[k := e][..n] == entries[..n][k := e];
      TotalSet(entries[..n], k, e);
    } else {
      assert entries[k := e][..n] == entries[..n];
    }
  }

  lemma WorkingReady(h: Harvest, made: seq<seq<Ref>>, seen: seq<Seen>, lower: string -> string, k: nat)
    requires Working(h, made, seen, lower) && k < |h.entries|
    ensures Ready(h, k)
  {
    var fs := made[k];
    assert Chunked(h.c, h.entries[k], fs, h.size);
    if fs != [] {
      assert IsFolder(h.c, fs[|fs| - 1]);
    }
  }

  // ---------- a known address ----------

  /** The cache with the person's name replaced. */
  function Renamed(c: Cache, p: Ref, name: string): Cache
    requires IsPerson(c, p)
  {
    c.(heap := c.heap[p := WithName(c.heap[p], name)])
  }

  lemma RenamedKnown(h: Harvest, seen: seq<Seen>, lower: string -> string, name: string, address: string)
    requires Known(h, seen, lower) && lower(address) in h.dup
    ensures var p := h.dup[lower(address)];
      && IsPerson(h.c, p)
      && Known(if |name| > |h.c.heap[p].name| then h.(c := Renamed(h.c, p, name))
        else h, seen + [Seen(name, address)], lower)
  {
    var key := lower(address);
    var p := h.dup[key];
    var more := seen + [Seen(name, address)];
    assert more[..|seen|] == seen;
    assert IsPerson(h.c, p) && Some(h.c.heap[p].name) == Longest(seen, lower, key);
    var g := if |name| > |h.c.heap[p].name| then h.(c := Renamed(h.c, p, name)) else h;
    forall a
      ensures a in g.dup <==> Longest(more, lower, a).Some?
      ensures a in g.dup ==> IsPerson(g.c, g.dup[a]) && Some(g.c.heap[g.dup[a]].name) == Longest(more, lower, a)
    {
      assert a in h.dup <==> Longest(seen, lower, a).Some?;
      if a in h.dup {
        assert IsPerson(h.c, h.dup[a]) && Some(h.c.heap[h.dup[a]].name) == Longest(seen, lower, a);
        assert a != key ==> h.dup[a] != p;
      }
    }
  }

  lemma RenamedChunk(c: Cache, p: Ref, name: string, e: Entry, fs: seq<Ref>, size: nat)
    requires size > 0 && IsPerson(c, p) && Chunked(c, e, fs, size)
    ensures Chunked(Renamed(c, p, name), e, fs, size)
  {
  }

  lemma RenamedWorking(h: Harvest, made: seq<seq<Ref>>, seen: seq<Seen>, lower: string -> string, k: nat,
      name: string, address: string)
    requires Working(h, made, seen, lower) && k < |h.entries| && lower(address) in h.dup
    ensures Ready(h, k)
    ensures Working(InsertOne(h, k, name, address, lower), made, seen + [Seen(name, address)], lower)
  {
    hide Inv, Known, Separate, Chunked;
    WorkingReady(h, made, seen, lower, k);
    RenamedKnown(h, seen, lower, name, address);
    var p := h.dup[lower(address)];
    var g := InsertOne(h, k, name, address, lower);
    if |name| > |h.c.heap[p].name| {
      SameRecords(h.c, Renamed(h.c, p, name));
      forall l | 0 <= l < |made|
        ensures Chunked(g.c, g.entries[l], made[l], g.size)
      {
        RenamedChunk(h.c, p, name, h.entries[l], made[l], h.size);
      }
    }
  }

  // ---------- a new address ----------

  lemma ContactAt(c: Cache, f: Ref, name: string, address: string, z: Ref)
    requires Inv(c) && IsFolder(c, f)
    ensures var d := Contact(c, f, name, address, "");
      && d.root == c.root && (z in c.heap ==> z < c.top && z in d.heap)
      && (z in c.heap && z != f ==> d.heap[z] == c.heap[z])
      && d.heap[f] == WithList(c.heap[f], PersonKind, c.heap[f].persons + [c.top])
      && IsPerson(d, c.top) && d.heap[c.top].name == name && c.top !in c.heap
  {
  }

  lemma TargetAt(h: Harvest, k: nat, z: Ref)
    requires Ready(h, k)
    ensures var (c, f) := Target(h, k); var e := h.entries[k];
      && Inv(c) && IsFolder(c, f) && c.root == h.c.root
      && (z in h.c.heap ==> z in c.heap && (z != c.root ==> c.heap[z] == h.c.heap[z]))
      && (NeedsFolder(e, h.size) ==> f == h.c.top && f !in h.c.heap && c.heap[f].persons == [] && f != c.root)
      && (NeedsFolder(e, h.size) ==> c.heap[f].name == FolderName(e.header, e.count, h.size))
      && (NeedsFolder(e, h.size) ==> c.heap[f].parent == Some(c.root))
      && (!NeedsFolder(e, h.size) ==> c == h.c && Some(f) == e.folder)
  {
    WithFolderInv(h.c, FolderName(h.entries[k].header, h.entries[k].count, h.size));
  }

  /** A folder that is begun gets the number of the folders there are, and one. */
  lemma NumberIs(header: string, count: nat, size: nat)
    requires size > 0
    ensures FolderName(header, count, size) == header + " (" + Decimal(count / size + 1) + ")"
  {
  }

  /** One more address in the last folder of its entry, or in a new one. */
  ghost function MadeAfter(h: Harvest, made: seq<seq<Ref>>, k: nat): seq<seq<Ref>>
    requires Ready(h, k) && k < |made|
  {
    if NeedsFolder(h.entries[k], h.size) then made[k := made[k] + [Target(h, k).1]] else made
  }

  /** How full the `i`-th folder of the entry is afterwards. */
  lemma NewChunkAt(h: Harvest, made: seq<seq<Ref>>, k: nat, name: string, address: string, i: nat)
    requires Ready(h, k) && k < |made| && Chunked(h.c, h.entries[k], made[k], h.size) && Separate(made)
    requires i < |MadeAfter(h, made, k)[k]|
    ensures var (c, f) := Target(h, k); IsFolder(c, f)
    ensures var (c, f) := Target(h, k); var z := MadeAfter(h, made, k)[k][i]; var d := Contact(c, f, name, address, "");
      var n := h.entries[k].count + 1;
      IsFolder(d, z) && z != d.root && |d.heap[z].persons| == if i < n / h.size then h.size else n % h.size
  {
    hide Target, Contact, Inv, Separate;
    var e := h.entries[k];
    var fs := made[k];
    var (c, f) := Target(h, k);
    var z := MadeAfter(h, made, k)[k][i];
    DivStep(e.count, h.size);
    TargetAt(h, k, z);
    ContactAt(c, f, name, address, z);
    if i < |fs| {
      assert IsFolder(h.c, fs[i]);
      LastIsAlone(h, made, k, i);
    }
  }

  lemma NewChunk(h: Harvest, made: seq<seq<Ref>>, seen: seq<Seen>, lower: string -> string, k: nat, name: string,
      address: string)
    requires Working(h, made, seen, lower) && k < |h.entries| && Ready(h, k) && lower(address) !in h.dup
    ensures var g := InsertOne(h, k, name, address, lower); Chunked(g.c, g.entries[k], MadeAfter(h, made, k)[k], h.size)
  {
    hide Contact, Target, Inv, Separate, Known;
    var e := h.entries[k];
    var (c, f) := Target(h, k);
    var g := InsertOne(h, k, name, address, lower);
    var gs := MadeAfter(h, made, k)[k];
    assert Chunked(h.c, e, made[k], h.size);
    DivStep(e.count, h.size);
    TargetAt(h, k, f);
    forall i | 0 <= i < |gs|
      ensures IsFolder(g.c, gs[i]) && gs[i] != g.c.root
      ensures |g.c.heap[gs[i]].persons| == if i < (e.count + 1) / h.size then h.size else (e.count + 1) % h.size
    {
      NewChunkAt(h, made, k, name, address, i);
    }
  }

  /** A folder before the last is not the one being filled. */
  lemma LastIsAlone(h: Harvest, made: seq<seq<Ref>>, k: nat, i: nat)
    requires Ready(h, k) && k < |made| && Chunked(h.c, h.entries[k], made[k], h.size) && Separate(made) && i < |made[k]|
    ensures Target(h, k).1 == made[k][i] ==> i == |made[k]| - 1 && !NeedsFolder(h.entries[k], h.size)
  {
    var fs := made[k];
    TargetAt(h, k, fs[i]);
    assert IsFolder(h.c, fs[i]);
    if Target(h, k).1 == fs[i] {
      assert made[k][i] == made[k][|fs| - 1];
    }
  }

  lemma OldChunk(h: Harvest, made: seq<seq<Ref>>, seen: seq<Seen>, lower: string -> string, k: nat, name: string,
      address: string, l: nat)
    requires Working(h, made, seen, lower) && k < |h.entries| && Ready(h, k) && lower(address) !in h.dup && l < |made|
      && l != k
    ensures var g := InsertOne(h, k, name, address, lower); Chunked(g.c, g.entries[l], made[l], h.size)
  {
    var (c, f) := Target(h, k);
    var g := InsertOne(h, k, name, address, lower);
    var fs := made[l];
    assert Chunked(h.c, h.entries[l], fs, h.size) && Chunked(h.c, h.entries[k], made[k], h.size);
    forall i | 0 <= i < |fs|
      ensures IsFolder(g.c, fs[i]) && fs[i] != g.c.root && g.c.heap[fs[i]] == h.c.heap[fs[i]]
    {
      assert IsFolder(h.c, fs[i]);
      TargetAt(h, k, fs[i]);
      ContactAt(c, f, name, address, fs[i]);
      assert fs[i] != f by {
        if !NeedsFolder(h.entries[k], h.size) {
          var n := |made[k]| - 1;
          assert made[k][n] == f;
          assert made[l][i] == made[k][n] ==> l == k;
        }
      }
    }
  }

  lemma OneMoreSeparate(made: seq<seq<Ref>>, k: nat, f: Ref)
    requires Separate(made) && k < |made| && forall l, j | 0 <= l < |made| && 0 <= j < |made[l]| :: made[l][j] != f
    ensures Separate(made[k := made[k] + [f]])
  {
    var after := made[k := made[k] + [f]];
    forall a, i, b, j | 0 <= a < |after| && 0 <= i < |after[a]| && 0 <= b < |after| && 0 <= j < |after[b]|
      && after[a][i] == after[b][j]
      ensures a == b && i == j
    {
      if i < |made[a]| && j < |made[b]| {
        assert made[a][i] == made[b][j];
      }
    }
  }

  lemma MadeSeparate(h: Harvest, made: seq<seq<Ref>>, seen: seq<Seen>, lower: string -> string, k: nat)
    requires Working(h, made, seen, lower) && k < |h.entries| && Ready(h, k)
    ensures Separate(MadeAfter(h, made, k))
  {
    if NeedsFolder(h.entries[k], h.size) {
      TargetAt(h, k, 0);
      forall l, j | 0 <= l < |made| && 0 <= j < |made[l]|
        ensures made[l][j] != h.c.top
      {
        assert Chunked(h.c, h.entries[l], made[l], h.size);
        assert IsFolder(h.c, made[l][j]);
      }
      OneMoreSeparate(made, k, h.c.top);
    }
  }

  lemma LongestMore(seen: seq<Seen>, lower: string -> string, x: Seen, a: string)
    ensures Longest(seen + [x], lower, a) ==
      var rest := Longest(seen, lower, a);
      if lower(x.address) != a then rest else if rest.None? || |x.name| > |rest.value| then Some(x.name) else rest
  {
    assert (seen + [x])[..|seen|] == seen;
  }

  /** What the table says of one address once a new one has been put in. */
  lemma NewKnownAt(h: Harvest, seen: seq<Seen>, lower: string -> string, k: nat, name: string, address: string,
      a: string)
    requires Ready(h, k) && Known(h, seen, lower) && lower(address) !in h.dup
    ensures var g := InsertOne(h, k, name, address, lower); var more := seen + [Seen(name, address)];
      && (a in g.dup <==> Longest(more, lower, a).Some?)
      && (a in g.dup ==> IsPerson(g.c, g.dup[a]) && Some(g.c.heap[g.dup[a]].name) == Longest(more, lower, a))
      && (a in h.dup ==> h.dup[a] != Target(h, k).0.top && g.dup[a] == h.dup[a])
  {
    LongestMore(seen, lower, Seen(name, address), a);
    assert a in h.dup <==> Longest(seen, lower, a).Some?;
    assert a in h.dup ==> IsPerson(h.c, h.dup[a]) && Some(h.c.heap[h.dup[a]].name) == Longest(seen, lower, a);
    RootIsFolder(h.c);
    hide Inv, Target, Contact, Longest, Known;
    var (c, f) := Target(h, k);
    TargetAt(h, k, f);
    ContactAt(c, f, name, address, f);
    if a in h.dup {
      TargetAt(h, k, h.dup[a]);
      ContactAt(c, f, name, address, h.dup[a]);
    }
  }

  lemma NewKnown(h: Harvest, made: seq<seq<Ref>>, seen: seq<Seen>, lower: string -> string, k: nat, name: string,
      address: string)
    requires Working(h, made, seen, lower) && k < |h.entries| && Ready(h, k) && lower(address) !in h.dup
    ensures Known(InsertOne(h, k, name, address, lower), seen + [Seen(name, address)], lower)
  {
    var g := InsertOne(h, k, name, address, lower);
    var more := seen + [Seen(name, address)];
    assert g.dup == h.dup[lower(address) := Target(h, k).0.top];
    hide Inv, Target, Contact, Chunked, Separate, Longest, InsertOne;
    forall a
      ensures a in g.dup <==> Longest(more, lower, a).Some?
      ensures a in g.dup ==> IsPerson(g.c, g.dup[a]) && Some(g.c.heap[g.dup[a]].name) == Longest(more, lower, a)
      ensures a in h.dup ==> h.dup[a] != Target(h, k).0.top
    {
      NewKnownAt(h, seen, lower, k, name, address, a);
    }
  }

  /** The folders made, once the address has been put in. */
  ghost function NextMade(h: Harvest, made: seq<seq<Ref>>, k: nat, key: string): (after: seq<seq<Ref>>)
    requires Ready(h, k) && k < |made|
    ensures |after| == |made|
  {
    if key in h.dup then made else MadeAfter(h, made, k)
  }

  /** Every insertion keeps the harvester at work. */
  lemma InsertWorks(h: Harvest, made: seq<seq<Ref>>, seen: seq<Seen>, lower: string -> string, k: nat, name: string,
      address: string)
    returns (after: seq<seq<Ref>>)
    requires Working(h, made, seen, lower) && k < |h.entries|
    ensures Ready(h, k) && k < |made| && after == NextMade(h, made, k, lower(address))
    ensures Working(InsertOne(h, k, name, address, lower), after, seen + [Seen(name, address)], lower)
  {
    hide Inv, Chunked, Separate, Known, Contact, Target;
    WorkingReady(h, made, seen, lower, k);
    if lower(address) in h.dup {
      after := made;
      RenamedWorking(h, made, seen, lower, k, name, address);
    } else {
      after := MadeAfter(h, made, k);
      var g := InsertOne(h, k, name, address, lower);
      var (c, f) := Target(h, k);
      TargetInv(h, k);
      ContactInv(c, f, name, address, "");
      forall l | 0 <= l < |after|
        ensures Chunked(g.c, g.entries[l], after[l], g.size)
      {
        if l == k {
          NewChunk(h, made, seen, lower, k, name, address);
        } else {
          OldChunk(h, made, seen, lower, k, name, address, l);
        }
      }
      MadeSeparate(h, made, seen, lower, k);
      NewKnown(h, made, seen, lower, k, name, address);
      TotalSet(h.entries, k, g.entries[k]);
    }
  }

  // ---------- what the harvester has made ----------

  /** The `i`-th folder made for a header: it was not there before, bears the header's name and its
      number, and lies below the root. */
  ghost predicate FolderMade(h: Harvest, c0: Cache, header: string, f: Ref, i: nat) {
    && f !in c0.heap && IsFolder(h.c, f) && h.size > 0
    && h.c.heap[f].name == header + " (" + Decimal(i + 1) + ")" && h.c.heap[f].parent == Some(h.c.root)
  }

  /** The person is listed in one of the folders made. */
  ghost predicate InChunk(h: Harvest, made: seq<seq<Ref>>, p: Ref) {
    exists k: nat, i: nat {:trigger made[k][i]} ::
      k < |made| && i < |made[k]| && IsFolder(h.c, made[k][i]) && p in h.c.heap[made[k][i]].persons
  }

  /** What has become of the cache `c0`: the folders made are new, and the persons in them are those
      of the table of known addresses. */
  ghost predicate Harvests(h: Harvest, made: seq<seq<Ref>>, c0: Cache, headers: seq<string>) {
    && |made| == |h.entries| == |headers| && h.c.root == c0.root && c0.heap.Keys <= h.c.heap.Keys
    && (forall k {:trigger headers[k]} {:trigger h.entries[k]} | 0 <= k < |headers| ::
      h.entries[k].header == headers[k])
    && (forall k: nat, i: nat {:trigger made[k][i]} | k < |made| && i < |made[k]| ::
          FolderMade(h, c0, headers[k], made[k][i], i))
    && (forall a {:trigger h.dup[a]} | a in h.dup :: InChunk(h, made, h.dup[a]))
    && (forall p {:trigger InChunk(h, made, p)} | InChunk(h, made, p) :: exists a :: a in h.dup && h.dup[a] == p)
  }

  /** A new address in a folder: what becomes of any other item that was there. */
  lemma InsertedAt(h: Harvest, k: nat, name: string, address: string, lower: string -> string, z: Ref)
    requires Ready(h, k) && lower(address) !in h.dup
    ensures var g := InsertOne(h, k, name, address, lower); var (c, f) := Target(h, k);
      && g.c.root == h.c.root && g.dup == h.dup[lower(address) := c.top] && g.size == h.size
      && (z in h.c.heap ==> z in g.c.heap)
      && (IsFolder(h.c, z) ==> IsFolder(g.c, z) && g.c.heap[z].name == h.c.heap[z].name)
      && (IsFolder(h.c, z) ==> g.c.heap[z].parent == h.c.heap[z].parent)
      && (IsFolder(h.c, z) ==> g.c.heap[z].persons == h.c.heap[z].persons + if z == f then [c.top] else [])
  {
    WithFolderInv(h.c, FolderName(h.entries[k].header, h.entries[k].count, h.size));
    TargetAt(h, k, z);
    var (c, f) := Target(h, k);
    ContactAt(c, f, name, address, z);
    RootIsFolder(h.c);
    hide Inv, Contact;
    assert [] + [c.top] == [c.top];
  }

  lemma NewFolderAt(h: Harvest, k: nat, name: string, address: string, lower: string -> string)
    requires Ready(h, k) && lower(address) !in h.dup && NeedsFolder(h.entries[k], h.size)
    ensures var g := InsertOne(h, k, name, address, lower); var (c, f) := Target(h, k); var e := h.entries[k];
      && f !in h.c.heap && IsFolder(g.c, f) && g.c.heap[f].persons == [c.top]
      && g.c.heap[f].name == FolderName(e.header, e.count, h.size) && g.c.heap[f].parent == Some(g.c.root)
  {
    TargetAt(h, k, h.c.top);
    var (c, f) := Target(h, k);
    ContactAt(c, f, name, address, f);
    hide Inv, Contact, Target;
  }

  /** Any folder made before or now, after one more new address. */
  lemma MadeStays(h: Harvest, made: seq<seq<Ref>>, c0: Cache, headers: seq<string>, k: nat, name: string,
      address: string, lower: string -> string, l: nat, i: nat)
    requires Ready(h, k) && k < |made| && Harvests(h, made, c0, headers) && lower(address) !in h.dup
    requires Chunked(h.c, h.entries[k], made[k], h.size)
    requires l < |made| && i < |MadeAfter(h, made, k)[l]|
    ensures var g := InsertOne(h, k, name, address, lower); var (c, f) := Target(h, k);
      var z := MadeAfter(h, made, k)[l][i];
      && l < |headers| && FolderMade(g, c0, headers[l], z, i)
      && (i < |made[l]| ==> z == made[l][i] && IsFolder(h.c, z))
      && (i < |made[l]| ==> g.c.heap[z].persons == h.c.heap[z].persons + if z == f then [c.top] else [])
      && (i >= |made[l]| ==> l == k && z == f && g.c.heap[z].persons == [c.top])
  {
    hide Inv, InsertOne, Target, InChunk;
    var z := MadeAfter(h, made, k)[l][i];
    if i < |made[l]| {
      assert FolderMade(h, c0, headers[l], made[l][i], i);
      InsertedAt(h, k, name, address, lower, z);
    } else {
      var e := h.entries[k];
      NewFolderAt(h, k, name, address, lower);
      InsertedAt(h, k, name, address, lower, z);
      assert headers[k] == e.header;
      NumberIs(e.header, e.count, h.size);
    }
  }

  /** The new person is in the last folder of its entry, and every other where it was. */
  lemma ChunksAfter(h: Harvest, made: seq<seq<Ref>>, c0: Cache, headers: seq<string>, k: nat, name: string,
      address: string, lower: string -> string, p: Ref)
    requires Ready(h, k) && k < |made| && Harvests(h, made, c0, headers) && lower(address) !in h.dup
    requires Chunked(h.c, h.entries[k], made[k], h.size)
    ensures var g := InsertOne(h, k, name, address, lower);
      InChunk(g, MadeAfter(h, made, k), p) <==> InChunk(h, made, p) || p == Target(h, k).0.top
  {
    hide Inv, InsertOne, Target, Harvests, FolderMade;
    var g := InsertOne(h, k, name, address, lower);
    var after := MadeAfter(h, made, k);
    var (c, f) := Target(h, k);
    if InChunk(h, made, p) {
      var l: nat, i: nat :| l < |made| && i < |made[l]| && IsFolder(h.c, made[l][i])
        && p in h.c.heap[made[l][i]].persons;
      assert after[l][i] == made[l][i];
      MadeStays(h, made, c0, headers, k, name, address, lower, l, i);
      FolderMadeIs(g, c0, headers[l], after[l][i], i);
    }
    if p == c.top {
      var n := |after[k]| - 1;
      LastIsTarget(h, made, k);
      assert after[k][n] == f;
      MadeStays(h, made, c0, headers, k, name, address, lower, k, n);
      FolderMadeIs(g, c0, headers[k], after[k][n], n);
    }
    if InChunk(g, after, p) {
      var l: nat, i: nat :| l < |after| && i < |after[l]| && IsFolder(g.c, after[l][i])
        && p in g.c.heap[after[l][i]].persons;
      MadeStays(h, made, c0, headers, k, name, address, lower, l, i);
      if i < |made[l]| && p != c.top {
        assert made[l][i] == after[l][i];
      }
    }
  }

  lemma FolderMadeIs(h: Harvest, c0: Cache, header: string, f: Ref, i: nat)
    requires FolderMade(h, c0, header, f, i)
    ensures IsFolder(h.c, f)
  {
  }

  lemma LastIsTarget(h: Harvest, made: seq<seq<Ref>>, k: nat)
    requires Ready(h, k) && k < |made| && Chunked(h.c, h.entries[k], made[k], h.size)
    ensures var gs := MadeAfter(h, made, k)[k]; gs != [] && gs[|gs| - 1] == Target(h, k).1
  {
    TargetAt(h, k, h.c.top);
  }

  lemma NewHarvests(h: Harvest, made: seq<seq<Ref>>, c0: Cache, headers: seq<string>, k: nat, name: string,
      address: string, lower: string -> string)
    requires Ready(h, k) && k < |made| && Harvests(h, made, c0, headers) && lower(address) !in h.dup
    requires Chunked(h.c, h.entries[k], made[k], h.size)
    ensures Harvests(InsertOne(h, k, name, address, lower), MadeAfter(h, made, k), c0, headers)
  {
    hide Inv, Target, InChunk, FolderMade, Contact, Chunked;
    var g := InsertOne(h, k, name, address, lower);
    var after := MadeAfter(h, made, k);
    forall z | z in c0.heap
      ensures z in g.c.heap
    {
      InsertedAt(h, k, name, address, lower, z);
    }
    InsertedAt(h, k, name, address, lower, 0);
    forall l: nat, i: nat | l < |after| && i < |after[l]|
      ensures FolderMade(g, c0, headers[l], after[l][i], i)
    {
      MadeStays(h, made, c0, headers, k, name, address, lower, l, i);
    }
    hide InsertOne, MadeAfter;
    forall a | a in g.dup
      ensures InChunk(g, after, g.dup[a])
    {
      ChunksAfter(h, made, c0, headers, k, name, address, lower, g.dup[a]);
      assert a != lower(address) ==> a in h.dup && g.dup[a] == h.dup[a];
    }
    forall p | InChunk(g, after, p)
      ensures exists a :: a in g.dup && g.dup[a] == p
    {
      ChunksAfter(h, made, c0, headers, k, name, address, lower, p);
      if p == Target(h, k).0.top {
        assert g.dup[lower(address)] == p;
      } else {
        var a :| a in h.dup && h.dup[a] == p;
        assert a != lower(address) && g.dup[a] == p;
      }
    }
  }

  lemma RenamedHarvests(h: Harvest, made: seq<seq<Ref>>, c0: Cache, headers: seq<string>, k: nat, name: string,
      address: string, lower: string -> string)
    requires Ready(h, k) && Harvests(h, made, c0, headers) && lower(address) in h.dup
    ensures Harvests(InsertOne(h, k, name, address, lower), made, c0, headers)
  {
    hide Inv;
    var g := InsertOne(h, k, name, address, lower);
    assert IsPerson(h.c, h.dup[lower(address)]);
    forall z | z in h.c.heap
      ensures z in g.c.heap && (h.c.heap[z].Folder? ==> g.c.heap[z] == h.c.heap[z])
      ensures h.c.heap[z].Folder? <==> g.c.heap[z].Folder?
    {
    }
    forall p
      ensures InChunk(g, made, p) <==> InChunk(h, made, p)
    {
      ChunkSame(h, g, made, p);
    }
    hide InsertOne, InChunk;
    forall l: nat, i: nat | l < |made| && i < |made[l]|
      ensures FolderMade(g, c0, headers[l], made[l][i], i)
    {
      assert FolderMade(h, c0, headers[l], made[l][i], i);
    }
  }

  lemma ChunkSame(h: Harvest, g: Harvest, made: seq<seq<Ref>>, p: Ref)
    requires forall z | IsFolder(h.c, z) :: IsFolder(g.c, z) && g.c.heap[z] == h.c.heap[z]
    requires forall z | IsFolder(g.c, z) :: IsFolder(h.c, z)
    ensures InChunk(g, made, p) <==> InChunk(h, made, p)
  {
    if InChunk(h, made, p) {
      var l: nat, i: nat :| l < |made| && i < |made[l]| && IsFolder(h.c, made[l][i])
        && p in h.c.heap[made[l][i]].persons;
      assert IsFolder(g.c, made[l][i]);
    }
    if InChunk(g, made, p) {
      var l: nat, i: nat :| l < |made| && i < |made[l]| && IsFolder(g.c, made[l][i])
        && p in g.c.heap[made[l][i]].persons;
      assert IsFolder(h.c, made[l][i]);
    }
  }

  // ---------- whole runs ----------

  /** One address found in a header. */
  datatype Put = Put(entry: nat, name: string, address: string)

  ghost predicate ReadyAll(h: Harvest, puts: seq<Put>, lower: string -> string)
    decreases |puts|
  {
    puts == [] || (Ready(h, puts[0].entry) && ReadyAll(InsertOne(h, puts[0].entry, puts[0].name, puts[0].address,
      lower), puts[1..], lower))
  }

  ghost function InsertAll(h: Harvest, puts: seq<Put>, lower: string -> string): Harvest
    requires ReadyAll(h, puts, lower)
    decreases |puts|
  {
    if puts == [] then h
    else InsertAll(InsertOne(h, puts[0].entry, puts[0].name, puts[0].address, lower), puts[1..], lower)
  }

  function SeenOf(puts: seq<Put>): (r: seq<Seen>)
    ensures |r| == |puts|
  {
    seq(|puts|, i requires 0 <= i < |puts| => Seen(puts[i].name, puts[i].address))
  }

  /** The folders made, once all the addresses have been put in. */
  ghost function MadeAll(h: Harvest, made: seq<seq<Ref>>, puts: seq<Put>, lower: string -> string): seq<seq<Ref>>
    requires ReadyAll(h, puts, lower) && |made| == |h.entries|
    decreases |puts|
  {
    if puts == [] then made
    else
      var p := puts[0];
      SameEntries(h, p.entry, p.name, p.address, lower);
      MadeAll(InsertOne(h, p.entry, p.name, p.address, lower), NextMade(h, made, p.entry, lower(p.address)), puts[1..],
              lower)
  }

  lemma SeenFirst(puts: seq<Put>)
    requires puts != []
    ensures SeenOf(puts) == [Seen(puts[0].name, puts[0].address)] + SeenOf(puts[1..])
  {
  }

  lemma {:induction false} RunWorks(h: Harvest, made: seq<seq<Ref>>, seen: seq<Seen>, puts: seq<Put>,
      lower: string -> string)
    requires Working(h, made, seen, lower) && |made| == |h.entries|
    requires forall i | 0 <= i < |puts| :: puts[i].entry < |h.entries|
    ensures ReadyAll(h, puts, lower)
    ensures Working(InsertAll(h, puts, lower), MadeAll(h, made, puts, lower), seen + SeenOf(puts), lower)
    decreases |puts|
  {
    hide Working, Ready, NextMade, SeenOf, InsertOne;
    if puts == [] {
      assert SeenOf(puts) == [] && seen + [] == seen;
    } else {
      var p := puts[0];
      var next := InsertWorks(h, made, seen, lower, p.entry, p.name, p.address);
      var g := InsertOne(h, p.entry, p.name, p.address, lower);
      SameEntries(h, p.entry, p.name, p.address, lower);
      assert forall i | 0 <= i < |puts[1..]| :: puts[1..][i] == puts[i + 1];
      RunWorks(g, next, seen + [Seen(p.name, p.address)], puts[1..], lower);
      SeenFirst(puts);
      Associative(seen, [Seen(p.name, p.address)], SeenOf(puts[1..]));
    }
  }

  lemma {:induction false} RunHarvests(h: Harvest, made: seq<seq<Ref>>, seen: seq<Seen>, puts: seq<Put>,
      lower: string -> string, c0: Cache, headers: seq<string>)
    requires Working(h, made, seen, lower) && Harvests(h, made, c0, headers) && |made| == |h.entries|
    requires forall i | 0 <= i < |puts| :: puts[i].entry < |h.entries|
    ensures ReadyAll(h, puts, lower) && Harvests(InsertAll(h, puts, lower), MadeAll(h, made, puts, lower), c0, headers)
    decreases |puts|
  {
    hide Working, Ready, Harvests, NextMade;
    if puts != [] {
      var p := puts[0];
      var next := InsertWorks(h, made, seen, lower, p.entry, p.name, p.address);
      var g := InsertOne(h, p.entry, p.name, p.address, lower);
      NextHarvests(h, made, seen, c0, headers, p.entry, p.name, p.address, lower);
      SameEntries(h, p.entry, p.name, p.address, lower);
      assert forall i | 0 <= i < |puts[1..]| :: puts[1..][i] == puts[i + 1];
      RunHarvests(g, next, seen + [Seen(p.name, p.address)], puts[1..], lower, c0, headers);
    }
  }

  lemma NextHarvests(h: Harvest, made: seq<seq<Ref>>, seen: seq<Seen>, c0: Cache, headers: seq<string>, k: nat,
      name: string, address: string, lower: string -> string)
    requires Working(h, made, seen, lower) && Harvests(h, made, c0, headers) && Ready(h, k) && k < |made|
    ensures Harvests(InsertOne(h, k, name, address, lower), NextMade(h, made, k, lower(address)), c0, headers)
  {
    hide Inv, Harvests, Known, Separate, InsertOne, MadeAfter;
    assert Chunked(h.c, h.entries[k], made[k], h.size);
    if lower(address) in h.dup {
      RenamedHarvests(h, made, c0, headers, k, name, address, lower);
    } else {
      NewHarvests(h, made, c0, headers, k, name, address, lower);
    }
  }

  lemma SameEntries(h: Harvest, k: nat, name: string, address: string, lower: string -> string)
    requires Ready(h, k)
    ensures var g := InsertOne(h, k, name, address, lower); |g.entries| == |h.entries| && g.size == h.size
  {
  }

  /** `addrharvest_create`, over a cache of its own. */
  function NewHarvest(c: Cache, headers: seq<string>, size: nat): Harvest {
    Harvest(c, map[], seq(|headers|, i requires 0 <= i < |headers| => Entry(headers[i], None, 0)), size)
  }

  lemma {:induction false} TotalNone(entries: seq<Entry>)
    requires forall i | 0 <= i < |entries| :: entries[i].count == 0
    ensures Total(entries) == 0
    decreases |entries|
  {
    if entries != [] {
      TotalNone(entries[..|entries| - 1]);
    }
  }

  function NoneMade(headers: seq<string>): (made: seq<seq<Ref>>)
    ensures |made| == |headers|
  {
    seq(|headers|, i requires 0 <= i < |headers| => [])
  }

  /** The folders that a new harvester makes. */
  ghost function FoldersOf(c: Cache, headers: seq<string>, size: nat, puts: seq<Put>, lower: string -> string):
      (made: seq<seq<Ref>>)
    requires ReadyAll(NewHarvest(c, headers, size), puts, lower)
  {
    MadeAll(NewHarvest(c, headers, size), NoneMade(headers), puts, lower)
  }

  /** Whatever addresses are found in whatever headers: for a header with `n` addresses the harvester
      makes `n` divided by the folder size, rounded up, folders; they are new, lie below the root,
      bear the header's name and their number, and are all full but for the last.  The counts of all
      headers add up to the number of different addresses in lower case.  Each address has a person
      of its own, with the longest name that was seen with it, in exactly one of these folders, and
      nobody else is in them. */
  lemma Harvested(c: Cache, headers: seq<string>, size: nat, puts: seq<Put>, lower: string -> string)
      returns (made: seq<seq<Ref>>)
    requires Inv(c) && size > 0 && forall i | 0 <= i < |puts| :: puts[i].entry < |headers|
    ensures ReadyAll(NewHarvest(c, headers, size), puts, lower) && made == FoldersOf(c, headers, size, puts, lower)
    ensures var h := InsertAll(NewHarvest(c, headers, size), puts, lower);
      && Inv(h.c) && h.size == size && |made| == |h.entries| == |headers| && Separate(made)
      && (forall k | 0 <= k < |headers| :: ChunksOf(h, k, made[k], size))
      && (forall k: nat, i: nat | k < |made| && i < |made[k]| :: FolderMade(h, c, headers[k], made[k][i], i))
      && h.dup.Keys == (set i | 0 <= i < |puts| :: lower(puts[i].address)) && Total(h.entries) == |h.dup.Keys|
      && (forall a | a in h.dup :: IsPerson(h.c, h.dup[a])
                                   && Some(h.c.heap[h.dup[a]].name) == Longest(SeenOf(puts), lower, a))
      && (forall a, b | a in h.dup && b in h.dup && h.dup[a] == h.dup[b] :: a == b)
      && (forall p :: InChunk(h, made, p) <==> p in h.dup.Values)
      && (forall k: nat, i: nat, l: nat, j: nat, p | Holds(h, made, k, i, p) && Holds(h, made, l, j, p) :: k == l
                                                                                                           && i == j)
  {
    hide Inv, Known, Chunked, Separate, InsertAll, ReadyAll, Longest, Harvests, FolderMade, InChunk, NewHarvest,
      NoneMade;
    var h0 := NewHarvest(c, headers, size);
    var made0 := FreshWorks(c, headers, size, lower);
    RunWorks(h0, made0, [], puts, lower);
    RunHarvests(h0, made0, [], puts, lower, c, headers);
    made := MadeAll(h0, made0, puts, lower);
    var h := InsertAll(h0, puts, lower);
    assert [] + SeenOf(puts) == SeenOf(puts);
    RunEntries(h0, puts, lower);
    KnownKeys(h, puts, lower);
    HarvestsMeans(h, made, c, headers);
    forall k | 0 <= k < |headers|
      ensures ChunksOf(h, k, made[k], size)
    {
      assert Chunked(h.c, h.entries[k], made[k], size);
      ChunkedIs(h, k, made[k], size);
    }
    forall k: nat, i: nat, l: nat, j: nat, p | Holds(h, made, k, i, p) && Holds(h, made, l, j, p)
      ensures k == l && i == j
    {
      HeldOnce(h, made, k, i, l, j, p);
    }
  }

  /** The person is listed in the `i`-th folder of header `k`. */
  ghost predicate Holds(h: Harvest, made: seq<seq<Ref>>, k: nat, i: nat, p: Ref) {
    k < |made| && i < |made[k]| && IsFolder(h.c, made[k][i]) && p in h.c.heap[made[k][i]].persons
  }

  /** A person is in one folder only. */
  lemma HeldOnce(h: Harvest, made: seq<seq<Ref>>, k: nat, i: nat, l: nat, j: nat, p: Ref)
    requires Inv(h.c) && Separate(made) && Holds(h, made, k, i, p) && Holds(h, made, l, j, p)
    ensures k == l && i == j
  {
    assert ListOk(h.c.heap, made[k][i], PersonKind) && ListOk(h.c.heap, made[l][j], PersonKind);
    assert p in ListOf(h.c.heap[made[k][i]], PersonKind) && p in ListOf(h.c.heap[made[l][j]], PersonKind);
    assert made[k][i] == made[l][j];
  }

  lemma HarvestsMeans(h: Harvest, made: seq<seq<Ref>>, c0: Cache, headers: seq<string>)
    requires Harvests(h, made, c0, headers)
    ensures |made| == |headers|
    ensures forall k: nat, i: nat | k < |made| && i < |made[k]| :: FolderMade(h, c0, headers[k], made[k][i], i)
    ensures forall p :: InChunk(h, made, p) <==> p in h.dup.Values
  {
    hide FolderMade, InChunk;
    forall p
      ensures InChunk(h, made, p) <==> p in h.dup.Values
    {
      if p in h.dup.Values {
        var a :| a in h.dup && h.dup[a] == p;
      }
    }
  }

  lemma FreshWorks(c: Cache, headers: seq<string>, size: nat, lower: string -> string) returns (made: seq<seq<Ref>>)
    requires Inv(c) && size > 0
    ensures Working(NewHarvest(c, headers, size), made, [], lower)
      && Harvests(NewHarvest(c, headers, size), made, c, headers)
    ensures |made| == |headers| == |NewHarvest(c, headers, size).entries| && NewHarvest(c, headers, size).size == size
    ensures made == NoneMade(headers)
  {
    made := NoneMade(headers);
    TotalNone(NewHarvest(c, headers, size).entries);
  }

  lemma ChunkedIs(h: Harvest, k: nat, fs: seq<Ref>, size: nat)
    requires size > 0 && k < |h.entries| && Chunked(h.c, h.entries[k], fs, size)
    ensures ChunksOf(h, k, fs, size)
  {
    FoldersAreCeiling(h.entries[k].count, size);
  }

  /** The known addresses are those that were put in. */
  lemma KnownKeys(h: Harvest, puts: seq<Put>, lower: string -> string)
    requires Known(h, SeenOf(puts), lower)
    ensures h.dup.Keys == (set i | 0 <= i < |puts| :: lower(puts[i].address)) && |h.dup.Keys| == |h.dup|
    ensures forall a, b | a in h.dup && b in h.dup && h.dup[a] == h.dup[b] :: a == b
    ensures forall a | a in h.dup :: IsPerson(h.c, h.dup[a])
                                     && Some(h.c.heap[h.dup[a]].name) == Longest(SeenOf(puts), lower, a)
  {
    var keys := set i | 0 <= i < |puts| :: lower(puts[i].address);
    var sn := SeenOf(puts);
    forall a
      ensures a in h.dup.Keys <==> a in keys
    {
      LongestMeans(sn, lower, a);
      assert a in h.dup <==> Longest(sn, lower, a).Some?;
      if a in keys {
        var i :| 0 <= i < |puts| && lower(puts[i].address) == a;
        assert lower(sn[i].address) == a;
      }
      if a in h.dup {
        var i :| 0 <= i < |sn| && lower(sn[i].address) == a;
        assert lower(puts[i].address) == a;
      }
    }
  }

  /** The folders of one header. */
  ghost predicate ChunksOf(h: Harvest, k: nat, fs: seq<Ref>, size: nat) {
    && size > 0 && k < |h.entries|
    && var n := h.entries[k].count;
    && |fs| == (n + size - 1) / size
    && (forall i {:trigger fs[i]} | 0 <= i < |fs| :: IsFolder(h.c, fs[i])
               && |h.c.heap[fs[i]].persons| == if i < n / size then size else n % size)
    && h.entries[k].folder == if fs == [] then None else Some(fs[|fs| - 1])
  }

  lemma {:induction false} RunEntries(h: Harvest, puts: seq<Put>, lower: string -> string)
    requires ReadyAll(h, puts, lower)
    ensures |InsertAll(h, puts, lower).entries| == |h.entries| && InsertAll(h, puts, lower).size == h.size
    decreases |puts|
  {
    if puts != [] {
      SameEntries(h, puts[0].entry, puts[0].name, puts[0].address, lower);
      RunEntries(InsertOne(h, puts[0].entry, puts[0].name, puts[0].address, lower), puts[1..], lower);
    }
  }

  // ---------- the harvester as the source has it ----------

  /** The addresses that a header line gives from `hdrBuf` on: of each slice, what is extracted of
      its copy.  `extract` stands for `addrharvest_extract_address` and the cleaning of names. */
  function PutsFrom(k: nat, s: string, hdrBuf: nat, extract: string -> Option<Seen>): seq<Put>
    requires CString(s) && hdrBuf <= |s|
    decreases |s| - hdrBuf
  {
    var at := FindAt(s, hdrBuf);
    if at.None? then []
    else
      var bp, ep := SkipSeparators(s, hdrBuf, at.value), NextDelimiter(s, at.value + 1);
      var e := extract(Copied(s, Slice(bp, ep)));
      var rest := PutsFrom(k, s, ep, extract);
      if e.Some? then [Put(k, e.value.name, e.value.address)] + rest else rest
  }

  lemma {:induction false} PutsEntries(k: nat, s: string, hdrBuf: nat, extract: string -> Option<Seen>)
    requires CString(s) && hdrBuf <= |s|
    ensures forall i | 0 <= i < |PutsFrom(k, s, hdrBuf, extract)| :: PutsFrom(k, s, hdrBuf, extract)[i].entry == k
    decreases |s| - hdrBuf
  {
    hide FindAt, PutsFrom, Copied, SkipSeparators, NextDelimiter;
    PutsStep(k, s, hdrBuf, extract);
    var at := FindAt(s, hdrBuf);
    if at.Some? {
      PutsEntries(k, s, NextDelimiter(s, at.value + 1), extract);
    }
  }

  lemma PutsStep(k: nat, s: string, p: nat, extract: string -> Option<Seen>)
    requires CString(s) && p <= |s|
    ensures match FindAt(s, p)
      case None => PutsFrom(k, s, p, extract) == []
      case Some(at) =>
        && p <= at < |s| && s[at] == '@'
        && var bp, ep := SkipSeparators(s, p, at), NextDelimiter(s, at + 1);
        var e, rest := extract(Copied(s, Slice(bp, ep))), PutsFrom(k, s, ep, extract);
        PutsFrom(k, s, p, extract) == if e.Some? then [Put(k, e.value.name, e.value.address)] + rest else rest
  {
  }

  /** What the slices give, one after the other: of each at most one address. */
  function PutsOf(k: nat, s: string, sls: seq<Slice>, extract: string -> Option<Seen>): seq<Put>
    requires forall sl | sl in sls :: sl.bp <= sl.ep <= |s|
  {
    if sls == [] then []
    else
      var e := extract(Copied(s, sls[0]));
      (if e.Some? then [Put(k, e.value.name, e.value.address)] else []) + PutsOf(k, s, sls[1..], extract)
  }

  /** The addresses are those extracted from the copies of the slices, in order. */
  lemma {:induction false} PutsAreSlices(k: nat, s: string, hdrBuf: nat, extract: string -> Option<Seen>)
    requires CString(s) && hdrBuf <= |s|
    ensures forall sl | sl in Slices(s, hdrBuf) :: sl.bp <= sl.ep <= |s|
    ensures PutsFrom(k, s, hdrBuf, extract) == PutsOf(k, s, Slices(s, hdrBuf), extract)
    decreases |s| - hdrBuf
  {
    hide FindAt, PutsFrom, Copied, SkipSeparators, NextDelimiter;
    var at := FindAt(s, hdrBuf);
    PutsStep(k, s, hdrBuf, extract);
    if at.Some? {
      FirstSlice(s, hdrBuf);
      var bp, ep := SkipSeparators(s, hdrBuf, at.value), NextDelimiter(s, at.value + 1);
      PutsAreSlices(k, s, ep, extract);
      var sls := Slices(s, hdrBuf);
      assert sls[0] == Slice(bp, ep) && sls[1..] == Slices(s, ep);
    }
  }

  class AddressHarvester {
    var headerTable: seq<Entry>
    var dupTable: map<string, Ref>
    var folderSize: nat

    ghost function With(cache: AddressCache): Harvest
      reads this, cache
    {
      Harvest(cache.View(), dupTable, headerTable, folderSize)
    }

    constructor (headers: seq<string>)
      ensures headerTable == NewHarvest(Cache(map[], map[], 0, 0, 0, false), headers, 20).entries && dupTable == map[]
        && folderSize == 20
    {
      headerTable := seq(|headers|, i requires 0 <= i < |headers| => Entry(headers[i], None, 0));
      dupTable := map[];
      folderSize := 20;
    }

    /** `addrharvest_set_folder_size`: counts can always be divided by the size. */
    method SetFolderSize(value: int)
      requires folderSize > 0
      modifies this`folderSize
      ensures folderSize > 0
      ensures folderSize == value || (folderSize == old(folderSize) && value <= 0)
    {
      if value > 0 {
        folderSize := value;
      }
    }

    /** The folder for the next address: a new one if there is none or the last is full. */
    method FolderFor(cache: AddressCache, k: nat) returns (folder: Ref)
      requires Ready(With(cache), k)
      modifies cache`heap, cache`itemHash, cache`nextID, cache`top, cache`dirtyFlag
      ensures (cache.View(), folder) == Target(old(With(cache)), k) && Inv(cache.View())
        && IsFolder(cache.View(), folder)
    {
      TargetInv(With(cache), k);
      RootIsFolder(cache.View());
      hide Inv;
      var entry := headerTable[k];
      var newFolder := entry.folder.None?;
      if entry.count % folderSize == 0 {
        newFolder := true;
      }
      if newFolder {
        var cnt := 1 + entry.count / folderSize;
        var folderName := entry.header + " (" + Decimal(cnt) + ")";
        var uid := cache.AllocateUid("");
        var added;
        added, folder := cache.FolderAdd(cache.rootFolder, NewFolder(uid, folderName));
      } else {
        folder := entry.folder.value;
      }
    }

    /** `addrharvest_insert_cache`. */
    method InsertCache(cache: AddressCache, k: nat, name: string, address: string, lower: string -> string)
      requires Ready(With(cache), k)
      modifies this`headerTable, this`dupTable, cache`heap, cache`itemHash, cache`nextID, cache`top, cache`dirtyFlag
      ensures With(cache) == InsertOne(old(With(cache)), k, name, address, lower)
    {
      hide Inv, Target, Contact;
      var key := lower(address);
      if key in dupTable {
        var person := dupTable[key];
        if |name| > |cache.heap[person].name| {
          cache.heap := cache.heap[person := WithName(cache.heap[person], name)];
        }
      } else {
        var entry := headerTable[k];
        var folder := FolderFor(cache, k);
        var person := cache.AddContact(folder, name, address, "");
        dupTable := dupTable[key := person];
        headerTable := headerTable[k := Entry(entry.header, Some(folder), entry.count + 1)];
      }
    }

    /** One turn of the loop: the slice around the `@`, by way of the buffer. */
    method NextSlice(hdrBuf: string, p: nat, atCh: nat) returns (text: string, ep: nat)
      requires CString(hdrBuf) && p <= atCh < |hdrBuf| && hdrBuf[atCh] == '@'
      ensures ep == NextDelimiter(hdrBuf, atCh + 1)
        && text == Copied(hdrBuf, Slice(SkipSeparators(hdrBuf, p, atCh), ep))
    {
      var bp;
      bp, ep := FindAddress(hdrBuf, p, atCh);
      var buffer := new char[BufferSize + 2];
      var bufLen := CopySlice(hdrBuf, bp, ep, buffer);
      text := buffer[..bufLen];
    }

    /** The same for an address that has been found, with what is still to come. */
    method InsertFound(cache: AddressCache, k: nat, found: Seen, ghost rest: seq<Put>, ghost made: seq<seq<Ref>>,
                       ghost seen: seq<Seen>, lower: string -> string, ghost h: Harvest, ghost puts: seq<Put>)
      returns (ghost after: seq<seq<Ref>>)
      requires k < |headerTable| && Working(With(cache), made, seen, lower)
      requires Leaves(h, puts, With(cache), [Put(k, found.name, found.address)] + rest, lower)
      modifies this`headerTable, this`dupTable, cache`heap, cache`itemHash, cache`nextID, cache`top, cache`dirtyFlag
      ensures |headerTable| == old(|headerTable|) && Working(With(cache), after, seen + [found], lower)
      ensures Leaves(h, puts, With(cache), rest, lower)
    {
      hide Working, Ready, Inv, InsertOne, ReadyAll, InsertAll;
      ghost var g := With(cache);
      FirstOfAll(g, k, found.name, found.address, rest, lower);
      after := InsertWorks(g, made, seen, lower, k, found.name, found.address);
      SameEntries(g, k, found.name, found.address, lower);
      InsertCache(cache, k, found.name, found.address, lower);
      assert Seen(found.name, found.address) == found;
    }

    /** `addrharvest_parse_address`. */
    method ParseAddress(cache: AddressCache, k: nat, hdrBuf: string, lower: string -> string,
        extract: string -> Option<Seen>,
                        ghost made: seq<seq<Ref>>, ghost seen: seq<Seen>)
      requires CString(hdrBuf) && k < |headerTable| && Working(With(cache), made, seen, lower)
      modifies this`headerTable, this`dupTable, cache`heap, cache`itemHash, cache`nextID, cache`top, cache`dirtyFlag
      ensures ReadyAll(old(With(cache)), PutsFrom(k, hdrBuf, 0, extract), lower)
      ensures With(cache) == InsertAll(old(With(cache)), PutsFrom(k, hdrBuf, 0, extract), lower)
    {
      hide Working, Ready, FindAt, Inv, InsertOne, Copied, ReadyAll, InsertAll, PutsFrom, Leaves;
      ghost var h := With(cache);
      ghost var fs, sn := made, seen;
      StartLeaves(h, made, seen, k, hdrBuf, extract, lower);
      var p := 0;
      var atCh := FindAtSign(hdrBuf, p);
      while atCh.Some?
        invariant p <= |hdrBuf| && atCh == FindAt(hdrBuf, p) && k < |headerTable| && Working(With(cache), fs, sn, lower)
        invariant Leaves(h, PutsFrom(k, hdrBuf, 0, extract), With(cache), PutsFrom(k, hdrBuf, p, extract), lower)
        decreases |hdrBuf| - p
      {
        PutsStep(k, hdrBuf, p, extract);
        var text, ep := NextSlice(hdrBuf, p, atCh.value);
        var found := extract(text);
        if found.Some? {
          fs := InsertFound(cache, k, found.value, PutsFrom(k, hdrBuf, ep, extract), fs, sn, lower, h,
            PutsFrom(k, hdrBuf, 0, extract));
          sn := sn + [found.value];
        }
        p := ep;
        atCh := FindAtSign(hdrBuf, p);
      }
      PutsStep(k, hdrBuf, p, extract);
      NothingMore(h, PutsFrom(k, hdrBuf, 0, extract), With(cache), lower);
    }
  }

  /** From `h` with all of `puts` to be put in, `g` with `rest` is on the way. */
  ghost predicate Leaves(h: Harvest, puts: seq<Put>, g: Harvest, rest: seq<Put>, lower: string -> string) {
    ReadyAll(h, puts, lower) && ReadyAll(g, rest, lower) && InsertAll(g, rest, lower) == InsertAll(h, puts, lower)
  }

  lemma StartLeaves(h: Harvest, made: seq<seq<Ref>>, seen: seq<Seen>, k: nat, s: string,
      extract: string -> Option<Seen>, lower: string -> string)
    requires CString(s) && k < |h.entries| && Working(h, made, seen, lower)
    ensures Leaves(h, PutsFrom(k, s, 0, extract), h, PutsFrom(k, s, 0, extract), lower)
  {
    PutsEntries(k, s, 0, extract);
    RunWorks(h, made, seen, PutsFrom(k, s, 0, extract), lower);
  }

  lemma NothingMore(h: Harvest, puts: seq<Put>, g: Harvest, lower: string -> string)
    requires Leaves(h, puts, g, [], lower)
    ensures ReadyAll(h, puts, lower) && InsertAll(h, puts, lower) == g
  {
  }

  lemma FirstOfAll(h: Harvest, k: nat, name: string, address: string, rest: seq<Put>, lower: string -> string)
    requires ReadyAll(h, [Put(k, name, address)] + rest, lower)
    ensures Ready(h, k)
    ensures var g := InsertOne(h, k, name, address, lower);
      ReadyAll(g, rest, lower) && InsertAll(h, [Put(k, name, address)] + rest, lower) == InsertAll(g, rest, lower)
  {
    var puts := [Put(k, name, address)] + rest;
    assert puts[1..] == rest;
  }
}
