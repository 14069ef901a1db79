/** Whole runs of the cache's operations: whatever is called, in whatever order, the hash,
    the forest and the groups stay in agreement (src/addrcache.c:339-1070). */
module CacheRuns {
  import opened Items
  import opened CacheState
  import opened CachePrune
  import opened CacheEdit
  import opened CacheForest
  import opened CacheContract
  import opened AddrCache

  datatype Op =
    | AddItem(folder: Ref, item: Item)
    | AddEmailTo(person: Ref, email: Item)
    | AddMember(group: Ref, member: Ref)
    | AddContact(folder: Ref, name: string, address: string, remarks: string)
    | MoveItem(moved: Ref, target: Ref)
    | RemoveItem(gone: Ref)
    | TakeEmail(taken: Ref)
    | RemoveFolderOnly(folder: Ref)

  /** The cache after the uid of `item` has been allocated, if it needs one. */
  function Allocated(c: Cache, item: Item): (Cache, Item) {
    if item.uid == "" then (Tick(c), WithUid(item, NextUid(c))) else (c, item)
  }

  /** What a caller owes: existing arguments of the right type, a new item that holds nothing
      and whose uid, if it has one already, the counter will not produce, and for a move the
      clipboard's guard. */
  ghost predicate Allowed(c: Cache, op: Op) {
    match op
    case AddItem(f, item) => IsFolder(c, f) && !item.EMail? && Empty(item)
      && (item.uid != "" ==> BringsUid(c, item.uid))
    case AddEmailTo(p, e) => IsPerson(c, p) && e.EMail? && (e.uid != "" ==> BringsUid(c, e.uid))
    case AddMember(g, e) => IsGroup(c, g) && Owned(c, e)
    case AddContact(f, _, _, _) => IsFolder(c, f)
    case MoveItem(r, t) => MayMove(c, r, t)
    case RemoveItem(x) => Movable(c, x)
    case TakeEmail(e) => Owned(c, e)
    case RemoveFolderOnly(f) => Removable(c, f)
  }

  ghost function Apply(c: Cache, op: Op): Cache
    requires Inv(c) && Allowed(c, op)
  {
    match op
    case AddItem(f, item) => var (b, i) := Allocated(c, item); Insert(b, f, i)
    case AddEmailTo(p, e) =>
      var (b, i) := Allocated(c, e);
      AddEmail(MakeEmail(b, i), p, b.top)
    case AddMember(g, e) => Join(c, g, e)
    case AddContact(f, name, address, remarks) => Contact(c, f, name, address, remarks)
    case MoveItem(r, t) => Move(c, r, t)
    case RemoveItem(x) => Prune(c, x)
    case TakeEmail(e) => Detach(c, e)
    case RemoveFolderOnly(f) => Contract(c, f)
  }

  lemma AllocatedInv(c: Cache, item: Item)
    requires Inv(c) && (item.uid != "" ==> BringsUid(c, item.uid))
    ensures var (b, i) := Allocated(c, item);
      && Inv(b) && BringsUid(b, i.uid) && b.heap == c.heap && b.top == c.top
      && (item.uid == "" ==> i.uid !in b.hash)
  {
    TickInv(c);
  }

  lemma ApplyInv(c: Cache, op: Op)
    requires Inv(c) && Allowed(c, op)
    ensures Inv(Apply(c, op))
  {
    match op
    case AddItem(f, item) =>
      AllocatedInv(c, item);
      var (b, i) := Allocated(c, item);
      InsertInv(b, f, i);
    case AddEmailTo(p, e) =>
      AllocatedInv(c, e);
      var (b, i) := Allocated(c, e);
      MakeEmailInv(b, i);
      if GoodUid(b, i.uid) {
        MakeEmailKeepsUid(b, i, i.uid);
      }
      AddEmailInv(MakeEmail(b, i), p, b.top);
    case AddMember(g, e) => JoinInv(c, g, e);
    case AddContact(f, name, address, remarks) => ContactInv(c, f, name, address, remarks);
    case MoveItem(r, t) => MoveInv(c, r, t);
    case RemoveItem(x) => PruneInv(c, x);
    case TakeEmail(e) => DetachInv(c, e);
    case RemoveFolderOnly(f) => ContractInv(c, f);
  }

  // ---------- runs ----------

  /** Every operation of the run is one its caller may make at that point.  Nothing is asked of the
      states in between: that they are in agreement is what is proved. */
  ghost predicate AllowedRun(c: Cache, ops: seq<Op>)
    requires Inv(c)
    decreases |ops|
  {
    ops == [] || (Allowed(c, ops[0]) && (ApplyInv(c, ops[0]); AllowedRun(Apply(c, ops[0]), ops[1..])))
  }

  ghost function Run(c: Cache, ops: seq<Op>): Cache
    requires Inv(c) && AllowedRun(c, ops)
    decreases |ops|
  {
    if ops == [] then c
    else
      ApplyInv(c, ops[0]);
      Run(Apply(c, ops[0]), ops[1..])
  }

  /** The cache as it is created. */
  function Fresh(now: nat): Cache {
    Cache(map[0 := Folder("", "", None, "", [], [], [])], map[], 0, now, 1, false)
  }

  // ---------- the agreement, spelled out ----------

  /** Each hash entry is keyed by its object's uid; each person, group and folder but the root
      has one, and the root has none. */
  ghost predicate HashAgrees(c: Cache) {
    && (forall u | u in c.hash :: c.hash[u] in c.heap && c.heap[c.hash[u]].uid == u && c.hash[u] != c.root)
    && (forall r | r in c.heap && r != c.root && !c.heap[r].EMail? :: c.heap[r].uid in c.hash
                                                                      && c.hash[c.heap[r].uid] == r)
  }

  /** Each of them is in exactly its parent's list of its kind, and there once. */
  ghost predicate ListsAgree(c: Cache) {
    && (forall r, f, k: Kind | r in c.heap && r != c.root && !c.heap[r].EMail? && IsFolder(c, f) ::
          r in ListOf(c.heap[f], k) <==> c.heap[r].parent == Some(f) && k == KindOf(c.heap[r]))
    && (forall f, k: Kind | IsFolder(c, f) :: NoDup(ListOf(c.heap[f], k)))
    && (forall r | r in c.heap && r != c.root && !c.heap[r].EMail? ::
          c.heap[r].parent.Some? && IsFolder(c, c.heap[r].parent.value))
  }

  /** Parent chains end at the root and return to no item on the way. */
  ghost predicate ChainsAgree(c: Cache) {
    forall r | r in c.heap && c.heap[r].parent.Some? ::
      Reaches(c.heap, c.root, r) && forall n: nat | Climb(c.heap, r, n) == Some(r) :: n == 0
  }

  /** The person that owns an email is in the cache and holds it. */
  ghost predicate HeldByItsPerson(c: Cache, e: Ref) {
    Owned(c, e) && IsPerson(c, c.heap[e].parent.value) && e in c.heap[c.heap[e].parent.value].emails
  }

  /** Each hashed email and each member of a group is held by its person. */
  ghost predicate EmailsAgree(c: Cache) {
    && (forall u | u in c.hash && c.hash[u] in c.heap && c.heap[c.hash[u]].EMail? :: HeldByItsPerson(c, c.hash[u]))
    && (forall g, e | IsGroup(c, g) && e in c.heap[g].members :: HeldByItsPerson(c, e))
  }

  lemma InvListsAgree(c: Cache)
    requires Inv(c)
    ensures ListsAgree(c)
  {
    forall r, f, k: Kind | r in c.heap && r != c.root && !c.heap[r].EMail? && IsFolder(c, f)
      ensures r in ListOf(c.heap[f], k) <==> c.heap[r].parent == Some(f) && k == KindOf(c.heap[r])
    {
      assert PlacedAt(c, r);
      assert ListOk(c.heap, f, k);
    }
    forall r | r in c.heap && r != c.root && !c.heap[r].EMail?
      ensures PlacedAt(c, r)
    {
    }
    forall f, k: Kind | IsFolder(c, f)
      ensures NoDup(ListOf(c.heap[f], k))
    {
      assert ListOk(c.heap, f, k);
    }
  }

  lemma InvChainsAgree(c: Cache)
    requires Inv(c)
    ensures ChainsAgree(c)
  {
    forall r | r in c.heap && c.heap[r].parent.Some?
      ensures Reaches(c.heap, c.root, r) && forall n: nat | Climb(c.heap, r, n) == Some(r) :: n == 0
    {
      forall n: nat | Climb(c.heap, r, n) == Some(r)
        ensures n == 0
      {
        NoCycle(c, r, n);
      }
    }
  }

  lemma InvEmailsAgree(c: Cache)
    requires Inv(c)
    ensures EmailsAgree(c)
  {
    forall u | u in c.hash && c.heap[c.hash[u]].EMail?
      ensures HeldByItsPerson(c, c.hash[u])
    {
      assert EmailOk(c, c.hash[u]);
    }
    forall g, e | IsGroup(c, g) && e in c.heap[g].members
      ensures HeldByItsPerson(c, e)
    {
      assert GroupOk(c, g);
      assert EmailOk(c, e);
    }
  }

  ghost predicate Agreement(c: Cache) {
    HashAgrees(c) && ListsAgree(c) && ChainsAgree(c) && EmailsAgree(c)
  }

  lemma InvAgreement(c: Cache)
    requires Inv(c)
    ensures Agreement(c)
  {
    InvListsAgree(c);
    InvChainsAgree(c);
    InvEmailsAgree(c);
    hide ListsAgree, ChainsAgree, EmailsAgree;
  }

  /** Main result: after any run of the operations from a new cache the three structures agree. */
  lemma RunAgreement(now: nat, ops: seq<Op>)
    requires (FreshInv(now); AllowedRun(Fresh(now), ops))
    ensures (FreshInv(now); Agreement(Run(Fresh(now), ops)))
  {
    FreshInv(now);
    RunInv(Fresh(now), ops);
    InvAgreement(Run(Fresh(now), ops));
  }

  lemma {:induction false} RunInv(c: Cache, ops: seq<Op>)
    requires Inv(c) && AllowedRun(c, ops)
    ensures Inv(Run(c, ops)) && Run(c, ops).root == c.root
    decreases |ops|
  {
    hide Inv, Apply, Allowed;
    if ops != [] {
      ApplyInv(c, ops[0]);
      ApplyRoot(c, ops[0]);
      RunInv(Apply(c, ops[0]), ops[1..]);
    }
  }

  lemma ApplyRoot(c: Cache, op: Op)
    requires Inv(c) && Allowed(c, op)
    ensures Apply(c, op).root == c.root
  {
  }

  lemma FreshInv(now: nat)
    ensures Inv(Fresh(now))
  {
  }

  /** The guard of a move is not only enough, it is needed. */
  lemma MoveGuardExact(c: Cache, r: Ref, t: Ref)
    requires Inv(c) && Movable(c, r) && IsFolder(c, t)
    ensures Inv(Move(c, r, t)) <==> MayMove(c, r, t)
  {
    if MayMove(c, r, t) {
      MoveInv(c, r, t);
    } else {
      UnguardedMoveUproots(c, r, t);
    }
  }
}
