/** A book and its file over whole runs (src/addrbook.c:914-951, 1353-1367, and the save-all pass,
    src/addrindex.c:1835-1862). */
module BookDisk {
  import opened Items
  import opened CacheState
  import opened CacheEdit
  import opened CacheRuns
  import opened AddrCache
  import opened XmlFiles
  import opened BookDoc
  import opened BookParse
  import opened BookResolve
  import opened BookRound
  import opened BookSame
  import opened BookFile

  // ---------- the save-all pass ----------

  /** The pass has something to do: the book has been read and has changed. */
  predicate Due(b: Book) {
    b.cache.dirty && b.dataRead
  }

  /** What the pass does to one book: only a book that has been read and has changed is written. */
  function SavePass(b: Book, order: seq<Uid>, fate: Fate): Book {
    if Due(b) then SaveBook(b, order, fate) else b
  }

  /** The pass is going to replace the book's file. */
  predicate Rewrites(b: Book, fate: Fate) {
    Due(b) && Stores(b, fate)
  }

  /** The pass has been over the book; what it wrote, if anything, it wrote in the order of a traversal. */
  ghost predicate PassedOver(b: Book, b': Book, fate: Fate) {
    exists order :: b' == SavePass(b, order, fate) && (Rewrites(b, fate) ==> Traversal(b.cache, order))
  }

  ghost predicate DistinctBooks(books: seq<AddressBookFile>) {
    forall i, j :: 0 <= i < j < |books| ==> books[i] != books[j] && books[i].addressCache != books[j].addressCache
  }

  /** The last of the results that is no success, if there is one. */
  function LastError(results: seq<Status>): Status {
    if results == [] then MguSuccess
    else if results[|results| - 1] != MguSuccess then results[|results| - 1]
    else LastError(results[..|results| - 1])
  }

  lemma {:induction false} LastErrorMeans(results: seq<Status>)
    ensures LastError(results) == MguSuccess <==> forall i :: 0 <= i < |results| ==> results[i] == MguSuccess
    ensures LastError(results) != MguSuccess ==> exists i :: 0 <= i < |results| && results[i] == LastError(results)
                                                        && forall j :: i < j < |results| ==> results[j] == MguSuccess
    decreases |results|
  {
    if results != [] {
      var n := |results| - 1;
      var rest := results[..n];
      if results[n] == MguSuccess {
        LastErrorMeans(rest);
        assert forall i | 0 <= i < n :: rest[i] == results[i];
        if LastError(results) != MguSuccess {
          var i :| 0 <= i < n && rest[i] == LastError(rest) && forall j :: i < j < n ==> rest[j] == MguSuccess;
          assert results[i] == rest[i] && forall j :: i < j < n ==> results[j] == rest[j];
        }
      } else {
        assert results[n] in results && results[n] == LastError(results);
      }
    }
  }

  /** The pass over one book. */
  method PassOver(abf: AddressBookFile, fate: Fate) returns (result: Status)
    modifies abf, abf.addressCache
    ensures PassedOver(old(abf.View()), abf.View(), fate)
    ensures result == if Due(old(abf.View())) then abf.retVal else MguSuccess
    ensures !old(abf.addressCache.dirtyFlag && abf.addressCache.dataRead) ==> abf.View() == old(abf.View())
  {
    result := MguSuccess;
    ghost var order: seq<Uid> := [];
    if abf.addressCache.dirtyFlag {
      if abf.addressCache.dataRead {
        order := abf.SaveData(fate);
        result := abf.retVal;
      }
    }
    assert abf.View() == SavePass(old(abf.View()), order, fate);
  }

  lemma LeftAlone(b: Book, b': Book, fate: Fate)
    requires PassedOver(b, b', fate) && !(b.cache.dirty && b.dataRead)
    ensures b' == b
  {
  }

  /** `addrindex_save_all_books`; `fates` says how each write ends.  The result is the last error, among
      those of the books that have been written. */
  method SaveAllBooks(books: seq<AddressBookFile>, fates: seq<Fate>)
    returns (retVal: Status, ghost results: seq<Status>)
    requires DistinctBooks(books) && |fates| == |books|
    modifies set b | b in books
    modifies set b | b in books :: b.addressCache
    ensures forall i :: 0 <= i < |books| ==> PassedOver(old(books[i].View()), books[i].View(), fates[i])
    ensures forall i :: 0 <= i < |books| && !old(books[i].addressCache.dirtyFlag && books[i].addressCache.dataRead) ==>
      books[i].View() == old(books[i].View())
    ensures retVal == LastError(results) && |results| == |books|
    ensures forall i :: 0 <= i < |books| ==>
      results[i] == if Due(old(books[i].View())) then books[i].retVal else MguSuccess
  {
    hide SavePass, PassedOver, Due;
    retVal := MguSuccess;
    results := [];
    var i := 0;
    while i < |books|
      invariant 0 <= i <= |books| && |results| == i && retVal == LastError(results)
      invariant forall j :: 0 <= j < i ==> PassedOver(old(books[j].View()), books[j].View(), fates[j])
      invariant forall j :: 0 <= j < i ==>
        results[j] == if Due(old(books[j].View())) then books[j].retVal else MguSuccess
      invariant forall j :: i <= j < |books| ==> books[j].View() == old(books[j].View())
    {
      var result := PassOver(books[i], fates[i]);
      if result != MguSuccess {
        retVal := result;
      }
      results := results + [result];
      i := i + 1;
    }
    forall j | 0 <= j < |books| && !old(books[j].addressCache.dirtyFlag && books[j].addressCache.dataRead)
      ensures books[j].View() == old(books[j].View())
    {
      LeftAlone(old(books[j].View()), books[j].View(), fates[j]);
    }
  }

  // ---------- runs ----------

  /** What can happen to a book: an operation of the cache, any other change that raises the flag, such
      as edits of a book that is not in agreement, a new name, a forced reload, a read, a save, and
      the save-all pass. */
  datatype Event =
    | Edit(op: Op)
    | Change(cache: Cache)
    | Rename(name: string)
    | Refresh
    | ReadIt(order: seq<Uid>)
    | SaveIt(order: seq<Uid>, fate: Fate)
    | SavePassed(order: seq<Uid>, fate: Fate)

  /** The cache's operations are made on books in agreement; what a traversal visits is the table.
      Nothing is asked of a book that the pass leaves alone. */
  ghost predicate Happens(b: Book, e: Event) {
    match e
    case Edit(op) => Inv(b.cache) && Allowed(b.cache, op)
    case Change(_) => true
    case Rename(_) => true
    case Refresh => true
    case ReadIt(order) => b.file.Some? ==> Traversal(ReadBook(b, order).cache, order)
    case SaveIt(order, fate) => Stores(b, fate) ==> Traversal(b.cache, order)
    case SavePassed(order, fate) => Rewrites(b, fate) ==> Traversal(b.cache, order)
  }

  ghost function Next(b: Book, e: Event): Book
    requires Happens(b, e)
  {
    match e
    case Edit(op) => b.(cache := Apply(b.cache, op))
    case Change(c) => b.(cache := c.(dirty := true))
    case Rename(name) => b.(name := Strip(name), cache := b.cache.(dirty := true))
    case Refresh => b.(dataRead := false)
    case ReadIt(order) => ReadBook(b, order)
    case SaveIt(order, fate) => SaveBook(b, order, fate)
    case SavePassed(order, fate) => SavePass(b, order, fate)
  }

  ghost predicate HappenAll(b: Book, es: seq<Event>)
    decreases |es|
  {
    es == [] || (Happens(b, es[0]) && HappenAll(Next(b, es[0]), es[1..]))
  }

  ghost function After(b: Book, es: seq<Event>): Book
    requires HappenAll(b, es)
    decreases |es|
  {
    if es == [] then b else After(Next(b, es[0]), es[1..])
  }

  /** If the event replaces the file, then by a book in agreement. */
  ghost predicate SavesSound(b: Book, e: Event) {
    match e
    case SaveIt(_, fate) => Stores(b, fate) ==> Inv(b.cache)
    case SavePassed(_, fate) => Rewrites(b, fate) ==> Inv(b.cache)
    case _ => true
  }

  ghost predicate SaveAllSound(b: Book, es: seq<Event>)
    requires HappenAll(b, es)
    decreases |es|
  {
    es == [] || (SavesSound(b, es[0]) && SaveAllSound(Next(b, es[0]), es[1..]))
  }

  // ---------- what agrees ----------

  /** A cache without what is not part of the book: emails that nobody holds, the counter, the
      flags. */
  function Core(c: Cache): Cache {
    Cache(map z | z in c.heap && !Pending(c, z) :: c.heap[z], c.hash, c.root, 0, 0, false)
  }

  lemma SameCore(c: Cache, d: Cache)
    requires d.hash == c.hash && d.root == c.root
    requires forall z :: z in c.heap && !Pending(c, z) ==> z in d.heap && d.heap[z] == c.heap[z]
    requires forall z :: z in d.heap && !Pending(d, z) ==> z in c.heap && d.heap[z] == c.heap[z]
    ensures Core(d) == Core(c)
  {
    assert Core(d).heap == Core(c).heap;
  }

  /** Reading the file, from a cleared cache, gives `c`: the very same objects, or the same book. */
  ghost predicate Gives(f: Stored, name: string, c: Cache, s: Loading, order: seq<Uid>) {
    && s.c.root < s.c.top && s == Cleared(s.c.root, s.c.nextId, s.c.top, s.c.dirty)
    && var t := ReadTree(f.dtd, f.tokens, s);
    && t.outcome != Jump && Traversal(t.s.c, order) && (t.name.Some? ==> t.name.value == name)
    && (Core(c) == Core(Resolved(t.s, order)) || SameBook(c, Resolved(t.s, order)))
  }

  ghost predicate Reloads(b: Book) {
    b.file.Some? && exists c, s, order :: Core(c) == Core(b.cache) && Gives(b.file.value, b.name, c, s, order)
  }

  /** The disk agreement: a book that has been read and has not changed since is what its file says. */
  ghost predicate OnDisk(b: Book) {
    Strip(b.name) == b.name && (b.dataRead && !b.cache.dirty ==> Reloads(b))
  }

  lemma CoreSame(c: Cache, d: Cache)
    requires Core(d) == Core(c)
    ensures d.hash == c.hash && d.root == c.root
    ensures forall z :: z in c.heap && !Pending(c, z) <==> z in d.heap && !Pending(d, z)
    ensures forall z | z in c.heap && !Pending(c, z) :: z in d.heap && d.heap[z] == c.heap[z]
  {
    var m, n := Core(c).heap, Core(d).heap;
    forall z
      ensures z in c.heap && !Pending(c, z) <==> z in d.heap && !Pending(d, z)
      ensures z in c.heap && !Pending(c, z) ==> z in d.heap && d.heap[z] == c.heap[z]
    {
      assert z in c.heap && !Pending(c, z) <==> z in m;
      assert z in d.heap && !Pending(d, z) <==> z in n;
    }
  }

  /** A book in agreement that has just been written. */
  lemma SavedOnDisk(b: Book, order: seq<Uid>)
    requires Inv(b.cache) && Traversal(b.cache, order) && Strip(b.name) == b.name
    ensures var d := b.(file := Some(Stored(true, DocTokens(DocOf(b.cache, b.name, order)))),
      cache := b.cache.(dirty := false));
      Reloads(d)
  {
    hide Inv, SameBook, Resolved, ReadTree, DocTokens;
    var c := b.cache;
    var f := Stored(true, DocTokens(DocOf(c, b.name, order)));
    var s := Cleared(0, c.nextId, 1, false);
    var t := ReadTree(f.dtd, f.tokens, s);
    var again := SomeTraversal(t.s.c.hash, t.s.c.hash.Keys);
    assert Traversal(t.s.c, again);
    SaveLoad(c, b.name, order, 0, c.nextId, 1, false, again);
    assert Gives(f, b.name, c, s, again);
    SameCore(c, c.(dirty := false));
  }

  lemma ReadGives(f: Stored, name: string, s: Loading, order: seq<Uid>)
    requires s.c.root < s.c.top && s == Cleared(s.c.root, s.c.nextId, s.c.top, s.c.dirty)
    requires var t := ReadTree(f.dtd, f.tokens, s);
      t.outcome != Jump && Traversal(t.s.c, order) && (t.name.Some? ==> t.name.value == name)
    ensures var c := Resolved(ReadTree(f.dtd, f.tokens, s).s, order);
      Gives(f, name, c, s, order) && Core(c) == Core(c.(dirty := false))
  {
    hide ReadTree, Resolved, SameBook, Traversal;
    var c := Resolved(ReadTree(f.dtd, f.tokens, s).s, order);
    SameCore(c, c.(dirty := false));
  }

  /** A book that has just been read is what its file says, whatever that is. */
  lemma ReadOnDisk(b: Book, order: seq<Uid>)
    requires Strip(b.name) == b.name && (b.file.Some? ==> Traversal(ReadBook(b, order).cache, order))
    ensures OnDisk(ReadBook(b, order))
  {
    hide ReadTree, Resolved, SameBook, Gives, Strip, Core;
    var d := ReadBook(b, order);
    if b.file.Some? {
      var s := Cleared(b.cache.root, b.cache.nextId, b.cache.root + 1, b.cache.dirty);
      var f := b.file.value;
      NameIsStripped(f, s);
      if ReadTree(f.dtd, f.tokens, s).outcome != Jump {
        ReadHash(f, s, order);
        ReadGives(f, d.name, s, order);
      }
    }
  }

  lemma ReadHash(f: Stored, s: Loading, order: seq<Uid>)
    ensures var t := ReadTree(f.dtd, f.tokens, s); Resolved(t.s, order).hash == t.s.c.hash
  {
  }

  lemma NameIsStripped(f: Stored, s: Loading)
    ensures var t := ReadTree(f.dtd, f.tokens, s); t.name.Some? ==> Strip(t.name.value) == t.name.value
  {
    hide Strip, Value, ParseObjects, NextTag, Has;
    var (rc, x) := NextTag(Reader(f.tokens, [], false, ""));
    if x.stack != [] {
      StripTwice(Value(x.stack[0].attr, "name"));
    }
  }

  /** An operation that does not raise the flag has not changed the book. */
  lemma CleanEdit(c: Cache, op: Op)
    requires Inv(c) && Allowed(c, op) && !Apply(c, op).dirty
    ensures !c.dirty && Core(Apply(c, op)) == Core(c)
  {
    match op
    case AddItem(f, item) =>
      TickInv(c);
    case AddEmailTo(p, e) =>
      var (b, i) := Allocated(c, e);
      TickInv(c);
      SameCore(c, MakeEmail(b, i));
    case AddMember(g, e) =>
    case AddContact(f, name, address, remarks) =>
    case MoveItem(r, t) =>
    case RemoveItem(x) =>
    case TakeEmail(e) =>
    case RemoveFolderOnly(f) =>
  }

  lemma EditOnDisk(b: Book, op: Op)
    requires OnDisk(b) && Happens(b, Edit(op))
    ensures OnDisk(Next(b, Edit(op)))
  {
    hide Inv, Resolved, ReadTree, SameBook, Apply, Allowed, Gives, Core, Strip;
    if b.dataRead && !Next(b, Edit(op)).cache.dirty {
      CleanEdit(b.cache, op);
      var c, s, order :| Core(c) == Core(b.cache) && Gives(b.file.value, b.name, c, s, order);
      assert Core(c) == Core(Next(b, Edit(op)).cache);
    }
  }

  lemma SaveOnDisk(b: Book, order: seq<Uid>, fate: Fate)
    requires OnDisk(b) && (Stores(b, fate) ==> Inv(b.cache) && Traversal(b.cache, order))
    ensures OnDisk(SaveBook(b, order, fate))
  {
    hide Inv, Resolved, ReadTree, SameBook, Gives, Core, Strip, DocTokens, Reloads;
    var d := SaveBook(b, order, fate);
    var w := b.(file := Some(Stored(true, DocTokens(DocOf(b.cache, b.name, order)))),
      cache := b.cache.(dirty := false));
    if Stores(b, fate) {
      SavedOnDisk(b, order);
      SameReloads(w, d);
    } else {
      SameReloads(b, d);
    }
  }

  /** Only the cache, the name and the file matter. */
  lemma SameReloads(b: Book, d: Book)
    requires d.cache == b.cache && d.name == b.name && d.file == b.file
    ensures Reloads(d) == Reloads(b)
  {
  }

  lemma StepOnDisk(b: Book, e: Event)
    requires OnDisk(b) && Happens(b, e) && SavesSound(b, e)
    ensures OnDisk(Next(b, e))
  {
    hide Inv, Resolved, ReadTree, DocTokens, SameBook, Apply, Allowed, Gives, Core, Reloads;
    match e
    case Edit(op) => EditOnDisk(b, op);
    case Change(_) =>
    case Rename(name) => StripTwice(name);
    case Refresh =>
    case ReadIt(order) => ReadOnDisk(b, order);
    case SaveIt(order, fate) => SaveOnDisk(b, order, fate);
    case SavePassed(order, fate) =>
      if b.cache.dirty && b.dataRead {
        SaveOnDisk(b, order, fate);
      }
  }

  /** Over every run in which books in agreement are saved: a book that has been read and is not marked
      as changed is what a reload of its file would give. */
  lemma {:induction false} DiskAgreement(b: Book, es: seq<Event>)
    requires OnDisk(b) && HappenAll(b, es) && SaveAllSound(b, es)
    ensures OnDisk(After(b, es))
    decreases |es|
  {
    hide OnDisk, Happens, Next, SavesSound;
    if es != [] {
      StepOnDisk(b, es[0]);
      DiskAgreement(Next(b, es[0]), es[1..]);
    }
  }

  /** In particular over every run of a new book, whatever file it is to be read from. */
  lemma NewBookAgreement(now: nat, path: string, fileName: string, file: Option<Stored>, es: seq<Event>)
    requires var b := Book(Fresh(now), "", false, MguSuccess, path, fileName, file);
      HappenAll(b, es) && SaveAllSound(b, es)
    ensures OnDisk(After(Book(Fresh(now), "", false, MguSuccess, path, fileName, file), es))
  {
    hide Reloads, HappenAll, After, SaveAllSound;
    DiskAgreement(Book(Fresh(now), "", false, MguSuccess, path, fileName, file), es);
  }

  // ---------- a read that failed ----------

  /** Nothing that reads the book anew or saves it in particular. */
  predicate LeavesUnread(e: Event) {
    !e.ReadIt? && !e.SaveIt?
  }

  /** A book that counts as not read is not written by any save-all pass, whatever else is done to it,
      until it is read or saved by name. */
  lemma {:induction false} UnreadNeverWritten(b: Book, es: seq<Event>)
    requires HappenAll(b, es) && !b.dataRead && forall e | e in es :: LeavesUnread(e)
    ensures After(b, es).file == b.file && !After(b, es).dataRead
    decreases |es|
  {
    if es != [] {
      assert es[0] in es;
      UnreadNeverWritten(Next(b, es[0]), es[1..]);
    }
  }

  /** A pass over a book that counts as not read, edited or not, can always happen: the half-read book
      need not be in agreement. */
  lemma PassAfterFailedRead(b: Book, order: seq<Uid>, edits: seq<Cache>, again: seq<Uid>, fate: Fate)
    requires b.file.Some? && !ReadBook(b, order).dataRead
    ensures var es := Changes(edits) + [SavePassed(again, fate)];
      HappenAll(ReadBook(b, order), es) && After(ReadBook(b, order), es).file == b.file
  {
    hide ReadTree, Resolved;
    var d := ReadBook(b, order);
    var es := Changes(edits) + [SavePassed(again, fate)];
    ChangesHappen(d, edits, [SavePassed(again, fate)]);
    UnreadNeverWritten(d, es);
  }

  function Changes(edits: seq<Cache>): (es: seq<Event>)
    ensures forall e | e in es :: e.Change?
  {
    seq(|edits|, i requires 0 <= i < |edits| => Change(edits[i]))
  }

  lemma {:induction false} ChangesHappen(b: Book, edits: seq<Cache>, last: seq<Event>)
    requires !b.dataRead && |last| == 1 && last[0].SavePassed?
    ensures HappenAll(b, Changes(edits) + last)
    decreases |edits|
  {
    var es := Changes(edits) + last;
    if edits == [] {
      assert es == last && last[1..] == [];
    } else {
      assert es[0] == Change(edits[0]) && es[1..] == Changes(edits[1..]) + last;
      ChangesHappen(Next(b, es[0]), edits[1..], last);
    }
  }

  // ---------- what does not hold ----------

  /** The person is hashed and lies nowhere, as a read that failed midway leaves it. */
  predicate Nowhere(c: Cache, p: Ref) {
    IsPerson(c, p) && p != c.root && c.heap[p].parent == None && c.heap[p].uid in c.hash && c.hash[c.heap[p].uid] == p
  }

  /** A book with such a person is not what any file gives. */
  lemma NowhereNeverGiven(c: Cache, d: Cache, f: Stored, name: string, s: Loading, order: seq<Uid>, p: Ref)
    requires Nowhere(c, p) && Core(d) == Core(c)
    ensures !Gives(f, name, d, s, order)
  {
    hide ReadTree, Home, Traversal;
    CoreSame(c, d);
    assert Nowhere(d, p) && Object(d, p);
    assert !SameObject(d, Resolved(ReadTree(f.dtd, f.tokens, s).s, order), p);
    var t := ReadTree(f.dtd, f.tokens, s);
    if Core(d) == Core(Resolved(t.s, order)) {
      CoreSame(d, Resolved(t.s, order));
      assert Nowhere(Resolved(t.s, order), p);
      ResolvedSomewhere(t.s, order, p);
    }
  }

  lemma ResolvedSomewhere(s: Loading, order: seq<Uid>, p: Ref)
    ensures !Nowhere(Resolved(s, order), p)
  {
  }

  /** Saved out of agreement a book need not be what a reload gives: one with a person that lies nowhere
      never is. */
  lemma SavedOutOfAgreement(b: Book, order: seq<Uid>, fate: Fate, p: Ref)
    requires Nowhere(b.cache, p) && b.dataRead && Stores(b, fate)
    ensures !Inv(b.cache) && !OnDisk(SaveBook(b, order, fate))
  {
    NowhereBreaks(b.cache, p);
    hide Inv, Gives, Nowhere;
    var d := SaveBook(b, order, fate);
    assert Nowhere(d.cache, p) by { NowhereStays(b.cache, d.cache, p); }
    forall c, s, o | Core(c) == Core(d.cache)
      ensures !Gives(d.file.value, d.name, c, s, o)
    {
      NowhereNeverGiven(d.cache, c, d.file.value, d.name, s, o, p);
    }
  }

  lemma NowhereStays(c: Cache, d: Cache, p: Ref)
    requires Nowhere(c, p) && d == c.(dirty := d.dirty)
    ensures Nowhere(d, p)
  {
  }

  lemma NowhereBreaks(c: Cache, p: Ref)
    requires Nowhere(c, p)
    ensures !Inv(c)
  {
    assert !PlacedAt(c, p);
  }

  /** The file need not be what the cache would write: a file of some other format reads as an empty
      book, counts as read and unchanged, and is nothing the writer would produce. */
  lemma ForeignFileCountsAsRead(b: Book, order: seq<Uid>, again: seq<Uid>)
    requires b.file.Some? && !b.file.value.dtd
    ensures var d := ReadBook(b, order);
      && d.dataRead && !d.cache.dirty && d.retVal == MguBadFormat && d.cache.hash == map[]
      && d.file != Some(Stored(true, DocTokens(DocOf(d.cache, d.name, again))))
  {
  }
}
