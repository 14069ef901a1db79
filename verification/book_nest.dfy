/** When reading a file is broken off by the jump (src/addrbook.c:405-783, src/common/xml.c:212-346): exactly
    if its tags are not well nested up to the end of the outermost element, whatever they are called. */
module BookNest {
  import opened Items
  import opened XmlFiles
  import opened BookDoc
  import opened BookParse
  import opened BookSame
  import opened BookFile

  // ---------- nesting, without a parser ----------

  /** Tags are closed in the order in which they were opened, until the outermost of `open`, which has
      the innermost first, is closed.  What comes then does not matter. */
  predicate Nested(ts: seq<Token>, open: seq<Tag>) {
    open == [] || (ts != [] &&
      match ts[0]
      case Comment => Nested(ts[1..], open)
      case Open(tag, selfClosed, _) => Nested(ts[1..], if selfClosed then open else [tag] + open)
      case Close(name) => name == open[0].name && Nested(ts[1..], open[1..])
      case Broken(_, _) => false)
  }

  /** A document with no tag to begin with, or an address book that is not well nested. */
  predicate BreaksOff(f: Stored) {
    var ts := SkipComments(f.tokens);
    f.dtd && (ts == [] || !ts[0].Open?
      || (ts[0].tag.name == "address-book" && !ts[0].selfClosed && !Nested(ts[1..], [ts[0].tag])))
  }

  // ---------- one tag ----------

  /** What the reader has still before it is well nested. */
  predicate Closes(x: Reader) {
    x.stack == [] || Nested(x.input, if x.isEmptyElement then x.stack[1..] else x.stack)
  }

  /** The outermost open tag is that of the book. */
  predicate InBook(x: Reader) {
    x.stack != [] ==> x.stack[|x.stack| - 1].name == "address-book"
  }

  lemma {:induction false} CommentsNest(ts: seq<Token>, open: seq<Tag>)
    ensures Nested(SkipComments(ts), open) == Nested(ts, open)
  {
    if ts != [] && ts[0].Comment? {
      CommentsNest(ts[1..], open);
    }
  }

  /** Where the parse from `x` came to: with an error if and because the tags are not well nested, and
      no more than `down` levels below. */
  predicate Came(x: Reader, ok: bool, y: Reader, down: nat) {
    if ok then InBook(y) && |y.stack| + down >= |x.stack| && (Closes(y) <==> Closes(x)) else !Closes(x)
  }

  lemma TagCame(x: Reader)
    requires InBook(x) && x.stack != []
    ensures Came(x, NextTag(x).0 == 0, NextTag(x).1, 1)
  {
    CommentsNest(x.input, x.stack);
    var y := NextTag(x).1;
    if y.stack != [] && |y.stack| > |x.stack| {
      assert y.stack[1..] == x.stack;
    }
  }

  /** A tag of another name than the book's is inside it. */
  lemma Inside(x: Reader, name: string)
    requires InBook(x) && Current(x, name) && name != "address-book"
    ensures |x.stack| >= 2
  {
  }

  // ---------- the parser ----------

  lemma {:induction false} ListCame(k: ListKind, x: Reader, s: Loading)
    requires InBook(x) && x.stack != []
    ensures var r := ParseList(k, x, s); Came(x, r.ok, r.x, 1)
    decreases x.Left()
  {
    hide Closes, ParseElement;
    TagCame(x);
    var (rc, y) := NextTag(x);
    if rc == 0 && y.Level() >= x.Level() {
      if Current(y, ElementName(k)) {
        var t := ParseElement(k, y.stack[0], y.text, s);
        ListCame(k, y, t);
        var r := ParseList(k, y, t);
        if r.ok {
          ListCame(k, r.x, r.s);
        }
      } else {
        ListCame(k, y, s);
      }
    }
  }

  lemma PersonCame(x: Reader, s: Loading)
    requires InBook(x) && Current(x, "person")
    ensures var r := ParsePerson(x, s); Came(x, r.ok, r.x, |x.stack|)
  {
    hide Closes, ParseList, MadeRef, WithMade, Hashed;
    Inside(x, "person");
    TagCame(x);
    var p := MadeRef(x.stack[0], s);
    var s1 := WithMade(x.stack[0], s);
    var (rc, y) := NextTag(x);
    if rc == 0 {
      var r := Parsed(true, y, s1);
      if Current(y, "address-list") {
        Inside(y, "address-list");
        ListCame(Addresses(p), y, s1);
        r := ParseList(Addresses(p), y, s1);
      }
      if r.ok {
        var s2 := if Current(y, "address-list") then Hashed(p, r.s) else r.s;
        TagCame(r.x);
        var (rc2, z) := NextTag(r.x);
        if rc2 == 0 && Current(z, "attribute-list") {
          ListCame(Attributes(p), z, s2);
        }
      }
    }
  }

  lemma ListerCame(x: Reader, s: Loading)
    requires InBook(x) && (Current(x, "group") || Current(x, "folder"))
    ensures var r := ParseLister(x, s); Came(x, r.ok, r.x, |x.stack|)
  {
    hide Closes, ParseList, MadeRef, WithMade, Hashed, Queued, Discarded;
    TagCame(x);
    var o := MadeRef(x.stack[0], s);
    var s1 := WithMade(x.stack[0], s);
    var (rc, y) := NextTag(x);
    if rc == 0 {
      if Current(x, "group") && Current(y, "member-list") {
        ListCame(Members(o), y, Hashed(o, s1));
      } else if !Current(x, "group") && Current(y, "item-list") {
        ListCame(ItemList(o), y, Queued(o, s1));
      }
    }
  }

  /** The whole parser gets to the end of the book if and only if the tags are well nested. */
  lemma {:induction false} ObjectsCame(x: Reader, s: Loading)
    requires InBook(x)
    ensures ParseObjects(x, s).ok <==> Closes(x)
    decreases x.Left()
  {
    hide Closes, ParsePerson, ParseLister;
    if x.Level() == 0 {
      AllClosed(x);
    } else {
      TagCame(x);
      var (rc, y) := NextTag(x);
      if rc == 0 {
        if Current(y, "person") {
          PersonCame(y, s);
        } else if Current(y, "group") || Current(y, "folder") {
          ListerCame(y, s);
        }
        var r := ParseObject(y, s);
        if r.ok {
          ObjectsCame(r.x, r.s);
        }
      }
    }
  }

  lemma AllClosed(x: Reader)
    requires x.stack == []
    ensures Closes(x)
  {
  }

  lemma TreeBreaks(f: Stored, s: Loading)
    ensures ReadTree(f.dtd, f.tokens, s).outcome == Jump <==> BreaksOff(f)
  {
    hide ParseObjects, Nested, Has, Value, Strip;
    var (rc, x) := NextTag(Reader(f.tokens, [], false, ""));
    if f.dtd && rc == 0 && Current(x, "address-book") {
      var a := x.stack[0].attr;
      var t := if Has(a, "name") then s.(c := s.c.(dirty := true)) else s;
      var tag := x.stack[0];
      assert [tag] + [] == [tag] && [tag][1..] == [];
      ObjectsCame(x, t);
      NothingOpen(x.input);
    }
  }

  lemma NothingOpen(ts: seq<Token>)
    ensures Nested(ts, [])
  {
  }

  /** The read of a file fails midway, so that the book counts as not read, exactly if the file is a
      document whose first tag is missing or broken or whose address book is not well nested. */
  lemma FailedRead(b: Book, order: seq<Uid>)
    requires b.file.Some?
    ensures !ReadBook(b, order).dataRead <==> BreaksOff(b.file.value)
  {
    hide ReadTree, BreaksOff;
    TreeBreaks(b.file.value, Cleared(b.cache.root, b.cache.nextId, b.cache.root + 1, b.cache.dirty));
  }

  /** What the writer produces never breaks off. */
  lemma WrittenNests(d: Doc)
    ensures !BreaksOff(Stored(true, DocTokens(d)))
  {
    hide ReadTree, BreaksOff, LoadDoc, DocTokens;
    var s := Cleared(0, 0, 1, false);
    ReadWritten(d, s);
    TreeBreaks(Stored(true, DocTokens(d)), s);
  }
}
