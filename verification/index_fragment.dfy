/** Configuration elements of the address index that this build does not support are kept as DOM
    fragments and written back unchanged (src/addrindex.c:904-1067). */
module IndexFragment {
  import opened XmlFiles

  datatype Fragment = Fragment(name: string, attributes: seq<Attr>, children: seq<Fragment>)

  // ---------- what is written ----------

  /** The tags of a fragment: an element without children closes itself. */
  function Tags(f: Fragment): seq<Token> {
    if f.children == [] then [Open(Tag(f.name, f.attributes), true, "")]
    else [Open(Tag(f.name, f.attributes), false, "")] + TagsOfAll(f.children) + [Close(f.name)]
  }

  function TagsOfAll(fs: seq<Fragment>): seq<Token> {
    if fs == [] then [] else Tags(fs[0]) + TagsOfAll(fs[1..])
  }

  lemma {:induction false} TagsOfAllConcat(fs: seq<Fragment>, gs: seq<Fragment>)
    ensures TagsOfAll(fs + gs) == TagsOfAll(fs) + TagsOfAll(gs)
  {
    if fs == [] {
      assert fs + gs == gs;
    } else {
      assert (fs + gs)[1..] == fs[1..] + gs;
      TagsOfAllConcat(fs[1..], gs);
    }
  }

  class TagWriter {
    var out: seq<Token>

    constructor ()
      ensures out == []
    {
      out := [];
    }

    /** `addrindex_write_fragment`. */
    method WriteFragment(fragment: Fragment)
      modifies this
      ensures out == old(out) + Tags(fragment)
      decreases fragment
    {
      var attributes: seq<Attr> := [];
      var i := 0;
      while i < |fragment.attributes|
        invariant 0 <= i <= |fragment.attributes| && attributes == fragment.attributes[..i] && out == old(out)
      {
        attributes := attributes + [fragment.attributes[i]];
        i := i + 1;
      }
      assert attributes == fragment.attributes;
      var tag := Tag(fragment.name, attributes);
      if fragment.children != [] {
        out := out + [Open(tag, false, "")];
        ghost var before := out;
        var j := 0;
        assert fragment.children[0..] == fragment.children;
        while j < |fragment.children|
          invariant 0 <= j <= |fragment.children|
          invariant out + TagsOfAll(fragment.children[j..]) == before + TagsOfAll(fragment.children)
        {
          ghost var o, node := out, fragment.children[j..];
          assert node[0] == fragment.children[j] && node[1..] == fragment.children[j + 1..];
          WriteFragment(fragment.children[j]);
          assert o + (Tags(node[0]) + TagsOfAll(node[1..])) == o + Tags(node[0]) + TagsOfAll(node[1..]);
          j := j + 1;
        }
        assert fragment.children[j..] == [] && out + [] == out;
        out := out + [Close(fragment.name)];
        assert out == before + TagsOfAll(fragment.children) + [Close(fragment.name)];
        assert out == old(out) + ([Open(tag, false, "")] + TagsOfAll(fragment.children) + [Close(fragment.name)]);
      } else {
        out := out + [Open(tag, true, "")];
      }
    }
  }

  // ---------- what is read ----------

  /** Reading the fragment whose opening tag is the reader's current one. */
  function Read(x: Reader): (r: (Fragment, Reader))
    requires x.stack != []
    ensures r.1.Left() <= x.Left()
    decreases x.Left(), 1
  {
    var (children, y) := ReadChildren(x, x.Level());
    (Fragment(x.stack[0].name, x.stack[0].attr, children), y)
  }

  /** The children up to the first tag below `prevLevel`, or to the first error. */
  function ReadChildren(x: Reader, prevLevel: nat): (r: (seq<Fragment>, Reader))
    requires prevLevel > 0
    ensures r.1.Left() <= x.Left()
    decreases x.Left(), 0
  {
    var (rc, y) := NextTag(x);
    if rc != 0 || y.Level() < prevLevel then ([], y)
    else
      var (child, z) := Read(y);
      var (rest, w) := ReadChildren(z, prevLevel);
      ([child] + rest, w)
  }

  /** `addrindex_read_fragment`: it ends on every input, since each tag read uses some of it up. */
  method ReadFragment(file: XmlFile) returns (fragment: Fragment)
    requires file.Valid() && file.tagStack != []
    modifies file
    ensures file.Valid() && (fragment, file.View()) == Read(old(file.View()))
    decreases file.View().Left()
  {
    var prevLevel := file.level;
    var name := file.tagStack[0].name;
    var attributes := file.tagStack[0].attr;
    var children: seq<Fragment> := [];
    ghost var x := file.View();
    assert children + ReadChildren(x, prevLevel).0 == ReadChildren(x, prevLevel).0;
    while true
      invariant file.Valid() && file.View().Left() <= x.Left()
      invariant ReadChildren(x, prevLevel) ==
        (children + ReadChildren(file.View(), prevLevel).0, ReadChildren(file.View(), prevLevel).1)
      decreases file.View().Left()
    {
      ghost var y := file.View();
      var rc := file.ParseNextTag();
      if rc != 0 {
        break;
      }
      if file.level < prevLevel {
        break;
      }
      ghost var z := file.View();
      var child := ReadFragment(file);
      assert ReadChildren(y, prevLevel).0 == [child] + ReadChildren(file.View(), prevLevel).0;
      assert children + ([child] + ReadChildren(file.View(), prevLevel).0) ==
        children + [child] + ReadChildren(file.View(), prevLevel).0;
      children := children + [child];
    }
    assert children + [] == children;
    fragment := Fragment(name, attributes, children);
  }

  // ---------- the round trip ----------

  /** The reader just past the opening tag of what has been written. */
  function Opened(f: Fragment, rest: seq<Token>, stack: seq<Tag>): Reader {
    NextTag(Reader(Tags(f) + rest, stack, false, "")).1
  }

  lemma OpenedIs(f: Fragment, rest: seq<Token>, stack: seq<Tag>)
    ensures NextTag(Reader(Tags(f) + rest, stack, false, "")).0 == 0
    ensures Opened(f, rest, stack) == Reader(
      if f.children == [] then rest else TagsOfAll(f.children) + ([Close(f.name)] + rest),
      [Tag(f.name, f.attributes)] + stack, f.children == [], "")
  {
    var input := Tags(f) + rest;
    assert input[0] == Open(Tag(f.name, f.attributes), f.children == [], "");
    if f.children == [] {
      assert input[1..] == rest;
    } else {
      assert input[1..] == TagsOfAll(f.children) + ([Close(f.name)] + rest);
    }
  }

  /** Every fragment is read back as it was written: names, attributes and children in order; what
      follows it is left unread and the tags around it stay open. */
  lemma {:induction false} FragmentRoundTrip(f: Fragment, rest: seq<Token>, stack: seq<Tag>)
    ensures Opened(f, rest, stack).stack != []
    ensures Read(Opened(f, rest, stack)) == (f, Reader(rest, stack, false, ""))
    decreases f, 1
  {
    OpenedIs(f, rest, stack);
    var x := Opened(f, rest, stack);
    if f.children == [] {
      assert NextTag(x) == (0, Reader(rest, stack, false, ""));
    } else {
      ChildrenRoundTrip(f, f.children, rest, stack);
    }
  }

  lemma {:induction false} ChildrenRoundTrip(f: Fragment, fs: seq<Fragment>, rest: seq<Token>, stack: seq<Tag>)
    requires forall c | c in fs :: c in f.children
    ensures var tag := Tag(f.name, f.attributes);
      ReadChildren(Reader(TagsOfAll(fs) + ([Close(f.name)] + rest), [tag] + stack, false, ""), |stack| + 1) ==
        (fs, Reader(rest, stack, false, ""))
    decreases f, 0, |fs|
  {
    var tag := Tag(f.name, f.attributes);
    var here := [tag] + stack;
    var x := Reader(TagsOfAll(fs) + ([Close(f.name)] + rest), here, false, "");
    if fs == [] {
      assert x.input == [Close(f.name)] + rest;
      assert here[1..] == stack && x.input[1..] == rest;
    } else {
      var after := TagsOfAll(fs[1..]) + ([Close(f.name)] + rest);
      assert x.input == Tags(fs[0]) + after;
      assert fs[0] in f.children;
      OpenedIs(fs[0], after, here);
      FragmentRoundTrip(fs[0], after, here);
      ChildrenRoundTrip(f, fs[1..], rest, stack);
      assert [fs[0]] + fs[1..] == fs;
    }
  }

  /** Different fragments are written differently, even when more follows. */
  lemma TagsInjective(f: Fragment, g: Fragment, r: seq<Token>, s: seq<Token>)
    requires Tags(f) + r == Tags(g) + s
    ensures f == g && r == s
  {
    FragmentRoundTrip(f, r, []);
    FragmentRoundTrip(g, s, []);
  }
}
