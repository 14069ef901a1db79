/** The tag reader that the address-book files share (src/common/xml.c:212-372).  Characters,
    escapes and code sets are left to the parenthesis scanner: a file is the sequence of what it
    delivers between angle brackets. */
module XmlFiles {
  datatype Attr = Attr(name: string, value: string)
  datatype Tag = Tag(name: string, attr: seq<Attr>)

  /** One pair of angle brackets; `text` is what stands between an opening tag and the next pair.
      A broken tag has a syntax error behind its name; the tag has been pushed by the time the
      error is found. */
  datatype Token =
    | Open(tag: Tag, selfClosed: bool, text: string)
    | Close(name: string)
    | Comment
    | Broken(tag: Tag, selfClosed: bool)

  /** The reader: what is still to come, the open tags with the innermost first, whether the
      innermost one closes itself, and the text behind the tag read last.  The source's `level` is
      the height of the stack. */
  datatype Reader = Reader(input: seq<Token>, stack: seq<Tag>, isEmptyElement: bool, text: string) {
    function Left(): nat { 2 * |input| + if isEmptyElement then 1 else 0 }
    function Level(): nat { |stack| }
  }

  function SkipComments(input: seq<Token>): (r: seq<Token>)
    ensures |r| <= |input| && (r == [] || !r[0].Comment?)
  {
    if input != [] && input[0].Comment? then SkipComments(input[1..]) else input
  }

  /** `xml_parse_next_tag`: its return code and the reader after it.  A close tag where no tag is
      open counts as an error. */
  function NextTag(x: Reader): (r: (int, Reader))
    ensures r.0 == 0 ==> r.1.Left() < x.Left()
    ensures r.1.Left() <= x.Left()
  {
    if x.isEmptyElement then
      (0, Reader(x.input, if x.stack == [] then [] else x.stack[1..], false, ""))
    else
      var input := SkipComments(x.input);
      if input == [] then (-1, x.(input := []))
      else
        var rest := input[1..];
        match input[0]
        case Close(name) =>
          if x.stack == [] || x.stack[0].name != name then (-1, x.(input := rest))
            else (0, Reader(rest, x.stack[1..], false, ""))
        case Open(tag, selfClosed, text) => (0, Reader(rest, [tag] + x.stack, selfClosed, text))
        case Broken(tag, selfClosed) => (-1, Reader(rest, [tag] + x.stack, selfClosed, x.text))
        case Comment => (-1, x)
  }

  // ---------- text ----------

  /** `g_ascii_isspace`. */
  predicate IsSpace(c: char) {
    c == ' ' || c == '\t' || c == '\n' || c == '\r' || c == '\U{0C}'
  }

  function StripLeft(s: string): string {
    if s != [] && IsSpace(s[0]) then StripLeft(s[1..]) else s
  }

  function StripRight(s: string): string {
    if s != [] && IsSpace(s[|s| - 1]) then StripRight(s[..|s| - 1]) else s
  }

  /** `g_strstrip`. */
  function Strip(s: string): string {
    StripRight(StripLeft(s))
  }

  /** No white space at either end. */
  predicate Trim(s: string) {
    s == [] || (s[0] !in {' ', '\t', '\n', '\r', '\U{0C}'} && s[|s| - 1] !in {' ', '\t', '\n', '\r', '\U{0C}'})
  }

  lemma {:induction false} LeftStripped(s: string) returns (pre: string)
    ensures s == pre + StripLeft(s) && forall c | c in pre :: c in {' ', '\t', '\n', '\r', '\U{0C}'}
    ensures var r := StripLeft(s); r == [] || r[0] !in {' ', '\t', '\n', '\r', '\U{0C}'}
  {
    if s != [] && IsSpace(s[0]) {
      pre := LeftStripped(s[1..]);
      pre := [s[0]] + pre;
    } else {
      pre := [];
    }
  }

  lemma {:induction false} RightStripped(s: string) returns (post: string)
    ensures s == StripRight(s) + post && forall c | c in post :: c in {' ', '\t', '\n', '\r', '\U{0C}'}
    ensures var r := StripRight(s); r == [] || r[|r| - 1] !in {' ', '\t', '\n', '\r', '\U{0C}'}
  {
    if s != [] && IsSpace(s[|s| - 1]) {
      post := RightStripped(s[..|s| - 1]);
      post := post + [s[|s| - 1]];
    } else {
      post := [];
    }
  }

  /** Only white space at either end is taken off, and all of it. */
  lemma StripMeans(s: string) returns (pre: string, post: string)
    ensures s == pre + Strip(s) + post
    ensures forall c | c in pre || c in post :: c in {' ', '\t', '\n', '\r', '\U{0C}'}
    ensures Trim(Strip(s))
  {
    hide StripLeft, StripRight;
    pre := LeftStripped(s);
    var l := StripLeft(s);
    post := RightStripped(l);
    assert Strip(s) != [] ==> Strip(s)[0] == l[0];
  }

  /** A text is kept exactly if it has no white space at either end. */
  lemma StripKeeps(s: string)
    ensures Strip(s) == s <==> Trim(s)
  {
    if Strip(s) == s {
      var pre, post := StripMeans(s);
    }
  }

  /** Stripped once, a string has no more white space to lose. */
  lemma StripTwice(s: string)
    ensures Strip(Strip(s)) == Strip(s)
  {
    var pre, post := StripMeans(s);
    StripKeeps(Strip(s));
  }

  /** `xml_get_element`; no text at all reads as the empty string. */
  function Element(x: Reader): string {
    Strip(x.text)
  }

  class XmlFile {
    var input: seq<Token>
    var tagStack: seq<Tag>
    var level: nat
    var isEmptyElement: bool
    var text: string

    ghost predicate Valid()
      reads this
    {
      level == |tagStack|
    }

    ghost function View(): Reader
      reads this
    {
      Reader(input, tagStack, isEmptyElement, text)
    }

    constructor (tokens: seq<Token>)
      ensures Valid() && View() == Reader(tokens, [], false, "")
    {
      input, tagStack, level, isEmptyElement, text := tokens, [], 0, false, "";
    }

    method PushTag(tag: Tag)
      requires Valid()
      modifies this`tagStack, this`level
      ensures Valid() && tagStack == [tag] + old(tagStack)
    {
      tagStack := [tag] + tagStack;
      level := level + 1;
    }

    method PopTag()
      requires Valid()
      modifies this`tagStack, this`level
      ensures Valid() && tagStack == if old(tagStack) == [] then [] else old(tagStack)[1..]
    {
      if tagStack != [] {
        tagStack := tagStack[1..];
        level := level - 1;
      }
    }

    /** `xml_parse_next_tag`. */
    method ParseNextTag() returns (rc: int)
      requires Valid()
      modifies this
      ensures Valid() && (rc, View()) == NextTag(old(View()))
    {
      if isEmptyElement {
        isEmptyElement := false;
        text := "";
        PopTag();
        return 0;
      }
      while input != [] && input[0].Comment?
        invariant SkipComments(input) == SkipComments(old(input))
        invariant Valid() && tagStack == old(tagStack) && !isEmptyElement && text == old(text)
        decreases |input|
      {
        input := input[1..];
      }
      if input == [] {
        return -1;
      }
      var buf := input[0];
      input := input[1..];
      if buf.Close? {
        if tagStack == [] || tagStack[0].name != buf.name {
          return -1;
        }
        text := "";
        PopTag();
        return 0;
      }
      PushTag(buf.tag);
      isEmptyElement := buf.selfClosed;
      if buf.Broken? {
        return -1;
      }
      text := buf.text;
      return 0;
    }

    /** `xml_get_element`. */
    method GetElement() returns (str: string)
      ensures str == Element(View())
    {
      str := Strip(text);
    }

    /** `xml_compare_tag`. */
    method CompareTag(name: string) returns (same: bool)
      ensures same <==> tagStack != [] && tagStack[0].name == name
    {
      same := tagStack != [] && tagStack[0].name == name;
    }
  }
}
