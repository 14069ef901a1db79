/** What an action string means, directive by directive (src/action.c:200-370). */
module ActionMeaning {
  import opened Items
  import opened ActionScan

  // ---------- the command ----------

  /** The text `x` between `q` and what the rest of the action gives; an empty command is none. */
  function Expanded(q: string, x: Option<string>, post: string, i: Inputs): Option<string> {
    var rest := CommandFrom(post, 0, i);
    if x.None? || rest.None? || q + x.value + rest.value == "" then None else Some(q + x.value + rest.value)
  }

  /** The scan does not look back. */
  lemma {:induction false} Shift(pre: string, s: string, p: nat, i: Inputs)
    requires p <= |s|
    ensures CommandFrom(pre + s, |pre| + p, i) == CommandFrom(s, p, i)
    decreases |s| - p
  {
    var t := pre + s;
    assert forall k | 0 <= k < |s| :: t[|pre| + k] == s[k];
    if !AtEnd(s, p) {
      assert t[|pre| + p] == s[p] && (p + 1 < |s| ==> t[|pre| + (p + 1)] == s[p + 1]);
      Shift(pre, s, p + 1, i);
      if s[p] == '%' && p + 1 < |s| {
        Shift(pre, s, p + 2, i);
      }
    }
  }

  /** What is no directive stands for itself. */
  lemma {:induction false} PlainRead(q: string, post: string, i: Inputs)
    requires '%' !in q && (post == "" && q != "" ==> q[|q| - 1] !in {'|', '>', '&'})
    ensures var rest := CommandFrom(post, 0, i);
      CommandFrom(q + post, 0, i) == if rest.None? then None else Some(q + rest.value)
    decreases |q|
  {
    var rest := CommandFrom(post, 0, i);
    if q == "" {
      assert q + post == post && (rest.Some? ==> "" + rest.value == rest.value);
    } else {
      var t := q + post;
      var r := q[1..];
      assert t == [q[0]] + (r + post) && t[0] == q[0];
      PlainRead(r, post, i);
      Shift([q[0]], r + post, 0, i);
      assert rest.Some? ==> [q[0]] + (r + rest.value) == q + rest.value;
    }
  }

  /** A string without directives comes out as it is, less an operator at its end. */
  lemma PlainComes(q: string, i: Inputs)
    requires '%' !in q
    ensures CommandFrom(q, 0, i) ==
      Some(if q != "" && q[|q| - 1] in {'|', '>', '&'} then q[..|q| - 1] else q)
  {
    if q != "" && q[|q| - 1] in {'|', '>', '&'} {
      var r, z := q[..|q| - 1], [q[|q| - 1]];
      assert q == r + z;
      NothingLeft(z, 0, i);
      PlainRead(r, z, i);
      assert r + "" == r;
    } else {
      assert q + "" == q;
      NothingLeft("", 0, i);
      PlainRead(q, "", i);
    }
  }

  lemma OneDirective(q: string, c: char, post: string, i: Inputs)
    requires '%' !in q && (q != "" ==> q[0] !in {'|', '>', '*'})
    ensures CommandOf(q + ['%', c] + post, i) == Expanded(q, Expansion(c, i), post, i)
  {
    hide Expansion;
    var d := ['%', c] + post;
    var rest := CommandFrom(post, 0, i);
    assert q + ['%', c] + post == q + d && ['%', c] + post == d && d[0] == '%' && d[1] == c;
    Shift(['%', c], post, 0, i);
    PlainRead(q, d, i);
    assert Start(q + d) == 0 by { assert (q + d)[0] == if q == "" then '%' else q[0]; }
    var x := Expansion(c, i);
    assert x.Some? && rest.Some? ==> q + (x.value + rest.value) == q + x.value + rest.value;
  }

  /** What each directive puts in, between the plain text before it and whatever comes of the text behind
      it: the files of the message, of all messages and of the part, the selection and the user's two
      texts, which may be missing, and a `%`; any other letter stays with its `%`. */
  lemma DirectiveMeans(q: string, post: string, i: Inputs)
    requires '%' !in q && (q != "" ==> q[0] !in {'|', '>', '*'})
    ensures CommandOf(q + "%f" + post, i) == Expanded(q, i.message, post, i)
    ensures CommandOf(q + "%F" + post, i) == Expanded(q, Files(i.messages), post, i)
    ensures CommandOf(q + "%p" + post, i) == Expanded(q, i.part, post, i)
    ensures CommandOf(q + "%s" + post, i) ==
      Expanded(q, Some(if i.selection.Some? then i.selection.value else ""), post, i)
    ensures CommandOf(q + "%u" + post, i) == Expanded(q, Some(if i.user.Some? then i.user.value else ""), post, i)
    ensures CommandOf(q + "%h" + post, i) == Expanded(q, Some(if i.hidden.Some? then i.hidden.value else ""), post, i)
    ensures CommandOf(q + "%%" + post, i) == Expanded(q, Some("%"), post, i)
    ensures forall c | c !in {'f', 'F', 'p', 's', 'u', 'h', '%'} ::
      CommandOf(q + ['%', c] + post, i) == Expanded(q, Some(['%', c]), post, i)
  {
    hide CommandOf, Expanded;
    forall c
      ensures CommandOf(q + ['%', c] + post, i) == Expanded(q, Expansion(c, i), post, i)
    {
      OneDirective(q, c, post, i);
    }
    assert "%f" == ['%', 'f'] && "%F" == ['%', 'F'] && "%p" == ['%', 'p'] && "%s" == ['%', 's'];
    assert "%u" == ['%', 'u'] && "%h" == ['%', 'h'] && "%%" == ['%', '%'];
  }

  /** The files of all messages are joined by one blank each, and one that cannot be had spoils all. */
  lemma {:induction false} FilesJoined(ms: seq<Option<string>>, ns: seq<Option<string>>, x: Option<string>)
    ensures Files([]) == Some("") && Files([x]) == x
    ensures ms != [] && ns != [] ==> var a, b := Files(ms), Files(ns);
      Files(ms + ns) == if a.None? || b.None? then None else Some(a.value + " " + b.value)
    decreases |ms|
  {
    if ms != [] && ns != [] {
      assert (ms + ns)[0] == ms[0] && (ms + ns)[1..] == ms[1..] + ns;
      if |ms| == 1 {
        assert ms[1..] + ns == ns;
      } else {
        FilesJoined(ms[1..], ns, x);
        if Files(ms).Some? && Files(ns).Some? {
          assert ms[0].value + " " + (Files(ms[1..]).value + " " + Files(ns).value) ==
            (ms[0].value + " " + Files(ms[1..]).value) + " " + Files(ns).value;
        }
      }
    }
  }

  /** An operator in front is no part of the command. */
  lemma LeadPasses(c: char, s: string, i: Inputs)
    requires c in {'|', '>', '*'}
    ensures CommandOf([c] + s, i) == var r := CommandFrom(s, 0, i); if r == Some("") then None else r
  {
    Shift([c], s, 0, i);
    assert ([c] + s)[0] == c;
  }

  // ---------- the type ----------

  /** Whether directives set the bit. */
  predicate SetBy(f: Flag, d: set<char>) {
    match f
    case Single => 'f' in d || 'p' in d
    case Multiple => 'F' in d
    case SelectionStr => 's' in d
    case UserStr => 'u' in d
    case UserHiddenStr => 'h' in d
    case _ => false
  }

  /** Whether an operator at the end sets the bit. */
  predicate SetAtEnd(f: Flag, c: char) {
    match f
    case PipeOut => c == '|'
    case Insert => c == '>'
    case Async => c == '&'
    case _ => false
  }

  lemma {:induction false} BitIs(s: string, p: nat, t: ActionType, f: Flag)
    requires p <= |s| && 'a' !in DirectivesFrom(s, p) && TypeFrom(s, p, false, t) != ActionError
    ensures t.Flags? && TypeFrom(s, p, false, t).Flags?
    ensures f in TypeFrom(s, p, false, t).bits <==>
      f in t.bits || SetBy(f, DirectivesFrom(s, p)) || (p < |s| && SetAtEnd(f, s[|s| - 1]))
    decreases |s| - p
  {
    if p < |s| {
      if s[p] == '%' && p + 1 < |s| {
        var c, d := s[p + 1], DirectivesFrom(s, p + 2);
        BitIs(s, p + 2, Directive(t, c, CharAt(s, p + 2)), f);
        assert DirectivesFrom(s, p) == {c} + d;
        OneBit(t, c, CharAt(s, p + 2), f);
      } else {
        BitIs(s, p + 1, if p + 1 == |s| then Trailing(t, s[p]) else t, f);
      }
    }
  }

  lemma OneBit(t: ActionType, c: char, next: char, f: Flag)
    requires t.Flags? && c != 'a' && Directive(t, c, next).Flags?
    ensures f in Directive(t, c, next).bits <==> f in t.bits || SetBy(f, {c})
    ensures !SetAtEnd(f, c)
  {
  }

  /** The type of an action in order, bit by bit: by its first character, its last and its directives. */
  lemma TypeMeans(s: string)
    requires TypeOf(s).Flags? && 'a' !in Directives(s)
    ensures s != "" && var b := TypeOf(s).bits; var d := Directives(s);
      && (PipeIn in b <==> s[0] == '|') && (UserIn in b <==> s[0] == '>') && (UserHiddenIn in b <==> s[0] == '*')
      && (PipeOut in b <==> s[|s| - 1] == '|') && (Insert in b <==> s[|s| - 1] == '>')
      && (Async in b <==> s[|s| - 1] == '&') && (Single in b <==> 'f' in d || 'p' in d)
      && (Multiple in b <==> 'F' in d) && (SelectionStr in b <==> 's' in d) && (UserStr in b <==> 'u' in d)
      && (UserHiddenStr in b <==> 'h' in d) && FilteringAction !in b
  {
    assert Start(s) < |s| && TypeOf(s) == TypeFrom(s, Start(s), false, LeadFlag(s[0]));
    assert Directives(s) == DirectivesFrom(s, Start(s));
    hide TypeFrom, DirectivesFrom, TypeOf, Directives, Start;
    forall f: Flag
      ensures f in TypeOf(s).bits <==> f in LeadFlag(s[0]).bits || SetBy(f, Directives(s)) || SetAtEnd(f, s[|s| - 1])
    {
      BitIs(s, Start(s), LeadFlag(s[0]), f);
    }
  }

  lemma {:induction false} ErrorFrom(s: string, p: nat, t: ActionType)
    requires p <= |s| && 'a' !in DirectivesFrom(s, p) && t.Flags?
    ensures TypeFrom(s, p, false, t) == ActionError <==>
      exists c :: c in DirectivesFrom(s, p) && c !in {'f', 'F', 'p', 's', 'u', 'h', '%'}
    decreases |s| - p
  {
    if p < |s| {
      if s[p] == '%' && p + 1 < |s| {
        var c, d := s[p + 1], DirectivesFrom(s, p + 2);
        assert DirectivesFrom(s, p) == {c} + d && c != 'a';
        var u := Directive(t, c, CharAt(s, p + 2));
        if c in {'f', 'F', 'p', 's', 'u', 'h', '%'} {
          ErrorFrom(s, p + 2, u);
        } else {
          assert u == ActionError && c in DirectivesFrom(s, p);
        }
      } else {
        ErrorFrom(s, p + 1, if p + 1 == |s| then Trailing(t, s[p]) else t);
      }
    }
  }

  /** An action is in error exactly if there is nothing in it but an operator in front, or if it has a
      directive that there is not. */
  lemma ErrorMeans(s: string)
    requires 'a' !in Directives(s)
    ensures TypeOf(s) == ActionError <==>
      s in {"", "|", ">", "*"} || exists c :: c in Directives(s) && c !in {'f', 'F', 'p', 's', 'u', 'h', '%'}
  {
    if s != "" {
      assert |s| == 1 ==> s == [s[0]];
      ErrorFrom(s, Start(s), LeadFlag(s[0]));
    }
  }

  lemma {:induction false} PassedOver(s: string, p: nat, t: ActionType)
    requires p <= |s| && t.Flags?
    ensures TypeFrom(s, p, true, t) == t
    decreases |s| - p
  {
    if p < |s| {
      PassedOver(s, p + 1, t);
    }
  }

  lemma {:induction false} PlainType(q: string, rest: string, p: nat, t: ActionType)
    requires '%' !in q && p <= |q| && rest != ""
    ensures TypeFrom(q + rest, p, false, t) == TypeFrom(q + rest, |q|, false, t)
    decreases |q| - p
  {
    if p < |q| {
      assert (q + rest)[p] == q[p];
      PlainType(q, rest, p + 1, t);
    }
  }

  /** The filtering directive takes the place of every bit, if it is for a message, and ends the scan
      in any case. */
  lemma FilteringMeans(q: string, post: string)
    requires '%' !in q && (q != "" ==> q[0] !in {'|', '>', '*'})
    ensures TypeOf(q + "%a" + post) ==
      Flags(if post != "" && post[0] == 's' then {FilteringAction, Single, Multiple} else {})
  {
    var rest := "%a" + post;
    var s := q + rest;
    assert q + "%a" + post == s && s[0] == (if q == "" then '%' else q[0]);
    PlainType(q, rest, 0, Flags({}));
    assert s[|q|] == '%' && s[|q| + 1] == 'a' && CharAt(s, |q| + 2) == CharAt(post, 0);
    var t := Directive(Flags({}), 'a', CharAt(s, |q| + 2));
    PassedOver(s, |q| + 2, t);
  }
}
