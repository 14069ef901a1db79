/** The two scanners of an action string (src/action.c:200-370): one says what kind of action it is
    and so what has to be asked for, the other puts the command together. */
module ActionScan {
  import opened Items

  datatype Flag =
    | PipeIn | UserIn | UserHiddenIn | Single | Multiple | SelectionStr | UserStr | UserHiddenStr
    | PipeOut | Insert | Async | FilteringAction

  /** The type of an action: an error, or the bits that are set besides that of `ACTION_NONE`. */
  datatype ActionType = ActionError | Flags(bits: set<Flag>)

  // ---------- what kind of action ----------

  predicate LeadingOperator(c: char) { c == '|' || c == '>' || c == '*' }

  predicate TrailingOperator(c: char) { c == '|' || c == '>' || c == '&' }

  function With(t: ActionType, f: Flag): ActionType {
    match t
    case ActionError => ActionError
    case Flags(s) => Flags(s + {f})
  }

  function LeadFlag(c: char): ActionType {
    if c == '|' then Flags({PipeIn}) else if c == '>' then Flags({UserIn}) else if c == '*' then Flags({UserHiddenIn})
      else Flags({})
  }

  /** What the directive `%c` does to the type. */
  function Directive(t: ActionType, c: char, next: char): ActionType {
    match c
    case 'a' => if next == 's' then Flags({FilteringAction, Single, Multiple}) else t
    case 'f' => With(t, Single)
    case 'F' => With(t, Multiple)
    case 'p' => With(t, Single)
    case 's' => With(t, SelectionStr)
    case 'u' => With(t, UserStr)
    case 'h' => With(t, UserHiddenStr)
    case '%' => t
    case _ => ActionError
  }

  function Trailing(t: ActionType, c: char): ActionType {
    match c
    case '|' => With(t, PipeOut)
    case '>' => With(t, Insert)
    case '&' => With(t, Async)
    case _ => t
  }

  /** The scan from `p` on.  Once `%a` has been met everything is passed over: the test for the
      closing brace is only made where it has nothing to end. */
  function TypeFrom(s: string, p: nat, filtering: bool, t: ActionType): ActionType
    requires p <= |s|
    decreases |s| - p
  {
    if p == |s| || t.ActionError? then t
    else if filtering then TypeFrom(s, p + 1, true, t)
    else if s[p] == '%' && p + 1 < |s| then
      TypeFrom(s, p + 2, s[p + 1] == 'a', Directive(t, s[p + 1], CharAt(s, p + 2)))
    else TypeFrom(s, p + 1, false, if p + 1 == |s| then Trailing(t, s[p]) else t)
  }

  function Start(s: string): nat {
    if s != [] && LeadingOperator(s[0]) then 1 else 0
  }

  function TypeOf(s: string): ActionType {
    if s == [] || Start(s) == |s| then ActionError
    else TypeFrom(s, Start(s), false, LeadFlag(s[0]))
  }

  /** `action_get_type`. */
  method ActionGetType(s: string) returns (t: ActionType)
    ensures t == TypeOf(s)
  {
    if s == [] {
      return ActionError;
    }
    var p := 0;
    t := Flags({});
    if s[p] == '|' {
      t := With(t, PipeIn);
      p := p + 1;
    } else if s[p] == '>' {
      t := With(t, UserIn);
      p := p + 1;
    } else if s[p] == '*' {
      t := With(t, UserHiddenIn);
      p := p + 1;
    }
    if p == |s| {
      return ActionError;
    }
    assert t == LeadFlag(s[0]);
    var inFilteringAction := false;
    while p < |s| && !t.ActionError?
      invariant p <= |s| && TypeFrom(s, p, inFilteringAction, t) == TypeOf(s)
    {
      if !inFilteringAction {
        if s[p] == '%' && p + 1 < |s| {
          t := Directive(t, s[p + 1], CharAt(s, p + 2));
          inFilteringAction := s[p + 1] == 'a';
          p := p + 1;
        } else if p + 1 == |s| {
          t := Trailing(t, s[p]);
        }
      }
      p := p + 1;
    }
  }

  // ---------- the command ----------

  /** What can be put in: the user's two texts, the selection, the files of the message and of the
      listed messages and the message part.  A file that cannot be had is None, and so is a text
      that was not asked for. */
  datatype Inputs = Inputs(user: Option<string>, hidden: Option<string>, selection: Option<string>,
                           message: Option<string>, messages: seq<Option<string>>, part: Option<string>)

  function Text(t: Option<string>): string {
    if t.Some? then t.value else ""
  }

  /** The files of `%F`, with blanks between them; one that cannot be had spoils all. */
  function Files(ms: seq<Option<string>>): Option<string> {
    if ms == [] then Some("")
    else if ms[0].None? then None
    else if |ms| == 1 then ms[0]
    else
      var rest := Files(ms[1..]);
      if rest.None? then None else Some(ms[0].value + " " + rest.value)
  }

  /** What `%c` stands for. */
  function Expansion(c: char, i: Inputs): Option<string> {
    match c
    case 'f' => i.message
    case 'F' => Files(i.messages)
    case 'p' => i.part
    case 's' => Some(Text(i.selection))
    case 'u' => Some(Text(i.user))
    case 'h' => Some(Text(i.hidden))
    case '%' => Some("%")
    case _ => Some(['%', c])
  }

  /** At `p` the string is down to an operator at its end. */
  predicate AtEnd(s: string, p: nat) {
    p >= |s| || (p + 1 == |s| && TrailingOperator(s[p]))
  }

  /** The command from `p` on. */
  function CommandFrom(s: string, p: nat, i: Inputs): Option<string>
    decreases |s| - p
  {
    if AtEnd(s, p) then Some("")
    else
      var directive := s[p] == '%' && p + 1 < |s|;
      var here := if directive then Expansion(s[p + 1], i) else Some([s[p]]);
      var rest := CommandFrom(s, if directive then p + 2 else p + 1, i);
      if here.None? || rest.None? then None else Some(here.value + rest.value)
  }

  /** An empty command is none. */
  function CommandOf(s: string, i: Inputs): Option<string> {
    var c := CommandFrom(s, Start(s), i);
    if c == Some("") then None else c
  }

  /** The loop for `%F`. */
  method AppendFiles(cmd: string, ms: seq<Option<string>>) returns (r: Option<string>)
    ensures r == if Files(ms).None? then None else Some(cmd + Files(ms).value)
  {
    var buf := cmd;
    var cur := ms;
    assert cmd + [] == cmd;
    while cur != []
      invariant Files(ms).None? <==> Files(cur).None?
      invariant Files(ms).Some? ==> buf + Files(cur).value == cmd + Files(ms).value
      decreases |cur|
    {
      if cur[0].None? {
        return None;
      }
      ghost var b := buf;
      buf := buf + cur[0].value;
      if |cur| > 1 {
        buf := buf + [' '];
        assert Files(cur[1..]).Some? ==>
          b + (cur[0].value + " " + Files(cur[1..]).value) == buf + Files(cur[1..]).value;
      } else {
        assert cur[1..] == [] && buf + [] == buf;
      }
      cur := cur[1..];
    }
    assert buf + [] == buf;
    r := Some(buf);
  }

  /** The switch over the directives. */
  method AppendExpansion(cmd: string, c: char, i: Inputs) returns (r: Option<string>)
    ensures r == if Expansion(c, i).None? then None else Some(cmd + Expansion(c, i).value)
  {
    match c {
      case 'f' => r := if i.message.None? then None else Some(cmd + i.message.value);
      case 'F' => r := AppendFiles(cmd, i.messages);
      case 'p' => r := if i.part.None? then None else Some(cmd + i.part.value);
      case 's' => r := Some(cmd + Text(i.selection));
      case 'u' => r := Some(cmd + Text(i.user));
      case 'h' => r := Some(cmd + Text(i.hidden));
      case '%' => r := Some(cmd + "%");
      case other => r := Some(cmd + ['%', other]);
    }
  }

  lemma CommandStep(s: string, p: nat, cmd: string, i: Inputs)
    requires !AtEnd(s, p)
    ensures var directive := s[p] == '%' && p + 1 < |s|;
      var here := if directive then Expansion(s[p + 1], i) else Some([s[p]]);
      var rest := CommandFrom(s, if directive then p + 2 else p + 1, i);
      && (CommandFrom(s, p, i).None? <==> here.None? || rest.None?)
      && (here.Some? && rest.Some? ==> cmd + CommandFrom(s, p, i).value == (cmd + here.value) + rest.value)
  {
  }

  /** `parse_action_cmd`. */
  method ParseActionCmd(s: string, i: Inputs) returns (r: Option<string>)
    ensures r == CommandOf(s, i)
  {
    hide CommandFrom, Expansion;
    var p := Start(s);
    var cmd: string := "";
    ghost var all := CommandFrom(s, p, i);
    assert all.Some? ==> "" + all.value == all.value;
    while !AtEnd(s, p)
      invariant all.None? <==> CommandFrom(s, p, i).None?
      invariant all.Some? ==> cmd + CommandFrom(s, p, i).value == all.value
      decreases |s| - p
    {
      CommandStep(s, p, cmd, i);
      if s[p] == '%' && p + 1 < |s| {
        var more := AppendExpansion(cmd, s[p + 1], i);
        if more.None? {
          return None;
        }
        cmd := more.value;
        p := p + 1;
      } else {
        cmd := cmd + [s[p]];
      }
      p := p + 1;
    }
    NothingLeft(s, p, i);
    assert cmd + "" == cmd;
    if cmd == "" {
      return None;
    }
    r := Some(cmd);
  }

  lemma NothingLeft(s: string, p: nat, i: Inputs)
    requires AtEnd(s, p)
    ensures CommandFrom(s, p, i) == Some("")
  {
  }

  // ---------- the scanners agree ----------

  /** The directives that the scan from `p` on comes by. */
  function DirectivesFrom(s: string, p: nat): set<char>
    decreases |s| - p
  {
    if p >= |s| then {}
    else if s[p] == '%' && p + 1 < |s| then {s[p + 1]} + DirectivesFrom(s, p + 2)
    else DirectivesFrom(s, p + 1)
  }

  function Directives(s: string): set<char> {
    DirectivesFrom(s, Start(s))
  }

  /** The flag that says that an input will be needed. */
  function FlagOf(c: char): Option<Flag> {
    match c
    case 'f' => Some(Single)
    case 'F' => Some(Multiple)
    case 'p' => Some(Single)
    case 's' => Some(SelectionStr)
    case 'u' => Some(UserStr)
    case 'h' => Some(UserHiddenStr)
    case _ => None
  }

  /** A bit once set stays set, unless a filtering directive replaces them all. */
  lemma {:induction false} FlagsGrow(s: string, p: nat, t: ActionType)
    requires p <= |s| && 'a' !in DirectivesFrom(s, p) && TypeFrom(s, p, false, t) != ActionError
    ensures t.Flags? && t.bits <= TypeFrom(s, p, false, t).bits
    ensures forall c | c in DirectivesFrom(s, p) :: FlagOf(c).Some? ==> FlagOf(c).value in TypeFrom(s, p, false, t).bits
    ensures forall c | c in DirectivesFrom(s, p) :: FlagOf(c).Some? || c == '%'
    decreases |s| - p
  {
    if p < |s| {
      if s[p] == '%' && p + 1 < |s| {
        FlagsGrow(s, p + 2, Directive(t, s[p + 1], CharAt(s, p + 2)));
      } else {
        FlagsGrow(s, p + 1, if p + 1 == |s| then Trailing(t, s[p]) else t);
      }
    }
  }

  /** Two inputs that agree on everything the flags ask for. */
  predicate SameWhere(f: set<Flag>, i: Inputs, j: Inputs) {
    && (Single in f ==> i.message == j.message && i.part == j.part)
    && (Multiple in f ==> i.messages == j.messages)
    && (SelectionStr in f ==> i.selection == j.selection)
    && (UserStr in f ==> i.user == j.user)
    && (UserHiddenStr in f ==> i.hidden == j.hidden)
  }

  lemma {:induction false} SameCommandFrom(s: string, p: nat, f: set<Flag>, i: Inputs, j: Inputs)
    requires SameWhere(f, i, j) && forall c | c in DirectivesFrom(s, p) :: FlagOf(c).Some? ==> FlagOf(c).value in f
    ensures CommandFrom(s, p, i) == CommandFrom(s, p, j)
    decreases |s| - p
  {
    if !AtEnd(s, p) {
      if s[p] == '%' && p + 1 < |s| {
        assert s[p + 1] in DirectivesFrom(s, p);
        SameCommandFrom(s, p + 2, f, i, j);
      } else {
        SameCommandFrom(s, p + 1, f, i, j);
      }
    }
  }

  /** The command depends on no input that was not asked for: where the type of the action has no
      flag for it, another value gives the same command. */
  lemma ScannersAgree(s: string, i: Inputs, j: Inputs)
    requires TypeOf(s).Flags? && 'a' !in Directives(s) && SameWhere(TypeOf(s).bits, i, j)
    ensures CommandOf(s, i) == CommandOf(s, j)
  {
    FlagsGrow(s, Start(s), LeadFlag(s[0]));
    SameCommandFrom(s, Start(s), TypeOf(s).bits, i, j);
  }

  /** Of an action in order no flag is set in vain either: the flags for inputs are exactly those of
      the directives. */
  lemma {:induction false} FlagsExact(s: string, p: nat, t: ActionType, f: Flag)
    requires p <= |s| && 'a' !in DirectivesFrom(s, p) && TypeFrom(s, p, false, t) != ActionError
    requires f in {Single, Multiple, SelectionStr, UserStr, UserHiddenStr}
    ensures t.Flags? && (f in TypeFrom(s, p, false, t).bits <==> f in t.bits || exists c :: c in DirectivesFrom(s, p)
                                                                                            && FlagOf(c) == Some(f))
    decreases |s| - p
  {
    if p < |s| {
      if s[p] == '%' && p + 1 < |s| {
        var c, d := s[p + 1], DirectivesFrom(s, p + 2);
        FlagsExact(s, p + 2, Directive(t, c, CharAt(s, p + 2)), f);
        assert c in DirectivesFrom(s, p) && DirectivesFrom(s, p) == {c} + d;
        if x :| x in d && FlagOf(x) == Some(f) {
          assert x in DirectivesFrom(s, p);
        }
      } else {
        FlagsExact(s, p + 1, if p + 1 == |s| then Trailing(t, s[p]) else t, f);
      }
    }
  }

  // ---------- doubling ----------

  /** Every `%` written twice. */
  function Doubled(s: string): string {
    if s == "" then "" else (if s[0] == '%' then "%%" else [s[0]]) + Doubled(s[1..])
  }

  /** A plain character, or `%` twice, gives itself. */
  lemma OneRead(t: string, p: nat, c: char, i: Inputs)
    requires !AtEnd(t, p) && t[p] == c && (c == '%' ==> p + 1 < |t| && t[p + 1] == '%')
    ensures var rest := CommandFrom(t, if c == '%' then p + 2 else p + 1, i);
      CommandFrom(t, p, i) == if rest.None? then None else Some([c] + rest.value)
  {
  }

  lemma {:induction false} DoubledLength(s: string)
    ensures |Doubled(s)| >= |s|
    ensures s != "" ==> Doubled(s)[0] == s[0]
  {
    if s != "" {
      DoubledLength(s[1..]);
    }
  }

  /** `pre` and the first character of `s`, doubled. */
  function Next(pre: string, s: string): string
    requires s != ""
  {
    pre + if s[0] == '%' then "%%" else [s[0]]
  }

  /** One character read of a doubled string. */
  lemma DoubledStep(pre: string, s: string, i: Inputs)
    requires s != "" && (|s| == 1 ==> !TrailingOperator(s[0]))
    ensures pre + Doubled(s) == Next(pre, s) + Doubled(s[1..])
    ensures var t := pre + Doubled(s); var rest := CommandFrom(t, |Next(pre, s)|, i);
      CommandFrom(t, |pre|, i) == if rest.None? then None else Some([s[0]] + rest.value)
  {
    hide CommandFrom;
    var t := pre + Doubled(s);
    assert t == Next(pre, s) + Doubled(s[1..]);
    DoubledLength(s[1..]);
    assert t[|pre|] == s[0] && (s[0] == '%' ==> t[|pre| + 1] == '%');
    OneRead(t, |pre|, s[0], i);
  }

  /** A doubled string whose end no operator spoils comes back. */
  lemma {:induction false} DoubledBack(pre: string, s: string, i: Inputs)
    requires s != "" ==> !TrailingOperator(s[|s| - 1])
    ensures CommandFrom(pre + Doubled(s), |pre|, i) == Some(s)
    decreases |s|
  {
    hide CommandFrom, Next;
    if s == "" {
      NothingLeft(pre + Doubled(s), |pre|, i);
    } else {
      DoubledStep(pre, s, i);
      DoubledBack(Next(pre, s), s[1..], i);
      assert [s[0]] + s[1..] == s;
    }
  }

  /** One that ends in an operator comes back without it. */
  lemma {:induction false} DoubledCut(pre: string, s: string, i: Inputs)
    requires s != "" && TrailingOperator(s[|s| - 1])
    ensures CommandFrom(pre + Doubled(s), |pre|, i) == Some(s[..|s| - 1])
    decreases |s|
  {
    hide CommandFrom, Next;
    if |s| == 1 {
      assert Doubled(s) == s;
      NothingLeft(pre + s, |pre|, i);
    } else {
      var r := s[1..];
      DoubledStep(pre, s, i);
      DoubledCut(Next(pre, s), r, i);
      assert [s[0]] + r[..|r| - 1] == s[..|s| - 1];
    }
  }

  /** Doubling every `%` of a command gives an action that expands to that very command, whatever
      the inputs, exactly if it is not empty and has no operator in front or at the end. */
  lemma {:induction false} DoublingExact(s: string, i: Inputs)
    ensures CommandOf(Doubled(s), i) == Some(s) <==> s != "" && !LeadingOperator(s[0]) && !TrailingOperator(s[|s| - 1])
  {
    if s != "" {
      DoubledLength(s);
      var d := Doubled(s);
      if LeadingOperator(s[0]) {
        assert d == [s[0]] + Doubled(s[1..]);
        var r := s[1..];
        if r != "" && TrailingOperator(r[|r| - 1]) {
          DoubledCut([s[0]], r, i);
        } else {
          DoubledBack([s[0]], r, i);
        }
      } else if TrailingOperator(s[|s| - 1]) {
        DoubledCut("", s, i);
        assert "" + d == d;
      } else {
        DoubledBack("", s, i);
        assert "" + d == d;
      }
    }
  }
}
