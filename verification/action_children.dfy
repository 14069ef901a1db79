/** The child processes of an action: forking, what they send, how they end, and when the record of
    them is freed (src/action.c:850-1064, 1086-1202, 1441-1500, 1504-1638). */
module ActionChildren {
  import opened Items
  import opened ActionScan

  datatype End = In | Out | Err

  /** A pipe to a child.  The system never hands out a descriptor twice while it is open, so a pipe
      is named by its child and its end. */
  datatype Fd = Fd(child: nat, end: End)

  type Tag = nat

  /** What the main loop watches: a child's exit, a pipe that may have something to read, and the
      first child's input that may take something. */
  datatype Source = StatusOf(child: nat) | OutputOf(fd: Fd) | InputOf

  /** `ChildInfo`: `running` says that the pid is not 0; None stands for -1. */
  datatype ChildInfo = ChildInfo(running: bool, chldIn: Option<Fd>, chldOut: Option<Fd>, chldErr: Option<Fd>,
                                 tagIn: Option<Tag>, tagOut: Option<Tag>, tagErr: Option<Tag>, newOut: bool)

  datatype Dialog = NoDialog | Shown | Gone

  /** `Children` and what the system knows of it: the sources that are enabled, how often each
      descriptor has been closed, how often the record has been freed, and how many children it has
      had in all. */
  datatype Action = Action(list: seq<ChildInfo>, nb: int, initialNb: int, openIn: bool, output: bool,
    inputSensitive: bool,
                           dialog: Dialog, sources: map<Tag, Source>, nextTag: Tag, closes: map<Fd, nat>, freed: nat,
                             forked: nat)

  // ---------- small steps ----------

  function Count(m: map<Fd, nat>, fd: Fd): nat {
    if fd in m then m[fd] else 0
  }

  function Close(a: Action, fd: Option<Fd>): Action {
    if fd.Some? then a.(closes := a.closes[fd.value := Count(a.closes, fd.value) + 1]) else a
  }

  /** `g_source_remove`. */
  function Remove(a: Action, tag: Option<Tag>): Action {
    if tag.Some? then a.(sources := a.sources - {tag.value}) else a
  }

  function Watch(a: Action, s: Source): Action {
    a.(sources := a.sources[a.nextTag := s], nextTag := a.nextTag + 1)
  }

  function SetChild(a: Action, i: nat, c: ChildInfo): Action
    requires i < |a.list|
  {
    a.(list := a.list[i := c])
  }

  /** `free_children`. */
  function Free(a: Action): Action {
    a.(list := [], freed := a.freed + 1)
  }

  /** `hide_io_dialog_cb`: as long as a child runs, nothing happens. */
  function Hide(a: Action): Action {
    if a.nb != 0 then a else Free(a.(dialog := Gone))
  }

  predicate SomeNew(list: seq<ChildInfo>) {
    exists i :: 0 <= i < |list| && list[i].newOut
  }

  /** `update_io_dialog`, as far as it concerns the record. */
  function Update(a: Action): Action {
    var b := if a.nb == 0 then a.(inputSensitive := false) else a;
    if b.output then b.(list := seq(|b.list|, i requires 0 <= i < |b.list| => b.list[i].(newOut := false))) else b
  }

  /** `wait_for_children`.  Destroying the dialog calls `hide_io_dialog_cb` by its signal. */
  function Wait(a: Action): Action {
    var b := a.(output := a.output || SomeNew(a.list));
    var c := if SomeNew(a.list) || (b.dialog == Shown && b.initialNb != b.nb) then Update(b) else b;
    if c.nb != 0 then c
    else if c.dialog == NoDialog then Free(c)
    else if !c.output then Hide(c)
    else c
  }

  // ---------- forking ----------

  /** The flags of an action that matter here. */
  datatype Kind = Kind(pipeIn: bool, userIn: bool, isAsync: bool)

  function KindOf(bits: set<Flag>): Kind {
    Kind(PipeIn in bits, UserIn in bits || UserHiddenIn in bits, Async in bits)
  }

  /** An action has one operator in front at most, so its input comes from one side only. */
  lemma {:induction false} OneInput(s: string, p: nat, filtering: bool, t: ActionType)
    requires p <= |s| && (t.Flags? ==> !(PipeIn in t.bits && (UserIn in t.bits || UserHiddenIn in t.bits)))
    ensures var r := TypeFrom(s, p, filtering, t); r.Flags? ==>
      !(PipeIn in r.bits && (UserIn in r.bits || UserHiddenIn in r.bits))
    decreases |s| - p
  {
    if p < |s| && !t.ActionError? {
      if filtering {
        OneInput(s, p + 1, true, t);
      } else if s[p] == '%' && p + 1 < |s| {
        OneInput(s, p + 2, s[p + 1] == 'a', Directive(t, s[p + 1], CharAt(s, p + 2)));
      } else {
        OneInput(s, p + 1, false, if p + 1 == |s| then Trailing(t, s[p]) else t);
      }
    }
  }

  lemma InputsExclude(s: string)
    requires TypeOf(s).Flags?
    ensures var k := KindOf(TypeOf(s).bits); !(k.pipeIn && k.userIn)
  {
    OneInput(s, Start(s), false, LeadFlag(s[0]));
  }

  /** `fork_child` of a child that is followed: what is not written to is closed at once, and so is
      what has been written to. */
  function Fork(a: Action, k: Kind, hasText: bool): Action {
    var i := a.forked;
    var b := if k.pipeIn || k.userIn then a else Close(a, Some(Fd(i, In)));
    var c := Watch(Watch(b, OutputOf(Fd(i, Out))), OutputOf(Fd(i, Err)));
    var written := k.pipeIn && hasText;
    var d := if written && !k.userIn then Close(c, Some(Fd(i, In))) else c;
    var child := ChildInfo(true, if (k.pipeIn || k.userIn)
      && !written then Some(Fd(i, In)) else None, Some(Fd(i, Out)), Some(Fd(i, Err)),
                           None, Some(a.nextTag), Some(a.nextTag + 1), false);
    d.(list := d.list + [child], nb := d.nb + 1, forked := i + 1)
  }

  function ForkAll(a: Action, k: Kind, hasText: bool, forks: seq<bool>): Action
    decreases |forks|
  {
    if forks == [] then a
    else ForkAll(if forks[0] then Fork(a, k, hasText) else a, k, hasText, forks[1..])
  }

  function WatchAll(a: Action, i: nat): Action
    decreases |a.list| - i
  {
    if i >= |a.list| then a else WatchAll(Watch(a, StatusOf(i)), i + 1)
  }

  /** The second half of `execute_actions`.  `forks` says of each command whether it could be started
      and followed; there is one for each message if the action works on single messages, else one. */
  function Launch(k: Kind, hasText: bool, single: bool, forks: seq<bool>): Action {
    var openIn := k.userIn && (!single || |forks| == 1);
    var a := Action([], 0, 0, openIn, false, openIn, NoDialog, map[], 1, map[], 0, 0);
    var b := ForkAll(a, k, hasText, if k.isAsync then [] else forks);
    if b.list == [] then Free(b)
    else WatchAll(b.(initialNb := b.nb), 0).(dialog := Shown)
  }

  // ---------- the callbacks ----------

  /** `childinfo_close_pipes`: the fields are left as they are. */
  function ClosePipes(a: Action, c: ChildInfo): Action {
    Close(Close(Close(Remove(Remove(Remove(a, c.tagIn), c.tagOut), c.tagErr), c.chldIn), c.chldOut), c.chldErr)
  }

  /** `catch_status`; the watch for an exit goes by itself. */
  function CatchStatus(a: Action, i: nat, tag: Tag): Action
    requires i < |a.list|
  {
    var b := ClosePipes(Remove(a, Some(tag)), a.list[i]);
    Wait(b.(list := a.list[i := a.list[i].(running := false)], nb := b.nb - 1))
  }

  /** What a read delivers: something, the end, or an error. */
  datatype Result = Data | Eof | Failure

  /** `catch_output`.  What a piping action reads goes to the message; `toMessage` says so. */
  function CatchOutput(a: Action, i: nat, source: Fd, r: Result, toMessage: bool): Action
    requires i < |a.list|
  {
    var c := a.list[i];
    var isOut := c.chldOut == Some(source);
    var b :=
      if r == Data && !(toMessage && isOut) then SetChild(a, i, c.(newOut := true))
      else if r == Eof && isOut then SetChild(Close(Remove(a, c.tagOut), c.chldOut), i,
        c.(tagOut := None, chldOut := None))
      else if r == Eof then SetChild(Close(Remove(a, c.tagErr), c.chldErr), i, c.(tagErr := None, chldErr := None))
      else a;
    Wait(b)
  }

  /** `send_input`: asks to be called when the first child can take input. */
  function SendInput(a: Action): Action
    requires a.list != []
  {
    SetChild(Watch(a, InputOf), 0, a.list[0].(tagIn := Some(a.nextTag)))
  }

  /** `catch_input`: the text is written and the pipe closed. */
  function CatchInput(a: Action): Action
    requires a.list != []
  {
    var c := a.list[0];
    SetChild(Close(Remove(a.(inputSensitive := false), c.tagIn), c.chldIn), 0, c.(tagIn := None, chldIn := None))
  }

  // ---------- events ----------

  datatype Event =
    | Exit(child: nat, tag: Tag)
    | Output(child: nat, tag: Tag, source: Fd, result: Result, toMessage: bool)
    | Send
    | Input(tag: Tag)
    | CloseDialog

  /** What can happen: a source can only fire while it is enabled, and a button only be pressed while
      it is there and sensitive. */
  predicate Happens(a: Action, e: Event) {
    match e
    case Exit(i, tag) => tag in a.sources && a.sources[tag] == StatusOf(i)
    case Output(i, tag, fd, _, _) => tag in a.sources && a.sources[tag] == OutputOf(fd) && fd.child == i
    case Send => a.dialog == Shown && a.openIn && a.inputSensitive
    case Input(tag) => tag in a.sources && a.sources[tag] == InputOf
    case CloseDialog => a.dialog == Shown
  }

  /** The record that a callback works on. */
  predicate Reaches(a: Action, e: Event) {
    match e
    case Exit(i, _) => i < |a.list|
    case Output(i, _, _, _, _) => i < |a.list|
    case Send => a.list != []
    case Input(_) => a.list != []
    case CloseDialog => true
  }

  function Step(a: Action, e: Event): Action
    requires Reaches(a, e)
  {
    match e
    case Exit(i, tag) => CatchStatus(a, i, tag)
    case Output(i, _, fd, r, toMessage) => CatchOutput(a, i, fd, r, toMessage)
    case Send => SendInput(a)
    case Input(_) => CatchInput(a)
    case CloseDialog => Hide(a)
  }

  // ---------- the invariant ----------

  function Running(list: seq<ChildInfo>): nat {
    if list == [] then 0 else Running(list[..|list| - 1]) + if list[|list| - 1].running then 1 else 0
  }

  /** An end of a running child's pipe is held and open, or given up and closed once. */
  predicate Held(a: Action, fd: Fd, field: Option<Fd>) {
    if field.Some? then field.value == fd && Count(a.closes, fd) == 0 else Count(a.closes, fd) == 1
  }

  /** A pipe is watched exactly as long as it is held. */
  predicate Watched(a: Action, fd: Fd, field: Option<Fd>, tag: Option<Tag>) {
    Held(a, fd, field) && (if field.Some? then tag.Some? && tag.value in a.sources
      && a.sources[tag.value] == OutputOf(fd) else tag == None)
  }

  ghost predicate HasStatus(a: Action, i: nat) {
    exists t {:trigger t in a.sources} :: t in a.sources && a.sources[t] == StatusOf(i)
  }

  ghost predicate ChildOk(a: Action, i: nat) {
    && i < |a.list|
    && var c := a.list[i];
    if c.running then
      && Held(a, Fd(i, In), c.chldIn) && Watched(a, Fd(i, Out), c.chldOut, c.tagOut)
        && Watched(a, Fd(i, Err), c.chldErr, c.tagErr)
      && (c.tagIn.Some? ==> i == 0 && c.chldIn.Some? && c.tagIn.value in a.sources
                            && a.sources[c.tagIn.value] == InputOf)
      && HasStatus(a, i)
    else Count(a.closes, Fd(i, In)) == 1 && Count(a.closes, Fd(i, Out)) == 1 && Count(a.closes, Fd(i, Err)) == 1
  }

  /** Every enabled source belongs to a child that runs, and a field of the record refers to it. */
  ghost predicate SourceOk(a: Action, t: Tag) {
    && t in a.sources && t < a.nextTag
    && match a.sources[t]
       case StatusOf(i) => i < |a.list| && a.list[i].running
         && forall u :: u in a.sources && a.sources[u] == StatusOf(i) ==> u == t
       case OutputOf(fd) => fd.child < |a.list| && a.list[fd.child].running &&
         (match fd.end case In => false case Out => a.list[fd.child].tagOut ==
           Some(t) case Err => a.list[fd.child].tagErr == Some(t))
       case InputOf => a.list != [] && a.list[0].running && a.list[0].tagIn == Some(t)
  }

  /** While the record lives, up to what `wait_for_children` has still to see to. */
  ghost predicate Waiting(a: Action) {
    && a.freed == 0 && a.dialog == Shown && |a.list| == a.forked && a.initialNb == a.forked && a.forked > 0
    && a.nb == Running(a.list)
    && (a.openIn ==> a.forked == 1)
    && (a.inputSensitive ==> a.openIn && (a.list[0].running ==> a.list[0].chldIn.Some?))
    && (forall i: nat {:trigger ChildOk(a, i)} | i < |a.list| :: ChildOk(a, i))
    && (forall t {:trigger SourceOk(a, t)} | t in a.sources :: SourceOk(a, t))
    && (forall fd: Fd | fd.child >= a.forked :: Count(a.closes, fd) == 0)
  }

  /** While the record lives: then a child still runs, or there is output to be looked at. */
  ghost predicate Live(a: Action) {
    Waiting(a) && (a.inputSensitive ==> a.list[0].running) && (a.nb > 0 || a.output)
  }

  /** When it has been freed: no child runs, nothing is watched any more, and every pipe that was ever
      opened has been closed once. */
  ghost predicate Finished(a: Action) {
    && a.freed == 1 && a.nb == 0 && a.list == [] && a.dialog != Shown && a.sources == map[]
    && forall fd: Fd :: Count(a.closes, fd) == if fd.child < a.forked then 1 else 0
  }

  ghost predicate Good(a: Action) {
    Live(a) || Finished(a)
  }

  // ---------- waiting ----------

  lemma {:induction false} RunningSet(list: seq<ChildInfo>, i: nat, c: ChildInfo)
    requires i < |list|
    ensures Running(list[i := c]) == Running(list) - (if list[i].running then 1 else 0) + (if c.running then 1 else 0)
    decreases |list|
  {
    var n := |list| - 1;
    if i < n {
      assert list[i := c][..n] == list[..n][i := c];
      RunningSet(list[..n], i, c);
    } else {
      assert list[i := c][..n] == list[..n];
    }
  }

  lemma {:induction false} RunningSame(a: seq<ChildInfo>, b: seq<ChildInfo>)
    requires |a| == |b| && forall i | 0 <= i < |a| :: a[i].running == b[i].running
    ensures Running(a) == Running(b)
    decreases |a|
  {
    if a != [] {
      RunningSame(a[..|a| - 1], b[..|b| - 1]);
    }
  }

  lemma {:induction false} RunningZero(list: seq<ChildInfo>, i: nat)
    requires Running(list) == 0 && i < |list|
    ensures !list[i].running
    decreases |list|
  {
    if i < |list| - 1 {
      RunningZero(list[..|list| - 1], i);
    }
  }

  lemma {:induction false} RunningOne(list: seq<ChildInfo>, i: nat)
    requires i < |list| && list[i].running
    ensures Running(list) > 0
    decreases |list|
  {
    if i < |list| - 1 {
      RunningOne(list[..|list| - 1], i);
    }
  }

  /** Whether there is new output matters to nothing else. */
  lemma WaitingSame(a: Action, b: Action)
    requires Waiting(a) && |b.list| == |a.list| && (b.inputSensitive ==> a.inputSensitive)
    requires b == a.(list := b.list, inputSensitive := b.inputSensitive, output := b.output)
    requires forall i | 0 <= i < |a.list| :: b.list[i] == a.list[i].(newOut := b.list[i].newOut)
    ensures Waiting(b)
  {
    RunningSame(a.list, b.list);
    forall i: nat | i < |b.list|
      ensures ChildOk(b, i)
    {
      assert ChildOk(a, i);
      if HasStatus(a, i) {
        var t :| t in a.sources && a.sources[t] == StatusOf(i);
        assert t in b.sources && b.sources[t] == StatusOf(i);
      }
    }
    forall t | t in b.sources
      ensures SourceOk(b, t)
    {
      assert SourceOk(a, t);
    }
  }

  lemma SourceRuns(a: Action, t: Tag)
    requires Waiting(a) && t in a.sources
    ensures a.nb > 0
  {
    assert SourceOk(a, t);
    match a.sources[t]
    case StatusOf(i) => RunningOne(a.list, i);
    case OutputOf(fd) => RunningOne(a.list, fd.child);
    case InputOf => RunningOne(a.list, 0);
  }

  /** When no child runs any more there is nothing left to watch. */
  lemma AllEnded(a: Action)
    requires Waiting(a) && a.nb == 0
    ensures a.sources == map[] && forall fd: Fd :: Count(a.closes, fd) == if fd.child < a.forked then 1 else 0
  {
    forall i: nat | i < |a.list|
      ensures !a.list[i].running
    {
      RunningZero(a.list, i);
    }
    forall t
      ensures t !in a.sources
    {
      if t in a.sources {
        SourceRuns(a, t);
      }
    }
    forall fd: Fd | fd.child < a.forked
      ensures Count(a.closes, fd) == 1
    {
      assert ChildOk(a, fd.child);
      match fd.end
      case In => assert fd == Fd(fd.child, In);
      case Out => assert fd == Fd(fd.child, Out);
      case Err => assert fd == Fd(fd.child, Err);
    }
  }

  lemma HideGood(a: Action)
    requires Live(a)
    ensures Good(Hide(a))
  {
    if a.nb == 0 {
      AllEnded(a);
    }
  }

  /** After every callback `wait_for_children` leaves the record in order, or frees it. */
  /** Once all children have ended the record may be freed. */
  lemma EndedGood(a: Action)
    requires Waiting(a) && a.nb == 0 && !a.inputSensitive
    ensures Finished(Hide(a)) && (a.output ==> Live(a))
  {
    AllEnded(a);
  }

  lemma RunningGood(a: Action)
    requires Waiting(a) && a.nb > 0
    ensures Live(a)
  {
    if a.inputSensitive {
      assert |a.list| == 1 && a.list[..|a.list| - 1] == [];
      assert Running(a.list) > 0;
    }
  }

  lemma WaitGood(a: Action)
    requires Waiting(a)
    ensures Good(Wait(a))
  {
    hide Live, Finished;
    var b := a.(output := a.output || SomeNew(a.list));
    var c := if SomeNew(a.list) || (b.dialog == Shown && b.initialNb != b.nb) then Update(b) else b;
    WaitingSame(a, c);
    UpdatedInput(a, b, c);
    hide Waiting;
    if c.nb == 0 {
      EndedGood(c);
    } else {
      RunningGood(c);
    }
  }

  /** The dialog takes no input once no child runs. */
  lemma UpdatedInput(a: Action, b: Action, c: Action)
    requires Waiting(a) && b == a.(output := a.output || SomeNew(a.list))
    requires c == if SomeNew(a.list) || (b.dialog == Shown && b.initialNb != b.nb) then Update(b) else b
    ensures c.nb >= 0 && c.dialog == Shown && (c.nb == 0 ==> !c.inputSensitive)
  {
  }

  // ---------- the callbacks keep it ----------

  /** What concerns another child is the same before and after. */
  lemma OtherChild(a: Action, b: Action, i: nat, j: nat)
    requires i != j && ChildOk(a, j) && |b.list| == |a.list| && b.list[j] == a.list[j]
    requires Count(b.closes, Fd(j, In)) == Count(a.closes, Fd(j, In))
    requires Count(b.closes, Fd(j, Out)) == Count(a.closes, Fd(j, Out))
      && Count(b.closes, Fd(j, Err)) == Count(a.closes, Fd(j, Err))
    requires forall t | t in a.sources && (a.sources[t] == StatusOf(j) || a.sources[t] == OutputOf(Fd(j, Out))
      || a.sources[t] == OutputOf(Fd(j, Err))) ::
      t in b.sources && b.sources[t] == a.sources[t]
    requires j == 0 ==> forall t | t in a.sources && a.sources[t] == InputOf :: t in b.sources
                                                                                && b.sources[t] == a.sources[t]
    ensures ChildOk(b, j)
  {
    if a.list[j].running {
      var t :| t in a.sources && a.sources[t] == StatusOf(j);
      assert t in b.sources && b.sources[t] == StatusOf(j);
    }
  }

  /** Three descriptors closed one after the other. */
  function CloseThree(m: map<Fd, nat>, x: Option<Fd>, y: Option<Fd>, z: Option<Fd>): map<Fd, nat> {
    var m1 := if x.Some? then m[x.value := Count(m, x.value) + 1] else m;
    var m2 := if y.Some? then m1[y.value := Count(m1, y.value) + 1] else m1;
    if z.Some? then m2[z.value := Count(m2, z.value) + 1] else m2
  }

  lemma CloseThreeAt(m: map<Fd, nat>, i: nat, x: Option<Fd>, y: Option<Fd>, z: Option<Fd>, fd: Fd)
    requires x.Some? ==> x.value == Fd(i, In)
    requires y.Some? ==> y.value == Fd(i, Out)
    requires z.Some? ==> z.value == Fd(i, Err)
    requires Count(m, Fd(i, In)) == (if x.Some? then 0 else 1) && Count(m, Fd(i, Out)) == (if y.Some? then 0 else 1)
    requires Count(m, Fd(i, Err)) == (if z.Some? then 0 else 1)
    ensures Count(CloseThree(m, x, y, z), fd) == if fd.child == i then 1 else Count(m, fd)
  {
    match fd.end
    case In => assert fd == Fd(fd.child, In);
    case Out => assert fd == Fd(fd.child, Out);
    case Err => assert fd == Fd(fd.child, Err);
  }

  function DropTag(m: map<Tag, Source>, t: Option<Tag>): map<Tag, Source> {
    if t.Some? then m - {t.value} else m
  }

  lemma RemoveIs(a: Action, t: Option<Tag>)
    ensures Remove(a, t) == a.(sources := DropTag(a.sources, t))
  {
  }

  lemma CloseThreeIs(a: Action, x: Option<Fd>, y: Option<Fd>, z: Option<Fd>)
    ensures Close(Close(Close(a, x), y), z) == a.(closes := CloseThree(a.closes, x, y, z))
  {
  }

  lemma ClosePipesIs(a: Action, c: ChildInfo)
    ensures ClosePipes(a, c) == a.(closes := CloseThree(a.closes, c.chldIn, c.chldOut, c.chldErr),
                                   sources := DropTag(DropTag(DropTag(a.sources, c.tagIn), c.tagOut), c.tagErr))
  {
    hide Remove, Close, DropTag, CloseThree;
    RemoveIs(a, c.tagIn);
    var a1 := Remove(a, c.tagIn);
    RemoveIs(a1, c.tagOut);
    var a2 := Remove(a1, c.tagOut);
    RemoveIs(a2, c.tagErr);
    CloseThreeIs(Remove(a2, c.tagErr), c.chldIn, c.chldOut, c.chldErr);
  }

  /** The record after an exit, before `wait_for_children`. */
  function Exited(a: Action, i: nat, tag: Tag): Action
    requires i < |a.list|
  {
    var c := a.list[i];
    a.(closes := CloseThree(a.closes, c.chldIn, c.chldOut, c.chldErr),
       sources := DropTag(DropTag(DropTag(a.sources - {tag}, c.tagIn), c.tagOut), c.tagErr),
       list := a.list[i := c.(running := false)], nb := a.nb - 1)
  }

  lemma ExitSources(a: Action, i: nat, tag: Tag, t: Tag)
    requires Live(a) && Happens(a, Exit(i, tag)) && i < |a.list| && ChildOk(a, i) && a.list[i].running
    ensures var d := Exited(a, i, tag);
      && (t in d.sources ==> t in a.sources && d.sources[t] == a.sources[t])
      && (t in a.sources && a.sources[t].StatusOf? && a.sources[t].child != i ==> t in d.sources)
      && (t in a.sources && a.sources[t].OutputOf? && a.sources[t].fd.child != i ==> t in d.sources)
      && (t in a.sources && a.sources[t].InputOf? && i != 0 ==> t in d.sources)
      && (t in d.sources ==> SourceOk(d, t))
  {
    if t in a.sources {
      assert SourceOk(a, t);
    }
  }

  lemma ExitGood(a: Action, i: nat, tag: Tag)
    requires Live(a) && Happens(a, Exit(i, tag))
    ensures i < |a.list| && Good(CatchStatus(a, i, tag))
  {
    assert SourceOk(a, tag) && ChildOk(a, i);
    var c := a.list[i];
    ClosePipesIs(Remove(a, Some(tag)), c);
    var d := Exited(a, i, tag);
    assert CatchStatus(a, i, tag) == Wait(d);
    RunningSet(a.list, i, c.(running := false));
    hide CatchStatus, Exited, CloseThree;
    forall t | t in d.sources
      ensures SourceOk(d, t)
    {
      ExitSources(a, i, tag, t);
    }
    forall j: nat | j < |d.list|
      ensures ChildOk(d, j)
    {
      ExitChild(a, i, tag, j);
    }
    forall fd: Fd | fd.child >= d.forked
      ensures Count(d.closes, fd) == 0
    {
      CloseThreeAt(a.closes, i, c.chldIn, c.chldOut, c.chldErr, fd);
    }
    WaitGood(d);
  }

  lemma ExitChild(a: Action, i: nat, tag: Tag, j: nat)
    requires Live(a) && Happens(a, Exit(i, tag)) && i < |a.list| && ChildOk(a, i) && a.list[i].running && j < |a.list|
    ensures ChildOk(Exited(a, i, tag), j)
  {
    var c := a.list[i];
    var d := Exited(a, i, tag);
    CloseThreeAt(a.closes, i, c.chldIn, c.chldOut, c.chldErr, Fd(j, In));
    CloseThreeAt(a.closes, i, c.chldIn, c.chldOut, c.chldErr, Fd(j, Out));
    CloseThreeAt(a.closes, i, c.chldIn, c.chldOut, c.chldErr, Fd(j, Err));
    if j != i {
      assert ChildOk(a, j);
      forall t | t in a.sources
        ensures a.sources[t] == StatusOf(j) || a.sources[t] == OutputOf(Fd(j, Out)) || a.sources[t] == OutputOf(Fd(j,
          Err)) ==> t in d.sources && d.sources[t] == a.sources[t]
        ensures j == 0 && a.sources[t] == InputOf ==> t in d.sources && d.sources[t] == a.sources[t]
      {
        ExitSources(a, i, tag, t);
      }
      hide Live, Exited, CloseThree;
      OtherChild(a, d, i, j);
    }
  }

  // ---------- reading ----------

  /** A child whose list entry changes in nothing that the invariant looks at. */
  lemma OutputGood(a: Action, i: nat, tag: Tag, fd: Fd, r: Result, toMessage: bool)
    requires Live(a) && Happens(a, Output(i, tag, fd, r, toMessage))
    ensures i < |a.list| && Good(CatchOutput(a, i, fd, r, toMessage))
  {
    assert SourceOk(a, tag) && ChildOk(a, i);
    var c := a.list[i];
    var isOut := c.chldOut == Some(fd);
    assert fd == Fd(i, fd.end) && (isOut <==> fd.end == Out);
    if r == Data && !(toMessage && isOut) {
      WaitingSame(a, SetChild(a, i, c.(newOut := true)));
      WaitGood(SetChild(a, i, c.(newOut := true)));
    } else if r == Eof {
      EofIs(a, i, tag, fd, toMessage);
      EofWaiting(a, i, tag, fd);
      WaitGood(EofRead(a, i, tag, fd));
    } else {
      WaitGood(a);
    }
  }

  /** The record after the end of a pipe, before `wait_for_children`. */
  function EofRead(a: Action, i: nat, tag: Tag, fd: Fd): Action
    requires i < |a.list|
  {
    var c := a.list[i];
    a.(closes := a.closes[fd := Count(a.closes, fd) + 1], sources := a.sources - {tag},
       list := a.list[i := if fd.end == Out then c.(tagOut := None, chldOut := None)
         else c.(tagErr := None, chldErr := None)])
  }

  lemma EofIs(a: Action, i: nat, tag: Tag, fd: Fd, toMessage: bool)
    requires i < |a.list| && ChildOk(a, i) && SourceOk(a, tag) && a.list[i].running && a.sources[tag] == OutputOf(fd)
      && fd.child == i
    ensures CatchOutput(a, i, fd, Eof, toMessage) == Wait(EofRead(a, i, tag, fd))
  {
    hide Wait, HasStatus;
    var c := a.list[i];
    assert fd == Fd(i, fd.end);
    if fd.end == Out {
      assert c.chldOut == Some(fd) && c.tagOut == Some(tag);
    } else {
      assert c.chldErr == Some(fd) && c.tagErr == Some(tag) && c.chldOut != Some(fd);
    }
    hide ChildOk, SourceOk;
  }

  lemma EofWaiting(a: Action, i: nat, tag: Tag, fd: Fd)
    requires Live(a) && tag in a.sources && a.sources[tag] == OutputOf(fd) && fd.child == i
    requires i < |a.list| && SourceOk(a, tag) && ChildOk(a, i) && a.list[i].running
    ensures Waiting(EofRead(a, i, tag, fd))
  {
    var d := EofRead(a, i, tag, fd);
    RunningSet(a.list, i, d.list[i]);
    forall t | t in d.sources
      ensures SourceOk(d, t)
    {
      assert SourceOk(a, t);
    }
    forall j: nat | j < |d.list|
      ensures ChildOk(d, j)
    {
      assert ChildOk(a, j);
      EofChild(a, i, tag, fd, j);
    }
    hide SourceOk, ChildOk;
  }

  lemma EofChild(a: Action, i: nat, tag: Tag, fd: Fd, j: nat)
    requires Live(a) && tag in a.sources && a.sources[tag] == OutputOf(fd) && fd.child == i && i < |a.list|
      && j < |a.list|
    requires ChildOk(a, i) && ChildOk(a, j) && SourceOk(a, tag)
    ensures ChildOk(EofRead(a, i, tag, fd), j)
  {
    var d := EofRead(a, i, tag, fd);
    assert fd == Fd(i, fd.end);
    hide Live;
    if j != i {
      OtherChild(a, d, i, j);
    } else {
      var t :| t in a.sources && a.sources[t] == StatusOf(i);
      assert t in d.sources && d.sources[t] == StatusOf(i);
    }
  }

  // ---------- sending ----------

  lemma SendGood(a: Action)
    requires Live(a) && Happens(a, Send)
    ensures a.list != [] && (a.list[0].tagIn.None? ==> Live(SendInput(a)))
  {
    assert ChildOk(a, 0);
    if a.list[0].tagIn.None? {
      var d := SendInput(a);
      RunningSet(a.list, 0, d.list[0]);
      forall t | t in d.sources
        ensures SourceOk(d, t)
      {
        if t in a.sources {
          assert SourceOk(a, t);
        }
      }
      forall j: nat | j < |d.list|
        ensures ChildOk(d, j)
      {
        SendChild(a, j);
      }
    }
  }

  lemma SendChild(a: Action, j: nat)
    requires Live(a) && Happens(a, Send) && a.list[0].tagIn.None? && j < |a.list|
    ensures ChildOk(SendInput(a), j)
  {
    assert ChildOk(a, j) && |a.list| == 1;
    var d := SendInput(a);
    assert forall u | u in a.sources :: SourceOk(a, u) && u < a.nextTag;
    var t :| t in a.sources && a.sources[t] == StatusOf(j);
    assert t in d.sources && d.sources[t] == StatusOf(j);
  }

  lemma InputGood(a: Action, tag: Tag)
    requires Live(a) && Happens(a, Input(tag))
    ensures a.list != [] && Live(CatchInput(a))
  {
    assert SourceOk(a, tag) && ChildOk(a, 0);
    var c := a.list[0];
    assert c.tagIn == Some(tag) && c.chldIn == Some(Fd(0, In));
    var d := CatchInput(a);
    RunningSet(a.list, 0, d.list[0]);
    forall t | t in d.sources
      ensures SourceOk(d, t)
    {
      assert SourceOk(a, t);
    }
    forall j: nat | j < |d.list|
      ensures ChildOk(d, j)
    {
      assert ChildOk(a, j);
      InputChild(a, tag, j);
    }
  }

  lemma InputChild(a: Action, tag: Tag, j: nat)
    requires Live(a) && Happens(a, Input(tag)) && a.list != [] && j < |a.list| && ChildOk(a, j) && ChildOk(a, 0)
    requires a.list[0].tagIn == Some(tag) && a.list[0].chldIn == Some(Fd(0, In)) && a.list[0].running
    ensures ChildOk(CatchInput(a), j)
  {
    var d := CatchInput(a);
    hide Live;
    if j != 0 {
      OtherChild(a, d, 0, j);
    } else {
      var t :| t in a.sources && a.sources[t] == StatusOf(0);
      assert t in d.sources && d.sources[t] == StatusOf(0);
    }
  }

  // ---------- the start ----------

  predicate KeepsIn(k: Kind, hasText: bool) {
    k.userIn || (k.pipeIn && !hasText)
  }

  /** A child as it is forked: the watches on its two outputs have the next two tags. */
  function NewChild(i: nat, k: Kind, hasText: bool): ChildInfo {
    ChildInfo(true, if KeepsIn(k, hasText) then Some(Fd(i, In)) else None, Some(Fd(i, Out)), Some(Fd(i, Err)),
              None, Some(2 * i + 1), Some(2 * i + 2), false)
  }

  function OutputSource(t: Tag): Source
    requires t > 0
  {
    OutputOf(Fd((t - 1) / 2, if t % 2 == 1 then Out else Err))
  }

  /** While children are forked. */
  ghost predicate Forking(a: Action, k: Kind, hasText: bool, openIn: bool) {
    && a.freed == 0 && |a.list| == a.forked == a.nb && a.nextTag == 2 * a.forked + 1 && a.dialog == NoDialog
    && a.openIn == openIn && a.inputSensitive == openIn && !a.output
    && (forall i: nat {:trigger a.list[i]} | i < a.forked :: a.list[i] == NewChild(i, k, hasText))
    && OutputsWatched(a.sources, a.forked) && InputsClosed(a.closes, a.forked, KeepsIn(k, hasText))
  }

  /** The sources while `n` children have been forked. */
  ghost predicate OutputsWatched(s: map<Tag, Source>, n: nat) {
    && (forall t {:trigger t in s} :: t in s <==> 0 < t <= 2 * n)
    && (forall t {:trigger s[t]} | t in s :: s[t] == OutputSource(t))
  }

  /** What has been closed by then. */
  ghost predicate InputsClosed(m: map<Fd, nat>, n: nat, keepsIn: bool) {
    forall fd: Fd {:trigger Count(m, fd)} :: Count(m, fd) == if fd.child < n && fd.end == In && !keepsIn then 1 else 0
  }

  lemma ForkIs(a: Action, k: Kind, hasText: bool)
    requires a.nextTag == 2 * a.forked + 1 && !(k.pipeIn && k.userIn)
    ensures var n := a.forked;
      Fork(a, k, hasText) == a.(
        closes := if KeepsIn(k, hasText) then a.closes else a.closes[Fd(n, In) := Count(a.closes, Fd(n, In)) + 1],
        sources := a.sources[2 * n + 1 := OutputOf(Fd(n, Out))][2 * n + 2 := OutputOf(Fd(n, Err))],
          nextTag := 2 * n + 3,
        list := a.list + [NewChild(n, k, hasText)], nb := a.nb + 1, forked := n + 1)
  {
  }

  lemma ForkStep(a: Action, k: Kind, hasText: bool, openIn: bool)
    requires Forking(a, k, hasText, openIn) && !(k.pipeIn && k.userIn)
    ensures Forking(Fork(a, k, hasText), k, hasText, openIn) && Fork(a, k, hasText).forked == a.forked + 1
  {
    hide Fork, KeepsIn, NewChild, Count, OutputsWatched, InputsClosed;
    ForkIs(a, k, hasText);
    ForkCloses(a.closes, a.forked, KeepsIn(k, hasText));
    ForkSources(a.sources, a.forked);
  }

  lemma ForkSources(s: map<Tag, Source>, n: nat)
    requires OutputsWatched(s, n)
    ensures OutputsWatched(s[2 * n + 1 := OutputOf(Fd(n, Out))][2 * n + 2 := OutputOf(Fd(n, Err))], n + 1)
  {
    assert OutputSource(2 * n + 1) == OutputOf(Fd(n, Out)) && OutputSource(2 * n + 2) == OutputOf(Fd(n, Err));
  }

  lemma ForkCloses(m: map<Fd, nat>, n: nat, keepsIn: bool)
    requires InputsClosed(m, n, keepsIn)
    ensures InputsClosed(if keepsIn then m else m[Fd(n, In) := Count(m, Fd(n, In)) + 1], n + 1, keepsIn)
  {
    var m' := if keepsIn then m else m[Fd(n, In) := Count(m, Fd(n, In)) + 1];
    forall fd: Fd
      ensures Count(m', fd) == if fd.child < n + 1 && fd.end == In && !keepsIn then 1 else 0
    {
      assert Count(m, fd) == if fd.child < n && fd.end == In && !keepsIn then 1 else 0;
    }
  }

  function Started(forks: seq<bool>): nat {
    if forks == [] then 0 else (if forks[0] then 1 else 0) + Started(forks[1..])
  }

  lemma {:induction false} ForkAllSteps(a: Action, k: Kind, hasText: bool, forks: seq<bool>, openIn: bool)
    requires Forking(a, k, hasText, openIn) && !(k.pipeIn && k.userIn)
    ensures var b := ForkAll(a, k, hasText, forks);
      Forking(b, k, hasText, openIn) && b.forked == a.forked + Started(forks) && b.initialNb == a.initialNb
    decreases |forks|
  {
    hide Forking;
    if forks != [] {
      ForkStep(a, k, hasText, openIn);
      var b := if forks[0] then Fork(a, k, hasText) else a;
      assert b.initialNb == a.initialNb;
      ForkAllSteps(b, k, hasText, forks[1..], openIn);
    }
  }

  /** With the watches for the exits of the first `m` children. */
  function StatusWatched(a: Action, m: nat): Action {
    a.(sources := map t | t in a.sources.Keys + Tags(a.nextTag, m) :: if t in a.sources then a.sources[t]
      else StatusOf(t - a.nextTag),
       nextTag := a.nextTag + m)
  }

  function Tags(from: Tag, n: nat): (r: set<Tag>)
    ensures forall t :: t in r <==> from <= t < from + n
  {
    if n == 0 then {} else Tags(from, n - 1) + {from + n - 1}
  }

  lemma WatchMore(a: Action, m: nat)
    requires forall t | t in a.sources :: t < a.nextTag
    ensures Watch(StatusWatched(a, m), StatusOf(m)) == StatusWatched(a, m + 1)
  {
    var b, c := Watch(StatusWatched(a, m), StatusOf(m)), StatusWatched(a, m + 1);
    assert b.sources == c.sources;
  }

  lemma {:induction false} WatchAllIs(a: Action, m: nat)
    requires m <= |a.list| && forall t | t in a.sources :: t < a.nextTag
    ensures WatchAll(StatusWatched(a, m), m) == StatusWatched(a, |a.list|)
    decreases |a.list| - m
  {
    hide Watch;
    if m < |a.list| {
      WatchMore(a, m);
      WatchAllIs(a, m + 1);
    }
  }

  lemma {:induction false} RunningAll(list: seq<ChildInfo>)
    requires forall i | 0 <= i < |list| :: list[i].running
    ensures Running(list) == |list|
    decreases |list|
  {
    if list != [] {
      RunningAll(list[..|list| - 1]);
    }
  }

  lemma LaunchedChild(a: Action, k: Kind, hasText: bool, openIn: bool, i: nat)
    requires Forking(a, k, hasText, openIn) && i < |a.list|
    ensures ChildOk(StatusWatched(a, |a.list|).(dialog := Shown), i)
  {
    var d := StatusWatched(a, |a.list|).(dialog := Shown);
    assert d.list[i] == NewChild(i, k, hasText);
    assert OutputSource(2 * i + 1) == OutputOf(Fd(i, Out)) && OutputSource(2 * i + 2) == OutputOf(Fd(i, Err));
    assert 2 * i + 1 in a.sources && 2 * i + 2 in a.sources;
    var t := a.nextTag + i;
    assert t in Tags(a.nextTag, |a.list|);
    assert t in d.sources && d.sources[t] == StatusOf(i);
  }

  lemma LaunchedOutput(a: Action, k: Kind, hasText: bool, openIn: bool, t: Tag)
    requires Forking(a, k, hasText, openIn) && t in a.sources
    ensures SourceOk(StatusWatched(a, |a.list|).(dialog := Shown), t)
  {
    hide KeepsIn, InputsClosed, Count;
    var d := StatusWatched(a, |a.list|).(dialog := Shown);
    var i := (t - 1) / 2;
    assert t == 2 * i + if t % 2 == 1 then 1 else 2;
    assert d.sources[t] == OutputSource(t) && d.list[i] == NewChild(i, k, hasText);
  }

  lemma LaunchedSource(a: Action, k: Kind, hasText: bool, openIn: bool, t: Tag)
    requires Forking(a, k, hasText, openIn) && t in StatusWatched(a, |a.list|).sources
    ensures SourceOk(StatusWatched(a, |a.list|).(dialog := Shown), t)
  {
    if t in a.sources {
      LaunchedOutput(a, k, hasText, openIn, t);
    } else {
      hide KeepsIn, InputsClosed, Count;
      var d := StatusWatched(a, |a.list|).(dialog := Shown);
      var i: nat := t - a.nextTag;
      assert d.list[i] == NewChild(i, k, hasText) && d.sources[t] == StatusOf(i);
    }
  }

  lemma LaunchedLive(a: Action, k: Kind, hasText: bool, openIn: bool)
    requires Forking(a, k, hasText, openIn) && a.forked > 0 && a.initialNb == a.nb
      && (openIn ==> a.forked == 1 && k.userIn)
    ensures Live(StatusWatched(a, |a.list|).(dialog := Shown))
  {
    var d := StatusWatched(a, |a.list|).(dialog := Shown);
    assert d.list[0] == NewChild(0, k, hasText);
    forall i | 0 <= i < |a.list|
      ensures a.list[i].running
    {
      assert a.list[i] == NewChild(i, k, hasText);
    }
    RunningAll(a.list);
    forall i: nat | i < |d.list|
      ensures ChildOk(d, i)
    {
      LaunchedChild(a, k, hasText, openIn, i);
    }
    forall t | t in d.sources
      ensures SourceOk(d, t)
    {
      LaunchedSource(a, k, hasText, openIn, t);
    }
    hide ChildOk, SourceOk;
  }

  /** Before the first child. */
  function Blank(openIn: bool): Action {
    Action([], 0, 0, openIn, false, openIn, NoDialog, map[], 1, map[], 0, 0)
  }

  lemma LaunchIs(k: Kind, hasText: bool, single: bool, forks: seq<bool>)
    ensures var openIn := k.userIn && (!single || |forks| == 1);
      var b := ForkAll(Blank(openIn), k, hasText, if k.isAsync then [] else forks);
      Launch(k, hasText, single, forks) ==
        if b.list == [] then Free(b) else WatchAll(b.(initialNb := b.nb), 0).(dialog := Shown)
  {
  }

  lemma LaunchNone(b: Action, k: Kind, hasText: bool, openIn: bool)
    requires Forking(b, k, hasText, openIn) && b.list == []
    ensures Finished(Free(b))
  {
    assert b.sources == map[];
  }

  lemma LaunchSome(b: Action, k: Kind, hasText: bool, openIn: bool)
    requires Forking(b, k, hasText, openIn) && b.list != [] && (openIn ==> b.forked == 1 && k.userIn)
    ensures Live(WatchAll(b.(initialNb := b.nb), 0).(dialog := Shown))
  {
    var c := b.(initialNb := b.nb);
    assert StatusWatched(c, 0).sources == c.sources;
    assert StatusWatched(c, 0) == c;
    WatchAllIs(c, 0);
    LaunchedLive(c, k, hasText, openIn);
  }

  lemma LaunchGood(k: Kind, hasText: bool, single: bool, forks: seq<bool>)
    requires !(k.pipeIn && k.userIn) && (!single ==> |forks| <= 1)
    ensures Good(Launch(k, hasText, single, forks))
  {
    hide WatchAll, ForkAll, Launch, Live, Finished, Started;
    var openIn := k.userIn && (!single || |forks| == 1);
    var fs := if k.isAsync then [] else forks;
    LaunchIs(k, hasText, single, forks);
    assert Forking(Blank(openIn), k, hasText, openIn);
    ForkAllSteps(Blank(openIn), k, hasText, fs, openIn);
    var b := ForkAll(Blank(openIn), k, hasText, fs);
    StartedFew(fs);
    assert |b.list| == b.forked == Started(fs);
    hide Forking;
    if b.list != [] {
      LaunchSome(b, k, hasText, openIn);
    } else {
      LaunchNone(b, k, hasText, openIn);
    }
  }

  lemma {:induction false} StartedFew(forks: seq<bool>)
    ensures Started(forks) <= |forks|
  {
    if forks != [] {
      StartedFew(forks[1..]);
    }
  }

  // ---------- whole runs ----------

  /** The button is pressed again only when the first press has been dealt with. */
  predicate Patient(a: Action, e: Event) {
    e.Send? && a.list != [] ==> a.list[0].tagIn.None?
  }

  lemma StepGood(a: Action, e: Event)
    requires Good(a) && Happens(a, e)
    ensures Live(a) && Reaches(a, e) && (Patient(a, e) ==> Good(Step(a, e)))
  {
    match e
    case Exit(i, tag) => ExitGood(a, i, tag);
    case Output(i, tag, fd, r, toMessage) => OutputGood(a, i, tag, fd, r, toMessage);
    case Send => SendGood(a);
    case Input(tag) => InputGood(a, tag);
    case CloseDialog => HideGood(a);
  }

  /** A run in which only enabled events happen.  That each finds the record is not asked but proved. */
  ghost predicate HappenAll(a: Action, es: seq<Event>)
    requires Good(a)
    decreases |es|
  {
    es == [] || (Happens(a, es[0]) && Patient(a, es[0]) && (StepGood(a, es[0]); HappenAll(Step(a, es[0]), es[1..])))
  }

  ghost function After(a: Action, es: seq<Event>): Action
    requires Good(a) && HappenAll(a, es)
    decreases |es|
  {
    if es == [] then a
    else
      StepGood(a, es[0]);
      After(Step(a, es[0]), es[1..])
  }

  lemma {:induction false} RunGood(a: Action, es: seq<Event>)
    requires Good(a) && HappenAll(a, es)
    ensures Good(After(a, es))
    decreases |es|
  {
    hide Good;
    if es != [] {
      StepGood(a, es[0]);
      RunGood(Step(a, es[0]), es[1..]);
    }
  }

  /** A descriptor that a running child's record still holds. */
  predicate StillHeld(a: Action, fd: Fd) {
    && fd.child < |a.list| && a.list[fd.child].running
    && var c := a.list[fd.child];
    match fd.end
    case In => c.chldIn.Some?
    case Out => c.chldOut.Some?
    case Err => c.chldErr.Some?
  }

  /** Over every interleaving of exits, output, ends of output, input and closings of the dialog: `nb`
      is the number of children that run; a descriptor is closed once as soon as it is not held any
      more and never again.  The record is freed once as soon as no child runs and nothing is to be
      looked at, or nobody looks at it; until then the dialog is there, and closing it when no child
      runs frees the record.  Once it has been freed nothing can touch it any more. */
  lemma Lifecycle(k: Kind, hasText: bool, single: bool, forks: seq<bool>, es: seq<Event>)
    requires !(k.pipeIn && k.userIn) && (!single ==> |forks| <= 1)
    requires (LaunchGood(k, hasText, single, forks); HappenAll(Launch(k, hasText, single, forks), es))
    ensures var a := (LaunchGood(k, hasText, single, forks); After(Launch(k, hasText, single, forks), es));
      && a.nb == Running(a.list)
      && (forall fd: Fd :: Count(a.closes, fd) == if fd.child < a.forked && !StillHeld(a, fd) then 1 else 0)
      && a.freed == (if a.dialog == Shown && (a.nb > 0 || a.output) then 0 else 1)
      && (a.freed == 0 ==> Happens(a, CloseDialog) && Step(a, CloseDialog).freed == if a.nb == 0 then 1 else 0)
      && (a.freed == 1 ==> a.nb == 0 && a.sources == map[] && forall e :: !Happens(a, e))
  {
    LaunchGood(k, hasText, single, forks);
    RunGood(Launch(k, hasText, single, forks), es);
    var a := After(Launch(k, hasText, single, forks), es);
    forall fd: Fd
      ensures Count(a.closes, fd) == if fd.child < a.forked && !StillHeld(a, fd) then 1 else 0
    {
      if Live(a) && fd.child < a.forked {
        assert ChildOk(a, fd.child);
        match fd.end
        case In => assert fd == Fd(fd.child, In);
        case Out => assert fd == Fd(fd.child, Out);
        case Err => assert fd == Fd(fd.child, Err);
      }
    }
  }

  // ---------- pressing twice ----------

  /** A source that waits for the first child's input and that no field refers to. */
  ghost predicate Lost(a: Action, t: Tag) {
    && t in a.sources && a.sources[t] == InputOf && t < a.nextTag
    && forall i | 0 <= i < |a.list| :: a.list[i].tagIn != Some(t) && a.list[i].tagOut != Some(t)
                                       && a.list[i].tagErr != Some(t)
  }

  /** Pressing the button again before the child could take the input keeps the invariant exactly if
      no press is pending; otherwise the first press's source is lost. */
  lemma PressTwice(a: Action)
    requires Live(a) && Happens(a, Send)
    ensures a.list != [] && (Live(SendInput(a)) <==> a.list[0].tagIn.None?)
    ensures a.list[0].tagIn.Some? ==> Lost(SendInput(a), a.list[0].tagIn.value)
  {
    SendGood(a);
    assert ChildOk(a, 0);
    if a.list[0].tagIn.Some? {
      var t := a.list[0].tagIn.value;
      assert SourceOk(a, t);
      var d := SendInput(a);
      forall i: nat | i < |d.list|
        ensures d.list[i].tagIn != Some(t) && d.list[i].tagOut != Some(t) && d.list[i].tagErr != Some(t)
      {
        assert ChildOk(a, i);
      }
      assert !SourceOk(d, t);
    }
  }

  lemma WaitKeepsLost(a: Action, t: Tag)
    requires Lost(a, t)
    ensures Lost(Wait(a), t)
  {
  }

  lemma ExitKeepsLost(a: Action, t: Tag, i: nat, tag: Tag)
    requires Lost(a, t) && Happens(a, Exit(i, tag)) && i < |a.list|
    ensures Lost(CatchStatus(a, i, tag), t)
  {
    hide Wait;
    ClosePipesIs(Remove(a, Some(tag)), a.list[i]);
    var b := ClosePipes(Remove(a, Some(tag)), a.list[i]);
    hide ClosePipes;
    assert t in b.sources && b.list == a.list;
    WaitKeepsLost(SetChild(b, i, a.list[i].(running := false)).(nb := b.nb - 1), t);
  }

  lemma ChildKeepsLost(a: Action, t: Tag, i: nat, tag: Option<Tag>, fd: Option<Fd>, c: ChildInfo)
    requires Lost(a, t) && tag != Some(t) && c.tagIn != Some(t) && c.tagOut != Some(t) && c.tagErr != Some(t)
    requires i < |a.list|
    ensures i < |Close(Remove(a, tag), fd).list| && Lost(SetChild(Close(Remove(a, tag), fd), i, c), t)
  {
  }

  lemma OutputKeepsLost(a: Action, t: Tag, i: nat, fd: Fd, r: Result, toMessage: bool)
    requires Lost(a, t) && i < |a.list|
    ensures Lost(CatchOutput(a, i, fd, r, toMessage), t)
  {
    var c := a.list[i];
    ChildKeepsLost(a, t, i, None, None, c.(newOut := true));
    ChildKeepsLost(a, t, i, c.tagOut, c.chldOut, c.(tagOut := None, chldOut := None));
    ChildKeepsLost(a, t, i, c.tagErr, c.chldErr, c.(tagErr := None, chldErr := None));
    hide Wait, Lost, SetChild;
    var isOut := c.chldOut == Some(fd);
    if r == Data && !(toMessage && isOut) {
      WaitKeepsLost(SetChild(a, i, c.(newOut := true)), t);
    } else if r == Eof && isOut {
      WaitKeepsLost(SetChild(Close(Remove(a, c.tagOut), c.chldOut), i, c.(tagOut := None, chldOut := None)), t);
    } else if r == Eof {
      WaitKeepsLost(SetChild(Close(Remove(a, c.tagErr), c.chldErr), i, c.(tagErr := None, chldErr := None)), t);
    } else {
      WaitKeepsLost(a, t);
    }
  }

  /** A lost source is never removed. */
  lemma LostStays(a: Action, t: Tag, e: Event)
    requires Lost(a, t) && Happens(a, e) && Reaches(a, e)
    ensures Lost(Step(a, e), t)
  {
    hide CatchStatus, CatchOutput;
    match e
    case Exit(i, tag) => ExitKeepsLost(a, t, i, tag);
    case Output(i, tag, fd, r, toMessage) => OutputKeepsLost(a, t, i, fd, r, toMessage);
    case Send =>
    case Input(tag) =>
    case CloseDialog =>
  }

  /** A run in which the button may be pressed at any time. */
  ghost predicate HappenAny(a: Action, es: seq<Event>)
    decreases |es|
  {
    es == [] || (Happens(a, es[0]) && Reaches(a, es[0]) && HappenAny(Step(a, es[0]), es[1..]))
  }

  ghost function AfterAny(a: Action, es: seq<Event>): Action
    requires HappenAny(a, es)
    decreases |es|
  {
    if es == [] then a else AfterAny(Step(a, es[0]), es[1..])
  }

  /** Once a press has been lost its source stays enabled whatever follows, also when the record has
      been freed: something can then still touch it. */
  lemma {:induction false} LostForever(a: Action, t: Tag, es: seq<Event>)
    requires Lost(a, t) && HappenAny(a, es)
    ensures Happens(AfterAny(a, es), Input(t))
    decreases |es|
  {
    if es != [] {
      LostStays(a, t, es[0]);
      LostForever(Step(a, es[0]), t, es[1..]);
    }
  }

  /** It does come to that: one child that takes input, two presses, and the child ends. */
  lemma PressedTwiceAndEnded()
    ensures var a := Launch(Kind(false, true, false), false, false, [true]); var es := [Send, Send, Exit(0, 3)];
      HappenAny(a, es) && AfterAny(a, es).freed == 1 && Happens(AfterAny(a, es), Input(4))
  {
    var k := Kind(false, true, false);
    var a := Launch(k, false, false, [true]);
    assert [true][1..] == [];
    LaunchIs(k, false, false, [true]);
    var f := Fork(Blank(true), k, false);
    assert ForkAll(Blank(true), k, false, [true]) == f;
    var c := ChildInfo(true, Some(Fd(0, In)), Some(Fd(0, Out)), Some(Fd(0, Err)), None, Some(1), Some(2), false);
    assert f.list == [c] && f.nextTag == 3;
    var g := f.(initialNb := 1);
    assert WatchAll(g, 0) == WatchAll(Watch(g, StatusOf(0)), 1) == Watch(g, StatusOf(0));
    assert a == Watch(g, StatusOf(0)).(dialog := Shown);
    TwoPresses(a, c);
    var es := [Send, Send, Exit(0, 3)];
    assert es[0] == Send && es[1..] == [Send, Exit(0, 3)] && es[1..][1..] == [Exit(0, 3)] && es[1..][1..][1..] == [];
    var d := SendInput(SendInput(a));
    hide Launch, SendInput, CatchStatus;
    assert Step(a, Send) == SendInput(a) && Step(SendInput(a), Send) == d
      && Step(d, Exit(0, 3)) == CatchStatus(d, 0, 3);
  }

  lemma TwoPresses(a: Action, c: ChildInfo)
    requires a.list == [c] && a.nextTag == 4 && a.nb == 1 && a.initialNb == 1 && a.freed == 0 && a.dialog == Shown
      && !a.output
    requires a.openIn && a.inputSensitive && 3 in a.sources && a.sources[3] == StatusOf(0)
    requires c == ChildInfo(true, Some(Fd(0, In)), Some(Fd(0, Out)), Some(Fd(0, Err)), None, Some(1), Some(2), false)
    ensures Happens(a, Send) && SendInput(a).list != [] && Happens(SendInput(a), Send)
    ensures var d := SendInput(SendInput(a)); d.list != [] && Happens(d, Exit(0, 3))
    ensures var e := CatchStatus(SendInput(SendInput(a)), 0, 3); e.freed == 1 && Happens(e, Input(4))
  {
    var d := SendInput(SendInput(a));
    var x := c.(tagIn := Some(5));
    assert d.list == [x] && d.sources[4] == InputOf && d.sources[3] == StatusOf(0) && d.nb == 1;
    EndedNow(d, x);
  }

  /** The only child ends, and nothing was put out. */
  lemma EndedNow(d: Action, x: ChildInfo)
    requires d.list == [x] && d.nb == 1 && d.initialNb == 1 && d.freed == 0 && d.dialog == Shown && !d.output
      && !x.newOut
    requires 4 in d.sources && d.sources[4] == InputOf && x.tagIn == Some(5) && x.tagOut == Some(1)
      && x.tagErr == Some(2)
    ensures var e := CatchStatus(d, 0, 3); e.freed == 1 && Happens(e, Input(4))
  {
    ClosePipesIs(Remove(d, Some(3)), x);
    var b := ClosePipes(Remove(d, Some(3)), x);
    hide ClosePipes, CloseThree;
    assert 4 in b.sources && b.sources[4] == InputOf;
    var e := SetChild(b, 0, x.(running := false)).(nb := 0);
    assert e.list == [x.(running := false)] && !SomeNew(e.list);
  }

  // ---------- the record as the source has it ----------

  class Children {
    var list: seq<ChildInfo>
    var nb: int
    var initialNb: int
    var openIn: bool
    var output: bool
    var inputSensitive: bool
    var dialog: Dialog
    var sources: map<Tag, Source>
    var nextTag: Tag
    var closes: map<Fd, nat>
    var freed: nat
    var forked: nat

    ghost function View(): Action
      reads this
    {
      Action(list, nb, initialNb, openIn, output, inputSensitive, dialog, sources, nextTag, closes, freed, forked)
    }

    constructor (openIn: bool)
      ensures View() == Blank(openIn)
    {
      list, nb, initialNb := [], 0, 0;
      this.openIn, output, inputSensitive := openIn, false, openIn;
      dialog, sources, nextTag, closes, freed, forked := NoDialog, map[], 1, map[], 0, 0;
    }

    method CloseFd(fd: Option<Fd>)
      modifies this`closes
      ensures View() == Close(old(View()), fd)
    {
      if fd.Some? {
        closes := closes[fd.value := Count(closes, fd.value) + 1];
      }
    }

    method RemoveSource(tag: Option<Tag>)
      modifies this`sources
      ensures View() == Remove(old(View()), tag)
    {
      if tag.Some? {
        sources := sources - {tag.value};
      }
    }

    method AddSource(s: Source) returns (tag: Tag)
      modifies this`sources, this`nextTag
      ensures View() == Watch(old(View()), s) && tag == old(nextTag)
    {
      tag := nextTag;
      sources := sources[tag := s];
      nextTag := nextTag + 1;
    }

    /** `fork_child` of a child that is followed, and the counting in `execute_actions`. */
    method ForkChild(k: Kind, hasText: bool)
      modifies this
      ensures View() == Fork(old(View()), k, hasText)
    {
      var i := forked;
      var chldIn, chldOut, chldErr := Fd(i, In), Fd(i, Out), Fd(i, Err);
      if !k.pipeIn && !k.userIn {
        CloseFd(Some(chldIn));
      }
      var tagOut := AddSource(OutputOf(chldOut));
      var tagErr := AddSource(OutputOf(chldErr));
      var child := ChildInfo(true, if k.pipeIn || k.userIn then Some(chldIn) else None, Some(chldOut), Some(chldErr),
                             None, Some(tagOut), Some(tagErr), false);
      if k.pipeIn && hasText {
        if !k.userIn {
          CloseFd(Some(chldIn));
        }
        child := child.(chldIn := None);
      }
      list := list + [child];
      nb := nb + 1;
      forked := i + 1;
    }

    /** The end of `execute_actions`: each child is watched, and the dialog comes up. */
    method WatchChildren()
      modifies this`initialNb, this`sources, this`nextTag, this`dialog
      ensures View() == WatchAll(old(View()).(initialNb := old(nb)), 0).(dialog := Shown)
    {
      initialNb := nb;
      ghost var b := View();
      var i := 0;
      while i < |list|
        invariant 0 <= i <= |list| && WatchAll(View(), i) == WatchAll(b, 0)
      {
        var tag := AddSource(StatusOf(i));
        i := i + 1;
      }
      dialog := Shown;
    }

    /** `free_children`. */
    method FreeChildren()
      modifies this`list, this`freed
      ensures View() == Free(old(View()))
    {
      while list != []
        invariant View() == old(View()).(list := list)
        decreases |list|
      {
        list := list[1..];
      }
      freed := freed + 1;
    }

    /** `hide_io_dialog_cb`. */
    method HideIoDialog()
      modifies this`list, this`freed, this`dialog
      ensures View() == Hide(old(View()))
    {
      if nb == 0 {
        dialog := Gone;
        FreeChildren();
      }
    }

    /** `update_io_dialog`. */
    method UpdateIoDialog()
      modifies this`list, this`inputSensitive
      ensures View() == Update(old(View()))
    {
      if nb == 0 {
        inputSensitive := false;
      }
      if output {
        var i := 0;
        ghost var before := list;
        while i < |list|
          invariant 0 <= i <= |list| == |before|
          invariant forall j | 0 <= j < i :: list[j] == before[j].(newOut := false)
          invariant forall j | i <= j < |list| :: list[j] == before[j]
          invariant View() == old(View()).(list := list, inputSensitive := inputSensitive)
          invariant inputSensitive == (old(inputSensitive) && nb != 0)
        {
          list := list[i := list[i].(newOut := false)];
          i := i + 1;
        }
      }
    }

    /** `wait_for_children`. */
    method WaitForChildren()
      modifies this`list, this`output, this`inputSensitive, this`dialog, this`freed
      ensures View() == Wait(old(View()))
    {
      var newOutput := false;
      var cur := 0;
      while cur < |list|
        invariant 0 <= cur <= |list| && View() == old(View())
        invariant newOutput <==> exists i :: 0 <= i < cur && list[i].newOut
      {
        newOutput := newOutput || list[cur].newOut;
        cur := cur + 1;
      }
      assert newOutput <==> SomeNew(list);
      output := output || newOutput;
      if newOutput || (dialog == Shown && initialNb != nb) {
        UpdateIoDialog();
      }
      if nb != 0 {
        return;
      }
      if dialog == NoDialog {
        FreeChildren();
      } else if !output {
        HideIoDialog();
      }
    }

    /** `childinfo_close_pipes`. */
    method ChildClosePipes(i: nat)
      requires i < |list|
      modifies this`sources, this`closes
      ensures View() == ClosePipes(old(View()), list[i])
    {
      hide Remove, Close;
      RemoveSource(list[i].tagIn);
      RemoveSource(list[i].tagOut);
      RemoveSource(list[i].tagErr);
      CloseFd(list[i].chldIn);
      CloseFd(list[i].chldOut);
      CloseFd(list[i].chldErr);
    }

    /** `catch_status`. */
    method OnExit(i: nat, tag: Tag)
      requires i < |list|
      modifies this
      ensures View() == CatchStatus(old(View()), i, tag)
    {
      hide Wait, ClosePipes, Remove;
      RemoveSource(Some(tag));
      ChildClosePipes(i);
      list := list[i := list[i].(running := false)];
      nb := nb - 1;
      WaitForChildren();
    }

    /** `catch_output`. */
    method OnOutput(i: nat, source: Fd, r: Result, toMessage: bool)
      requires i < |list|
      modifies this
      ensures View() == CatchOutput(old(View()), i, source, r, toMessage)
    {
      hide Wait;
      if r == Data && !(toMessage && list[i].chldOut == Some(source)) {
        list := list[i := list[i].(newOut := true)];
      }
      if r == Eof {
        if list[i].chldOut == Some(source) {
          RemoveSource(list[i].tagOut);
          CloseFd(list[i].chldOut);
          list := list[i := list[i].(tagOut := None, chldOut := None)];
        } else {
          RemoveSource(list[i].tagErr);
          CloseFd(list[i].chldErr);
          list := list[i := list[i].(tagErr := None, chldErr := None)];
        }
      }
      WaitForChildren();
    }

    /** `send_input`: whether a press is pending is not looked at. */
    method OnSend()
      requires list != []
      modifies this
      ensures View() == SendInput(old(View()))
    {
      var tag := AddSource(InputOf);
      list := list[0 := list[0].(tagIn := Some(tag))];
    }

    /** `catch_input`. */
    method OnInput()
      requires list != []
      modifies this
      ensures View() == CatchInput(old(View()))
    {
      hide Remove, Close;
      inputSensitive := false;
      RemoveSource(list[0].tagIn);
      CloseFd(list[0].chldIn);
      list := list[0 := list[0].(tagIn := None, chldIn := None)];
    }
  }

  lemma ForkAllStep(a: Action, k: Kind, hasText: bool, forks: seq<bool>)
    ensures forks != [] ==>
      ForkAll(a, k, hasText, forks) == ForkAll(if forks[0] then Fork(a, k, hasText) else a, k, hasText, forks[1..])
    ensures forks == [] ==> ForkAll(a, k, hasText, forks) == a
  {
  }

  /** The second half of `execute_actions`. */
  method ExecuteActions(k: Kind, hasText: bool, single: bool, forks: seq<bool>) returns (children: Children)
    ensures fresh(children) && children.View() == Launch(k, hasText, single, forks)
  {
    hide Fork, WatchAll, ForkAll, Launch;
    var openIn := k.userIn && (!single || |forks| == 1);
    LaunchIs(k, hasText, single, forks);
    children := new Children(openIn);
    var cur := if k.isAsync then [] else forks;
    while cur != []
      invariant fresh(children)
      invariant ForkAll(children.View(), k, hasText, cur) ==
        ForkAll(Blank(openIn), k, hasText, if k.isAsync then [] else forks)
      decreases |cur|
    {
      ForkAllStep(children.View(), k, hasText, cur);
      if cur[0] {
        children.ForkChild(k, hasText);
      }
      cur := cur[1..];
    }
    ForkAllStep(children.View(), k, hasText, []);
    if children.list == [] {
      children.FreeChildren();
    } else {
      children.WatchChildren();
    }
  }
}
