/** What the record of an action's children owes to the events: its pipes at the start, and that output
    is kept until somebody has closed the dialog (src/action.c:850-1064, 1086-1145, 1554-1638). */
module ActionOutput {
  import opened Items
  import opened ActionScan
  import opened ActionMeaning
  import opened ActionChildren

  // ---------- output ----------

  /** Something has been read that does not go to the message. */
  predicate BringsOutput(e: Event) {
    e.Output? && e.result == Data && !(e.toMessage && e.source.end == Out)
  }

  /** A source that fires tells its end: the pipe is still the child's. */
  lemma SourceEnd(a: Action, i: nat, tag: Tag, fd: Fd)
    requires Live(a) && tag in a.sources && a.sources[tag] == OutputOf(fd) && fd.child == i
    ensures i < |a.list| && (a.list[i].chldOut == Some(fd) <==> fd.end == Out)
  {
    assert SourceOk(a, tag) && ChildOk(a, i);
    match fd.end
    case In =>
    case Out => assert fd == Fd(i, Out);
    case Err =>
  }

  lemma WaitOutput(a: Action)
    ensures Wait(a).output <==> a.output || SomeNew(a.list)
    ensures SomeNew(Wait(a).list) ==> Wait(a).output
  {
    var b := a.(output := a.output || SomeNew(a.list));
    if SomeNew(Wait(a).list) {
      NothingNew(b);
    }
  }

  lemma NothingNew(a: Action)
    ensures a.output ==> !SomeNew(Update(a).list)
    ensures !a.output ==> Update(a).list == a.list
  {
  }

  lemma SetNew(list: seq<ChildInfo>, i: nat, c: ChildInfo)
    requires i < |list|
    ensures c.newOut ==> SomeNew(list[i := c])
    ensures c.newOut == list[i].newOut ==> (SomeNew(list[i := c]) <==> SomeNew(list))
  {
    var after := list[i := c];
    if c.newOut {
      assert after[i].newOut;
    }
    if SomeNew(list) && c.newOut == list[i].newOut {
      var j :| 0 <= j < |list| && list[j].newOut;
      assert after[j].newOut;
    }
  }

  lemma ReadOutput(a: Action, i: nat, fd: Fd, r: Result, toMessage: bool)
    requires i < |a.list| && (SomeNew(a.list) ==> a.output)
    ensures var b := CatchOutput(a, i, fd, r, toMessage);
      && (b.output <==> a.output || (r == Data && !(toMessage && a.list[i].chldOut == Some(fd))))
      && (SomeNew(b.list) ==> b.output)
  {
    var c := a.list[i];
    SetNew(a.list, i, c.(newOut := true));
    SetNew(a.list, i, c.(tagOut := None, chldOut := None));
    SetNew(a.list, i, c.(tagErr := None, chldErr := None));
    hide SomeNew, Wait;
    var isOut := c.chldOut == Some(fd);
    if r == Data && !(toMessage && isOut) {
      WaitOutput(SetChild(a, i, c.(newOut := true)));
    } else if r == Eof && isOut {
      WaitOutput(SetChild(Close(Remove(a, c.tagOut), c.chldOut), i, c.(tagOut := None, chldOut := None)));
    } else if r == Eof {
      WaitOutput(SetChild(Close(Remove(a, c.tagErr), c.chldErr), i, c.(tagErr := None, chldErr := None)));
    } else {
      WaitOutput(a);
    }
  }

  lemma ExitOutput(a: Action, i: nat, tag: Tag)
    requires i < |a.list| && (SomeNew(a.list) ==> a.output)
    ensures var b := CatchStatus(a, i, tag); (b.output <==> a.output) && (SomeNew(b.list) ==> b.output)
  {
    var c := a.list[i];
    ClosePipesIs(Remove(a, Some(tag)), c);
    SetNew(a.list, i, c.(running := false));
    hide SomeNew, Wait, ClosePipes;
    var b := ClosePipes(Remove(a, Some(tag)), c);
    WaitOutput(b.(list := a.list[i := c.(running := false)], nb := b.nb - 1));
  }

  /** What one event does to the output. */
  lemma StepOutput(a: Action, e: Event)
    requires Good(a) && Happens(a, e) && (SomeNew(a.list) ==> a.output)
    ensures Reaches(a, e) && (Step(a, e).output <==> a.output || BringsOutput(e))
    ensures SomeNew(Step(a, e).list) ==> Step(a, e).output
  {
    StepGood(a, e);
    match e
    case Exit(i, tag) => ExitOutput(a, i, tag);
    case Output(i, tag, fd, r, toMessage) =>
      SourceEnd(a, i, tag, fd);
      ReadOutput(a, i, fd, r, toMessage);
    case Send => SetNew(a.list, 0, a.list[0].(tagIn := Some(a.nextTag)));
    case Input(tag) => SetNew(a.list, 0, a.list[0].(tagIn := None, chldIn := None));
    case CloseDialog =>
  }

  lemma {:induction false} RunOutput(a: Action, es: seq<Event>)
    requires Good(a) && HappenAll(a, es) && (SomeNew(a.list) ==> a.output)
    ensures After(a, es).output <==> a.output || exists i :: 0 <= i < |es| && BringsOutput(es[i])
    decreases |es|
  {
    hide Good, SomeNew;
    if es != [] {
      StepGood(a, es[0]);
      StepOutput(a, es[0]);
      RunOutput(Step(a, es[0]), es[1..]);
      assert forall i | 0 < i < |es| :: es[1..][i - 1] == es[i];
      assert BringsOutput(es[0]) ==> exists i :: 0 <= i < |es| && BringsOutput(es[i]);
      if i :| 0 <= i < |es[1..]| && BringsOutput(es[1..][i]) {
        assert es[i + 1] == es[1..][i];
      }
    }
  }

  /** Over every run there is output to look at exactly if something has been read that did not go to the
      message; and then, whatever happens next, only closing the dialog frees the record. */
  lemma OutputIsSeen(k: ActionChildren.Kind, hasText: bool, single: bool, forks: seq<bool>, es: seq<Event>)
    requires !(k.pipeIn && k.userIn) && (!single ==> |forks| <= 1)
    requires (LaunchGood(k, hasText, single, forks); HappenAll(Launch(k, hasText, single, forks), es))
    ensures var a := (LaunchGood(k, hasText, single, forks); After(Launch(k, hasText, single, forks), es));
      && (a.output <==> exists i :: 0 <= i < |es| && es[i].Output? && es[i].result == Data
                                    && !(es[i].toMessage && es[i].source.end == Out))
      && (forall e | a.output && Happens(a, e) && Patient(a, e) && !e.CloseDialog? ::
            Reaches(a, e) && Step(a, e).freed == 0 && Step(a, e).dialog == Shown)
  {
    LaunchGood(k, hasText, single, forks);
    LaunchHolds(k, hasText, single, forks);
    var b := Launch(k, hasText, single, forks);
    RunOutput(b, es);
    RunGood(b, es);
    var a := After(b, es);
    hide Step, Patient;
    forall e | a.output && Happens(a, e) && Patient(a, e) && !e.CloseDialog?
      ensures Reaches(a, e) && Step(a, e).freed == 0 && Step(a, e).dialog == Shown
    {
      StillShown(a, e);
    }
    assert forall i | 0 <= i < |es| :: BringsOutput(es[i]) <==>
      (es[i].Output? && es[i].result == Data && !(es[i].toMessage && es[i].source.end == Out));
  }

  lemma WaitShown(a: Action)
    requires a.freed == 0 && a.dialog == Shown && a.output
    ensures Wait(a).freed == 0 && Wait(a).dialog == Shown
  {
  }

  lemma StillShown(a: Action, e: Event)
    requires Good(a) && a.output && Happens(a, e) && !e.CloseDialog?
    ensures Reaches(a, e) && Step(a, e).freed == 0 && Step(a, e).dialog == Shown
  {
    StepGood(a, e);
    match e
    case Exit(i, tag) =>
      ClosePipesIs(Remove(a, Some(tag)), a.list[i]);
      var b := ClosePipes(Remove(a, Some(tag)), a.list[i]);
      hide Wait, ClosePipes;
      WaitShown(b.(list := a.list[i := a.list[i].(running := false)], nb := b.nb - 1));
    case Output(i, tag, fd, r, toMessage) => ReadShown(a, i, fd, r, toMessage);
    case Send =>
    case Input(tag) =>
  }

  lemma ReadShown(a: Action, i: nat, fd: Fd, r: Result, toMessage: bool)
    requires i < |a.list| && a.freed == 0 && a.dialog == Shown && a.output
    ensures var b := CatchOutput(a, i, fd, r, toMessage); b.freed == 0 && b.dialog == Shown
  {
    hide Wait;
    var c := a.list[i];
    WaitShown(SetChild(a, i, c.(newOut := true)));
    WaitShown(SetChild(Close(Remove(a, c.tagOut), c.chldOut), i, c.(tagOut := None, chldOut := None)));
    WaitShown(SetChild(Close(Remove(a, c.tagErr), c.chldErr), i, c.(tagErr := None, chldErr := None)));
    WaitShown(a);
  }

  // ---------- the start ----------

  /** What has been launched: of each child both outputs are held, and the input just if the user is to
      write to it or the message's text was to be piped and there is none; what is not held is closed.
      The dialog takes input if the user is to write to the only child, and there is no output yet. */
  lemma LaunchHolds(k: ActionChildren.Kind, hasText: bool, single: bool, forks: seq<bool>)
    requires !(k.pipeIn && k.userIn) && (!single ==> |forks| <= 1)
    ensures var a := Launch(k, hasText, single, forks); var fs := if k.isAsync then [] else forks;
      && !a.output && !SomeNew(a.list)
      && a.freed == (if Started(fs) == 0 then 1 else 0) && |a.list| == a.forked == a.nb == Started(fs)
      && a.openIn == a.inputSensitive == (k.userIn && (!single || |forks| == 1))
      && forall i: nat | i < |a.list| :: var c := a.list[i];
           && c.running && c.chldOut == Some(Fd(i, Out)) && c.chldErr == Some(Fd(i, Err))
           && c.chldIn == (if k.userIn || (k.pipeIn && !hasText) then Some(Fd(i, In)) else None)
           && Count(a.closes, Fd(i, In)) == (if k.userIn || (k.pipeIn && !hasText) then 0 else 1)
           && Count(a.closes, Fd(i, Out)) == Count(a.closes, Fd(i, Err)) == 0
  {
    hide Launch, ForkAll, WatchAll, Started;
    var openIn := k.userIn && (!single || |forks| == 1);
    var fs := if k.isAsync then [] else forks;
    LaunchIs(k, hasText, single, forks);
    assert Forking(Blank(openIn), k, hasText, openIn);
    ForkAllSteps(Blank(openIn), k, hasText, fs, openIn);
    var b := ForkAll(Blank(openIn), k, hasText, fs);
    if b.list != [] {
      var c := b.(initialNb := b.nb);
      StatusNone(c);
      WatchAllIs(c, 0);
    }
    ForkedFresh(b, k, hasText, openIn);
  }

  /** A child is started for each command that could be. */
  lemma {:induction false} StartedMeans(a: seq<bool>, b: seq<bool>)
    ensures Started(a + b) == Started(a) + Started(b)
    ensures Started([]) == 0 && Started([true]) == 1 && Started([false]) == 0
    decreases |a|
  {
    if a == [] {
      assert a + b == b;
    } else {
      assert (a + b)[0] == a[0] && (a + b)[1..] == a[1..] + b;
      StartedMeans(a[1..], b);
    }
  }

  /** What matters here of an action in order, by its first and last character. */
  lemma KindMeans(s: string)
    requires TypeOf(s).Flags? && 'a' !in Directives(s)
    ensures s != "" && ActionChildren.KindOf(TypeOf(s).bits) ==
      ActionChildren.Kind(s[0] == '|', s[0] in {'>', '*'}, s[|s| - 1] == '&')
  {
    TypeMeans(s);
  }

  lemma StatusNone(a: Action)
    requires |a.list| == a.forked
    ensures StatusWatched(a, 0) == a
  {
    assert StatusWatched(a, 0).sources == a.sources;
  }

  lemma ForkedFresh(a: Action, k: ActionChildren.Kind, hasText: bool, openIn: bool)
    requires Forking(a, k, hasText, openIn)
    ensures !SomeNew(a.list)
    ensures forall i: nat | i < |a.list| ::
      && a.list[i] == NewChild(i, k, hasText)
      && Count(a.closes, Fd(i, In)) == (if KeepsIn(k, hasText) then 0 else 1)
      && Count(a.closes, Fd(i, Out)) == Count(a.closes, Fd(i, Err)) == 0
  {
    hide Count, KeepsIn;
    forall i: nat | i < |a.list|
      ensures a.list[i] == NewChild(i, k, hasText)
    {
    }
  }
}
