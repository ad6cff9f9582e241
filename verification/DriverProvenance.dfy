/** Where the sessions and targets of a driver come from, and what its commands may name. */
module DriverProvenance {
  import opened Wrappers
  import opened DriverMessages
  import opened DriverViews
  import opened DriverRuns

  /** The browser attached a session to a target. */
  predicate Attaches(message: Message, session: string, target: string) {
    message.event == Some(AttachedToTarget) && message.child == Some(session) && message.info.target == Some(target)
  }

  /** The driver asked for a session of a target that was its own then, and the command went out. */
  predicate AskedFor(run: seq<Step>, window: int, n: nat, id: nat, target: string) {
    n < |run| && run[n].Asks? && run[n].command.Some? &&
    var command, view := run[n].command.value, After(run[..n], window);
    Expected(command) == Some(Attach(target)) && IdOf(command) == id && IsOurs(view, target, run[n].place)
    && AskOf(view, command, run[n].place) == Pass
  }

  /** The browser started a session inside one of the driver's. */
  predicate StartsInside(run: seq<Step>, window: int, n: nat, session: string, target: string) {
    n < |run| && run[n].Tells? && run[n].message.Some? &&
    var message := run[n].message.value;
    Attaches(message, session, target)
    && message.session.Some? && message.session.value in After(run[..n], window).sessions
  }

  predicate IsAnswerFor(message: Message, session: string) {
    message.session.None? && message.event.None? && message.id.Some? && message.attached == Some(session)
  }

  /** A turn that gives the driver a session: for its own target, for its own command, or inside its own session. */
  ghost predicate Grants(run: seq<Step>, window: int, n: nat, session: string, target: string) {
    StartsInside(run, window, n, session, target)
    || (n < |run| && run[n].Tells? && run[n].message.Some? &&
      var message := run[n].message.value;
      (message.session.None? && Attaches(message, session, target)
        && IsOurs(After(run[..n], window), target, run[n].place))
      || (IsAnswerFor(message, session)
        && exists m: nat :: m < n && AskedFor(run, window, m, message.id.value, target)))
  }

  ghost predicate Granted(run: seq<Step>, window: int, session: string, target: string) {
    exists n: nat :: Grants(run, window, n, session, target)
  }

  ghost predicate WasAsked(run: seq<Step>, window: int, id: nat, target: string) {
    exists n: nat :: AskedFor(run, window, n, id, target)
  }

  lemma EarlierRuns(run: seq<Step>, step: Step)
    ensures forall n: nat :: n <= |run| ==> (run + [step])[..n] == run[..n]
  {
  }

  lemma GrantsStay(run: seq<Step>, step: Step, window: int, n: nat, session: string, target: string)
    requires Grants(run, window, n, session, target)
    ensures Grants(run + [step], window, n, session, target)
  {
    EarlierRuns(run, step);
    var message := run[n].message.value;
    if !StartsInside(run, window, n, session, target) && IsAnswerFor(message, session) {
      var m: nat :| m < n && AskedFor(run, window, m, message.id.value, target);
      assert AskedFor(run + [step], window, m, message.id.value, target);
    }
  }

  lemma AskedStay(run: seq<Step>, step: Step, window: int, id: nat, target: string)
    requires WasAsked(run, window, id, target)
    ensures WasAsked(run + [step], window, id, target)
  {
    EarlierRuns(run, step);
    var n: nat :| AskedFor(run, window, n, id, target);
    assert AskedFor(run + [step], window, n, id, target);
  }

  ghost predicate AllGranted(run: seq<Step>, window: int) {
    var view := After(run, window);
    (forall session :: session in view.sessions ==> Granted(run, window, session, view.sessions[session]))
    && (forall id :: id in view.asked && view.asked[id].Attach? ==> WasAsked(run, window, id, view.asked[id].target))
  }

  lemma NewAskWasAsked(run: seq<Step>, step: Step, window: int, id: nat)
    requires step.Asks? && id in Next(After(run, window), step).asked
    requires
      var asked := Next(After(run, window), step).asked[id];
      asked.Attach? && !(id in After(run, window).asked && After(run, window).asked[id] == asked)
    ensures WasAsked(run + [step], window, id, Next(After(run, window), step).asked[id].target)
  {
    EarlierRuns(run, step);
    assert AskedFor(run + [step], window, |run|, id, Next(After(run, window), step).asked[id].target);
  }

  /** The three ways in which a message starts a session of the driver. */
  lemma NewSessionComes(view: ViewState, step: Step, session: string)
    requires step.Tells? && session in Next(view, step).sessions
    requires !(session in view.sessions && view.sessions[session] == Next(view, step).sessions[session])
    ensures step.message.Some?
    ensures
      var message, target := step.message.value, Next(view, step).sessions[session];
      if message.session.Some? then Attaches(message, session, target) && message.session.value in view.sessions
      else if message.event.Some? then Attaches(message, session, target) && IsOurs(view, target, step.place)
      else
        IsAnswerFor(message, session)
        && message.id.value in view.asked && view.asked[message.id.value] == Attach(target)
  {
  }

  lemma NewSessionIsGranted(run: seq<Step>, step: Step, window: int, session: string)
    requires AllGranted(run, window)
    requires step.Tells? && session in Next(After(run, window), step).sessions
    requires
      var view := After(run, window);
      !(session in view.sessions && view.sessions[session] == Next(view, step).sessions[session])
    ensures Granted(run + [step], window, session, Next(After(run, window), step).sessions[session])
  {
    var view, more := After(run, window), run + [step];
    var target := Next(view, step).sessions[session];
    NewSessionComes(view, step, session);
    EarlierRuns(run, step);
    if step.message.value.session.Some? {
      assert StartsInside(more, window, |run|, session, target);
    } else if step.message.value.event.None? {
      AnswerIsGranted(run, step, window, session, target);
    }
    assert Grants(more, window, |run|, session, target);
  }

  lemma AnswerIsGranted(run: seq<Step>, step: Step, window: int, session: string, target: string)
    requires AllGranted(run, window)
    requires step.Tells? && step.message.Some? && IsAnswerFor(step.message.value, session)
    requires
      var id, view := step.message.value.id.value, After(run, window);
      id in view.asked && view.asked[id] == Attach(target)
    ensures Grants(run + [step], window, |run|, session, target)
  {
    EarlierRuns(run, step);
    var id := step.message.value.id.value;
    var m: nat :| AskedFor(run, window, m, id, target);
    assert AskedFor(run + [step], window, m, id, target);
  }

  lemma GrantedStay(run: seq<Step>, step: Step, window: int, session: string, target: string)
    requires Granted(run, window, session, target)
    ensures Granted(run + [step], window, session, target)
  {
    var n: nat :| Grants(run, window, n, session, target);
    GrantsStay(run, step, window, n, session, target);
  }

  lemma OnlyTellsStartSessions(view: ViewState, step: Step)
    ensures !step.Tells? ==> Next(view, step).sessions == view.sessions
    ensures !step.Asks? ==> forall id :: id in Next(view, step).asked ==>
      id in view.asked && view.asked[id] == Next(view, step).asked[id]
  {
  }

  lemma StepIsGranted(run: seq<Step>, step: Step, window: int)
    requires AllGranted(run, window)
    ensures AllGranted(run + [step], window)
  {
    var view, more := After(run, window), run + [step];
    assert more[..|run|] == run;
    var next := Next(view, step);
    OnlyTellsStartSessions(view, step);
    forall session | session in next.sessions ensures Granted(more, window, session, next.sessions[session]) {
      if session in view.sessions && view.sessions[session] == next.sessions[session] {
        GrantedStay(run, step, window, session, next.sessions[session]);
      } else {
        NewSessionIsGranted(run, step, window, session);
      }
    }
    forall id | id in next.asked && next.asked[id].Attach? ensures WasAsked(more, window, id, next.asked[id].target) {
      if id in view.asked && view.asked[id] == next.asked[id] {
        AskedStay(run, step, window, id, next.asked[id].target);
      } else {
        NewAskWasAsked(run, step, window, id);
      }
    }
  }

  /** In every run, each session of a driver was granted to it for the target that it has. */
  lemma {:induction false} SessionsAreGranted(run: seq<Step>, window: int)
    ensures AllGranted(run, window)
  {
    if run == [] {
    } else {
      SessionsAreGranted(run[..|run| - 1], window);
      StepIsGranted(run[..|run| - 1], run[|run| - 1], window);
      assert run == run[..|run| - 1] + [run[|run| - 1]];
    }
  }

  // ----- Own targets -----

  /** What makes a target the driver's: a placement, a tab that it opened, or a session inside its own. */
  ghost predicate Root(run: seq<Step>, window: int, n: nat, target: string) {
    n < |run|
    && ((target in run[n].place && run[n].place[target] == window)
    || (run[n].Opens? && run[n].target == Some(target))
    || exists session :: StartsInside(run, window, n, session, target))
  }

  ghost predicate Rooted(run: seq<Step>, window: int, target: string) {
    exists n: nat :: Root(run, window, n, target)
  }

  lemma RootsStay(run: seq<Step>, step: Step, window: int, target: string)
    requires Rooted(run, window, target)
    ensures Rooted(run + [step], window, target)
  {
    EarlierRuns(run, step);
    var n: nat :| Root(run, window, n, target);
    if exists session :: StartsInside(run, window, n, session, target) {
      var session :| StartsInside(run, window, n, session, target);
      assert StartsInside(run + [step], window, n, session, target);
    }
    assert Root(run + [step], window, n, target);
  }

  ghost predicate AllRooted(run: seq<Step>, window: int) {
    var view := After(run, window);
    (forall target :: target in view.openedTabs ==> Rooted(run, window, target))
    && (forall target :: target in view.sessions.Values ==> Rooted(run, window, target))
    && forall id :: id in view.asked && view.asked[id].Attach? ==> Rooted(run, window, view.asked[id].target)
  }

  lemma OursIsRooted(run: seq<Step>, step: Step, window: int, target: string)
    requires AllRooted(run, window) && IsOurs(After(run, window), target, step.place)
    ensures Rooted(run + [step], window, target)
  {
    if Rooted(run, window, target) {
      RootsStay(run, step, window, target);
    } else {
      WindowStays(run, window);
      assert Root(run + [step], window, |run|, target);
    }
  }

  lemma StepKeepsWindow(view: ViewState, step: Step)
    ensures Next(view, step).window == view.window
  {
  }

  lemma {:induction false} WindowStays(run: seq<Step>, window: int)
    ensures After(run, window).window == window
  {
    if run == [] {
    } else {
      WindowStays(run[..|run| - 1], window);
      StepKeepsWindow(After(run[..|run| - 1], window), run[|run| - 1]);
    }
  }

  lemma NewSessionIsRooted(run: seq<Step>, step: Step, window: int, session: string)
    requires AllRooted(run, window) && step.Tells? && session in Next(After(run, window), step).sessions
    ensures Rooted(run + [step], window, Next(After(run, window), step).sessions[session])
  {
    var view := After(run, window);
    var target := Next(view, step).sessions[session];
    if session in view.sessions && view.sessions[session] == target {
      RootsStay(run, step, window, target);
    } else {
      NewSessionComes(view, step, session);
      var message := step.message.value;
      if message.session.Some? {
        EarlierRuns(run, step);
        assert StartsInside(run + [step], window, |run|, session, target);
        assert Root(run + [step], window, |run|, target);
      } else if message.event.Some? {
        OursIsRooted(run, step, window, target);
      } else {
        RootsStay(run, step, window, target);
      }
    }
  }

  lemma StepIsRooted(run: seq<Step>, step: Step, window: int)
    requires AllRooted(run, window)
    ensures AllRooted(run + [step], window)
  {
    var view, more := After(run, window), run + [step];
    assert more[..|run|] == run;
    var next := Next(view, step);
    OnlyTellsStartSessions(view, step);
    forall target | target in next.openedTabs ensures Rooted(more, window, target) {
      if target in view.openedTabs {
        RootsStay(run, step, window, target);
      } else {
        assert Root(more, window, |run|, target);
      }
    }
    forall target | target in next.sessions.Values ensures Rooted(more, window, target) {
      var session :| session in next.sessions && next.sessions[session] == target;
      if step.Tells? {
        NewSessionIsRooted(run, step, window, session);
      } else {
        RootsStay(run, step, window, target);
      }
    }
    forall id | id in next.asked && next.asked[id].Attach? ensures Rooted(more, window, next.asked[id].target) {
      if id in view.asked && view.asked[id] == next.asked[id] {
        RootsStay(run, step, window, next.asked[id].target);
      } else {
        OursIsRooted(run, step, window, next.asked[id].target);
      }
    }
  }

  lemma {:induction false} OwnTargetsAreRooted(run: seq<Step>, window: int)
    ensures AllRooted(run, window)
  {
    if run == [] {
    } else {
      OwnTargetsAreRooted(run[..|run| - 1], window);
      StepIsRooted(run[..|run| - 1], run[|run| - 1], window);
      assert run == run[..|run| - 1] + [run[|run| - 1]];
    }
  }

  // ----- Commands that go to the browser -----

  predicate GoesToBrowser(view: ViewState, command: Command, place: Placement) {
    var ask := AskOf(view, command, place);
    ask.Pass? || ask.Show?
  }

  predicate NamesOnlyOwn(view: ViewState, command: Command, place: Placement) {
    (command.session.Some? ==> command.session.value in view.sessions)
    && (command.target.Some? ==> IsOurs(view, command.target.value, place))
    && (command.inSession.Some? ==> command.inSession.value in view.sessions)
  }

  /** Bringing a page to the front from its own session. Its parameters are not looked at. */
  predicate BringsToFront(command: Command) {
    command.session.Some? && command.verb.BringToFront?
  }

  /**
   Every command that goes to the browser, other than bringing a page to the front from a session,
   names only sessions that the driver was granted and targets that are its own, and does nothing
   that would end the browser or change it for every window.
   */
  lemma PassingCommandsAreOwn(run: seq<Step>, window: int, command: Command, place: Placement)
    requires GoesToBrowser(After(run, window), command, place)
    ensures
      var view := After(run, window);
      !Refused(command.verb) && !command.verb.CreateTarget?
      && (command.session.None? ==> !Answered(command.verb))
      && (command.session.Some? ==>
        command.session.value in view.sessions
        && Granted(run, window, command.session.value, view.sessions[command.session.value]))
      && (!BringsToFront(command) ==>
        NamesOnlyOwn(view, command, place)
        && (command.target.Some? ==>
          Rooted(run + [Asks(Some(command), place, false)], window, command.target.value)))
  {
    SessionsAreGranted(run, window);
    OwnTargetsAreRooted(run, window);
    if !BringsToFront(command) && command.target.Some? {
      OursIsRooted(run, Asks(Some(command), place, false), window, command.target.value);
    }
  }

  /**
   A command that goes to the browser names only own targets and sessions, unless it brings a page to
   the front from a session while its parameters name a target or a session that is not the driver's.
   */
  lemma OnlyBringToFrontNamesOthers(view: ViewState, command: Command, place: Placement)
    requires GoesToBrowser(view, command, place)
    ensures NamesOnlyOwn(view, command, place) <==> !(BringsToFront(command) && Strange(view, command, place).Some?)
  {
  }

  const ATTACH := Command(Some(1), AttachToTarget, None, Some("own"), None, None, None, None)
  const ATTACHED := Message(Some(1), None, None, None, None, Info(None, false), Some("session"), None, "")
  const FRONT := Command(Some(2), BringToFront, Some("session"), Some("other"), None, None, None, None)
  const TWO_WINDOWS: Placement := map["own" := 1, "other" := 2]

  /** The driver of window 1 attaches to its page. */
  const ATTACH_RUN: seq<Step> := [Asks(Some(ATTACH), TWO_WINDOWS, false), Tells(Some(ATTACHED), TWO_WINDOWS, None, 0)]

  lemma AttachRunAttaches()
    ensures After(ATTACH_RUN, 1).sessions == map["session" := "own"] && After(ATTACH_RUN, 1).openedTabs == {}
  {
    assert ATTACH_RUN[..1][..0] == [];
    assert After(ATTACH_RUN[..1], 1) == Next(NewView(1), ATTACH_RUN[0]);
    assert Next(NewView(1), ATTACH_RUN[0]) == NewView(1).(asked := map[1 := Attach("own")]);
  }

  /** Then its command goes to the browser although it names a page of window 2. */
  lemma BringToFrontNamesAnother()
    ensures GoesToBrowser(After(ATTACH_RUN, 1), FRONT, TWO_WINDOWS)
    ensures !NamesOnlyOwn(After(ATTACH_RUN, 1), FRONT, TWO_WINDOWS)
  {
    AttachRunAttaches();
    WindowStays(ATTACH_RUN, 1);
    var sessions := After(ATTACH_RUN, 1).sessions;
    assert sessions.Values == {"own"};
    assert "other"[0] != "own"[1];
    assert "other" != "own";
  }
}
