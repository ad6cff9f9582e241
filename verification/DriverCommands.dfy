/** What becomes of each command of a driver, by what the driver has then: it goes out, shows a tab, opens one, or is answered. */
module DriverCommands {
  import opened Wrappers
  import opened DriverMessages
  import opened DriverViews
  import opened DriverRuns
  import opened DriverReach
  import opened DriverProvenance

  /** What would end the browser, or reaches past the windows. */
  const ENDING: set<Method> :=
    {CloseBrowser, CrashBrowser, CrashGpuProcess, AttachToBrowserTarget, CreateBrowserContext, DisposeBrowserContext}

  /** What the host does itself. */
  const DONE_HERE: set<Method> := {SetAutoAttach, SetDownloadBehavior}

  /** The target and the session of a command's parameters are the driver's. */
  ghost predicate IsAboutOwn(run: seq<Step>, window: int, command: Command, place: Placement) {
    (command.target.Some? ==> Owns(run, window, command.target.value, place))
    && (command.inSession.Some? ==> IsOpen(run, window, command.inSession.value))
  }

  predicate NeedsAnswer(command: Command) {
    command.session.None?
    && (command.verb.GetTargets? || (command.verb.AttachToTarget? && command.target.Some?))
  }

  /** The commands that go to the browser. */
  ghost predicate GoesOut(run: seq<Step>, window: int, command: Command, place: Placement) {
    if command.session.Some? then
      IsOpen(run, window, command.session.value)
      && (command.verb.BringToFront?
        || (command.verb !in ENDING && !command.verb.HandleDialog? && !command.verb.CreateTarget?
          && IsAboutOwn(run, window, command, place)))
    else
      command.verb !in ENDING && command.verb !in DONE_HERE && !command.verb.CreateTarget?
      && IsAboutOwn(run, window, command, place)
      && (NeedsAnswer(command) ==> |After(run, window).asked| < 1024)
  }

  lemma StrangeExactly(run: seq<Step>, window: int, command: Command, place: Placement)
    ensures Strange(After(run, window), command, place).None? <==> IsAboutOwn(run, window, command, place)
    ensures Strange(After(run, window), command, place) == Some(NoTarget)
      <==> command.target.Some? && !Owns(run, window, command.target.value, place)
  {
    if command.target.Some? {
      OwnsExactly(run, window, command.target.value, place);
    }
    if command.inSession.Some? {
      OpenExactly(run, window, command.inSession.value);
    }
  }

  lemma TablesAgree(verb: Method)
    ensures Refused(verb) <==> verb in ENDING
    ensures Answered(verb) <==> verb in DONE_HERE
  {
  }

  lemma SessionCommandsGo(run: seq<Step>, window: int, command: Command, place: Placement)
    requires command.session.Some?
    ensures GoesToBrowser(After(run, window), command, place) <==> GoesOut(run, window, command, place)
  {
    TablesAgree(command.verb);
    StrangeExactly(run, window, command, place);
    OpenExactly(run, window, command.session.value);
  }

  lemma BrowserCommandsGo(run: seq<Step>, window: int, command: Command, place: Placement)
    requires command.session.None?
    ensures GoesToBrowser(After(run, window), command, place) <==> GoesOut(run, window, command, place)
  {
    TablesAgree(command.verb);
    StrangeExactly(run, window, command, place);
    ViewsAreBounded(run, window);
  }

  /** A command goes to the browser exactly when it is one of those. */
  lemma CommandsGoExactly(run: seq<Step>, window: int, command: Command, place: Placement)
    ensures GoesToBrowser(After(run, window), command, place) <==> GoesOut(run, window, command, place)
  {
    if command.session.Some? {
      SessionCommandsGo(run, window, command, place);
    } else {
      BrowserCommandsGo(run, window, command, place);
    }
  }

  /** It also shows a tab exactly when it brings its session's page to the front or activates a target. */
  lemma CommandsShowExactly(run: seq<Step>, window: int, command: Command, place: Placement, target: string)
    ensures AskOf(After(run, window), command, place) == Show(target) <==>
      GoesOut(run, window, command, place)
      && if command.session.Some? then command.verb.BringToFront? && IsOpenFor(run, window, command.session.value, target)
        else command.verb.ActivateTarget? && command.target == Some(target)
  {
    CommandsGoExactly(run, window, command, place);
    if command.session.Some? {
      OpenForExactly(run, window, command.session.value, target);
    }
  }

  predicate OpensTab(command: Command) {
    command.session.None? && command.verb.CreateTarget?
  }

  /** A command for a new tab opens one at its address, and is refused while too many open. */
  lemma NewTabsOpen(run: seq<Step>, window: int, command: Command, place: Placement, full: bool)
    requires OpensTab(command)
    ensures
      var id := if command.id.Some? then command.id.value else 0;
      var address := if command.address.Some? && command.address.value != "" then command.address.value else "about:blank";
      AskOf(After(run, window), command, place) == Open(id, address)
      && Said(After(run, window), Asks(Some(command), place, full))
        == if full then [Answer(Failure(id, None, TooManyOpen))] else []
  {
  }

  /** A dialog of an open session's page is answered in the host. */
  lemma DialogsAreAnswered(run: seq<Step>, window: int, command: Command, place: Placement, target: string)
    requires command.session.Some? && command.verb.HandleDialog?
    requires IsOpenFor(run, window, command.session.value, target)
    ensures
      var id := if command.id.Some? then command.id.value else 0;
      AskOf(After(run, window), command, place)
      == Dialog(target, command.accept == Some(true), command.text, Done(id, command.session))
  {
    OpenForExactly(run, window, command.session.value, target);
  }

  /** What the driver is answered to a command that does not go out. */
  ghost function ReplyTo(run: seq<Step>, window: int, command: Command, place: Placement): DriverMessages.Answer {
    var id := if command.id.Some? then command.id.value else 0;
    if command.session.Some? && !IsOpen(run, window, command.session.value) then Failure(id, command.session, NoSession)
    else if command.session.Some? && command.verb.HandleDialog? then Done(id, command.session)
    else if command.verb in ENDING || command.verb.CreateTarget? then Failure(id, command.session, KeptForEveryWindow)
    else if command.verb in DONE_HERE && command.session.None? then Done(id, None)
    else if command.target.Some? && !Owns(run, window, command.target.value, place) then
      Failure(id, command.session, NoTarget)
    else if command.inSession.Some? && !IsOpen(run, window, command.inSession.value) then
      Failure(id, command.session, NoSession)
    else Failure(id, None, TooManyWait)
  }

  /** Every other command has exactly one answer at once, and one that goes out has none yet. */
  lemma CommandsAreAnsweredOnce(run: seq<Step>, window: int, command: Command, place: Placement, full: bool)
    requires !OpensTab(command)
    ensures Said(After(run, window), Asks(Some(command), place, full))
      == if GoesOut(run, window, command, place) then [] else [Answer(ReplyTo(run, window, command, place))]
  {
    CommandsGoExactly(run, window, command, place);
    TablesAgree(command.verb);
    StrangeExactly(run, window, command, place);
    if command.session.Some? {
      OpenExactly(run, window, command.session.value);
    }
  }

  /** A tab that opened, or did not, is the answer to its command, before the news that it lets go. */
  lemma OpeningsAreAnsweredFirst(view: ViewState, id: nat, target: Option<string>, place: Placement, now: nat)
    ensures
      var said := Said(view, Opens(id, target, place, now));
      said != []
      && said[0] == Answer(if target.Some? then NewTab(id, target.value) else Failure(id, None, TabDidNotOpen))
      && forall i :: 0 < i < |said| ==> said[i].News?
  {
  }
}
