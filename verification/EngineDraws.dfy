/** Which tab of a window draws: what each step of a run makes of it, by what the engine reports. */
module EngineDraws {
  import opened EngineStates
  import opened EngineRuns
  import opened Histories
  import opened Sizes
  import opened Wrappers

  /** The engine reports that the tab draws. */
  predicate Draws(engine: EngineState, tab: nat) {
    tab in Reported(engine) && Reported(engine)[tab].active
  }

  ghost predicate SameTabDraws(engine: EngineState, next: EngineState) {
    forall tab :: Draws(next, tab) <==> Draws(engine, tab)
  }

  /** In the window the tab draws alone, and in the others nothing changes. */
  predicate DrawsAlone(engine: EngineState, next: EngineState, window: int, tab: nat) {
    (forall other :: other in next.tabs && next.tabs[other].window == window ==> (Draws(next, other) <==> other == tab))
    && forall other :: other in next.tabs && next.tabs[other].window != window ==>
      (Draws(next, other) <==> Draws(engine, other))
  }

  lemma OneMore(run: seq<Step>, step: Step)
    ensures After(run + [step]) == Next(After(run), step)
  {
    assert (run + [step])[..|run|] == run;
  }

  lemma ActivatedIs(engine: EngineState, tab: nat)
    requires tab in engine.tabs && engine.tabs[tab].window in engine.windows
    ensures DrawsAlone(engine, Activated(engine, tab), engine.tabs[tab].window, tab)
  {
  }

  /** An activated tab draws alone. */
  lemma ActivatedDraws(run: seq<Step>, tab: nat)
    requires FreshIds(run) && tab in After(run).engine.tabs
    requires After(run).engine.tabs[tab].window in After(run).engine.windows
    ensures DrawsAlone(After(run).engine, After(run + [Activate(tab)]).engine, After(run).engine.tabs[tab].window, tab)
  {
    OneMore(run, Activate(tab));
    ActivatedIs(After(run).engine, tab);
  }

  // ----- A tab closes -----

  /** The tab is the last of its window. */
  predicate IsLast(tabs: map<nat, Tab>, window: int, tab: nat) {
    tab in tabs && tabs[tab].window == window
    && forall other :: other in tabs && tabs[other].window == window ==> other <= tab
  }

  /** What the windows know after a tab closed, by whether it drew. */
  lemma ActiveAfterClose(engine: EngineState, closed: nat)
    requires closed in engine.tabs && WindowsSound(engine.windows, engine.tabs)
    ensures
      var left, window := engine.tabs - {closed}, engine.tabs[closed].window;
      var next := BrowserClosed(engine, closed);
      next.tabs == left
      && forall tab :: tab in left ==>
        (Draws(next, tab) <==>
          if left[tab].window == window && Draws(engine, closed) then NextActive(left, engine.tabs[closed]) == Some(tab)
          else Draws(engine, tab))
  {
  }

  lemma GreatestIs(s: set<nat>, x: nat)
    requires x in s
    ensures Greatest(s) == Some(x) <==> forall y :: y in s ==> y <= x
  {
    var most := Greatest(s);
    assert IsGreatest(most, s);
  }

  lemma NextActiveIs(left: map<nat, Tab>, closed: Tab, tab: nat)
    requires tab in left && left[tab].window == closed.window
    ensures
      (closed.opener.Some? && closed.opener.value in left && left[closed.opener.value].window == closed.window ==>
        (NextActive(left, closed) == Some(tab) <==> tab == closed.opener.value))
      && (!(closed.opener.Some? && closed.opener.value in left && left[closed.opener.value].window == closed.window) ==>
        (NextActive(left, closed) == Some(tab) <==> IsLast(left, closed.window, tab)))
  {
    var own := TabsOf(left, closed.window);
    assert tab in own && forall other :: other in left && left[other].window == closed.window <==> other in own;
    GreatestIs(own, tab);
  }

  /**
   When the tab that draws closes, its opener draws next if it is still there, and else the last tab
   of the window. When another tab closes, the same tab draws on.
   */
  lemma ClosingHandsOver(run: seq<Step>, closed: nat)
    requires FreshIds(run) && !After(run).engine.quitting && closed in After(run).engine.tabs
    ensures
      var engine, next := After(run).engine, After(run + [Close(closed)]).engine;
      var was := engine.tabs[closed];
      forall tab :: tab in next.tabs ==>
        (Draws(next, tab) <==>
          if next.tabs[tab].window != was.window || !Draws(engine, closed) then Draws(engine, tab)
          else if was.opener.Some? && was.opener.value in next.tabs then tab == was.opener.value
          else IsLast(next.tabs, was.window, tab))
  {
    OneMore(run, Close(closed));
    RunsAreSound(run);
    var engine, next := After(run).engine, After(run + [Close(closed)]).engine;
    ActiveAfterClose(engine, closed);
    var was := engine.tabs[closed];
    assert was.opener.Some? && was.opener.value in next.tabs ==> next.tabs[was.opener.value].window == was.window;
    forall tab | tab in next.tabs && next.tabs[tab].window == was.window {
      NextActiveIs(next.tabs, was, tab);
    }
  }

  // ----- Other steps -----

  lemma OpenKeepsDrawing(system: System, window: int)
    requires Known(system) && (window !in system.engine.windows ==> window !in system.windows)
    ensures SameTabDraws(system.engine, WindowOpened(system.engine, window))
  {
    forall id | id in system.engine.tabs ensures TabKnown(system, id) {
    }
  }

  lemma WantedKeepsDrawing(engine: EngineState, window: int)
    ensures SameTabDraws(engine, Wanted(engine, window))
  {
  }

  predicate HasNoTab(tabs: map<nat, Tab>, window: int) {
    forall tab :: tab in tabs ==> tabs[tab].window != window
  }

  lemma NoTabs(tabs: map<nat, Tab>, window: int)
    ensures TabsOf(tabs, window) == {} <==> HasNoTab(tabs, window)
  {
    forall tab | tab in tabs && tabs[tab].window == window ensures tab in TabsOf(tabs, window) {
    }
  }

  lemma LosingAWindowKeepsDrawing(engine: EngineState, window: int)
    requires HasNoTab(engine.tabs, window)
    ensures SameTabDraws(engine, engine.(windows := engine.windows - {window}))
  {
  }

  lemma ClosingKeepsDrawing(engine: EngineState, window: int)
    requires window in engine.windows
    ensures
      var closing := engine.windows[window].(closing := true);
      SameTabDraws(engine, engine.(windows := engine.windows[window := closing]))
  {
  }

  lemma CloseWindowKeepsDrawing(engine: EngineState, window: int)
    ensures SameTabDraws(engine, WindowClosed(engine, window))
  {
    NoTabs(engine.tabs, window);
    if window in engine.windows {
      ClosingKeepsDrawing(engine, window);
      if HasNoTab(engine.tabs, window) {
        LosingAWindowKeepsDrawing(engine, window);
      }
    }
  }

  lemma CommandKeepsDrawing(system: System, step: Step)
    requires Known(system) && HasFreshId(system, step)
    requires step.OpenWindow? || step.NewTab? || step.Popup? || step.CloseWindow?
    ensures SameTabDraws(system.engine, EngineAfter(system.engine, system.making, step))
  {
    match step
    case OpenWindow(window) => OpenKeepsDrawing(system, window);
    case NewTab(window, _) => WantedKeepsDrawing(system.engine, window);
    case Popup(opener, _) =>
      if opener in system.engine.tabs {
        WantedKeepsDrawing(system.engine, system.engine.tabs[opener].window);
      }
    case CloseWindow(window) => CloseWindowKeepsDrawing(system.engine, window);
  }

  lemma TabEventKeepsDrawing(engine: EngineState, making: seq<Origin>, step: Step)
    requires step.Learn? || step.OpenDialog? || step.TakeDialog? || step.Frame?
    ensures SameTabDraws(engine, EngineAfter(engine, making, step))
  {
    TabStepKeepsPlaces(engine, making, step);
    TabEventKeepsAll(engine, making, step);
  }

  /** The windows are the same, and so are the ids of the tabs. */
  predicate SameWindows(engine: EngineState, next: EngineState) {
    next.windows == engine.windows && next.tabs.Keys == engine.tabs.Keys
  }

  lemma LearnKeepsAll(engine: EngineState, browser: nat, target: string)
    ensures SameWindows(engine, TargetKnown(engine, browser, target))
  {
  }

  lemma DialogKeepsAll(engine: EngineState, tab: nat)
    ensures SameWindows(engine, DialogShown(engine, tab)) && SameWindows(engine, DialogAnswered(engine, tab))
  {
  }

  lemma TabEventKeepsAll(engine: EngineState, making: seq<Origin>, step: Step)
    requires step.Learn? || step.OpenDialog? || step.TakeDialog? || step.Frame?
    ensures SameWindows(engine, EngineAfter(engine, making, step))
  {
    match step
    case Learn(browser, target) => LearnKeepsAll(engine, browser, target);
    case OpenDialog(tab) => DialogKeepsAll(engine, tab);
    case TakeDialog(tab) => DialogKeepsAll(engine, tab);
    case Frame(tab, frame) =>
  }

  /** Nothing but activating, making and closing a tab changes which tabs draw. */
  lemma OthersKeepDrawing(run: seq<Step>, step: Step)
    requires FreshIds(run) && HasFreshId(After(run), step) && !After(run).engine.quitting
    requires !step.Activate? && !step.Make? && !step.Close?
    ensures SameTabDraws(After(run).engine, After(run + [step]).engine)
  {
    OneMore(run, step);
    RunsAreSound(run);
    var system := After(run);
    if step.OpenWindow? || step.NewTab? || step.Popup? || step.CloseWindow? {
      CommandKeepsDrawing(system, step);
    } else if step.Learn? || step.OpenDialog? || step.TakeDialog? || step.Frame? {
      TabEventKeepsDrawing(system.engine, system.making, step);
    } else {
      WindowsUntouched(system.engine, system.making, step);
    }
  }

  // ----- Open windows, and the tab that they wait for -----

  predicate OpensNow(engine: EngineState, step: Step, window: int) {
    step == OpenWindow(window) && !engine.quitting && window !in engine.windows
  }

  /** A tab is asked for that becomes active: the first one, a new one, or a popup in the foreground. */
  predicate WantsNow(engine: EngineState, step: Step, window: int) {
    OpensNow(engine, step, window)
    || (IsOpen(engine, window) &&
      ((step.NewTab? && step.window == window)
      || (step.Popup? && !step.background && step.opener in engine.tabs && engine.tabs[step.opener].window == window)))
  }

  /** A tab is made in the window. */
  predicate MakesNow(system: System, step: Step, window: int) {
    step.Make? && step.n < |system.making| && system.making[step.n].TabOrigin?
    && system.making[step.n].window == window && !system.engine.quitting
  }

  ghost function OpensIn(run: seq<Step>, window: int): nat -> bool {
    (n: nat) => n < |run| && OpensNow(After(run[..n]).engine, run[n], window)
  }

  function ClosesIn(run: seq<Step>, window: int): nat -> bool {
    (n: nat) => n < |run| && run[n] == CloseWindow(window)
  }

  ghost function WantsIn(run: seq<Step>, window: int): nat -> bool {
    (n: nat) => n < |run| && WantsNow(After(run[..n]).engine, run[n], window)
  }

  ghost function MakesIn(run: seq<Step>, window: int): nat -> bool {
    (n: nat) => n < |run| && MakesNow(After(run[..n]), run[n], window)
  }

  lemma RunUpTo(run: seq<Step>, n: nat)
    requires n < |run|
    ensures After(run[..n + 1]) == Next(After(run[..n]), run[n])
  {
    assert run[..n + 1][..n] == run[..n];
  }

  predicate WantsTab(engine: EngineState, window: int) {
    window in engine.windows && engine.windows[window].wanted
  }

  /** What one step makes of a window: whether it is open, and whether it waits for a tab. */
  predicate WindowStep(system: System, next: EngineState, step: Step, window: int) {
    (IsOpen(next, window) <==>
      OpensNow(system.engine, step, window) || (IsOpen(system.engine, window) && step != CloseWindow(window)))
    && (IsOpen(next, window) ==>
      (WantsTab(next, window) <==>
        WantsNow(system.engine, step, window)
        || (WantsTab(system.engine, window) && !MakesNow(system, step, window))))
  }

  lemma OpeningSteps(system: System, step: Step, window: int)
    requires step.OpenWindow? || step.NewTab?
    ensures WindowStep(system, EngineAfter(system.engine, system.making, step), step, window)
  {
  }

  lemma PopupSteps(system: System, step: Step, window: int)
    requires step.Popup?
    ensures WindowStep(system, EngineAfter(system.engine, system.making, step), step, window)
  {
  }

  lemma CloseWindowSteps(system: System, of: int, window: int)
    ensures WindowStep(system, WindowClosed(system.engine, of), CloseWindow(of), window)
  {
  }

  lemma ActivateSteps(system: System, tab: nat, window: int)
    ensures WindowStep(system, Activated(system.engine, tab), Activate(tab), window)
  {
  }

  lemma CommandSteps(system: System, step: Step, window: int)
    requires IsCommand(step)
    ensures WindowStep(system, EngineAfter(system.engine, system.making, step), step, window)
  {
    if step.Popup? {
      PopupSteps(system, step, window);
    } else if step.CloseWindow? {
      CloseWindowSteps(system, step.window, window);
    } else if step.Activate? {
      ActivateSteps(system, step.tab, window);
    } else {
      OpeningSteps(system, step, window);
    }
  }

  lemma MakeSteps(system: System, step: Step, window: int)
    requires step.Make?
    ensures WindowStep(system, EngineAfter(system.engine, system.making, step), step, window)
  {
  }

  lemma CloseSteps(system: System, step: Step, window: int)
    requires step.Close?
    ensures WindowStep(system, EngineAfter(system.engine, system.making, step), step, window)
  {
  }

  lemma OtherSteps(system: System, step: Step, window: int)
    requires !IsCommand(step) && !step.Make? && !step.Close?
    ensures WindowStep(system, EngineAfter(system.engine, system.making, step), step, window)
  {
    if step.Learn? || step.OpenDialog? || step.TakeDialog? || step.Frame? {
      TabEventKeepsAll(system.engine, system.making, step);
    } else {
      WindowsUntouched(system.engine, system.making, step);
    }
  }

  lemma EachStep(system: System, step: Step, window: int)
    ensures WindowStep(system, Next(system, step).engine, step, window)
  {
    if IsCommand(step) {
      CommandSteps(system, step, window);
    } else if step.Make? {
      MakeSteps(system, step, window);
    } else if step.Close? {
      CloseSteps(system, step, window);
    } else {
      OtherSteps(system, step, window);
    }
  }

  /**
   A window is open exactly since it opened until it is told to close, and waits for a tab exactly
   since one was asked for that becomes active, until one is made there.
   */
  lemma {:induction false} WindowsExactly(run: seq<Step>, window: int, n: nat)
    requires n <= |run|
    ensures
      var engine := After(run[..n]).engine;
      (IsOpen(engine, window) <==> Lasts(OpensIn(run, window), ClosesIn(run, window), n))
      && (IsOpen(engine, window) ==>
        (WantsTab(engine, window) <==> Lasts(WantsIn(run, window), MakesIn(run, window), n)))
  {
    if n == 0 {
      assert run[..0] == [];
    } else {
      WindowsExactly(run, window, n - 1);
      RunUpTo(run, n - 1);
      EachStep(After(run[..n - 1]), run[n - 1], window);
      LastsOneMore(OpensIn(run, window), ClosesIn(run, window), n - 1);
      LastsOneMore(WantsIn(run, window), MakesIn(run, window), n - 1);
    }
  }

  // ----- A tab is made -----

  /** The tab is what its origin says. It draws alone, or the tabs that drew draw on. */
  predicate IsMade(engine: EngineState, next: EngineState, id: nat, origin: Origin, draws: bool)
    requires origin.TabOrigin?
  {
    next.tabs == engine.tabs[id := Tab(origin.window, origin.opener, origin.ask, false, None)]
    && if draws then DrawsAlone(engine, next, origin.window, id)
      else forall tab :: tab in next.tabs ==> (Draws(next, tab) <==> tab != id && Draws(engine, tab))
  }

  lemma MadeIs(engine: EngineState, id: nat, origin: Origin)
    requires origin.TabOrigin? && id !in engine.tabs && WindowsSound(engine.windows, engine.tabs) && !engine.quitting
    ensures
      IsMade(
        engine, Created(engine, id, origin), id, origin,
        IsOpen(engine, origin.window)
        && (WantsTab(engine, origin.window) || TabsOf(engine.tabs, origin.window) == {}))
  {
    if origin.window in engine.windows {
      assert WindowSound(engine.windows[origin.window], TabsOf(engine.tabs, origin.window));
    }
  }

  lemma IsNew(system: System, id: nat)
    requires Known(system) && id !in system.browsers
    ensures id !in system.engine.tabs
  {
    forall other | other in system.engine.tabs ensures other in system.browsers {
      assert TabKnown(system, other);
    }
  }

  lemma MakeIs(run: seq<Step>, n: nat, id: nat)
    requires n < |After(run).making|
    ensures After(run + [Make(n, id)]).engine == Created(After(run).engine, id, After(run).making[n])
  {
    OneMore(run, Make(n, id));
  }

  /** A new tab of the window draws: the window is open, and has no tab yet or waits for one. */
  ghost predicate DrawsThen(run: seq<Step>, window: int) {
    Lasts(OpensIn(run, window), ClosesIn(run, window), |run|)
    && (Lasts(WantsIn(run, window), MakesIn(run, window), |run|) || HasNoTab(After(run).engine.tabs, window))
  }

  lemma DrawsThenIs(run: seq<Step>, window: int)
    ensures
      var engine := After(run).engine;
      DrawsThen(run, window) <==>
        IsOpen(engine, window) && (WantsTab(engine, window) || TabsOf(engine.tabs, window) == {})
  {
    WindowsExactly(run, window, |run|);
    assert run[..|run|] == run;
    NoTabs(After(run).engine.tabs, window);
  }

  /**
   A new tab is what its origin says, and it draws exactly when its window is open and has no tab yet,
   or waits for one.
   */
  lemma MadeTabDraws(run: seq<Step>, n: nat, id: nat)
    requires FreshIds(run) && id !in After(run).browsers && !After(run).engine.quitting
    requires n < |After(run).making| && After(run).making[n].TabOrigin?
    ensures
      var origin := After(run).making[n];
      IsMade(After(run).engine, After(run + [Make(n, id)]).engine, id, origin, DrawsThen(run, origin.window))
  {
    RunsAreSound(run);
    IsNew(After(run), id);
    MakeIs(run, n, id);
    DrawsThenIs(run, After(run).making[n].window);
    MadeIs(After(run).engine, id, After(run).making[n]);
  }
}
