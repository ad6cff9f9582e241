/** What the engine keeps over every interleaving of commands, popups and browsers that open and close. */
module EngineRuns {
  import opened EngineStates
  import opened Wrappers

  /** The engine, the browsers that are being made, and every browser and window there ever was. */
  datatype System = System(engine: EngineState, making: seq<Origin>, browsers: set<nat>, windows: set<int>)

  const START := System(NEW_ENGINE, [], {}, {})

  datatype Step =
    | OpenWindow(window: int)
    | NewTab(window: int, ask: Option<int>)
    | Popup(opener: nat, background: bool)
    | OpenPage(page: int)
    /** The browser of an origin exists now, or is never made. */
    | Make(n: nat, id: nat)
    | Fail(n: nat)
    | Activate(tab: nat)
    | Close(browser: nat)
    | CloseWindow(window: int)
    | ClosePage(page: int)
    | Learn(browser: nat, target: string)
    | OpenDialog(tab: nat)
    | TakeDialog(tab: nat)
    | Frame(tab: nat, frame: string)
    | Quit

  function Without(making: seq<Origin>, n: nat): seq<Origin>
    requires n < |making|
  {
    making[..n] + making[n + 1..]
  }

  /** The engine after a step. */
  ghost function EngineAfter(engine: EngineState, making: seq<Origin>, step: Step): EngineState {
    match step
    case OpenWindow(window) => WindowOpened(engine, window)
    case NewTab(window, _) => Wanted(engine, window)
    case Popup(opener, background) => PopupPlaced(engine, opener, background)
    case OpenPage(page) => PageAsked(engine, page)
    case Make(n, id) => if n < |making| then Created(engine, id, making[n]) else engine
    case Fail(n) => if n < |making| then OriginFailed(engine, making[n]) else engine
    case Activate(tab) => Activated(engine, tab)
    case Close(browser) => BrowserClosed(engine, browser)
    case CloseWindow(window) => WindowClosed(engine, window)
    case ClosePage(page) => PageClosed(engine, page)
    case Learn(browser, target) => TargetKnown(engine, browser, target)
    case OpenDialog(tab) => DialogShown(engine, tab)
    case TakeDialog(tab) => DialogAnswered(engine, tab)
    case Frame(tab, frame) => if tab in engine.tabs then FrameKnown(engine, tab, frame) else engine
    case Quit => engine.(quitting := true)
  }

  /** The browser that a step asks for, if any. */
  function AskedFor(engine: EngineState, step: Step): Option<Origin> {
    match step
    case OpenWindow(window) =>
      if !engine.quitting && window !in engine.windows then Some(TabOrigin(window, None, None)) else None
    case NewTab(window, ask) => if IsOpen(engine, window) then Some(TabOrigin(window, None, ask)) else None
    case Popup(opener, _) =>
      var window := PopupWindow(engine, opener);
      if window.Some? then Some(TabOrigin(window.value, Some(opener), None)) else None
    case OpenPage(page) => if engine.quitting then None else Some(PageOrigin(page))
    case _ => None
  }

  /** The browsers that are being made after a step. */
  function MakingAfter(engine: EngineState, making: seq<Origin>, step: Step): seq<Origin> {
    var asked := AskedFor(engine, step);
    if asked.Some? then making + [asked.value]
    else if (step.Make? || step.Fail?) && step.n < |making| then Without(making, step.n)
    else making
  }

  ghost function Next(system: System, step: Step): System {
    System(
      EngineAfter(system.engine, system.making, step),
      MakingAfter(system.engine, system.making, step),
      if step.Make? then system.browsers + {step.id} else system.browsers,
      if step.OpenWindow? then system.windows + {step.window} else system.windows)
  }

  ghost function After(run: seq<Step>): System {
    if run == [] then START else Next(After(run[..|run| - 1]), run[|run| - 1])
  }

  /** The browser gives no id twice, and the host none of its windows'. */
  predicate HasFreshId(system: System, step: Step) {
    (step.Make? ==> step.id !in system.browsers)
    && (step.OpenWindow? && step.window !in system.engine.windows ==> step.window !in system.windows)
  }

  ghost predicate FreshIds(run: seq<Step>) {
    forall n :: 0 <= n < |run| ==> HasFreshId(After(run[..n]), run[n])
  }

  // ----- Windows and their tabs -----

  /** A window has an active tab, one of its own, exactly when it has a tab. One that closes has a tab. */
  predicate WindowSound(known: Window, own: set<nat>) {
    (known.active.Some? ==> known.active.value in own)
    && (known.active.None? ==> own == {})
    && (known.closing ==> known.active.Some?)
  }

  predicate WindowsSound(windows: map<int, Window>, tabs: map<nat, Tab>) {
    forall window :: window in windows ==> WindowSound(windows[window], TabsOf(tabs, window))
  }

  /** A tab that a page opened is in the window of that page. */
  predicate OpenersSound(tabs: map<nat, Tab>) {
    forall id :: id in tabs && tabs[id].opener.Some? && tabs[id].opener.value in tabs ==>
      tabs[tabs[id].opener.value].window == tabs[id].window
  }

  predicate OriginSound(system: System, origin: Origin) {
    origin.TabOrigin? ==>
      origin.window in system.windows
      && (origin.opener.Some? ==>
        origin.opener.value in system.browsers
        && (origin.opener.value in system.engine.tabs ==>
          system.engine.tabs[origin.opener.value].window == origin.window))
  }

  /** The handles and the frames name each other, and each frame is of a tab. */
  predicate FramesSound(
    frames: map<int, (nat, string)>, handles: map<(nat, string), int>, nextFrame: int, tabs: set<nat>)
  {
    (forall handle :: handle in frames ==>
      handle < nextFrame && frames[handle].0 in tabs
      && frames[handle] in handles && handles[frames[handle]] == handle)
    && forall frame :: frame in handles ==> handles[frame] in frames && frames[handles[frame]] == frame
  }

  function DialogsAfter(open: set<nat>, said: Said): set<nat> {
    match said
    case DialogOpened(tab) => open + {tab}
    case DialogClosed(tab) => open - {tab}
    case _ => open
  }

  /** The tabs whose dialog the host shows, by what the engine said. */
  function OpenDialogs(said: seq<Said>): set<nat> {
    if said == [] then {} else DialogsAfter(OpenDialogs(said[..|said| - 1]), said[|said| - 1])
  }

  /** A dialog opens only where none shows, and closes only where one does. */
  predicate DialogsAlternate(said: seq<Said>) {
    forall n :: 0 <= n < |said| ==>
      (said[n].DialogOpened? ==> said[n].tab !in OpenDialogs(said[..n]))
      && (said[n].DialogClosed? ==> said[n].tab in OpenDialogs(said[..n]))
  }

  ghost predicate DialogsSound(said: seq<Said>, tabs: map<nat, Tab>) {
    DialogsAlternate(said) && forall tab :: tab in OpenDialogs(said) <==> tab in tabs && tabs[tab].dialog
  }

  predicate Known(system: System) {
    system.engine.windows.Keys <= system.windows
    && (forall id :: id in system.engine.tabs ==> TabKnown(system, id))
    && forall n :: 0 <= n < |system.making| ==> OriginSound(system, system.making[n])
  }

  predicate TabKnown(system: System, id: nat)
    requires id in system.engine.tabs
  {
    var tab := system.engine.tabs[id];
    id in system.browsers && tab.window in system.windows && (tab.opener.Some? ==> tab.opener.value in system.browsers)
  }

  ghost predicate TabsSound(engine: EngineState) {
    OpenersSound(engine.tabs)
    && FramesSound(engine.frames, engine.frameHandles, engine.nextFrame, engine.tabs.Keys)
    && DialogsSound(engine.said, engine.tabs)
  }

  ghost predicate Sound(system: System) {
    Known(system) && TabsSound(system.engine) && (!system.engine.quitting ==> WindowsSound(system.engine.windows, system.engine.tabs))
  }

  // ----- Every step keeps the windows sound -----

  lemma TabsOfMore(tabs: map<nat, Tab>, id: nat, tab: Tab, window: int)
    requires id !in tabs
    ensures TabsOf(tabs[id := tab], window) == TabsOf(tabs, window) + if tab.window == window then {id} else {}
  {
  }

  lemma OneWindowSound(windows: map<int, Window>, tabs: map<nat, Tab>, window: int, known: Window)
    requires WindowsSound(windows, tabs) && WindowSound(known, TabsOf(tabs, window))
    ensures WindowsSound(windows[window := known], tabs)
  {
  }

  lemma CreatedKeepsWindow(engine: EngineState, id: nat, origin: Origin, window: int)
    requires origin.TabOrigin? && !engine.quitting && id !in engine.tabs && window in engine.windows
    requires WindowSound(engine.windows[window], TabsOf(engine.tabs, window))
    ensures
      var next := Created(engine, id, origin);
      window in next.windows && WindowSound(next.windows[window], TabsOf(next.tabs, window))
  {
    TabsOfMore(engine.tabs, id, Tab(origin.window, origin.opener, origin.ask, false, None), window);
  }

  lemma MakeKeepsWindows(engine: EngineState, id: nat, origin: Origin)
    requires WindowsSound(engine.windows, engine.tabs) && !engine.quitting && id !in engine.tabs
    ensures WindowsSound(Created(engine, id, origin).windows, Created(engine, id, origin).tabs)
  {
    if origin.TabOrigin? {
      var next := Created(engine, id, origin);
      forall window | window in next.windows ensures WindowSound(next.windows[window], TabsOf(next.tabs, window)) {
        CreatedKeepsWindow(engine, id, origin, window);
      }
    }
  }

  lemma CloseKeepsWindows(engine: EngineState, browser: nat)
    requires WindowsSound(engine.windows, engine.tabs)
    ensures WindowsSound(BrowserClosed(engine, browser).windows, BrowserClosed(engine, browser).tabs)
  {
    if browser in engine.tabs {
      var left, next := engine.tabs - {browser}, TabGone(engine, browser);
      forall window | window in next.windows ensures WindowSound(next.windows[window], TabsOf(left, window)) {
        assert TabsOf(left, window) == TabsOf(engine.tabs, window) - {browser};
      }
    }
  }

  lemma OpenKeepsWindows(system: System, window: int)
    requires Known(system) && WindowsSound(system.engine.windows, system.engine.tabs)
    requires window !in system.engine.windows ==> window !in system.windows
    ensures WindowsSound(WindowOpened(system.engine, window).windows, system.engine.tabs)
  {
    var engine := system.engine;
    if !engine.quitting && window !in engine.windows {
      assert forall id :: id in engine.tabs ==> TabKnown(system, id);
      assert TabsOf(engine.tabs, window) == {};
      OneWindowSound(engine.windows, engine.tabs, window, Window(None, true, false));
    }
  }

  lemma WantKeepsWindows(engine: EngineState, window: int)
    requires WindowsSound(engine.windows, engine.tabs)
    ensures WindowsSound(Wanted(engine, window).windows, engine.tabs)
  {
    if window in engine.windows {
      OneWindowSound(engine.windows, engine.tabs, window, engine.windows[window].(wanted := true));
    }
  }

  lemma CloseWindowKeepsWindows(engine: EngineState, window: int)
    requires WindowsSound(engine.windows, engine.tabs)
    ensures WindowsSound(WindowClosed(engine, window).windows, engine.tabs)
  {
    if window in engine.windows && TabsOf(engine.tabs, window) != {} {
      OneWindowSound(engine.windows, engine.tabs, window, engine.windows[window].(closing := true));
    }
  }

  lemma ActivateKeepsWindows(engine: EngineState, tab: nat)
    requires WindowsSound(engine.windows, engine.tabs)
    ensures WindowsSound(Activated(engine, tab).windows, engine.tabs)
  {
    if tab in engine.tabs && engine.tabs[tab].window in engine.windows {
      var window := engine.tabs[tab].window;
      assert tab in TabsOf(engine.tabs, window);
      OneWindowSound(engine.windows, engine.tabs, window, engine.windows[window].(active := Some(tab)));
    }
  }

  /** A tab that only learns something, or has a dialog, stays where it is. */
  predicate SamePlace(tab: Tab, other: Tab) {
    tab.window == other.window && tab.opener == other.opener
  }

  lemma SamePlaceKeepsWindows(windows: map<int, Window>, tabs: map<nat, Tab>, id: nat, tab: Tab)
    requires WindowsSound(windows, tabs) && id in tabs && SamePlace(tabs[id], tab)
    ensures WindowsSound(windows, tabs[id := tab])
  {
    forall window | window in windows ensures TabsOf(tabs[id := tab], window) == TabsOf(tabs, window) {
    }
  }

  lemma TabEventKeepsWindows(engine: EngineState, tab: nat, target: string)
    requires WindowsSound(engine.windows, engine.tabs)
    ensures WindowsSound(engine.windows, TargetKnown(engine, tab, target).tabs)
    ensures WindowsSound(engine.windows, DialogShown(engine, tab).tabs)
    ensures WindowsSound(engine.windows, DialogAnswered(engine, tab).tabs)
  {
    if tab in engine.tabs {
      var own := engine.tabs[tab];
      SamePlaceKeepsWindows(engine.windows, engine.tabs, tab, own.(target := Some(target), ask := None));
      SamePlaceKeepsWindows(engine.windows, engine.tabs, tab, own.(dialog := true));
      SamePlaceKeepsWindows(engine.windows, engine.tabs, tab, own.(dialog := false));
    }
  }

  /** Steps that leave the windows and the tabs. */
  lemma WindowsUntouched(engine: EngineState, making: seq<Origin>, step: Step)
    requires step.OpenPage? || step.Fail? || step.ClosePage? || step.Frame? || step.Quit?
    ensures
      var next := EngineAfter(engine, making, step);
      next.windows == engine.windows && next.tabs == engine.tabs
  {
  }

  lemma PopupKeepsWindows(engine: EngineState, opener: nat, background: bool)
    requires WindowsSound(engine.windows, engine.tabs)
    ensures WindowsSound(PopupPlaced(engine, opener, background).windows, engine.tabs)
  {
    if opener in engine.tabs {
      WantKeepsWindows(engine, engine.tabs[opener].window);
    }
  }

  predicate IsCommand(step: Step) {
    step.OpenWindow? || step.NewTab? || step.CloseWindow? || step.Activate? || step.Popup?
  }

  /** The tabs, their frames and what was said are the same. */
  predicate SameTabs(engine: EngineState, next: EngineState) {
    next.tabs == engine.tabs && next.said == engine.said && next.frames == engine.frames
    && next.frameHandles == engine.frameHandles && next.nextFrame == engine.nextFrame
  }

  lemma OpeningKeepsTabs(engine: EngineState, making: seq<Origin>, step: Step)
    requires step.OpenWindow? || step.NewTab? || step.Popup?
    ensures SameTabs(engine, EngineAfter(engine, making, step))
  {
    match step
    case OpenWindow(window) =>
    case NewTab(window, _) => assert SameTabs(engine, Wanted(engine, window));
    case Popup(opener, background) => assert SameTabs(engine, PopupPlaced(engine, opener, background));
  }

  lemma ChoiceKeepsTabs(engine: EngineState, making: seq<Origin>, step: Step)
    requires step.CloseWindow? || step.Activate?
    ensures SameTabs(engine, EngineAfter(engine, making, step))
  {
    match step
    case CloseWindow(window) => assert SameTabs(engine, WindowClosed(engine, window));
    case Activate(tab) => assert SameTabs(engine, Activated(engine, tab));
  }

  lemma CommandKeepsTabs(engine: EngineState, making: seq<Origin>, step: Step)
    requires IsCommand(step)
    ensures SameTabs(engine, EngineAfter(engine, making, step))
  {
    if step.CloseWindow? || step.Activate? {
      ChoiceKeepsTabs(engine, making, step);
    } else {
      OpeningKeepsTabs(engine, making, step);
    }
  }

  lemma PageStepKeepsTabs(engine: EngineState, making: seq<Origin>, step: Step)
    requires step.OpenPage? || step.Fail? || step.ClosePage? || step.Quit?
    ensures SameTabs(engine, EngineAfter(engine, making, step))
  {
  }

  lemma CommandKeepsWindows(system: System, step: Step)
    requires Known(system) && WindowsSound(system.engine.windows, system.engine.tabs) && HasFreshId(system, step)
    requires IsCommand(step)
    ensures WindowsSound(EngineAfter(system.engine, system.making, step).windows, system.engine.tabs)
  {
    var engine := system.engine;
    match step
    case OpenWindow(window) => OpenKeepsWindows(system, window);
    case NewTab(window, _) => WantKeepsWindows(engine, window);
    case CloseWindow(window) => CloseWindowKeepsWindows(engine, window);
    case Activate(tab) => ActivateKeepsWindows(engine, tab);
    case Popup(opener, background) => PopupKeepsWindows(engine, opener, background);
  }

  lemma BrowserEventKeepsWindows(system: System, step: Step)
    requires Known(system) && WindowsSound(system.engine.windows, system.engine.tabs) && HasFreshId(system, step)
    requires !system.engine.quitting
    requires step.Make? || step.Close? || step.Learn? || step.OpenDialog? || step.TakeDialog?
    ensures
      var next := EngineAfter(system.engine, system.making, step);
      WindowsSound(next.windows, next.tabs)
  {
    var engine := system.engine;
    match step
    case Make(n, id) =>
      if n < |system.making| {
        MakeKeepsWindows(engine, id, system.making[n]);
      }
    case Close(browser) => CloseKeepsWindows(engine, browser);
    case Learn(browser, target) => TabEventKeepsWindows(engine, browser, target);
    case OpenDialog(tab) => TabEventKeepsWindows(engine, tab, "");
    case TakeDialog(tab) => TabEventKeepsWindows(engine, tab, "");
  }

  lemma StepKeepsWindows(system: System, step: Step)
    requires Sound(system) && HasFreshId(system, step) && !system.engine.quitting
    ensures
      var next := EngineAfter(system.engine, system.making, step);
      WindowsSound(next.windows, next.tabs)
  {
    if IsCommand(step) {
      CommandKeepsTabs(system.engine, system.making, step);
      CommandKeepsWindows(system, step);
    } else if step.Make? || step.Close? || step.Learn? || step.OpenDialog? || step.TakeDialog? {
      BrowserEventKeepsWindows(system, step);
    } else {
      WindowsUntouched(system.engine, system.making, step);
    }
  }

  // ----- The tabs, their frames and their dialogs -----

  lemma SaidMore(said: seq<Said>, more: Said)
    requires DialogsAlternate(said)
    requires more.DialogOpened? ==> more.tab !in OpenDialogs(said)
    requires more.DialogClosed? ==> more.tab in OpenDialogs(said)
    ensures DialogsAlternate(said + [more]) && OpenDialogs(said + [more]) == DialogsAfter(OpenDialogs(said), more)
  {
    assert (said + [more])[..|said|] == said;
    assert forall n :: 0 <= n < |said| ==> (said + [more])[..n] == said[..n];
  }

  lemma NewTabKeepsOpeners(tabs: map<nat, Tab>, id: nat, tab: Tab)
    requires OpenersSound(tabs) && id !in tabs && tab.opener != Some(id)
    requires forall other :: other in tabs ==> tabs[other].opener != Some(id)
    requires tab.opener.Some? && tab.opener.value in tabs ==> tabs[tab.opener.value].window == tab.window
    ensures OpenersSound(tabs[id := tab])
  {
  }

  lemma MadeKeepsTabs(system: System, id: nat, n: nat)
    requires Known(system) && TabsSound(system.engine) && id !in system.browsers && n < |system.making|
    ensures TabsSound(Created(system.engine, id, system.making[n]))
  {
    var origin, engine := system.making[n], system.engine;
    var next := Created(engine, id, origin);
    assert OriginSound(system, origin);
    if origin.TabOrigin? {
      forall other | other in engine.tabs ensures engine.tabs[other].opener != Some(id) {
        assert TabKnown(system, other);
      }
      var tab := Tab(origin.window, origin.opener, origin.ask, false, None);
      assert next.tabs == engine.tabs[id := tab];
      NewTabKeepsOpeners(engine.tabs, id, tab);
    } else {
      assert next.tabs == engine.tabs;
    }
  }

  lemma SamePlaceKeepsOpeners(tabs: map<nat, Tab>, id: nat, tab: Tab)
    requires OpenersSound(tabs) && id in tabs && SamePlace(tabs[id], tab)
    ensures OpenersSound(tabs[id := tab])
  {
  }

  lemma GoneKeepsTabs(engine: EngineState, closed: nat)
    requires TabsSound(engine) && closed in engine.tabs
    ensures TabsSound(TabGone(engine, closed))
  {
    if engine.tabs[closed].dialog {
      SaidMore(engine.said, DialogClosed(closed));
    } else {
      assert engine.said + [] == engine.said;
    }
  }

  lemma LearnKeepsTabs(engine: EngineState, browser: nat, target: string)
    requires TabsSound(engine)
    ensures TabsSound(TargetKnown(engine, browser, target))
  {
    if browser in engine.tabs {
      SamePlaceKeepsOpeners(engine.tabs, browser, TargetKnown(engine, browser, target).tabs[browser]);
      if engine.tabs[browser].ask.Some? {
        SaidMore(engine.said, TabOpened(engine.tabs[browser].ask.value, target));
      } else {
        assert engine.said + [] == engine.said;
      }
    } else if browser in engine.pageOfBrowser {
      SaidMore(engine.said, PageOpened(engine.pageOfBrowser[browser], target));
    }
  }

  lemma DialogKeepsTabs(engine: EngineState, tab: nat, shows: bool)
    requires TabsSound(engine) && tab in engine.tabs && engine.tabs[tab].dialog != shows
    ensures TabsSound(DialogTaken(engine, tab, shows))
  {
    SamePlaceKeepsOpeners(engine.tabs, tab, engine.tabs[tab].(dialog := shows));
    SaidMore(engine.said, if shows then DialogOpened(tab) else DialogClosed(tab));
  }

  lemma DialogEventKeepsTabs(engine: EngineState, tab: nat)
    requires TabsSound(engine)
    ensures TabsSound(DialogShown(engine, tab)) && TabsSound(DialogAnswered(engine, tab))
  {
    if tab in engine.tabs && !engine.tabs[tab].dialog {
      DialogKeepsTabs(engine, tab, true);
    }
    if HasDialog(engine, tab) {
      DialogKeepsTabs(engine, tab, false);
    }
  }

  lemma FrameKeepsTabs(engine: EngineState, tab: nat, frame: string)
    requires TabsSound(engine) && tab in engine.tabs
    ensures TabsSound(FrameKnown(engine, tab, frame))
  {
  }

  lemma BrowserStepKeepsTabs(system: System, step: Step)
    requires Known(system) && TabsSound(system.engine) && HasFreshId(system, step) && (step.Make? || step.Close?)
    ensures TabsSound(EngineAfter(system.engine, system.making, step))
  {
    if step.Make? {
      if step.n < |system.making| {
        MadeKeepsTabs(system, step.id, step.n);
      }
    } else if step.browser in system.engine.tabs {
      GoneKeepsTabs(system.engine, step.browser);
    }
  }

  lemma TabStepKeepsTabs(engine: EngineState, making: seq<Origin>, step: Step)
    requires TabsSound(engine) && (step.Learn? || step.OpenDialog? || step.TakeDialog? || step.Frame?)
    ensures TabsSound(EngineAfter(engine, making, step))
  {
    match step
    case Learn(browser, target) => LearnKeepsTabs(engine, browser, target);
    case OpenDialog(tab) => DialogEventKeepsTabs(engine, tab);
    case TakeDialog(tab) => DialogEventKeepsTabs(engine, tab);
    case Frame(tab, frame) =>
      if tab in engine.tabs {
        FrameKeepsTabs(engine, tab, frame);
      }
  }

  lemma StepKeepsTabs(system: System, step: Step)
    requires Known(system) && TabsSound(system.engine) && HasFreshId(system, step)
    ensures TabsSound(EngineAfter(system.engine, system.making, step))
  {
    if step.Make? || step.Close? {
      BrowserStepKeepsTabs(system, step);
    } else if step.Learn? || step.OpenDialog? || step.TakeDialog? || step.Frame? {
      TabStepKeepsTabs(system.engine, system.making, step);
    } else if IsCommand(step) {
      CommandKeepsTabs(system.engine, system.making, step);
    } else {
      PageStepKeepsTabs(system.engine, system.making, step);
    }
  }

  // ----- What there ever was -----

  lemma MakeKeepsKnown(system: System, n: nat, id: nat)
    requires Known(system) && id !in system.browsers && n < |system.making|
    ensures Known(Next(system, Make(n, id)))
  {
    var next := Next(system, Make(n, id));
    assert OriginSound(system, system.making[n]);
    forall m | 0 <= m < |next.making| ensures OriginSound(next, next.making[m]) {
      assert OriginSound(system, next.making[m]);
    }
    forall other | other in next.engine.tabs ensures TabKnown(next, other) {
      assert other in system.engine.tabs ==> TabKnown(system, other);
    }
  }

  /** What other steps leave of the windows and the tabs, and what they ask for. */
  lemma OtherStepsKeepWindows(engine: EngineState, making: seq<Origin>, step: Step)
    requires !step.Make?
    ensures EngineAfter(engine, making, step).windows.Keys
      <= engine.windows.Keys + if step.OpenWindow? then {step.window} else {}
  {
    if step.Close? && step.browser in engine.tabs {
      var gone := TabGone(engine, step.browser);
      assert gone.windows.Keys <= engine.windows.Keys;
    }
  }

  /** Every tab was there before, in the same place. */
  predicate PlacesStay(tabs: map<nat, Tab>, next: map<nat, Tab>) {
    forall id :: id in next ==> id in tabs && SamePlace(next[id], tabs[id])
  }

  lemma OnePlaceStays(tabs: map<nat, Tab>, id: nat, tab: Tab)
    requires id in tabs && SamePlace(tabs[id], tab)
    ensures PlacesStay(tabs, tabs[id := tab])
  {
  }

  lemma AllPlacesStay(tabs: map<nat, Tab>)
    ensures PlacesStay(tabs, tabs)
  {
  }

  lemma LearnKeepsPlaces(engine: EngineState, browser: nat, target: string)
    ensures PlacesStay(engine.tabs, TargetKnown(engine, browser, target).tabs)
  {
    AllPlacesStay(engine.tabs);
    if browser in engine.tabs {
      OnePlaceStays(engine.tabs, browser, engine.tabs[browser].(target := Some(target), ask := None));
    }
  }

  lemma DialogKeepsPlaces(engine: EngineState, tab: nat)
    ensures PlacesStay(engine.tabs, DialogShown(engine, tab).tabs)
    ensures PlacesStay(engine.tabs, DialogAnswered(engine, tab).tabs)
  {
    AllPlacesStay(engine.tabs);
    if tab in engine.tabs {
      OnePlaceStays(engine.tabs, tab, engine.tabs[tab].(dialog := true));
      OnePlaceStays(engine.tabs, tab, engine.tabs[tab].(dialog := false));
    }
  }

  lemma TabStepKeepsPlaces(engine: EngineState, making: seq<Origin>, step: Step)
    requires step.Learn? || step.OpenDialog? || step.TakeDialog? || step.Frame?
    ensures PlacesStay(engine.tabs, EngineAfter(engine, making, step).tabs)
  {
    match step
    case Learn(browser, target) => LearnKeepsPlaces(engine, browser, target);
    case OpenDialog(tab) => DialogKeepsPlaces(engine, tab);
    case TakeDialog(tab) => DialogKeepsPlaces(engine, tab);
    case Frame(tab, frame) => AllPlacesStay(engine.tabs);
  }

  lemma CloseKeepsPlaces(engine: EngineState, browser: nat)
    ensures PlacesStay(engine.tabs, BrowserClosed(engine, browser).tabs)
  {
  }

  lemma OtherStepsKeepPlaces(engine: EngineState, making: seq<Origin>, step: Step)
    requires !step.Make?
    ensures PlacesStay(engine.tabs, EngineAfter(engine, making, step).tabs)
  {
    if step.Close? {
      CloseKeepsPlaces(engine, step.browser);
    } else if step.Learn? || step.OpenDialog? || step.TakeDialog? || step.Frame? {
      TabStepKeepsPlaces(engine, making, step);
    } else if IsCommand(step) {
      CommandKeepsTabs(engine, making, step);
    } else {
      PageStepKeepsTabs(engine, making, step);
    }
  }

  lemma StepsAskSoundly(system: System, step: Step)
    requires Known(system) && !step.Make?
    ensures
      var asked := AskedFor(system.engine, step);
      asked.Some? ==> OriginSound(Next(system, step), asked.value)
  {
    if step.Popup? && step.opener in system.engine.tabs {
      assert TabKnown(system, step.opener);
    }
  }

  lemma StepKeepsKnown(system: System, step: Step)
    requires Known(system) && HasFreshId(system, step)
    ensures Known(Next(system, step))
  {
    if step.Make? {
      if step.n < |system.making| {
        MakeKeepsKnown(system, step.n, step.id);
      }
    } else {
      OtherStepsKeepWindows(system.engine, system.making, step);
      OtherStepsKeepPlaces(system.engine, system.making, step);
      StepsAskSoundly(system, step);
      PlacesAreKnown(system, Next(system, step));
    }
  }

  lemma PlacesAreKnown(system: System, next: System)
    requires Known(system) && next.browsers == system.browsers && next.windows >= system.windows
    requires next.engine.windows.Keys <= next.windows
    requires PlacesStay(system.engine.tabs, next.engine.tabs)
    requires forall origin :: origin in next.making ==> origin in system.making || OriginSound(next, origin)
    ensures Known(next)
  {
    forall id | id in next.engine.tabs ensures TabKnown(next, id) {
      assert TabKnown(system, id);
    }
    forall n | 0 <= n < |next.making| ensures OriginSound(next, next.making[n]) {
      if next.making[n] in system.making {
        assert OriginSound(system, next.making[n]);
      }
    }
  }

  lemma CommandsKeepQuitting(engine: EngineState, making: seq<Origin>, step: Step)
    requires IsCommand(step)
    ensures EngineAfter(engine, making, step).quitting == engine.quitting
  {
    match step
    case OpenWindow(window) => assert WindowOpened(engine, window).quitting == engine.quitting;
    case NewTab(window, _) => assert Wanted(engine, window).quitting == engine.quitting;
    case Popup(opener, background) => assert PopupPlaced(engine, opener, background).quitting == engine.quitting;
    case CloseWindow(window) => assert WindowClosed(engine, window).quitting == engine.quitting;
    case Activate(tab) => assert Activated(engine, tab).quitting == engine.quitting;
  }

  lemma MakingKeepsQuitting(engine: EngineState, id: nat, origin: Origin)
    ensures Created(engine, id, origin).quitting == engine.quitting
  {
    if origin.TabOrigin? {
      assert Created(engine, id, TabOrigin(origin.window, origin.opener, origin.ask)).quitting == engine.quitting;
    } else {
      assert Created(engine, id, PageOrigin(origin.page)).quitting == engine.quitting;
    }
  }

  lemma BrowsersKeepQuitting(engine: EngineState, making: seq<Origin>, step: Step)
    requires step.Make? || step.Close?
    ensures EngineAfter(engine, making, step).quitting == engine.quitting
  {
    match step
    case Make(n, id) =>
      if n < |making| {
        MakingKeepsQuitting(engine, id, making[n]);
      }
    case Close(browser) => assert BrowserClosed(engine, browser).quitting == engine.quitting;
  }

  lemma QuittingStays(engine: EngineState, making: seq<Origin>, step: Step)
    ensures engine.quitting ==> EngineAfter(engine, making, step).quitting
  {
    if IsCommand(step) {
      CommandsKeepQuitting(engine, making, step);
    } else if step.Make? || step.Close? {
      BrowsersKeepQuitting(engine, making, step);
    }
  }

  lemma {:induction false} RunsAreSound(run: seq<Step>)
    requires FreshIds(run)
    ensures Sound(After(run))
  {
    if run == [] {
    } else {
      var last := |run| - 1;
      assert forall n :: 0 <= n < last ==> run[..last][..n] == run[..n];
      RunsAreSound(run[..last]);
      var system, step := After(run[..last]), run[last];
      assert HasFreshId(system, step);
      StepKeepsKnown(system, step);
      StepKeepsTabs(system, step);
      if !system.engine.quitting {
        StepKeepsWindows(system, step);
      }
      QuittingStays(system.engine, system.making, step);
    }
  }

  // ----- What the host sees -----

  /** While the engine does not quit, exactly one tab of a window that has any draws, and the host hears which. */
  lemma OneTabDraws(run: seq<Step>, window: int)
    requires FreshIds(run) && !After(run).engine.quitting && window in After(run).engine.windows
    ensures
      var engine := After(run).engine;
      Shown(engine, window).Keys == TabsOf(engine.tabs, window)
      && (forall id :: id in Shown(engine, window) ==> Reported(engine)[id].active == Shown(engine, window)[id])
      && (TabsOf(engine.tabs, window) != {} ==>
        exists id :: id in Shown(engine, window) && Shown(engine, window)[id]
          && forall other :: other in Shown(engine, window) && Shown(engine, window)[other] ==> other == id)
  {
    RunsAreSound(run);
    var engine := After(run).engine;
    assert WindowSound(engine.windows[window], TabsOf(engine.tabs, window));
    if TabsOf(engine.tabs, window) != {} {
      var id := engine.windows[window].active.value;
      assert id in Shown(engine, window) && Shown(engine, window)[id];
    }
  }

  /** A window that closes is there exactly until its last tab closed. */
  lemma ClosingWindowGoesWithItsLastTab(run: seq<Step>, window: int, closed: nat)
    requires FreshIds(run) && !After(run).engine.quitting
    requires window in After(run).engine.windows && After(run).engine.windows[window].closing
    ensures TabsOf(After(run).engine.tabs, window) != {}
    ensures
      var next := BrowserClosed(After(run).engine, closed);
      window in next.windows <==> TabsOf(next.tabs, window) != {}
  {
    RunsAreSound(run);
    var engine := After(run).engine;
    assert WindowSound(engine.windows[window], TabsOf(engine.tabs, window));
    if closed in engine.tabs {
      CloseKeepsWindows(engine, closed);
      var next := TabGone(engine, closed);
      assert window in next.windows ==> WindowSound(next.windows[window], TabsOf(next.tabs, window));
      assert TabsOf(next.tabs, window) == TabsOf(engine.tabs, window) - {closed};
    }
  }

  /** A page's popup is in the window of that page for as long as both are open. */
  lemma PopupsStayWithTheirOpener(run: seq<Step>, id: nat)
    requires FreshIds(run) && id in After(run).engine.tabs
    requires
      var tab := After(run).engine.tabs[id];
      tab.opener.Some? && tab.opener.value in After(run).engine.tabs
    ensures
      var tabs := After(run).engine.tabs;
      tabs[tabs[id].opener.value].window == tabs[id].window
  {
    RunsAreSound(run);
  }

  /**
   A popup that is made while nothing else happens draws at once, unless it is a background tab: that
   leaves the active tab as it was, if no other tab was wanted.
   */
  lemma PopupTakesOver(run: seq<Step>, opener: nat, background: bool, id: nat)
    requires FreshIds(run) && !After(run).engine.quitting && id !in After(run).browsers
    requires PopupWindow(After(run).engine, opener).Some?
    ensures
      var engine := After(run).engine;
      var window := PopupWindow(engine, opener).value;
      var next := Created(PopupPlaced(engine, opener, background), id, TabOrigin(window, Some(opener), None));
      (!background || engine.windows[window].wanted ==>
        Shown(next, window) == (map tab | tab in TabsOf(engine.tabs, window) + {id} :: tab == id))
      && (background && !engine.windows[window].wanted ==>
        Shown(next, window) == Shown(engine, window)[id := false])
  {
    RunsAreSound(run);
    var engine := After(run).engine;
    var window := PopupWindow(engine, opener).value;
    assert WindowSound(engine.windows[window], TabsOf(engine.tabs, window));
    assert opener in TabsOf(engine.tabs, window);
    PopupIsMade(engine, opener, background, id);
    TabsOfMore(engine.tabs, id, Tab(window, Some(opener), None, false, None), window);
  }

  lemma PopupIsMade(engine: EngineState, opener: nat, background: bool, id: nat)
    requires !engine.quitting && id !in engine.tabs && PopupWindow(engine, opener).Some?
    ensures
      var window := PopupWindow(engine, opener).value;
      var next := Created(PopupPlaced(engine, opener, background), id, TabOrigin(window, Some(opener), None));
      next.tabs == engine.tabs[id := Tab(window, Some(opener), None, false, None)] && window in next.windows
      && next.windows[window].active ==
        if !background || TakesOver(engine.windows[window]) then Some(id) else engine.windows[window].active
  {
  }

  /** The host shows a dialog of a tab exactly while the tab has one, and never two or a close too many. */
  lemma DialogsMatchTheirTabs(run: seq<Step>)
    requires FreshIds(run)
    ensures
      var engine := After(run).engine;
      DialogsAlternate(engine.said) && forall tab :: tab in OpenDialogs(engine.said) <==> HasDialog(engine, tab)
  {
    RunsAreSound(run);
  }

  /** A frame's handle names that frame of that tab, and no other handle does. Those of a closed tab name nothing. */
  lemma HandlesNameFrames(run: seq<Step>, tab: nat, frame: string)
    requires FreshIds(run) && tab in After(run).engine.tabs
    ensures
      var engine := FrameKnown(After(run).engine, tab, frame);
      var handle := engine.frameHandles[(tab, frame)];
      handle in engine.frames && engine.frames[handle] == (tab, frame)
      && (forall other :: other in engine.frames && engine.frames[other] == (tab, frame) ==> other == handle)
      && handle !in BrowserClosed(engine, tab).frames
  {
    RunsAreSound(run);
    FrameKeepsTabs(After(run).engine, tab, frame);
  }
}
