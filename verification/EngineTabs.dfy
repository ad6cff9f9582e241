/** What the engine has by what happened: its browsers, their dialogs, targets and frames, and when it may end. */
module EngineTabs {
  import opened EngineStates
  import opened EngineRuns
  import opened Histories
  import opened Wrappers
  import EngineDraws

  // ----- What each step may change -----

  /** Only the windows change. */
  predicate OnlyWindows(engine: EngineState, next: EngineState) {
    next == engine.(windows := next.windows)
  }

  predicate OnlyPages(engine: EngineState, next: EngineState) {
    next == engine.(pages := next.pages)
  }

  /** What is known of the tabs changes, and what was said, but not which tabs there are. */
  predicate OnlyNews(engine: EngineState, next: EngineState) {
    next == engine.(tabs := next.tabs, said := next.said) && next.tabs.Keys == engine.tabs.Keys
  }

  predicate OnlyFrames(engine: EngineState, next: EngineState) {
    next == engine.(frames := next.frames, frameHandles := next.frameHandles, nextFrame := next.nextFrame)
  }

  lemma WantedChanges(engine: EngineState, window: int)
    ensures OnlyWindows(engine, Wanted(engine, window))
  {
  }

  lemma PopupChanges(engine: EngineState, opener: nat, background: bool)
    ensures OnlyWindows(engine, PopupPlaced(engine, opener, background))
  {
    if opener in engine.tabs {
      WantedChanges(engine, engine.tabs[opener].window);
    }
  }

  lemma CloseWindowChanges(engine: EngineState, window: int)
    ensures OnlyWindows(engine, WindowClosed(engine, window))
  {
  }

  lemma CommandChanges(engine: EngineState, making: seq<Origin>, step: Step)
    requires IsCommand(step)
    ensures OnlyWindows(engine, EngineAfter(engine, making, step))
  {
    match step
    case OpenWindow(window) => assert OnlyWindows(engine, WindowOpened(engine, window));
    case NewTab(window, _) => WantedChanges(engine, window);
    case Popup(opener, background) => PopupChanges(engine, opener, background);
    case CloseWindow(window) => CloseWindowChanges(engine, window);
    case Activate(tab) => assert OnlyWindows(engine, Activated(engine, tab));
  }

  predicate IsPageStep(step: Step) {
    step.OpenPage? || step.ClosePage? || step.Fail?
  }

  lemma PageStepChanges(engine: EngineState, making: seq<Origin>, step: Step)
    requires IsPageStep(step)
    ensures OnlyPages(engine, EngineAfter(engine, making, step))
  {
  }

  predicate IsNews(step: Step) {
    step.Learn? || step.OpenDialog? || step.TakeDialog?
  }

  lemma LearnChanges(engine: EngineState, browser: nat, target: string)
    ensures OnlyNews(engine, TargetKnown(engine, browser, target))
  {
  }

  lemma DialogChanges(engine: EngineState, tab: nat)
    ensures OnlyNews(engine, DialogShown(engine, tab)) && OnlyNews(engine, DialogAnswered(engine, tab))
  {
  }

  lemma NewsChanges(engine: EngineState, making: seq<Origin>, step: Step)
    requires IsNews(step)
    ensures OnlyNews(engine, EngineAfter(engine, making, step))
  {
    match step
    case Learn(browser, target) => LearnChanges(engine, browser, target);
    case OpenDialog(tab) => DialogChanges(engine, tab);
    case TakeDialog(tab) => DialogChanges(engine, tab);
  }

  lemma FrameChanges(engine: EngineState, making: seq<Origin>, step: Step)
    requires step.Frame?
    ensures OnlyFrames(engine, EngineAfter(engine, making, step))
  {
  }

  // ----- Browsers -----

  predicate HasBrowser(engine: EngineState, id: nat) {
    id in engine.tabs || id in engine.pageOfBrowser
  }

  predicate Comes(system: System, step: Step, id: nat) {
    step.Make? && step.id == id && step.n < |system.making|
  }

  ghost function ComesIn(run: seq<Step>, id: nat): nat -> bool {
    (n: nat) => n < |run| && Comes(After(run[..n]), run[n], id)
  }

  function GoesIn(run: seq<Step>, id: nat): nat -> bool {
    (n: nat) => n < |run| && run[n] == Close(id)
  }

  /** No browser is both a tab's and a page's. */
  ghost predicate BrowsersApart(system: System) {
    system.engine.tabs.Keys <= system.browsers && system.engine.pageOfBrowser.Keys <= system.browsers
    && system.engine.tabs.Keys !! system.engine.pageOfBrowser.Keys
  }

  lemma CloseAfter(engine: EngineState, id: nat, browser: nat)
    requires engine.tabs.Keys !! engine.pageOfBrowser.Keys
    ensures HasBrowser(BrowserClosed(engine, browser), id) <==> HasBrowser(engine, id) && browser != id
  {
  }

  lemma CreateTabChanges(engine: EngineState, made: nat, window: int, opener: Option<nat>, ask: Option<int>)
    ensures
      var next := Created(engine, made, TabOrigin(window, opener, ask));
      next == engine.(tabs := engine.tabs[made := Tab(window, opener, ask, false, None)], windows := next.windows)
  {
  }

  lemma CreatePageChanges(engine: EngineState, made: nat, page: int)
    ensures
      var next := Created(engine, made, PageOrigin(page));
      next == engine.(pageOfBrowser := engine.pageOfBrowser[made := page], pages := next.pages)
  {
  }

  lemma CreateAdds(engine: EngineState, made: nat, origin: Origin)
    ensures
      var next := Created(engine, made, origin);
      next.tabs.Keys == engine.tabs.Keys + (if origin.TabOrigin? then {made} else {})
      && next.pageOfBrowser.Keys == engine.pageOfBrowser.Keys + (if origin.TabOrigin? then {} else {made})
      && next.quitting == engine.quitting
  {
    match origin
    case TabOrigin(window, opener, ask) => CreateTabChanges(engine, made, window, opener, ask);
    case PageOrigin(page) => CreatePageChanges(engine, made, page);
  }

  lemma CreateAfter(engine: EngineState, made: nat, origin: Origin, id: nat)
    ensures HasBrowser(Created(engine, made, origin), id) <==> id == made || HasBrowser(engine, id)
  {
    CreateAdds(engine, made, origin);
    assert HasBrowser(engine, id) <==> id in engine.tabs.Keys + engine.pageOfBrowser.Keys;
  }

  predicate SameBrowsers(engine: EngineState, next: EngineState) {
    next.tabs.Keys == engine.tabs.Keys && next.pageOfBrowser == engine.pageOfBrowser && next.quitting == engine.quitting
  }

  lemma OtherStepsKeepBrowsers(engine: EngineState, making: seq<Origin>, step: Step)
    requires !step.Make? && !step.Close? && !step.Quit?
    ensures SameBrowsers(engine, EngineAfter(engine, making, step))
  {
    if IsCommand(step) {
      CommandChanges(engine, making, step);
    } else if IsPageStep(step) {
      PageStepChanges(engine, making, step);
    } else if IsNews(step) {
      NewsChanges(engine, making, step);
    } else {
      FrameChanges(engine, making, step);
    }
  }

  predicate BrowserStep(system: System, next: EngineState, step: Step, id: nat) {
    HasBrowser(next, id) <==> Comes(system, step, id) || (HasBrowser(system.engine, id) && step != Close(id))
  }

  lemma MakeAfter(system: System, n: nat, made: nat, id: nat)
    ensures BrowserStep(system, EngineAfter(system.engine, system.making, Make(n, made)), Make(n, made), id)
  {
    if n < |system.making| {
      CreateAfter(system.engine, made, system.making[n], id);
    }
  }

  lemma BrowserAfter(system: System, step: Step, id: nat)
    requires BrowsersApart(system)
    ensures BrowserStep(system, EngineAfter(system.engine, system.making, step), step, id)
  {
    if step.Make? {
      MakeAfter(system, step.n, step.id, id);
    } else if step.Close? {
      CloseAfter(system.engine, id, step.browser);
    } else if !step.Quit? {
      OtherStepsKeepBrowsers(system.engine, system.making, step);
    }
  }

  lemma CreateKeepsApart(engine: EngineState, browsers: set<nat>, id: nat, origin: Origin)
    requires engine.tabs.Keys <= browsers && engine.pageOfBrowser.Keys <= browsers && id !in browsers
    requires engine.tabs.Keys !! engine.pageOfBrowser.Keys
    ensures
      var next := Created(engine, id, origin);
      next.tabs.Keys <= browsers + {id} && next.pageOfBrowser.Keys <= browsers + {id}
      && next.tabs.Keys !! next.pageOfBrowser.Keys
  {
    CreateAdds(engine, id, origin);
  }

  lemma CloseKeepsApart(engine: EngineState, browser: nat)
    ensures
      var next := BrowserClosed(engine, browser);
      next.tabs.Keys <= engine.tabs.Keys && next.pageOfBrowser.Keys <= engine.pageOfBrowser.Keys
  {
  }

  lemma StepKeepsApart(system: System, step: Step)
    requires BrowsersApart(system) && HasFreshId(system, step)
    ensures BrowsersApart(Next(system, step))
  {
    if step.Make? {
      if step.n < |system.making| {
        CreateKeepsApart(system.engine, system.browsers, step.id, system.making[step.n]);
      }
    } else if step.Close? {
      CloseKeepsApart(system.engine, step.browser);
    } else if !step.Quit? {
      OtherStepsKeepBrowsers(system.engine, system.making, step);
    }
  }

  lemma {:induction false} BrowsersAreApart(run: seq<Step>, n: nat)
    requires n <= |run| && FreshIds(run)
    ensures BrowsersApart(After(run[..n]))
  {
    if n == 0 {
      assert run[..0] == [];
    } else {
      BrowsersAreApart(run, n - 1);
      EngineDraws.RunUpTo(run, n - 1);
      StepKeepsApart(After(run[..n - 1]), run[n - 1]);
    }
  }

  lemma BrowserAfterTurn(run: seq<Step>, n: nat, id: nat)
    requires n < |run| && FreshIds(run)
    ensures BrowserStep(After(run[..n]), After(run[..n + 1]).engine, run[n], id)
  {
    BrowsersAreApart(run, n);
    EngineDraws.RunUpTo(run, n);
    BrowserAfter(After(run[..n]), run[n], id);
  }

  /** The engine has a browser exactly since it was made until it closed. */
  lemma {:induction false} BrowsersExactly(run: seq<Step>, id: nat, n: nat)
    requires n <= |run| && FreshIds(run)
    ensures HasBrowser(After(run[..n]).engine, id) <==> Lasts(ComesIn(run, id), GoesIn(run, id), n)
  {
    if n == 0 {
      assert run[..0] == [];
    } else {
      BrowsersExactly(run, id, n - 1);
      BrowserAfterTurn(run, n - 1, id);
      LastsOneMore(ComesIn(run, id), GoesIn(run, id), n - 1);
    }
  }

  lemma QuitAfter(system: System, step: Step)
    ensures Next(system, step).engine.quitting <==> step.Quit? || system.engine.quitting
  {
    if step.Make? {
      BrowsersKeepQuitting(system.engine, system.making, step);
    } else if step.Close? {
      BrowsersKeepQuitting(system.engine, system.making, step);
    } else if !step.Quit? {
      OtherStepsKeepBrowsers(system.engine, system.making, step);
    }
  }

  lemma {:induction false} QuittingExactly(run: seq<Step>)
    ensures After(run).engine.quitting <==> Quit in run
  {
    if run == [] {
    } else {
      var last := |run| - 1;
      QuittingExactly(run[..last]);
      QuitAfter(After(run[..last]), run[last]);
      assert run == run[..last] + [run[last]];
    }
  }

  lemma EndedIs(engine: EngineState)
    ensures Ended(engine) <==> engine.quitting && forall id: nat :: !HasBrowser(engine, id)
  {
    if engine.tabs != map[] {
      var id :| id in engine.tabs;
      assert HasBrowser(engine, id);
    }
    if engine.pageOfBrowser != map[] {
      var id :| id in engine.pageOfBrowser;
      assert HasBrowser(engine, id);
    }
  }

  ghost predicate IsThere(run: seq<Step>, id: nat) {
    Lasts(ComesIn(run, id), GoesIn(run, id), |run|)
  }

  lemma IsThereExactly(run: seq<Step>, id: nat)
    requires FreshIds(run)
    ensures HasBrowser(After(run).engine, id) <==> IsThere(run, id)
  {
    BrowsersExactly(run, id, |run|);
    assert run[..|run|] == run;
  }

  /** The engine may end exactly when it was told to quit and every browser that was made closed. */
  lemma EndsExactly(run: seq<Step>)
    requires FreshIds(run)
    ensures Ended(After(run).engine) <==> Quit in run && forall id: nat :: !IsThere(run, id)
  {
    QuittingExactly(run);
    EndedIs(After(run).engine);
    forall id: nat ensures HasBrowser(After(run).engine, id) <==> IsThere(run, id) {
      IsThereExactly(run, id);
    }
  }

  // ----- Dialogs -----

  /** The host shows a dialog of the tab. */
  predicate ShowsDialog(engine: EngineState, tab: nat) {
    tab in OpenDialogs(engine.said)
  }

  predicate AsksDialog(engine: EngineState, step: Step, tab: nat) {
    step == OpenDialog(tab) && tab in engine.tabs
  }

  ghost function AsksDialogIn(run: seq<Step>, tab: nat): nat -> bool {
    (n: nat) => n < |run| && AsksDialog(After(run[..n]).engine, run[n], tab)
  }

  function EndsDialogIn(run: seq<Step>, tab: nat): nat -> bool {
    (n: nat) => n < |run| && (run[n] == TakeDialog(tab) || run[n] == Close(tab))
  }

  predicate DialogStep(engine: EngineState, next: EngineState, step: Step, tab: nat) {
    HasDialog(next, tab) <==>
      AsksDialog(engine, step, tab) || (HasDialog(engine, tab) && step != TakeDialog(tab) && step != Close(tab))
  }

  lemma DialogAfterMake(system: System, n: nat, id: nat, tab: nat)
    requires id !in system.engine.tabs
    ensures DialogStep(system.engine, EngineAfter(system.engine, system.making, Make(n, id)), Make(n, id), tab)
  {
    if n < |system.making| {
      match system.making[n]
      case TabOrigin(window, opener, ask) => CreateTabChanges(system.engine, id, window, opener, ask);
      case PageOrigin(page) => CreatePageChanges(system.engine, id, page);
    }
  }

  lemma DialogAfterLearn(engine: EngineState, browser: nat, target: string, tab: nat)
    ensures DialogStep(engine, TargetKnown(engine, browser, target), Learn(browser, target), tab)
  {
  }

  lemma DialogAfterDialog(engine: EngineState, of: nat, tab: nat)
    ensures DialogStep(engine, DialogShown(engine, of), OpenDialog(of), tab)
    ensures DialogStep(engine, DialogAnswered(engine, of), TakeDialog(of), tab)
  {
  }

  lemma DialogAfterNews(engine: EngineState, making: seq<Origin>, step: Step, tab: nat)
    requires IsNews(step)
    ensures DialogStep(engine, EngineAfter(engine, making, step), step, tab)
  {
    match step
    case Learn(browser, target) => DialogAfterLearn(engine, browser, target, tab);
    case OpenDialog(of) => DialogAfterDialog(engine, of, tab);
    case TakeDialog(of) => DialogAfterDialog(engine, of, tab);
  }

  lemma DialogAfter(system: System, step: Step, tab: nat)
    requires step.Make? ==> step.id !in system.engine.tabs
    ensures DialogStep(system.engine, EngineAfter(system.engine, system.making, step), step, tab)
  {
    var engine, making := system.engine, system.making;
    if step.Make? {
      DialogAfterMake(system, step.n, step.id, tab);
    } else if IsNews(step) {
      DialogAfterNews(engine, making, step, tab);
    } else if IsCommand(step) {
      CommandChanges(engine, making, step);
    } else if IsPageStep(step) {
      PageStepChanges(engine, making, step);
    } else if step.Frame? {
      FrameChanges(engine, making, step);
    }
  }

  lemma DialogAfterTurn(run: seq<Step>, n: nat, tab: nat)
    requires n < |run| && FreshIds(run)
    ensures DialogStep(After(run[..n]).engine, After(run[..n + 1]).engine, run[n], tab)
  {
    BrowsersAreApart(run, n);
    EngineDraws.RunUpTo(run, n);
    DialogAfter(After(run[..n]), run[n], tab);
  }

  lemma {:induction false} TabsHaveDialogs(run: seq<Step>, tab: nat, n: nat)
    requires n <= |run| && FreshIds(run)
    ensures HasDialog(After(run[..n]).engine, tab) <==> Lasts(AsksDialogIn(run, tab), EndsDialogIn(run, tab), n)
  {
    if n == 0 {
      assert run[..0] == [];
    } else {
      TabsHaveDialogs(run, tab, n - 1);
      DialogAfterTurn(run, n - 1, tab);
      LastsOneMore(AsksDialogIn(run, tab), EndsDialogIn(run, tab), n - 1);
    }
  }

  /** The host shows a dialog exactly since its tab asked for it, until it is answered or the tab closes. */
  lemma DialogsShowExactly(run: seq<Step>, tab: nat)
    requires FreshIds(run)
    ensures ShowsDialog(After(run).engine, tab) <==> Lasts(AsksDialogIn(run, tab), EndsDialogIn(run, tab), |run|)
  {
    DialogsMatchTheirTabs(run);
    TabsHaveDialogs(run, tab, |run|);
    assert run[..|run|] == run;
  }

  // ----- Targets -----

  predicate Reports(engine: EngineState, tab: nat, target: string) {
    tab in Reported(engine) && Reported(engine)[tab].target == Some(target)
  }

  predicate HasTarget(tabs: map<nat, Tab>, tab: nat, target: string) {
    tab in tabs && tabs[tab].target == Some(target)
  }

  lemma ReportedIs(engine: EngineState, tab: nat, target: string)
    ensures Reports(engine, tab, target) <==> HasTarget(engine.tabs, tab, target)
  {
  }

  predicate Learns(engine: EngineState, step: Step, tab: nat, target: string) {
    step == Learn(tab, target) && tab in engine.tabs
  }

  ghost function LearnsIn(run: seq<Step>, tab: nat, target: string): nat -> bool {
    (n: nat) => n < |run| && Learns(After(run[..n]).engine, run[n], tab, target)
  }

  function ForgetsIn(run: seq<Step>, tab: nat): nat -> bool {
    (n: nat) => n < |run| && ((run[n].Learn? && run[n].browser == tab) || run[n] == Close(tab))
  }

  predicate TargetStep(engine: EngineState, next: EngineState, step: Step, tab: nat, target: string) {
    HasTarget(next.tabs, tab, target) <==>
      Learns(engine, step, tab, target)
      || (HasTarget(engine.tabs, tab, target) && !(step.Learn? && step.browser == tab) && step != Close(tab))
  }

  lemma TargetAfterMake(system: System, n: nat, id: nat, tab: nat, target: string)
    requires id !in system.engine.tabs
    ensures TargetStep(system.engine, EngineAfter(system.engine, system.making, Make(n, id)), Make(n, id), tab, target)
  {
    if n < |system.making| {
      match system.making[n]
      case TabOrigin(window, opener, ask) => CreateTabChanges(system.engine, id, window, opener, ask);
      case PageOrigin(page) => CreatePageChanges(system.engine, id, page);
    }
  }

  lemma TargetAfterLearn(engine: EngineState, browser: nat, learned: string, tab: nat, target: string)
    ensures TargetStep(engine, TargetKnown(engine, browser, learned), Learn(browser, learned), tab, target)
  {
  }

  lemma TargetAfterDialog(engine: EngineState, of: nat, tab: nat, target: string, shows: bool)
    requires of in engine.tabs
    ensures HasTarget(DialogTaken(engine, of, shows).tabs, tab, target) <==> HasTarget(engine.tabs, tab, target)
  {
  }

  lemma TargetAfterOpenDialog(engine: EngineState, of: nat, tab: nat, target: string)
    ensures TargetStep(engine, DialogShown(engine, of), OpenDialog(of), tab, target)
  {
    if of in engine.tabs {
      TargetAfterDialog(engine, of, tab, target, true);
    }
  }

  lemma TargetAfterTakeDialog(engine: EngineState, of: nat, tab: nat, target: string)
    ensures TargetStep(engine, DialogAnswered(engine, of), TakeDialog(of), tab, target)
  {
    if of in engine.tabs {
      TargetAfterDialog(engine, of, tab, target, false);
    }
  }

  lemma TargetAfterNews(engine: EngineState, making: seq<Origin>, step: Step, tab: nat, target: string)
    requires IsNews(step)
    ensures TargetStep(engine, EngineAfter(engine, making, step), step, tab, target)
  {
    match step
    case Learn(browser, learned) => TargetAfterLearn(engine, browser, learned, tab, target);
    case OpenDialog(of) => TargetAfterOpenDialog(engine, of, tab, target);
    case TakeDialog(of) => TargetAfterTakeDialog(engine, of, tab, target);
  }

  lemma TargetAfter(system: System, step: Step, tab: nat, target: string)
    requires step.Make? ==> step.id !in system.engine.tabs
    ensures TargetStep(system.engine, EngineAfter(system.engine, system.making, step), step, tab, target)
  {
    var engine, making := system.engine, system.making;
    if step.Make? {
      TargetAfterMake(system, step.n, step.id, tab, target);
    } else if IsNews(step) {
      TargetAfterNews(engine, making, step, tab, target);
    } else if IsCommand(step) {
      CommandChanges(engine, making, step);
    } else if IsPageStep(step) {
      PageStepChanges(engine, making, step);
    } else if step.Frame? {
      FrameChanges(engine, making, step);
    }
  }

  lemma TargetAfterTurn(run: seq<Step>, n: nat, tab: nat, target: string)
    requires n < |run| && FreshIds(run)
    ensures TargetStep(After(run[..n]).engine, After(run[..n + 1]).engine, run[n], tab, target)
  {
    BrowsersAreApart(run, n);
    EngineDraws.RunUpTo(run, n);
    TargetAfter(After(run[..n]), run[n], tab, target);
  }

  lemma {:induction false} TabsHaveTargets(run: seq<Step>, tab: nat, target: string, n: nat)
    requires n <= |run| && FreshIds(run)
    ensures HasTarget(After(run[..n]).engine.tabs, tab, target)
      <==> Lasts(LearnsIn(run, tab, target), ForgetsIn(run, tab), n)
  {
    if n == 0 {
      assert run[..0] == [];
    } else {
      TabsHaveTargets(run, tab, target, n - 1);
      TargetAfterTurn(run, n - 1, tab, target);
      LastsOneMore(LearnsIn(run, tab, target), ForgetsIn(run, tab), n - 1);
    }
  }

  /** The engine reports the target of a tab exactly since it learned it, until it learns another or the tab closes. */
  lemma TargetsExactly(run: seq<Step>, tab: nat, target: string)
    requires FreshIds(run)
    ensures Reports(After(run).engine, tab, target) <==> Lasts(LearnsIn(run, tab, target), ForgetsIn(run, tab), |run|)
  {
    TabsHaveTargets(run, tab, target, |run|);
    assert run[..|run|] == run;
    ReportedIs(After(run).engine, tab, target);
  }

  /** The first target of a tab answers the ask that opened it, and no later one does. */
  lemma AsksAreAnsweredOnce(run: seq<Step>, tab: nat, target: string)
    requires tab in After(run).engine.tabs
    ensures
      var engine, next := After(run).engine, After(run + [Learn(tab, target)]).engine;
      var ask := engine.tabs[tab].ask;
      tab in next.tabs && next.tabs[tab].ask == None
      && next.said == engine.said + if ask.Some? then [TabOpened(ask.value, target)] else []
  {
    EngineDraws.OneMore(run, Learn(tab, target));
  }

  // ----- Frames -----

  /** The frame has a handle, and every other one keeps its own. */
  predicate IsNamed(handles: map<(nat, string), int>, next: map<(nat, string), int>, name: (nat, string)) {
    next.Keys == handles.Keys + {name} && forall other :: other in handles ==> next[other] == handles[other]
  }

  /** One that had none gets a handle that names no other frame. */
  predicate IsNamedWell(engine: EngineState, next: EngineState, name: (nat, string)) {
    IsNamed(engine.frameHandles, next.frameHandles, name)
    && (name !in engine.frameHandles ==> next.frameHandles[name] !in engine.frames)
  }

  lemma FrameIsNamed(engine: EngineState, tab: nat, frame: string)
    requires FramesSound(engine.frames, engine.frameHandles, engine.nextFrame, engine.tabs.Keys)
    ensures IsNamedWell(engine, FrameKnown(engine, tab, frame), (tab, frame))
  {
  }

  lemma FrameIsKnown(run: seq<Step>, tab: nat, frame: string)
    requires tab in After(run).engine.tabs
    ensures After(run + [Frame(tab, frame)]).engine == FrameKnown(After(run).engine, tab, frame)
  {
    EngineDraws.OneMore(run, Frame(tab, frame));
  }

  /** A frame that is named has a handle then: its own if it had one, and else one that names no other frame. */
  lemma FramesGetHandles(run: seq<Step>, tab: nat, frame: string)
    requires FreshIds(run) && tab in After(run).engine.tabs
    ensures IsNamedWell(After(run).engine, After(run + [Frame(tab, frame)]).engine, (tab, frame))
  {
    RunsAreSound(run);
    FrameIsKnown(run, tab, frame);
    FrameIsNamed(After(run).engine, tab, frame);
  }

  // ----- Pages of the host's own, and which browsers stay -----

  predicate IsPageOpen(engine: EngineState, page: int) {
    page in engine.pages && !engine.pages[page].closing
  }

  predicate AsksPage(engine: EngineState, step: Step, page: int) {
    step == OpenPage(page) && !engine.quitting
  }

  /** The page is told to close, its browser is never made, or closes. */
  predicate EndsPage(system: System, step: Step, page: int) {
    step == ClosePage(page)
    || (step.Fail? && step.n < |system.making| && system.making[step.n] == PageOrigin(page))
    || (step.Close? && step.browser !in system.engine.tabs && step.browser in system.engine.pageOfBrowser
      && system.engine.pageOfBrowser[step.browser] == page)
  }

  ghost function AsksPageIn(run: seq<Step>, page: int): nat -> bool {
    (n: nat) => n < |run| && AsksPage(After(run[..n]).engine, run[n], page)
  }

  ghost function EndsPageIn(run: seq<Step>, page: int): nat -> bool {
    (n: nat) => n < |run| && EndsPage(After(run[..n]), run[n], page)
  }

  predicate PageStep(system: System, next: EngineState, step: Step, page: int) {
    IsPageOpen(next, page)
    <==> AsksPage(system.engine, step, page) || (IsPageOpen(system.engine, page) && !EndsPage(system, step, page))
  }

  lemma PageAfterMake(system: System, n: nat, id: nat, page: int)
    ensures PageStep(system, EngineAfter(system.engine, system.making, Make(n, id)), Make(n, id), page)
  {
    if n < |system.making| && system.making[n].TabOrigin? {
      var origin := system.making[n];
      CreateTabChanges(system.engine, id, origin.window, origin.opener, origin.ask);
    }
  }

  lemma PageAfterClose(system: System, browser: nat, page: int)
    ensures PageStep(system, BrowserClosed(system.engine, browser), Close(browser), page)
  {
  }

  lemma PageAfterPageStep(system: System, step: Step, page: int)
    requires IsPageStep(step)
    ensures PageStep(system, EngineAfter(system.engine, system.making, step), step, page)
  {
    match step
    case OpenPage(of) => assert PageStep(system, PageAsked(system.engine, of), step, page);
    case ClosePage(of) => assert PageStep(system, PageClosed(system.engine, of), step, page);
    case Fail(n) =>
  }

  lemma PageAfter(system: System, step: Step, page: int)
    ensures PageStep(system, EngineAfter(system.engine, system.making, step), step, page)
  {
    var engine, making := system.engine, system.making;
    if step.Make? {
      PageAfterMake(system, step.n, step.id, page);
    } else if step.Close? {
      PageAfterClose(system, step.browser, page);
    } else if IsPageStep(step) {
      PageAfterPageStep(system, step, page);
    } else if IsNews(step) {
      NewsChanges(engine, making, step);
    } else if IsCommand(step) {
      CommandChanges(engine, making, step);
    } else if step.Frame? {
      FrameChanges(engine, making, step);
    }
  }

  lemma PageAfterTurn(run: seq<Step>, n: nat, page: int)
    requires n < |run|
    ensures PageStep(After(run[..n]), After(run[..n + 1]).engine, run[n], page)
  {
    EngineDraws.RunUpTo(run, n);
    PageAfter(After(run[..n]), run[n], page);
  }

  /** A page is open exactly since it was asked for, until it is told to close, fails, or its browser closes. */
  lemma {:induction false} PagesExactly(run: seq<Step>, page: int, n: nat)
    requires n <= |run|
    ensures IsPageOpen(After(run[..n]).engine, page) <==> Lasts(AsksPageIn(run, page), EndsPageIn(run, page), n)
  {
    if n == 0 {
      assert run[..0] == [];
    } else {
      PagesExactly(run, page, n - 1);
      PageAfterTurn(run, n - 1, page);
      LastsOneMore(AsksPageIn(run, page), EndsPageIn(run, page), n - 1);
    }
  }

  /** The window or the page of a browser is open. */
  ghost predicate HasRoom(run: seq<Step>, origin: Origin) {
    if origin.TabOrigin? then
      Lasts(EngineDraws.OpensIn(run, origin.window), EngineDraws.ClosesIn(run, origin.window), |run|)
    else Lasts(AsksPageIn(run, origin.page), EndsPageIn(run, origin.page), |run|)
  }

  /** A new browser stays exactly when its window or its page is open and the engine was not told to quit. */
  lemma BrowsersStayExactly(run: seq<Step>, origin: Origin)
    ensures Stays(After(run).engine, origin) <==> Quit !in run && HasRoom(run, origin)
  {
    QuittingExactly(run);
    assert run[..|run|] == run;
    if origin.TabOrigin? {
      EngineDraws.WindowsExactly(run, origin.window, |run|);
    } else {
      PagesExactly(run, origin.page, |run|);
    }
  }
}
