/** The engine's windows, tabs and host pages as values: what each command and each browser event makes of them. */
module EngineStates {
  import opened Sizes
  import opened Wrappers

  /** Where a browser belongs that is not made yet. */
  datatype Origin =
    | TabOrigin(window: int, opener: Option<nat>, ask: Option<int>)
    | PageOrigin(page: int)

  /** A window of the host. `wanted` says that the next tab that opens becomes active. */
  datatype Window = Window(active: Option<nat>, wanted: bool, closing: bool)

  datatype Tab = Tab(window: int, opener: Option<nat>, ask: Option<int>, dialog: bool, target: Option<string>)

  datatype Page = Page(browser: Option<nat>, closing: bool)

  datatype Said =
    | TabOpened(ask: int, target: string)
    | PageOpened(page: int, target: string)
    | DialogOpened(tab: nat)
    | DialogClosed(tab: nat)

  datatype EngineState = EngineState(
    windows: map<int, Window>,
    tabs: map<nat, Tab>,
    pages: map<int, Page>,
    pageOfBrowser: map<nat, int>,
    frames: map<int, (nat, string)>,
    frameHandles: map<(nat, string), int>,
    nextFrame: int,
    quitting: bool,
    said: seq<Said>)

  const NEW_ENGINE := EngineState(map[], map[], map[], map[], map[], map[], 1, false, [])

  function TabsOf(tabs: map<nat, Tab>, window: int): set<nat> {
    set id | id in tabs && tabs[id].window == window
  }

  predicate IsOpen(engine: EngineState, window: int) {
    window in engine.windows && !engine.windows[window].closing
  }

  // ----- Commands -----

  function WindowOpened(engine: EngineState, window: int): EngineState {
    if engine.quitting || window in engine.windows then engine
    else engine.(windows := engine.windows[window := Window(None, true, false)])
  }

  function Wanted(engine: EngineState, window: int): EngineState {
    if IsOpen(engine, window)
    then engine.(windows := engine.windows[window := engine.windows[window].(wanted := true)])
    else engine
  }

  function Activated(engine: EngineState, tab: nat): EngineState {
    if tab !in engine.tabs || engine.tabs[tab].window !in engine.windows then engine
    else
      var window := engine.tabs[tab].window;
      engine.(windows := engine.windows[window := engine.windows[window].(active := Some(tab))])
  }

  function WindowClosed(engine: EngineState, window: int): EngineState {
    if window !in engine.windows then engine
    else if TabsOf(engine.tabs, window) == {} then engine.(windows := engine.windows - {window})
    else engine.(windows := engine.windows[window := engine.windows[window].(closing := true)])
  }

  function PageAsked(engine: EngineState, page: int): EngineState {
    if engine.quitting then engine else engine.(pages := engine.pages[page := Page(None, false)])
  }

  /** A browser that is never made leaves no page. */
  function OriginFailed(engine: EngineState, origin: Origin): EngineState {
    if origin.PageOrigin? then engine.(pages := engine.pages - {origin.page}) else engine
  }

  function PageClosed(engine: EngineState, page: int): EngineState {
    if page in engine.pages then engine.(pages := engine.pages[page := engine.pages[page].(closing := true)]) else engine
  }

  // ----- Browsers -----

  /** The window that a page's popup goes to. */
  function PopupWindow(engine: EngineState, opener: nat): Option<int> {
    if opener in engine.tabs && IsOpen(engine, engine.tabs[opener].window)
    then Some(engine.tabs[opener].window) else None
  }

  function PopupPlaced(engine: EngineState, opener: nat, background: bool): EngineState {
    var window := PopupWindow(engine, opener);
    if window.Some? && !background then Wanted(engine, window.value) else engine
  }

  /** Whether a new browser stays, and does not close at once. */
  predicate Stays(engine: EngineState, origin: Origin) {
    !engine.quitting &&
    match origin
    case TabOrigin(window, _, _) => IsOpen(engine, window)
    case PageOrigin(page) => page in engine.pages && !engine.pages[page].closing
  }

  predicate TakesOver(window: Window) {
    window.wanted || window.active.None?
  }

  function Created(engine: EngineState, id: nat, origin: Origin): EngineState {
    match origin
    case TabOrigin(window, opener, ask) =>
      var more := engine.(tabs := engine.tabs[id := Tab(window, opener, ask, false, None)]);
      if Stays(engine, origin) && TakesOver(engine.windows[window])
      then more.(windows := engine.windows[window := engine.windows[window].(active := Some(id), wanted := false)])
      else more
    case PageOrigin(page) =>
      var more := engine.(pageOfBrowser := engine.pageOfBrowser[id := page]);
      if Stays(engine, origin)
      then more.(pages := engine.pages[page := engine.pages[page].(browser := Some(id))])
      else more
  }

  /** The tab that becomes active after one closed: its opener, or else the window's last tab. */
  ghost function NextActive(tabs: map<nat, Tab>, closed: Tab): Option<nat> {
    if closed.opener.Some? && closed.opener.value in TabsOf(tabs, closed.window) then closed.opener
    else Greatest(TabsOf(tabs, closed.window))
  }

  function FramesWithout(frames: map<int, (nat, string)>, tab: nat): map<int, (nat, string)> {
    map handle | handle in frames && frames[handle].0 != tab :: frames[handle]
  }

  function HandlesWithout(handles: map<(nat, string), int>, tab: nat): map<(nat, string), int> {
    map frame | frame in handles && frame.0 != tab :: handles[frame]
  }

  function PageGone(engine: EngineState, browser: nat): EngineState {
    if browser in engine.pageOfBrowser
    then engine.(
      pages := engine.pages - {engine.pageOfBrowser[browser]},
      pageOfBrowser := engine.pageOfBrowser - {browser})
    else engine
  }

  /** The windows after a tab of one of them closed, with the tab that is active next. */
  function WindowsWithout(windows: map<int, Window>, closed: nat, window: int, next: Option<nat>): map<int, Window> {
    if window !in windows then windows
    else if windows[window].closing && next.None? then windows - {window}
    else if windows[window].active == Some(closed) then windows[window := windows[window].(active := next)]
    else windows
  }

  ghost function TabGone(engine: EngineState, closed: nat): EngineState
    requires closed in engine.tabs
  {
    var tab, left := engine.tabs[closed], engine.tabs - {closed};
    engine.(
      tabs := left,
      windows := WindowsWithout(engine.windows, closed, tab.window, NextActive(left, tab)),
      frames := FramesWithout(engine.frames, closed),
      frameHandles := HandlesWithout(engine.frameHandles, closed),
      said := engine.said + if tab.dialog then [DialogClosed(closed)] else [])
  }

  ghost function BrowserClosed(engine: EngineState, browser: nat): EngineState {
    if browser in engine.tabs then TabGone(engine, browser) else PageGone(engine, browser)
  }

  predicate Ended(engine: EngineState) {
    engine.quitting && engine.tabs == map[] && engine.pageOfBrowser == map[]
  }

  function TargetKnown(engine: EngineState, browser: nat, target: string): EngineState {
    if browser in engine.tabs then
      var tab := engine.tabs[browser];
      engine.(
        tabs := engine.tabs[browser := tab.(target := Some(target), ask := None)],
        said := engine.said + if tab.ask.Some? then [TabOpened(tab.ask.value, target)] else [])
    else if browser in engine.pageOfBrowser then
      engine.(said := engine.said + [PageOpened(engine.pageOfBrowser[browser], target)])
    else engine
  }

  predicate HasDialog(engine: EngineState, tab: nat) {
    tab in engine.tabs && engine.tabs[tab].dialog
  }

  function DialogTaken(engine: EngineState, tab: nat, shows: bool): EngineState
    requires tab in engine.tabs
  {
    engine.(
      tabs := engine.tabs[tab := engine.tabs[tab].(dialog := shows)],
      said := engine.said + [if shows then DialogOpened(tab) else DialogClosed(tab)])
  }

  function DialogShown(engine: EngineState, tab: nat): EngineState {
    if tab in engine.tabs && !engine.tabs[tab].dialog then DialogTaken(engine, tab, true) else engine
  }

  function DialogAnswered(engine: EngineState, tab: nat): EngineState {
    if HasDialog(engine, tab) then DialogTaken(engine, tab, false) else engine
  }

  function FrameKnown(engine: EngineState, tab: nat, frame: string): EngineState {
    if (tab, frame) in engine.frameHandles then engine
    else engine.(
      frames := engine.frames[engine.nextFrame := (tab, frame)],
      frameHandles := engine.frameHandles[(tab, frame) := engine.nextFrame],
      nextFrame := engine.nextFrame + 1)
  }

  // ----- What the host sees -----

  /** The tabs of a window with whether each draws. */
  function Shown(engine: EngineState, window: int): map<nat, bool> {
    var active := if window in engine.windows then engine.windows[window].active else None;
    map id | id in TabsOf(engine.tabs, window) :: Some(id) == active
  }

  datatype EngineTab = EngineTab(window: int, target: Option<string>, active: bool)

  function Reported(engine: EngineState): map<nat, EngineTab> {
    map id | id in engine.tabs ::
      var tab := engine.tabs[id];
      EngineTab(
        tab.window, tab.target, tab.window in engine.windows && engine.windows[tab.window].active == Some(id))
  }
}
