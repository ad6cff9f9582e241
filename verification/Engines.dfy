/** The engine's windows, tabs and pages as the program keeps them. */
module Engines {
  import opened EngineStates
  import opened Sizes
  import opened Wrappers

  /** What a closed browser leaves: a window whose active tab changed, and whether the engine may end. */
  datatype Closed = Closed(window: Option<int>, end: bool)

  class Engine {
    var windows: map<int, Window>
    var tabs: map<nat, Tab>
    var pages: map<int, Page>
    var pageOfBrowser: map<nat, int>
    var frames: map<int, (nat, string)>
    var frameHandles: map<(nat, string), int>
    var nextFrame: int
    var quitting: bool
    var said: seq<Said>

    ghost function State(): EngineState
      reads this
    {
      EngineState(windows, tabs, pages, pageOfBrowser, frames, frameHandles, nextFrame, quitting, said)
    }

    constructor ()
      ensures State() == NEW_ENGINE
    {
      windows, tabs, pages, pageOfBrowser := map[], map[], map[], map[];
      frames, frameHandles, nextFrame, quitting, said := map[], map[], 1, false, [];
    }

    /** Whether the window's first tab must be made now. */
    method OpenWindow(window: int) returns (makes: bool)
      modifies this`windows
      ensures State() == WindowOpened(old(State()), window)
      ensures makes == (!quitting && window !in old(windows))
    {
      if quitting || window in windows {
        return false;
      }
      windows := windows[window := Window(None, true, false)];
      makes := true;
    }

    /** Whether a tab must be made now. */
    method NewTab(window: int) returns (makes: bool)
      modifies this`windows
      ensures State() == Wanted(old(State()), window) && makes == IsOpen(old(State()), window)
    {
      if window !in windows || windows[window].closing {
        return false;
      }
      windows := windows[window := windows[window].(wanted := true)];
      makes := true;
    }

    method Activate(tab: nat)
      modifies this`windows
      ensures State() == Activated(old(State()), tab)
    {
      if tab in tabs {
        var window := tabs[tab].window;
        if window in windows {
          windows := windows[window := windows[window].(active := Some(tab))];
        }
      }
    }

    method CloseWindow(window: int) returns (browsers: set<nat>)
      modifies this`windows
      ensures State() == WindowClosed(old(State()), window)
      ensures browsers == if window in old(windows) then TabsOf(tabs, window) else {}
    {
      if window !in windows {
        return {};
      }
      windows := windows[window := windows[window].(closing := true)];
      browsers := TabsOf(tabs, window);
      if browsers == {} {
        windows := windows - {window};
      }
    }

    /** Whether a browser must be made for the page now. */
    method OpenPage(page: int) returns (makes: bool)
      modifies this`pages
      ensures State() == PageAsked(old(State()), page) && makes == !quitting
    {
      if quitting {
        return false;
      }
      pages := pages[page := Page(None, false)];
      makes := true;
    }

    method FailPage(page: int)
      modifies this`pages
      ensures State() == OriginFailed(old(State()), PageOrigin(page))
    {
      pages := pages - {page};
    }

    method ClosePage(page: int) returns (browser: Option<nat>)
      modifies this`pages
      ensures State() == PageClosed(old(State()), page)
      ensures browser == if page in pages then pages[page].browser else None
    {
      if page !in pages {
        return None;
      }
      pages := pages[page := pages[page].(closing := true)];
      browser := pages[page].browser;
    }

    method PlacePopup(opener: nat, background: bool) returns (origin: Option<Origin>)
      modifies this`windows
      ensures State() == PopupPlaced(old(State()), opener, background)
      ensures
        var window := PopupWindow(old(State()), opener);
        origin == if window.Some? then Some(TabOrigin(window.value, Some(opener), None)) else None
    {
      if opener !in tabs {
        return None;
      }
      var window := tabs[opener].window;
      if window !in windows || windows[window].closing {
        return None;
      }
      if !background {
        windows := windows[window := windows[window].(wanted := true)];
      }
      origin := Some(TabOrigin(window, Some(opener), None));
    }

    /** Takes in a browser, and says whether it stays. */
    method Create(id: nat, origin: Origin) returns (stays: bool)
      modifies this`windows, this`tabs, this`pages, this`pageOfBrowser
      ensures State() == Created(old(State()), id, origin) && stays == Stays(old(State()), origin)
    {
      stays := false;
      match origin
      case TabOrigin(window, opener, ask) =>
        if window in windows && !windows[window].closing && !quitting {
          if windows[window].wanted || windows[window].active.None? {
            windows := windows[window := windows[window].(active := Some(id), wanted := false)];
          }
          stays := true;
        }
        tabs := tabs[id := Tab(window, opener, ask, false, None)];
      case PageOrigin(page) =>
        pageOfBrowser := pageOfBrowser[id := page];
        if page in pages && !pages[page].closing && !quitting {
          pages := pages[page := pages[page].(browser := Some(id))];
          stays := true;
        }
    }

    /** The greatest tab of a window. */
    method LastTab(window: int) returns (last: Option<nat>)
      ensures last == Greatest(TabsOf(tabs, window))
    {
      var todo := tabs.Keys;
      ghost var seen: set<nat> := {};
      last := None;
      while todo != {}
        invariant todo <= tabs.Keys && seen <= TabsOf(tabs, window)
        invariant IsGreatest(last, seen)
        invariant forall id :: id in TabsOf(tabs, window) && id !in todo ==> id in seen
        decreases todo
      {
        var id :| id in todo;
        todo := todo - {id};
        if tabs[id].window == window {
          GreatestWith(last, seen, id);
          last := Greater(last, id);
          seen := seen + {id};
        }
      }
      assert seen == TabsOf(tabs, window);
    }

    method Close(browser: nat) returns (closed: Closed)
      modifies this
      ensures State() == BrowserClosed(old(State()), browser)
      ensures closed.end == Ended(State())
      ensures
        var before := old(State());
        closed.window == if browser in before.tabs
            && before.tabs[browser].window in windows
            && before.windows[before.tabs[browser].window].active == Some(browser)
          then Some(before.tabs[browser].window) else None
    {
      if browser !in tabs {
        if browser in pageOfBrowser {
          pages := pages - {pageOfBrowser[browser]};
          pageOfBrowser := pageOfBrowser - {browser};
        }
        return Closed(None, IsEnded());
      }
      var tab := tabs[browser];
      Forget(browser);
      var next;
      if tab.opener.Some? && tab.opener.value in tabs && tabs[tab.opener.value].window == tab.window {
        next := tab.opener;
      } else {
        next := LastTab(tab.window);
      }
      var shown := CloseIn(tab.window, browser, next);
      closed := Closed(shown, IsEnded());
    }

    /** A tab goes, with its dialog and its frames. */
    method Forget(tab: nat)
      requires tab in tabs
      modifies this`tabs, this`frames, this`frameHandles, this`said
      ensures tabs == old(tabs) - {tab}
      ensures frames == FramesWithout(old(frames), tab) && frameHandles == HandlesWithout(old(frameHandles), tab)
      ensures said == old(said) + if old(tabs)[tab].dialog then [DialogClosed(tab)] else []
    {
      if tabs[tab].dialog {
        said := said + [DialogClosed(tab)];
      }
      tabs := tabs - {tab};
      frameHandles := HandlesWithout(frameHandles, tab);
      frames := FramesWithout(frames, tab);
    }

    /** What a closed tab leaves in its window. */
    method CloseIn(window: int, closed: nat, next: Option<nat>) returns (shown: Option<int>)
      modifies this`windows
      ensures windows == WindowsWithout(old(windows), closed, window, next)
      ensures shown == if window in windows && old(windows)[window].active == Some(closed) then Some(window) else None
    {
      shown := None;
      if window in windows {
        var known := windows[window];
        if known.active == Some(closed) {
          windows := windows[window := known.(active := next)];
          shown := Some(window);
        }
        if known.closing && next.None? {
          windows := windows - {window};
          shown := None;
        }
      }
    }

    function IsEnded(): (ended: bool)
      reads this
      ensures ended == Ended(State())
    {
      quitting && tabs == map[] && pageOfBrowser == map[]
    }

    method LearnTarget(browser: nat, target: string)
      modifies this`tabs, this`said
      ensures State() == TargetKnown(old(State()), browser, target)
    {
      if browser in tabs {
        var tab := tabs[browser];
        tabs := tabs[browser := tab.(target := Some(target), ask := None)];
        if tab.ask.Some? {
          said := said + [TabOpened(tab.ask.value, target)];
        }
      } else if browser in pageOfBrowser {
        said := said + [PageOpened(pageOfBrowser[browser], target)];
      }
    }

    /** Whether the host shows the dialog. A tab has one at a time. */
    method OpenDialog(tab: nat) returns (shows: bool)
      modifies this`tabs, this`said
      ensures State() == DialogShown(old(State()), tab)
      ensures shows == (tab in old(tabs) && !old(tabs)[tab].dialog)
    {
      if tab !in tabs || tabs[tab].dialog {
        return false;
      }
      tabs := tabs[tab := tabs[tab].(dialog := true)];
      said := said + [EngineStates.DialogOpened(tab)];
      shows := true;
    }

    method TakeDialog(tab: nat) returns (had: bool)
      modifies this`tabs, this`said
      ensures State() == DialogAnswered(old(State()), tab) && had == HasDialog(old(State()), tab)
    {
      if tab !in tabs || !tabs[tab].dialog {
        return false;
      }
      tabs := tabs[tab := tabs[tab].(dialog := false)];
      said := said + [EngineStates.DialogClosed(tab)];
      had := true;
    }

    method FrameHandle(tab: nat, frame: string) returns (handle: int)
      modifies this`frames, this`frameHandles, this`nextFrame
      ensures State() == FrameKnown(old(State()), tab, frame)
      ensures (tab, frame) in frameHandles && handle == frameHandles[(tab, frame)]
    {
      if (tab, frame) in frameHandles {
        return frameHandles[(tab, frame)];
      }
      handle := nextFrame;
      nextFrame := nextFrame + 1;
      frameHandles := frameHandles[(tab, frame) := handle];
      frames := frames[handle := (tab, frame)];
    }

    method Quit() returns (browsers: set<nat>)
      modifies this`quitting
      ensures State() == old(State()).(quitting := true)
      ensures browsers == tabs.Keys + set page | page in pages && pages[page].browser.Some? :: pages[page].browser.value
    {
      quitting := true;
      browsers := tabs.Keys + set page | page in pages && pages[page].browser.Some? :: pages[page].browser.value;
    }
  }
}
