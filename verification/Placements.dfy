/** How the host takes in the engine's report: which window each tab and each target is in. */
module Placements {
  import opened EngineStates
  import opened EngineRuns
  import opened Filters
  import opened Wrappers

  datatype TabReport = TabReport(id: nat, tab: EngineTab)

  /** What a window hears of its tabs. */
  datatype WindowTabs = WindowTabs(tabs: seq<TabReport>, active: Option<nat>)

  function InWindows(windows: set<int>): TabReport -> bool {
    (report: TabReport) => report.tab.window in windows
  }

  function OfWindow(window: int): TabReport -> bool {
    (report: TabReport) => report.tab.window == window
  }

  predicate IsActive(report: TabReport) {
    report.tab.active
  }

  function IdOf(report: Option<TabReport>): Option<nat> {
    if report.Some? then Some(report.value.id) else None
  }

  function ToldTo(report: seq<TabReport>, window: int): WindowTabs {
    var tabs := Keep(OfWindow(window), report);
    WindowTabs(tabs, IdOf(First(IsActive, tabs)))
  }

  /** The windows of tabs and of targets. A later one in the report counts. */
  function TabPlaces(report: seq<TabReport>): map<nat, int> {
    if report == [] then map[]
    else
      var last := report[|report| - 1];
      TabPlaces(report[..|report| - 1])[last.id := last.tab.window]
  }

  function TargetPlaces(report: seq<TabReport>): map<string, int> {
    if report == [] then map[]
    else
      var last, places := report[|report| - 1], TargetPlaces(report[..|report| - 1]);
      if last.tab.target.Some? then places[last.tab.target.value := last.tab.window] else places
  }

  class Places {
    var tabs: map<nat, int>
    var targets: map<string, int>

    constructor ()
      ensures tabs == map[] && targets == map[]
    {
      tabs, targets := map[], map[];
    }

    /** Places each tab in its window, and says what each window hears. */
    method Place(windows: set<int>, report: seq<TabReport>) returns (told: map<int, WindowTabs>)
      modifies this
      ensures
        var known := Keep(InWindows(windows), report);
        tabs == TabPlaces(known) && targets == TargetPlaces(known)
      ensures told == map window | window in windows :: ToldTo(report, window)
    {
      tabs, targets := map[], map[];
      var known := Keep(InWindows(windows), report);
      var placed: map<int, seq<TabReport>> := map[];
      for i := 0 to |known|
        invariant tabs == TabPlaces(known[..i]) && targets == TargetPlaces(known[..i])
        invariant forall window :: Of(placed, window) == Keep(OfWindow(window), known[..i])
      {
        assert known[..i + 1][..i] == known[..i];
        placed := Add(placed, known, i);
        PlaceOne(known[i]);
      }
      assert known[..|known|] == known;
      told := Tell(windows, report, known, placed);
    }

    method PlaceOne(report: TabReport)
      modifies this
      ensures tabs == old(tabs)[report.id := report.tab.window]
      ensures targets == if report.tab.target.Some?
        then old(targets)[report.tab.target.value := report.tab.window] else old(targets)
    {
      tabs := tabs[report.id := report.tab.window];
      if report.tab.target.Some? {
        targets := targets[report.tab.target.value := report.tab.window];
      }
    }
  }

  function Of(placed: map<int, seq<TabReport>>, window: int): seq<TabReport> {
    if window in placed then placed[window] else []
  }

  /** A tab joins the others of its window. */
  method Add(placed: map<int, seq<TabReport>>, known: seq<TabReport>, i: nat) returns (more: map<int, seq<TabReport>>)
    requires i < |known| && forall window :: Of(placed, window) == Keep(OfWindow(window), known[..i])
    ensures forall window :: Of(more, window) == Keep(OfWindow(window), known[..i + 1])
  {
    var window := known[i].tab.window;
    more := placed[window := Of(placed, window) + [known[i]]];
    forall other ensures Of(more, other) == Keep(OfWindow(other), known[..i + 1]) {
      KeepNext(OfWindow(other), known, i);
      assert Of(placed, other) == Keep(OfWindow(other), known[..i]);
    }
  }

  /** What each window hears: its tabs, and the first of them that is active. */
  method Tell(windows: set<int>, report: seq<TabReport>, known: seq<TabReport>, placed: map<int, seq<TabReport>>)
    returns (told: map<int, WindowTabs>)
    requires known == Keep(InWindows(windows), report)
    requires forall window :: Of(placed, window) == Keep(OfWindow(window), known)
    ensures told == map window | window in windows :: ToldTo(report, window)
  {
    forall window | window in windows
      ensures WindowTabs(Of(placed, window), IdOf(First(IsActive, Of(placed, window)))) == ToldTo(report, window)
    {
      KeepTwice(OfWindow(window), InWindows(windows), report);
    }
    told := map window | window in windows ::
      WindowTabs(Of(placed, window), IdOf(First(IsActive, Of(placed, window))));
  }

  // ----- The report of the engine -----

  /** The report has each tab of the engine once, in some order. */
  ghost predicate Reports(report: seq<TabReport>, engine: EngineState) {
    (forall entry :: entry in report ==> entry.id in engine.tabs && entry.tab == Reported(engine)[entry.id])
    && (forall id :: id in engine.tabs ==> TabReport(id, Reported(engine)[id]) in report)
  }

  lemma HearsOfItsTabs(report: seq<TabReport>, engine: EngineState, window: int)
    requires Reports(report, engine)
    ensures
      var tabs := ToldTo(report, window).tabs;
      (forall entry :: entry in tabs ==>
        entry.id in TabsOf(engine.tabs, window) && entry == TabReport(entry.id, Reported(engine)[entry.id]))
      && forall id :: id in TabsOf(engine.tabs, window) ==> TabReport(id, Reported(engine)[id]) in tabs
  {
  }

  lemma FirstIs<T(!new)>(test: T -> bool, items: seq<T>, item: T)
    requires item in items && test(item) && forall other :: other in items && test(other) ==> other == item
    ensures First(test, items) == Some(item)
  {
    var k :| 0 <= k < |items| && items[k] == item;
    assert test(items[k]);
  }

  /** The host calls that tab of a window active which draws, and gives the window all of its tabs. */
  lemma HostShowsTheTabThatDraws(run: seq<Step>, report: seq<TabReport>, window: int)
    requires FreshIds(run) && !After(run).engine.quitting && window in After(run).engine.windows
    requires Reports(report, After(run).engine)
    ensures
      var engine := After(run).engine;
      var told := ToldTo(report, window);
      told.active == engine.windows[window].active
      && (set entry | entry in told.tabs :: entry.id) == TabsOf(engine.tabs, window)
      && (told.active.Some? ==> told.active.value in Shown(engine, window) && Shown(engine, window)[told.active.value])
  {
    RunsAreSound(run);
    var engine := After(run).engine;
    var tabs, active := ToldTo(report, window).tabs, engine.windows[window].active;
    assert WindowSound(engine.windows[window], TabsOf(engine.tabs, window));
    HearsOfItsTabs(report, engine, window);
    if active.Some? {
      FirstIs(IsActive, tabs, TabReport(active.value, Reported(engine)[active.value]));
    }
  }

  /** A target is placed exactly when a tab has it, in the window of such a tab. */
  lemma {:induction false} TargetsArePlaced(report: seq<TabReport>, target: string)
    ensures target in TargetPlaces(report) <==> exists entry :: entry in report && entry.tab.target == Some(target)
    ensures target in TargetPlaces(report) ==>
      exists entry :: entry in report && entry.tab.target == Some(target) && entry.tab.window == TargetPlaces(report)[target]
  {
    if report == [] {
    } else {
      var first, last := report[..|report| - 1], report[|report| - 1];
      assert report == first + [last];
      TargetsArePlaced(first, target);
    }
  }

  /** The last entry of the report that passes the test is of that window. */
  ghost predicate IsLastIn(report: seq<TabReport>, test: TabReport -> bool, window: int) {
    exists n :: 0 <= n < |report| && test(report[n]) && report[n].tab.window == window
      && NoneAfter(report, test, n)
  }

  ghost predicate NoneAfter(report: seq<TabReport>, test: TabReport -> bool, n: nat) {
    forall m :: n < m < |report| ==> !test(report[m])
  }

  lemma LastOneMore(report: seq<TabReport>, last: TabReport, test: TabReport -> bool, window: int)
    ensures IsLastIn(report + [last], test, window)
      <==> if test(last) then last.tab.window == window else IsLastIn(report, test, window)
  {
    var more := report + [last];
    if test(last) {
      assert more[|report|] == last && NoneAfter(more, test, |report|);
    } else if IsLastIn(report, test, window) {
      var n :| 0 <= n < |report| && test(report[n]) && report[n].tab.window == window && NoneAfter(report, test, n);
      assert more[n] == report[n] && NoneAfter(more, test, n);
    }
    if IsLastIn(more, test, window) {
      var n :| 0 <= n < |more| && test(more[n]) && more[n].tab.window == window && NoneAfter(more, test, n);
      assert n < |report| ==> report[n] == more[n] && !test(more[|report|]);
      if n < |report| {
        forall m | n < m < |report| ensures !test(report[m]) {
          assert report[m] == more[m];
        }
        assert NoneAfter(report, test, n);
      }
    }
  }

  function IsTab(id: nat): TabReport -> bool {
    (entry: TabReport) => entry.id == id
  }

  function HasTarget(target: string): TabReport -> bool {
    (entry: TabReport) => entry.tab.target == Some(target)
  }

  /** A tab is placed in a window exactly when the last entry of it says so, and a target by the last entry that has it. */
  lemma {:induction false} LastEntriesCount(report: seq<TabReport>, id: nat, target: string, window: int)
    ensures id in TabPlaces(report) && TabPlaces(report)[id] == window <==> IsLastIn(report, IsTab(id), window)
    ensures target in TargetPlaces(report) && TargetPlaces(report)[target] == window
      <==> IsLastIn(report, HasTarget(target), window)
  {
    if report == [] {
    } else {
      var first, last := report[..|report| - 1], report[|report| - 1];
      assert report == first + [last];
      LastEntriesCount(first, id, target, window);
      LastOneMore(first, last, IsTab(id), window);
      LastOneMore(first, last, HasTarget(target), window);
    }
  }

  /** A window hears of the tabs that the report has there, in its order, and of the first one that is active. */
  lemma WindowsHearInOrder(report: seq<TabReport>, window: int)
    ensures
      var told := ToldTo(report, window);
      told.tabs == Keep((entry: TabReport) => entry.tab.window == window, report)
      && (told.active.Some? <==> exists n :: 0 <= n < |told.tabs| && told.tabs[n].tab.active)
      && (told.active.Some? ==>
        exists n :: 0 <= n < |told.tabs| && told.tabs[n].id == told.active.value && told.tabs[n].tab.active
          && forall m :: 0 <= m < n ==> !told.tabs[m].tab.active)
  {
    KeepSame(OfWindow(window), (entry: TabReport) => entry.tab.window == window, report);
    FirstPlaceOf(IsActive, ToldTo(report, window).tabs);
  }

  lemma {:induction false} FirstPlaceOf<T(!new)>(test: T -> bool, items: seq<T>)
    ensures First(test, items).Some? ==>
      exists n :: 0 <= n < |items| && items[n] == First(test, items).value && test(items[n])
        && forall m :: 0 <= m < n ==> !test(items[m])
  {
    if items == [] {
    } else if test(items[0]) {
      assert items[0] == First(test, items).value;
    } else {
      FirstPlaceOf(test, items[1..]);
      if First(test, items).Some? {
        var n :| 0 <= n < |items| - 1 && items[1..][n] == First(test, items[1..]).value && test(items[1..][n])
          && forall m :: 0 <= m < n ==> !test(items[1..][m]);
        assert items[n + 1] == items[1..][n];
        assert forall m :: 0 < m < n + 1 ==> items[m] == items[1..][m - 1];
      }
    }
  }
}
