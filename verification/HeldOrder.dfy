/**
 When an event of a crash comes before earlier news of its page: exactly when it passes while such
 news waits, which one more placement then lets go.
 */
module HeldOrder {
  import opened Wrappers
  import opened DriverMessages
  import opened DriverViews
  import opened DriverRuns
  import opened DriverProvenance
  import opened Filters
  import opened HeldNews

  /** An event of a crash passes while news of its page waits. */
  predicate Overtakes(view: ViewState, step: Step, target: string) {
    Crashes(step, target) &&
    var released := AfterRelease(view, step.place, step.now);
    target in released.told && target in HeldTargets(released.held)
  }

  predicate NoCrashOvertakes(run: seq<Step>, window: int, target: string) {
    forall n :: 0 <= n < |run| ==> !Overtakes(After(run[..n], window), run[n], target)
  }

  predicate Rising(sent: seq<Delivery>) {
    forall i, j :: 0 <= i < j < |sent| ==> sent[i].from < sent[j].from
  }

  /** What the driver got about the page came in the order in which the browser told it. */
  predicate KeepsOrder(run: seq<Step>, window: int, target: string) {
    Rising(TrackOf(run, window, target).sent)
  }

  // ----- The order without overtaking -----

  /** What waits was told after what was sent. */
  predicate Strict(track: Track, target: string) {
    Rising(track.sent)
    && forall i, tagged :: 0 <= i < |track.sent| && tagged in track.waiting && tagged.held.target == target ==>
      track.sent[i].from < tagged.from
  }

  predicate Before(track: Track, n: nat) {
    (forall i :: 0 <= i < |track.sent| ==> track.sent[i].from < n)
    && forall tagged :: tagged in track.waiting ==> tagged.from < n
  }

  lemma RisingMore(sent: seq<Delivery>, more: seq<Delivery>)
    requires Rising(sent) && Rising(more)
    requires forall i, j :: 0 <= i < |sent| && 0 <= j < |more| ==> sent[i].from < more[j].from
    ensures Rising(sent + more)
  {
  }

  lemma ReleaseKeepsStrict(view: ViewState, track: Track, place: Placement, now: nat, n: nat, target: string)
    requires Strict(track, target) && Before(track, n) && Sorted(track.waiting)
    ensures
      var next := TrackRelease(view, track, place, now, n, target);
      Strict(next, target) && Before(next, n)
      && forall tagged :: tagged in next.waiting ==> !IsOurs(view, tagged.held.target, place)
  {
    if IsOurs(view, target, place) {
      var going := Keep(OnHeld(SameTarget(target)), track.waiting);
      KeepSorted(OnHeld(SameTarget(target)), track.waiting);
      assert forall i :: 0 <= i < |going| ==> going[i] in going;
      RisingMore(track.sent, Deliveries(going, n));
    } else {
      assert track.sent + [] == track.sent;
    }
  }

  lemma SentKeepsStrict(track: Track, message: Message, n: nat, target: string)
    requires Strict(track, target) && Before(track, n)
    requires forall tagged :: tagged in track.waiting ==> tagged.held.target != target
    ensures Strict(track.(sent := track.sent + [Delivery(message, n, n)]), target)
  {
    RisingMore(track.sent, [Delivery(message, n, n)]);
  }

  lemma WaitingKeepsStrict(track: Track, more: Held, n: nat, target: string)
    requires Strict(track, target) && Before(track, n)
    ensures Strict(track.(waiting := RoomFor(track.waiting) + [Tagged(more, n)]), target)
  {
    assert forall tagged :: tagged in RoomFor(track.waiting) ==> tagged in track.waiting;
  }

  lemma NewsKeepsStrict(
    view: ViewState, track: Track, message: Message, place: Placement, now: nat, n: nat, target: string)
    requires Strict(track, target) && Before(track, n)
    requires forall tagged :: tagged in track.waiting ==> !IsOurs(view, tagged.held.target, place)
    ensures Strict(TrackNews(view, track, message, place, now, n, target), target)
  {
    if message.info.target.Some? && message.info.page {
      var of := message.info.target.value;
      if IsOurs(view, of, place) && of == target {
        SentKeepsStrict(track, message, n, target);
      } else if WhoseIs(view, of, place) == Unknown {
        WaitingKeepsStrict(track, Held(of, message, now), n, target);
      } else {
        assert track.sent + [] == track.sent;
      }
    }
  }

  lemma EndKeepsStrict(track: Track, message: Message, of: string, sent: bool, n: nat, target: string)
    requires Strict(track, target) && Before(track, n) && (sent ==> of == target)
    ensures
      Strict(Track(track.sent + SentIf(sent, message, n), Keep(OnHeld(Other(of)), track.waiting)), target)
  {
    var left := track.(waiting := Keep(OnHeld(Other(of)), track.waiting));
    assert Strict(left, target);
    if sent {
      SentKeepsStrict(left, message, n, target);
    } else {
      assert track.sent + [] == track.sent;
    }
  }

  lemma TellKeepsStrict(
    view: ViewState, track: Track, message: Message, place: Placement, now: nat, n: nat, target: string)
    requires Strict(track, target) && Before(track, n) && Untagged(track.waiting) == view.held
    requires forall tagged :: tagged in track.waiting ==> !IsOurs(view, tagged.held.target, place)
    requires
      var crashes := message.session.None? && message.event == Some(TargetCrashed) && message.target == Some(target);
      crashes && target in view.told ==> target !in HeldTargets(view.held)
    ensures Strict(TrackTell(view, track, message, place, now, n, target), target)
  {
    if message.session.None? && message.event.Some? {
      match message.event.value
      case TargetCreated => NewsKeepsStrict(view, track, message, place, now, n, target);
      case TargetInfoChanged => NewsKeepsStrict(view, track, message, place, now, n, target);
      case TargetDestroyed =>
        if message.target.Some? {
          var of := message.target.value;
          EndKeepsStrict(track, message, of, of == target && target in view.told, n, target);
        }
      case TargetCrashed =>
        if message.target == Some(target) && target in view.told {
          assert forall tagged :: tagged in track.waiting ==> tagged.held in Untagged(track.waiting);
          SentKeepsStrict(track, message, n, target);
        } else {
          assert track.sent + [] == track.sent;
        }
      case _ =>
    }
  }

  lemma StepKeepsStrict(view: ViewState, track: Track, step: Step, n: nat, target: string)
    requires Strict(track, target) && Before(track, n) && Sorted(track.waiting) && Untagged(track.waiting) == view.held
    requires !Overtakes(view, step, target)
    ensures Strict(TrackStep(view, track, step, n, target), target)
  {
    match step
    case Asks(_, _, _) =>
    case Places(place, now) => ReleaseKeepsStrict(view, track, place, now, n, target);
    case Opens(_, tab, place, now) => ReleaseKeepsStrict(AfterOpened(view, tab), track, place, now, n, target);
    case Tells(message, place, _, now) =>
      ReleaseKeepsStrict(view, track, place, now, n, target);
      if message.Some? {
        var released := TrackRelease(view, track, place, now, n, target);
        KeepUntagged(Stays(view, place, now), track.waiting);
        TellKeepsStrict(AfterRelease(view, place, now), released, message.value, place, now, n, target);
      }
  }

  lemma EarlierToo(run: seq<Step>, window: int, target: string)
    requires NoCrashOvertakes(run, window, target) && run != []
    ensures NoCrashOvertakes(run[..|run| - 1], window, target)
    ensures !Overtakes(After(run[..|run| - 1], window), run[|run| - 1], target)
  {
    var earlier := run[..|run| - 1];
    forall n | 0 <= n < |earlier| ensures !Overtakes(After(earlier[..n], window), earlier[n], target) {
      assert earlier[..n] == run[..n];
    }
  }

  lemma GoodIsBefore(run: seq<Step>, view: ViewState, got: seq<Receipt>, track: Track, target: string)
    requires Good(run, view, got, track, target)
    ensures Before(track, |run|) && Sorted(track.waiting) && Untagged(track.waiting) == view.held
  {
  }

  lemma {:induction false} NoOvertakingKeepsStrict(run: seq<Step>, window: int, target: string)
    requires NoCrashOvertakes(run, window, target)
    ensures Strict(TrackOf(run, window, target), target)
  {
    if run == [] {
    } else {
      var earlier, step := run[..|run| - 1], run[|run| - 1];
      var view, track := After(earlier, window), TrackOf(earlier, window, target);
      EarlierToo(run, window, target);
      NoOvertakingKeepsStrict(earlier, window, target);
      RunsAreGood(earlier, window, target);
      GoodIsBefore(earlier, view, Receipts(earlier, window), track, target);
      StepKeepsStrict(view, track, step, |earlier|, target);
      LastTurn(run, window, target);
    }
  }

  // ----- Overtaking breaks the order -----

  /** The turn in which a crash overtakes. */
  lemma CrashTurn(view: ViewState, track: Track, step: Step, n: nat, target: string)
    requires Overtakes(view, step, target)
    ensures Next(view, step) == AfterRelease(view, step.place, step.now)
    ensures
      var released := TrackRelease(view, track, step.place, step.now, n, target);
      TrackStep(view, track, step, n, target)
      == released.(sent := released.sent + [Delivery(step.message.value, n, n)])
  {
  }

  lemma HeldIsTagged(waiting: seq<Tagged>, target: string)
    requires target in HeldTargets(Untagged(waiting))
    ensures exists tagged :: tagged in waiting && tagged.held.target == target
  {
    var news :| news in Untagged(waiting) && news.target == target;
    var k :| 0 <= k < |waiting| && Untagged(waiting)[k] == news;
    assert waiting[k] in waiting;
  }

  /** What waits was not told in the turn of a crash. */
  lemma NewsIsNoCrash(run: seq<Step>, held: seq<Held>, waiting: seq<Tagged>, tagged: Tagged, target: string)
    requires run != [] && WaitInv(run, held, waiting, |run|) && tagged in waiting
    requires Crashes(run[|run| - 1], target)
    ensures tagged.from < |run| - 1
  {
    assert IsPageNews(tagged.held.message, tagged.held.target) && Told(run, tagged.from, tagged.held.message);
  }

  /** The last event to come is of this turn, and news of an earlier one waits. */
  ghost predicate IsOvertaken(track: Track, n: nat, target: string) {
    track.sent != [] && track.sent[|track.sent| - 1].from == n
    && exists tagged :: tagged in track.waiting && tagged.held.target == target && tagged.from < n
  }

  /** Right after a crash that overtakes, the news that it passed waits. */
  lemma OvertakenWaits(run: seq<Step>, window: int, target: string)
    requires run != []
    requires Overtakes(After(run[..|run| - 1], window), run[|run| - 1], target)
    ensures IsOvertaken(TrackOf(run, window, target), |run| - 1, target)
  {
    var n, track := |run| - 1, TrackOf(run, window, target);
    LastTurn(run, window, target);
    CrashTurn(After(run[..n], window), TrackOf(run[..n], window, target), run[n], n, target);
    RunsAreGood(run, window, target);
    HeldIsTagged(track.waiting, target);
    var tagged :| tagged in track.waiting && tagged.held.target == target;
    NewsIsNoCrash(run, After(run, window).held, track.waiting, tagged, target);
  }

  lemma SentTooLate(track: Track, n: nat, at: nat, target: string)
    requires IsOvertaken(track, n, target)
    ensures !Rising(track.sent + Deliveries(Keep(OnHeld(SameTarget(target)), track.waiting), at))
  {
    var tagged :| tagged in track.waiting && tagged.held.target == target && tagged.from < n;
    var going := Keep(OnHeld(SameTarget(target)), track.waiting);
    assert tagged in going;
    var k :| 0 <= k < |going| && going[k] == tagged;
    var sent := track.sent + Deliveries(going, at);
    assert sent[|track.sent| + k].from < sent[|track.sent| - 1].from;
  }

  /** One more placement lets the news go after the crash. */
  lemma PlacingBreaksOrder(run: seq<Step>, window: int, target: string, placed: Placement, now: nat)
    requires run != [] && target in placed && placed[target] == window
    requires IsOvertaken(TrackOf(run, window, target), |run| - 1, target)
    ensures !KeepsOrder(run + [Places(placed, now)], window, target)
  {
    var more := run + [Places(placed, now)];
    assert more[..|more| - 1] == run;
    LastTurn(more, window, target);
    WindowStays(run, window);
    assert IsOurs(After(run, window), target, placed);
    SentTooLate(TrackOf(run, window, target), |run| - 1, |run|, target);
  }

  /** Placing pages once more after the first turns breaks the order. */
  predicate BreaksAt(run: seq<Step>, window: int, target: string, k: nat, place: Placement, now: nat) {
    k <= |run| && !KeepsOrder(run[..k] + [Places(place, now)], window, target)
  }

  /**
   Events of a crash never overtake news in a run exactly when, after every turn of it, placing pages
   anyhow keeps the order of what the driver got.
   */
  lemma OrderHoldsExactly(run: seq<Step>, window: int, target: string)
    ensures NoCrashOvertakes(run, window, target)
      <==> forall k: nat, place: Placement, now: nat :: !BreaksAt(run, window, target, k, place, now)
  {
    if NoCrashOvertakes(run, window, target) {
      forall k: nat, place: Placement, now: nat | k <= |run|
        ensures !BreaksAt(run, window, target, k, place, now)
      {
        PlacingKeepsOrder(run, window, target, k, place, now);
      }
    } else {
      var n: nat :| n < |run| && Overtakes(After(run[..n], window), run[n], target);
      OvertakingBreaksOrder(run, window, target, n);
      var k: nat, place: Placement, now: nat :| BreaksAt(run, window, target, k, place, now);
    }
  }

  lemma PlacingKeepsOrder(run: seq<Step>, window: int, target: string, k: nat, place: Placement, now: nat)
    requires NoCrashOvertakes(run, window, target) && k <= |run|
    ensures KeepsOrder(run[..k] + [Places(place, now)], window, target)
  {
    FirstTurnsToo(run, window, target, k, Places(place, now));
    NoOvertakingKeepsStrict(run[..k] + [Places(place, now)], window, target);
  }

  lemma OvertakingBreaksOrder(run: seq<Step>, window: int, target: string, n: nat)
    requires n < |run| && Overtakes(After(run[..n], window), run[n], target)
    ensures exists k: nat, place: Placement, now: nat :: BreaksAt(run, window, target, k, place, now)
  {
    var first, placed := run[..n + 1], run[n].place[target := window];
    assert first[..n] == run[..n] && first[n] == run[n];
    OvertakenWaits(first, window, target);
    PlacingBreaksOrder(first, window, target, placed, run[n].now);
    assert BreaksAt(run, window, target, n + 1, placed, run[n].now);
  }

  lemma FirstTurnsToo(run: seq<Step>, window: int, target: string, k: nat, last: Step)
    requires NoCrashOvertakes(run, window, target) && k <= |run| && last.Places?
    ensures NoCrashOvertakes(run[..k] + [last], window, target)
  {
    var some := run[..k] + [last];
    forall n | 0 <= n < |some| ensures !Overtakes(After(some[..n], window), some[n], target) {
      if n < k {
        assert some[..n] == run[..n];
      }
    }
  }

  // ----- The order as the driver sees it -----

  predicate TellsAbout(step: Step, target: string) {
    step.Tells? && step.message.Some? && IsAbout(step.message.value, target)
  }

  /** The browser tells no two messages about the page that are the same. */
  predicate ToldOnce(run: seq<Step>, target: string) {
    forall m, n :: 0 <= m < n < |run| && TellsAbout(run[m], target) && run[n].Tells? ==>
      run[m].message != run[n].message
  }

  /** The deliveries are of what the driver got, each by a message that the browser told before. */
  ghost predicate Explains(run: seq<Step>, window: int, target: string, sent: seq<Delivery>) {
    ReceiptsOf(sent) == ReceiptsAbout(run, window, target) && Faithful(run, target, sent)
  }

  lemma OnlyOneExplains(run: seq<Step>, window: int, target: string, sent: seq<Delivery>)
    requires ToldOnce(run, target) && Explains(run, window, target, sent)
    ensures sent == TrackOf(run, window, target).sent
  {
    RunsAreGood(run, window, target);
    var own := TrackOf(run, window, target).sent;
    assert |sent| == |ReceiptsOf(sent)| == |ReceiptsOf(own)| == |own|;
    forall i | 0 <= i < |sent| ensures sent[i] == own[i] {
      var receipt := ReceiptsOf(sent)[i];
      assert receipt == ReceiptsOf(own)[i] && receipt in ReceiptsAbout(run, window, target);
      assert NewsAbout(target)(receipt) && IsAbout(sent[i].message, target);
      assert IsFaithful(run, target, sent[i]) && IsFaithful(run, target, own[i]);
    }
  }

  /** Then the order that the driver sees is kept exactly when the run keeps it. */
  lemma OrderIsVisible(run: seq<Step>, window: int, target: string)
    requires ToldOnce(run, target)
    ensures KeepsOrder(run, window, target) <==> exists sent :: Explains(run, window, target, sent) && Rising(sent)
  {
    RunsAreGood(run, window, target);
    assert Explains(run, window, target, TrackOf(run, window, target).sent);
    forall sent | Explains(run, window, target, sent) ensures sent == TrackOf(run, window, target).sent {
      OnlyOneExplains(run, window, target, sent);
    }
  }

  // ----- A run in which it fails -----

  const CREATED := Message(None, Some(TargetCreated), None, None, None, Info(Some("page"), true), None, None, "created")
  const CHANGED := Message(None, Some(TargetInfoChanged), None, None, None, Info(Some("page"), true), None, None, "changed")
  const CRASHED := Message(None, Some(TargetCrashed), None, None, Some("page"), Info(None, false), None, None, "crashed")
  const HERE: Placement := map["page" := 1]
  const NOWHERE: Placement := map[]

  /** A page of window 1 changes and crashes while it has no place, and then has its place again. */
  const CRASH_RUN: seq<Step> := [
    Tells(Some(CREATED), HERE, None, 0), Tells(Some(CHANGED), NOWHERE, None, 0), Tells(Some(CRASHED), NOWHERE, None, 0),
    Places(HERE, 0)]

  lemma KeepOne<T(!new)>(keep: T -> bool, item: T)
    ensures Keep(keep, [item]) == if keep(item) then [item] else []
  {
    assert [item][..0] == [];
  }

  lemma AfterTwo(run: seq<Step>, window: int)
    requires |run| >= 2
    ensures After(run[..2], window) == Next(Next(NewView(window), run[0]), run[1])
  {
    assert run[..2][..1] == run[..1] && run[..1][..0] == [];
    assert After(run[..1], window) == Next(NewView(window), run[0]);
  }

  /** What the view is before the crash. */
  function Changed(): ViewState {
    NewView(1).(told := {"page"}, held := [Held("page", CHANGED, 0)])
  }

  lemma CreationIsTold()
    ensures Next(NewView(1), CRASH_RUN[0]) == NewView(1).(told := {"page"})
  {
  }

  lemma ChangeWaits()
    ensures Next(NewView(1).(told := {"page"}), CRASH_RUN[1]) == Changed()
  {
  }

  /** The only news that waits stays where it is while nobody knows its page. */
  lemma OneStillWaits(view: ViewState, news: Held, place: Placement, now: nat)
    requires view.held == [news]
    requires Stays(view, place, now)(news)
    ensures AfterRelease(view, place, now) == view
  {
    KeepOne(Stays(view, place, now), news);
    KeepOne(Goes(view, place), news);
    assert HeldTargets(Released(view, place)) == {};
  }

  lemma ChangeStillWaits()
    ensures AfterRelease(Changed(), NOWHERE, 0) == Changed()
  {
    OneStillWaits(Changed(), Held("page", CHANGED, 0), NOWHERE, 0);
  }

  lemma CrashRunChanges()
    ensures After(CRASH_RUN[..2], 1) == Changed()
  {
    AfterTwo(CRASH_RUN, 1);
    CreationIsTold();
    ChangeWaits();
  }

  lemma ChangedIsOvertaken()
    ensures Overtakes(Changed(), CRASH_RUN[2], "page")
  {
    ChangeStillWaits();
    assert Changed().held[0] in Changed().held;
  }

  lemma CrashRunOvertakes()
    ensures Overtakes(After(CRASH_RUN[..2], 1), CRASH_RUN[2], "page")
  {
    CrashRunChanges();
    ChangedIsOvertaken();
  }

  lemma CrashRunIsToldOnce()
    ensures ToldOnce(CRASH_RUN, "page")
  {
    assert CREATED.body != CHANGED.body;
  }

  /** The driver hears of the crash before it hears of the change that came before the crash. */
  lemma CrashRunBreaksOrder()
    ensures !exists sent :: Explains(CRASH_RUN, 1, "page", sent) && Rising(sent)
  {
    CrashRunOvertakes();
    var first := CRASH_RUN[..3];
    assert first[..2] == CRASH_RUN[..2] && CRASH_RUN == first + [Places(HERE, 0)];
    OvertakenWaits(first, 1, "page");
    PlacingBreaksOrder(first, 1, "page", HERE, 0);
    CrashRunIsToldOnce();
    OrderIsVisible(CRASH_RUN, 1, "page");
  }
}
