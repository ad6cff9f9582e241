/** News of a page that has no place yet waits, goes to the driver when the page is its own, and is forgotten after a while. */
module WaitingNews {
  import opened Wrappers
  import opened DriverMessages
  import opened DriverViews
  import opened DriverRuns
  import opened DriverReach

  /** In its turn the target is the driver's, also when a tab opens then. */
  ghost predicate IsOwnThen(run: seq<Step>, window: int, n: nat, target: string)
    requires n < |run| && !run[n].Asks?
  {
    Owns(run[..n], window, target, run[n].place) || OpensFor(run[n], target)
  }

  ghost predicate IsUnknownThen(run: seq<Step>, window: int, n: nat, target: string)
    requires n < |run| && !run[n].Asks?
  {
    !IsOwnThen(run, window, n, target) && target !in run[n].place
  }

  /** News of the page comes in the turn while nobody knows whose page it is. */
  ghost predicate ComesEarly(run: seq<Step>, window: int, n: nat, target: string) {
    n < |run| && run[n].Tells? && run[n].message.Some? && IsPageNews(run[n].message.value, target)
    && IsUnknownThen(run, window, n, target)
  }

  /** A turn in which the news that came in an earlier turn waits on. */
  ghost predicate WaitsIn(run: seq<Step>, window: int, m: nat, k: nat, target: string)
    requires m < k < |run| && !run[m].Asks?
  {
    |After(run[..k], window).held| < 256 && !Ends(run[k], target)
    && (!run[k].Asks? ==> IsUnknownThen(run, window, k, target) && run[k].now < run[m].now + 5_000_000_000)
  }

  lemma UnknownExactly(run: seq<Step>, window: int, n: nat, target: string)
    requires n < |run| && !run[n].Asks?
    ensures
      var view := if run[n].Opens? then AfterOpened(After(run[..n], window), run[n].target) else After(run[..n], window);
      (IsOwnThen(run, window, n, target) <==> IsOurs(view, target, run[n].place))
      && (IsUnknownThen(run, window, n, target) <==> WhoseIs(view, target, run[n].place) == Unknown)
  {
    OwnsExactly(run[..n], window, target, run[n].place);
  }

  lemma ReleaseKeepsWaiting(view: ViewState, place: Placement, now: nat, news: Held)
    requires news in view.held && WhoseIs(view, news.target, place) == Unknown && now < news.at + 5_000_000_000
    ensures news in AfterRelease(view, place, now).held
  {
  }

  lemma TellKeepsWaiting(view: ViewState, message: Message, place: Placement, active: Option<string>, now: nat, news: Held)
    requires news in view.held && |view.held| < MOST_HELD
    requires !(message.session.None? && message.event == Some(TargetDestroyed) && message.target == Some(news.target))
    ensures news in TellOutcome(view, message, place, active, now).view.held
  {
    if message.event == Some(TargetDestroyed) && message.session.None? && message.target.Some? {
      assert Other(message.target.value)(news);
    }
  }

  lemma StepKeepsWaiting(run: seq<Step>, window: int, m: nat, k: nat, target: string, news: Held)
    requires m < k < |run| && !run[m].Asks? && WaitsIn(run, window, m, k, target)
    requires news.target == target && news.at == run[m].now && news in After(run[..k], window).held
    ensures news in After(run[..k + 1], window).held
  {
    var view, step := After(run[..k], window), run[k];
    RunUpTo(run, window, k);
    if !step.Asks? {
      UnknownExactly(run, window, k, target);
      if step.Opens? {
        ReleaseKeepsWaiting(AfterOpened(view, step.target), step.place, step.now, news);
      } else {
        ReleaseKeepsWaiting(view, step.place, step.now, news);
        if step.Tells? && step.message.Some? {
          var released := AfterRelease(view, step.place, step.now);
          TellKeepsWaiting(released, step.message.value, step.place, step.active, step.now, news);
        }
      }
    }
  }

  lemma ComesToWait(run: seq<Step>, window: int, n: nat, target: string)
    requires ComesEarly(run, window, n, target)
    ensures Held(target, run[n].message.value, run[n].now) in After(run[..n + 1], window).held
  {
    RunUpTo(run, window, n);
    UnknownExactly(run, window, n, target);
    var view := AfterRelease(After(run[..n], window), run[n].place, run[n].now);
    assert WhoseIs(view, target, run[n].place) == Unknown;
  }

  lemma {:induction false} StillThere(run: seq<Step>, window: int, m: nat, n: nat, news: Held)
    requires m < n <= |run| && !run[m].Asks? && news.at == run[m].now
    requires news in After(run[..m + 1], window).held
    requires forall k: nat :: m < k < n ==> WaitsIn(run, window, m, k, news.target)
    ensures news in After(run[..n], window).held
  {
    if n == m + 1 {
    } else {
      StillThere(run, window, m, n - 1, news);
      assert WaitsIn(run, window, m, n - 1, news.target);
      StepKeepsWaiting(run, window, m, n - 1, news.target, news);
    }
  }

  lemma OwnNewsIsReleased(view: ViewState, place: Placement, news: Held)
    requires news in view.held && IsOurs(view, news.target, place)
    ensures News(news.message) in ReleaseSaid(view, place)
  {
    var released := Released(view, place);
    var i :| 0 <= i < |released| && released[i] == news;
    assert ReleaseSaid(view, place)[i] == News(news.message);
  }

  /**
   News that came early goes to the driver in the first turn in which its page is the driver's, when it
   waited less than five seconds until then, while nothing filled up and the page did not end.
   */
  lemma NewsGoesWhenItsPageIsOwn(run: seq<Step>, window: int, m: nat, n: nat, target: string)
    requires m < n < |run| && ComesEarly(run, window, m, target)
    requires forall k: nat :: m < k < n ==> WaitsIn(run, window, m, k, target)
    requires !run[n].Asks? && IsOwnThen(run, window, n, target)
    ensures News(run[m].message.value) in Said(After(run[..n], window), run[n])
  {
    var news := Held(target, run[m].message.value, run[m].now);
    ComesToWait(run, window, m, target);
    StillThere(run, window, m, n, news);
    UnknownExactly(run, window, n, target);
    var view, step := After(run[..n], window), run[n];
    OwnNewsIsReleased(if step.Opens? then AfterOpened(view, step.target) else view, step.place, news);
  }

  lemma WaitedOrCame(view: ViewState, message: Message, place: Placement, active: Option<string>, now: nat, news: Held)
    requires news in TellOutcome(view, message, place, active, now).view.held
    ensures news in view.held || news.at == now
  {
  }

  lemma ReleasedIsYoung(view: ViewState, place: Placement, now: nat, news: Held)
    requires news in AfterRelease(view, place, now).held
    ensures now < news.at + 5_000_000_000
  {
    assert Stays(view, place, now)(news);
  }

  /** What waits after a turn other than a command's came less than five seconds before. */
  lemma WaitingIsYoung(run: seq<Step>, window: int, n: nat, news: Held)
    requires n < |run| && !run[n].Asks? && news in After(run[..n + 1], window).held
    ensures run[n].now < news.at + 5_000_000_000
  {
    var view, step := After(run[..n], window), run[n];
    RunUpTo(run, window, n);
    if step.Opens? {
      ReleasedIsYoung(AfterOpened(view, step.target), step.place, step.now, news);
    } else {
      var released := AfterRelease(view, step.place, step.now);
      if step.Tells? && step.message.Some? {
        WaitedOrCame(released, step.message.value, step.place, step.active, step.now, news);
      }
      if news in released.held {
        ReleasedIsYoung(view, step.place, step.now, news);
      }
    }
  }

  /** When 256 pieces of news wait, the oldest makes room for a new one, and otherwise all of them stay. */
  lemma OldestMakesRoom(run: seq<Step>, window: int, n: nat, target: string)
    requires ComesEarly(run, window, n, target)
    ensures
      var kept := AfterRelease(After(run[..n], window), run[n].place, run[n].now).held;
      After(run[..n + 1], window).held
      == (if |kept| < 256 then kept else kept[1..]) + [Held(target, run[n].message.value, run[n].now)]
  {
    RunUpTo(run, window, n);
    UnknownExactly(run, window, n, target);
    ViewsAreBounded(run[..n], window);
    var view := AfterRelease(After(run[..n], window), run[n].place, run[n].now);
    assert WhoseIs(view, target, run[n].place) == Unknown;
  }
}
