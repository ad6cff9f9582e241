/** Runs of a driver's connection: what the driver was told is exact, and what waits is bounded. */
module DriverRuns {
  import opened Wrappers
  import opened DriverMessages
  import opened DriverViews
  import opened Text

  /**
   One turn of the connection, with the placement that it sees. News that waits goes first. A command
   may find as many tabs opening as may open at a time.
   */
  datatype Step =
    | Asks(command: Option<Command>, place: Placement, full: bool)
    | Tells(message: Option<Message>, place: Placement, active: Option<string>, now: nat)
    | Places(place: Placement, now: nat)
    | Opens(id: nat, target: Option<string>, place: Placement, now: nat)

  datatype ToDriver =
    | News(message: Message)
    | List(message: Message)
    | Answer(answer: DriverMessages.Answer)

  function Next(view: ViewState, step: Step): ViewState {
    match step
    case Asks(command, place, _) => if command.Some? then AfterAsk(view, command.value, place) else view
    case Tells(message, place, active, now) =>
      var released := AfterRelease(view, place, now);
      if message.Some? then TellOutcome(released, message.value, place, active, now).view else released
    case Places(place, now) => AfterRelease(view, place, now)
    case Opens(_, target, place, now) => AfterRelease(AfterOpened(view, target), place, now)
  }

  function NewsOf(messages: seq<Message>): seq<ToDriver> {
    seq(|messages|, i requires 0 <= i < |messages| => News(messages[i]))
  }

  function ReleaseSaid(view: ViewState, place: Placement): seq<ToDriver> {
    NewsOf(MessagesOf(Released(view, place)))
  }

  function TellSaid(tell: Tell, message: Message): seq<ToDriver> {
    match tell
    case PassOn => [News(message)]
    case Drop => []
    case Changed(changed) => [List(changed)]
  }

  function AskSaid(ask: Ask, full: bool): seq<ToDriver> {
    match ask
    case Open(id, _) => if full then [Answer(Failure(id, None, TooManyOpen))] else []
    case Reply(answer) => [Answer(answer)]
    case Dialog(_, _, _, answer) => [Answer(answer)]
    case _ => []
  }

  /** What the driver gets in a turn. */
  function Said(view: ViewState, step: Step): seq<ToDriver> {
    match step
    case Asks(command, place, full) =>
      if command.Some? then AskSaid(AskOf(view, command.value, place), full)
      else [Answer(Failure(0, None, NotACommand))]
    case Tells(message, place, active, now) =>
      ReleaseSaid(view, place)
      + if message.Some? then
          TellSaid(TellOutcome(AfterRelease(view, place, now), message.value, place, active, now).tell, message.value)
        else []
    case Places(place, _) => ReleaseSaid(view, place)
    case Opens(id, target, place, _) =>
      [Answer(OpenedAnswer(id, target))] + ReleaseSaid(AfterOpened(view, target), place)
  }

  function After(run: seq<Step>, window: int): ViewState {
    if run == [] then NewView(window) else Next(After(run[..|run| - 1], window), run[|run| - 1])
  }

  /** Everything that the driver got in a run. */
  function Got(run: seq<Step>, window: int): seq<ToDriver> {
    if run == [] then []
    else Got(run[..|run| - 1], window) + Said(After(run[..|run| - 1], window), run[|run| - 1])
  }

  // ----- What waits -----

  /** News of the creation or change of a page, which is about one target. */
  predicate IsPageNews(message: Message, target: string) {
    message.session.None? && message.event.Some?
    && (message.event.value.TargetCreated? || message.event.value.TargetInfoChanged?)
    && message.info.target == Some(target) && message.info.page
  }

  predicate Bounded(view: ViewState) {
    |view.asked| <= MOST_ASKED && |view.held| <= MOST_HELD
  }

  predicate HoldsNews(view: ViewState) {
    forall news :: news in view.held ==> IsPageNews(news.message, news.target)
  }

  lemma RemovalShrinks<K(!new), V>(m: map<K, V>, key: K)
    ensures |m - {key}| <= |m|
  {
    if key in m {
      assert m == (m - {key})[key := m[key]];
    } else {
      assert m - {key} == m;
    }
  }

  lemma PageNewsKeepsBounds(view: ViewState, message: Message, place: Placement, now: nat)
    requires Bounded(view) && HoldsNews(view)
    requires message.session.None?
    requires message.event == Some(TargetCreated) || message.event == Some(TargetInfoChanged)
    ensures Bounded(PageNews(view, message, place, now).view) && HoldsNews(PageNews(view, message, place, now).view)
  {
  }

  lemma AnswerKeepsBounds(view: ViewState, message: Message, place: Placement, active: Option<string>)
    requires Bounded(view)
    ensures
      var next := AnswerOutcome(view, message, place, active).view;
      Bounded(next) && next.held == view.held
  {
    if message.id.Some? {
      RemovalShrinks(view.asked, message.id.value);
    }
  }

  lemma TellKeepsBounds(view: ViewState, message: Message, place: Placement, active: Option<string>, now: nat)
    requires Bounded(view) && HoldsNews(view)
    ensures
      var next := TellOutcome(view, message, place, active, now).view;
      Bounded(next) && HoldsNews(next)
  {
    if message.session.Some? {
    } else if message.event.None? {
      AnswerKeepsBounds(view, message, place, active);
    } else if message.event.value.TargetCreated? || message.event.value.TargetInfoChanged? {
      PageNewsKeepsBounds(view, message, place, now);
    }
  }

  lemma StepKeepsBounds(view: ViewState, step: Step)
    requires Bounded(view) && HoldsNews(view)
    ensures Bounded(Next(view, step)) && HoldsNews(Next(view, step))
  {
    if step.Tells? && step.message.Some? {
      TellKeepsBounds(AfterRelease(view, step.place, step.now), step.message.value, step.place, step.active, step.now);
    }
  }

  /** A view never waits for more answers, and never holds back more news, than it may. */
  lemma {:induction false} ViewsAreBounded(run: seq<Step>, window: int)
    ensures Bounded(After(run, window)) && HoldsNews(After(run, window))
  {
    if run == [] {
    } else {
      ViewsAreBounded(run[..|run| - 1], window);
      StepKeepsBounds(After(run[..|run| - 1], window), run[|run| - 1]);
    }
  }

  // ----- What the driver knows -----

  /** What a driver knows after one more message: the pages it heard of and that are not gone. */
  function KnownAfter(known: set<string>, said: ToDriver): set<string> {
    match said
    case Answer(_) => known
    case List(message) => if message.infos.Some? then known + TargetsOf(message.infos.value) else known
    case News(message) =>
      if message.session.Some? || message.event.None? then known
      else
        match message.event.value
        case TargetCreated => known + SetOf(message.info.target)
        case TargetInfoChanged => known + SetOf(message.info.target)
        case TargetDestroyed => known - SetOf(message.target)
        case _ => known
  }

  function SetOf(target: Option<string>): set<string> {
    if target.Some? then {target.value} else {}
  }

  function KnownOver(known: set<string>, said: seq<ToDriver>): set<string> {
    if said == [] then known else KnownAfter(KnownOver(known, said[..|said| - 1]), said[|said| - 1])
  }

  lemma {:induction false} KnownOverMore(known: set<string>, a: seq<ToDriver>, b: seq<ToDriver>)
    ensures KnownOver(known, a + b) == KnownOver(KnownOver(known, a), b)
  {
    if b == [] {
      assert a + b == a;
    } else {
      assert (a + b)[..|a + b| - 1] == a + b[..|b| - 1];
      KnownOverMore(known, a, b[..|b| - 1]);
    }
  }

  lemma NewsOfMore(going: seq<Held>, news: Held)
    ensures NewsOf(MessagesOf(going + [news])) == NewsOf(MessagesOf(going)) + [News(news.message)]
  {
  }

  lemma KnownOneMore(known: set<string>, said: seq<ToDriver>, more: ToDriver)
    ensures KnownOver(known, said + [more]) == KnownAfter(KnownOver(known, said), more)
  {
    assert (said + [more])[..|said|] == said;
  }

  lemma {:induction false} ReleaseIsKnown(known: set<string>, going: seq<Held>)
    requires forall news :: news in going ==> IsPageNews(news.message, news.target)
    ensures KnownOver(known, NewsOf(MessagesOf(going))) == known + HeldTargets(going)
  {
    if going == [] {
    } else {
      var earlier, news := going[..|going| - 1], going[|going| - 1];
      assert going == earlier + [news];
      ReleaseIsKnown(known, earlier);
      NewsOfMore(earlier, news);
      KnownOneMore(known, NewsOf(MessagesOf(earlier)), News(news.message));
      HeldTargetsMore(earlier, news);
    }
  }

  lemma TellIsKnown(view: ViewState, message: Message, place: Placement, active: Option<string>, now: nat)
    ensures
      var outcome := TellOutcome(view, message, place, active, now);
      outcome.view.told == KnownOver(view.told, TellSaid(outcome.tell, message))
  {
    var said := TellSaid(TellOutcome(view, message, place, active, now).tell, message);
    if said != [] {
      assert said[..0] == [];
      assert KnownOver(view.told, said) == KnownAfter(view.told, said[0]);
    }
  }

  lemma StepIsKnown(view: ViewState, step: Step)
    requires HoldsNews(view)
    ensures Next(view, step).told == KnownOver(view.told, Said(view, step))
  {
    match step
    case Asks(_, _, _) => AnswersAreNotNews(view.told, Said(view, step));
    case Tells(message, place, active, now) =>
      ReleaseIsKnown(view.told, Released(view, place));
      if message.Some? {
        var released := AfterRelease(view, place, now);
        var tell := TellOutcome(released, message.value, place, active, now).tell;
        TellIsKnown(released, message.value, place, active, now);
        KnownOverMore(view.told, ReleaseSaid(view, place), TellSaid(tell, message.value));
      } else {
        assert Said(view, step) == ReleaseSaid(view, place);
      }
    case Places(place, _) => ReleaseIsKnown(view.told, Released(view, place));
    case Opens(id, target, place, _) =>
      var answer := [Answer(OpenedAnswer(id, target))];
      AnswersAreNotNews(view.told, answer);
      KnownOverMore(view.told, answer, ReleaseSaid(AfterOpened(view, target), place));
      ReleaseIsKnown(view.told, Released(AfterOpened(view, target), place));
  }

  lemma {:induction false} AnswersAreNotNews(known: set<string>, said: seq<ToDriver>)
    requires forall i :: 0 <= i < |said| ==> said[i].Answer?
    ensures KnownOver(known, said) == known
  {
    if said == [] {
    } else {
      AnswersAreNotNews(known, said[..|said| - 1]);
    }
  }

  /** In every run, the view's record is what the driver can work out from the messages it got. */
  lemma {:induction false} ToldIsExact(run: seq<Step>, window: int)
    ensures After(run, window).told == KnownOver({}, Got(run, window))
  {
    if run == [] {
    } else {
      var earlier := run[..|run| - 1];
      var view := After(earlier, window);
      ToldIsExact(earlier, window);
      ViewsAreBounded(earlier, window);
      StepIsKnown(view, run[|run| - 1]);
      KnownOverMore({}, Got(earlier, window), Said(view, run[|run| - 1]));
    }
  }

  /** The end of a page reaches the driver exactly when it knows the page then, and it knows it no more. */
  lemma DestroyedReachesWhoKnows(
    run: seq<Step>, window: int, message: Message, target: string, place: Placement, active: Option<string>, now: nat)
    requires message.session.None? && message.event == Some(TargetDestroyed) && message.target == Some(target)
    ensures
      var before := Got(run, window) + ReleaseSaid(After(run, window), place);
      var more := run + [Tells(Some(message), place, active, now)];
      Got(more, window) == before + (if target in KnownOver({}, before) then [News(message)] else [])
      && target !in KnownOver({}, Got(more, window))
  {
    var view, step := After(run, window), Tells(Some(message), place, active, now);
    var released := ReleaseSaid(view, place);
    ViewsAreBounded(run, window);
    ReleaseIsKnown(view.told, Released(view, place));
    ToldIsExact(run, window);
    KnownOverMore({}, Got(run, window), released);
    DestroyedSaid(view, message, target, place, active, now);
    GotMore(run, step, window);
    Together(Got(run, window), released, if target in KnownOver({}, Got(run, window) + released) then [News(message)] else []);
    ToldIsExact(run + [step], window);
  }

  lemma GotMore(run: seq<Step>, step: Step, window: int)
    ensures Got(run + [step], window) == Got(run, window) + Said(After(run, window), step)
    ensures After(run + [step], window) == Next(After(run, window), step)
  {
    assert (run + [step])[..|run|] == run;
  }

  lemma DestroyedSaid(
    view: ViewState, message: Message, target: string, place: Placement, active: Option<string>, now: nat)
    requires message.session.None? && message.event == Some(TargetDestroyed) && message.target == Some(target)
    ensures
      var step, known := Tells(Some(message), place, active, now), AfterRelease(view, place, now).told;
      Said(view, step) == ReleaseSaid(view, place) + (if target in known then [News(message)] else [])
      && target !in Next(view, step).told
  {
  }
}
