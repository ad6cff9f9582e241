/**
 What a driver has and what reaches it, by what happened in its connection: which of its commands
 wait, which sessions are open, which targets are its own, and which messages it gets.
 */
module DriverReach {
  import opened Wrappers
  import opened DriverMessages
  import opened DriverViews
  import opened DriverRuns
  import opened Filters
  import opened Histories
  import DriverProvenance

  // ----- Commands that wait for their answer -----

  predicate Wants(command: Command, asked: Asked) {
    command.session.None? &&
    match asked
    case Targets => command.verb.GetTargets?
    case Attach(target) => command.verb.AttachToTarget? && command.target == Some(target)
  }

  /** A command goes out whose answer is a list of targets or a session. */
  predicate AsksFor(view: ViewState, step: Step, id: nat, asked: Asked) {
    step.Asks? && step.command.Some? && Wants(step.command.value, asked)
    && id == (if step.command.value.id.Some? then step.command.value.id.value else 0)
    && AskOf(view, step.command.value, step.place).Pass?
  }

  ghost predicate TakesId(view: ViewState, step: Step, id: nat) {
    exists asked :: AsksFor(view, step, id, asked)
  }

  predicate AnswersTo(step: Step, id: nat) {
    step.Tells? && step.message.Some? && step.message.value.session.None? && step.message.value.event.None?
    && step.message.value.id == Some(id)
  }

  function AsksOf(run: seq<Step>, window: int, id: nat, asked: Asked): nat -> bool {
    (n: nat) => n < |run| && AsksFor(After(run[..n], window), run[n], id, asked)
  }

  ghost function EndsOfAsk(run: seq<Step>, window: int, id: nat): nat -> bool {
    (n: nat) => n < |run| && (AnswersTo(run[n], id) || TakesId(After(run[..n], window), run[n], id))
  }

  lemma WantsOne(command: Command, asked: Asked)
    ensures Wants(command, asked) <==> Expected(command) == Some(asked)
  {
  }

  lemma AskedAfterAsk(view: ViewState, step: Step, id: nat, asked: Asked)
    requires step.Asks?
    ensures
      var next := Next(view, step).asked;
      (id in next && next[id] == asked) <==>
        AsksFor(view, step, id, asked) || (id in view.asked && view.asked[id] == asked && !TakesId(view, step, id))
  {
    if step.command.Some? {
      var command := step.command.value;
      WantsOne(command, asked);
      if Expected(command).Some? {
        WantsOne(command, Expected(command).value);
        assert AskOf(view, command, step.place).Pass? ==> AsksFor(view, step, IdOf(command), Expected(command).value);
      }
      forall other | AsksFor(view, step, id, other) ensures Expected(command) == Some(other) {
        WantsOne(command, other);
      }
    }
  }

  lemma AskedAfterOther(view: ViewState, step: Step, id: nat, asked: Asked)
    requires !step.Asks?
    ensures
      var next := Next(view, step).asked;
      (id in next && next[id] == asked) <==> id in view.asked && view.asked[id] == asked && !AnswersTo(step, id)
  {
  }

  lemma RunUpTo(run: seq<Step>, window: int, n: nat)
    requires n < |run|
    ensures After(run[..n + 1], window) == Next(After(run[..n], window), run[n])
  {
    assert run[..n + 1][..n] == run[..n];
  }

  predicate IsAsked(view: ViewState, id: nat, asked: Asked) {
    id in view.asked && view.asked[id] == asked
  }

  /** A command waits for its answer exactly since it went out, until something answers its id or another takes it. */
  lemma {:induction false} WaitsExactly(run: seq<Step>, window: int, id: nat, asked: Asked, n: nat)
    requires n <= |run|
    ensures IsAsked(After(run[..n], window), id, asked)
      <==> Lasts(AsksOf(run, window, id, asked), EndsOfAsk(run, window, id), n)
  {
    if n == 0 {
      assert run[..0] == [];
    } else {
      var view, step := After(run[..n - 1], window), run[n - 1];
      WaitsExactly(run, window, id, asked, n - 1);
      RunUpTo(run, window, n - 1);
      LastsOneMore(AsksOf(run, window, id, asked), EndsOfAsk(run, window, id), n - 1);
      if step.Asks? {
        AskedAfterAsk(view, step, id, asked);
      } else {
        AskedAfterOther(view, step, id, asked);
      }
    }
  }

  // ----- Own targets and open sessions -----

  /** The driver's own targets: those of its open sessions, of tabs that it opened, and of its window. */
  predicate IsOwn(view: ViewState, target: string, place: Placement) {
    target in view.sessions.Values || target in view.openedTabs || (target in place && place[target] == view.window)
  }

  predicate OpensFor(step: Step, target: string) {
    step.Opens? && step.target == Some(target)
  }

  predicate IsEvent(step: Step, event: EventKind) {
    step.Tells? && step.message.Some? && step.message.value.event == Some(event)
  }

  predicate Ends(step: Step, target: string) {
    IsEvent(step, TargetDestroyed) && step.message.value.session.None? && step.message.value.target == Some(target)
  }

  function OpensOf(run: seq<Step>, target: string): nat -> bool {
    (n: nat) => n < |run| && OpensFor(run[n], target)
  }

  function EndsOf(run: seq<Step>, target: string): nat -> bool {
    (n: nat) => n < |run| && Ends(run[n], target)
  }

  lemma OpenedAfter(view: ViewState, step: Step, target: string)
    ensures target in Next(view, step).openedTabs
      <==> OpensFor(step, target) || (target in view.openedTabs && !Ends(step, target))
  {
  }

  /** A tab that a driver opened is its own until the browser says that it is gone. */
  lemma {:induction false} OpenedExactly(run: seq<Step>, window: int, target: string, n: nat)
    requires n <= |run|
    ensures target in After(run[..n], window).openedTabs <==> Lasts(OpensOf(run, target), EndsOf(run, target), n)
  {
    if n == 0 {
      assert run[..0] == [];
    } else {
      OpenedExactly(run, window, target, n - 1);
      RunUpTo(run, window, n - 1);
      OpenedAfter(After(run[..n - 1], window), run[n - 1], target);
      LastsOneMore(OpensOf(run, target), EndsOf(run, target), n - 1);
    }
  }

  /** The browser starts a session of an own target or inside an open session, or answers the driver's own attaching. */
  predicate Starts(view: ViewState, step: Step, session: string, target: string) {
    step.Tells? && step.message.Some? &&
    var message := step.message.value;
    if message.event.Some? then
      message.event.value.AttachedToTarget? && message.child == Some(session) && message.info.target == Some(target)
      && if message.session.Some? then message.session.value in view.sessions else IsOwn(view, target, step.place)
    else
      message.session.None? && message.attached == Some(session)
      && message.id.Some? && IsAsked(view, message.id.value, Attach(target))
  }

  ghost predicate StartsAnew(view: ViewState, step: Step, session: string) {
    exists target :: Starts(view, step, session, target)
  }

  predicate Detaches(view: ViewState, step: Step, session: string) {
    IsEvent(step, DetachedFromTarget) && step.message.value.child == Some(session)
    && (step.message.value.session.Some? ==> step.message.value.session.value in view.sessions)
  }

  predicate HasSession(view: ViewState, session: string, target: string) {
    session in view.sessions && view.sessions[session] == target
  }

  function StartsOf(run: seq<Step>, window: int, session: string, target: string): nat -> bool {
    (n: nat) => n < |run| && Starts(After(run[..n], window), run[n], session, target)
  }

  ghost function EndsOfSession(run: seq<Step>, window: int, session: string): nat -> bool {
    (n: nat) => n < |run| &&
      var view := After(run[..n], window);
      Detaches(view, run[n], session) || StartsAnew(view, run[n], session)
  }

  lemma SessionAfterSession(view: ViewState, step: Step, session: string, target: string)
    requires step.Tells? && step.message.Some? && step.message.value.session.Some?
    ensures HasSession(Next(view, step), session, target) <==>
      Starts(view, step, session, target)
      || (HasSession(view, session, target) && !Detaches(view, step, session) && !StartsAnew(view, step, session))
  {
    var message := step.message.value;
    if message.child.Some? && message.info.target.Some? && message.session.value in view.sessions {
      assert message.event == Some(AttachedToTarget) ==>
        Starts(view, step, message.child.value, message.info.target.value);
    }
  }

  lemma SessionAfterEvent(view: ViewState, step: Step, session: string, target: string)
    requires step.Tells? && step.message.Some? && step.message.value.session.None? && step.message.value.event.Some?
    ensures HasSession(Next(view, step), session, target) <==>
      Starts(view, step, session, target)
      || (HasSession(view, session, target) && !Detaches(view, step, session) && !StartsAnew(view, step, session))
  {
    var message := step.message.value;
    if message.child.Some? && message.info.target.Some? && IsOwn(view, message.info.target.value, step.place) {
      assert message.event == Some(AttachedToTarget) ==>
        Starts(view, step, message.child.value, message.info.target.value);
    }
  }

  lemma SessionAfterAnswer(view: ViewState, step: Step, session: string, target: string)
    requires step.Tells? && step.message.Some? && step.message.value.session.None? && step.message.value.event.None?
    ensures HasSession(Next(view, step), session, target) <==>
      Starts(view, step, session, target)
      || (HasSession(view, session, target) && !Detaches(view, step, session) && !StartsAnew(view, step, session))
  {
    var message := step.message.value;
    if message.attached.Some? && message.id.Some? && message.id.value in view.asked {
      var asked := view.asked[message.id.value];
      assert asked.Attach? ==> Starts(view, step, message.attached.value, asked.target);
    }
  }

  lemma SessionAfter(view: ViewState, step: Step, session: string, target: string)
    ensures HasSession(Next(view, step), session, target) <==>
      Starts(view, step, session, target)
      || (HasSession(view, session, target) && !Detaches(view, step, session) && !StartsAnew(view, step, session))
  {
    if step.Tells? && step.message.Some? {
      if step.message.value.session.Some? {
        SessionAfterSession(view, step, session, target);
      } else if step.message.value.event.Some? {
        SessionAfterEvent(view, step, session, target);
      } else {
        SessionAfterAnswer(view, step, session, target);
      }
    }
  }

  /** A session is open for a target exactly since it started there, until it is detached or starts anew. */
  lemma {:induction false} SessionsExactly(run: seq<Step>, window: int, session: string, target: string, n: nat)
    requires n <= |run|
    ensures HasSession(After(run[..n], window), session, target)
      <==> Lasts(StartsOf(run, window, session, target), EndsOfSession(run, window, session), n)
  {
    if n == 0 {
      assert run[..0] == [];
    } else {
      SessionsExactly(run, window, session, target, n - 1);
      RunUpTo(run, window, n - 1);
      SessionAfter(After(run[..n - 1], window), run[n - 1], session, target);
      LastsOneMore(StartsOf(run, window, session, target), EndsOfSession(run, window, session), n - 1);
    }
  }

  // ----- Messages that reach the driver -----

  /** After the run, the session is open for the target. */
  ghost predicate IsOpenFor(run: seq<Step>, window: int, session: string, target: string) {
    Lasts(StartsOf(run, window, session, target), EndsOfSession(run, window, session), |run|)
  }

  ghost predicate IsOpen(run: seq<Step>, window: int, session: string) {
    exists target :: IsOpenFor(run, window, session, target)
  }

  ghost predicate Owns(run: seq<Step>, window: int, target: string, place: Placement) {
    (exists session :: IsOpenFor(run, window, session, target))
    || Lasts(OpensOf(run, target), EndsOf(run, target), |run|)
    || (target in place && place[target] == window)
  }

  lemma OpenForExactly(run: seq<Step>, window: int, session: string, target: string)
    ensures IsOpenFor(run, window, session, target) <==> HasSession(After(run, window), session, target)
  {
    SessionsExactly(run, window, session, target, |run|);
    assert run[..|run|] == run;
  }

  lemma OpenExactly(run: seq<Step>, window: int, session: string)
    ensures IsOpen(run, window, session) <==> session in After(run, window).sessions
  {
    forall target ensures IsOpenFor(run, window, session, target) <==> HasSession(After(run, window), session, target) {
      OpenForExactly(run, window, session, target);
    }
    if session in After(run, window).sessions {
      assert HasSession(After(run, window), session, After(run, window).sessions[session]);
    }
  }

  lemma ValuesAreTargets(view: ViewState, target: string)
    ensures target in view.sessions.Values <==> exists session :: HasSession(view, session, target)
  {
    if target in view.sessions.Values {
      var session :| session in view.sessions && view.sessions[session] == target;
      assert HasSession(view, session, target);
    }
  }

  lemma OwnsExactly(run: seq<Step>, window: int, target: string, place: Placement)
    ensures Owns(run, window, target, place) <==> IsOurs(After(run, window), target, place)
  {
    var view := After(run, window);
    forall session ensures IsOpenFor(run, window, session, target) <==> HasSession(view, session, target) {
      OpenForExactly(run, window, session, target);
    }
    ValuesAreTargets(view, target);
    OpenedExactly(run, window, target, |run|);
    assert run[..|run|] == run;
    DriverProvenance.WindowStays(run, window);
  }

  /** What the driver knows when a message comes: the pages that it heard of, with the news that goes first. */
  function KnownThen(run: seq<Step>, window: int, place: Placement): set<string> {
    KnownOver({}, Got(run, window) + ReleaseSaid(After(run, window), place))
  }

  /** A message goes to the driver by what it is about. */
  ghost predicate Reaches(run: seq<Step>, window: int, message: Message, place: Placement) {
    if message.session.Some? then IsOpen(run, window, message.session.value)
    else if message.event.None? then true
    else
      match message.event.value
      case TargetCreated => IsOwnPage(run, window, message.info, place)
      case TargetInfoChanged => IsOwnPage(run, window, message.info, place)
      case TargetDestroyed => message.target.Some? && message.target.value in KnownThen(run, window, place)
      case TargetCrashed => message.target.Some? && message.target.value in KnownThen(run, window, place)
      case AttachedToTarget =>
        message.child.Some? && message.info.target.Some? && Owns(run, window, message.info.target.value, place)
      case DetachedFromTarget => message.child.Some? && IsOpen(run, window, message.child.value)
      case ReceivedMessageFromTarget => message.child.Some? && IsOpen(run, window, message.child.value)
      case OtherEvent(_) => true
  }

  ghost predicate IsOwnPage(run: seq<Step>, window: int, info: Info, place: Placement) {
    info.page && info.target.Some? && Owns(run, window, info.target.value, place)
  }

  ghost function OwnPages(run: seq<Step>, window: int, place: Placement): Info -> bool {
    (info: Info) => IsOwnPage(run, window, info, place)
  }

  /** A list of targets that answers the driver's own command. */
  ghost predicate IsList(run: seq<Step>, window: int, message: Message) {
    message.session.None? && message.event.None? && message.infos.Some? && message.id.Some?
    && Lasts(AsksOf(run, window, message.id.value, Targets), EndsOfAsk(run, window, message.id.value), |run|)
  }

  /** The list of the own pages, the active one first and otherwise in its order. */
  ghost function OwnList(run: seq<Step>, window: int, infos: seq<Info>, place: Placement, active: Option<string>): seq<Info> {
    var own := Keep(OwnPages(run, window, place), infos);
    Keep((info: Info) => info.target == active, own) + Keep((info: Info) => info.target != active, own)
  }

  lemma OwnListExactly(run: seq<Step>, window: int, infos: seq<Info>, place: Placement, active: Option<string>)
    ensures OwnList(run, window, infos, place, active)
      == ActiveFirst(Keep(OwnPage(After(run, window), place), infos), active)
  {
    var view := After(run, window);
    forall info: Info | info.target.Some?
      ensures Owns(run, window, info.target.value, place) <==> IsOurs(view, info.target.value, place)
    {
      OwnsExactly(run, window, info.target.value, place);
    }
    KeepSame(OwnPages(run, window, place), OwnPage(view, place), infos);
    var own := Keep(OwnPage(view, place), infos);
    KeepSame((info: Info) => info.target == active, Active(active, true), own);
    KeepSame((info: Info) => info.target != active, Active(active, false), own);
  }

  lemma KnownThenExactly(run: seq<Step>, window: int, place: Placement, now: nat)
    ensures KnownThen(run, window, place) == AfterRelease(After(run, window), place, now).told
  {
    var view := After(run, window);
    ViewsAreBounded(run, window);
    ReleaseIsKnown(view.told, Released(view, place));
    ToldIsExact(run, window);
    KnownOverMore({}, Got(run, window), ReleaseSaid(view, place));
  }

  /** What a message makes of the turn in which it comes, after the news that goes first. */
  function TellsNow(view: ViewState, message: Message, place: Placement, active: Option<string>, now: nat): seq<ToDriver> {
    TellSaid(TellOutcome(AfterRelease(view, place, now), message, place, active, now).tell, message)
  }

  lemma SessionReaches(
    run: seq<Step>, window: int, message: Message, place: Placement, active: Option<string>, now: nat)
    requires message.session.Some?
    ensures TellsNow(After(run, window), message, place, active, now)
      == if Reaches(run, window, message, place) then [News(message)] else []
  {
    OpenExactly(run, window, message.session.value);
  }

  lemma PageReaches(run: seq<Step>, window: int, message: Message, place: Placement, active: Option<string>, now: nat)
    requires message.session.None? && message.event.Some?
    requires message.event.value.TargetCreated? || message.event.value.TargetInfoChanged?
      || message.event.value.AttachedToTarget?
    ensures TellsNow(After(run, window), message, place, active, now)
      == if Reaches(run, window, message, place) then [News(message)] else []
  {
    if message.info.target.Some? {
      OwnsExactly(run, window, message.info.target.value, place);
    }
  }

  lemma EndReaches(run: seq<Step>, window: int, message: Message, place: Placement, active: Option<string>, now: nat)
    requires message.session.None? && message.event.Some?
    requires message.event.value.TargetDestroyed? || message.event.value.TargetCrashed?
    ensures TellsNow(After(run, window), message, place, active, now)
      == if Reaches(run, window, message, place) then [News(message)] else []
  {
    KnownThenExactly(run, window, place, now);
  }

  lemma ChildReaches(run: seq<Step>, window: int, message: Message, place: Placement, active: Option<string>, now: nat)
    requires message.session.None? && message.event.Some?
    requires message.event.value.DetachedFromTarget? || message.event.value.ReceivedMessageFromTarget?
    ensures TellsNow(After(run, window), message, place, active, now)
      == if Reaches(run, window, message, place) then [News(message)] else []
  {
    if message.child.Some? {
      OpenExactly(run, window, message.child.value);
    }
  }

  lemma EventReaches(run: seq<Step>, window: int, message: Message, place: Placement, active: Option<string>, now: nat)
    requires message.session.None? && message.event.Some?
    ensures TellsNow(After(run, window), message, place, active, now)
      == if Reaches(run, window, message, place) then [News(message)] else []
  {
    var event := message.event.value;
    if event.TargetDestroyed? || event.TargetCrashed? {
      EndReaches(run, window, message, place, active, now);
    } else if event.DetachedFromTarget? || event.ReceivedMessageFromTarget? {
      ChildReaches(run, window, message, place, active, now);
    } else if !event.OtherEvent? {
      PageReaches(run, window, message, place, active, now);
    }
  }

  lemma ListExactly(run: seq<Step>, window: int, message: Message)
    requires message.session.None? && message.event.None?
    ensures IsList(run, window, message) <==>
      message.infos.Some? && message.id.Some? && IsAsked(After(run, window), message.id.value, Targets)
  {
    if message.id.Some? {
      WaitsExactly(run, window, message.id.value, Targets, |run|);
      assert run[..|run|] == run;
    }
  }

  predicate AnswersList(view: ViewState, message: Message) {
    message.session.None? && message.event.None? && message.infos.Some? && message.id.Some?
    && IsAsked(view, message.id.value, Targets)
  }

  lemma ListTells(view: ViewState, message: Message, place: Placement, active: Option<string>, now: nat)
    requires AnswersList(view, message)
    ensures TellsNow(view, message, place, active, now)
      == [List(message.(infos := Some(ActiveFirst(Keep(OwnPage(view, place), message.infos.value), active))))]
  {
    var released := AfterRelease(view, place, now);
    var answered := released.(asked := released.asked - {message.id.value});
    KeepSame(OwnPage(view, place), OwnPage(answered, place), message.infos.value);
    assert TellOutcome(released, message, place, active, now) == TargetList(answered, message, place, active);
  }

  lemma OtherAnswerTells(view: ViewState, message: Message, place: Placement, active: Option<string>, now: nat)
    requires message.session.None? && message.event.None? && !AnswersList(view, message)
    ensures TellsNow(view, message, place, active, now) == [News(message)]
  {
    assert AnswerOutcome(AfterRelease(view, place, now), message, place, active).tell == PassOn;
  }

  lemma AnswerReaches(run: seq<Step>, window: int, message: Message, place: Placement, active: Option<string>, now: nat)
    requires message.session.None? && message.event.None?
    ensures TellsNow(After(run, window), message, place, active, now)
      == if IsList(run, window, message) then
          [List(message.(infos := Some(OwnList(run, window, message.infos.value, place, active))))]
        else [News(message)]
  {
    ListExactly(run, window, message);
    if IsList(run, window, message) {
      ListTells(After(run, window), message, place, active, now);
      OwnListExactly(run, window, message.infos.value, place, active);
    } else {
      OtherAnswerTells(After(run, window), message, place, active, now);
    }
  }

  /**
   In its turn a message of the browser reaches the driver exactly when it is about what the driver has:
   an open session, an own page, a page that it knows. Every answer reaches it, and a list of targets
   that it asked for holds its own pages alone.
   */
  lemma MessagesReachExactly(
    run: seq<Step>, window: int, message: Message, place: Placement, active: Option<string>, now: nat)
    ensures
      Got(run + [Tells(Some(message), place, active, now)], window)
      == Got(run, window) + (ReleaseSaid(After(run, window), place)
        + if IsList(run, window, message) then
            [List(message.(infos := Some(OwnList(run, window, message.infos.value, place, active))))]
          else if Reaches(run, window, message, place) then [News(message)]
          else [])
  {
    GotMore(run, Tells(Some(message), place, active, now), window);
    if message.session.Some? {
      SessionReaches(run, window, message, place, active, now);
    } else if message.event.Some? {
      EventReaches(run, window, message, place, active, now);
    } else {
      AnswerReaches(run, window, message, place, active, now);
    }
  }
}
