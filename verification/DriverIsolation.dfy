/** What the browser says about the tabs of other windows makes no difference to a driver. */
module DriverIsolation {
  import opened Wrappers
  import opened DriverMessages
  import opened DriverViews
  import opened DriverRuns
  import opened Filters

  /** Targets of other windows, and their sessions. */
  datatype Others = Others(targets: set<string>, sessions: set<string>)

  predicate Names(named: Option<string>, some: set<string>) {
    named.Some? && named.value in some
  }

  /** A message about another window's target, or about a session of one. */
  predicate IsForeign(message: Message, others: Others) {
    if message.session.Some? then message.session.value in others.sessions
    else if message.event.None? then false
    else
      match message.event.value
      case TargetCreated => Names(message.info.target, others.targets)
      case TargetInfoChanged => Names(message.info.target, others.targets)
      case AttachedToTarget => Names(message.info.target, others.targets)
      case TargetDestroyed => Names(message.target, others.targets)
      case TargetCrashed => Names(message.target, others.targets)
      case DetachedFromTarget => Names(message.child, others.sessions)
      case ReceivedMessageFromTarget => Names(message.child, others.sessions)
      case OtherEvent(_) => false
  }

  function NotTheirs(others: Others): Info -> bool {
    (info: Info) => !Names(info.target, others.targets)
  }

  function HiddenInfos(message: Message, others: Others): Message {
    if message.infos.Some? then message.(infos := Some(Keep(NotTheirs(others), message.infos.value))) else message
  }

  predicate IsAnswer(message: Message) {
    message.session.None? && message.event.None?
  }

  /** The step without what it says about others. The news that waits still gets its turn. */
  function Hidden(step: Step, others: Others): Step {
    if !step.Tells? || step.message.None? then step
    else
      var message := step.message.value;
      if IsForeign(message, others) then Places(step.place, step.now)
      else if IsAnswer(message) then step.(message := Some(HiddenInfos(message, others)))
      else step
  }

  predicate PlacedElsewhere(place: Placement, window: int, others: Others) {
    forall target :: target in others.targets && target in place ==> place[target] != window
  }

  predicate AsksForTargets(view: ViewState, message: Message) {
    message.id.Some? && message.id.value in view.asked && view.asked[message.id.value].Targets?
  }

  /**
   What the browser and the engine do: the others' targets are never placed in this window, and are
   placed when news of them comes; no session of theirs starts inside a session of the driver or
   answers one of its commands; and they are listed only in the answers to its lists of targets.
   */
  predicate TellsApart(view: ViewState, message: Message, place: Placement, others: Others) {
    if IsForeign(message, others) then
      message.session.None? && (message.event.value.TargetCreated? || message.event.value.TargetInfoChanged?) ==>
        message.info.target.value in place
    else
      (message.event == Some(AttachedToTarget) ==>
        !Names(message.child, others.sessions) && !Names(message.info.target, others.targets))
      && !Names(message.attached, others.sessions)
      && (IsAnswer(message) && message.infos.Some? && !AsksForTargets(view, message) ==>
        forall info :: info in message.infos.value ==> !Names(info.target, others.targets))
  }

  predicate Apart(view: ViewState, step: Step, others: Others) {
    PlacedElsewhere(step.place, view.window, others)
    && (step.Tells? && step.message.Some? ==> TellsApart(view, step.message.value, step.place, others))
    && (step.Opens? ==> !Names(step.target, others.targets))
  }

  /** A view that holds nothing of others. */
  predicate Clean(view: ViewState, others: Others) {
    view.openedTabs !! others.targets && view.told !! others.targets
    && view.sessions.Keys !! others.sessions && view.sessions.Values !! others.targets
    && (forall news :: news in view.held ==> news.target !in others.targets)
    && (forall id :: id in view.asked && view.asked[id].Attach? ==> view.asked[id].target !in others.targets)
  }

  lemma ReleaseKeepsClean(view: ViewState, place: Placement, now: nat, others: Others)
    requires Clean(view, others)
    ensures Clean(AfterRelease(view, place, now), others)
  {
  }

  lemma ForeignIsDropped(view: ViewState, message: Message, place: Placement, active: Option<string>, now: nat, others: Others)
    requires Clean(view, others) && PlacedElsewhere(place, view.window, others)
    requires IsForeign(message, others) && TellsApart(view, message, place, others)
    ensures TellOutcome(view, message, place, active, now) == Outcome(Drop, view)
  {
    if message.event == Some(TargetDestroyed) && message.session.None? {
      KeepEvery(Other(message.target.value), view.held);
      assert view.openedTabs - {message.target.value} == view.openedTabs;
      assert view.told - {message.target.value} == view.told;
    }
  }

  lemma OwnListIsTheSame(view: ViewState, message: Message, place: Placement, active: Option<string>, others: Others)
    requires Clean(view, others) && PlacedElsewhere(place, view.window, others)
    ensures
      var outcome, hidden := TargetList(view, message, place, active),
        TargetList(view, HiddenInfos(message, others), place, active);
      hidden.view == outcome.view
      && TellSaid(hidden.tell, HiddenInfos(message, others)) == TellSaid(outcome.tell, message)
  {
    if message.infos.Some? {
      KeepTwice(OwnPage(view, place), NotTheirs(others), message.infos.value);
    }
  }

  lemma ListsAreTheSame(view: ViewState, message: Message, place: Placement, active: Option<string>, now: nat, others: Others)
    requires Clean(view, others) && PlacedElsewhere(place, view.window, others)
    requires IsAnswer(message) && TellsApart(view, message, place, others)
    ensures
      var outcome, hidden := TellOutcome(view, message, place, active, now),
        TellOutcome(view, HiddenInfos(message, others), place, active, now);
      hidden.view == outcome.view
      && TellSaid(hidden.tell, HiddenInfos(message, others)) == TellSaid(outcome.tell, message)
  {
    if AsksForTargets(view, message) {
      var answered := view.(asked := view.asked - {message.id.value});
      OwnListIsTheSame(answered, message, place, active, others);
    } else if message.infos.Some? {
      KeepEvery(NotTheirs(others), message.infos.value);
      assert HiddenInfos(message, others) == message;
    }
  }

  lemma SessionStartKeepsClean(view: ViewState, session: string, target: string, others: Others)
    requires Clean(view, others) && session !in others.sessions && target !in others.targets
    ensures Clean(view.(sessions := view.sessions[session := target]), others)
  {
  }

  lemma SessionEndKeepsClean(view: ViewState, session: string, others: Others)
    requires Clean(view, others)
    ensures Clean(view.(sessions := view.sessions - {session}), others)
  {
  }

  lemma ListKeepsClean(view: ViewState, message: Message, place: Placement, active: Option<string>, others: Others)
    requires Clean(view, others) && PlacedElsewhere(place, view.window, others)
    ensures Clean(TargetList(view, message, place, active).view, others)
  {
  }

  lemma AnswerKeepsClean(view: ViewState, message: Message, place: Placement, active: Option<string>, others: Others)
    requires Clean(view, others) && PlacedElsewhere(place, view.window, others)
    requires !Names(message.attached, others.sessions)
    ensures Clean(AnswerOutcome(view, message, place, active).view, others)
  {
    if message.id.Some? && message.id.value in view.asked {
      var answered := view.(asked := view.asked - {message.id.value});
      match view.asked[message.id.value]
      case Targets => ListKeepsClean(answered, message, place, active, others);
      case Attach(target) =>
        if message.attached.Some? {
          SessionStartKeepsClean(answered, message.attached.value, target, others);
        }
    }
  }

  lemma NewsKeepsClean(view: ViewState, message: Message, place: Placement, now: nat, others: Others)
    requires Clean(view, others) && !Names(message.info.target, others.targets)
    ensures Clean(PageNews(view, message, place, now).view, others)
  {
  }

  lemma TellKeepsClean(view: ViewState, message: Message, place: Placement, active: Option<string>, now: nat, others: Others)
    requires Clean(view, others) && PlacedElsewhere(place, view.window, others)
    requires !IsForeign(message, others) && TellsApart(view, message, place, others)
    ensures Clean(TellOutcome(view, message, place, active, now).view, others)
  {
    if IsAnswer(message) {
      AnswerKeepsClean(view, message, place, active, others);
    } else if message.event == Some(AttachedToTarget) {
      if message.child.Some? && message.info.target.Some? {
        SessionStartKeepsClean(view, message.child.value, message.info.target.value, others);
      }
    } else if message.event == Some(DetachedFromTarget) {
      if message.child.Some? {
        SessionEndKeepsClean(view, message.child.value, others);
      }
    } else if message.session.None? && (message.event.value.TargetCreated? || message.event.value.TargetInfoChanged?) {
      NewsKeepsClean(view, message, place, now, others);
    }
  }

  // ----- Steps and runs -----

  lemma TellIsHidden(view: ViewState, step: Step, others: Others)
    requires Clean(view, others) && Apart(view, step, others) && step.Tells? && step.message.Some?
    ensures Next(view, Hidden(step, others)) == Next(view, step)
    ensures Said(view, Hidden(step, others)) == Said(view, step)
    ensures Clean(Next(view, step), others)
  {
    var message, place, active, now := step.message.value, step.place, step.active, step.now;
    var released := AfterRelease(view, place, now);
    ReleaseKeepsClean(view, place, now, others);
    if IsForeign(message, others) {
      ForeignIsDropped(released, message, place, active, now, others);
    } else {
      TellKeepsClean(released, message, place, active, now, others);
      if IsAnswer(message) {
        ListsAreTheSame(released, message, place, active, now, others);
      }
    }
  }

  lemma StepIsHidden(view: ViewState, step: Step, others: Others)
    requires Clean(view, others) && Apart(view, step, others)
    ensures Next(view, Hidden(step, others)) == Next(view, step)
    ensures Said(view, Hidden(step, others)) == Said(view, step)
    ensures Clean(Next(view, step), others)
  {
    match step
    case Tells(message, place, active, now) =>
      if message.Some? {
        TellIsHidden(view, step, others);
      } else {
        ReleaseKeepsClean(view, place, now, others);
      }
    case Places(place, now) => ReleaseKeepsClean(view, place, now, others);
    case Opens(_, target, place, now) => ReleaseKeepsClean(AfterOpened(view, target), place, now, others);
    case Asks(_, _, _) =>
  }

  function HiddenRun(run: seq<Step>, others: Others): (hidden: seq<Step>)
    ensures |hidden| == |run| && forall i :: 0 <= i < |run| ==> hidden[i] == Hidden(run[i], others)
  {
    seq(|run|, i requires 0 <= i < |run| => Hidden(run[i], others))
  }

  predicate ApartRun(run: seq<Step>, window: int, others: Others) {
    forall n :: 0 <= n < |run| ==> Apart(After(run[..n], window), run[n], others)
  }

  /**
   A driver gets the same messages and its view ends the same, whether the browser says everything
   about the tabs and sessions of other windows or nothing at all.
   */
  lemma {:induction false} OthersMakeNoDifference(run: seq<Step>, window: int, others: Others)
    requires ApartRun(run, window, others)
    ensures Got(HiddenRun(run, others), window) == Got(run, window)
    ensures After(HiddenRun(run, others), window) == After(run, window)
    ensures Clean(After(run, window), others)
  {
    if run == [] {
    } else {
      var last := |run| - 1;
      var earlier := run[..last];
      assert forall n :: 0 <= n < last ==> earlier[..n] == run[..n];
      OthersMakeNoDifference(earlier, window, others);
      assert HiddenRun(run, others)[..last] == HiddenRun(earlier, others);
      StepIsHidden(After(earlier, window), run[last], others);
    }
  }
}
