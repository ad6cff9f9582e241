/** What the driver of one window may see and do in the browser of every window. */
module DriverViews {
  import opened Wrappers
  import opened DriverMessages
  import opened Filters
  import opened FlowStates

  const MOST_ASKED: nat := 1024
  const MOST_HELD: nat := 256
  const HOLD_LIMIT: nat := 5000 * MILLISECOND
  const BLANK := "about:blank"

  /** The windows that the engine placed targets in. */
  type Placement = map<string, int>

  datatype Whose = Ours | Theirs | Unknown

  datatype Asked = Targets | Attach(target: string)

  datatype Held = Held(target: string, message: Message, at: nat)

  datatype ViewState = ViewState(
    window: int,
    openedTabs: set<string>,
    told: set<string>,
    sessions: map<string, string>,
    asked: map<nat, Asked>,
    held: seq<Held>)

  function NewView(window: int): ViewState {
    ViewState(window, {}, {}, map[], map[], [])
  }

  function WhoseIs(view: ViewState, target: string, place: Placement): Whose {
    if target in view.openedTabs || target in view.sessions.Values then Ours
    else if target !in place then Unknown
    else if place[target] == view.window then Ours
    else Theirs
  }

  predicate IsOurs(view: ViewState, target: string, place: Placement) {
    WhoseIs(view, target, place) == Ours
  }

  // ----- Commands -----

  function IdOf(command: Command): nat {
    if command.id.Some? then command.id.value else 0
  }

  /** The part of a command's way that its session decides. */
  function InSession(view: ViewState, command: Command): Option<Ask> {
    if command.session.None? then None
    else
      var id, session := IdOf(command), command.session.value;
      if session !in view.sessions then Some(Reply(Failure(id, command.session, NoSession)))
      else
        var target := view.sessions[session];
        if command.verb.BringToFront? then Some(Show(target))
        else if command.verb.HandleDialog? then
          Some(Dialog(target, command.accept == Some(true), command.text, Done(id, command.session)))
        else None
  }

  function AddressOf(command: Command): string {
    if command.address.Some? && command.address.value != "" then command.address.value else BLANK
  }

  /** A command that names a target or a session that is not the driver's. */
  function Strange(view: ViewState, command: Command, place: Placement): Option<Problem> {
    if command.target.Some? && !IsOurs(view, command.target.value, place) then Some(NoTarget)
    else if command.inSession.Some? && command.inSession.value !in view.sessions then Some(NoSession)
    else None
  }

  /** What the answer to a command is needed for. */
  function Expected(command: Command): Option<Asked> {
    if command.session.Some? then None
    else if command.verb.GetTargets? then Some(Targets)
    else if command.verb.AttachToTarget? && command.target.Some? then Some(Attach(command.target.value))
    else None
  }

  function AskOf(view: ViewState, command: Command, place: Placement): Ask {
    var id, verb := IdOf(command), command.verb;
    var inSession := InSession(view, command);
    if inSession.Some? then inSession.value
    else if Refused(verb) || (command.session.Some? && verb.CreateTarget?) then
      Reply(Failure(id, command.session, KeptForEveryWindow))
    else if command.session.None? && Answered(verb) then Reply(Done(id, None))
    else if verb.CreateTarget? then Open(id, AddressOf(command))
    else
      var strange := Strange(view, command, place);
      if strange.Some? then Reply(Failure(id, command.session, strange.value))
      else if Expected(command).Some? && |view.asked| == MOST_ASKED then Reply(Failure(id, None, TooManyWait))
      else if command.session.None? && verb.ActivateTarget? && command.target.Some? then Show(command.target.value)
      else Pass
  }

  /** Only a command that goes to the browser, and whose answer matters, leaves a mark. */
  function AfterAsk(view: ViewState, command: Command, place: Placement): ViewState {
    var expected := Expected(command);
    if AskOf(view, command, place).Pass? && expected.Some?
    then view.(asked := view.asked[IdOf(command) := expected.value])
    else view
  }

  // ----- Messages -----

  /** What becomes of a message, and the view after it. */
  datatype Outcome = Outcome(tell: Tell, view: ViewState)

  function PassIf(pass: bool): Tell {
    if pass then PassOn else Drop
  }

  function SessionMessage(view: ViewState, message: Message, session: string): Outcome {
    if session !in view.sessions then Outcome(Drop, view)
    else if message.event == Some(AttachedToTarget) && message.child.Some? && message.info.target.Some? then
      Outcome(PassOn, view.(sessions := view.sessions[message.child.value := message.info.target.value]))
    else if message.event == Some(DetachedFromTarget) && message.child.Some? then
      Outcome(PassOn, view.(sessions := view.sessions - {message.child.value}))
    else Outcome(PassOn, view)
  }

  /** The news that waits, without its oldest when there is no room for more. */
  function Room(held: seq<Held>): seq<Held> {
    if |held| == MOST_HELD then held[1..] else held
  }

  function PageNews(view: ViewState, message: Message, place: Placement, now: nat): Outcome {
    if message.info.target.None? || !message.info.page then Outcome(Drop, view)
    else
      var target := message.info.target.value;
      match WhoseIs(view, target, place)
      case Ours => Outcome(PassOn, view.(told := view.told + {target}))
      case Theirs => Outcome(Drop, view)
      case Unknown => Outcome(Drop, view.(held := Room(view.held) + [Held(target, message, now)]))
  }

  function Other(target: string): Held -> bool {
    (held: Held) => held.target != target
  }

  function Destroyed(view: ViewState, target: string): Outcome {
    Outcome(
      PassIf(target in view.told),
      view.(held := Keep(Other(target), view.held), openedTabs := view.openedTabs - {target}, told := view.told - {target}))
  }

  function EventOutcome(view: ViewState, event: EventKind, message: Message, place: Placement, now: nat): Outcome {
    match event
    case TargetCreated => PageNews(view, message, place, now)
    case TargetInfoChanged => PageNews(view, message, place, now)
    case TargetDestroyed =>
      if message.target.None? then Outcome(Drop, view) else Destroyed(view, message.target.value)
    case TargetCrashed => Outcome(PassIf(message.target.Some? && message.target.value in view.told), view)
    case AttachedToTarget =>
      if message.child.Some? && message.info.target.Some? && IsOurs(view, message.info.target.value, place) then
        Outcome(PassOn, view.(sessions := view.sessions[message.child.value := message.info.target.value]))
      else Outcome(Drop, view)
    case DetachedFromTarget =>
      if message.child.Some? && message.child.value in view.sessions then
        Outcome(PassOn, view.(sessions := view.sessions - {message.child.value}))
      else Outcome(Drop, view)
    case ReceivedMessageFromTarget =>
      Outcome(PassIf(message.child.Some? && message.child.value in view.sessions), view)
    case OtherEvent(_) => Outcome(PassOn, view)
  }

  function OwnPage(view: ViewState, place: Placement): Info -> bool {
    (info: Info) => info.page && info.target.Some? && IsOurs(view, info.target.value, place)
  }

  function Active(active: Option<string>, same: bool): Info -> bool {
    (info: Info) => (info.target == active) == same
  }

  /** The list with the active page first, and otherwise in its order. */
  function ActiveFirst(infos: seq<Info>, active: Option<string>): seq<Info> {
    Keep(Active(active, true), infos) + Keep(Active(active, false), infos)
  }

  /** The targets of a list. */
  function TargetsOf(infos: seq<Info>): set<string> {
    set info | info in infos && info.target.Some? :: info.target.value
  }

  function TargetList(view: ViewState, message: Message, place: Placement, active: Option<string>): Outcome {
    if message.infos.None? then Outcome(PassOn, view)
    else
      var own := ActiveFirst(Keep(OwnPage(view, place), message.infos.value), active);
      Outcome(Changed(message.(infos := Some(own))), view.(told := view.told + TargetsOf(own)))
  }

  function AnswerOutcome(view: ViewState, message: Message, place: Placement, active: Option<string>): Outcome {
    if message.id.None? || message.id.value !in view.asked then Outcome(PassOn, view)
    else
      var asked := view.asked[message.id.value];
      var answered := view.(asked := view.asked - {message.id.value});
      match asked
      case Targets => TargetList(answered, message, place, active)
      case Attach(target) =>
        if message.attached.Some?
        then Outcome(PassOn, answered.(sessions := answered.sessions[message.attached.value := target]))
        else Outcome(PassOn, answered)
  }

  function TellOutcome(view: ViewState, message: Message, place: Placement, active: Option<string>, now: nat): Outcome {
    if message.session.Some? then SessionMessage(view, message, message.session.value)
    else if message.event.Some? then EventOutcome(view, message.event.value, message, place, now)
    else AnswerOutcome(view, message, place, active)
  }

  // ----- News that waits -----

  function Goes(view: ViewState, place: Placement): Held -> bool {
    (held: Held) => IsOurs(view, held.target, place)
  }

  function Stays(view: ViewState, place: Placement, now: nat): Held -> bool {
    (held: Held) => WhoseIs(view, held.target, place) == Unknown && Since(now, held.at) < HOLD_LIMIT
  }

  function HeldTargets(held: seq<Held>): set<string> {
    set news | news in held :: news.target
  }

  lemma HeldTargetsMore(held: seq<Held>, news: Held)
    ensures HeldTargets(held + [news]) == HeldTargets(held) + {news.target}
  {
  }

  /** The news that goes to the driver now. */
  function Released(view: ViewState, place: Placement): seq<Held> {
    Keep(Goes(view, place), view.held)
  }

  function AfterRelease(view: ViewState, place: Placement, now: nat): ViewState {
    view.(
      held := Keep(Stays(view, place, now), view.held),
      told := view.told + HeldTargets(Released(view, place)))
  }

  function MessagesOf(held: seq<Held>): (messages: seq<Message>)
    ensures |messages| == |held| && forall i :: 0 <= i < |held| ==> messages[i] == held[i].message
  {
    seq(|held|, i requires 0 <= i < |held| => held[i].message)
  }

  function AfterOpened(view: ViewState, target: Option<string>): ViewState {
    if target.Some? then view.(openedTabs := view.openedTabs + {target.value}) else view
  }

  function OpenedAnswer(id: nat, target: Option<string>): Answer {
    if target.Some? then NewTab(id, target.value) else Failure(id, None, TabDidNotOpen)
  }
}
