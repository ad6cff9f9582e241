/** The view of one window as the program keeps it. */
module Drivers {
  import opened Wrappers
  import opened DriverMessages
  import opened DriverViews
  import opened Filters
  import opened FlowStates

  class View {
    const window: int
    var openedTabs: set<string>
    var told: set<string>
    var sessions: map<string, string>
    var asked: map<nat, Asked>
    var held: seq<Held>

    ghost function State(): ViewState
      reads this
    {
      ViewState(window, openedTabs, told, sessions, asked, held)
    }

    constructor (window: int)
      ensures State() == NewView(window)
    {
      this.window := window;
      openedTabs, told, sessions, asked, held := {}, {}, map[], map[], [];
    }

    function Whose(target: string, place: Placement): (whose: Whose)
      reads this
      ensures whose == WhoseIs(State(), target, place)
    {
      if target in openedTabs || target in sessions.Values then Ours
      else if target in place then (if place[target] == window then Ours else Theirs)
      else Unknown
    }

    method Ask(command: Option<Command>, place: Placement) returns (ask: Ask)
      modifies this`asked
      ensures ask == if command.None? then Reply(Failure(0, None, NotACommand)) else AskOf(old(State()), command.value, place)
      ensures State() == if command.None? then old(State()) else AfterAsk(old(State()), command.value, place)
    {
      if command.None? {
        return Reply(Failure(0, None, NotACommand));
      }
      var c := command.value;
      var id := if c.id.Some? then c.id.value else 0;
      if c.session.Some? {
        if c.session.value !in sessions {
          return Reply(Failure(id, c.session, NoSession));
        }
        var target := sessions[c.session.value];
        match c.verb
        case BringToFront => return Show(target);
        case HandleDialog =>
          return Dialog(target, c.accept.Some? && c.accept.value, c.text, Done(id, c.session));
        case _ =>
      }
      if Refused(c.verb) || (c.session.Some? && c.verb.CreateTarget?) {
        return Reply(Failure(id, c.session, KeptForEveryWindow));
      }
      if c.session.None? && Answered(c.verb) {
        return Reply(Done(id, None));
      }
      if c.verb.CreateTarget? {
        return Open(id, if c.address.Some? && c.address.value != "" then c.address.value else BLANK);
      }
      if c.target.Some? && Whose(c.target.value, place) != Ours {
        return Reply(Failure(id, c.session, NoTarget));
      }
      if c.inSession.Some? && c.inSession.value !in sessions {
        return Reply(Failure(id, c.session, NoSession));
      }
      if c.session.Some? {
        return Pass;
      }
      ask := Send(c, id);
    }

    /** A command of the browser itself that may go there. */
    method Send(c: Command, id: nat) returns (ask: Ask)
      requires c.session.None?
      modifies this`asked
      ensures ask ==
        if Expected(c).Some? && |old(asked)| == MOST_ASKED then Reply(Failure(id, None, TooManyWait))
        else if c.verb.ActivateTarget? && c.target.Some? then Show(c.target.value)
        else Pass
      ensures asked == if ask.Pass? && Expected(c).Some? then old(asked)[id := Expected(c).value] else old(asked)
    {
      var expected := match c.verb
        case GetTargets => Some(Targets)
        case AttachToTarget => if c.target.Some? then Some(Attach(c.target.value)) else None
        case _ => None;
      if expected.Some? {
        if |asked| == MOST_ASKED {
          return Reply(Failure(id, None, TooManyWait));
        }
        asked := asked[id := expected.value];
      }
      ask := if c.verb.ActivateTarget? && c.target.Some? then Show(c.target.value) else Pass;
    }

    method Tell(message: Option<Message>, place: Placement, active: Option<string>, now: nat) returns (tell: Tell)
      modifies this
      ensures message.None? ==> tell == Drop && State() == old(State())
      ensures message.Some? ==> Outcome(tell, State()) == TellOutcome(old(State()), message.value, place, active, now)
    {
      if message.None? {
        return Drop;
      }
      var m := message.value;
      if m.session.Some? {
        tell := TellSession(m, m.session.value);
      } else if m.event.Some? {
        tell := TellEvent(m.event.value, m, place, now);
      } else {
        tell := TellAnswer(m, place, active);
      }
    }

    method TellSession(m: Message, session: string) returns (tell: Tell)
      modifies this`sessions
      ensures Outcome(tell, State()) == SessionMessage(old(State()), m, session)
    {
      if session !in sessions {
        return Drop;
      }
      if m.event == Some(AttachedToTarget) {
        if m.child.Some? && m.info.target.Some? {
          sessions := sessions[m.child.value := m.info.target.value];
        }
      } else if m.event == Some(DetachedFromTarget) {
        if m.child.Some? {
          sessions := sessions - {m.child.value};
        }
      }
      return PassOn;
    }

    method TellAnswer(m: Message, place: Placement, active: Option<string>) returns (tell: Tell)
      modifies this`asked, this`told, this`sessions
      ensures Outcome(tell, State()) == AnswerOutcome(old(State()), m, place, active)
    {
      if m.id.None? || m.id.value !in asked {
        return PassOn;
      }
      var answered := asked[m.id.value];
      asked := asked - {m.id.value};
      match answered
      case Targets => tell := TellTargets(m, place, active);
      case Attach(target) =>
        if m.attached.Some? {
          sessions := sessions[m.attached.value := target];
        }
        return PassOn;
    }

    method TellEvent(event: EventKind, m: Message, place: Placement, now: nat) returns (tell: Tell)
      modifies this
      ensures Outcome(tell, State()) == EventOutcome(old(State()), event, m, place, now)
    {
      match event
      case TargetCreated => tell := TellPage(m, place, now);
      case TargetInfoChanged => tell := TellPage(m, place, now);
      case TargetDestroyed =>
        if m.target.None? {
          return Drop;
        }
        tell := TellDestroyed(m.target.value);
      case TargetCrashed =>
        return if m.target.Some? && m.target.value in told then PassOn else Drop;
      case AttachedToTarget =>
        if m.child.None? || m.info.target.None? || Whose(m.info.target.value, place) != Ours {
          return Drop;
        }
        sessions := sessions[m.child.value := m.info.target.value];
        return PassOn;
      case DetachedFromTarget =>
        if m.child.None? || m.child.value !in sessions {
          return Drop;
        }
        sessions := sessions - {m.child.value};
        return PassOn;
      case ReceivedMessageFromTarget =>
        return if m.child.Some? && m.child.value in sessions then PassOn else Drop;
      case OtherEvent(_) => return PassOn;
    }

    method TellPage(m: Message, place: Placement, now: nat) returns (tell: Tell)
      modifies this`told, this`held
      ensures Outcome(tell, State()) == PageNews(old(State()), m, place, now)
    {
      if m.info.target.None? || !m.info.page {
        return Drop;
      }
      var target := m.info.target.value;
      match Whose(target, place)
      case Ours =>
        told := told + {target};
        return PassOn;
      case Theirs => return Drop;
      case Unknown =>
        if |held| == MOST_HELD {
          held := held[1..];
        }
        held := held + [Held(target, m, now)];
        return Drop;
    }

    method TellDestroyed(target: string) returns (tell: Tell)
      modifies this`told, this`held, this`openedTabs
      ensures Outcome(tell, State()) == Destroyed(old(State()), target)
    {
      held := Others(target);
      openedTabs := openedTabs - {target};
      tell := if target in told then PassOn else Drop;
      told := told - {target};
    }

    /** The news that waits for other targets. */
    method Others(target: string) returns (kept: seq<Held>)
      ensures kept == Keep(Other(target), held)
    {
      kept := [];
      for i := 0 to |held|
        invariant kept == Keep(Other(target), held[..i])
      {
        KeepNext(Other(target), held, i);
        if held[i].target != target {
          kept := kept + [held[i]];
        }
      }
      KeepAll(held);
    }

    /** The window's pages, with its active tab first, which a driver takes when it starts. */
    method TellTargets(m: Message, place: Placement, active: Option<string>) returns (tell: Tell)
      modifies this`told
      ensures Outcome(tell, State()) == TargetList(old(State()), m, place, active)
    {
      if m.infos.None? {
        return PassOn;
      }
      var own := OwnPages(m.infos.value, place);
      own := ActiveFirst(own, active);
      TellAbout(own);
      tell := Changed(m.(infos := Some(own)));
    }

    method OwnPages(infos: seq<Info>, place: Placement) returns (own: seq<Info>)
      ensures own == Keep(OwnPage(State(), place), infos)
    {
      own := [];
      for i := 0 to |infos|
        invariant own == Keep(OwnPage(State(), place), infos[..i])
      {
        KeepNext(OwnPage(State(), place), infos, i);
        if infos[i].page && infos[i].target.Some? && Whose(infos[i].target.value, place) == Ours {
          own := own + [infos[i]];
        }
      }
      KeepAll(infos);
    }

    method TellAbout(infos: seq<Info>)
      modifies this`told
      ensures told == old(told) + TargetsOf(infos)
    {
      for i := 0 to |infos|
        invariant told == old(told) + TargetsOf(infos[..i])
      {
        assert infos[..i + 1] == infos[..i] + [infos[i]];
        if infos[i].target.Some? {
          told := told + {infos[i].target.value};
        }
      }
      KeepAll(infos);
    }

    /** News of pages that are now placed, in their order. The rest wait a little longer. */
    method Release(place: Placement, now: nat) returns (released: seq<Message>)
      modifies this`told, this`held
      ensures State() == AfterRelease(old(State()), place, now)
      ensures released == MessagesOf(Released(old(State()), place))
    {
      ghost var before := State();
      var taken := held;
      held := [];
      var going := ReleaseEach(taken, place, now, before, Goes(before, place), Stays(before, place, now));
      released := MessagesOf(going);
    }

    method ReleaseEach(
      taken: seq<Held>, place: Placement, now: nat,
      ghost before: ViewState, ghost goes: Held -> bool, ghost stays: Held -> bool)
      returns (going: seq<Held>)
      requires held == [] && before.window == window && before.openedTabs == openedTabs && before.sessions == sessions
      requires goes == Goes(before, place) && stays == Stays(before, place, now)
      modifies this`told, this`held
      ensures going == Keep(goes, taken) && held == Keep(stays, taken) && told == old(told) + HeldTargets(going)
    {
      ghost var known := told;
      going := [];
      for i := 0 to |taken|
        invariant going == Keep(goes, taken[..i])
        invariant held == Keep(stays, taken[..i])
        invariant told == known + HeldTargets(going)
      {
        KeepNext(goes, taken, i);
        KeepNext(stays, taken, i);
        going := ReleaseOne(taken[i], place, now, going, before, known, goes(taken[i]), stays(taken[i]));
      }
      KeepAll(taken);
    }

    /** Adds news to what goes out now, or lets it wait on, or forgets it. */
    method ReleaseOne(
      news: Held, place: Placement, now: nat, sofar: seq<Held>,
      ghost before: ViewState, ghost known: set<string>, ghost goes: bool, ghost stays: bool)
      returns (going: seq<Held>)
      requires told == known + HeldTargets(sofar)
      requires before.window == window && before.openedTabs == openedTabs && before.sessions == sessions
      requires goes == Goes(before, place)(news) && stays == Stays(before, place, now)(news)
      modifies this`told, this`held
      ensures going == sofar + if goes then [news] else []
      ensures told == known + HeldTargets(going)
      ensures held == old(held) + if stays then [news] else []
    {
      going := sofar;
      match Whose(news.target, place)
      case Ours =>
        told := told + {news.target};
        going := going + [news];
        HeldTargetsMore(sofar, news);
      case Unknown =>
        if Since(now, news.at) < HOLD_LIMIT {
          held := held + [news];
        }
      case Theirs =>
    }

    method Opened(id: nat, target: Option<string>) returns (answer: Answer)
      modifies this`openedTabs
      ensures State() == AfterOpened(old(State()), target) && answer == OpenedAnswer(id, target)
    {
      match target
      case Some(tab) =>
        openedTabs := openedTabs + {tab};
        answer := NewTab(id, tab);
      case None => answer := Failure(id, None, TabDidNotOpen);
    }
  }
}
