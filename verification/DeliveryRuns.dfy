/**
 Every run of the whole way of a window's pictures: encoder, link, host, window and viewer. What a
 viewer gets from its seat call on starts at a key frame and misses no picture that a later one needs.
 */
module DeliveryRuns {
  import opened FlowStates
  import opened Gates
  import FlowRuns

  /** An encoder at work, with the number of pictures it made. */
  datatype Encoder = Encoder(id: nat, made: nat)

  datatype System = System(
    link: LinkState,
    carried: seq<EncodedFrame>,
    routes: RoutesState,
    lives: map<int, LiveState>,
    encoders: map<int, Encoder>,
    nextWindow: nat,
    nextEncoder: nat)
  {
    predicate Sound() {
      lives.Keys == routes.windows.Keys
      && forall window :: window in lives ==> lives[window].flow.Accounted()
    }
  }

  const START := System(LinkState({}, []), [], RoutesState(map[], {}), map[], map[], 0, 0)

  datatype Event =
    | OpenWindow
    | CloseWindow(window: int)
    | StartEncoder(window: int)
    | Encode(window: int, key: bool, size: nat)
    | Carry
    | Deliver(room: bool)
    | Handle(window: int, rooms: set<string>)
    | Join(window: int, viewer: string, number: nat)
    | Leave(window: int, viewer: string, number: nat)
    | Watch(window: int, viewer: string)
    | Ack(window: int, viewer: string, frame: nat)
    | AskKeyframe(window: int)
    | Steer(window: int)

  datatype Step = Step(event: Event, now: nat)

  /** The picture that a window's encoder makes. An encoder's first one is a key frame. */
  function NewFrame(encoder: Encoder, window: int, key: bool, size: nat): EncodedFrame {
    EncodedFrame(window, key || encoder.made == 0, size, encoder.id, encoder.made)
  }

  function Encoded(system: System, window: int, key: bool, size: nat): System {
    if window !in system.encoders then system
    else
      var encoder := system.encoders[window];
      system.(
        link := Linked(system.link, NewFrame(encoder, window, key, size)),
        encoders := system.encoders[window := encoder.(made := encoder.made + 1)])
  }

  function Carried(system: System): System {
    var frames := system.link.frames;
    if frames == [] then system
    else system.(link := system.link.(frames := frames[1..]), carried := system.carried + [frames[0]])
  }

  function Delivered(system: System, room: bool): System {
    if system.carried == [] then system
    else system.(carried := system.carried[1..], routes := Posted(system.routes, system.carried[0], room))
  }

  /** The next frame in a window's queue. */
  function Inbox(system: System, window: int): seq<EncodedFrame> {
    if window in system.routes.windows then system.routes.windows[window] else []
  }

  lemma LostByKeepsAccount(flow: FlowState, viewers: set<string>, id: nat)
    requires flow.Accounted()
    ensures LostBy(flow, viewers, id).Accounted()
  {
    forall viewer | viewer in flow.seats ensures LostBy(flow, viewers, id).seats[viewer].Accounted() {
      ForgottenKeepsAccount(flow.seats[viewer], id);
    }
  }

  function LiveHandled(live: LiveState, frame: EncodedFrame, rooms: set<string>, now: nat): (next: LiveState)
    requires live.flow.Accounted()
    ensures next.flow.Accounted()
  {
    var id := NextId(live);
    OfferedKeepsAccount(live.flow.seats, id, frame.key, frame.size, now);
    LostByKeepsAccount(
      FlowFramed(live.flow, id, frame.key, frame.size, now),
      Takers(live.flow.seats, frame.key) - Reached(live, frame.key, rooms), id);
    LiveFramed(live, frame.key, frame.size, rooms, now)
  }

  function Handled(system: System, window: int, rooms: set<string>, now: nat): System
    requires system.Sound()
  {
    var inbox := Inbox(system, window);
    if inbox == [] then system
    else system.(
      routes := system.routes.(windows := system.routes.windows[window := inbox[1..]]),
      lives := system.lives[window := LiveHandled(system.lives[window], inbox[0], rooms, now)])
  }

  ghost function WithFlow(system: System, window: int, step: FlowRuns.Step): System
    requires system.Sound()
  {
    if window !in system.lives then system
    else
      var live := system.lives[window];
      system.(lives := system.lives[window := live.(flow := FlowRuns.Next(live.flow, step))])
  }

  function WithLive(system: System, window: int, live: LiveState): System {
    if window in system.lives then system.(lives := system.lives[window := live]) else system
  }

  function FlowStepOf(step: Step): FlowRuns.Step
    requires step.event.Watch? || step.event.Ack? || step.event.AskKeyframe? || step.event.Steer?
  {
    var event := match step.event
      case Watch(_, viewer) => FlowRuns.Join(viewer)
      case Ack(_, viewer, frame) => FlowRuns.Ack(viewer, frame)
      case AskKeyframe(_) => FlowRuns.AskKeyframe
      case Steer(_) => FlowRuns.Steer;
    FlowRuns.Step(event, step.now)
  }

  ghost function Next(system: System, step: Step): (next: System)
    requires system.Sound()
    ensures next.Sound()
  {
    match step.event
    case OpenWindow =>
      system.(
        routes := system.routes.(windows := system.routes.windows[system.nextWindow := []]),
        lives := system.lives[system.nextWindow := NEW_LIVE],
        nextWindow := system.nextWindow + 1)
    case CloseWindow(window) =>
      system.(
        routes := RoutesState(system.routes.windows - {window}, system.routes.behind - {window}),
        lives := system.lives - {window})
    case StartEncoder(window) =>
      if window < system.nextWindow then
        system.(
          encoders := system.encoders[window := Encoder(system.nextEncoder, 0)],
          nextEncoder := system.nextEncoder + 1)
      else system
    case Encode(window, key, size) => Encoded(system, window, key, size)
    case Carry => Carried(system)
    case Deliver(room) => Delivered(system, room)
    case Handle(window, rooms) => Handled(system, window, rooms, step.now)
    case Join(window, viewer, number) =>
      if window in system.lives then
        var live := system.lives[window];
        WithLive(system, window, live.(pipes := live.pipes[viewer := number]))
      else system
    case Leave(window, viewer, number) =>
      if window in system.lives then WithLive(system, window, Freed(system.lives[window], viewer, number)) else system
    case _ => WithFlow(system, step.event.window, FlowStepOf(step))
  }

  ghost function After(run: seq<Step>): (system: System)
    ensures system.Sound()
  {
    if run == [] then START else Next(After(run[..|run| - 1]), run[|run| - 1])
  }

  // ----- What one window's pictures went through, and what one viewer got -----

  /** The pictures of one window that were made, and that passed each point of the way. */
  datatype Trace = Trace(
    made: seq<EncodedFrame>,
    linked: seq<EncodedFrame>,
    arrived: seq<EncodedFrame>,
    posted: seq<EncodedFrame>,
    seen: seq<EncodedFrame>,
    got: seq<EncodedFrame>)

  const NO_TRACE := Trace([], [], [], [], [], [])

  function When(pass: bool, frame: EncodedFrame): seq<EncodedFrame> {
    if pass then [frame] else []
  }

  /** The trace after one more step. What a viewer got counts from its last seat call on. */
  function Traced(system: System, trace: Trace, step: Step, window: int, viewer: string): Trace {
    match step.event
    case Encode(of, key, size) =>
      if of == window && of in system.encoders then
        var frame := NewFrame(system.encoders[of], of, key, size);
        trace.(made := trace.made + [frame], linked := trace.linked + When(Links(system.link, frame), frame))
      else trace
    case Deliver(room) =>
      if system.carried != [] && system.carried[0].window == window then
        var frame := system.carried[0];
        trace.(
          arrived := trace.arrived + [frame],
          posted := trace.posted + When(Posts(system.routes, frame, room), frame))
      else trace
    case Handle(of, rooms) =>
      if of == window && of in system.lives && Inbox(system, of) != [] then
        var frame := Inbox(system, of)[0];
        trace.(
          seen := trace.seen + [frame],
          got := trace.got + When(viewer in Reached(system.lives[of], frame.key, rooms), frame))
      else trace
    case Watch(of, who) =>
      if of == window && of in system.lives && who == viewer then trace.(got := []) else trace
    case _ => trace
  }

  ghost function TraceOf(run: seq<Step>, window: int, viewer: string): Trace {
    if run == [] then NO_TRACE
    else
      var earlier := run[..|run| - 1];
      Traced(After(earlier), TraceOf(earlier, window, viewer), run[|run| - 1], window, viewer)
  }

  // ----- One gate -----

  /** A decoder that has the earlier picture can show the later one. */
  predicate Follows(earlier: EncodedFrame, later: EncodedFrame) {
    later.key || (earlier.encoder == later.encoder && earlier.serial + 1 == later.serial)
  }

  /** A decoder can show every picture. */
  predicate Chained(frames: seq<EncodedFrame>) {
    (frames != [] ==> frames[0].key)
    && forall i :: 0 < i < |frames| ==> Follows(frames[i - 1], frames[i])
  }

  predicate SameLast(a: seq<EncodedFrame>, b: seq<EncodedFrame>) {
    if a == [] || b == [] then a == b else a[|a| - 1] == b[|b| - 1]
  }

  predicate Before(earlier: EncodedFrame, later: EncodedFrame) {
    earlier.encoder < later.encoder || (earlier.encoder == later.encoder && earlier.serial < later.serial)
  }

  predicate Within(some: seq<EncodedFrame>, all: seq<EncodedFrame>) {
    forall frame :: frame in some ==> frame in all
  }

  /** In the order in which a window's encoders made them, so no picture is there twice. */
  predicate Ordered(frames: seq<EncodedFrame>) {
    forall i, j :: 0 <= i < j < |frames| ==> Before(frames[i], frames[j])
  }

  /** What a gate let out can be shown and is in order, and an open gate let out the last picture that came in. */
  predicate Passed(came: seq<EncodedFrame>, left: seq<EncodedFrame>, open: bool) {
    Chained(left) && Ordered(left) && Within(left, came) && (open ==> SameLast(came, left))
  }

  /** Any gate that lets a delta out only when open, and is open only after a picture it let out. */
  lemma GateStep(came: seq<EncodedFrame>, left: seq<EncodedFrame>, open: bool, frame: EncodedFrame, out: bool, openAfter: bool)
    requires Passed(came, left, open) && Chained(came + [frame]) && Ordered(came + [frame])
    requires out ==> frame.key || open
    requires openAfter ==> out
    ensures Passed(came + [frame], left + When(out, frame), openAfter)
  {
    MoreWithin(left, came, frame, out);
    if !out {
      assert left + [] == left;
    } else {
      ChainedMore(came, left, open, frame);
      OrderedMore(came, left, frame);
    }
  }

  lemma ChainedMore(came: seq<EncodedFrame>, left: seq<EncodedFrame>, open: bool, frame: EncodedFrame)
    requires Chained(left) && (open ==> SameLast(came, left)) && Chained(came + [frame])
    requires frame.key || open
    ensures Chained(left + [frame])
  {
    if came != [] {
      assert Follows((came + [frame])[|came| - 1], (came + [frame])[|came|]);
    }
    assert came == [] ==> (came + [frame])[0] == frame;
  }

  lemma OrderedMore(came: seq<EncodedFrame>, left: seq<EncodedFrame>, frame: EncodedFrame)
    requires Ordered(left) && Within(left, came) && Ordered(came + [frame])
    ensures Ordered(left + [frame])
  {
    forall i | 0 <= i < |left| ensures Before(left[i], frame) {
      assert left[i] in came;
      var j :| 0 <= j < |came| && came[j] == left[i];
      assert Before((came + [frame])[j], (came + [frame])[|came|]);
    }
  }

  lemma MoreWithin(some: seq<EncodedFrame>, all: seq<EncodedFrame>, frame: EncodedFrame, out: bool)
    requires Within(some, all)
    ensures Within(some + When(out, frame), all + [frame])
  {
  }

  lemma ChainedFirst(frames: seq<EncodedFrame>, n: nat)
    requires Chained(frames) && Ordered(frames) && n <= |frames|
    ensures Chained(frames[..n]) && Ordered(frames[..n])
  {
    assert frames[..n] != [] ==> frames[..n][0] == frames[0];
  }

  // ----- The invariant -----

  /** The pictures of one window. */
  function Of(frames: seq<EncodedFrame>, window: int): seq<EncodedFrame> {
    if frames == [] then [] else When(frames[0].window == window, frames[0]) + Of(frames[1..], window)
  }

  lemma OfMore(frames: seq<EncodedFrame>, frame: EncodedFrame, window: int)
    ensures Of(frames + [frame], window) == Of(frames, window) + When(frame.window == window, frame)
  {
    if frames == [] {
      assert [frame][1..] == [];
      assert frames + [frame] == [frame];
    } else {
      assert (frames + [frame])[1..] == frames[1..] + [frame];
    }
  }

  predicate IsLive(live: LiveState, viewer: string) {
    viewer in live.flow.seats && live.flow.seats[viewer].live
  }

  /** The pictures of a window so far, and the encoder that makes the next one. */
  predicate MadeInv(encoders: map<int, Encoder>, nextEncoder: nat, made: seq<EncodedFrame>, window: int) {
    Chained(made) && Ordered(made)
    && if window in encoders then
      var encoder := encoders[window];
      encoder.id < nextEncoder
      && (forall frame :: frame in made ==>
        frame.encoder < encoder.id || (frame.encoder == encoder.id && frame.serial < encoder.made))
      && (encoder.made > 0 ==>
        made != [] && made[|made| - 1].encoder == encoder.id && made[|made| - 1].serial + 1 == encoder.made)
    else made == []
  }

  predicate LinkInv(link: LinkState, carried: seq<EncodedFrame>, trace: Trace, window: int) {
    Passed(trace.made, trace.linked, window !in link.broken)
    && trace.linked == trace.arrived + Of(carried, window) + Of(link.frames, window)
  }

  predicate HostInv(
    routes: RoutesState, made: seq<EncodedFrame>, arrived: seq<EncodedFrame>, posted: seq<EncodedFrame>,
    seen: seq<EncodedFrame>, window: int)
  {
    Within(posted, made)
    && (window in routes.windows ==>
      Passed(arrived, posted, window !in routes.behind) && posted == seen + routes.windows[window])
  }

  predicate ViewerInv(
    lives: map<int, LiveState>, made: seq<EncodedFrame>, seen: seq<EncodedFrame>, got: seq<EncodedFrame>,
    window: int, viewer: string)
  {
    Within(got, made) && Passed(seen, got, window in lives && IsLive(lives[window], viewer))
  }

  /** Windows that are not open yet have nothing. */
  predicate FreshInv(system: System, trace: Trace, window: int) {
    window >= system.nextWindow ==>
      window !in system.encoders && window !in system.lives && trace == NO_TRACE
  }

  predicate Inv(system: System, trace: Trace, window: int, viewer: string) {
    MadeInv(system.encoders, system.nextEncoder, trace.made, window)
    && LinkInv(system.link, system.carried, trace, window)
    && HostInv(system.routes, trace.made, trace.arrived, trace.posted, trace.seen, window)
    && ViewerInv(system.lives, trace.made, trace.seen, trace.got, window, viewer)
    && FreshInv(system, trace, window)
  }

  /** An encoder makes a picture, and the link takes or loses it. */
  lemma EncodeKeepsMade(system: System, made: seq<EncodedFrame>, window: int, key: bool, size: nat)
    requires MadeInv(system.encoders, system.nextEncoder, made, window) && window in system.encoders
    ensures
      var next := Encoded(system, window, key, size);
      MadeInv(next.encoders, next.nextEncoder, made + [NewFrame(system.encoders[window], window, key, size)], window)
  {
  }

  lemma EncodeKeepsLink(link: LinkState, carried: seq<EncodedFrame>, trace: Trace, frame: EncodedFrame, window: int)
    requires LinkInv(link, carried, trace, window)
    requires frame.window == window ==> Chained(trace.made + [frame]) && Ordered(trace.made + [frame])
    ensures
      var next := trace.(made := trace.made + [frame], linked := trace.linked + When(Links(link, frame), frame));
      LinkInv(Linked(link, frame), carried, if frame.window == window then next else trace, window)
  {
    var out := Links(link, frame);
    OfMore(link.frames, frame, window);
    if frame.window == window {
      GateStep(trace.made, trace.linked, window !in link.broken, frame, out, out);
    }
  }

  lemma CarryKeepsLink(system: System, trace: Trace, window: int)
    requires LinkInv(system.link, system.carried, trace, window)
    ensures LinkInv(Carried(system).link, Carried(system).carried, trace, window)
  {
    var frames := system.link.frames;
    if frames != [] {
      OfMore(system.carried, frames[0], window);
    }
  }

  lemma DeliverKeepsLink(link: LinkState, carried: seq<EncodedFrame>, trace: Trace, window: int)
    requires LinkInv(link, carried, trace, window) && carried != []
    ensures
      var arrived := trace.arrived + When(carried[0].window == window, carried[0]);
      LinkInv(link, carried[1..], trace.(arrived := arrived), window)
  {
  }

  /** The host posts a frame of the window, or loses it. */
  lemma DeliverKeepsHost(
    routes: RoutesState, made: seq<EncodedFrame>, arrived: seq<EncodedFrame>, posted: seq<EncodedFrame>,
    seen: seq<EncodedFrame>, frame: EncodedFrame, room: bool)
    requires HostInv(routes, made, arrived, posted, seen, frame.window)
    requires Chained(arrived + [frame]) && Ordered(arrived + [frame]) && frame in made
    ensures
      HostInv(
        Posted(routes, frame, room), made, arrived + [frame], posted + When(Posts(routes, frame, room), frame),
        seen, frame.window)
  {
    if frame.window in routes.windows {
      var out := Posts(routes, frame, room);
      GateStep(arrived, posted, frame.window !in routes.behind, frame, out, out);
    }
  }

  lemma DeliverKeepsOthers(
    routes: RoutesState, made: seq<EncodedFrame>, arrived: seq<EncodedFrame>, posted: seq<EncodedFrame>,
    seen: seq<EncodedFrame>, frame: EncodedFrame, room: bool, window: int)
    requires HostInv(routes, made, arrived, posted, seen, window) && frame.window != window
    ensures HostInv(Posted(routes, frame, room), made, arrived, posted, seen, window)
  {
  }

  /** What a new frame does to one viewer: it ends up live only if the frame reached it. */
  lemma HandledSeat(live: LiveState, frame: EncodedFrame, rooms: set<string>, now: nat, viewer: string)
    requires live.flow.Accounted()
    ensures viewer in Reached(live, frame.key, rooms) ==> frame.key || IsLive(live, viewer)
    ensures IsLive(LiveHandled(live, frame, rooms, now), viewer) ==> viewer in Reached(live, frame.key, rooms)
  {
  }

  lemma HandleKeepsViewer(
    lives: map<int, LiveState>, live: LiveState, made: seq<EncodedFrame>, seen: seq<EncodedFrame>,
    got: seq<EncodedFrame>, frame: EncodedFrame, out: bool, window: int, viewer: string)
    requires window in lives && ViewerInv(lives, made, seen, got, window, viewer)
    requires Chained(seen + [frame]) && Ordered(seen + [frame]) && frame in made
    requires out ==> frame.key || IsLive(lives[window], viewer)
    requires IsLive(live, viewer) ==> out
    ensures ViewerInv(lives[window := live], made, seen + [frame], got + When(out, frame), window, viewer)
  {
    GateStep(seen, got, IsLive(lives[window], viewer), frame, out, IsLive(live, viewer));
    assert forall one :: one in got + When(out, frame) ==> one in got || one == frame;
  }

  // ----- Every step keeps the invariant -----

  predicate Started(system: System, trace: Trace, window: int, viewer: string) {
    system.Sound() && Inv(system, trace, window, viewer)
  }

  ghost predicate Keeps(system: System, trace: Trace, step: Step, window: int, viewer: string)
    requires system.Sound()
  {
    Inv(Next(system, step), Traced(system, trace, step, window, viewer), window, viewer)
  }

  lemma EncodeOwnKeeps(system: System, trace: Trace, key: bool, size: nat, now: nat, window: int, viewer: string)
    requires Started(system, trace, window, viewer) && window in system.encoders
    ensures Keeps(system, trace, Step(Encode(window, key, size), now), window, viewer)
  {
    EncodeKeepsMade(system, trace.made, window, key, size);
    EncodeKeepsLink(
      system.link, system.carried, trace, NewFrame(system.encoders[window], window, key, size), window);
  }

  lemma EncodeOtherKeeps(
    system: System, trace: Trace, of: int, key: bool, size: nat, now: nat, window: int, viewer: string)
    requires Started(system, trace, window, viewer) && of in system.encoders && of != window
    ensures Keeps(system, trace, Step(Encode(of, key, size), now), window, viewer)
  {
    EncodeKeepsLink(system.link, system.carried, trace, NewFrame(system.encoders[of], of, key, size), window);
  }

  lemma EncodeKeeps(system: System, trace: Trace, of: int, key: bool, size: nat, now: nat, window: int, viewer: string)
    requires Started(system, trace, window, viewer)
    ensures Keeps(system, trace, Step(Encode(of, key, size), now), window, viewer)
  {
    if of in system.encoders {
      if of == window {
        EncodeOwnKeeps(system, trace, key, size, now, window, viewer);
      } else {
        EncodeOtherKeeps(system, trace, of, key, size, now, window, viewer);
      }
    }
  }

  lemma DeliverOwnKeeps(system: System, trace: Trace, room: bool, now: nat, window: int, viewer: string)
    requires Started(system, trace, window, viewer) && system.carried != [] && system.carried[0].window == window
    ensures Keeps(system, trace, Step(Deliver(room), now), window, viewer)
  {
    var frame := system.carried[0];
    DeliverKeepsLink(system.link, system.carried, trace, window);
    ArrivesChained(system, trace, frame, window);
    DeliverKeepsHost(system.routes, trace.made, trace.arrived, trace.posted, trace.seen, frame, room);
  }

  lemma DeliverOtherKeeps(system: System, trace: Trace, room: bool, now: nat, window: int, viewer: string)
    requires Started(system, trace, window, viewer) && system.carried != [] && system.carried[0].window != window
    ensures Keeps(system, trace, Step(Deliver(room), now), window, viewer)
  {
    DeliverKeepsLink(system.link, system.carried, trace, window);
    assert trace.arrived + [] == trace.arrived;
    DeliverKeepsOthers(
      system.routes, trace.made, trace.arrived, trace.posted, trace.seen, system.carried[0], room, window);
  }

  lemma DeliverKeeps(system: System, trace: Trace, room: bool, now: nat, window: int, viewer: string)
    requires Started(system, trace, window, viewer)
    ensures Keeps(system, trace, Step(Deliver(room), now), window, viewer)
  {
    if system.carried != [] {
      if system.carried[0].window == window {
        DeliverOwnKeeps(system, trace, room, now, window, viewer);
      } else {
        DeliverOtherKeeps(system, trace, room, now, window, viewer);
      }
    }
  }

  /** The next picture to arrive is the next one that passed the link. */
  lemma ArrivesChained(system: System, trace: Trace, frame: EncodedFrame, window: int)
    requires LinkInv(system.link, system.carried, trace, window)
    requires system.carried != [] && system.carried[0] == frame && frame.window == window
    ensures Chained(trace.arrived + [frame]) && Ordered(trace.arrived + [frame]) && frame in trace.made
  {
    var n := |trace.arrived|;
    assert trace.linked[n] == frame;
    ChainedFirst(trace.linked, n + 1);
    assert trace.linked[..n + 1] == trace.arrived + [frame];
  }

  lemma SeenChained(inbox: seq<EncodedFrame>, trace: Trace)
    requires Chained(trace.posted) && Ordered(trace.posted) && trace.posted == trace.seen + inbox && inbox != []
    ensures Chained(trace.seen + [inbox[0]]) && Ordered(trace.seen + [inbox[0]])
  {
    var n := |trace.seen|;
    ChainedFirst(trace.posted, n + 1);
    assert trace.posted[..n + 1] == trace.seen + [inbox[0]];
  }

  lemma HandleKeepsHost(routes: RoutesState, trace: Trace, of: int, window: int)
    requires HostInv(routes, trace.made, trace.arrived, trace.posted, trace.seen, window)
    requires of in routes.windows && routes.windows[of] != []
    ensures
      var inbox := routes.windows[of];
      var seen := trace.seen + When(of == window, inbox[0]);
      HostInv(
        routes.(windows := routes.windows[of := inbox[1..]]), trace.made, trace.arrived, trace.posted, seen, window)
  {
  }

  lemma HandleKeeps(system: System, trace: Trace, of: int, rooms: set<string>, now: nat, window: int, viewer: string)
    requires Started(system, trace, window, viewer)
    ensures Keeps(system, trace, Step(Handle(of, rooms), now), window, viewer)
  {
    var inbox := Inbox(system, of);
    if inbox != [] {
      HandleKeepsHost(system.routes, trace, of, window);
    }
    if inbox != [] && of == window {
      var frame, live := inbox[0], system.lives[of];
      assert frame in trace.posted;
      SeenChained(inbox, trace);
      HandledSeat(live, frame, rooms, now, viewer);
      var out := viewer in Reached(live, frame.key, rooms);
      var next := LiveHandled(live, frame, rooms, now);
      HandleKeepsViewer(system.lives, next, trace.made, trace.seen, trace.got, frame, out, window, viewer);
    }
  }

  lemma OpenWindowKeeps(system: System, trace: Trace, now: nat, window: int, viewer: string)
    requires Started(system, trace, window, viewer)
    ensures Keeps(system, trace, Step(OpenWindow, now), window, viewer)
  {
  }

  lemma CloseWindowKeeps(system: System, trace: Trace, of: int, now: nat, window: int, viewer: string)
    requires Started(system, trace, window, viewer)
    ensures Keeps(system, trace, Step(CloseWindow(of), now), window, viewer)
  {
  }

  lemma StartKeepsMade(encoders: map<int, Encoder>, nextEncoder: nat, made: seq<EncodedFrame>, of: int, window: int)
    requires MadeInv(encoders, nextEncoder, made, window)
    ensures MadeInv(encoders[of := Encoder(nextEncoder, 0)], nextEncoder + 1, made, window)
  {
  }

  lemma StartEncoderKeeps(system: System, trace: Trace, of: int, now: nat, window: int, viewer: string)
    requires Started(system, trace, window, viewer)
    ensures Keeps(system, trace, Step(StartEncoder(of), now), window, viewer)
  {
    StartKeepsMade(system.encoders, system.nextEncoder, trace.made, of, window);
  }

  lemma CarryKeeps(system: System, trace: Trace, now: nat, window: int, viewer: string)
    requires Started(system, trace, window, viewer)
    ensures Keeps(system, trace, Step(Carry, now), window, viewer)
  {
    CarryKeepsLink(system, trace, window);
  }

  lemma LiveChangeKeeps(system: System, trace: Trace, of: int, live: LiveState, window: int, viewer: string)
    requires Started(system, trace, window, viewer) && of in system.lives
    requires IsLive(live, viewer) ==> IsLive(system.lives[of], viewer)
    ensures Inv(WithLive(system, of, live), trace, window, viewer)
  {
  }

  lemma WatchKeeps(system: System, trace: Trace, live: LiveState, window: int, viewer: string)
    requires Started(system, trace, window, viewer) && window in system.lives && !IsLive(live, viewer)
    ensures Inv(WithLive(system, window, live), trace.(got := []), window, viewer)
  {
  }

  lemma FlowStepKeeps(system: System, trace: Trace, of: int, step: FlowRuns.Step, window: int, viewer: string)
    requires Started(system, trace, window, viewer) && !step.event.NewFrame? && of in system.lives
    ensures
      var next := if of == window && step.event == FlowRuns.Join(viewer) then trace.(got := []) else trace;
      Inv(WithFlow(system, of, step), next, window, viewer)
  {
    var live := system.lives[of];
    FlowRuns.SeatsAreApart(live.flow, viewer, step);
    var next := live.(flow := FlowRuns.Next(live.flow, step));
    if step.event == FlowRuns.Join(viewer) {
      if of == window {
        WatchKeeps(system, trace, next, window, viewer);
      } else {
        OtherLiveKeeps(system, trace, of, next, window, viewer);
      }
    } else {
      LiveChangeKeeps(system, trace, of, next, window, viewer);
    }
  }

  lemma OtherLiveKeeps(system: System, trace: Trace, of: int, live: LiveState, window: int, viewer: string)
    requires Started(system, trace, window, viewer) && of in system.lives && of != window
    ensures Inv(WithLive(system, of, live), trace, window, viewer)
  {
  }

  lemma SeatStepKeeps(system: System, trace: Trace, step: Step, window: int, viewer: string)
    requires Started(system, trace, window, viewer) && (step.event.Join? || step.event.Leave?)
    ensures Keeps(system, trace, step, window, viewer)
  {
    var of := step.event.window;
    if of in system.lives {
      LiveChangeKeeps(system, trace, of, Next(system, step).lives[of], window, viewer);
    }
  }

  lemma WatchEventKeeps(system: System, trace: Trace, of: int, who: string, now: nat, window: int, viewer: string)
    requires Started(system, trace, window, viewer)
    ensures Keeps(system, trace, Step(Watch(of, who), now), window, viewer)
  {
    var step := Step(Watch(of, who), now);
    var live := FlowStepOf(step);
    assert Next(system, step) == WithFlow(system, of, live);
    if of in system.lives {
      assert live.event == FlowRuns.Join(who);
      FlowStepKeeps(system, trace, of, live, window, viewer);
    }
  }

  lemma FlowEventKeeps(system: System, trace: Trace, step: Step, window: int, viewer: string)
    requires Started(system, trace, window, viewer)
    requires step.event.Ack? || step.event.AskKeyframe? || step.event.Steer?
    ensures Keeps(system, trace, step, window, viewer)
  {
    var of, live := step.event.window, FlowStepOf(step);
    assert Next(system, step) == WithFlow(system, of, live) && Traced(system, trace, step, window, viewer) == trace;
    if of in system.lives {
      FlowStepKeeps(system, trace, of, live, window, viewer);
    }
  }

  lemma StepKeeps(system: System, trace: Trace, step: Step, window: int, viewer: string)
    requires Started(system, trace, window, viewer)
    ensures Keeps(system, trace, step, window, viewer)
  {
    match step.event
    case Encode(of, key, size) => EncodeKeeps(system, trace, of, key, size, step.now, window, viewer);
    case Carry => CarryKeeps(system, trace, step.now, window, viewer);
    case Deliver(room) => DeliverKeeps(system, trace, room, step.now, window, viewer);
    case Handle(of, rooms) => HandleKeeps(system, trace, of, rooms, step.now, window, viewer);
    case OpenWindow => OpenWindowKeeps(system, trace, step.now, window, viewer);
    case CloseWindow(of) => CloseWindowKeeps(system, trace, of, step.now, window, viewer);
    case StartEncoder(of) => StartEncoderKeeps(system, trace, of, step.now, window, viewer);
    case Join(_, _, _) => SeatStepKeeps(system, trace, step, window, viewer);
    case Leave(_, _, _) => SeatStepKeeps(system, trace, step, window, viewer);
    case Watch(of, who) => WatchEventKeeps(system, trace, of, who, step.now, window, viewer);
    case _ => FlowEventKeeps(system, trace, step, window, viewer);
  }

  lemma {:induction false} RunsKeep(run: seq<Step>, window: int, viewer: string)
    ensures Inv(After(run), TraceOf(run, window, viewer), window, viewer)
  {
    if run == [] {
    } else {
      var earlier := run[..|run| - 1];
      RunsKeep(earlier, window, viewer);
      StepKeeps(After(earlier), TraceOf(earlier, window, viewer), run[|run| - 1], window, viewer);
    }
  }

  /**
   In every run, what a viewer got of a window since its last seat call is some of what its encoders
   made, in their order and each picture once. It starts at a key frame, and right before each delta
   comes the very picture that the encoder made right before it.
   */
  lemma DeliveredPicturesDecode(run: seq<Step>, window: int, viewer: string)
    ensures
      var trace := TraceOf(run, window, viewer);
      Within(trace.got, trace.made) && Ordered(trace.got)
      && (trace.got != [] ==> trace.got[0].key)
      && forall i :: 0 < i < |trace.got| && !trace.got[i].key ==>
        exists m :: 0 < m < |trace.made| && trace.made[m] == trace.got[i] && trace.made[m - 1] == trace.got[i - 1]
  {
    RunsKeep(run, window, viewer);
    var trace := TraceOf(run, window, viewer);
    forall i | 0 < i < |trace.got| && !trace.got[i].key
      ensures exists m :: 0 < m < |trace.made| && trace.made[m] == trace.got[i] && trace.made[m - 1] == trace.got[i - 1]
    {
      NeighboursWereMadeSo(trace.made, trace.got[i - 1], trace.got[i]);
    }
  }

  lemma NeighboursWereMadeSo(made: seq<EncodedFrame>, earlier: EncodedFrame, later: EncodedFrame)
    requires Chained(made) && Ordered(made) && earlier in made && later in made
    requires !later.key && Follows(earlier, later)
    ensures exists m :: 0 < m < |made| && made[m] == later && made[m - 1] == earlier
  {
    var n :| 0 <= n < |made| && made[n] == earlier;
    var m :| 0 <= m < |made| && made[m] == later;
    assert m > 0 && Follows(made[m - 1], made[m]);
    assert n == m - 1;
  }
}
