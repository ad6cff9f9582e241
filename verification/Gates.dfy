/**
 The three gates that a frame passes on its way to a viewer, as values: the engine's link to its
 host, the host's queue of a window, and the seat of a viewer. Each may drop a frame, and then
 lets no frame through until the next key frame.
 */
module Gates {
  import opened FlowStates

  /** A picture of a window, with the encoder that made it and its place among that encoder's pictures. */
  datatype EncodedFrame = EncodedFrame(window: int, key: bool, size: nat, encoder: nat, serial: nat)

  /** Pictures that wait for the link. One that finds no room is lost. */
  const FRAMES_WAITING: nat := 4

  datatype LinkState = LinkState(broken: set<int>, frames: seq<EncodedFrame>)

  /** Whether the link takes a frame now. */
  predicate Links(link: LinkState, frame: EncodedFrame) {
    (frame.key || frame.window !in link.broken) && |link.frames| < FRAMES_WAITING
  }

  function Linked(link: LinkState, frame: EncodedFrame): LinkState {
    if Links(link, frame) then LinkState(link.broken - {frame.window}, link.frames + [frame])
    else link.(broken := link.broken + {frame.window})
  }

  /** The windows of the host, with the frames in their queues, and the windows that lost a frame. */
  datatype RoutesState = RoutesState(windows: map<int, seq<EncodedFrame>>, behind: set<int>)

  /** Whether a frame gets into its window's queue, when that has room or not. */
  predicate Posts(routes: RoutesState, frame: EncodedFrame, room: bool) {
    (frame.key || frame.window !in routes.behind) && frame.window in routes.windows && room
  }

  function Posted(routes: RoutesState, frame: EncodedFrame, room: bool): RoutesState {
    var window := frame.window;
    if !frame.key && window in routes.behind then routes
    else if window !in routes.windows then routes.(behind := routes.behind - {window})
    else if room then
      RoutesState(routes.windows[window := routes.windows[window] + [frame]], routes.behind - {window})
    else routes.(behind := routes.behind + {window})
  }

  /** A window with the pipes of its viewers, by the number of the join that took each. */
  datatype LiveState = LiveState(flow: FlowState, pipes: map<string, nat>, nextFrame: nat)

  const NEW_LIVE := LiveState(EMPTY_FLOW, map[], 0)

  /** The viewers that a new frame reaches: those that take it and whose pipe has room. */
  function Reached(live: LiveState, key: bool, rooms: set<string>): set<string> {
    Takers(live.flow.seats, key) * live.pipes.Keys * rooms
  }

  function LostBy(flow: FlowState, viewers: set<string>, id: nat): FlowState
    requires flow.Accounted()
  {
    flow.(seats := map viewer | viewer in flow.seats ::
      if viewer in viewers then Forgotten(flow.seats[viewer], id) else flow.seats[viewer])
  }

  function NextId(live: LiveState): nat {
    (live.nextFrame + 1) % IDS
  }

  function LiveFramed(live: LiveState, key: bool, size: nat, rooms: set<string>, now: nat): LiveState
    requires live.flow.Accounted()
  {
    var id := NextId(live);
    OfferedKeepsAccount(live.flow.seats, id, key, size, now);
    var framed := FlowFramed(live.flow, id, key, size, now);
    var lost := Takers(live.flow.seats, key) - Reached(live, key, rooms);
    LiveState(LostBy(framed, lost, id), live.pipes - Goners(live.flow.seats, now), id)
  }

  function Freed(live: LiveState, viewer: string, number: nat): LiveState {
    if viewer in live.pipes && live.pipes[viewer] == number
    then live.(pipes := live.pipes - {viewer}, flow := Left(live.flow, viewer))
    else live
  }
}
