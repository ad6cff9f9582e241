/** What the flow of a window keeps over every run of its handlers. */
module FlowRuns {
  import opened Wrappers
  import opened FlowStates

  datatype Event =
    | Join(viewer: string)
    | Leave(viewer: string)
    | NewFrame(id: nat, key: bool, bytes: nat)
    | Lost(viewer: string, id: nat)
    | AskKeyframe
    | Ack(viewer: string, frame: nat)
    | Steer

  datatype Step = Step(event: Event, now: nat)

  ghost function Next(flow: FlowState, step: Step): (next: FlowState)
    requires flow.Accounted()
    ensures next.Accounted()
  {
    match step.event
    case Join(viewer) => Seated(flow, viewer, step.now)
    case Leave(viewer) => Left(flow, viewer)
    case NewFrame(id, key, bytes) =>
      OfferedKeepsAccount(flow.seats, id, key, bytes, step.now);
      FlowFramed(flow, id, key, bytes, step.now)
    case Lost(viewer, id) =>
      if viewer in flow.seats then ForgottenKeepsAccount(flow.seats[viewer], id);
        FlowForgotten(flow, viewer, id)
      else flow
    case AskKeyframe => KeyframeAsked(flow, step.now)
    case Ack(viewer, frame) =>
      if viewer in flow.seats then AckedKeepsAccount(flow.seats[viewer], frame, step.now);
        FlowAcked(flow, viewer, frame, step.now)
      else flow
    case Steer => FlowSteered(flow, step.now)
  }

  /** The flow after a run. In every reachable state the bytes that wait are those on their way. */
  ghost function After(run: seq<Step>): (flow: FlowState)
    ensures flow.Accounted()
  {
    if run == [] then EMPTY_FLOW else Next(After(run[..|run| - 1]), run[|run| - 1])
  }

  // ----- One viewer's seat -----

  function SeatOf(flow: FlowState, viewer: string): Option<SeatState> {
    if viewer in flow.seats then Some(flow.seats[viewer]) else None
  }

  /** What a step does to one viewer's seat, whatever the other viewers do. */
  function NextSeat(seat: Option<SeatState>, viewer: string, step: Step): Option<SeatState>
    requires seat.Some? ==> seat.value.Accounted()
  {
    var event, now := step.event, step.now;
    if event == Join(viewer) then Some(NewSeat(now))
    else if seat.None? || event == Leave(viewer) then None
    else if event.NewFrame? then
      if Hopeless(seat.value, now) then None else Some(Framed(seat.value, event.id, event.key, event.bytes, now))
    else if event.Lost? && event.viewer == viewer then Some(Forgotten(seat.value, event.id))
    else if event.Ack? && event.viewer == viewer then Some(Acked(seat.value, event.frame, now))
    else seat
  }

  lemma SeatsAreApart(flow: FlowState, viewer: string, step: Step)
    requires flow.Accounted()
    ensures SeatOf(Next(flow, step), viewer) == NextSeat(SeatOf(flow, viewer), viewer, step)
  {
  }

  ghost function SeatAfter(run: seq<Step>, viewer: string): (seat: Option<SeatState>)
    ensures seat.Some? ==> seat.value.Accounted()
  {
    SeatOf(After(run), viewer)
  }

  lemma SeatAfterStep(run: seq<Step>, viewer: string)
    requires run != []
    ensures SeatAfter(run, viewer) == NextSeat(SeatAfter(run[..|run| - 1], viewer), viewer, run[|run| - 1])
  {
    SeatsAreApart(After(run[..|run| - 1]), viewer, run[|run| - 1]);
  }

  // ----- The bytes that wait -----

  predicate FramesAtMost(run: seq<Step>, largest: nat) {
    forall i :: 0 <= i < |run| && run[i].event.NewFrame? ==> run[i].event.bytes <= largest
  }

  lemma OldBytesOnlyShrink(seat: SeatState, viewer: string, step: Step)
    requires seat.Accounted() && NextSeat(Some(seat), viewer, step).Some? && step.event != Join(viewer)
    ensures !step.event.NewFrame? ==> NextSeat(Some(seat), viewer, step).value.waiting <= seat.waiting
    ensures step.event.NewFrame? && Over(seat) ==> NextSeat(Some(seat), viewer, step).value.waiting == seat.waiting
  {
    if step.event.Lost? {
      ForgottenKeepsAccount(seat, step.event.id);
    } else if step.event.Ack? {
      AckedKeepsAccount(seat, step.event.frame, step.now);
    }
  }

  /** A viewer's bytes are those on their way, and never more than the limit and one frame. */
  lemma {:induction false} WaitingIsBounded(run: seq<Step>, viewer: string, largest: nat)
    requires FramesAtMost(run, largest) && SeatAfter(run, viewer).Some?
    ensures
      var seat := SeatAfter(run, viewer).value;
      seat.waiting == SumBytes(seat.sent) && seat.waiting <= WAITING_MOST + largest
  {
    if run == [] {
    } else {
      var earlier, step := run[..|run| - 1], run[|run| - 1];
      SeatAfterStep(run, viewer);
      if SeatAfter(earlier, viewer).Some? && step.event != Join(viewer) {
        WaitingIsBounded(earlier, viewer, largest);
        OldBytesOnlyShrink(SeatAfter(earlier, viewer).value, viewer, step);
      }
    }
  }

  // ----- The pace of key frames -----

  /** Time never goes back. */
  predicate Timed(run: seq<Step>) {
    forall i, j :: 0 <= i < j < |run| ==> run[i].now <= run[j].now
  }

  /** A turn in which the flow has the engine asked for a key frame. */
  ghost predicate AsksKeyframe(run: seq<Step>, i: nat) {
    i < |run|
    && var flow, event := After(run[..i]), run[i].event;
    KeyframeAllowed(flow, run[i].now)
    && (event.AskKeyframe? || (event.NewFrame? && Wanters(flow.seats, event.key) != {}))
  }

  lemma {:induction false} LastAskIsKept(run: seq<Step>, i: nat, n: nat)
    requires Timed(run) && AsksKeyframe(run, i) && i < n <= |run|
    ensures After(run[..n]).keyframeAt.Some? && run[i].now <= After(run[..n]).keyframeAt.value
  {
    assert run[..n][..n - 1] == run[..n - 1];
    if i == n - 1 {
    } else {
      LastAskIsKept(run, i, n - 1);
    }
  }

  /** Two of them lie at least a second apart. */
  lemma KeyframesAreApart(run: seq<Step>, i: nat, j: nat)
    requires Timed(run) && AsksKeyframe(run, i) && AsksKeyframe(run, j) && i < j
    ensures run[j].now - run[i].now >= KEYFRAME_FLOOR
  {
    LastAskIsKept(run, i, j);
  }
}
