/**
 One window's video flow as values: what each handler of the flow makes of the seats of its
 viewers and of its bitrate. Time counts nanoseconds, and the time since a later moment is zero.
 */
module FlowStates {
  import opened Sizes
  import opened Wrappers

  const MILLISECOND: nat := 1_000_000
  /** Bytes on their way to one viewer before it counts as behind. */
  const WAITING_MOST: nat := 2 * 1024 * 1024
  /** A viewer that is behind can take a key frame again when this much still waits. */
  const WAITING_DRAINED: nat := 256 * 1024
  const KEYFRAME_FLOOR: nat := 1000 * MILLISECOND
  const HOPELESS: nat := 15_000 * MILLISECOND
  const QUEUE_LIMIT: nat := 40 * MILLISECOND
  const STEER_EVERY: nat := 250 * MILLISECOND
  const RISE_AFTER: nat := 2000 * MILLISECOND
  const ROUND_WINDOW: nat := 10_000 * MILLISECOND
  const FIRST_BITRATE: nat := 8_000_000
  const LOWEST_BITRATE: nat := 1_000_000
  const HIGHEST_BITRATE: nat := 40_000_000
  /** Frame ids wrap at 32 bits. */
  const IDS: nat := 0x1_0000_0000
  /** Half the largest id, rounded down. */
  const HALF_IDS: nat := 0x7FFF_FFFF

  function Since(now: nat, at: nat): nat {
    if now >= at then now - at else 0
  }

  function Min(a: nat, b: nat): nat {
    if b < a then b else a
  }

  datatype Sent = Sent(id: nat, bytes: nat, at: nat)

  function SumBytes(sent: seq<Sent>): nat {
    if sent == [] then 0 else sent[0].bytes + SumBytes(sent[1..])
  }

  lemma SumBytesConcat(a: seq<Sent>, b: seq<Sent>)
    ensures SumBytes(a + b) == SumBytes(a) + SumBytes(b)
  {
    if a == [] {
      assert a + b == b;
    } else {
      assert (a + b)[1..] == a[1..] + b;
    }
  }

  lemma FirstBytes(sent: seq<Sent>, n: nat)
    requires n <= |sent|
    ensures SumBytes(sent) == SumBytes(sent[..n]) + SumBytes(sent[n..])
  {
    SumBytesConcat(sent[..n], sent[n..]);
    assert sent == sent[..n] + sent[n..];
  }

  lemma LastBytes(sent: seq<Sent>)
    requires sent != []
    ensures SumBytes(sent) == SumBytes(sent[..|sent| - 1]) + sent[|sent| - 1].bytes
  {
    var last := |sent| - 1;
    SumBytesConcat(sent[..last], [sent[last]]);
    assert sent == sent[..last] + [sent[last]];
  }

  /** One viewer's side of the stream. */
  datatype SeatState = SeatState(
    live: bool,
    sent: seq<Sent>,
    waiting: nat,
    overSince: Option<nat>,
    round: Option<nat>,
    leastRound: Option<nat>,
    windowLeast: Option<nat>,
    windowAt: nat)
  {
    /** The bytes that wait are those of the frames on their way. */
    predicate Accounted() {
      waiting == SumBytes(sent)
    }
  }

  function NewSeat(now: nat): SeatState {
    SeatState(false, [], 0, None, None, None, None, now)
  }

  /** How much longer the last round trip took than the link's own. */
  function Queue(seat: SeatState): nat {
    if seat.round.Some? && seat.leastRound.Some? then Since(seat.round.value, seat.leastRound.value) else 0
  }

  function LeastWith(least: Option<nat>, round: nat): Option<nat> {
    if least.Some? then Some(Min(least.value, round)) else Some(round)
  }

  function Measured(seat: SeatState, round: nat, now: nat): SeatState {
    var windowLeast := LeastWith(seat.windowLeast, round);
    if Since(now, seat.windowAt) >= ROUND_WINDOW
    then seat.(round := Some(round), leastRound := windowLeast, windowLeast := None, windowAt := now)
    else seat.(round := Some(round), leastRound := LeastWith(seat.leastRound, round), windowLeast := windowLeast)
  }

  // ----- Frames -----

  predicate Over(seat: SeatState) {
    seat.waiting > WAITING_MOST
  }

  function OverFrom(seat: SeatState, now: nat): nat {
    if seat.overSince.Some? then seat.overSince.value else now
  }

  /** Whether a new frame goes to the viewer. */
  predicate Takes(seat: SeatState, key: bool) {
    !Over(seat) && (key || seat.live)
  }

  predicate Hopeless(seat: SeatState, now: nat) {
    Over(seat) && Since(now, OverFrom(seat, now)) >= HOPELESS
  }

  predicate WantsKey(seat: SeatState, key: bool) {
    !Over(seat) && !key && !seat.live && seat.waiting <= WAITING_DRAINED
  }

  function Framed(seat: SeatState, id: nat, key: bool, bytes: nat, now: nat): SeatState {
    if Over(seat) then seat.(overSince := Some(OverFrom(seat, now)), live := false)
    else if !Takes(seat, key) then seat.(overSince := None)
    else seat.(
      overSince := None,
      live := true,
      waiting := seat.waiting + bytes,
      sent := seat.sent + [Sent(id, bytes, now)])
  }

  function Forgotten(seat: SeatState, id: nat): SeatState
    requires seat.Accounted()
  {
    if seat.sent != [] && seat.sent[|seat.sent| - 1].id == id then
      var last := |seat.sent| - 1;
      LastBytes(seat.sent);
      seat.(waiting := seat.waiting - seat.sent[last].bytes, sent := seat.sent[..last], live := false)
    else seat.(live := false)
  }

  // ----- Acks -----

  /** The distance from an id up to another one, across a wrap. */
  function Ahead(frame: nat, id: nat): nat {
    (frame - id) % IDS
  }

  predicate Older(sent: Sent, frame: nat) {
    Ahead(frame, sent.id) < HALF_IDS
  }

  /** How many of the first frames on their way an ack clears. */
  function Cleared(sent: seq<Sent>, frame: nat): (n: nat)
    ensures n <= |sent|
  {
    if sent == [] || !Older(sent[0], frame) then 0 else 1 + Cleared(sent[1..], frame)
  }

  /** The seat without the frames that an ack clears. */
  function Emptied(seat: SeatState, frame: nat): SeatState
    requires seat.Accounted()
  {
    var n := Cleared(seat.sent, frame);
    FirstBytes(seat.sent, n);
    seat.(sent := seat.sent[n..], waiting := seat.waiting - SumBytes(seat.sent[..n]))
  }

  function Acked(seat: SeatState, frame: nat, now: nat): SeatState
    requires seat.Accounted()
  {
    var n := Cleared(seat.sent, frame);
    if n == 0 then seat else Measured(Emptied(seat, frame), Since(now, seat.sent[n - 1].at), now)
  }

  // ----- What every handler of a seat keeps -----

  lemma FramedKeepsAccount(seat: SeatState, id: nat, key: bool, bytes: nat, now: nat)
    requires seat.Accounted()
    ensures Framed(seat, id, key, bytes, now).Accounted()
  {
    SumBytesConcat(seat.sent, [Sent(id, bytes, now)]);
  }

  lemma ForgottenKeepsAccount(seat: SeatState, id: nat)
    requires seat.Accounted()
    ensures Forgotten(seat, id).Accounted() && Forgotten(seat, id).waiting <= seat.waiting
  {
    if seat.sent != [] {
      LastBytes(seat.sent);
    }
  }

  lemma NothingCleared(seat: SeatState, frame: nat)
    requires seat.Accounted()
    ensures Cleared(seat.sent, frame) == 0 ==> Emptied(seat, frame) == seat
  {
    assert seat.sent[0..] == seat.sent;
  }

  lemma AckedKeepsAccount(seat: SeatState, frame: nat, now: nat)
    requires seat.Accounted()
    ensures Acked(seat, frame, now).Accounted() && Acked(seat, frame, now).waiting <= seat.waiting
  {
    var n := Cleared(seat.sent, frame);
    FirstBytes(seat.sent, n);
  }

  // ----- The bitrate -----

  datatype Controller = Controller(bitrate: nat, steeredAt: Option<nat>, cutAt: Option<nat>)

  predicate Long(at: Option<nat>, now: nat, wait: nat) {
    at.Some? ==> Since(now, at.value) >= wait
  }

  function Clamped(bitrate: nat): nat {
    if bitrate < LOWEST_BITRATE then LOWEST_BITRATE
    else if bitrate > HIGHEST_BITRATE then HIGHEST_BITRATE
    else bitrate
  }

  function Cut(bitrate: nat): nat {
    Clamped(bitrate / 5 * 4)
  }

  function Raised(bitrate: nat): nat {
    Clamped(Min(bitrate + bitrate / 16, IDS - 1))
  }

  predicate Congested(queue: Option<nat>) {
    queue.Some? && queue.value > QUEUE_LIMIT
  }

  predicate Calm(queue: Option<nat>) {
    queue.Some? && queue.value < QUEUE_LIMIT / 2
  }

  /** A step of the controller, given the longest queue of the viewers that get frames, if any. */
  function Steered(control: Controller, queue: Option<nat>, now: nat): Controller {
    if !Long(control.steeredAt, now, STEER_EVERY) then control
    else
      var timed := control.(steeredAt := Some(now));
      if queue.None? then timed
      else if Congested(queue) then timed.(cutAt := Some(now), bitrate := Cut(control.bitrate))
      else if Calm(queue) && Long(control.cutAt, now, RISE_AFTER) then timed.(bitrate := Raised(control.bitrate))
      else timed.(bitrate := Clamped(control.bitrate))
  }

  // ----- The whole flow -----

  datatype FlowState = FlowState(seats: map<string, SeatState>, control: Controller, keyframeAt: Option<nat>)
  {
    predicate Accounted() {
      forall viewer :: viewer in seats ==> seats[viewer].Accounted()
    }
  }

  const EMPTY_FLOW := FlowState(map[], Controller(FIRST_BITRATE, None, None), None)

  function Seated(flow: FlowState, viewer: string, now: nat): FlowState {
    flow.(seats := flow.seats[viewer := NewSeat(now)])
  }

  function Left(flow: FlowState, viewer: string): FlowState {
    flow.(seats := flow.seats - {viewer})
  }

  /** The viewers that take a new frame. */
  function Takers(seats: map<string, SeatState>, key: bool): set<string> {
    set viewer | viewer in seats && Takes(seats[viewer], key)
  }

  function Wanters(seats: map<string, SeatState>, key: bool): set<string> {
    set viewer | viewer in seats && WantsKey(seats[viewer], key)
  }

  function Goners(seats: map<string, SeatState>, now: nat): set<string> {
    set viewer | viewer in seats && Hopeless(seats[viewer], now)
  }

  predicate KeyframeAllowed(flow: FlowState, now: nat) {
    Long(flow.keyframeAt, now, KEYFRAME_FLOOR)
  }

  function KeyframeAsked(flow: FlowState, now: nat): FlowState {
    if KeyframeAllowed(flow, now) then flow.(keyframeAt := Some(now)) else flow
  }

  function Offered(seats: map<string, SeatState>, id: nat, key: bool, bytes: nat, now: nat): map<string, SeatState> {
    map viewer | viewer in seats :: Framed(seats[viewer], id, key, bytes, now)
  }

  lemma OfferedKeepsAccount(seats: map<string, SeatState>, id: nat, key: bool, bytes: nat, now: nat)
    requires forall viewer :: viewer in seats ==> seats[viewer].Accounted()
    ensures forall viewer :: viewer in seats ==> Offered(seats, id, key, bytes, now)[viewer].Accounted()
  {
    forall viewer | viewer in seats ensures Offered(seats, id, key, bytes, now)[viewer].Accounted() {
      FramedKeepsAccount(seats[viewer], id, key, bytes, now);
    }
  }

  function FlowFramed(flow: FlowState, id: nat, key: bool, bytes: nat, now: nat): FlowState {
    var framed := flow.(seats := Offered(flow.seats, id, key, bytes, now) - Goners(flow.seats, now));
    if Wanters(flow.seats, key) != {} then KeyframeAsked(framed, now) else framed
  }

  function FlowForgotten(flow: FlowState, viewer: string, id: nat): FlowState
    requires flow.Accounted()
  {
    if viewer in flow.seats then flow.(seats := flow.seats[viewer := Forgotten(flow.seats[viewer], id)]) else flow
  }

  function FlowAcked(flow: FlowState, viewer: string, frame: nat, now: nat): FlowState
    requires flow.Accounted()
  {
    if viewer in flow.seats then flow.(seats := flow.seats[viewer := Acked(flow.seats[viewer], frame, now)]) else flow
  }

  /** The queues of the viewers that get frames. */
  function LiveQueues(seats: map<string, SeatState>): set<nat> {
    set viewer | viewer in seats && seats[viewer].live :: Queue(seats[viewer])
  }

  ghost function FlowSteered(flow: FlowState, now: nat): FlowState {
    flow.(control := Steered(flow.control, Greatest(LiveQueues(flow.seats)), now))
  }
}
