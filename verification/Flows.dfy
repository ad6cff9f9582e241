/** The flow of one window as the program keeps it: seats that the handlers change in place. */
module Flows {
  import opened Wrappers
  import opened FlowStates
  import opened Sizes

  class Seat {
    var live: bool
    var sent: seq<Sent>
    var waiting: nat
    var overSince: Option<nat>
    var round: Option<nat>
    var leastRound: Option<nat>
    var windowLeast: Option<nat>
    var windowAt: nat
    /** The seat as a value, and the viewer whose seat it is. */
    ghost var state: SeatState
    ghost const viewer: string

    /** The fields say what the value says, and the bytes that wait are accounted for. */
    ghost predicate Valid()
      reads this
    {
      state == SeatState(live, sent, waiting, overSince, round, leastRound, windowLeast, windowAt)
      && state.Accounted()
    }

    constructor (now: nat, ghost viewer: string)
      ensures Valid() && state == NewSeat(now) && this.viewer == viewer
    {
      this.viewer := viewer;
      live, sent, waiting, overSince := false, [], 0, None;
      round, leastRound, windowLeast, windowAt := None, None, None, now;
      state := NewSeat(now);
    }

    function QueueNow(): (queue: nat)
      requires Valid()
      reads this
      ensures queue == Queue(state)
    {
      if round.Some? && leastRound.Some? then Since(round.value, leastRound.value) else 0
    }

    method Measure(sample: nat, now: nat)
      requires Valid()
      modifies this
      ensures Valid() && state == Measured(old(state), sample, now)
    {
      round := Some(sample);
      windowLeast := Some(if windowLeast.Some? then Min(windowLeast.value, sample) else sample);
      leastRound := Some(if leastRound.Some? then Min(leastRound.value, sample) else sample);
      if Since(now, windowAt) >= ROUND_WINDOW {
        leastRound := windowLeast;
        windowLeast := None;
        windowAt := now;
      }
      state := Measured(state, sample, now);
    }

    /** The seat's turn in a new frame: whether it takes it, wants a key frame, or goes. */
    method Frame(id: nat, key: bool, bytes: nat, now: nat) returns (takes: bool, wantsKey: bool, drops: bool)
      requires Valid()
      modifies this
      ensures Valid() && state == Framed(old(state), id, key, bytes, now)
      ensures takes == Takes(old(state), key)
      ensures wantsKey == WantsKey(old(state), key)
      ensures drops == Hopeless(old(state), now)
    {
      FramedKeepsAccount(state, id, key, bytes, now);
      takes, wantsKey, drops := false, false, false;
      if waiting > WAITING_MOST {
        if overSince.None? {
          overSince := Some(now);
        }
        live := false;
        drops := Since(now, overSince.value) >= HOPELESS;
      } else {
        overSince := None;
        if !key && !live {
          wantsKey := waiting <= WAITING_DRAINED;
        } else {
          live := true;
          waiting := waiting + bytes;
          sent := sent + [Sent(id, bytes, now)];
          takes := true;
        }
      }
      state := Framed(state, id, key, bytes, now);
    }

    method Lost(id: nat)
      requires Valid()
      modifies this
      ensures Valid() && state == Forgotten(old(state), id)
    {
      ForgottenKeepsAccount(state, id);
      if sent != [] && sent[|sent| - 1].id == id {
        LastBytes(sent);
        var last := sent[|sent| - 1];
        sent := sent[..|sent| - 1];
        waiting := waiting - last.bytes;
      }
      live := false;
      state := Forgotten(state, id);
    }

    /** Clears the frames that an ack is not older than, and says when the last one of them went out. */
    method Clear(frame: nat) returns (newest: Option<nat>)
      requires Valid()
      modifies this
      ensures Valid() && state == Emptied(old(state), frame)
      ensures
        var n := Cleared(old(sent), frame);
        newest == if n == 0 then None else Some(old(sent)[n - 1].at)
    {
      ghost var before, n := state, 0;
      newest := None;
      while sent != [] && Ahead(frame, sent[0].id) < HALF_IDS
        invariant n <= |before.sent| && sent == before.sent[n..]
        invariant n + Cleared(sent, frame) == Cleared(before.sent, frame)
        invariant newest == if n == 0 then None else Some(before.sent[n - 1].at)
        invariant waiting == SumBytes(sent) && state == before
        invariant SeatState(live, sent, waiting, overSince, round, leastRound, windowLeast, windowAt)
          == before.(sent := sent, waiting := waiting)
        decreases |sent|
      {
        assert before.sent[n..][1..] == before.sent[n + 1..];
        waiting := waiting - sent[0].bytes;
        newest := Some(sent[0].at);
        sent := sent[1..];
        n := n + 1;
      }
      FirstBytes(before.sent, n);
      state := state.(sent := sent, waiting := waiting);
    }

    method Ack(frame: nat, now: nat)
      requires Valid()
      modifies this
      ensures Valid() && state == Acked(old(state), frame, now)
    {
      NothingCleared(state, frame);
      var newest := Clear(frame);
      if newest.Some? {
        Measure(Since(now, newest.value), now);
      }
    }
  }

  /** What to do with one new frame. */
  datatype Delivery = Delivery(to: seq<string>, askKeyframe: bool, dropped: seq<string>)

  /** The list holds each viewer of the set once. */
  ghost predicate Lists(list: seq<string>, viewers: set<string>) {
    (forall viewer :: viewer in list <==> viewer in viewers)
    && forall i, j :: 0 <= i < j < |list| ==> list[i] != list[j]
  }

  class Flow {
    var seats: map<string, Seat>
    var bitrate: nat
    var steeredAt: Option<nat>
    var cutAt: Option<nat>
    var keyframeAt: Option<nat>

    /** Each viewer has a seat of its own. */
    ghost predicate Valid()
      reads this, seats.Values
    {
      forall viewer :: viewer in seats ==> seats[viewer].Valid() && seats[viewer].viewer == viewer
    }

    ghost function SeatStates(): map<string, SeatState>
      reads this, seats.Values
    {
      map viewer | viewer in seats :: seats[viewer].state
    }

    ghost function State(): FlowState
      reads this, seats.Values
    {
      FlowState(SeatStates(), Controller(bitrate, steeredAt, cutAt), keyframeAt)
    }

    constructor ()
      ensures Valid() && State() == EMPTY_FLOW && seats == map[]
    {
      seats, bitrate := map[], FIRST_BITRATE;
      steeredAt, cutAt, keyframeAt := None, None, None;
    }

    method Join(viewer: string, now: nat)
      requires Valid()
      modifies this`seats
      ensures Valid() && State() == Seated(old(State()), viewer, now)
      ensures fresh(seats.Values - old(seats.Values))
    {
      var seat := new Seat(now, viewer);
      seats := seats[viewer := seat];
      assert SeatStates() == old(SeatStates())[viewer := NewSeat(now)];
    }

    method Leave(viewer: string)
      requires Valid()
      modifies this`seats
      ensures Valid() && State() == Left(old(State()), viewer)
      ensures seats.Values <= old(seats.Values)
    {
      seats := seats - {viewer};
      assert SeatStates() == old(SeatStates()) - {viewer};
    }

    method AskKeyframe(now: nat) returns (allowed: bool)
      requires Valid()
      modifies this`keyframeAt
      ensures Valid() && State() == KeyframeAsked(old(State()), now)
      ensures allowed == KeyframeAllowed(old(State()), now)
    {
      allowed := keyframeAt.None? || Since(now, keyframeAt.value) >= KEYFRAME_FLOOR;
      if allowed {
        keyframeAt := Some(now);
      }
    }

    method Lost(viewer: string, id: nat)
      requires Valid()
      modifies seats.Values
      ensures Valid() && State() == FlowForgotten(old(State()), viewer, id)
    {
      if viewer in seats {
        seats[viewer].Lost(id);
        assert SeatStates() == old(SeatStates())[viewer := seats[viewer].state];
      }
    }

    method Ack(viewer: string, frame: nat, now: nat)
      requires Valid()
      modifies seats.Values
      ensures Valid() && State() == FlowAcked(old(State()), viewer, frame, now)
    {
      if viewer in seats {
        seats[viewer].Ack(frame, now);
        assert SeatStates() == old(SeatStates())[viewer := seats[viewer].state];
      }
    }

    ghost predicate HalfDone(before: map<string, SeatState>, after: map<string, SeatState>, todo: set<string>)
      requires seats.Keys <= before.Keys && seats.Keys <= after.Keys
      reads this, seats.Values
    {
      forall viewer :: viewer in seats ==>
        seats[viewer].state == (if viewer in todo then before[viewer] else after[viewer])
    }

    /** One viewer's turn in the loop over the seats. */
    method TakeTurn(
      viewer: string, id: nat, key: bool, bytes: nat, now: nat,
      ghost before: map<string, SeatState>, ghost after: map<string, SeatState>, ghost todo: set<string>)
      returns (takes: bool, wantsKey: bool, drops: bool)
      requires Valid() && seats.Keys == before.Keys == after.Keys && viewer in todo && todo <= seats.Keys
      requires after[viewer] == Framed(before[viewer], id, key, bytes, now)
      requires HalfDone(before, after, todo)
      modifies seats[viewer]
      ensures Valid() && HalfDone(before, after, todo - {viewer})
      ensures takes == Takes(before[viewer], key)
      ensures wantsKey == WantsKey(before[viewer], key)
      ensures drops == Hopeless(before[viewer], now)
    {
      takes, wantsKey, drops := seats[viewer].Frame(id, key, bytes, now);
    }

    /** One viewer's turn, and what it adds to the delivery. */
    method OfferTo(
      viewer: string, id: nat, key: bool, bytes: nat, now: nat, sofar: Delivery,
      ghost before: map<string, SeatState>, ghost after: map<string, SeatState>, ghost todo: set<string>)
      returns (delivery: Delivery)
      requires Valid() && seats.Keys == before.Keys == after.Keys && viewer in todo && todo <= seats.Keys
      requires after[viewer] == Framed(before[viewer], id, key, bytes, now)
      requires HalfDone(before, after, todo) && Noted(sofar, before, todo, key, now)
      modifies seats[viewer]
      ensures Valid() && HalfDone(before, after, todo - {viewer})
      ensures Noted(delivery, before, todo - {viewer}, key, now)
    {
      var takes, wants, drops := TakeTurn(viewer, id, key, bytes, now, before, after, todo);
      NotedTurn(sofar, before, todo, key, now, viewer);
      delivery := Delivery(
        sofar.to + if takes then [viewer] else [],
        sofar.askKeyframe || wants,
        sofar.dropped + if drops then [viewer] else []);
    }

    /** The loop over the seats: each takes its turn, in any order. */
    method OfferEach(id: nat, key: bool, bytes: nat, now: nat, ghost before: map<string, SeatState>, ghost after: map<string, SeatState>)
      returns (delivery: Delivery)
      requires Valid() && seats.Keys == before.Keys == after.Keys && HalfDone(before, after, seats.Keys)
      requires forall viewer :: viewer in before ==> after[viewer] == Framed(before[viewer], id, key, bytes, now)
      modifies seats.Values
      ensures Valid() && HalfDone(before, after, {})
      ensures Noted(delivery, before, {}, key, now)
    {
      var todo := seats.Keys;
      NothingNoted(before, key, now);
      delivery := Delivery([], false, []);
      while todo != {}
        invariant Valid() && todo <= seats.Keys
        invariant HalfDone(before, after, todo)
        invariant Noted(delivery, before, todo, key, now)
        decreases todo
      {
        var viewer :| viewer in todo;
        delivery := OfferTo(viewer, id, key, bytes, now, delivery, before, after, todo);
        todo := todo - {viewer};
      }
    }

    method Offer(id: nat, key: bool, bytes: nat, now: nat) returns (delivery: Delivery)
      requires Valid()
      modifies seats.Values
      ensures Valid() && SeatStates() == Offered(old(SeatStates()), id, key, bytes, now)
      ensures Noted(delivery, old(SeatStates()), {}, key, now)
    {
      ghost var before := SeatStates();
      ghost var after := Offered(before, id, key, bytes, now);
      delivery := OfferEach(id, key, bytes, now, before, after);
      assert SeatStates() == after;
    }

    method RemoveEach(viewers: seq<string>)
      modifies this`seats
      ensures seats == old(seats) - (set viewer | viewer in viewers)
    {
      for i := 0 to |viewers|
        invariant seats == old(seats) - (set j | 0 <= j < i :: viewers[j])
      {
        seats := seats - {viewers[i]};
      }
    }

    method Remove(viewers: seq<string>, ghost gone: set<string>)
      requires Valid() && Lists(viewers, gone)
      modifies this`seats
      ensures Valid() && seats.Values <= old(seats.Values)
      ensures SeatStates() == old(SeatStates()) - gone
    {
      RemoveEach(viewers);
      assert (set viewer | viewer in viewers) == gone;
      assert forall viewer :: viewer in seats ==> viewer in old(seats) && seats[viewer] == old(seats)[viewer];
    }

    method Frame(id: nat, key: bool, bytes: nat, now: nat) returns (delivery: Delivery)
      requires Valid()
      modifies this`seats, this`keyframeAt, seats.Values
      ensures Valid() && State() == FlowFramed(old(State()), id, key, bytes, now)
      ensures Lists(delivery.to, Takers(old(SeatStates()), key))
      ensures Lists(delivery.dropped, Goners(old(SeatStates()), now))
      ensures delivery.askKeyframe == old(Wanters(SeatStates(), key) != {} && KeyframeAllowed(State(), now))
      ensures seats.Values <= old(seats.Values)
    {
      ghost var before := SeatStates();
      delivery := Offer(id, key, bytes, now);
      NotedAll(delivery, before, key, now);
      Remove(delivery.dropped, Goners(before, now));
      if delivery.askKeyframe {
        var allowed := AskKeyframe(now);
        delivery := delivery.(askKeyframe := allowed);
      }
    }

    method LongestLive() returns (queue: Option<nat>)
      requires Valid()
      ensures queue == Greatest(LiveQueues(SeatStates()))
    {
      ghost var states := SeatStates();
      ghost var queues: set<nat> := {};
      var todo := seats.Keys;
      queue := None;
      while todo != {}
        invariant todo <= seats.Keys
        invariant IsGreatest(queue, queues)
        invariant forall viewer :: viewer in states && viewer !in todo && states[viewer].live ==> Queue(states[viewer]) in queues
        invariant queues <= LiveQueues(states)
        decreases todo
      {
        var viewer :| viewer in todo;
        var seat := seats[viewer];
        todo := todo - {viewer};
        if seat.live {
          var own := seat.QueueNow();
          GreatestWith(queue, queues, own);
          queue := Greater(queue, own);
          queues := queues + {own};
        }
      }
      assert queues == LiveQueues(states);
    }

    /** The new bitrate for the encoder, when it must change. */
    method Steer(now: nat) returns (changed: Option<nat>)
      requires Valid()
      modifies this`bitrate, this`steeredAt, this`cutAt
      ensures Valid() && State() == FlowSteered(old(State()), now)
      ensures changed == if bitrate != old(bitrate) then Some(bitrate) else None
    {
      ghost var states := SeatStates();
      var queue := LongestLive();
      changed := SteerBy(queue, now);
      assert SeatStates() == states;
    }

    method SteerBy(queue: Option<nat>, now: nat) returns (changed: Option<nat>)
      modifies this`bitrate, this`steeredAt, this`cutAt
      ensures Controller(bitrate, steeredAt, cutAt) == Steered(old(Controller(bitrate, steeredAt, cutAt)), queue, now)
      ensures changed == if bitrate != old(bitrate) then Some(bitrate) else None
    {
      if steeredAt.Some? && Since(now, steeredAt.value) < STEER_EVERY {
        return None;
      }
      steeredAt := Some(now);
      if queue.None? {
        return None;
      }
      var steered := bitrate;
      if queue.value > QUEUE_LIMIT {
        cutAt := Some(now);
        steered := bitrate / 5 * 4;
      } else if queue.value < QUEUE_LIMIT / 2 && (cutAt.None? || Since(now, cutAt.value) >= RISE_AFTER) {
        steered := Min(bitrate + bitrate / 16, IDS - 1);
      }
      steered := Clamped(steered);
      if steered != bitrate {
        bitrate := steered;
        changed := Some(steered);
      } else {
        changed := None;
      }
    }
  }

  /** What the loop over the seats found out about the viewers that had their turn. */
  ghost predicate Noted(delivery: Delivery, before: map<string, SeatState>, todo: set<string>, key: bool, now: nat) {
    Lists(delivery.to, Takers(before, key) - todo)
    && delivery.askKeyframe == (Wanters(before, key) - todo != {})
    && Lists(delivery.dropped, Goners(before, now) - todo)
  }

  lemma NothingNoted(before: map<string, SeatState>, key: bool, now: nat)
    ensures Noted(Delivery([], false, []), before, before.Keys, key, now)
  {
    assert Takers(before, key) - before.Keys == {};
    assert Wanters(before, key) - before.Keys == {};
    assert Goners(before, now) - before.Keys == {};
  }

  lemma NotedAll(delivery: Delivery, before: map<string, SeatState>, key: bool, now: nat)
    requires Noted(delivery, before, {}, key, now)
    ensures Lists(delivery.to, Takers(before, key)) && Lists(delivery.dropped, Goners(before, now))
    ensures delivery.askKeyframe == (Wanters(before, key) != {})
  {
    assert Wanters(before, key) - {} == Wanters(before, key);
  }

  lemma NotedTurn(delivery: Delivery, before: map<string, SeatState>, todo: set<string>, key: bool, now: nat, viewer: string)
    requires Noted(delivery, before, todo, key, now) && viewer in todo && viewer in before
    ensures
      var more := Delivery(
        delivery.to + (if Takes(before[viewer], key) then [viewer] else []),
        delivery.askKeyframe || WantsKey(before[viewer], key),
        delivery.dropped + (if Hopeless(before[viewer], now) then [viewer] else []));
      Noted(more, before, todo - {viewer}, key, now)
  {
    ListsTurn(delivery.to, Takers(before, key), todo, viewer);
    ListsTurn(delivery.dropped, Goners(before, now), todo, viewer);
    AnyTurn(Wanters(before, key), todo, viewer);
  }

  /** A viewer had its turn, and joins the list of its kind if it is one. */
  lemma ListsTurn(list: seq<string>, kind: set<string>, todo: set<string>, viewer: string)
    requires Lists(list, kind - todo) && viewer in todo
    ensures Lists(list + (if viewer in kind then [viewer] else []), kind - (todo - {viewer}))
  {
    assert list + [] == list;
  }

  lemma AnyTurn(kind: set<string>, todo: set<string>, viewer: string)
    requires viewer in todo
    ensures kind - (todo - {viewer}) != {} <==> kind - todo != {} || viewer in kind
  {
    assert kind - (todo - {viewer}) == kind - todo + (kind * {viewer});
  }
}
