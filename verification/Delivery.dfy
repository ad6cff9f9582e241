/** The three gates as the program keeps them. */
module Delivery {
  import opened FlowStates
  import opened Gates
  import opened Flows

  /** The engine's way to its host. */
  class Link {
    var broken: set<int>
    var frames: seq<EncodedFrame>

    ghost function State(): LinkState
      reads this
    {
      LinkState(broken, frames)
    }

    constructor ()
      ensures State() == LinkState({}, [])
    {
      broken, frames := {}, [];
    }

    /** Sends a picture unless the link is full, and says whether its window now needs a key frame. */
    method SendFrame(frame: EncodedFrame) returns (wantsKey: bool)
      modifies this
      ensures State() == Linked(old(State()), frame)
      ensures wantsKey == !Links(old(State()), frame)
    {
      if !frame.key && frame.window in broken {
        assert broken + {frame.window} == broken;
        return true;
      }
      if |frames| >= FRAMES_WAITING {
        broken := broken + {frame.window};
        return true;
      }
      frames := frames + [frame];
      broken := broken - {frame.window};
      wantsKey := false;
    }
  }

  /** The host's windows. */
  class Routes {
    var windows: map<int, seq<EncodedFrame>>
    var behind: set<int>

    ghost function State(): RoutesState
      reads this
    {
      RoutesState(windows, behind)
    }

    constructor ()
      ensures State() == RoutesState(map[], {})
    {
      windows, behind := map[], {};
    }

    /** Posts a frame to its window, and says whether the engine gets a command for a key frame. */
    method DeliverFrame(frame: EncodedFrame, room: bool) returns (asksKey: bool)
      modifies this
      ensures State() == Posted(old(State()), frame, room)
      ensures asksKey <==> !room && frame.window in windows && (frame.key || frame.window !in old(behind))
    {
      var window := frame.window;
      if frame.key {
        behind := behind - {window};
      } else if window in behind {
        return false;
      }
      if window !in windows {
        assert behind - {window} == behind;
        return false;
      }
      if room {
        windows := windows[window := windows[window] + [frame]];
        assert behind - {window} == behind;
        return false;
      }
      asksKey := window !in behind;
      behind := behind + {window};
    }
  }

  /** One window of the host, as far as its video goes. */
  class Live {
    const flow: Flow
    var pipes: map<string, nat>
    var nextFrame: nat

    ghost predicate Valid()
      reads this, flow, flow.seats.Values
    {
      flow.Valid()
    }

    ghost function State(): LiveState
      reads this, flow, flow.seats.Values
    {
      LiveState(flow.State(), pipes, nextFrame)
    }

    constructor ()
      ensures Valid() && State() == NEW_LIVE && fresh(flow)
    {
      flow := new Flow();
      pipes, nextFrame := map[], 0;
    }

    /** A viewer comes with a pipe. Its seat in the flow is taken when it says that it watches. */
    method Join(viewer: string, number: nat)
      requires Valid()
      modifies this`pipes
      ensures Valid() && State() == old(State()).(pipes := old(pipes)[viewer := number])
    {
      pipes := pipes[viewer := number];
    }

    method Watch(viewer: string, now: nat)
      requires Valid()
      modifies flow`seats
      ensures Valid() && State() == old(State()).(flow := Seated(old(State()).flow, viewer, now))
    {
      flow.Join(viewer, now);
    }

    /** One viewer's turn in the loop over the viewers that take a frame. */
    method SendOne(viewer: string, id: nat, rooms: set<string>, ghost before: FlowState, ghost lost: set<string>)
      requires Valid() && before.Accounted() && viewer !in lost && flow.State() == LostBy(before, lost, id)
      modifies flow.seats.Values
      ensures Valid() && flow.State() == LostBy(before, lost + ({viewer} - pipes.Keys * rooms), id)
    {
      if viewer in pipes && viewer in rooms {
        assert lost + ({viewer} - pipes.Keys * rooms) == lost;
      } else {
        assert lost + ({viewer} - pipes.Keys * rooms) == lost + {viewer};
        LostOneMore(before, lost, viewer, id);
        flow.Lost(viewer, id);
      }
    }

    /** The loop over the viewers that take a frame: one that its pipe does not reach has lost it. */
    method SendTo(to: seq<string>, id: nat, rooms: set<string>, ghost takers: set<string>)
      requires Valid() && Lists(to, takers)
      modifies flow.seats.Values
      ensures Valid() && flow.State() == LostBy(old(flow.State()), takers - pipes.Keys * rooms, id)
    {
      ghost var before := flow.State();
      LostNone(before, id);
      ghost var lost: set<string> := {};
      for i := 0 to |to|
        invariant Valid() && before.Accounted()
        invariant lost == FirstOf(to, i) - pipes.Keys * rooms
        invariant flow.State() == LostBy(before, lost, id)
      {
        FirstOfMore(to, i, pipes.Keys * rooms);
        SendOne(to[i], id, rooms, before, lost);
        lost := lost + ({to[i]} - pipes.Keys * rooms);
      }
      assert FirstOf(to, |to|) == takers;
    }

    /** Offers a frame to the flow and sends it to the viewers that take it. */
    method Send(id: nat, key: bool, size: nat, rooms: set<string>, now: nat, ghost before: FlowState)
      returns (delivery: Flows.Delivery)
      requires Valid() && before == flow.State() && before.Accounted()
      modifies flow, flow.seats.Values
      ensures Valid() && FlowFramed(before, id, key, size, now).Accounted()
      ensures flow.State() ==
        LostBy(FlowFramed(before, id, key, size, now), Takers(before.seats, key) - pipes.Keys * rooms, id)
      ensures Lists(delivery.dropped, Goners(before.seats, now))
      ensures delivery.askKeyframe == (Wanters(before.seats, key) != {} && KeyframeAllowed(before, now))
    {
      delivery := flow.Frame(id, key, size, now);
      ghost var framed := FlowFramed(before, id, key, size, now);
      assert flow.State() == framed;
      SendTo(delivery.to, id, rooms, Takers(before.seats, key));
    }

    /** Passes a frame on, and says whether the engine is asked for a key frame. */
    method Frame(key: bool, size: nat, rooms: set<string>, now: nat) returns (asksKey: bool)
      requires Valid()
      modifies this`pipes, this`nextFrame, flow, flow.seats.Values
      ensures Valid() && State() == LiveFramed(old(State()), key, size, rooms, now)
      ensures asksKey == (Wanters(old(State()).flow.seats, key) != {} && KeyframeAllowed(old(State()).flow, now))
    {
      asksKey := Pass(key, size, rooms, now, State());
    }

    method Pass(key: bool, size: nat, rooms: set<string>, now: nat, ghost before: LiveState) returns (asksKey: bool)
      requires Valid() && before == State() && before.flow.Accounted()
      modifies this`pipes, this`nextFrame, flow, flow.seats.Values
      ensures Valid() && State() == LiveFramed(before, key, size, rooms, now)
      ensures asksKey == (Wanters(before.flow.seats, key) != {} && KeyframeAllowed(before.flow, now))
    {
      nextFrame := (nextFrame + 1) % IDS;
      var delivery := Send(nextFrame, key, size, rooms, now, before.flow);
      FramedIs(before, nextFrame, key, size, rooms, now);
      Unpipe(delivery.dropped, Goners(before.flow.seats, now));
      asksKey := delivery.askKeyframe;
    }

    method Unpipe(viewers: seq<string>, ghost gone: set<string>)
      requires Lists(viewers, gone)
      modifies this`pipes
      ensures pipes == old(pipes) - gone
    {
      for i := 0 to |viewers|
        invariant pipes == old(pipes) - (set j | 0 <= j < i :: viewers[j])
      {
        pipes := pipes - {viewers[i]};
      }
      assert (set j | 0 <= j < |viewers| :: viewers[j]) == gone;
    }

    /** A pipe that goes frees only the seat that its join took. */
    method Free(viewer: string, number: nat)
      requires Valid()
      modifies this`pipes, flow`seats
      ensures Valid() && State() == Freed(old(State()), viewer, number)
    {
      if viewer in pipes && pipes[viewer] == number {
        pipes := pipes - {viewer};
        flow.Leave(viewer);
      }
    }
  }

  ghost function FirstOf(viewers: seq<string>, n: nat): set<string>
    requires n <= |viewers|
  {
    set j | 0 <= j < n :: viewers[j]
  }

  lemma FirstOfMore(viewers: seq<string>, n: nat, reached: set<string>)
    requires n < |viewers| && forall i, j :: 0 <= i < j < |viewers| ==> viewers[i] != viewers[j]
    ensures FirstOf(viewers, n + 1) - reached == FirstOf(viewers, n) - reached + ({viewers[n]} - reached)
    ensures viewers[n] !in FirstOf(viewers, n)
  {
    assert FirstOf(viewers, n + 1) == FirstOf(viewers, n) + {viewers[n]};
  }

  lemma FramedIs(live: LiveState, id: nat, key: bool, size: nat, rooms: set<string>, now: nat)
    requires live.flow.Accounted() && id == NextId(live) && FlowFramed(live.flow, id, key, size, now).Accounted()
    ensures
      var lost := Takers(live.flow.seats, key) - live.pipes.Keys * rooms;
      var sent := LostBy(FlowFramed(live.flow, id, key, size, now), lost, id);
      LiveState(sent, live.pipes - Goners(live.flow.seats, now), id) == LiveFramed(live, key, size, rooms, now)
  {
    assert Takers(live.flow.seats, key) - Reached(live, key, rooms)
      == Takers(live.flow.seats, key) - live.pipes.Keys * rooms;
  }

  lemma LostNone(flow: FlowState, id: nat)
    requires flow.Accounted()
    ensures LostBy(flow, {}, id) == flow
  {
  }

  lemma LostOneMore(flow: FlowState, lost: set<string>, viewer: string, id: nat)
    requires flow.Accounted() && viewer !in lost
    requires LostBy(flow, lost, id).Accounted()
    ensures FlowForgotten(LostBy(flow, lost, id), viewer, id) == LostBy(flow, lost + {viewer}, id)
  {
  }
}
