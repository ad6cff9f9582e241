/**
 What each gate lets through, and not only what it stops: a picture that finds room passes exactly
 when it is a key frame, or when the one that its encoder made right before it passed too.
 */
module GateRuns {
  import opened FlowStates
  import opened Gates
  import opened DeliveryRuns
  import FlowRuns

  /** The picture that the same encoder made right before it is there. */
  predicate HasPredecessor(frames: seq<EncodedFrame>, frame: EncodedFrame) {
    exists one :: one in frames && one.encoder == frame.encoder && one.serial + 1 == frame.serial
  }

  function Last(frames: seq<EncodedFrame>): EncodedFrame
    requires frames != []
  {
    frames[|frames| - 1]
  }

  // ----- The last picture -----

  lemma NewIsNotThere(came: seq<EncodedFrame>, left: seq<EncodedFrame>, frame: EncodedFrame)
    requires Ordered(came + [frame]) && Within(left, came)
    ensures frame !in left && !SameLast(came + [frame], left)
  {
    forall one | one in left ensures one != frame {
      assert one in came;
      var i :| 0 <= i < |came| && came[i] == one;
      assert Before((came + [frame])[i], (came + [frame])[|came|]);
    }
  }

  lemma LastIsThere(came: seq<EncodedFrame>, left: seq<EncodedFrame>)
    requires came != [] && Ordered(came) && Ordered(left) && Within(left, came)
    ensures SameLast(came, left) <==> Last(came) in left
  {
    if Last(came) in left {
      var i :| 0 <= i < |left| && left[i] == Last(came);
      assert Last(left) in left && Last(left) in came;
      var j :| 0 <= j < |came| && came[j] == Last(left);
      assert i == |left| - 1 || Before(left[i], Last(left));
      assert j == |came| - 1 || Before(came[j], Last(came));
    }
  }

  /** Right before a delta comes the picture that its encoder made right before it. */
  lemma PredecessorIsLast(came: seq<EncodedFrame>, left: seq<EncodedFrame>, frame: EncodedFrame)
    requires Chained(came + [frame]) && Ordered(came + [frame]) && Within(left, came) && !frame.key
    ensures came != [] && (HasPredecessor(left, frame) <==> Last(came) in left)
  {
    var more := came + [frame];
    assert more[0].key && more[|came|] == frame;
    assert Follows(more[|came| - 1], more[|came|]);
    if HasPredecessor(left, frame) {
      var one :| one in left && one.encoder == frame.encoder && one.serial + 1 == frame.serial;
      var i :| 0 <= i < |came| && came[i] == one;
      assert i == |came| - 1 || Before(more[i], more[|came| - 1]);
    }
  }

  /** An open gate lets out what came, and a closed one did not let out the last that came. */
  predicate OpenExactly(came: seq<EncodedFrame>, left: seq<EncodedFrame>, open: bool) {
    came != [] && SameLast(came, left) ==> open
  }

  lemma OpenMeansPredecessor(came: seq<EncodedFrame>, left: seq<EncodedFrame>, open: bool, frame: EncodedFrame)
    requires Passed(came, left, open) && OpenExactly(came, left, open)
    requires Chained(came + [frame]) && Ordered(came + [frame]) && !frame.key
    ensures open <==> HasPredecessor(left, frame)
  {
    PredecessorIsLast(came, left, frame);
    assert came == (came + [frame])[..|came|];
    ChainedFirst(came + [frame], |came|);
    LastIsThere(came, left);
  }

  // ----- The link -----

  predicate LinkExact(system: System, trace: Trace, window: int) {
    OpenExactly(trace.made, trace.linked, window !in system.link.broken)
  }

  lemma OtherEventsKeepLink(system: System, trace: Trace, step: Step, window: int, viewer: string)
    requires system.Sound() && !step.event.Encode?
    ensures
      var next := Traced(system, trace, step, window, viewer);
      Next(system, step).link.broken == system.link.broken && next.made == trace.made && next.linked == trace.linked
  {
  }

  lemma EncodeKeepsExact(system: System, trace: Trace, key: bool, size: nat, now: nat, window: int, viewer: string)
    requires Started(system, trace, window, viewer) && window in system.encoders && LinkExact(system, trace, window)
    ensures
      var step := Step(Encode(window, key, size), now);
      LinkExact(Next(system, step), Traced(system, trace, step, window, viewer), window)
  {
    var frame := NewFrame(system.encoders[window], window, key, size);
    EncodeKeepsMade(system, trace.made, window, key, size);
    NewIsNotThere(trace.made, trace.linked, frame);
    assert trace.linked + [] == trace.linked;
  }

  lemma {:induction false} LinksAreExact(run: seq<Step>, window: int, viewer: string)
    ensures LinkExact(After(run), TraceOf(run, window, viewer), window)
  {
    if run == [] {
    } else {
      var earlier, step := run[..|run| - 1], run[|run| - 1];
      var system, trace := After(earlier), TraceOf(earlier, window, viewer);
      LinksAreExact(earlier, window, viewer);
      RunsKeep(earlier, window, viewer);
      if step.event.Encode? {
        if step.event.window == window && window in system.encoders {
          EncodeKeepsExact(system, trace, step.event.key, step.event.size, step.now, window, viewer);
        }
      } else {
        OtherEventsKeepLink(system, trace, step, window, viewer);
      }
    }
  }

  /** The link takes a picture exactly when less than four wait, and it is a key frame or its predecessor was taken. */
  lemma LinkTakesExactly(run: seq<Step>, window: int, viewer: string, key: bool, size: nat, now: nat)
    requires window in After(run).encoders
    ensures
      var before, after := After(run), After(run + [Step(Encode(window, key, size), now)]);
      var frame := NewFrame(before.encoders[window], window, key, size);
      var takes := |before.link.frames| < 4 && (frame.key || HasPredecessor(TraceOf(run, window, viewer).linked, frame));
      after.link.frames == before.link.frames + When(takes, frame)
  {
    var system, trace := After(run), TraceOf(run, window, viewer);
    var frame := NewFrame(system.encoders[window], window, key, size);
    RunsKeep(run, window, viewer);
    LinksAreExact(run, window, viewer);
    EncodeKeepsMade(system, trace.made, window, key, size);
    assert (run + [Step(Encode(window, key, size), now)])[..|run|] == run;
    assert system.link.frames + [] == system.link.frames;
    if !frame.key {
      OpenMeansPredecessor(trace.made, trace.linked, window !in system.link.broken, frame);
    }
  }

  // ----- The host -----

  predicate HostExact(system: System, trace: Trace, window: int) {
    window in system.routes.windows ==> OpenExactly(trace.arrived, trace.posted, window !in system.routes.behind)
  }

  lemma OtherEventsKeepHost(system: System, trace: Trace, step: Step, window: int, viewer: string)
    requires Started(system, trace, window, viewer) && HostExact(system, trace, window) && !step.event.Deliver?
    ensures HostExact(Next(system, step), Traced(system, trace, step, window, viewer), window)
  {
  }

  lemma DeliverOwnKeepsExact(system: System, trace: Trace, room: bool, now: nat, window: int, viewer: string)
    requires Started(system, trace, window, viewer) && HostExact(system, trace, window)
    requires system.carried != [] && system.carried[0].window == window
    ensures
      var step := Step(Deliver(room), now);
      HostExact(Next(system, step), Traced(system, trace, step, window, viewer), window)
  {
    var frame := system.carried[0];
    DeliverKeepsLink(system.link, system.carried, trace, window);
    ArrivesChained(system, trace, frame, window);
    if window in system.routes.windows {
      NewIsNotThere(trace.arrived, trace.posted, frame);
    }
    assert trace.posted + [] == trace.posted;
  }

  lemma DeliverKeepsExact(system: System, trace: Trace, room: bool, now: nat, window: int, viewer: string)
    requires Started(system, trace, window, viewer) && HostExact(system, trace, window)
    ensures
      var step := Step(Deliver(room), now);
      HostExact(Next(system, step), Traced(system, trace, step, window, viewer), window)
  {
    if system.carried != [] && system.carried[0].window == window {
      DeliverOwnKeepsExact(system, trace, room, now, window, viewer);
    }
  }

  lemma {:induction false} HostsAreExact(run: seq<Step>, window: int, viewer: string)
    ensures HostExact(After(run), TraceOf(run, window, viewer), window)
  {
    if run == [] {
    } else {
      var earlier, step := run[..|run| - 1], run[|run| - 1];
      var system, trace := After(earlier), TraceOf(earlier, window, viewer);
      HostsAreExact(earlier, window, viewer);
      RunsKeep(earlier, window, viewer);
      if step.event.Deliver? {
        DeliverKeepsExact(system, trace, step.event.room, step.now, window, viewer);
      } else {
        OtherEventsKeepHost(system, trace, step, window, viewer);
      }
    }
  }

  lemma DeliveredIs(run: seq<Step>, room: bool, now: nat)
    ensures After(run + [Step(Deliver(room), now)]) == Delivered(After(run), room)
  {
    assert (run + [Step(Deliver(room), now)])[..|run|] == run;
  }

  lemma PostedIs(system: System, room: bool)
    requires system.carried != [] && system.carried[0].window in system.routes.windows
    ensures
      var frame := system.carried[0];
      Inbox(Delivered(system, room), frame.window) == Inbox(system, frame.window)
        + When(room && (frame.key || frame.window !in system.routes.behind), frame)
  {
    var inbox := Inbox(system, system.carried[0].window);
    assert inbox + [] == inbox;
  }

  lemma HostKnowsPredecessor(run: seq<Step>, viewer: string)
    requires After(run).carried != [] && After(run).carried[0].window in After(run).routes.windows
    ensures
      var frame, routes := After(run).carried[0], After(run).routes;
      frame.key
      || (frame.window !in routes.behind <==> HasPredecessor(TraceOf(run, frame.window, viewer).posted, frame))
  {
    var system := After(run);
    var frame := system.carried[0];
    var trace := TraceOf(run, frame.window, viewer);
    RunsKeep(run, frame.window, viewer);
    HostsAreExact(run, frame.window, viewer);
    ArrivesChained(system, trace, frame, frame.window);
    if !frame.key {
      OpenMeansPredecessor(trace.arrived, trace.posted, frame.window !in system.routes.behind, frame);
    }
  }

  /**
   The host queues a picture of an open window exactly when there is room, and it is a key frame or its
   predecessor was queued.
   */
  lemma HostPostsExactly(run: seq<Step>, viewer: string, room: bool, now: nat)
    requires After(run).carried != [] && After(run).carried[0].window in After(run).routes.windows
    ensures
      var before, after := After(run), After(run + [Step(Deliver(room), now)]);
      var frame := before.carried[0];
      var posts := room && (frame.key || HasPredecessor(TraceOf(run, frame.window, viewer).posted, frame));
      Inbox(after, frame.window) == Inbox(before, frame.window) + When(posts, frame)
  {
    DeliveredIs(run, room, now);
    PostedIs(After(run), room);
    HostKnowsPredecessor(run, viewer);
  }

  // ----- The seat -----

  predicate SeatExact(lives: map<int, LiveState>, trace: Trace, window: int, viewer: string) {
    window in lives && viewer in lives[window].flow.seats ==>
      OpenExactly(trace.seen, trace.got, lives[window].flow.seats[viewer].live)
  }

  lemma ReachedIsLive(live: LiveState, frame: EncodedFrame, rooms: set<string>, now: nat, viewer: string)
    requires live.flow.Accounted() && viewer in Reached(live, frame.key, rooms)
    ensures viewer in LiveHandled(live, frame, rooms, now).flow.seats ==> IsLive(LiveHandled(live, frame, rooms, now), viewer)
  {
  }

  /** A viewer that keeps its seat and its pictures keeps what it says of them. */
  predicate SeatStays(lives: map<int, LiveState>, next: map<int, LiveState>, window: int, viewer: string) {
    window in next && viewer in next[window].flow.seats ==>
      window in lives && viewer in lives[window].flow.seats
      && next[window].flow.seats[viewer].live == lives[window].flow.seats[viewer].live
  }

  lemma FlowStepKeepsSeat(system: System, of: int, step: FlowRuns.Step, window: int, viewer: string)
    requires system.Sound() && !step.event.NewFrame? && !step.event.Lost?
    requires of == window ==> step.event != FlowRuns.Join(viewer)
    ensures SeatStays(system.lives, WithFlow(system, of, step).lives, window, viewer)
  {
    if of in system.lives {
      FlowRuns.SeatsAreApart(system.lives[of].flow, viewer, step);
    }
  }

  lemma FlowEventKeepsExact(system: System, trace: Trace, step: Step, window: int, viewer: string)
    requires system.Sound() && SeatExact(system.lives, trace, window, viewer)
    requires step.event.Watch? || step.event.Ack? || step.event.AskKeyframe? || step.event.Steer?
    ensures SeatExact(Next(system, step).lives, Traced(system, trace, step, window, viewer), window, viewer)
  {
    var of, live := step.event.window, FlowStepOf(step);
    assert Next(system, step) == WithFlow(system, of, live);
    if of != window || live.event != FlowRuns.Join(viewer) {
      FlowStepKeepsSeat(system, of, live, window, viewer);
    }
  }

  lemma PipeEventKeepsExact(system: System, trace: Trace, step: Step, window: int, viewer: string)
    requires system.Sound() && SeatExact(system.lives, trace, window, viewer) && (step.event.Join? || step.event.Leave?)
    ensures SeatExact(Next(system, step).lives, Traced(system, trace, step, window, viewer), window, viewer)
  {
    assert SeatStays(system.lives, Next(system, step).lives, window, viewer);
  }

  lemma OtherEventsKeepSeat(system: System, trace: Trace, step: Step, window: int, viewer: string)
    requires Started(system, trace, window, viewer) && SeatExact(system.lives, trace, window, viewer)
    requires step.event.OpenWindow? || step.event.CloseWindow? || step.event.StartEncoder?
      || step.event.Encode? || step.event.Carry? || step.event.Deliver?
    ensures SeatExact(Next(system, step).lives, Traced(system, trace, step, window, viewer), window, viewer)
  {
  }

  lemma HandleOwnKeepsExact(system: System, trace: Trace, rooms: set<string>, now: nat, window: int, viewer: string)
    requires Started(system, trace, window, viewer) && Inbox(system, window) != []
    ensures
      var step := Step(Handle(window, rooms), now);
      SeatExact(Next(system, step).lives, Traced(system, trace, step, window, viewer), window, viewer)
  {
    var inbox, live := Inbox(system, window), system.lives[window];
    SeenChained(inbox, trace);
    if viewer in Reached(live, inbox[0].key, rooms) {
      ReachedIsLive(live, inbox[0], rooms, now, viewer);
    } else {
      NewIsNotThere(trace.seen, trace.got, inbox[0]);
      assert trace.got + [] == trace.got;
    }
  }

  lemma HandleKeepsExact(
    system: System, trace: Trace, of: int, rooms: set<string>, now: nat, window: int, viewer: string)
    requires Started(system, trace, window, viewer) && SeatExact(system.lives, trace, window, viewer)
    ensures
      var step := Step(Handle(of, rooms), now);
      SeatExact(Next(system, step).lives, Traced(system, trace, step, window, viewer), window, viewer)
  {
    if of == window && Inbox(system, window) != [] {
      HandleOwnKeepsExact(system, trace, rooms, now, window, viewer);
    }
  }

  lemma {:induction false} SeatsAreExact(run: seq<Step>, window: int, viewer: string)
    ensures SeatExact(After(run).lives, TraceOf(run, window, viewer), window, viewer)
  {
    if run == [] {
    } else {
      var earlier, step := run[..|run| - 1], run[|run| - 1];
      var system, trace := After(earlier), TraceOf(earlier, window, viewer);
      SeatsAreExact(earlier, window, viewer);
      RunsKeep(earlier, window, viewer);
      var event := step.event;
      if event.Handle? {
        HandleKeepsExact(system, trace, event.window, event.rooms, step.now, window, viewer);
      } else if event.Watch? || event.Ack? || event.AskKeyframe? || event.Steer? {
        FlowEventKeepsExact(system, trace, step, window, viewer);
      } else if event.Join? || event.Leave? {
        PipeEventKeepsExact(system, trace, step, window, viewer);
      } else {
        OtherEventsKeepSeat(system, trace, step, window, viewer);
      }
    }
  }

  /** A viewer that has a seat and a pipe with room, and not more than the limit on its way to it. */
  predicate CanTake(live: LiveState, rooms: set<string>, viewer: string) {
    viewer in live.flow.seats && viewer in live.pipes && viewer in rooms
    && SumBytes(live.flow.seats[viewer].sent) <= 2 * 1024 * 1024
  }

  lemma ReachedExactly(live: LiveState, key: bool, rooms: set<string>, viewer: string)
    requires live.flow.Accounted()
    ensures viewer in Reached(live, key, rooms)
      <==> CanTake(live, rooms, viewer) && (key || live.flow.seats[viewer].live)
  {
  }

  /** What the turn of a window's next picture makes of the window and of what the viewer got. */
  lemma HandledIs(run: seq<Step>, window: int, viewer: string, rooms: set<string>, now: nat)
    requires Inbox(After(run), window) != []
    ensures
      var system, more := After(run), run + [Step(Handle(window, rooms), now)];
      var frame, live := Inbox(system, window)[0], system.lives[window];
      window in After(more).lives && After(more).lives[window] == LiveHandled(live, frame, rooms, now)
      && TraceOf(more, window, viewer).got
        == TraceOf(run, window, viewer).got + When(viewer in Reached(live, frame.key, rooms), frame)
  {
    assert (run + [Step(Handle(window, rooms), now)])[..|run|] == run;
  }

  lemma SeatKnowsPredecessor(run: seq<Step>, window: int, viewer: string)
    requires Inbox(After(run), window) != [] && viewer in After(run).lives[window].flow.seats
    ensures
      var frame, seat := Inbox(After(run), window)[0], After(run).lives[window].flow.seats[viewer];
      frame.key || (seat.live <==> HasPredecessor(TraceOf(run, window, viewer).got, frame))
  {
    var system, trace := After(run), TraceOf(run, window, viewer);
    var inbox := Inbox(system, window);
    RunsKeep(run, window, viewer);
    SeatsAreExact(run, window, viewer);
    SeenChained(inbox, trace);
    if !inbox[0].key {
      OpenMeansPredecessor(trace.seen, trace.got, system.lives[window].flow.seats[viewer].live, inbox[0]);
    }
  }

  /**
   The next picture of a window goes to a viewer exactly when the viewer can take it, and it is a key
   frame or the viewer got its predecessor.
   */
  lemma ViewerGetsExactly(run: seq<Step>, window: int, viewer: string, rooms: set<string>, now: nat)
    requires Inbox(After(run), window) != []
    ensures
      var system, trace := After(run), TraceOf(run, window, viewer);
      var frame := Inbox(system, window)[0];
      var goes := CanTake(system.lives[window], rooms, viewer) && (frame.key || HasPredecessor(trace.got, frame));
      TraceOf(run + [Step(Handle(window, rooms), now)], window, viewer).got == trace.got + When(goes, frame)
  {
    var system := After(run);
    HandledIs(run, window, viewer, rooms, now);
    ReachedExactly(system.lives[window], Inbox(system, window)[0].key, rooms, viewer);
    if viewer in system.lives[window].flow.seats {
      SeatKnowsPredecessor(run, window, viewer);
    }
  }

  lemma HandledSent(live: LiveState, frame: EncodedFrame, rooms: set<string>, now: nat, viewer: string)
    requires live.flow.Accounted() && viewer in live.flow.seats
    requires viewer in LiveHandled(live, frame, rooms, now).flow.seats
    ensures
      var before, after := live.flow.seats[viewer].sent, LiveHandled(live, frame, rooms, now).flow.seats[viewer].sent;
      after == if viewer in Reached(live, frame.key, rooms) then before + [Sent(NextId(live), frame.size, now)] else before
  {
    var sent := live.flow.seats[viewer].sent;
    assert (sent + [Sent(NextId(live), frame.size, now)])[..|sent|] == sent;
    assert Over(live.flow.seats[viewer]) ==> viewer !in Takers(live.flow.seats, frame.key);
  }

  /** A picture counts as on its way to a viewer that keeps its seat exactly when it goes, under the next id. */
  predicate CountsExactly(
    before: LiveState, after: LiveState, got: seq<EncodedFrame>, more: seq<EncodedFrame>, size: nat, now: nat,
    viewer: string)
  {
    viewer in before.flow.seats && viewer in after.flow.seats ==>
      after.flow.seats[viewer].sent == before.flow.seats[viewer].sent
        + if |more| > |got| then [Sent((before.nextFrame + 1) % 0x1_0000_0000, size, now)] else []
  }

  lemma OnItsWayIsGot(run: seq<Step>, window: int, viewer: string, rooms: set<string>, now: nat)
    requires Inbox(After(run), window) != []
    ensures
      var more := run + [Step(Handle(window, rooms), now)];
      window in After(more).lives
      && CountsExactly(
        After(run).lives[window], After(more).lives[window],
        TraceOf(run, window, viewer).got, TraceOf(more, window, viewer).got,
        Inbox(After(run), window)[0].size, now, viewer)
  {
    var system, trace := After(run), TraceOf(run, window, viewer);
    HandledIs(run, window, viewer, rooms, now);
    HandledCounts(system.lives[window], Inbox(system, window)[0], rooms, now, trace.got, viewer);
  }

  lemma HandledCounts(
    live: LiveState, frame: EncodedFrame, rooms: set<string>, now: nat, got: seq<EncodedFrame>, viewer: string)
    requires live.flow.Accounted()
    ensures
      var reached := viewer in Reached(live, frame.key, rooms);
      CountsExactly(live, LiveHandled(live, frame, rooms, now), got, got + When(reached, frame), frame.size, now, viewer)
  {
    if viewer in live.flow.seats {
      assert live.flow.seats[viewer].sent + [] == live.flow.seats[viewer].sent;
      if viewer in LiveHandled(live, frame, rooms, now).flow.seats {
        HandledSent(live, frame, rooms, now, viewer);
      }
    }
  }

  /** What a viewer got, the host queued, and what the host queued, the link took. */
  lemma GotCameTheWholeWay(run: seq<Step>, window: int, viewer: string, frame: EncodedFrame)
    requires window in After(run).lives && HasPredecessor(TraceOf(run, window, viewer).got, frame)
    ensures HasPredecessor(TraceOf(run, window, viewer).posted, frame)
    ensures HasPredecessor(TraceOf(run, window, viewer).linked, frame)
  {
    RunsKeep(run, window, viewer);
    var trace := TraceOf(run, window, viewer);
    var one :| one in trace.got && one.encoder == frame.encoder && one.serial + 1 == frame.serial;
    assert one in trace.seen && one in trace.posted && one in trace.arrived && one in trace.linked;
  }

  // ----- Pipes and seats -----

  predicate HasSeat(system: System, window: int, viewer: string) {
    window in system.lives && viewer in system.lives[window].flow.seats
  }

  predicate HasPipe(system: System, window: int, viewer: string) {
    window in system.lives && viewer in system.lives[window].pipes
  }

  /** A pipe that goes frees its viewer's seat exactly when it is the one of the viewer's last join. */
  lemma OldPipesFreeNothing(run: seq<Step>, window: int, viewer: string, number: nat, now: nat)
    requires HasPipe(After(run), window, viewer)
    ensures
      var system, next := After(run), After(run + [Step(Leave(window, viewer, number), now)]);
      if system.lives[window].pipes[viewer] == number
      then !HasPipe(next, window, viewer) && !HasSeat(next, window, viewer)
      else next == system
  {
    assert (run + [Step(Leave(window, viewer, number), now)])[..|run|] == run;
    var system := After(run);
    assert system.lives[window := system.lives[window]] == system.lives;
  }

  /** A join gives a viewer its pipe, and a watch a new seat. */
  lemma JoinsGivePipes(run: seq<Step>, window: int, viewer: string, number: nat, now: nat)
    requires window in After(run).lives
    ensures
      var next := After(run + [Step(Join(window, viewer, number), now)]);
      HasPipe(next, window, viewer) && next.lives[window].pipes[viewer] == number
      && next.lives[window].flow == After(run).lives[window].flow
  {
    assert (run + [Step(Join(window, viewer, number), now)])[..|run|] == run;
  }

  lemma WatchesGiveSeats(run: seq<Step>, window: int, viewer: string, now: nat)
    requires window in After(run).lives
    ensures
      var next := After(run + [Step(Watch(window, viewer), now)]);
      HasSeat(next, window, viewer) && next.lives[window].flow.seats[viewer].sent == []
      && next.lives[window].pipes == After(run).lives[window].pipes
  {
    assert (run + [Step(Watch(window, viewer), now)])[..|run|] == run;
  }

  /** A viewer that loses its seat to a picture loses its pipe with it, and the others keep theirs. */
  lemma PipesGoWithSeats(run: seq<Step>, window: int, viewer: string, rooms: set<string>, now: nat)
    requires Inbox(After(run), window) != [] && HasSeat(After(run), window, viewer)
    ensures
      var next := After(run + [Step(Handle(window, rooms), now)]);
      HasPipe(next, window, viewer) <==> HasPipe(After(run), window, viewer) && HasSeat(next, window, viewer)
  {
    HandledIs(run, window, viewer, rooms, now);
  }
}
