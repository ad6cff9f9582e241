/** Which frames go to a viewer, and when the engine is asked for a key frame, by what went before in the run. */
module FrameRuns {
  import opened Wrappers
  import opened FlowStates
  import opened FlowRuns
  import opened Histories

  /** A step gives a frame to a viewer. */
  predicate Gives(before: Option<SeatState>, after: Option<SeatState>, step: Step) {
    step.event.NewFrame? && before.Some? && after.Some?
    && after.value.sent == before.value.sent + [Sent(step.event.id, step.event.bytes, step.now)]
  }

  /** A frame came in that turn and went to the viewer. */
  ghost predicate SentAt(run: seq<Step>, viewer: string, n: nat) {
    n < |run| && Gives(SeatAfter(run[..n], viewer), SeatAfter(run[..n + 1], viewer), run[n])
  }

  /** A step after which the viewer no longer has what went out to it as the last frame. */
  predicate TakesAway(step: Step, viewer: string) {
    step.event.NewFrame? || step.event == Join(viewer) || (step.event.Lost? && step.event.viewer == viewer)
  }

  ghost function Sends(run: seq<Step>, viewer: string): nat -> bool {
    (n: nat) => SentAt(run, viewer, n)
  }

  function Losses(run: seq<Step>, viewer: string): nat -> bool {
    (n: nat) => n < |run| && TakesAway(run[n], viewer)
  }

  /** The last frame went out to the viewer in the seat that it has, and was not lost. */
  ghost predicate HasTheLast(run: seq<Step>, viewer: string, n: nat) {
    Lasts(Sends(run, viewer), Losses(run, viewer), n)
  }

  lemma LiveAfter(seat: Option<SeatState>, viewer: string, step: Step)
    requires seat.Some? ==> seat.value.Accounted()
    ensures
      var next := NextSeat(seat, viewer, step);
      next.Some? ==>
        (next.value.live <==>
          Gives(seat, next, step) || (seat.Some? && seat.value.live && !TakesAway(step, viewer)))
  {
  }

  predicate IsLive(seat: Option<SeatState>) {
    seat.Some? && seat.value.live
  }

  /** A seat is live exactly while its viewer has the last frame. */
  lemma {:induction false} LiveHasTheLast(run: seq<Step>, viewer: string, n: nat)
    requires n <= |run|
    ensures SeatAfter(run[..n], viewer).Some? ==> (IsLive(SeatAfter(run[..n], viewer)) <==> HasTheLast(run, viewer, n))
  {
    if n == 0 {
      assert run[..0] == [];
    } else {
      SeatAfterTurn(run, viewer, n - 1);
      LiveAfter(SeatAfter(run[..n - 1], viewer), viewer, run[n - 1]);
      LastsOneMore(Sends(run, viewer), Losses(run, viewer), n - 1);
      LiveHasTheLast(run, viewer, n - 1);
    }
  }

  lemma SeatAfterTurn(run: seq<Step>, viewer: string, n: nat)
    requires n < |run|
    ensures SeatAfter(run[..n + 1], viewer) == NextSeat(SeatAfter(run[..n], viewer), viewer, run[n])
  {
    var upTo := run[..n + 1];
    assert upTo[..|upTo| - 1] == run[..n] && upTo[|upTo| - 1] == run[n];
    SeatAfterStep(upTo, viewer);
  }

  /**
   A frame goes to a viewer exactly when no more than the limit is on its way to it, and the frame is
   a key frame or the viewer has the frame before it. Otherwise nothing goes.
   */
  lemma FramesGoExactly(run: seq<Step>, viewer: string, n: nat)
    requires n < |run| && run[n].event.NewFrame? && SeatAfter(run[..n], viewer).Some?
    ensures
      var before, after := SeatAfter(run[..n], viewer).value, SeatAfter(run[..n + 1], viewer);
      (SentAt(run, viewer, n) <==>
        SumBytes(before.sent) <= 2 * 1024 * 1024 && (run[n].event.key || HasTheLast(run, viewer, n)))
      && (!SentAt(run, viewer, n) && after.Some? ==> after.value.sent == before.sent)
  {
    SeatAfterTurn(run, viewer, n);
    LiveHasTheLast(run, viewer, n);
  }

  // ----- Seats and what is on its way -----

  /** A frame that is lost right after it went out is on its way no more. Losing any other one takes nothing off. */
  lemma LostTakesOffTheLast(run: seq<Step>, viewer: string, id: nat, n: nat)
    requires n < |run| && run[n].event == Lost(viewer, id) && SeatAfter(run[..n], viewer).Some?
    ensures
      var before, after := SeatAfter(run[..n], viewer).value.sent, SeatAfter(run[..n + 1], viewer);
      after.Some?
      && after.value.sent == if before != [] && before[|before| - 1].id == id then before[..|before| - 1] else before
  {
    SeatAfterTurn(run, viewer, n);
  }

  /** A viewer has a new seat after it joins, none after it leaves, and otherwise only a frame takes its seat. */
  lemma SeatsComeAndGo(run: seq<Step>, viewer: string, n: nat)
    requires n < |run|
    ensures
      var event, before, after := run[n].event, SeatAfter(run[..n], viewer), SeatAfter(run[..n + 1], viewer);
      if event == Join(viewer) then after.Some? && after.value.sent == []
      else if event == Leave(viewer) then after.None?
      else (after.Some? ==> before.Some?) && (before.Some? && after.None? ==> event.NewFrame?)
  {
    SeatAfterTurn(run, viewer, n);
  }

  // ----- Key frames -----

  /** A viewer with little on its way gets nothing of a delta. */
  ghost predicate Waits(run: seq<Step>, viewer: string, n: nat) {
    n < |run| && run[n].event.NewFrame? && !run[n].event.key && !SentAt(run, viewer, n)
    && SeatAfter(run[..n], viewer).Some? && SumBytes(SeatAfter(run[..n], viewer).value.sent) <= 256 * 1024
  }

  ghost predicate SomeoneWaits(run: seq<Step>, n: nat) {
    exists viewer :: Waits(run, viewer, n)
  }

  lemma WaitsExactly(run: seq<Step>, viewer: string, n: nat)
    requires n < |run| && run[n].event.NewFrame?
    ensures Waits(run, viewer, n) <==> viewer in Wanters(After(run[..n]).seats, run[n].event.key)
  {
    if SeatAfter(run[..n], viewer).Some? {
      FramesGoExactly(run, viewer, n);
      LiveHasTheLast(run, viewer, n);
    }
  }

  lemma SomeoneWaitsExactly(run: seq<Step>, n: nat)
    requires n < |run| && run[n].event.NewFrame?
    ensures SomeoneWaits(run, n) <==> Wanters(After(run[..n]).seats, run[n].event.key) != {}
  {
    var wanters := Wanters(After(run[..n]).seats, run[n].event.key);
    if wanters != {} {
      var viewer :| viewer in wanters;
      WaitsExactly(run, viewer, n);
    }
    if SomeoneWaits(run, n) {
      var viewer :| Waits(run, viewer, n);
      WaitsExactly(run, viewer, n);
    }
  }

  /** The moment that the flow keeps is of its last ask. */
  lemma {:induction false} KeptIsAnAsk(run: seq<Step>)
    requires After(run).keyframeAt.Some?
    ensures exists n: nat :: AsksKeyframe(run, n) && run[n].now == After(run).keyframeAt.value
  {
    var last := |run| - 1;
    var earlier := run[..last];
    if AsksKeyframe(run, last) {
      assert run[last].now == After(run).keyframeAt.value;
    } else {
      assert After(run).keyframeAt == After(earlier).keyframeAt;
      KeptIsAnAsk(earlier);
      var n: nat :| AsksKeyframe(earlier, n) && earlier[n].now == After(earlier).keyframeAt.value;
      assert earlier[..n] == run[..n];
      assert AsksKeyframe(run, n);
    }
  }

  /**
   The engine is asked for a key frame exactly when a viewer asks for one, or waits for one while
   little is on its way, and no ask was made in the second before.
   */
  lemma AsksExactly(run: seq<Step>, n: nat)
    requires Timed(run) && n < |run|
    ensures AsksKeyframe(run, n) <==>
      (run[n].event.AskKeyframe? || SomeoneWaits(run, n))
      && forall m: nat :: m < n && AsksKeyframe(run, m) ==> run[n].now - run[m].now >= 1_000_000_000
  {
    if run[n].event.NewFrame? {
      SomeoneWaitsExactly(run, n);
    }
    if AsksKeyframe(run, n) {
      forall m: nat | m < n && AsksKeyframe(run, m) ensures run[n].now - run[m].now >= 1_000_000_000 {
        KeyframesAreApart(run, m, n);
      }
    } else if After(run[..n]).keyframeAt.Some? {
      KeptIsAnAsk(run[..n]);
      var m: nat :| AsksKeyframe(run[..n], m) && run[m].now == After(run[..n]).keyframeAt.value;
      assert run[..n][..m] == run[..m];
      assert AsksKeyframe(run, m);
    }
  }
}
