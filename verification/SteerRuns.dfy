/** What every turn of a run makes of the bitrate, by the viewers' queues and by the steers before. */
module SteerRuns {
  import opened BitrateRuns
  import opened FlowRuns
  import opened FlowStates
  import opened Sizes
  import opened Wrappers

  /** How much longer than the least the last round trip of a viewer took. */
  function Delay(seat: SeatState): nat {
    if seat.round.Some? && seat.leastRound.Some? && seat.round.value > seat.leastRound.value
    then seat.round.value - seat.leastRound.value else 0
  }

  /** The longest delay of the viewers that get frames. */
  predicate IsLongest(seats: map<string, SeatState>, longest: nat) {
    (exists viewer :: viewer in seats && seats[viewer].live && Delay(seats[viewer]) == longest)
    && forall viewer :: viewer in seats && seats[viewer].live ==> Delay(seats[viewer]) <= longest
  }

  predicate NobodyIsLive(seats: map<string, SeatState>) {
    forall viewer :: viewer in seats ==> !seats[viewer].live
  }

  /** A steer looks at the viewers when none did in the quarter of a second before. */
  predicate LooksIn(run: seq<Step>, i: nat)
    decreases i
  {
    i < |run| && run[i].event.Steer?
    && forall j: nat :: j < i && LooksIn(run, j) ==> run[i].now - run[j].now >= 250_000_000
  }

  ghost predicate FindsCongestion(run: seq<Step>, i: nat) {
    LooksIn(run, i) && exists longest: nat :: longest > 40_000_000 && IsLongest(After(run[..i]).seats, longest)
  }

  ghost predicate MayRise(run: seq<Step>, i: nat) {
    i < |run| && forall j: nat :: j < i && FindsCongestion(run, j) ==> run[i].now - run[j].now >= 2_000_000_000
  }

  lemma DelayIs(seat: SeatState)
    ensures Delay(seat) == Queue(seat)
  {
  }

  lemma LongestIs(seats: map<string, SeatState>, longest: nat)
    ensures IsLongest(seats, longest) <==> Greatest(LiveQueues(seats)) == Some(longest)
    ensures NobodyIsLive(seats) <==> Greatest(LiveQueues(seats)) == None
  {
    var queues := LiveQueues(seats);
    assert IsGreatest(Greatest(queues), queues);
    forall viewer | viewer in seats && seats[viewer].live ensures Delay(seats[viewer]) in queues {
      DelayIs(seats[viewer]);
    }
    forall queue | queue in queues ensures exists viewer :: viewer in seats && seats[viewer].live && Delay(seats[viewer]) == queue {
      var viewer :| viewer in seats && seats[viewer].live && Queue(seats[viewer]) == queue;
      DelayIs(seats[viewer]);
    }
  }

  // ----- The moments that the controller keeps -----

  function LooksOf(run: seq<Step>): nat -> bool {
    (i: nat) => LooksIn(run, i)
  }

  ghost function CongestionsOf(run: seq<Step>): nat -> bool {
    (i: nat) => FindsCongestion(run, i)
  }

  /** The moment is that of the latest of some turns, if there was any. */
  ghost predicate IsLatest(at: Option<nat>, some: nat -> bool, run: seq<Step>, n: nat)
    requires n <= |run|
  {
    (at.Some? ==> exists i: nat :: i < n && some(i) && run[i].now == at.value)
    && forall i: nat :: i < n && some(i) ==> at.Some? && run[i].now <= at.value
  }

  /** The turns lie so long before. */
  ghost predicate AllBefore(some: nat -> bool, run: seq<Step>, n: nat, wait: nat)
    requires n < |run|
  {
    forall i: nat :: i < n && some(i) ==> run[n].now - run[i].now >= wait
  }

  lemma LongIs(at: Option<nat>, some: nat -> bool, run: seq<Step>, n: nat, wait: nat)
    requires Timed(run) && n < |run| && IsLatest(at, some, run, n)
    ensures Long(at, run[n].now, wait) <==> AllBefore(some, run, n, wait)
  {
    if at.Some? {
      var i: nat :| i < n && some(i) && run[i].now == at.value;
      assert run[i].now <= run[n].now;
    }
  }

  lemma LatestOneMore(at: Option<nat>, next: Option<nat>, some: nat -> bool, run: seq<Step>, n: nat)
    requires Timed(run) && n < |run| && IsLatest(at, some, run, n)
    requires next == if some(n) then Some(run[n].now) else at
    ensures IsLatest(next, some, run, n + 1)
  {
    forall i: nat | i < n + 1 && some(i) ensures next.Some? && run[i].now <= next.value {
      if i < n {
        assert at.Some? && run[i].now <= at.value;
        var j: nat :| j < n && some(j) && run[j].now == at.value;
        assert run[j].now <= run[n].now;
      }
    }
  }

  /** What one turn makes of the controller's moments. */
  lemma MomentsAfter(run: seq<Step>, n: nat)
    requires Timed(run) && n < |run|
    requires IsLatest(After(run[..n]).control.steeredAt, LooksOf(run), run, n)
    ensures
      var before, after := After(run[..n]).control, After(run[..n + 1]).control;
      after.steeredAt == (if LooksIn(run, n) then Some(run[n].now) else before.steeredAt)
      && after.cutAt == if FindsCongestion(run, n) then Some(run[n].now) else before.cutAt
  {
    var before := After(run[..n]);
    assert run[..n + 1][..n] == run[..n];
    LongIs(before.control.steeredAt, LooksOf(run), run, n, STEER_EVERY);
    if run[n].event.Steer? {
      LooksExactly(run, n);
      CongestionIs(run, n);
    } else {
      OnlySteersSteer(before, run[n]);
    }
  }

  lemma LooksExactly(run: seq<Step>, n: nat)
    requires n < |run| && run[n].event.Steer?
    ensures LooksIn(run, n) <==> AllBefore(LooksOf(run), run, n, 250_000_000)
  {
  }

  lemma CongestionIs(run: seq<Step>, n: nat)
    requires n < |run|
    ensures FindsCongestion(run, n) <==> LooksIn(run, n) && Congested(Greatest(LiveQueues(After(run[..n]).seats)))
  {
    var seats := After(run[..n]).seats;
    var queue := Greatest(LiveQueues(seats));
    if queue.Some? {
      LongestIs(seats, queue.value);
    }
    forall longest: nat | IsLongest(seats, longest) ensures queue == Some(longest) {
      LongestIs(seats, longest);
    }
  }

  lemma {:induction false} MomentsAreLatest(run: seq<Step>, n: nat)
    requires Timed(run) && n <= |run|
    ensures IsLatest(After(run[..n]).control.steeredAt, LooksOf(run), run, n)
    ensures IsLatest(After(run[..n]).control.cutAt, CongestionsOf(run), run, n)
  {
    if n == 0 {
      assert run[..0] == [];
    } else {
      MomentsAreLatest(run, n - 1);
      MomentsAfter(run, n - 1);
      var before, after := After(run[..n - 1]).control, After(run[..n]).control;
      LatestOneMore(before.steeredAt, after.steeredAt, LooksOf(run), run, n - 1);
      LatestOneMore(before.cutAt, after.cutAt, CongestionsOf(run), run, n - 1);
    }
  }

  // ----- The bitrate -----

  /** The bitrate after a turn, by what the turn finds. */
  ghost predicate GoesTo(seats: map<string, SeatState>, looks: bool, mayRise: bool, before: nat, after: nat) {
    if !looks || NobodyIsLive(seats) then after == before
    else exists longest: nat :: IsLongest(seats, longest) && after == Moved(before, longest, mayRise)
  }

  function Moved(before: nat, longest: nat, mayRise: bool): nat {
    if longest > 40_000_000 then (if before / 5 * 4 < 1_000_000 then 1_000_000 else before / 5 * 4)
    else if longest < 20_000_000 && mayRise then Min(before + before / 16, 40_000_000)
    else before
  }

  lemma SteeredIs(control: Controller, queue: nat, now: nat)
    requires InBounds(control.bitrate) && Long(control.steeredAt, now, 250_000_000)
    ensures Steered(control, Some(queue), now).bitrate
      == Moved(control.bitrate, queue, Long(control.cutAt, now, 2_000_000_000))
  {
  }

  lemma SteerGoesTo(flow: FlowState, now: nat)
    requires InBounds(flow.control.bitrate)
    ensures
      GoesTo(
        flow.seats, Long(flow.control.steeredAt, now, 250_000_000), Long(flow.control.cutAt, now, 2_000_000_000),
        flow.control.bitrate, FlowSteered(flow, now).control.bitrate)
  {
    var queue := Greatest(LiveQueues(flow.seats));
    LongestIs(flow.seats, if queue.Some? then queue.value else 0);
    if Long(flow.control.steeredAt, now, 250_000_000) && queue.Some? {
      SteeredIs(flow.control, queue.value, now);
    }
  }

  lemma MomentsSay(run: seq<Step>, i: nat)
    requires Timed(run) && i < |run| && run[i].event.Steer?
    ensures
      var control := After(run[..i]).control;
      (LooksIn(run, i) <==> Long(control.steeredAt, run[i].now, 250_000_000))
      && (MayRise(run, i) <==> Long(control.cutAt, run[i].now, 2_000_000_000))
  {
    var control := After(run[..i]).control;
    MomentsAreLatest(run, i);
    LongIs(control.steeredAt, LooksOf(run), run, i, 250_000_000);
    LongIs(control.cutAt, CongestionsOf(run), run, i, 2_000_000_000);
    LooksExactly(run, i);
    assert MayRise(run, i) <==> AllBefore(CongestionsOf(run), run, i, 2_000_000_000);
  }

  /**
   A steer that looks cuts the bitrate to four fifths when the longest delay is above 40 ms, raises it
   by a sixteenth when it is below 20 ms and no steer found congestion in the two seconds before, both
   within the bounds, and nothing else changes it.
   */
  lemma SteersExactly(run: seq<Step>, i: nat)
    requires Timed(run) && i < |run|
    ensures
      GoesTo(
        After(run[..i]).seats, LooksIn(run, i), MayRise(run, i),
        After(run[..i]).control.bitrate, After(run[..i + 1]).control.bitrate)
  {
    var flow := After(run[..i]);
    assert run[..i + 1][..i] == run[..i];
    if run[i].event.Steer? {
      MomentsSay(run, i);
      RunsStayInBounds(run[..i]);
      SteerGoesTo(flow, run[i].now);
    } else {
      OnlySteersSteer(flow, run[i]);
    }
  }
}
