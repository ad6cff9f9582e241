/**
 Acks over runs with frame ids that wrap. A window numbers its frames one by one, and a frame's id
 is its number in 32 bits; the numbers themselves are kept here beside the run.
 */
module AckRuns {
  import opened Wrappers
  import opened FlowStates
  import opened FlowRuns

  function FrameCount(run: seq<Step>): nat {
    if run == [] then 0
    else FrameCount(run[..|run| - 1]) + if run[|run| - 1].event.NewFrame? then 1 else 0
  }

  /** The frames have the ids that the window gives them. */
  predicate Numbered(run: seq<Step>) {
    run == []
    || (Numbered(run[..|run| - 1])
        && (run[|run| - 1].event.NewFrame? ==> run[|run| - 1].event.id == FrameCount(run) % IDS))
  }

  /** What a step makes of the numbers of the frames on their way to a viewer. */
  function NextNumbers(seat: Option<SeatState>, viewer: string, numbers: seq<nat>, step: Step, count: nat): seq<nat> {
    var event := step.event;
    if event == Join(viewer) || event == Leave(viewer) || seat.None? then []
    else if event.NewFrame? then
      if Hopeless(seat.value, step.now) then []
      else if Takes(seat.value, event.key) then numbers + [count + 1]
      else numbers
    else if event.Lost? && event.viewer == viewer then
      var sent := seat.value.sent;
      if numbers != [] && sent != [] && sent[|sent| - 1].id == event.id then numbers[..|numbers| - 1] else numbers
    else if event.Ack? && event.viewer == viewer then
      var cleared := Cleared(seat.value.sent, event.frame);
      if cleared <= |numbers| then numbers[cleared..] else []
    else numbers
  }

  /** The numbers of the frames on their way to a viewer. */
  ghost function Outstanding(run: seq<Step>, viewer: string): seq<nat> {
    if run == [] then []
    else
      var earlier, step := run[..|run| - 1], run[|run| - 1];
      NextNumbers(SeatAfter(earlier, viewer), viewer, Outstanding(earlier, viewer), step, FrameCount(earlier))
  }

  predicate Rising(numbers: seq<nat>) {
    forall i, j :: 0 <= i < j < |numbers| ==> numbers[i] < numbers[j]
  }

  predicate NoneAbove(numbers: seq<nat>, most: nat) {
    forall i :: 0 <= i < |numbers| ==> numbers[i] <= most
  }

  /** Every number lies within half the range of ids around an acked one. */
  predicate InRange(numbers: seq<nat>, acked: nat) {
    forall i :: 0 <= i < |numbers| ==> acked < numbers[i] + HALF_IDS && numbers[i] <= acked + IDS - HALF_IDS
  }

  /** The ids of the frames are the numbers in 32 bits. */
  predicate AreIdsOf(sent: seq<Sent>, numbers: seq<nat>) {
    |sent| == |numbers| && forall i :: 0 <= i < |sent| ==> sent[i].id == numbers[i] % IDS
  }

  /** The numbers beside a seat are right. */
  predicate Right(seat: Option<SeatState>, numbers: seq<nat>, count: nat) {
    Rising(numbers) && NoneAbove(numbers, count)
    && if seat.Some? then AreIdsOf(seat.value.sent, numbers) else numbers == []
  }

  lemma RightAfterFrame(seat: SeatState, viewer: string, numbers: seq<nat>, count: nat, step: Step)
    requires seat.Accounted() && Right(Some(seat), numbers, count)
    requires step.event.NewFrame? && step.event.id == (count + 1) % IDS
    ensures Right(NextSeat(Some(seat), viewer, step), NextNumbers(Some(seat), viewer, numbers, step, count), count + 1)
  {
  }

  lemma RightAfterAck(seat: SeatState, viewer: string, numbers: seq<nat>, count: nat, step: Step)
    requires seat.Accounted() && Right(Some(seat), numbers, count) && step.event.Ack?
    ensures Right(NextSeat(Some(seat), viewer, step), NextNumbers(Some(seat), viewer, numbers, step, count), count)
  {
  }

  lemma RightAfterStep(seat: Option<SeatState>, viewer: string, numbers: seq<nat>, count: nat, step: Step)
    requires seat.Some? ==> seat.value.Accounted()
    requires Right(seat, numbers, count)
    requires step.event.NewFrame? ==> step.event.id == (count + 1) % IDS
    ensures Right(NextSeat(seat, viewer, step), NextNumbers(seat, viewer, numbers, step, count),
                  count + if step.event.NewFrame? then 1 else 0)
  {
    if seat.Some? && step.event.NewFrame? {
      RightAfterFrame(seat.value, viewer, numbers, count, step);
    } else if seat.Some? && step.event.Ack? {
      RightAfterAck(seat.value, viewer, numbers, count, step);
    }
  }

  lemma {:induction false} OutstandingAreSent(run: seq<Step>, viewer: string)
    requires Numbered(run)
    ensures Right(SeatAfter(run, viewer), Outstanding(run, viewer), FrameCount(run))
  {
    if run == [] {
    } else {
      var earlier, step := run[..|run| - 1], run[|run| - 1];
      OutstandingAreSent(earlier, viewer);
      SeatAfterStep(run, viewer);
      RightAfterStep(SeatAfter(earlier, viewer), viewer, Outstanding(earlier, viewer), FrameCount(earlier), step);
    }
  }

  lemma Wrapped(a: nat, b: nat)
    ensures (a % IDS - b % IDS) % IDS == (a - b) % IDS
  {
    var q := a / IDS - b / IDS;
    assert a % IDS - b % IDS == a - b - q * IDS;
  }

  /** An id within half the range of the acked one is older exactly when its frame is not newer. */
  lemma OlderIsNotNewer(sent: Sent, number: nat, acked: nat)
    requires sent.id == number % IDS
    requires acked < number + HALF_IDS && number <= acked + IDS - HALF_IDS
    ensures Older(sent, acked % IDS) <==> number <= acked
  {
    Wrapped(acked, number);
  }

  lemma {:induction false} ClearedAreOld(sent: seq<Sent>, numbers: seq<nat>, acked: nat)
    requires AreIdsOf(sent, numbers) && Rising(numbers)
    requires InRange(numbers, acked)
    ensures
      var n := Cleared(sent, acked % IDS);
      (forall i :: 0 <= i < n ==> numbers[i] <= acked) && (forall i :: n <= i < |numbers| ==> numbers[i] > acked)
  {
    if sent == [] {
    } else {
      OlderIsNotNewer(sent[0], numbers[0], acked);
      if Older(sent[0], acked % IDS) {
        assert forall i :: 0 <= i < |sent| - 1 ==> sent[1..][i] == sent[i + 1] && numbers[1..][i] == numbers[i + 1];
        ClearedAreOld(sent[1..], numbers[1..], acked);
        var n := Cleared(sent, acked % IDS);
        assert forall i :: 0 < i < n ==> numbers[i] == numbers[1..][i - 1];
        assert forall i :: n <= i < |numbers| ==> numbers[i] == numbers[1..][i - 1];
      } else {
        assert forall i :: 0 < i < |numbers| ==> numbers[i] > numbers[0];
      }
    }
  }

  /** The numbers that are newer than an acked one, in their order. */
  function NewerThan(numbers: seq<nat>, acked: nat): seq<nat> {
    if numbers == [] then []
    else (if numbers[0] > acked then [numbers[0]] else []) + NewerThan(numbers[1..], acked)
  }

  lemma {:induction false} NewerAreTheRest(numbers: seq<nat>, acked: nat, n: nat)
    requires n <= |numbers|
    requires forall i :: 0 <= i < |numbers| ==> (numbers[i] <= acked <==> i < n)
    ensures NewerThan(numbers, acked) == numbers[n..]
  {
    if numbers == [] {
    } else {
      NewerAreTheRest(numbers[1..], acked, if n > 0 then n - 1 else 0);
    }
  }

  /**
   An ack takes off exactly the frames that are not newer than the acked one, also across a wrap of
   the ids, as long as every frame on its way lies within half the range of it.
   */
  lemma AckTakesOffWhatIsNotNewer(run: seq<Step>, viewer: string, acked: nat, now: nat)
    requires Numbered(run) && SeatAfter(run, viewer).Some? && InRange(Outstanding(run, viewer), acked)
    ensures Outstanding(run + [Step(Ack(viewer, acked % IDS), now)], viewer)
            == NewerThan(Outstanding(run, viewer), acked)
  {
    var more := run + [Step(Ack(viewer, acked % IDS), now)];
    assert more[..|run|] == run;
    OutstandingAreSent(run, viewer);
    var numbers, sent := Outstanding(run, viewer), SeatAfter(run, viewer).value.sent;
    ClearedAreOld(sent, numbers, acked);
    NewerAreTheRest(numbers, acked, Cleared(sent, acked % IDS));
  }
}
