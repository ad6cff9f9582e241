/**
 The least round trip of a viewer over runs. Samples fall into windows: a window closes with the
 first sample that comes `ROUND_WINDOW` or later after it opened.
 */
module RoundRuns {
  import opened Wrappers
  import opened FlowStates
  import opened FlowRuns

  datatype Sample = Sample(round: nat, at: nat)

  /** Where the last completed window and the current window begin, and when the current one opened. */
  datatype Windows = Windows(completed: nat, current: nat, at: nat)

  function WindowsOf(start: nat, samples: seq<Sample>): (windows: Windows)
    ensures windows.completed <= windows.current <= |samples|
  {
    if samples == [] then Windows(0, 0, start)
    else
      var earlier, last := samples[..|samples| - 1], samples[|samples| - 1];
      var windows := WindowsOf(start, earlier);
      if Since(last.at, windows.at) >= ROUND_WINDOW then Windows(windows.current, |samples|, last.at) else windows
  }

  function Least(samples: seq<Sample>): (least: Option<nat>)
    ensures samples == [] <==> least.None?
    ensures least.Some? ==> forall i :: 0 <= i < |samples| ==> least.value <= samples[i].round
    ensures least.Some? ==> exists i :: 0 <= i < |samples| && least.value == samples[i].round
  {
    if samples == [] then None
    else
      var last := |samples| - 1;
      var least := LeastWith(Least(samples[..last]), samples[last].round);
      assert samples[last].round == least.value || Least(samples[..last]) == least;
      least
  }

  lemma LeastMore(samples: seq<Sample>, from: nat, sample: Sample)
    requires from <= |samples|
    ensures Least((samples + [sample])[from..]) == LeastWith(Least(samples[from..]), sample.round)
  {
    var more := (samples + [sample])[from..];
    assert more[..|more| - 1] == samples[from..];
  }

  /** The round trips that the acks of a viewer's current seat measured. */
  function NextSamples(seat: Option<SeatState>, viewer: string, samples: seq<Sample>, step: Step): seq<Sample> {
    if step.event == Join(viewer) || seat.None? then []
    else if step.event.Ack? && step.event.viewer == viewer && Cleared(seat.value.sent, step.event.frame) > 0 then
      var newest := seat.value.sent[Cleared(seat.value.sent, step.event.frame) - 1];
      samples + [Sample(Since(step.now, newest.at), step.now)]
    else samples
  }

  ghost function Samples(run: seq<Step>, viewer: string): seq<Sample> {
    if run == [] then []
    else
      var earlier, step := run[..|run| - 1], run[|run| - 1];
      NextSamples(SeatAfter(earlier, viewer), viewer, Samples(earlier, viewer), step)
  }

  /** When the viewer took its current seat. */
  function SeatedAt(run: seq<Step>, viewer: string): nat {
    if run == [] then 0
    else if run[|run| - 1].event == Join(viewer) then run[|run| - 1].now
    else SeatedAt(run[..|run| - 1], viewer)
  }

  /** What a seat keeps of its samples. */
  predicate Keeps(seat: SeatState, start: nat, samples: seq<Sample>) {
    var windows := WindowsOf(start, samples);
    seat.round == (if samples == [] then None else Some(samples[|samples| - 1].round))
    && seat.leastRound == Least(samples[windows.completed..])
    && seat.windowLeast == Least(samples[windows.current..])
    && seat.windowAt == windows.at
  }

  lemma MeasureKeeps(seat: SeatState, start: nat, samples: seq<Sample>, sample: Sample)
    requires Keeps(seat, start, samples)
    ensures Keeps(Measured(seat, sample.round, sample.at), start, samples + [sample])
  {
    var windows, more := WindowsOf(start, samples), samples + [sample];
    assert more[..|more| - 1] == samples;
    LeastMore(samples, windows.completed, sample);
    LeastMore(samples, windows.current, sample);
  }

  lemma AckKeeps(seat: SeatState, start: nat, samples: seq<Sample>, frame: nat, now: nat)
    requires seat.Accounted() && Keeps(seat, start, samples) && Cleared(seat.sent, frame) > 0
    ensures
      var newest := seat.sent[Cleared(seat.sent, frame) - 1];
      Keeps(Acked(seat, frame, now), start, samples + [Sample(Since(now, newest.at), now)])
  {
    var n := Cleared(seat.sent, frame);
    FirstBytes(seat.sent, n);
    var rest := seat.(sent := seat.sent[n..], waiting := seat.waiting - SumBytes(seat.sent[..n]));
    MeasureKeeps(rest, start, samples, Sample(Since(now, seat.sent[n - 1].at), now));
  }

  lemma StepKeeps(seat: SeatState, viewer: string, start: nat, samples: seq<Sample>, step: Step)
    requires seat.Accounted() && Keeps(seat, start, samples) && step.event != Join(viewer)
    requires NextSeat(Some(seat), viewer, step).Some?
    ensures Keeps(NextSeat(Some(seat), viewer, step).value, start, NextSamples(Some(seat), viewer, samples, step))
  {
    if step.event.Ack? && step.event.viewer == viewer && Cleared(seat.sent, step.event.frame) > 0 {
      AckKeeps(seat, start, samples, step.event.frame, step.now);
    } else {
      assert NextSamples(Some(seat), viewer, samples, step) == samples;
      SameMeasures(seat, NextSeat(Some(seat), viewer, step).value, start, samples);
    }
  }

  lemma SameMeasures(seat: SeatState, next: SeatState, start: nat, samples: seq<Sample>)
    requires Keeps(seat, start, samples)
    requires next.round == seat.round && next.leastRound == seat.leastRound
    requires next.windowLeast == seat.windowLeast && next.windowAt == seat.windowAt
    ensures Keeps(next, start, samples)
  {
  }

  /**
   After every run the least round trip of a viewer is the least of the samples in its last
   completed window and the current one.
   */
  lemma {:induction false} LeastRoundIsTheSlidingMinimum(run: seq<Step>, viewer: string)
    requires SeatAfter(run, viewer).Some?
    ensures Keeps(SeatAfter(run, viewer).value, SeatedAt(run, viewer), Samples(run, viewer))
  {
    var earlier, step := run[..|run| - 1], run[|run| - 1];
    SeatAfterStep(run, viewer);
    if step.event != Join(viewer) {
      LeastRoundIsTheSlidingMinimum(earlier, viewer);
      StepKeeps(SeatAfter(earlier, viewer).value, viewer, SeatedAt(earlier, viewer), Samples(earlier, viewer), step);
    }
  }

  /** The least round trip is never above the newest one, so the queue of a viewer is their difference. */
  lemma QueueNeverSaturates(run: seq<Step>, viewer: string)
    requires SeatAfter(run, viewer).Some? && SeatAfter(run, viewer).value.round.Some?
    ensures
      var seat := SeatAfter(run, viewer).value;
      seat.leastRound.Some? && seat.leastRound.value <= seat.round.value
      && Queue(seat) == seat.round.value - seat.leastRound.value
  {
    LeastRoundIsTheSlidingMinimum(run, viewer);
    var samples := Samples(run, viewer);
    LastIsInTheWindows(SeatedAt(run, viewer), samples);
    var windows := WindowsOf(SeatedAt(run, viewer), samples);
    var kept := samples[windows.completed..];
    assert kept[|kept| - 1] == samples[|samples| - 1];
  }

  lemma {:induction false} LastIsInTheWindows(start: nat, samples: seq<Sample>)
    requires samples != []
    ensures WindowsOf(start, samples).completed < |samples|
  {
    if |samples| == 1 {
    } else {
      LastIsInTheWindows(start, samples[..|samples| - 1]);
    }
  }
}
