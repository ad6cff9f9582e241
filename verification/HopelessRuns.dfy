/** When a viewer is dropped as hopeless, over every run of the flow. */
module HopelessRuns {
  import opened Wrappers
  import opened FlowStates
  import opened FlowRuns

  predicate IsOver(seat: Option<SeatState>) {
    seat.Some? && Over(seat.value)
  }

  /** From a step on, the viewer keeps one seat and has more on its way than the limit, so no frame goes to it. */
  ghost predicate Stuck(run: seq<Step>, viewer: string, from: nat)
    requires from <= |run|
  {
    OverSince(run, viewer, from) && forall i :: from <= i < |run| ==> run[i].event != Join(viewer)
  }

  ghost predicate OverSince(run: seq<Step>, viewer: string, from: nat) {
    forall i :: from <= i <= |run| ==> IsOver(SeatAfter(run[..i], viewer))
  }

  /** The viewer was over the limit when a frame came, and still is, without a break. */
  ghost predicate StuckAtFrame(run: seq<Step>, viewer: string, from: nat) {
    from < |run| && run[from].event.NewFrame? && Stuck(run, viewer, from)
  }

  lemma PrefixesEarlier<T>(run: seq<T>, from: nat, good: seq<T> -> bool)
    requires from < |run|
    ensures
      var earlier := run[..|run| - 1];
      (forall i :: from <= i <= |run| ==> good(run[..i]))
      <==> (forall i :: from <= i <= |earlier| ==> good(earlier[..i])) && good(run)
  {
    var earlier := run[..|run| - 1];
    assert run[..|run|] == run;
    assert forall i :: from <= i <= |earlier| ==> earlier[..i] == run[..i];
  }

  lemma OverEarlier(run: seq<Step>, viewer: string, from: nat)
    requires from < |run|
    ensures OverSince(run, viewer, from)
      <==> OverSince(run[..|run| - 1], viewer, from) && IsOver(SeatAfter(run, viewer))
  {
    PrefixesEarlier(run, from, (some: seq<Step>) => IsOver(SeatAfter(some, viewer)));
  }

  lemma StuckEarlier(run: seq<Step>, viewer: string, from: nat)
    requires from < |run|
    ensures
      Stuck(run, viewer, from)
      <==> Stuck(run[..|run| - 1], viewer, from) && run[|run| - 1].event != Join(viewer)
           && IsOver(SeatAfter(run, viewer))
  {
    OverEarlier(run, viewer, from);
  }

  /** One more step of a seat that stays over the limit. */
  lemma StuckOneMore(run: seq<Step>, viewer: string, from: nat)
    requires run != [] && StuckAtFrame(run[..|run| - 1], viewer, from)
    requires run[|run| - 1].event != Join(viewer) && IsOver(SeatAfter(run, viewer))
    ensures StuckAtFrame(run, viewer, from)
  {
    StuckEarlier(run, viewer, from);
  }

  /** A frame comes while the seat is over the limit. */
  lemma StuckFromHere(run: seq<Step>, viewer: string)
    requires run != [] && run[|run| - 1].event.NewFrame?
    requires IsOver(SeatAfter(run[..|run| - 1], viewer)) && IsOver(SeatAfter(run, viewer))
    ensures StuckAtFrame(run, viewer, |run| - 1)
  {
    var earlier := run[..|run| - 1];
    assert earlier[..|earlier|] == earlier;
    assert Stuck(earlier, viewer, |earlier|);
    StuckEarlier(run, viewer, |earlier|);
  }

  lemma {:induction false} OverSinceAFrame(run: seq<Step>, viewer: string)
    requires SeatAfter(run, viewer).Some? && Over(SeatAfter(run, viewer).value)
    requires SeatAfter(run, viewer).value.overSince.Some?
    ensures exists from: nat ::
      StuckAtFrame(run, viewer, from) && run[from].now == SeatAfter(run, viewer).value.overSince.value
  {
    var earlier, step := run[..|run| - 1], run[|run| - 1];
    SeatAfterStep(run, viewer);
    assert step.event != Join(viewer) && SeatAfter(earlier, viewer).Some?;
    var before := SeatAfter(earlier, viewer).value;
    OldBytesOnlyShrink(before, viewer, step);
    assert Over(before);
    if before.overSince.Some? {
      OverSinceAFrame(earlier, viewer);
      var from: nat :| StuckAtFrame(earlier, viewer, from) && earlier[from].now == before.overSince.value;
      StuckOneMore(run, viewer, from);
    } else {
      StuckFromHere(run, viewer);
    }
  }

  lemma {:induction false} OverSinceThePast(run: seq<Step>, viewer: string, now: nat)
    requires Timed(run) && SeatAfter(run, viewer).Some? && SeatAfter(run, viewer).value.overSince.Some?
    requires run != [] ==> run[|run| - 1].now <= now
    ensures SeatAfter(run, viewer).value.overSince.value <= now
  {
    var earlier, step := run[..|run| - 1], run[|run| - 1];
    SeatAfterStep(run, viewer);
    if SeatAfter(earlier, viewer).value.overSince.Some? {
      OverSinceThePast(earlier, viewer, now);
    }
  }

  lemma {:induction false} StuckIsNoted(run: seq<Step>, viewer: string, from: nat)
    requires Timed(run) && StuckAtFrame(run, viewer, from)
    ensures
      var seat := SeatAfter(run, viewer);
      seat.Some? && seat.value.overSince.Some? && seat.value.overSince.value <= run[from].now
  {
    assert run[..|run|] == run;
    var earlier, step := run[..|run| - 1], run[|run| - 1];
    StuckEarlier(run, viewer, from);
    SeatAfterStep(run, viewer);
    assert earlier[..|earlier|] == earlier;
    if from < |earlier| {
      assert StuckAtFrame(earlier, viewer, from);
      StuckIsNoted(earlier, viewer, from);
    } else if SeatAfter(earlier, viewer).value.overSince.Some? {
      OverSinceThePast(earlier, viewer, step.now);
    }
  }

  /**
   A frame drops a viewer exactly when the viewer had too much on its way at a frame that came at
   least `HOPELESS` before, and has had it without a break since, in the same seat.
   */
  lemma DroppedExactlyWhenStuck(run: seq<Step>, viewer: string, id: nat, key: bool, bytes: nat, now: nat)
    requires Timed(run + [Step(NewFrame(id, key, bytes), now)]) && SeatAfter(run, viewer).Some?
    ensures SeatAfter(run + [Step(NewFrame(id, key, bytes), now)], viewer).None?
            <==> exists from: nat :: StuckAtFrame(run, viewer, from) && Since(now, run[from].now) >= HOPELESS
  {
    var step := Step(NewFrame(id, key, bytes), now);
    var more, seat := run + [step], SeatAfter(run, viewer).value;
    assert more[..|run|] == run;
    assert Timed(run) && forall i :: 0 <= i < |run| ==> more[i] == run[i];
    SeatAfterStep(more, viewer);
    assert SeatAfter(more, viewer).None? <==> Hopeless(seat, now);
    if Hopeless(seat, now) {
      OverSinceAFrame(run, viewer);
    }
    if from: nat :| StuckAtFrame(run, viewer, from) && Since(now, run[from].now) >= HOPELESS {
      assert run[..|run|] == run;
      StuckIsNoted(run, viewer, from);
    }
  }

  /** Nothing goes to a viewer that is stuck. */
  lemma StuckGetsNothing(run: seq<Step>, viewer: string, from: nat, i: nat)
    requires StuckAtFrame(run, viewer, from) && from <= i < |run| && run[i].event.NewFrame?
    ensures !Takes(SeatAfter(run[..i], viewer).value, run[i].event.key)
    ensures SeatAfter(run[..i + 1], viewer).value.sent == SeatAfter(run[..i], viewer).value.sent
  {
    var more := run[..i + 1];
    assert more[..|more| - 1] == run[..i] && more[|more| - 1] == run[i];
    SeatAfterStep(more, viewer);
  }
}
