/** The bitrate controller over runs: its bounds, its pace, and how long congestion or calm take it. */
module BitrateRuns {
  import opened Wrappers
  import opened FlowStates
  import opened Sizes
  import opened FlowRuns

  /** One steer: the longest queue of the viewers that get frames, if any, and the time. */
  datatype Tick = Tick(queue: Option<nat>, now: nat)

  const START := Controller(FIRST_BITRATE, None, None)

  function ControlFrom(control: Controller, ticks: seq<Tick>): Controller {
    if ticks == [] then control
    else
      var last := ticks[|ticks| - 1];
      Steered(ControlFrom(control, ticks[..|ticks| - 1]), last.queue, last.now)
  }

  /** The steers of a run. */
  ghost function Ticks(run: seq<Step>): seq<Tick> {
    if run == [] then []
    else
      var earlier, step := run[..|run| - 1], run[|run| - 1];
      if step.event.Steer? then Ticks(earlier) + [Tick(Greatest(LiveQueues(After(earlier).seats)), step.now)]
      else Ticks(earlier)
  }

  /** Only the steers of a run move its controller. */
  lemma {:induction false} ControlFollowsTheSteers(run: seq<Step>)
    ensures After(run).control == ControlFrom(START, Ticks(run))
  {
    if run == [] {
    } else {
      var earlier, step := run[..|run| - 1], run[|run| - 1];
      ControlFollowsTheSteers(earlier);
      if step.event.Steer? {
        var ticks := Ticks(run);
        assert ticks[..|ticks| - 1] == Ticks(earlier);
      }
    }
  }

  predicate InBounds(bitrate: nat) {
    LOWEST_BITRATE <= bitrate <= HIGHEST_BITRATE
  }

  lemma {:induction false} BitrateStaysInBounds(control: Controller, ticks: seq<Tick>)
    requires InBounds(control.bitrate)
    ensures InBounds(ControlFrom(control, ticks).bitrate)
  {
    if ticks == [] {
    } else {
      BitrateStaysInBounds(control, ticks[..|ticks| - 1]);
    }
  }

  // ----- The pace -----

  predicate TicksTimed(ticks: seq<Tick>) {
    forall i, j :: 0 <= i < j < |ticks| ==> ticks[i].now <= ticks[j].now
  }

  function Before(control: Controller, ticks: seq<Tick>, i: nat): Controller
    requires i < |ticks|
  {
    ControlFrom(control, ticks[..i])
  }

  /** Whether a steer comes late enough after the one before to look at the viewers. */
  predicate Looks(control: Controller, ticks: seq<Tick>, i: nat)
    requires i < |ticks|
  {
    Long(Before(control, ticks, i).steeredAt, ticks[i].now, STEER_EVERY)
  }

  /** What a steer makes of the bitrate. */
  function Change(control: Controller, ticks: seq<Tick>, i: nat): int
    requires i < |ticks|
  {
    Steered(Before(control, ticks, i), ticks[i].queue, ticks[i].now).bitrate - Before(control, ticks, i).bitrate
  }

  lemma AfterTick(control: Controller, ticks: seq<Tick>, i: nat)
    requires i < |ticks|
    ensures ControlFrom(control, ticks[..i + 1]) == Steered(Before(control, ticks, i), ticks[i].queue, ticks[i].now)
  {
    assert ticks[..i + 1][..i] == ticks[..i];
  }

  lemma {:induction false} LooksAreRemembered(control: Controller, ticks: seq<Tick>, i: nat, j: nat)
    requires TicksTimed(ticks) && i < j <= |ticks| && Looks(control, ticks, i)
    ensures
      var steeredAt := ControlFrom(control, ticks[..j]).steeredAt;
      steeredAt.Some? && ticks[i].now <= steeredAt.value <= ticks[j - 1].now
  {
    AfterTick(control, ticks, j - 1);
    if i == j - 1 {
    } else {
      LooksAreRemembered(control, ticks, i, j - 1);
    }
  }

  /** Two changes of the bitrate lie at least `STEER_EVERY` apart. */
  lemma ChangesAreApart(control: Controller, ticks: seq<Tick>, i: nat, j: nat)
    requires TicksTimed(ticks) && i < j < |ticks| && InBounds(control.bitrate)
    requires Change(control, ticks, i) != 0 && Change(control, ticks, j) != 0
    ensures ticks[j].now - ticks[i].now >= STEER_EVERY
  {
    LooksAreRemembered(control, ticks, i, j);
  }

  lemma {:induction false} CutsAreRemembered(control: Controller, ticks: seq<Tick>, i: nat, j: nat)
    requires TicksTimed(ticks) && i < j <= |ticks| && Looks(control, ticks, i) && Congested(ticks[i].queue)
    ensures
      var cutAt := ControlFrom(control, ticks[..j]).cutAt;
      cutAt.Some? && ticks[i].now <= cutAt.value <= ticks[j - 1].now
  {
    AfterTick(control, ticks, j - 1);
    if i == j - 1 {
    } else {
      CutsAreRemembered(control, ticks, i, j - 1);
    }
  }

  /** The bitrate rises no sooner than `RISE_AFTER` after a steer that found congestion. */
  lemma NoRiseSoonAfterCongestion(control: Controller, ticks: seq<Tick>, i: nat, j: nat)
    requires TicksTimed(ticks) && i < j < |ticks| && InBounds(control.bitrate)
    requires Looks(control, ticks, i) && Congested(ticks[i].queue)
    requires Change(control, ticks, j) > 0
    ensures ticks[j].now - ticks[i].now >= RISE_AFTER
  {
    CutsAreRemembered(control, ticks, i, j);
    BitrateStaysInBounds(control, ticks[..j]);
  }

  // ----- How long congestion and calm take -----

  function LookCount(control: Controller, ticks: seq<Tick>): nat {
    if ticks == [] then 0
    else
      var last := |ticks| - 1;
      LookCount(control, ticks[..last]) + if Looks(control, ticks, last) then 1 else 0
  }

  function CutTimes(bitrate: nat, n: nat): nat {
    if n == 0 then bitrate else Cut(CutTimes(bitrate, n - 1))
  }

  function RaisedTimes(bitrate: nat, n: nat): nat {
    if n == 0 then bitrate else Raised(RaisedTimes(bitrate, n - 1))
  }

  const CUTS_TO_LOWEST: nat := 17
  const RAISES_TO_HIGHEST: nat := 84

  lemma {:induction false} TimesStayInBounds(bitrate: nat, n: nat)
    requires InBounds(bitrate)
    ensures InBounds(CutTimes(bitrate, n)) && InBounds(RaisedTimes(bitrate, n))
  {
    if n == 0 {
    } else {
      TimesStayInBounds(bitrate, n - 1);
    }
  }

  /** Three cuts leave at most 64 parts of 125, until the lowest bitrate. */
  lemma ThreeCuts(bitrate: nat, n: nat, most: nat, next: nat)
    requires InBounds(bitrate) && CutTimes(bitrate, n) <= most
    requires 64 * most <= 125 * next && LOWEST_BITRATE <= next
    ensures CutTimes(bitrate, n + 3) <= next
  {
    TimesStayInBounds(bitrate, n);
    var first := CutTimes(bitrate, n + 1);
    var second := CutTimes(bitrate, n + 2);
    assert first == LOWEST_BITRATE || 5 * first <= 4 * most;
    assert second == LOWEST_BITRATE || 25 * second <= 16 * most;
  }

  lemma {:induction false} LowestStays(bitrate: nat, m: nat, n: nat)
    requires CutTimes(bitrate, m) == LOWEST_BITRATE && m <= n
    ensures CutTimes(bitrate, n) == LOWEST_BITRATE
  {
    if m == n {
    } else {
      LowestStays(bitrate, m, n - 1);
    }
  }

  /** Seventeen cuts take any bitrate to the lowest. */
  lemma SeventeenCuts(bitrate: nat, n: nat)
    requires InBounds(bitrate) && n >= CUTS_TO_LOWEST
    ensures CutTimes(bitrate, n) == LOWEST_BITRATE
  {
    ThreeCuts(bitrate, 0, 40_000_000, 20_480_000);
    ThreeCuts(bitrate, 3, 20_480_000, 10_485_760);
    ThreeCuts(bitrate, 6, 10_485_760, 5_368_710);
    ThreeCuts(bitrate, 9, 5_368_710, 2_748_780);
    ThreeCuts(bitrate, 12, 2_748_780, 1_407_376);
    assert CutTimes(bitrate, 16) == Cut(CutTimes(bitrate, 15)) && CutTimes(bitrate, 17) == Cut(CutTimes(bitrate, 16));
    TimesStayInBounds(bitrate, 17);
    LowestStays(bitrate, 17, n);
  }

  /** Raises of a bitrate add at least a sixteenth of it each, until the highest. */
  lemma {:induction false} RaisesAdd(bitrate: nat, start: nat, step: nat, n: nat, m: nat)
    requires InBounds(bitrate) && RaisedTimes(bitrate, n) >= start >= 16 * step
    ensures RaisedTimes(bitrate, n + m) >= Min(HIGHEST_BITRATE, start + m * step)
    ensures RaisedTimes(bitrate, n + m) >= start || RaisedTimes(bitrate, n + m) == HIGHEST_BITRATE
  {
    TimesStayInBounds(bitrate, n + m);
    if m == 0 {
    } else {
      RaisesAdd(bitrate, start, step, n, m - 1);
      TimesStayInBounds(bitrate, n + m - 1);
      var before := RaisedTimes(bitrate, n + m - 1);
      assert RaisedTimes(bitrate, n + m) == Raised(before);
      assert before < HIGHEST_BITRATE ==> before / 16 >= step;
      assert m * step == (m - 1) * step + step;
    }
  }

  lemma {:induction false} HighestStays(bitrate: nat, m: nat, n: nat)
    requires RaisedTimes(bitrate, m) == HIGHEST_BITRATE && m <= n
    ensures RaisedTimes(bitrate, n) == HIGHEST_BITRATE
  {
    if m == n {
    } else {
      HighestStays(bitrate, m, n - 1);
    }
  }

  lemma FortyEight(bitrate: nat)
    requires InBounds(bitrate)
    ensures RaisedTimes(bitrate, 48) >= 8_000_000
  {
    RaisesAdd(bitrate, 1_000_000, 62_500, 0, 16);
    RaisesAdd(bitrate, 2_000_000, 125_000, 16, 16);
    RaisesAdd(bitrate, 4_000_000, 250_000, 32, 16);
  }

  lemma EightyFour(bitrate: nat)
    requires InBounds(bitrate)
    ensures RaisedTimes(bitrate, RAISES_TO_HIGHEST) == HIGHEST_BITRATE
  {
    FortyEight(bitrate);
    RaisesAdd(bitrate, 8_000_000, 500_000, 48, 16);
    RaisesAdd(bitrate, 16_000_000, 1_000_000, 64, 16);
    RaisesAdd(bitrate, 32_000_000, 2_000_000, 80, 4);
    TimesStayInBounds(bitrate, RAISES_TO_HIGHEST);
  }

  /** Each raise is strict until the highest bitrate, and 84 of them take any bitrate there. */
  lemma EightyFourRaises(bitrate: nat, n: nat)
    requires InBounds(bitrate)
    ensures bitrate < HIGHEST_BITRATE ==> Raised(bitrate) > bitrate
    ensures n >= RAISES_TO_HIGHEST ==> RaisedTimes(bitrate, n) == HIGHEST_BITRATE
  {
    if n >= RAISES_TO_HIGHEST {
      EightyFour(bitrate);
      HighestStays(bitrate, RAISES_TO_HIGHEST, n);
    }
  }

  /** Every steer that looks finds congestion. */
  predicate AllCongested(control: Controller, ticks: seq<Tick>) {
    forall i :: 0 <= i < |ticks| && Looks(control, ticks, i) ==> Congested(ticks[i].queue)
  }

  /** Every steer that looks finds calm, long enough after the last cut before them all. */
  predicate AllCalm(control: Controller, ticks: seq<Tick>) {
    forall i :: 0 <= i < |ticks| && Looks(control, ticks, i) ==>
      Calm(ticks[i].queue) && Long(control.cutAt, ticks[i].now, RISE_AFTER)
  }

  lemma LooksEarlier(control: Controller, ticks: seq<Tick>, i: nat)
    requires i + 1 < |ticks|
    ensures Before(control, ticks[..|ticks| - 1], i) == Before(control, ticks, i)
    ensures Looks(control, ticks[..|ticks| - 1], i) == Looks(control, ticks, i)
  {
    assert ticks[..|ticks| - 1][..i] == ticks[..i];
  }

  lemma {:induction false} CongestionCuts(control: Controller, ticks: seq<Tick>)
    requires AllCongested(control, ticks)
    ensures ControlFrom(control, ticks).bitrate == CutTimes(control.bitrate, LookCount(control, ticks))
  {
    if ticks == [] {
    } else {
      var last, earlier := |ticks| - 1, ticks[..|ticks| - 1];
      forall i: nat | i < |earlier| && Looks(control, earlier, i) ensures Congested(earlier[i].queue) {
        LooksEarlier(control, ticks, i);
      }
      CongestionCuts(control, earlier);
    }
  }

  lemma AllCalmEarlier(control: Controller, ticks: seq<Tick>)
    requires AllCalm(control, ticks) && ticks != []
    ensures AllCalm(control, ticks[..|ticks| - 1])
  {
    var earlier := ticks[..|ticks| - 1];
    forall i: nat | i < |earlier| && Looks(control, earlier, i)
      ensures Calm(earlier[i].queue) && Long(control.cutAt, earlier[i].now, RISE_AFTER)
    {
      LooksEarlier(control, ticks, i);
    }
  }

  /** Calm cuts nothing, so every look raises the bitrate. */
  lemma {:induction false} CalmRaises(control: Controller, ticks: seq<Tick>)
    requires AllCalm(control, ticks) && InBounds(control.bitrate)
    ensures ControlFrom(control, ticks).bitrate == RaisedTimes(control.bitrate, LookCount(control, ticks))
    ensures ControlFrom(control, ticks).cutAt == control.cutAt
  {
    if ticks == [] {
    } else {
      AllCalmEarlier(control, ticks);
      CalmRaises(control, ticks[..|ticks| - 1]);
    }
  }

  /** Congestion at every steer takes the bitrate to the lowest in seventeen steers. */
  lemma CongestionReachesTheLowest(control: Controller, ticks: seq<Tick>)
    requires InBounds(control.bitrate) && AllCongested(control, ticks)
    requires LookCount(control, ticks) >= CUTS_TO_LOWEST
    ensures ControlFrom(control, ticks).bitrate == LOWEST_BITRATE
  {
    CongestionCuts(control, ticks);
    SeventeenCuts(control.bitrate, LookCount(control, ticks));
  }

  /** Lasting calm takes the bitrate to the highest. */
  lemma CalmReachesTheHighest(control: Controller, ticks: seq<Tick>)
    requires InBounds(control.bitrate) && AllCalm(control, ticks)
    requires LookCount(control, ticks) >= RAISES_TO_HIGHEST
    ensures ControlFrom(control, ticks).bitrate == HIGHEST_BITRATE
  {
    CalmRaises(control, ticks);
    EightyFourRaises(control.bitrate, LookCount(control, ticks));
  }

  // ----- Runs of the flow -----

  lemma {:induction false} TicksGrow(run: seq<Step>, i: nat)
    requires i <= |run|
    ensures Ticks(run[..i]) <= Ticks(run)
  {
    if i == |run| {
      assert run[..i] == run;
    } else {
      assert run[..|run| - 1][..i] == run[..i];
      TicksGrow(run[..|run| - 1], i);
    }
  }

  /** A steer of a run is the next of its ticks. */
  lemma TickOf(run: seq<Step>, i: nat)
    requires i < |run| && run[i].event.Steer?
    ensures
      var ticks, k := Ticks(run), |Ticks(run[..i])|;
      k < |ticks| && ticks[..k] == Ticks(run[..i])
      && ticks[k] == Tick(Greatest(LiveQueues(After(run[..i]).seats)), run[i].now)
  {
    TicksGrow(run, i);
    TicksGrow(run, i + 1);
    assert run[..i + 1][..i] == run[..i];
  }

  lemma {:induction false} TicksAreTimed(run: seq<Step>)
    requires Timed(run)
    ensures TicksTimed(Ticks(run))
    ensures forall i :: 0 <= i < |Ticks(run)| ==> run != [] && Ticks(run)[i].now <= run[|run| - 1].now
  {
    if run == [] {
    } else {
      var earlier := run[..|run| - 1];
      TicksAreTimed(earlier);
      assert earlier != [] ==> earlier[|earlier| - 1].now <= run[|run| - 1].now;
    }
  }

  lemma OnlySteersSteer(flow: FlowState, step: Step)
    requires flow.Accounted() && !step.event.Steer?
    ensures Next(flow, step).control == flow.control
  {
  }

  /** What a step of a run makes of the bitrate. */
  ghost function StepChange(run: seq<Step>, i: nat): int
    requires i < |run|
  {
    After(run[..i + 1]).control.bitrate - After(run[..i]).control.bitrate
  }

  /** Only a steer changes the bitrate, as its tick does. */
  lemma ChangeOfStep(run: seq<Step>, i: nat)
    requires i < |run|
    ensures !run[i].event.Steer? ==> StepChange(run, i) == 0
    ensures run[i].event.Steer? ==>
      var k := |Ticks(run[..i])|;
      k < |Ticks(run)| && Before(START, Ticks(run), k) == After(run[..i]).control
      && Change(START, Ticks(run), k) == StepChange(run, i)
  {
    assert run[..i + 1][..i] == run[..i];
    if run[i].event.Steer? {
      TickOf(run, i);
      ControlFollowsTheSteers(run[..i]);
    } else {
      OnlySteersSteer(After(run[..i]), run[i]);
    }
  }

  lemma LaterTicks(run: seq<Step>, i: nat, j: nat)
    requires i < j < |run| && run[i].event.Steer?
    ensures |Ticks(run[..i])| < |Ticks(run[..j])|
  {
    assert run[..i + 1][..i] == run[..i] && run[..j][..i + 1] == run[..i + 1];
    TicksGrow(run[..j], i + 1);
  }

  lemma RunsStayInBounds(run: seq<Step>)
    ensures InBounds(After(run).control.bitrate)
  {
    ControlFollowsTheSteers(run);
    BitrateStaysInBounds(START, Ticks(run));
  }

  /** In every run, two changes of the bitrate lie at least `STEER_EVERY` apart. */
  lemma RunChangesAreApart(run: seq<Step>, i: nat, j: nat)
    requires Timed(run) && i < j < |run| && StepChange(run, i) != 0 && StepChange(run, j) != 0
    ensures run[j].now - run[i].now >= STEER_EVERY
  {
    ChangeOfStep(run, i);
    ChangeOfStep(run, j);
    TickOf(run, i);
    TickOf(run, j);
    LaterTicks(run, i, j);
    TicksAreTimed(run);
    ChangesAreApart(START, Ticks(run), |Ticks(run[..i])|, |Ticks(run[..j])|);
  }

  /** In every run, the bitrate rises no sooner than `RISE_AFTER` after a steer that looked and found congestion. */
  lemma RunRisesWait(run: seq<Step>, i: nat, j: nat)
    requires Timed(run) && i < j < |run| && run[i].event.Steer? && StepChange(run, j) > 0
    requires
      var flow := After(run[..i]);
      Long(flow.control.steeredAt, run[i].now, STEER_EVERY) && Congested(Greatest(LiveQueues(flow.seats)))
    ensures run[j].now - run[i].now >= RISE_AFTER
  {
    ChangeOfStep(run, i);
    ChangeOfStep(run, j);
    TickOf(run, i);
    TickOf(run, j);
    LaterTicks(run, i, j);
    TicksAreTimed(run);
    NoRiseSoonAfterCongestion(START, Ticks(run), |Ticks(run[..i])|, |Ticks(run[..j])|);
  }
}
