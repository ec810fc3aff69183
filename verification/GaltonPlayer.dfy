/** Whole playback runs, and the mutable player that performs them. */
module GaltonPlayer {
  import opened Prelude
  import opened GaltonEngine
  import opened GaltonPaths
  import opened GaltonSimulation
  import opened GaltonPlayback

  /** A frame of the animation loop, or the listener that clears the traces when motion is reduced. */
  datatype Input = Tick(deltaMs: Num, speed: Speed, reducedMotion: bool) | MotionReduced

  lemma InitialIsInv(sim: Simulation)
    requires WellFormed(sim)
    ensures Inv(sim, Initial(sim))
  {
    ZerosTotal(sim.config.rows + 1);
  }

  lemma {:induction false} ZerosTotal(n: nat)
    ensures Total(Zeros(n)) == 0
  {
    if n > 0 {
      ZerosTotal(n - 1);
      assert Zeros(n)[..n - 1] == Zeros(n - 1);
    }
  }

  ghost function Step(sim: Simulation, s: State, input: Input): (next: State)
    requires Inv(sim, s)
    ensures Inv(sim, next)
  {
    match input
    case Tick(delta, speed, reduced) => Advance(sim, s, delta, speed, reduced)
    case MotionReduced => s.(particles := [])
  }

  /** Any sequence of frames, speed changes, odd deltas and motion changes from a fresh player. */
  ghost function Play(sim: Simulation, inputs: seq<Input>): (s: State)
    requires WellFormed(sim)
    ensures Inv(sim, s)
  {
    if inputs == [] then InitialIsInv(sim); Initial(sim)
    else Step(sim, Play(sim, inputs[..|inputs| - 1]), inputs[|inputs| - 1])
  }

  // ---------------------------------------------------------------- conservation

  ghost predicate InAir(cohorts: seq<Cohort>, ball: nat) {
    exists c :: c in cohorts && c.start <= ball < c.end
  }

  /** The released balls of one bin that no cohort holds any more. */
  ghost function SettledCount(outcomes: seq<nat>, bin: nat, cohorts: seq<Cohort>, n: nat): nat
    requires n <= |outcomes|
  {
    if n == 0 then 0
    else SettledCount(outcomes, bin, cohorts, n - 1) +
         if outcomes[n - 1] == bin && !InAir(cohorts, n - 1) then 1 else 0
  }

  lemma {:induction false} AirborneRun(outcomes: seq<nat>, bin: nat, cohorts: seq<Cohort>, c: Cohort, n: nat)
    requires c in cohorts && c.start <= n <= c.end && n <= |outcomes|
    ensures SettledCount(outcomes, bin, cohorts, n) == SettledCount(outcomes, bin, cohorts, c.start)
  {
    if n > c.start { AirborneRun(outcomes, bin, cohorts, c, n - 1); }
  }

  lemma {:induction false} LaterCohortIrrelevant(outcomes: seq<nat>, bin: nat, cohorts: seq<Cohort>, last: Cohort, n: nat)
    requires n <= last.start && n <= |outcomes|
    ensures SettledCount(outcomes, bin, cohorts + [last], n) == SettledCount(outcomes, bin, cohorts, n)
  {
    if n > 0 {
      LaterCohortIrrelevant(outcomes, bin, cohorts, last, n - 1);
      assert InAir(cohorts + [last], n - 1) <==> InAir(cohorts, n - 1);
    }
  }

  lemma {:induction false} SettledPlusAirborne(outcomes: seq<nat>, bin: nat, cohorts: seq<Cohort>, n: nat)
    requires Ordered(cohorts, n) && n <= |outcomes| && InRange(cohorts, |outcomes|)
    ensures SettledCount(outcomes, bin, cohorts, n) + CountIn(outcomes, bin, cohorts) == Count(outcomes, bin, 0, n)
    decreases |cohorts|, n
  {
    if cohorts == [] {
      if n > 0 { SettledPlusAirborne(outcomes, bin, cohorts, n - 1); }
    } else {
      var init, last := cohorts[..|cohorts| - 1], cohorts[|cohorts| - 1];
      if n > last.end {
        SettledPlusAirborne(outcomes, bin, cohorts, n - 1);
        OrderedInRange(cohorts, last.end, last.end);
        assert !InAir(cohorts, n - 1);
      } else {
        SettledPlusAirborne(outcomes, bin, init, last.start);
        AirborneRun(outcomes, bin, cohorts, last, n);
        assert cohorts == init + [last];
        LaterCohortIrrelevant(outcomes, bin, init, last, last.start);
        CountSplits(outcomes, bin, 0, last.start, n);
      }
    }
  }

  lemma {:induction false} CohortsAreDisjoint(cohorts: seq<Cohort>, bound: nat, i: nat, j: nat)
    requires Ordered(cohorts, bound) && i < j < |cohorts|
    ensures cohorts[i].start < cohorts[i].end <= cohorts[j].start < cohorts[j].end <= bound
  {
    var last := cohorts[|cohorts| - 1];
    if j < |cohorts| - 1 {
      CohortsAreDisjoint(cohorts[..|cohorts| - 1], last.start, i, j);
    } else {
      OrderedInRange(cohorts[..|cohorts| - 1], last.start, last.start);
      EveryCohortNonempty(cohorts, bound, i);
      assert cohorts[i] in cohorts[..|cohorts| - 1];
    }
  }

  lemma {:induction false} EveryCohortNonempty(cohorts: seq<Cohort>, bound: nat, i: nat)
    requires Ordered(cohorts, bound) && i < |cohorts|
    ensures cohorts[i].start < cohorts[i].end
  {
    if i < |cohorts| - 1 { EveryCohortNonempty(cohorts[..|cohorts| - 1], cohorts[|cohorts| - 1].start, i); }
  }

  /** On every run the cohorts are disjoint stretches of the released balls, the histogram counts
      exactly the balls outside them, and its total is the number processed. */
  lemma BinsCountTheSettled(sim: Simulation, inputs: seq<Input>)
    requires WellFormed(sim)
    ensures var s := Play(sim, inputs);
            && s.processed <= s.released <= sim.config.ballCount
            && |s.bins| == sim.config.rows + 1 && Total(s.bins) == s.processed
            && (forall i, j :: 0 <= i < j < |s.cohorts| ==>
                 s.cohorts[i].start < s.cohorts[i].end <= s.cohorts[j].start < s.cohorts[j].end <= s.released)
            && (forall bin :: 0 <= bin <= sim.config.rows ==>
                 s.bins[bin] == SettledCount(sim.outcomes, bin, s.cohorts, s.released))
  {
    var s := Play(sim, inputs);
    FlyingStaysOrdered(s.cohorts, s.time, s.released);
    forall i: nat, j: nat | i < j < |s.cohorts|
      ensures s.cohorts[i].start < s.cohorts[i].end <= s.cohorts[j].start < s.cohorts[j].end <= s.released
    {
      CohortsAreDisjoint(s.cohorts, s.released, i, j);
    }
    forall bin | 0 <= bin <= sim.config.rows
      ensures s.bins[bin] == SettledCount(sim.outcomes, bin, s.cohorts, s.released)
    {
      SettledPlusAirborne(sim.outcomes, bin, s.cohorts, s.released);
    }
  }

  lemma EmptyAir(cohorts: seq<Cohort>, bound: nat)
    requires Ordered(cohorts, bound) && Size(cohorts) <= 0
    ensures cohorts == []
  {
    if cohorts != [] { FlyingStaysOrdered(cohorts[..|cohorts| - 1], 0.0, cohorts[|cohorts| - 1].start); }
  }

  lemma CarrierOf(particles: seq<ActiveParticle>, cohorts: seq<Cohort>, p: ActiveParticle) returns (c: Cohort)
    requires TracesFly(particles, cohorts) && p in particles
    ensures c in cohorts && Carries(p, c)
  {
    c :| c in cohorts && Carries(p, c);
  }

  lemma NoAirNoTraces(particles: seq<ActiveParticle>, cohorts: seq<Cohort>)
    requires TracesFly(particles, cohorts) && cohorts == []
    ensures particles == []
  {
    if particles != [] {
      var c := CarrierOf(particles, cohorts, particles[0]);
      assert false;
    }
  }

  lemma CompleteState(sim: Simulation, s: State)
    requires Inv(sim, s) && Complete(sim, s)
    ensures s.released == sim.config.ballCount && s.cohorts == [] && s.particles == []
    ensures forall bin :: 0 <= bin <= sim.config.rows ==>
              s.bins[bin] == Count(sim.outcomes, bin, 0, sim.config.ballCount)
  {
    FlyingStaysOrdered(s.cohorts, s.time, s.released);
    EmptyAir(s.cohorts, s.released);
    NoAirNoTraces(s.particles, s.cohorts);
  }

  /** A complete player has released everything, holds no cohort and no trace, and shows the
      histogram of all outcomes. */
  lemma CompletionShowsEverything(sim: Simulation, inputs: seq<Input>)
    requires WellFormed(sim) && Complete(sim, Play(sim, inputs))
    ensures var s := Play(sim, inputs);
            && s.released == sim.config.ballCount && s.cohorts == [] && s.particles == []
            && forall bin :: 0 <= bin <= sim.config.rows ==>
                 s.bins[bin] == Count(sim.outcomes, bin, 0, sim.config.ballCount)
  {
    CompleteState(sim, Play(sim, inputs));
  }

  /** The sample of animated balls is bounded, repeats no ball, and shows only balls still in the air. */
  lemma TracesAreInFlight(sim: Simulation, inputs: seq<Input>)
    requires WellFormed(sim)
    ensures var s := Play(sim, inputs);
            && |s.particles| <= 800 && DistinctBalls(s.particles)
            && forall p :: p in s.particles ==> InAir(s.cohorts, p.index) && s.time - p.startedAt < p.duration
  {
    var s := Play(sim, inputs);
    forall p | p in s.particles ensures InAir(s.cohorts, p.index) && s.time - p.startedAt < p.duration {
      var c :| c in s.cohorts && Carries(p, c);
    }
  }

  // ---------------------------------------------------------------- termination

  /** The part of a frame's time that playback takes: at most 50 ms, and nothing from odd deltas. */
  function Taken(delta: Num): real {
    match delta
    case Finite(ms) => if ms <= 0.0 then 0.0 else if ms <= 50.0 then ms else 50.0
    case NotFinite => 0.0
  }

  function Offered(input: Input): real {
    if input.Tick? then Taken(input.deltaMs) else 0.0
  }

  /** Playback time offered by a run, frame by frame. */
  function Played(inputs: seq<Input>): real {
    if inputs == [] then 0.0 else Played(inputs[..|inputs| - 1]) + Offered(inputs[|inputs| - 1])
  }

  lemma StepKeepsTime(sim: Simulation, s: State, input: Input)
    requires Inv(sim, s)
    ensures Complete(sim, s) ==> Complete(sim, Step(sim, s, input))
    ensures !Complete(sim, s) ==> Step(sim, s, input).time == s.time + Offered(input)
  {
    hide Inv, Settle, Flying, Size, Kept, Samples, Departed, Landable;
  }

  lemma {:induction false} ClockIsExact(sim: Simulation, inputs: seq<Input>)
    requires WellFormed(sim)
    ensures Complete(sim, Play(sim, inputs)) || Play(sim, inputs).time == Played(inputs)
  {
    if inputs != [] {
      var before := inputs[..|inputs| - 1];
      ClockIsExact(sim, before);
      StepKeepsTime(sim, Play(sim, before), inputs[|inputs| - 1]);
    }
  }

  lemma LateMeansComplete(sim: Simulation, s: State)
    requires Inv(sim, s) && s.time >= Deadline(sim)
    ensures Complete(sim, s)
  {
    assert forall c :: c !in s.cohorts;
  }

  /** Every run that offers ballCount / 0.6 + 2250 ms of playback finishes, whatever its speeds. */
  lemma PlaybackFinishes(sim: Simulation, inputs: seq<Input>)
    requires WellFormed(sim) && Played(inputs) >= sim.config.ballCount as real / 0.6 + 2_250.0
    ensures Complete(sim, Play(sim, inputs))
  {
    ClockIsExact(sim, inputs);
    if Play(sim, inputs).time == Played(inputs) {
      LateMeansComplete(sim, Play(sim, inputs));
    }
  }

  // ---------------------------------------------------------------- the release law

  /** Balls a millisecond, as the speeds promise. */
  function Rate(speed: Speed): real {
    match speed case Slow => 0.6 case Normal => 3.5 case Fast => 15.0
  }

  /** Milliseconds in the air, as the speeds promise. */
  function Air(speed: Speed): real {
    match speed case Slow => 2_200.0 case Normal => 1_350.0 case Fast => 760.0
  }

  /** What so much time is worth, in balls. */
  function Worth(speed: Speed, ms: real): real { Rate(speed) * ms }

  function Earns(s: State, speed: Speed, ms: real): real { s.carry + Worth(speed, ms) }

  /** Balls earned by a frame's offered time. */
  function Due(input: Input): real {
    if input.Tick? then Worth(input.speed, Offered(input)) else 0.0
  }

  function AllDue(inputs: seq<Input>): real {
    if inputs == [] then 0.0 else AllDue(inputs[..|inputs| - 1]) + Due(inputs[|inputs| - 1])
  }

  lemma DueIsNonNegative(input: Input)
    ensures Due(input) >= 0.0
  {
  }

  /** Nothing is lost to rounding: until the last ball leaves, balls released and the fraction carried are
      together exactly what the frames were due; after that at least as much was due. */
  ghost predicate Accounted(sim: Simulation, s: State, due: real) {
    if s.released < sim.config.ballCount then s.released as real + s.carry == due
    else due >= sim.config.ballCount as real
  }

  /** What one frame's release does to the count and the carry. */
  lemma ReleaseFields(sim: Simulation, s: State, delta: real, speed: Speed, reducedMotion: bool)
    requires s.carry >= 0.0 && delta > 0.0 && s.released <= sim.config.ballCount
    ensures var r, earned := Release(sim, s, delta, speed, reducedMotion), Earns(s, speed, delta);
            && r.carry == earned - earned.Floor as real && r.time == s.time + delta
            && r.released == Min(sim.config.ballCount, s.released + earned.Floor)
  {
    hide Kept, Samples, TraceCount;
    assert Earned(speed, delta) == Worth(speed, delta);
    hide Earned;
  }

  /** A frame is its release and then its landings, or nothing. */
  lemma AdvanceFields(sim: Simulation, s: State, delta: Num, speed: Speed, reducedMotion: bool)
    requires Inv(sim, s)
    ensures var n, r := Advance(sim, s, delta, speed, reducedMotion), Release(sim, s, Taken(delta), speed, reducedMotion);
            if Complete(sim, s) || Taken(delta) == 0.0 then n == s
            else n.released == r.released && n.carry == r.carry && n.time == r.time && n.cohorts == Flying(r.cohorts, r.time)
  {
    hide Inv, Release, Settle, Flying, Size, Landable;
  }

  lemma Basics(sim: Simulation, s: State)
    requires Inv(sim, s)
    ensures s.released <= sim.config.ballCount && 0.0 <= s.carry < 1.0 && s.processed <= s.released
    ensures forall c :: c in s.cohorts ==> c.landsAt > s.time
  {
    SizeIsNonNegative(s.cohorts, s.released);
  }

  lemma StepIsAccounted(sim: Simulation, s: State, input: Input, due: real)
    requires Inv(sim, s) && Accounted(sim, s, due)
    ensures Accounted(sim, Step(sim, s, input), due + Due(input))
  {
    hide Inv, Release, Advance, Flying;
    Basics(sim, s);
    DueIsNonNegative(input);
    if input.Tick? {
      AdvanceFields(sim, s, input.deltaMs, input.speed, input.reducedMotion);
      if Taken(input.deltaMs) > 0.0 { ReleaseFields(sim, s, Taken(input.deltaMs), input.speed, input.reducedMotion); }
    }
  }

  lemma {:induction false} SizeIsNonNegative(cohorts: seq<Cohort>, bound: nat)
    requires Ordered(cohorts, bound)
    ensures 0 <= Size(cohorts)
  {
    if cohorts != [] { SizeIsNonNegative(cohorts[..|cohorts| - 1], cohorts[|cohorts| - 1].start); }
  }

  lemma {:induction false} RunIsAccounted(sim: Simulation, inputs: seq<Input>)
    requires WellFormed(sim)
    ensures Accounted(sim, Play(sim, inputs), AllDue(inputs))
  {
    if inputs != [] {
      var before := inputs[..|inputs| - 1];
      hide Accounted, Due;
      RunIsAccounted(sim, before);
      StepIsAccounted(sim, Play(sim, before), inputs[|inputs| - 1], AllDue(before));
    }
  }

  /** Exactly how many balls have left, on every run: the whole part of the offered milliseconds times their rates,
      as far as there are balls. */
  lemma ReleasedExactly(sim: Simulation, inputs: seq<Input>)
    requires WellFormed(sim)
    ensures Play(sim, inputs).released == Min(sim.config.ballCount, AllDue(inputs).Floor)
  {
    RunIsAccounted(sim, inputs);
    var s := Play(sim, inputs);
    assert s.released <= sim.config.ballCount && 0.0 <= s.carry < 1.0;
    hide Inv;
  }

  /** A frame adds at most one cohort: the balls that leave in it, landing 2200, 1350 or 760 ms after the frame's
      time by its speed; and it drops exactly those due by then. */
  lemma FrameCohort(sim: Simulation, s: State, delta: Num, speed: Speed, reducedMotion: bool)
    requires Inv(sim, s)
    ensures var n := Advance(sim, s, delta, speed, reducedMotion);
            forall c :: c in n.cohorts <==>
              c.landsAt > n.time &&
              (c in s.cohorts || (s.released < n.released && c == Cohort(s.released, n.released, n.time + Air(speed))))
  {
    hide Inv, Flying, Advance, Release;
    Basics(sim, s);
    var r := Release(sim, s, Taken(delta), speed, reducedMotion);
    AdvanceFields(sim, s, delta, speed, reducedMotion);
    FlyingIsSub(r.cohorts, r.time);
    ReleasedCohort(sim, s, Taken(delta), speed, reducedMotion);
  }

  lemma ReleasedCohort(sim: Simulation, s: State, delta: real, speed: Speed, reducedMotion: bool)
    ensures var r := Release(sim, s, delta, speed, reducedMotion);
            r.released >= s.released &&
            r.cohorts == s.cohorts + if r.released > s.released then [Cohort(s.released, r.released, r.time + Air(speed))] else []
  {
    hide Kept, Samples, TraceCount, Departed;
  }

  // ---------------------------------------------------------------- constant speed

  /** Where a run at one speed stands: what has left is what the time was worth, and every cohort lands its air
      time after the moment its last ball was due, one frame of 50 ms late at most. */
  ghost predicate OnPace(sim: Simulation, s: State, speed: Speed) {
    var all := sim.config.ballCount;
    && (if s.released < all then s.released as real + s.carry == Worth(speed, s.time)
        else Worth(speed, s.time) >= all as real)
    && (forall c :: c in s.cohorts ==> PacedCohort(c, all, speed))
    && (s.released == all ==>
         Worth(speed, s.time - Air(speed)) >= all as real || exists c :: c in s.cohorts && c.end == all)
  }

  ghost predicate PacedCohort(c: Cohort, all: nat, speed: Speed) {
    && Worth(speed, c.landsAt - Air(speed)) >= c.end as real
    && Worth(speed, c.landsAt - Air(speed) - 50.0) <= all as real
  }

  /** What an effective frame of `d` milliseconds does, as far as pace is concerned. */
  ghost predicate Follows(sim: Simulation, s: State, n: State, speed: Speed, d: real) {
    && 0.0 < d <= 50.0 && n.time == s.time + d && 0.0 <= s.carry < 1.0 && s.released <= sim.config.ballCount
    && n.released == Min(sim.config.ballCount, s.released + Earns(s, speed, d).Floor)
    && n.carry == Earns(s, speed, d) - Earns(s, speed, d).Floor as real
    && forall c :: c in n.cohorts <==>
         c.landsAt > n.time &&
         (c in s.cohorts || (s.released < n.released && c == Cohort(s.released, n.released, n.time + Air(speed))))
  }

  lemma AdvanceFollows(sim: Simulation, s: State, delta: Num, speed: Speed, reducedMotion: bool)
    requires Inv(sim, s)
    ensures var n := Advance(sim, s, delta, speed, reducedMotion); n == s || Follows(sim, s, n, speed, Taken(delta))
  {
    hide Inv, Release, Advance, Flying, Earns, Air;
    Basics(sim, s);
    AdvanceFields(sim, s, delta, speed, reducedMotion);
    FrameCohort(sim, s, delta, speed, reducedMotion);
    if Taken(delta) > 0.0 { ReleaseFields(sim, s, Taken(delta), speed, reducedMotion); }
  }

  lemma TickKeepsPace(sim: Simulation, s: State, delta: Num, speed: Speed, reducedMotion: bool)
    requires Inv(sim, s) && OnPace(sim, s, speed)
    ensures OnPace(sim, Advance(sim, s, delta, speed, reducedMotion), speed)
  {
    hide Inv, Advance, PacedCohort, Follows, Worth, Air, Taken;
    var n := Advance(sim, s, delta, speed, reducedMotion);
    AdvanceFollows(sim, s, delta, speed, reducedMotion);
    if n != s {
      CountKeepsPace(sim, s, n, speed, Taken(delta));
      LastCohortLands(sim, s, n, speed, Taken(delta));
      CohortsKeepPace(sim, s, n, speed, Taken(delta));
    }
  }

  lemma CohortsKeepPace(sim: Simulation, s: State, n: State, speed: Speed, delta: real)
    requires OnPace(sim, s, speed) && Follows(sim, s, n, speed, delta)
    ensures forall c :: c in n.cohorts ==> PacedCohort(c, sim.config.ballCount, speed)
  {
    hide PacedCohort;
    if s.released < n.released { FreshCohortIsPaced(sim, s, n, speed, delta); }
    hide Rate, Air;
  }

  lemma FreshCohortIsPaced(sim: Simulation, s: State, n: State, speed: Speed, delta: real)
    requires OnPace(sim, s, speed) && Follows(sim, s, n, speed, delta) && s.released < n.released
    ensures PacedCohort(Cohort(s.released, n.released, n.time + Air(speed)), sim.config.ballCount, speed)
  {
    match speed
    case Slow =>
    case Normal =>
    case Fast =>
  }

  lemma CountKeepsPace(sim: Simulation, s: State, n: State, speed: Speed, delta: real)
    requires OnPace(sim, s, speed) && Follows(sim, s, n, speed, delta)
    ensures var all := sim.config.ballCount;
            if n.released < all then n.released as real + n.carry == Worth(speed, n.time) else Worth(speed, n.time) >= all as real
  {
    hide PacedCohort, Air;
    match speed
    case Slow =>
    case Normal =>
    case Fast =>
  }

  /** Once the last ball has left, its cohort is in the air, or has landed no earlier than its time. */
  lemma LastCohortLands(sim: Simulation, s: State, n: State, speed: Speed, delta: real)
    requires OnPace(sim, s, speed) && Follows(sim, s, n, speed, delta)
    ensures n.released == sim.config.ballCount ==>
              Worth(speed, n.time - Air(speed)) >= sim.config.ballCount as real
              || exists c :: c in n.cohorts && c.end == sim.config.ballCount
  {
    hide Worth, Air;
    var all := sim.config.ballCount;
    if n.released == all {
      if s.released < all {
        var c := Cohort(s.released, all, n.time + Air(speed));
        AirIsPositive(speed);
        assert c in n.cohorts && c.end == all;
      } else if Worth(speed, s.time - Air(speed)) >= all as real {
        LaterIsMore(speed, s.time - Air(speed), n.time - Air(speed));
      } else {
        var c :| c in s.cohorts && c.end == all;
        assert PacedCohort(c, all, speed);
        if c.landsAt <= n.time { LaterIsMore(speed, c.landsAt - Air(speed), n.time - Air(speed)); }
      }
    }
  }

  lemma AirIsPositive(speed: Speed)
    ensures Air(speed) > 0.0
  {
  }

  lemma LaterIsMore(speed: Speed, a: real, b: real)
    requires a <= b
    ensures Worth(speed, a) <= Worth(speed, b)
  {
  }

  /** Frames at one speed only, with motion changes between them. */
  predicate AtSpeed(inputs: seq<Input>, speed: Speed) {
    forall i :: 0 <= i < |inputs| && inputs[i].Tick? ==> inputs[i].speed == speed
  }

  lemma {:induction false} SteadyRun(sim: Simulation, inputs: seq<Input>, speed: Speed)
    requires WellFormed(sim) && sim.config.ballCount > 0 && AtSpeed(inputs, speed)
    ensures OnPace(sim, Play(sim, inputs), speed)
  {
    hide PacedCohort;
    if inputs != [] {
      var before, input := inputs[..|inputs| - 1], inputs[|inputs| - 1];
      SteadyRun(sim, before, speed);
      hide OnPace, Advance;
      if input.Tick? {
        TickKeepsPace(sim, Play(sim, before), input.deltaMs, speed, input.reducedMotion);
      } else {
        PaceIgnoresTraces(sim, Play(sim, before), speed);
      }
    }
  }

  lemma PaceIgnoresTraces(sim: Simulation, s: State, speed: Speed)
    requires OnPace(sim, s, speed)
    ensures OnPace(sim, s.(particles := []), speed)
  {
    hide PacedCohort;
  }

  /** At one speed playback is complete no earlier than ballCount / rate plus the time in the air, and complete for
      certain one frame of 50 ms after that. */
  lemma SteadyCompletion(sim: Simulation, inputs: seq<Input>, speed: Speed)
    requires WellFormed(sim) && sim.config.ballCount > 0 && AtSpeed(inputs, speed)
    ensures Complete(sim, Play(sim, inputs)) ==>
              Played(inputs) >= sim.config.ballCount as real / Rate(speed) + Air(speed)
    ensures Played(inputs) > sim.config.ballCount as real / Rate(speed) + Air(speed) + 50.0 ==>
              Complete(sim, Play(sim, inputs))
  {
    var s := Play(sim, inputs);
    SteadyRun(sim, inputs, speed);
    ClockIsExact(sim, inputs);
    ClockIsBehind(sim, inputs);
    SteadyState(sim, s, speed);
  }

  lemma {:induction false} ClockIsBehind(sim: Simulation, inputs: seq<Input>)
    requires WellFormed(sim)
    ensures Play(sim, inputs).time <= Played(inputs)
  {
    if inputs != [] {
      var before, input := inputs[..|inputs| - 1], inputs[|inputs| - 1];
      ClockIsBehind(sim, before);
      hide Advance, Inv, Release;
      if input.Tick? {
        AdvanceFields(sim, Play(sim, before), input.deltaMs, input.speed, input.reducedMotion);
        ReleaseTime(sim, Play(sim, before), Taken(input.deltaMs), input.speed, input.reducedMotion);
      }
    }
  }

  lemma ReleaseTime(sim: Simulation, s: State, delta: real, speed: Speed, reducedMotion: bool)
    ensures Release(sim, s, delta, speed, reducedMotion).time == s.time + delta
  {
    hide Kept, Samples, TraceCount, Departed, Earned;
  }

  lemma SteadyState(sim: Simulation, s: State, speed: Speed)
    requires Inv(sim, s) && OnPace(sim, s, speed) && sim.config.ballCount > 0
    ensures Complete(sim, s) ==> s.time >= sim.config.ballCount as real / Rate(speed) + Air(speed)
    ensures s.time > sim.config.ballCount as real / Rate(speed) + Air(speed) + 50.0 ==> Complete(sim, s)
  {
    var all := sim.config.ballCount as real;
    Basics(sim, s);
    SizeOfSome(s.cohorts, s.released);
    assert s.processed + Size(s.cohorts) == s.released;
    hide Inv, Size;
    if s.time > all / Rate(speed) + Air(speed) + 50.0 {
      PastTheLastRelease(sim.config.ballCount, speed, s.time);
      assert s.cohorts != [] ==> s.cohorts[0] in s.cohorts;
      if s.cohorts != [] { PastItsLanding(s.cohorts[0], sim.config.ballCount, speed, s.time); }
    }
  }

  lemma PastItsLanding(c: Cohort, all: nat, speed: Speed, time: real)
    requires PacedCohort(c, all, speed) && time > all as real / Rate(speed) + Air(speed) + 50.0
    ensures c.landsAt < time
  {
    match speed
    case Slow =>
    case Normal =>
    case Fast =>
  }

  lemma PastTheLastRelease(all: nat, speed: Speed, time: real)
    requires time > all as real / Rate(speed) + Air(speed) + 50.0
    ensures Worth(speed, time) > all as real
  {
    match speed
    case Slow =>
    case Normal =>
    case Fast =>
  }

  /** Cohorts in the air mean balls not yet counted. */
  lemma SizeOfSome(cohorts: seq<Cohort>, bound: nat)
    requires Ordered(cohorts, bound)
    ensures Size(cohorts) == 0 <==> cohorts == []
  {
    if cohorts != [] {
      var last := cohorts[|cohorts| - 1];
      SizeIsNonNegative(cohorts[..|cohorts| - 1], last.start);
    }
  }

  // ---------------------------------------------------------------- reduced motion

  function Untraced(s: State): State { s.(particles := []) }

  /** The same frames with motion never reduced. */
  function Plain(inputs: seq<Input>): seq<Input> {
    if inputs == [] then []
    else
      var init := Plain(inputs[..|inputs| - 1]);
      match inputs[|inputs| - 1]
      case Tick(delta, speed, _) => init + [Tick(delta, speed, false)]
      case MotionReduced => init
  }

  lemma AdvanceIgnoresMotion(sim: Simulation, a: State, b: State, delta: Num, speed: Speed, x: bool, y: bool)
    requires Inv(sim, a) && Inv(sim, b) && Untraced(a) == Untraced(b)
    ensures Untraced(Advance(sim, a, delta, speed, x)) == Untraced(Advance(sim, b, delta, speed, y))
  {
    hide Inv, Settle, Flying, Size, Samples, TraceCount, Kept;
  }

  /** Reducing motion, at any frames and any number of times, changes nothing but the traces. */
  lemma {:induction false} MotionNeverChangesCounts(sim: Simulation, inputs: seq<Input>)
    requires WellFormed(sim)
    ensures Untraced(Play(sim, inputs)) == Untraced(Play(sim, Plain(inputs)))
  {
    if inputs != [] {
      var before, input := inputs[..|inputs| - 1], inputs[|inputs| - 1];
      MotionNeverChangesCounts(sim, before);
      if input.Tick? {
        var plain := Plain(before);
        var tick := Tick(input.deltaMs, input.speed, false);
        assert (plain + [tick])[..|plain|] == plain;
        AdvanceIgnoresMotion(sim, Play(sim, before), Play(sim, plain), input.deltaMs, input.speed, input.reducedMotion, false);
      }
    }
  }

  // ---------------------------------------------------------------- the player

  /** What the filter callback does to the running results at cohort `i`. */
  lemma DueStep(outcomes: seq<nat>, bins: seq<nat>, cohorts: seq<Cohort>, i: nat, time: real)
    requires i < |cohorts| && InRange(cohorts, |outcomes|)
    requires forall k :: 0 <= k < |outcomes| ==> outcomes[k] < |bins|
    ensures InRange(cohorts[..i], |outcomes|) && InRange(cohorts[..i + 1], |outcomes|)
    ensures cohorts[i] in cohorts
    ensures var c, kept, before := cohorts[i], Flying(cohorts[..i], time), Settle(outcomes, bins, cohorts[..i], time);
            && Size(cohorts[..i + 1]) == Size(cohorts[..i]) + (c.end - c.start)
            && (c.landsAt > time ==>
                 && Flying(cohorts[..i + 1], time) == kept + [c] && Size(kept + [c]) == Size(kept) + (c.end - c.start)
                 && Settle(outcomes, bins, cohorts[..i + 1], time) == before)
            && (c.landsAt <= time ==>
                 && Flying(cohorts[..i + 1], time) == kept
                 && Settle(outcomes, bins, cohorts[..i + 1], time) == Tally(outcomes, before, c.start, c.end))
  {
    hide Tally;
    var kept := Flying(cohorts[..i], time);
    assert cohorts[..i + 1][..i] == cohorts[..i];
    assert (kept + [cohorts[i]])[..|kept|] == kept;
  }

  /** Before the first cohort is looked at. */
  lemma LandStart(sim: Simulation, s: State, none: seq<Cohort>)
    requires Landable(sim, s) && none == []
    ensures InRange(s.cohorts, |sim.outcomes|) && InRange(none, |sim.outcomes|)
    ensures forall k :: 0 <= k < |sim.outcomes| ==> sim.outcomes[k] < |s.bins|
    ensures Settle(sim.outcomes, s.bins, none, s.time) == s.bins
    ensures Flying(none, s.time) == [] && Size(none) == 0
    ensures s.processed + Size(s.cohorts) >= Size(Flying(s.cohorts, s.time))
  {
  }

  lemma CohortRuns(cohorts: seq<Cohort>, i: nat, limit: nat)
    requires i < |cohorts| && InRange(cohorts, limit)
    ensures cohorts[i].start <= cohorts[i].end <= limit
  {
    assert cohorts[i] in cohorts;
  }

  lemma NoSamples(first: nat, length: nat, count: int, time: real, duration: real)
    ensures count > 0 ==> Samples(first, length, count, 0, time, duration) == []
    ensures count <= 0 ==> Samples(first, length, count, count, time, duration) == []
  {
  }

  lemma NextSample(first: nat, length: nat, count: int, sample: nat, time: real, duration: real)
    requires sample < count
    ensures sample * length / count >= 0
    ensures Samples(first, length, count, sample + 1, time, duration) ==
            Samples(first, length, count, sample, time, duration) +
            [ActiveParticle(first + sample * length / count, time, duration)]
  {
  }

  datatype Progress = Progress(released: nat, processed: nat, bins: seq<nat>, elapsedMs: real, activeParticles: nat)

  class Player {
    const simulation: Simulation
    const bins: array<nat>
    var time: real
    var released: nat
    var processed: nat
    var particles: seq<ActiveParticle>
    var carry: real
    var sampleCarry: real
    var cohorts: seq<Cohort>

    ghost function View(): State
      reads this, bins
    {
      State(time, released, processed, particles, bins[..], carry, sampleCarry, cohorts)
    }

    ghost predicate Valid()
      reads this, bins
    {
      Inv(simulation, View())
    }

    constructor (simulation: Simulation)
      requires WellFormed(simulation)
      ensures this.simulation == simulation && fresh(bins)
      ensures Valid() && View() == Initial(simulation)
    {
      this.simulation := simulation;
      time, released, processed, particles, carry, sampleCarry, cohorts := 0.0, 0, 0, [], 0.0, 0.0, [];
      bins := new nat[simulation.config.rows + 1](_ => 0);
      new;
      assert bins[..] == Zeros(simulation.config.rows + 1);
      InitialIsInv(simulation);
    }

    method IsComplete() returns (done: bool)
      ensures done <==> Complete(simulation, View())
    {
      done := processed == simulation.config.ballCount;
    }

    /** Counts one landed cohort into the histogram. */
    method Land(cohort: Cohort)
      requires cohort.start <= cohort.end <= |simulation.outcomes|
      requires forall i :: 0 <= i < |simulation.outcomes| ==> simulation.outcomes[i] < bins.Length
      modifies bins
      ensures bins[..] == Tally(simulation.outcomes, old(bins[..]), cohort.start, cohort.end)
    {
      var index := cohort.start;
      while index < cohort.end
        invariant cohort.start <= index <= cohort.end
        invariant bins[..] == Tally(simulation.outcomes, old(bins[..]), cohort.start, index)
      {
        var bin := simulation.outcomes[index];
        bins[bin] := bins[bin] + 1;
        index := index + 1;
      }
    }

    /** The filter over cohorts, whose callback counts and drops those that are due. */
    method LandDue()
      requires Landable(simulation, View())
      modifies this`cohorts, this`processed, bins
      ensures View() == old(Landed(simulation, View()))
    {
      hide Landable, Tally, Flying, Settle, Size, InRange;
      ghost var all, first, outcomes := cohorts, bins[..], simulation.outcomes;
      LandStart(simulation, View(), all[..0]);
      var kept: seq<Cohort> := [];
      var i := 0;
      while i < |cohorts|
        modifies this`processed, bins
        invariant 0 <= i <= |cohorts| && InRange(all[..i], |outcomes|)
        invariant kept == Flying(all[..i], time)
        invariant processed + Size(kept) == old(processed) + Size(all[..i])
        invariant bins[..] == Settle(outcomes, first, all[..i], time)
      {
        var cohort := cohorts[i];
        DueStep(outcomes, first, all, i, time);
        CohortRuns(all, i, |outcomes|);
        if cohort.landsAt > time {
          kept := kept + [cohort];
        } else {
          Land(cohort);
          processed := processed + (cohort.end - cohort.start);
        }
        i := i + 1;
      }
      assert all[..i] == all;
      cohorts := kept;
    }

    /** Adds the traces of the newest cohort. */
    method Sample(count: int, end: nat, duration: real)
      requires released <= end
      requires count > 0 ==> count <= end - released
      modifies this`particles
      ensures particles == old(particles) + Samples(released, end - released, count, count, time, duration)
    {
      hide Samples, SampleOffset;
      var sample := 0;
      ghost var before := particles;
      NoSamples(released, end - released, count, time, duration);
      while sample < count
        invariant 0 <= sample && (sample <= count || sample == 0)
        invariant count <= 0 ==> particles == before
        invariant count > 0 ==> particles == before + Samples(released, end - released, count, sample, time, duration)
      {
        NextSample(released, end - released, count, sample, time, duration);
        var index := released + sample * (end - released) / count;
        particles := particles + [ActiveParticle(index, time, duration)];
        sample := sample + 1;
      }
    }

    /** The first half of a frame: the clock, the traces, and the newly earned cohort. */
    method ReleaseDue(delta: real, speed: Speed, reducedMotion: bool)
      requires carry >= 0.0 && delta > 0.0
      modifies this
      ensures View() == old(Release(simulation, View(), delta, speed, reducedMotion))
    {
      hide Samples, Live, Duration, Earned, TraceCount;
      Elapse(delta, speed, reducedMotion);
      var addition := (carry + Earned(speed, delta)).Floor;
      carry := carry + Earned(speed, delta) - addition as real;
      var end := Min(simulation.config.ballCount, released + addition);
      if end > released { AddCohort(end, delta, Duration(speed), reducedMotion); }
    }

    /** The clock moves and the traces whose time is up go. */
    method Elapse(delta: real, speed: Speed, reducedMotion: bool)
      modifies this`time, this`particles
      ensures time == old(time) + delta && particles == old(Kept(View(), delta, reducedMotion))
    {
      hide Live;
      time := time + delta;
      particles := if reducedMotion then [] else Live(particles, time);
    }

    /** The balls up to `end` leave together, with their share of traces. */
    method AddCohort(end: nat, delta: real, duration: real, reducedMotion: bool)
      requires end > released
      modifies this`cohorts, this`sampleCarry, this`particles, this`released
      ensures released == end && cohorts == old(cohorts) + [Cohort(old(released), end, time + duration)]
      ensures var sampled := old(sampleCarry) + delta * 0.28;
              var count := TraceCount(sampled, end - old(released), |old(particles)|, reducedMotion);
              && sampleCarry == sampled - sampled.Floor as real
              && particles == old(particles) + Samples(old(released), end - old(released), count, count, time, duration)
    {
      hide Samples;
      cohorts := cohorts + [Cohort(released, end, time + duration)];
      sampleCarry := sampleCarry + delta * 0.28;
      var count := if reducedMotion then 0 else Min(Min(sampleCarry.Floor, end - released), MAX_TRACES - |particles|);
      sampleCarry := sampleCarry - sampleCarry.Floor as real;
      Sample(count, end, duration);
      released := end;
    }

    method Advance(deltaMs: Num, speed: Speed, reducedMotion: bool)
      requires Valid()
      modifies this, bins
      ensures Valid()
      ensures View() == old(GaltonPlayback.Advance(simulation, View(), deltaMs, speed, reducedMotion))
    {
      if processed == simulation.config.ballCount || deltaMs.NotFinite? || deltaMs.value <= 0.0 {
        return;
      }
      var delta := if deltaMs.value <= 50.0 then deltaMs.value else 50.0;
      ghost var start := View();
      assert Inv(simulation, start) && start.carry >= 0.0;
      assert Frame(simulation, start, delta, speed, reducedMotion)
          == GaltonPlayback.Advance(simulation, start, deltaMs, speed, reducedMotion);
      TickKeepsInv(simulation, start, delta, speed, reducedMotion);
      assert Landed(simulation, Release(simulation, start, delta, speed, reducedMotion))
          == Frame(simulation, start, delta, speed, reducedMotion);
      hide Inv, Landable, Release, Landed, Frame;
      ReleaseDue(delta, speed, reducedMotion);
      LandDue();
    }

    /** The listener for a change to reduced motion. */
    method ReduceMotion()
      requires Valid()
      modifies this`particles
      ensures Valid() && View() == Untraced(old(View()))
    {
      particles := [];
    }

    method Snapshot() returns (p: Progress)
      ensures p == Progress(released, processed, bins[..], time, |particles|)
    {
      p := Progress(released, processed, bins[..], time, |particles|);
    }
  }

  // ---------------------------------------------------------------- playing a simulation

  /** What the simulator returns is what the player needs. */
  lemma SimulationsArePlayable(sim: Simulation, sin: real -> real, draws: nat -> real)
    requires |sim.outcomes| == |sim.paths| == sim.config.ballCount
    requires forall ball :: 0 <= ball < |sim.outcomes| ==>
               Drops(FieldOf(sim.config, sin), draws, sim.config.rows, ball, sim.outcomes[ball], sim.paths[ball])
    ensures WellFormed(sim)
  {
    forall ball | 0 <= ball < |sim.outcomes| ensures sim.outcomes[ball] <= sim.config.rows {
      RightsFit(Trace(FieldOf(sim.config, sin), draws, DrawsBefore(ball, sim.config.rows), sim.config.rows));
    }
  }

  lemma {:induction false} RightsFit(path: Path)
    ensures Rights(path) <= Length(path)
  {
    if path.Turn? { RightsFit(path.before); }
  }

  /** The page's own composition: simulate, then play. Every theorem about runs above applies to the result. */
  method PlaySimulation(input: ConfigInput, sin: real -> real, sqrt: real -> real, draws: nat -> real)
    returns (player: Player)
    ensures fresh(player) && player.Valid() && WellFormed(player.simulation)
    ensures player.simulation.config == Sanitize(input) && player.View() == Initial(player.simulation)
  {
    hide Drops, Distribution;
    var sim := SimulateGalton(input, sin, sqrt, draws);
    SimulationsArePlayable(sim, sin, draws);
    player := new Player(sim);
  }
}
