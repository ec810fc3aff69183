/** The playback scheduler: balls are released at a rate, fly as cohorts, and are counted when they land. */
module GaltonPlayback {
  import opened Prelude
  import Division
  import opened GaltonEngine
  import opened GaltonSimulation

  const MAX_TRACES := 800

  datatype Speed = Slow | Normal | Fast

  /** How long a cohort released at this speed stays in the air, in milliseconds. */
  function Duration(speed: Speed): real {
    match speed
    case Slow => 2_200.0
    case Normal => 1_350.0
    case Fast => 760.0
  }

  /** Balls earned by `delta` milliseconds at this speed. */
  function Earned(speed: Speed, delta: real): real {
    match speed
    case Slow => 600.0 * delta / 1_000.0
    case Normal => 3_500.0 * delta / 1_000.0
    case Fast => 15_000.0 * delta / 1_000.0
  }

  datatype ActiveParticle = ActiveParticle(index: nat, startedAt: real, duration: real)

  datatype Cohort = Cohort(start: nat, end: nat, landsAt: real)

  /** The scheduler's fields, as a value. */
  datatype State = State(
    time: real, released: nat, processed: nat, particles: seq<ActiveParticle>, bins: seq<nat>,
    carry: real, sampleCarry: real, cohorts: seq<Cohort>)

  /** One outcome a ball, each a bin of the board. */
  ghost predicate WellFormed(sim: Simulation) {
    && |sim.outcomes| == sim.config.ballCount
    && forall i :: 0 <= i < |sim.outcomes| ==> sim.outcomes[i] <= sim.config.rows
  }

  function Zeros(n: nat): (z: seq<nat>)
    ensures |z| == n && forall i :: 0 <= i < n ==> z[i] == 0
  {
    seq(n, _ => 0)
  }

  function Initial(sim: Simulation): State {
    State(0.0, 0, 0, [], Zeros(sim.config.rows + 1), 0.0, 0.0, [])
  }

  predicate Complete(sim: Simulation, s: State) {
    s.processed == sim.config.ballCount
  }

  function Live(particles: seq<ActiveParticle>, time: real): seq<ActiveParticle> {
    if particles == [] then []
    else
      var last := particles[|particles| - 1];
      Live(particles[..|particles| - 1], time) + if time - last.startedAt < last.duration then [last] else []
  }

  /** Sample number `sample` of `count`, spread evenly over a cohort of `length` balls. */
  function SampleOffset(sample: nat, length: nat, count: nat): nat
    requires count > 0
  {
    sample * length / count
  }

  /** The first `taken` of `count` traces drawn from the cohort. */
  function Samples(first: nat, length: nat, count: int, taken: int, time: real, duration: real): seq<ActiveParticle>
    requires taken <= count
    decreases Max(taken, 0)
  {
    if taken <= 0 then []
    else
      Samples(first, length, count, taken - 1, time, duration) +
      [ActiveParticle(first + SampleOffset(taken - 1, length, count), time, duration)]
  }

  function Flying(cohorts: seq<Cohort>, time: real): seq<Cohort> {
    if cohorts == [] then []
    else
      var last := cohorts[|cohorts| - 1];
      Flying(cohorts[..|cohorts| - 1], time) + if last.landsAt > time then [last] else []
  }

  /** The histogram after balls `start..end` have been added to it, one by one. */
  function Tally(outcomes: seq<nat>, bins: seq<nat>, start: nat, end: nat): (b: seq<nat>)
    requires start <= end <= |outcomes|
    requires forall i :: 0 <= i < |outcomes| ==> outcomes[i] < |bins|
    ensures |b| == |bins|
  {
    if start == end then bins
    else
      var before := Tally(outcomes, bins, start, end - 1);
      before[outcomes[end - 1] := before[outcomes[end - 1]] + 1]
  }

  ghost predicate InRange(cohorts: seq<Cohort>, n: nat) {
    forall c :: c in cohorts ==> c.start <= c.end <= n
  }

  /** The histogram after every cohort due by `time` has been added to it. */
  function Settle(outcomes: seq<nat>, bins: seq<nat>, cohorts: seq<Cohort>, time: real): (b: seq<nat>)
    requires InRange(cohorts, |outcomes|)
    requires forall i :: 0 <= i < |outcomes| ==> outcomes[i] < |bins|
    ensures |b| == |bins|
  {
    if cohorts == [] then bins
    else
      var last := cohorts[|cohorts| - 1];
      var before := Settle(outcomes, bins, cohorts[..|cohorts| - 1], time);
      if last.landsAt > time then before else Tally(outcomes, before, last.start, last.end)
  }

  function Size(cohorts: seq<Cohort>): int {
    if cohorts == [] then 0
    else var last := cohorts[|cohorts| - 1]; Size(cohorts[..|cohorts| - 1]) + (last.end - last.start)
  }

  /** How many balls have left once the earned ones go, never more than there are. */
  function Departed(sim: Simulation, s: State, delta: real, speed: Speed): int {
    Min(sim.config.ballCount, s.released + (s.carry + Earned(speed, delta)).Floor)
  }

  /** How many of a cohort's balls are drawn: what the sampling rate earned, as far as there is room. */
  function TraceCount(sampled: real, length: int, flying: nat, reducedMotion: bool): int {
    if reducedMotion then 0 else Min(Min(sampled.Floor, length), MAX_TRACES - flying)
  }

  function Kept(s: State, delta: real, reducedMotion: bool): seq<ActiveParticle> {
    if reducedMotion then [] else Live(s.particles, s.time + delta)
  }

  /** The clock moves, traces expire, and whole earned balls leave as one cohort. */
  function Release(sim: Simulation, s: State, delta: real, speed: Speed, reducedMotion: bool): State {
    var time := s.time + delta;
    var particles := Kept(s, delta, reducedMotion);
    var earned := s.carry + Earned(speed, delta);
    var end := Departed(sim, s, delta, speed);
    var moved := s.(time := time, particles := particles, carry := earned - earned.Floor as real);
    if end <= s.released then moved
    else
      var sampled := s.sampleCarry + delta * 0.28;
      var count := TraceCount(sampled, end - s.released, |particles|, reducedMotion);
      moved.(
        cohorts := s.cohorts + [Cohort(s.released, end, time + Duration(speed))],
        sampleCarry := sampled - sampled.Floor as real,
        particles := particles + Samples(s.released, end - s.released, count, count, time, Duration(speed)),
        released := end)
  }

  ghost predicate Landable(sim: Simulation, s: State) {
    && InRange(s.cohorts, |sim.outcomes|)
    && (forall i :: 0 <= i < |sim.outcomes| ==> sim.outcomes[i] < |s.bins|)
    && s.processed + Size(s.cohorts) >= Size(Flying(s.cohorts, s.time))
  }

  /** Cohorts that are due are counted and dropped, in whatever order they fall due. */
  function Landed(sim: Simulation, s: State): State
    requires Landable(sim, s)
  {
    s.(cohorts := Flying(s.cohorts, s.time),
       bins := Settle(sim.outcomes, s.bins, s.cohorts, s.time),
       processed := s.processed + Size(s.cohorts) - Size(Flying(s.cohorts, s.time)))
  }

  // ---------------------------------------------------------------- the invariant

  function Count(outcomes: seq<nat>, bin: nat, start: nat, end: nat): nat
    requires start <= end <= |outcomes|
  {
    if start == end then 0
    else Count(outcomes, bin, start, end - 1) + if outcomes[end - 1] == bin then 1 else 0
  }

  function CountIn(outcomes: seq<nat>, bin: nat, cohorts: seq<Cohort>): nat
    requires InRange(cohorts, |outcomes|)
  {
    if cohorts == [] then 0
    else
      var last := cohorts[|cohorts| - 1];
      CountIn(outcomes, bin, cohorts[..|cohorts| - 1]) + Count(outcomes, bin, last.start, last.end)
  }

  /** Nonempty, in release order, disjoint, and below `bound`. */
  ghost predicate Ordered(cohorts: seq<Cohort>, bound: nat) {
    cohorts != [] ==>
      var last := cohorts[|cohorts| - 1];
      last.start < last.end <= bound && Ordered(cohorts[..|cohorts| - 1], last.start)
  }

  function Total(bins: seq<nat>): nat {
    if bins == [] then 0 else Total(bins[..|bins| - 1]) + bins[|bins| - 1]
  }

  /** The moment by which everything has landed, whatever the speed schedule. */
  function Deadline(sim: Simulation): real {
    sim.config.ballCount as real / 0.6 + 2_250.0
  }

  ghost predicate Carries(p: ActiveParticle, c: Cohort) {
    c.start <= p.index < c.end && c.landsAt == p.startedAt + p.duration
  }

  ghost predicate DistinctBalls(particles: seq<ActiveParticle>) {
    forall i, j :: 0 <= i < j < |particles| ==> particles[i].index != particles[j].index
  }

  ghost predicate TracesFly(particles: seq<ActiveParticle>, cohorts: seq<Cohort>) {
    && |particles| <= MAX_TRACES
    && DistinctBalls(particles)
    && (forall p :: p in particles ==> exists c :: c in cohorts && Carries(p, c))
  }

  ghost predicate Conserved(sim: Simulation, s: State) {
    && WellFormed(sim)
    && |s.bins| == sim.config.rows + 1
    && s.released <= sim.config.ballCount
    && Ordered(s.cohorts, s.released)
    && InRange(s.cohorts, |sim.outcomes|)
    && s.processed + Size(s.cohorts) == s.released
    && Total(s.bins) == s.processed
    && (forall bin :: 0 <= bin <= sim.config.rows ==>
         s.bins[bin] + CountIn(sim.outcomes, bin, s.cohorts) == Count(sim.outcomes, bin, 0, s.released))
  }

  ghost predicate OnTime(sim: Simulation, s: State) {
    && s.time >= 0.0
    && 0.0 <= s.carry < 1.0
    && s.sampleCarry >= 0.0
    && (s.released < sim.config.ballCount ==> s.released as real + s.carry >= 0.6 * s.time)
    && (forall c :: c in s.cohorts ==> c.landsAt <= Deadline(sim))
  }

  ghost predicate Inv(sim: Simulation, s: State) {
    && Conserved(sim, s)
    && OnTime(sim, s)
    && (forall c :: c in s.cohorts ==> c.landsAt > s.time)
    && TracesFly(s.particles, s.cohorts)
  }

  // ---------------------------------------------------------------- counting lemmas

  lemma {:induction false} CountSplits(outcomes: seq<nat>, bin: nat, a: nat, b: nat, c: nat)
    requires a <= b <= c <= |outcomes|
    ensures Count(outcomes, bin, a, c) == Count(outcomes, bin, a, b) + Count(outcomes, bin, b, c)
  {
    if b < c { CountSplits(outcomes, bin, a, b, c - 1); }
  }

  lemma {:induction false} TotalUpdate(bins: seq<nat>, i: nat)
    requires i < |bins|
    ensures Total(bins[i := bins[i] + 1]) == Total(bins) + 1
  {
    var next := bins[i := bins[i] + 1];
    var last := |bins| - 1;
    if i < last {
      TotalUpdate(bins[..last], i);
      assert next[..last] == bins[..last][i := bins[i] + 1];
    } else {
      assert next[..last] == bins[..last];
    }
  }

  lemma {:induction false} TallyCounts(outcomes: seq<nat>, bins: seq<nat>, start: nat, end: nat)
    requires start <= end <= |outcomes|
    requires forall i :: 0 <= i < |outcomes| ==> outcomes[i] < |bins|
    ensures var b := Tally(outcomes, bins, start, end);
            && Total(b) == Total(bins) + (end - start)
            && forall bin :: 0 <= bin < |bins| ==> b[bin] == bins[bin] + Count(outcomes, bin, start, end)
  {
    hide Total;
    if start < end {
      TallyCounts(outcomes, bins, start, end - 1);
      TotalUpdate(Tally(outcomes, bins, start, end - 1), outcomes[end - 1]);
    }
  }

  lemma {:induction false} FlyingIsSub(cohorts: seq<Cohort>, time: real)
    ensures forall c :: c in Flying(cohorts, time) <==> c in cohorts && c.landsAt > time
  {
    if cohorts != [] {
      FlyingIsSub(cohorts[..|cohorts| - 1], time);
      assert cohorts == cohorts[..|cohorts| - 1] + [cohorts[|cohorts| - 1]];
    }
  }

  lemma OrderedAppend(cohorts: seq<Cohort>, last: Cohort, bound: nat)
    requires Ordered(cohorts, last.start) && last.start < last.end <= bound
    ensures Ordered(cohorts + [last], bound)
    ensures Size(cohorts + [last]) == Size(cohorts) + (last.end - last.start)
  {
    assert (cohorts + [last])[..|cohorts|] == cohorts;
  }

  lemma {:induction false} OrderedWidens(cohorts: seq<Cohort>, bound: nat, wider: nat)
    requires Ordered(cohorts, bound) && bound <= wider
    ensures Ordered(cohorts, wider)
  {
  }

  lemma {:induction false} FlyingStaysOrdered(cohorts: seq<Cohort>, time: real, bound: nat)
    requires Ordered(cohorts, bound)
    ensures Ordered(Flying(cohorts, time), bound)
    ensures 0 <= Size(Flying(cohorts, time)) <= Size(cohorts)
  {
    if cohorts != [] {
      var init, last := cohorts[..|cohorts| - 1], cohorts[|cohorts| - 1];
      FlyingStaysOrdered(init, time, last.start);
      var kept := Flying(init, time);
      if last.landsAt > time {
        OrderedAppend(kept, last, bound);
      } else {
        OrderedWidens(kept, last.start, bound);
        assert Flying(cohorts, time) == kept;
      }
    }
  }

  lemma {:induction false} OrderedInRange(cohorts: seq<Cohort>, bound: nat, n: nat)
    requires Ordered(cohorts, bound) && bound <= n
    ensures InRange(cohorts, n)
  {
    if cohorts != [] {
      var last := cohorts[|cohorts| - 1];
      OrderedInRange(cohorts[..|cohorts| - 1], last.start, n);
      assert cohorts == cohorts[..|cohorts| - 1] + [last];
    }
  }

  /** What lands moves from the air into the histogram, ball for ball and bin for bin. */
  lemma {:induction false} SettleConserves(outcomes: seq<nat>, bins: seq<nat>, cohorts: seq<Cohort>, time: real)
    requires InRange(cohorts, |outcomes|)
    requires forall i :: 0 <= i < |outcomes| ==> outcomes[i] < |bins|
    ensures InRange(Flying(cohorts, time), |outcomes|)
    ensures var b := Settle(outcomes, bins, cohorts, time);
            && Total(b) + Size(Flying(cohorts, time)) == Total(bins) + Size(cohorts)
            && forall bin :: 0 <= bin < |bins| ==>
                 b[bin] + CountIn(outcomes, bin, Flying(cohorts, time)) == bins[bin] + CountIn(outcomes, bin, cohorts)
  {
    FlyingIsSub(cohorts, time);
    if cohorts != [] {
      var init, last := cohorts[..|cohorts| - 1], cohorts[|cohorts| - 1];
      SettleConserves(outcomes, bins, init, time);
      var kept := Flying(init, time);
      if last.landsAt > time {
        assert Flying(cohorts, time) == kept + [last];
        assert (kept + [last])[..|kept|] == kept;
      } else {
        assert Flying(cohorts, time) == kept;
        TallyCounts(outcomes, Settle(outcomes, bins, init, time), last.start, last.end);
      }
    }
  }

  // ---------------------------------------------------------------- traces

  lemma {:induction false} LiveIsSub(particles: seq<ActiveParticle>, time: real)
    ensures |Live(particles, time)| <= |particles|
    ensures forall p :: p in Live(particles, time) ==> p in particles && time - p.startedAt < p.duration
  {
    if particles != [] {
      LiveIsSub(particles[..|particles| - 1], time);
    }
  }

  lemma AppendDistinct(particles: seq<ActiveParticle>, last: ActiveParticle)
    requires DistinctBalls(particles) && forall p :: p in particles ==> p.index != last.index
    ensures DistinctBalls(particles + [last])
  {
    var all := particles + [last];
    forall i, j | 0 <= i < j < |all| ensures all[i].index != all[j].index {
      assert all[i] in particles;
    }
  }

  lemma {:induction false} LiveStaysDistinct(particles: seq<ActiveParticle>, time: real)
    requires DistinctBalls(particles)
    ensures DistinctBalls(Live(particles, time))
  {
    if particles != [] {
      var init, last := particles[..|particles| - 1], particles[|particles| - 1];
      LiveStaysDistinct(init, time);
      LiveIsSub(init, time);
      if time - last.startedAt < last.duration {
        forall p | p in Live(init, time) ensures p.index != last.index {
          var i :| 0 <= i < |init| && init[i] == p;
          assert particles[i].index != particles[|particles| - 1].index;
        }
        AppendDistinct(Live(init, time), last);
      } else {
        assert Live(particles, time) == Live(init, time);
      }
    }
  }

  /** Consecutive samples fall on different balls because a cohort is never thinner than its sample. */
  lemma SampleAdvances(sample: nat, length: nat, count: nat)
    requires 0 < count <= length
    ensures SampleOffset(sample, length, count) < SampleOffset(sample + 1, length, count)
    ensures sample < count ==> SampleOffset(sample, length, count) < length
  {
    Division.Steps(sample * length, length, count);
    assert (sample + 1) * length == sample * length + length;
    if sample < count {
      Division.Multiples(sample + 1, count, length);
      Division.Below(sample * length, length, count);
    }
  }

  lemma {:induction false} SamplesAreDistinct(first: nat, length: nat, count: int, taken: int, time: real, duration: real)
    requires taken <= count <= length
    ensures var s := Samples(first, length, count, taken, time, duration);
            && |s| == Max(taken, 0)
            && (forall i, j :: 0 <= i < j < |s| ==> s[i].index < s[j].index)
            && (forall p :: p in s ==> first <= p.index < first + length && p.startedAt == time && p.duration == duration)
            && (s != [] ==> s[|s| - 1].index == first + SampleOffset(taken - 1, length, count))
    decreases Max(taken, 0)
  {
    if taken > 0 {
      hide SampleOffset;
      SamplesAreDistinct(first, length, count, taken - 1, time, duration);
      if taken > 1 { SampleAdvances(taken - 2, length, count); }
      SampleAdvances(taken - 1, length, count);
    }
  }

  lemma TracesJoin(earlier: seq<ActiveParticle>, added: seq<ActiveParticle>, cohorts: seq<Cohort>, cohort: Cohort)
    requires TracesFly(earlier, cohorts) && |earlier| + |added| <= MAX_TRACES
    requires forall p :: p in earlier ==> p.index < cohort.start
    requires forall i, j :: 0 <= i < j < |added| ==> added[i].index < added[j].index
    requires forall p :: p in added ==> Carries(p, cohort)
    ensures TracesFly(earlier + added, cohorts + [cohort])
  {
    var all, wider := earlier + added, cohorts + [cohort];
    forall i, j | 0 <= i < j < |all| ensures all[i].index != all[j].index {
      if i >= |earlier| {
        assert all[i] == added[i - |earlier|] && all[j] == added[j - |earlier|];
      } else if j < |earlier| {
        assert all[i] == earlier[i] && all[j] == earlier[j];
      } else {
        assert all[i] in earlier && all[j] in added;
      }
    }
    forall p | p in all ensures exists c :: c in wider && Carries(p, c) {
      if p in earlier {
        var c :| c in cohorts && Carries(p, c);
        assert c in wider;
      } else {
        assert cohort in wider;
      }
    }
  }

  lemma TracesShrink(particles: seq<ActiveParticle>, time: real, cohorts: seq<Cohort>)
    requires TracesFly(particles, cohorts)
    ensures TracesFly(Live(particles, time), cohorts)
  {
    LiveIsSub(particles, time);
    LiveStaysDistinct(particles, time);
  }

  // ---------------------------------------------------------------- one tick

  lemma ReleaseKeepsConserved(sim: Simulation, s: State, delta: real, speed: Speed, reducedMotion: bool)
    requires Inv(sim, s) && delta > 0.0
    ensures Conserved(sim, Release(sim, s, delta, speed, reducedMotion))
  {
    hide Kept, Samples, Earned, TracesFly, OnTime;
    var r := Release(sim, s, delta, speed, reducedMotion);
    if r.released > s.released {
      OrderedAppend(s.cohorts, Cohort(s.released, r.released, s.time + delta + Duration(speed)), r.released);
      OrderedInRange(r.cohorts, r.released, |sim.outcomes|);
      forall bin | 0 <= bin <= sim.config.rows
        ensures s.bins[bin] + CountIn(sim.outcomes, bin, r.cohorts) == Count(sim.outcomes, bin, 0, r.released)
      {
        assert r.cohorts[..|s.cohorts|] == s.cohorts;
        CountSplits(sim.outcomes, bin, 0, s.released, r.released);
      }
    }
  }

  lemma ReleaseKeepsOnTime(sim: Simulation, s: State, delta: real, speed: Speed, reducedMotion: bool)
    requires Inv(sim, s) && 0.0 < delta <= 50.0
    ensures OnTime(sim, Release(sim, s, delta, speed, reducedMotion))
  {
    assert s.released <= sim.config.ballCount;
    hide Kept, Samples, Conserved, TracesFly;
  }

  /** The traces of a fresh cohort join those still in the air. */
  lemma FreshTraces(s: State, cohort: Cohort, kept: seq<ActiveParticle>, count: int, time: real, duration: real)
    requires Ordered(s.cohorts, s.released) && TracesFly(kept, s.cohorts)
    requires cohort.start == s.released < cohort.end && cohort.landsAt == time + duration
    requires count <= cohort.end - cohort.start && count <= MAX_TRACES - |kept|
    ensures var drawn := Samples(cohort.start, cohort.end - cohort.start, count, count, time, duration);
            && TracesFly(kept + drawn, s.cohorts + [cohort])
            && forall p :: p in drawn ==> p.startedAt == time && p.duration == duration
  {
    var length := cohort.end - cohort.start;
    SamplesAreDistinct(cohort.start, length, count, count, time, duration);
    var drawn := Samples(cohort.start, length, count, count, time, duration);
    OrderedInRange(s.cohorts, s.released, s.released);
    forall p | p in kept ensures p.index < cohort.start {
      var c :| c in s.cohorts && Carries(p, c);
    }
    TracesJoin(kept, drawn, s.cohorts, cohort);
  }

  lemma ReleaseKeepsTraces(sim: Simulation, s: State, delta: real, speed: Speed, reducedMotion: bool)
    requires Inv(sim, s) && delta > 0.0
    ensures var r := Release(sim, s, delta, speed, reducedMotion);
            TracesFly(r.particles, r.cohorts) && forall p :: p in r.particles ==> p.startedAt + p.duration > r.time
  {
    hide Live, Samples, Departed;
    var r := Release(sim, s, delta, speed, reducedMotion);
    var kept := Kept(s, delta, reducedMotion);
    LiveIsSub(s.particles, r.time);
    TracesShrink(s.particles, r.time, s.cohorts);
    assert TracesFly(kept, s.cohorts) && |kept| <= MAX_TRACES && Ordered(s.cohorts, s.released);
    assert forall p :: p in kept ==> p.startedAt + p.duration > r.time;
    hide Inv, TracesFly, Ordered, Kept;
    if r.released > s.released {
      var count := TraceCount(s.sampleCarry + delta * 0.28, r.released - s.released, |kept|, reducedMotion);
      FreshTraces(s, Cohort(s.released, r.released, r.time + Duration(speed)), kept, count, r.time, Duration(speed));
    }
  }

  lemma LandingKeepsInv(sim: Simulation, s: State)
    requires Conserved(sim, s) && OnTime(sim, s) && TracesFly(s.particles, s.cohorts)
    requires forall p :: p in s.particles ==> p.startedAt + p.duration > s.time
    ensures Landable(sim, s) && Inv(sim, Landed(sim, s))
  {
    FlyingIsSub(s.cohorts, s.time);
    FlyingStaysOrdered(s.cohorts, s.time, s.released);
    SettleConserves(sim.outcomes, s.bins, s.cohorts, s.time);
    forall p | p in s.particles ensures exists c :: c in Flying(s.cohorts, s.time) && Carries(p, c) {
      var c :| c in s.cohorts && Carries(p, c);
      assert c in Flying(s.cohorts, s.time);
    }
  }

  lemma TickKeepsInv(sim: Simulation, s: State, delta: real, speed: Speed, reducedMotion: bool)
    requires Inv(sim, s) && 0.0 < delta <= 50.0
    ensures var r := Release(sim, s, delta, speed, reducedMotion);
            Landable(sim, r) && Inv(sim, Landed(sim, r))
  {
    ReleaseKeepsConserved(sim, s, delta, speed, reducedMotion);
    ReleaseKeepsOnTime(sim, s, delta, speed, reducedMotion);
    ReleaseKeepsTraces(sim, s, delta, speed, reducedMotion);
    LandingKeepsInv(sim, Release(sim, s, delta, speed, reducedMotion));
  }

  /** One frame of at most 50 ms. */
  ghost function Frame(sim: Simulation, s: State, delta: real, speed: Speed, reducedMotion: bool): (next: State)
    requires Inv(sim, s) && 0.0 < delta <= 50.0
    ensures Inv(sim, next)
  {
    TickKeepsInv(sim, s, delta, speed, reducedMotion);
    Landed(sim, Release(sim, s, delta, speed, reducedMotion))
  }

  /** One call of `advance`. */
  ghost function Advance(sim: Simulation, s: State, deltaMs: Num, speed: Speed, reducedMotion: bool): (next: State)
    requires Inv(sim, s)
    ensures Inv(sim, next)
  {
    if Complete(sim, s) || deltaMs.NotFinite? || deltaMs.value <= 0.0 then s
    else Frame(sim, s, if deltaMs.value <= 50.0 then deltaMs.value else 50.0, speed, reducedMotion)
  }
}
