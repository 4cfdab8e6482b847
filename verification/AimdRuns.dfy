/** Runs of the controller that its comments and its setters speak about: the
    spike count seen while probing, a floor that is raised at run time, and how
    few operations leave it in pass-through. */
module AimdRuns {
  import opened Options
  import opened AimdSpec
  import opened AimdProperties

  // --------------------------------------------------------- the spike count

  /** The controller just before tick `k` of a run from start, with the statistics of that tick. */
  ghost function Before(c: Config, run: seq<Input>, k: nat): (s: State)
    requires k < |run|
    ensures |s.window| <= BASELINE_WINDOW
  {
    After(Init(c), run[..k])
  }

  ghost function StatsAt(s: State, i: Input): (t: Stats)
    requires |s.window| <= BASELINE_WINDOW
  {
    StatsOf(i.cfg, Measured(s, i.sample), i.sample)
  }

  /** At every tick of every run the spike check enters BACKOFF exactly at a second
      rising tick, and otherwise leaves a count that is zero exactly when the tick does
      not rise, and one when it does. */
  lemma SpikeExactly(c: Config, run: seq<Input>, k: nat)
    requires k < |run|
    ensures var s := Before(c, run, k);
      var t := StatsAt(s, run[k]);
      var (s', entered) := SpikeCheck(Saved(run[k].cfg, Measured(s, run[k].sample), run[k].sample), t);
      && (entered <==> t.rising && s.spike == 1)
      && (!entered ==> s'.spike == if t.rising then 1 else 0)
  {
    PhaseDiscipline(Init(c), run[..k]);
  }

  ghost function Pressing(i: nat): Sample
  {
    Sample(17 * (i + 1), MIN_SAMPLE_WINDOW_MS, 0, 0, None, 0.0, 0, 0)
  }

  ghost function Warming(i: nat): Sample
  {
    Sample(17 * ENGAGE_TICKS, MIN_SAMPLE_WINDOW_MS, 0, 0, if i == ENGAGE_TICKS then Some(1.0) else None, 0.0, 0, 0)
  }

  ghost function Slow(c: Config): Sample
  {
    Sample(17 * ENGAGE_TICKS, MIN_SAMPLE_WINDOW_MS, LOW_IOPS_MIN_SAMPLES, LOW_IOPS_MIN_SAMPLES,
           Some(if c.maxP99 > 0.0 then c.maxP99 else DEFAULT_LATENCY_GUARD * LATENCY_GUARD_MULT), 0.0, 0, 0)
  }

  const PROBING_FROM := ENGAGE_TICKS + WARMUP_SAMPLES

  ghost function SampleAt(i: nat): Sample
  {
    if i < ENGAGE_TICKS then Pressing(i) else Warming(i)
  }

  /** The states on the way from pass-through to PROBING. */
  ghost function Along(c: Config, i: nat): (s: State)
    ensures |s.window| <= BASELINE_WINDOW
  {
    if i < ENGAGE_TICKS then Init(c).(pressure := i, prevPending := 17 * i)
    else
      var s := Engage(c, Init(c)).(prevPending := 17 * ENGAGE_TICKS, warmup := i - ENGAGE_TICKS);
      if i == ENGAGE_TICKS then s
      else s.(prevLimit := s.limit, window := [1.0], baselineP99 := 1.0,
              phase := if i < PROBING_FROM then Baseline else Probing)
  }

  lemma StepAlong(c: Config, i: nat)
    requires Legal(c) && i < PROBING_FROM
    ensures Tick(c, Along(c, i), SampleAt(i)).0 == Along(c, i + 1)
  {
    if i < ENGAGE_TICKS {
      assert Tick(c, Along(c, i), SampleAt(i)) == Pressed(c, Along(c, i).(prevPending := 17 * (i + 1)), true);
    } else {
      var s := Along(c, i);
      var w := Measured(s, Warming(i));
      assert Least([1.0]) == 1.0;
      assert w == s.(window := [1.0], baselineP99 := 1.0);
    }
  }

  ghost function RunAlong(c: Config, i: nat): (run: seq<Input>)
    requires i <= PROBING_FROM
    ensures |run| == PROBING_FROM - i
    decreases PROBING_FROM - i
  {
    if i == PROBING_FROM then [] else [Input(c, SampleAt(i))] + RunAlong(c, i + 1)
  }

  lemma {:induction false} RunsAlong(c: Config, i: nat)
    requires Legal(c) && i <= PROBING_FROM
    ensures After(Along(c, i), RunAlong(c, i)) == Along(c, PROBING_FROM)
    decreases PROBING_FROM - i
  {
    hide Tick, Along;
    if i < PROBING_FROM {
      StepAlong(c, i);
      RunsAlong(c, i + 1);
      assert RunAlong(c, i)[1..] == RunAlong(c, i + 1);
    }
  }

  /** Every legal controller has a run from start to a tick in PROBING that
      decides on its samples with a spike count of one. */
  lemma SpikeReached(c: Config) returns (run: seq<Input>)
    requires Legal(c)
    ensures |run| == PROBING_FROM + 1 && Fixed(c, run)
    ensures var s := Before(c, run, PROBING_FROM);
      var t := StatsAt(s, run[PROBING_FROM]);
      var (s', entered) := SpikeCheck(Saved(c, Measured(s, run[PROBING_FROM].sample), run[PROBING_FROM].sample), t);
      s.phase == Probing && s.spike == 0 && t.count > 0 && !entered && s'.spike == 1
    ensures After(Init(c), run).phase == Probing && After(Init(c), run).spike == 1
  {
    run := RunAlong(c, 0) + [Input(c, Slow(c))];
    assert Init(c) == Along(c, 0);
    RunsAlong(c, 0);
    AlongIsFixed(c, 0);
    assert run[..PROBING_FROM] == RunAlong(c, 0) && run[PROBING_FROM..] == [Input(c, Slow(c))];
    AfterSplit(Init(c), run, PROBING_FROM);
    AfterOne(Along(c, PROBING_FROM), Input(c, Slow(c)));
    SlowTick(c);
  }

  lemma {:induction false} AlongIsFixed(c: Config, i: nat)
    requires i <= PROBING_FROM
    ensures Fixed(c, RunAlong(c, i))
    decreases PROBING_FROM - i
  {
    if i < PROBING_FROM { AlongIsFixed(c, i + 1); }
  }

  /** A slow tick at the end of that run. */
  lemma SlowTick(c: Config)
    requires Legal(c)
    ensures var s := Along(c, PROBING_FROM);
      var t := StatsOf(c, Measured(s, Slow(c)), Slow(c));
      && t.rising && t.count > 0
      && Tick(c, s, Slow(c)).0.phase == Probing && Tick(c, s, Slow(c)).0.spike == 1
  {
    var s := Along(c, PROBING_FROM);
    var m := Measured(s, Slow(c));
    assert m.window == [1.0, Slow(c).p99.value] && m.window[..1] == [1.0];
    assert Least([1.0]) == 1.0;
    assert m.baselineP99 <= 1.0;
    var t := StatsOf(c, m, Slow(c));
    var saved := Saved(c, m, Slow(c));
    assert t.rising && t.count > 0 && t.ratio.None?;
    FirstSpike(c, saved, t);
    assert Tick(c, s, Slow(c)).0 == Handle(c, saved, t).0;
  }

  lemma FirstSpike(c: Config, s: State, t: Stats)
    requires (t.validP99 ==> t.p99.Some?) && t.rising && t.ratio.None?
    requires s.phase == Probing && s.spike == 0
    ensures Handle(c, s, t).0.phase == Probing && Handle(c, s, t).0.spike == 1
  {
    var (s1, entered) := SpikeCheck(s, t);
  }

  // ------------------------------------------------------------ a raised floor

  /** Settings that change while the controller runs: each legal, with one
      queue depth and no floor under `f`. */
  ghost predicate FloorFrom(f: int, depth: int, run: seq<Input>)
  {
    forall i :: 0 <= i < |run| ==> Legal(run[i].cfg) && run[i].cfg.maxQueueDepth == depth && f <= run[i].cfg.minInFlight
  }

  ghost predicate InReach(depth: int, s: State)
  {
    && Disciplined(s) && s.limit <= depth
    && (s.passthroughMode ==> s.limit == depth)
  }

  /** A tick that decides to probe one operation higher. */
  ghost predicate Climbs(c: Config, s: State, m: Sample)
    requires |s.window| <= BASELINE_WINDOW
  {
    var t := StatsOf(c, Measured(s, m), m);
    && s.phase == Probing && !(t.rising && s.spike == 1) && t.count > 0
    && s.limit < c.maxQueueDepth && !PlateauTick(c, t)
  }

  /** A tick that takes a limit under the floor back to it. */
  ghost predicate Lifts(c: Config, s: State, m: Sample)
    requires |s.window| <= BASELINE_WINDOW
  {
    Effective(m) && (s.phase == Backoff || (s.limit + 1 == c.minInFlight && Climbs(c, s, m)))
  }

  /** What the handlers do with a limit under the floor. */
  lemma HandledUnderFloor(c: Config, s: State, t: Stats)
    requires Legal(c) && (t.validP99 ==> t.p99.Some?)
    requires s.limit < c.minInFlight && s.spike <= 1
    ensures var s' := Handle(c, s, t).0;
      s'.limit == if s.phase == Backoff then c.minInFlight
        else if s.phase == Probing && !(t.rising && s.spike == 1) && t.count > 0 && !PlateauTick(c, t) then s.limit + 1
        else s.limit
  {
    match s.phase
    case Probing =>
      var (s1, spiked) := SpikeCheck(s, t);
    case _ =>
  }

  /** One tick with a limit under the floor: it is lifted exactly by the ticks
      above, and by no tick does it fall. */
  lemma UnderFloor(c: Config, s: State, m: Sample)
    requires Legal(c) && InReach(c.maxQueueDepth, s) && s.limit < c.minInFlight
    ensures var s' := Tick(c, s, m).0;
      && InReach(c.maxQueueDepth, s')
      && s.limit <= s'.limit <= c.minInFlight
      && (s'.limit == c.minInFlight <==> Lifts(c, s, m))
  {
    hide Measure, Handle, StatsOf, PlateauTick;
    TickKeepsDiscipline(c, s, m);
    if Effective(m) {
      var measured := Measured(s, m);
      var saved := Saved(c, measured, m);
      HandledUnderFloor(c, saved, StatsOf(c, measured, m));
    }
  }

  lemma AboveFloor(c: Config, s: State, m: Sample)
    requires Legal(c) && InReach(c.maxQueueDepth, s) && c.minInFlight <= s.limit
    ensures InReach(c.maxQueueDepth, Tick(c, s, m).0) && c.minInFlight <= Tick(c, s, m).0.limit
  {
    hide Measure, Handle, StatsOf;
    TickKeepsDiscipline(c, s, m);
    if Effective(m) {
      var measured := Measured(s, m);
      HandleKeepsBounds(c, Saved(c, measured, m), StatsOf(c, measured, m));
    }
  }

  /** However the floor moves, a limit not under the least of the floors stays so. */
  lemma {:induction false} LeastFloorHolds(f: int, depth: int, s: State, run: seq<Input>)
    requires InReach(depth, s) && f <= s.limit && FloorFrom(f, depth, run)
    ensures InReach(depth, After(s, run)) && f <= After(s, run).limit
    decreases run
  {
    if run != [] {
      hide Tick;
      var (c, m) := (run[0].cfg, run[0].sample);
      if s.limit < c.minInFlight {
        UnderFloor(c, s, m);
      } else {
        AboveFloor(c, s, m);
      }
      LeastFloorHolds(f, depth, Tick(c, s, m).0, run[1..]);
    }
  }

  /** Some tick of the run lifts the limit to the floor. */
  ghost predicate LiftedIn(c: Config, s: State, run: seq<Input>)
    requires |s.window| <= BASELINE_WINDOW
    decreases run
  {
    run != [] && (Lifts(c, s, run[0].sample) || LiftedIn(c, Tick(c, s, run[0].sample).0, run[1..]))
  }

  /** After the floor has been raised to that of `c`: at the end of a run the
      limit is at or above it exactly if it was so to begin with or some tick has lifted it. */
  lemma {:induction false} RaisedFloor(c: Config, s: State, run: seq<Input>)
    requires Legal(c) && InReach(c.maxQueueDepth, s) && Fixed(c, run)
    ensures c.minInFlight <= After(s, run).limit <==> c.minInFlight <= s.limit || LiftedIn(c, s, run)
    decreases run
  {
    hide Tick, Lifts;
    if c.minInFlight <= s.limit {
      FixedIsFrom(c, run);
      LeastFloorHolds(c.minInFlight, c.maxQueueDepth, s, run);
    } else if run != [] {
      UnderFloor(c, s, run[0].sample);
      RaisedFloor(c, Tick(c, s, run[0].sample).0, run[1..]);
    }
  }

  lemma FixedIsFrom(c: Config, run: seq<Input>)
    requires Legal(c) && Fixed(c, run)
    ensures FloorFrom(c.minInFlight, c.maxQueueDepth, run)
  {
  }

  // ------------------------------------------------------------------ staying idle

  /** No latency target is set, and never are more than `most` operations in flight. */
  ghost predicate Light(most: int, run: seq<Input>)
  {
    forall i :: 0 <= i < |run| ==> run[i].cfg.maxP99 == 0.0 && 0 <= run[i].sample.pending <= most
  }

  /** Pressure counts rises of the operations in flight, one after another. */
  ghost predicate Resting(s: State)
  {
    s.passthroughMode && |s.window| <= BASELINE_WINDOW && (ENGAGE_PENDING_DELTA + 1) * s.pressure <= s.prevPending
  }

  lemma TickRests(c: Config, s: State, m: Sample)
    requires Resting(s) && c.maxP99 == 0.0 && 0 <= m.pending < (ENGAGE_PENDING_DELTA + 1) * ENGAGE_TICKS
    ensures Resting(Tick(c, s, m).0) && Tick(c, s, m).0.limit == s.limit
  {
  }

  lemma {:induction false} RunRests(s: State, run: seq<Input>)
    requires Resting(s) && Light((ENGAGE_PENDING_DELTA + 1) * ENGAGE_TICKS - 1, run)
    ensures Resting(After(s, run)) && After(s, run).limit == s.limit
    decreases run
  {
    if run != [] {
      TickRests(run[0].cfg, s, run[0].sample);
      RunRests(Tick(run[0].cfg, s, run[0].sample).0, run[1..]);
    }
  }

  /** With at most 135 operations in flight and no target the controller never
      engages, and the limit stays the queue depth. */
  lemma FewNeverEngage(c: Config, run: seq<Input>)
    requires Light(135, run)
    ensures After(Init(c), run).passthroughMode && After(Init(c), run).limit == c.maxQueueDepth
  {
    RunRests(Init(c), run);
  }

  /** And 136 are enough: eight rises by seventeen engage every legal controller. */
  lemma ManyEngage(c: Config) returns (run: seq<Input>)
    requires Legal(c)
    ensures Fixed(c, run) && forall i :: 0 <= i < |run| ==> 0 <= run[i].sample.pending <= 136
    ensures !After(Init(c), run).passthroughMode
  {
    run := RunAlong(c, 0);
    assert Init(c) == Along(c, 0);
    RunsAlong(c, 0);
    AlongIsFixed(c, 0);
    AlongIsSmall(c, 0);
  }

  lemma {:induction false} AlongIsSmall(c: Config, i: nat)
    requires i <= PROBING_FROM
    ensures forall k :: 0 <= k < |RunAlong(c, i)| ==> 0 <= RunAlong(c, i)[k].sample.pending <= 136
    decreases PROBING_FROM - i
  {
    if i < PROBING_FROM { AlongIsSmall(c, i + 1); }
  }
}
