/** What holds over whole runs of the AIMD controller. */
module AimdProperties {
  import opened Options
  import opened AimdSpec

  /** A tick under the configuration in force at that tick. */
  datatype Input = Input(cfg: Config, sample: Sample)

  /** The state after a run of ticks. */
  ghost function After(s: State, run: seq<Input>): (r: State)
    requires |s.window| <= BASELINE_WINDOW
    ensures |r.window| <= BASELINE_WINDOW
    decreases run
  {
    if run == [] then s else After(Tick(run[0].cfg, s, run[0].sample).0, run[1..])
  }

  // ---------------------------------------------------------- phase discipline

  ghost predicate Disciplined(s: State)
  {
    && |s.window| <= BASELINE_WINDOW
    && s.phase != Converged
    && (s.passthroughMode <==> s.phase == Passthrough)
    && (s.phase == Settling || s.phase == Steady ==> s.viaBackoff)
    && (s.phase == Probing ==>
          s.limit == s.prevLimit || (s.limit == s.prevLimit + 1 && s.plateau == 0))
    && s.spike <= 1
  }

  /** The guards that the controller's design provides for leaving PROBING by a
      plateau, STEADY by convergence, and active control by a flat load. */
  ghost predicate LeavesByPlateau(s: State, s': State)
  {
    s.phase == Probing && s'.phase == Settling
  }

  ghost predicate Converges(s: State, s': State)
  {
    s'.phase == Converged
  }

  ghost predicate ReturnsToPassthrough(s: State, s': State)
  {
    !s.passthroughMode && s'.passthroughMode
  }

  /** SETTLING is entered from BACKOFF only, and STEADY from SETTLING. */
  ghost predicate EntersInOrder(s: State, s': State)
  {
    && (s'.phase == Settling && s.phase != Settling ==> s.phase == Backoff && s'.viaBackoff)
    && (s'.phase == Steady && s.phase != Steady ==> s.phase == Settling && s'.viaBackoff)
  }

  /** The handlers, started from a state whose previous limit has just been saved. */
  lemma HandleKeepsDiscipline(c: Config, s: State, t: Stats)
    requires t.validP99 ==> t.p99.Some?
    requires |s.window| <= BASELINE_WINDOW && s.phase != Converged && s.phase != Passthrough && !s.passthroughMode
    requires s.phase == Settling || s.phase == Steady ==> s.viaBackoff
    requires s.limit == s.prevLimit && s.spike <= 1
    requires s.phase == Probing && t.ratio.Some? ==> s.plateau == 0
    ensures var s' := Handle(c, s, t).0;
      && Disciplined(s') && !s'.passthroughMode
      && EntersInOrder(s, s') && !LeavesByPlateau(s, s')
  {
    match s.phase
    case Probing =>
      var (s1, spiked) := SpikeCheck(s, t);
    case _ =>
  }

  /** A throughput ratio exists only right after an increase, which cleared the plateau count. */
  lemma PlateauIsClear(c: Config, s: State, m: Sample)
    requires Disciplined(s)
    ensures s.phase == Probing && StatsOf(c, Measured(s, m), m).ratio.Some? ==> s.plateau == 0
  {
  }

  lemma ActiveKeepsDiscipline(c: Config, s: State, m: Sample)
    requires Disciplined(s) && !s.passthroughMode
    ensures var s' := TickActive(c, s, m).0;
      && Disciplined(s') && !s'.passthroughMode
      && EntersInOrder(s, s') && !LeavesByPlateau(s, s')
  {
    hide Measure, TunedBatch, Handle;
    var measured := Measured(s, m);
    HandleKeepsDiscipline(c, Saved(c, measured, m), StatsOf(c, measured, m));
  }

  lemma TickKeepsDiscipline(c: Config, s: State, m: Sample)
    requires Disciplined(s)
    ensures var s' := Tick(c, s, m).0;
      && Disciplined(s')
      && EntersInOrder(s, s')
      && !LeavesByPlateau(s, s') && !Converges(s, s') && !ReturnsToPassthrough(s, s')
  {
    hide Measured, Saved, Handle, Reenter, Least, Slide;
    if Effective(m) && !s.passthroughMode {
      ActiveKeepsDiscipline(c, s, m);
    }
  }

  /** Over every run, whatever the configuration and however it changes: the
      three exits above are never taken. In particular a controller that has
      engaged never goes back to pass-through. */
  lemma {:induction false} PhaseDiscipline(s: State, run: seq<Input>)
    requires Disciplined(s)
    ensures Disciplined(After(s, run))
    ensures !s.passthroughMode ==> !After(s, run).passthroughMode
    decreases run
  {
    if run != [] {
      TickKeepsDiscipline(run[0].cfg, s, run[0].sample);
      PhaseDiscipline(Tick(run[0].cfg, s, run[0].sample).0, run[1..]);
    }
  }

  lemma {:induction false} AfterSplit(s: State, run: seq<Input>, k: nat)
    requires |s.window| <= BASELINE_WINDOW && k <= |run|
    ensures After(s, run) == After(After(s, run[..k]), run[k..])
    decreases run
  {
    if k == 0 {
      assert run[..k] == [] && run[k..] == run;
    } else {
      var s' := Tick(run[0].cfg, s, run[0].sample).0;
      AfterSplit(s', run[1..], k - 1);
      assert run[1..][..k - 1] == run[..k][1..];
      assert run[1..][k - 1..] == run[k..];
    }
  }

  /** The three exits are not taken at any tick of any run, and SETTLING and STEADY
      are entered in order. */
  lemma ExitsNeverTaken(s: State, run: seq<Input>)
    requires Disciplined(s)
    ensures forall k {:trigger run[..k]} :: 0 <= k < |run| ==>
      var a, b := After(s, run[..k]), After(s, run[..k + 1]);
      !LeavesByPlateau(a, b) && !Converges(a, b) && !ReturnsToPassthrough(a, b) && EntersInOrder(a, b)
  {
    forall k | 0 <= k < |run|
      ensures var a, b := After(s, run[..k]), After(s, run[..k + 1]);
        !LeavesByPlateau(a, b) && !Converges(a, b) && !ReturnsToPassthrough(a, b) && EntersInOrder(a, b)
    {
      hide Disciplined, LeavesByPlateau, Converges, ReturnsToPassthrough, EntersInOrder, Tick;
      DisciplinedIsWindowed(s);
      PhaseDiscipline(s, run[..k]);
      DisciplinedIsWindowed(After(s, run[..k]));
      AfterSplit(s, run[..k + 1], k);
      assert run[..k + 1][..k] == run[..k] && run[..k + 1][k..] == [run[k]];
      assert [run[k]][1..] == [];
      TickKeepsDiscipline(run[k].cfg, After(s, run[..k]), run[k].sample);
      AfterOne(After(s, run[..k]), run[k]);
    }
  }

  lemma DisciplinedIsWindowed(s: State)
    requires Disciplined(s)
    ensures |s.window| <= BASELINE_WINDOW
  {
  }

  lemma AfterOne(s: State, i: Input)
    requires |s.window| <= BASELINE_WINDOW
    ensures After(s, [i]) == Tick(i.cfg, s, i.sample).0
  {
    assert [i][1..] == [];
  }

  /** Once engaged, always engaged, at every two points of a run from start. */
  lemma EngagedForGood(c: Config, run: seq<Input>, i: nat, j: nat)
    requires i <= j <= |run|
    requires !After(Init(c), run[..i]).passthroughMode
    ensures !After(Init(c), run[..j]).passthroughMode
    ensures After(Init(c), run[..j]).phase != Converged
  {
    AfterSplit(Init(c), run[..j], i);
    assert run[..j][..i] == run[..i];
    PhaseDiscipline(Init(c), run[..i]);
    PhaseDiscipline(After(Init(c), run[..i]), run[..j][i..]);
  }

  // -------------------------------------------------------------------- bounds

  ghost predicate Bounded(c: Config, s: State)
  {
    && c.minInFlight <= s.limit <= c.maxQueueDepth
    && (s.passthroughMode ==> s.limit == c.maxQueueDepth)
    && (!c.batchFixed ==> MIN_BATCH <= s.batch <= MAX_BATCH)
  }

  lemma HandleKeepsBounds(c: Config, s: State, t: Stats)
    requires Legal(c) && (t.validP99 ==> t.p99.Some?)
    requires c.minInFlight <= s.limit <= c.maxQueueDepth
    ensures var s' := Handle(c, s, t).0;
      c.minInFlight <= s'.limit <= c.maxQueueDepth && s'.limit <= s.limit + 1 && s'.batch == s.batch
  {
    match s.phase
    case Probing =>
      var (s1, spiked) := SpikeCheck(s, t);
    case _ =>
  }

  lemma TickKeepsBounds(c: Config, s: State, m: Sample)
    requires Legal(c) && Disciplined(s) && Bounded(c, s)
    ensures var s' := Tick(c, s, m).0;
      && Bounded(c, s')
      && (if c.batchFixed then s'.batch == s.batch else s.batch - 1 <= s'.batch <= s.batch + 1)
      && (s'.limit > s.limit ==> s'.limit == s.limit + 1)
  {
    hide Measure, Handle;
    TickKeepsDiscipline(c, s, m);
    if Effective(m) && !s.passthroughMode {
      var measured := Measured(s, m);
      PlateauIsClear(c, s, m);
      HandleKeepsDiscipline(c, Saved(c, measured, m), StatsOf(c, measured, m));
      HandleKeepsBounds(c, Saved(c, measured, m), StatsOf(c, measured, m));
    }
  }

  /** A run under one configuration. */
  ghost predicate Fixed(c: Config, run: seq<Input>)
  {
    forall i :: 0 <= i < |run| ==> run[i].cfg == c
  }

  lemma {:induction false} LimitsHold(c: Config, s: State, run: seq<Input>)
    requires Legal(c) && Disciplined(s) && Bounded(c, s) && Fixed(c, run)
    ensures Disciplined(After(s, run)) && Bounded(c, After(s, run))
    decreases run
  {
    if run != [] {
      TickKeepsDiscipline(c, s, run[0].sample);
      TickKeepsBounds(c, s, run[0].sample);
      LimitsHold(c, Tick(c, s, run[0].sample).0, run[1..]);
    }
  }

  /** From the initial state the in-flight limit stays in its range, and
      pass-through is exactly the phase in which it is the maximum by rule. */
  lemma LimitsHoldFromStart(c: Config, run: seq<Input>)
    requires Legal(c) && Fixed(c, run)
    ensures var s := After(Init(c), run);
      && c.minInFlight <= s.limit <= c.maxQueueDepth
      && (s.passthroughMode <==> s.phase == Passthrough)
      && (s.passthroughMode ==> s.limit == c.maxQueueDepth)
      && (!c.batchFixed ==> MIN_BATCH <= s.batch <= MAX_BATCH)
  {
    LimitsHold(c, Init(c), run);
  }

  // --------------------------------------------------------- sustained latency

  /** A tick that decides, and finds latency at or above the guard. */
  ghost predicate Rising(c: Config, s: State, m: Sample)
    requires |s.window| <= BASELINE_WINDOW
  {
    && Effective(m)
    && StatsOf(c, Measured(s, m), m).rising
  }

  /** With a latency target, a tick with enough samples rises exactly when its
      P99 is at or above the target. */
  lemma RisingIsTargetBreach(c: Config, s: State, m: Sample)
    requires |s.window| <= BASELINE_WINDOW && c.maxP99 > 0.0 && Effective(m)
    ensures Rising(c, s, m) <==> m.count >= LOW_IOPS_MIN_SAMPLES && m.p99.Some? && m.p99.value >= c.maxP99
  {
    hide Measure;
  }

  ghost predicate KeepsRising(c: Config, s: State, run: seq<Input>)
    requires |s.window| <= BASELINE_WINDOW
    decreases run
  {
    run == [] || (Rising(c, s, run[0].sample) && KeepsRising(c, Tick(c, s, run[0].sample).0, run[1..]))
  }

  /** Each cut takes a limit above the floor down to the floor or by a fifth. */
  lemma CutShrinks(c: Config, limit: int)
    requires Legal(c) && c.minInFlight < limit
    ensures Reduced(c, limit) < limit
    ensures c.minInFlight <= Reduced(c, limit)
    ensures Reduced(c, limit) == c.minInFlight || 5 * Reduced(c, limit) <= 4 * limit
  {
  }

  /** Cuts needed to bring a limit to the floor. */
  ghost function Cuts(c: Config, limit: int): (n: nat)
    requires Legal(c)
    decreases limit
  {
    if limit <= c.minInFlight then 0
    else
      CutShrinks(c, limit);
      1 + Cuts(c, Reduced(c, limit))
  }

  lemma {:induction false} CutsMonotone(c: Config, a: int, b: int)
    requires Legal(c) && a <= b
    ensures Cuts(c, a) <= Cuts(c, b)
    decreases b
  {
    if c.minInFlight < a {
      CutShrinks(c, a);
      CutShrinks(c, b);
      CutsMonotone(c, Reduced(c, a), Reduced(c, b));
    }
  }

  /** Four cuts at least halve a limit. */
  lemma CutsHalve(c: Config, a: int, b: int)
    requires Legal(c) && a <= 2 * b
    ensures Cuts(c, a) <= 4 + Cuts(c, b)
  {
    if c.minInFlight < a {
      CutShrinks(c, a);
      var a1 := Reduced(c, a);
      assert Cuts(c, a) == 1 + Cuts(c, a1);
      if c.minInFlight < a1 {
        CutShrinks(c, a1);
        var a2 := Reduced(c, a1);
        assert Cuts(c, a1) == 1 + Cuts(c, a2);
        if c.minInFlight < a2 {
          CutShrinks(c, a2);
          var a3 := Reduced(c, a2);
          assert Cuts(c, a2) == 1 + Cuts(c, a3);
          if c.minInFlight < a3 {
            CutShrinks(c, a3);
            CutsMonotone(c, Reduced(c, a3), if c.minInFlight < b then b else c.minInFlight);
          }
        }
      }
    }
  }

  /** At the largest queue depth sixty cuts are enough. */
  lemma CutsBound(c: Config, limit: int)
    requires Legal(c) && limit <= QUEUE_DEPTH_LIMIT
    ensures Cuts(c, limit) <= 60
  {
    CutsHalve(c, limit, 16384);
    CutsHalve(c, 16384, 8192);
    CutsHalve(c, 8192, 4096);
    CutsHalve(c, 4096, 2048);
    CutsHalve(c, 2048, 1024);
    CutsHalve(c, 1024, 512);
    CutsHalve(c, 512, 256);
    CutsHalve(c, 256, 128);
    CutsHalve(c, 128, 64);
    CutsHalve(c, 64, 32);
    CutsHalve(c, 32, 16);
    CutsHalve(c, 16, 8);
    CutsHalve(c, 8, 4);
    CutsHalve(c, 4, 2);
    CutsHalve(c, 2, 1);
  }

  ghost predicate Reacts(s: State)
  {
    s.phase == Probing || s.phase == Settling || s.phase == Steady || s.phase == Backoff
  }

  ghost function Raised(c: Config, limit: int): int
  {
    if limit < c.maxQueueDepth then limit + 1 else limit
  }

  /** Ticks of rising latency after which the limit is at the floor. */
  ghost function Budget(c: Config, s: State): (n: nat)
    requires Legal(c)
  {
    match s.phase
    case Settling => 2 * Cuts(c, s.limit)
    case Backoff => if s.limit <= c.minInFlight then 0 else 2 * Cuts(c, s.limit) - 1
    case _ => if s.spike == 0 then 2 + 2 * Cuts(c, Raised(c, s.limit)) else 1 + 2 * Cuts(c, s.limit)
  }

  lemma BudgetBound(c: Config, s: State)
    requires Legal(c) && s.limit <= c.maxQueueDepth
    ensures Budget(c, s) <= 122
  {
    CutsBound(c, s.limit);
    CutsBound(c, Raised(c, s.limit));
  }

  /** A state in which rising latency has done all it can. */
  ghost predicate AtFloor(c: Config, s: State)
  {
    s.limit == c.minInFlight && (s.phase == Settling || s.phase == Backoff)
  }

  /** What a handler does with a rising tick. */
  lemma RisingHandled(c: Config, s: State, t: Stats)
    requires t.rising && (t.validP99 ==> t.p99.Some?)
    requires Reacts(s) && s.spike <= 1
    requires s.phase == Steady ==> s.viaBackoff
    requires s.phase == Probing && t.ratio.Some? ==> s.plateau == 0
    ensures var s' := Handle(c, s, t).0;
      match s.phase
      case Settling => s'.phase == Backoff && s'.limit == s.limit
      case Backoff => s'.phase == Settling && s'.limit == Reduced(c, s.limit)
      case _ =>
        if s.spike == 1 then s'.phase == Backoff && s'.limit == s.limit
        else (s'.phase == Probing || s'.phase == Steady) && s'.spike == 1 && s.limit <= s'.limit <= Raised(c, s.limit)
  {
  }

  /** A rising tick uses up the budget; BACKOFF and SETTLING alternate. */
  lemma RisingStep(c: Config, s: State, m: Sample)
    requires Legal(c) && Disciplined(s) && Bounded(c, s) && Reacts(s) && Rising(c, s, m)
    ensures var s' := Tick(c, s, m).0;
      && Reacts(s')
      && (AtFloor(c, s) ==> AtFloor(c, s'))
      && (!AtFloor(c, s) ==> Budget(c, s') < Budget(c, s) || AtFloor(c, s'))
      && (s.phase == Backoff ==> s'.phase == Settling && s'.limit == Reduced(c, s.limit))
      && (s.phase == Settling ==> s'.phase == Backoff && s'.limit == s.limit)
  {
    hide Measure, TunedBatch, Handle, StatsOf;
    TickKeepsBounds(c, s, m);
    var measured := Measured(s, m);
    assert Tick(c, s, m).0.phase != Converged by {
      TickKeepsDiscipline(c, s, m);
    }
    PlateauIsClear(c, s, m);
    RisingHandled(c, Saved(c, measured, m), StatsOf(c, measured, m));
    var l' := Tick(c, s, m).0.limit;
    CutsMonotone(c, l', Raised(c, s.limit));
    if c.minInFlight < s.limit {
      CutShrinks(c, s.limit);
    }
  }

  lemma {:induction false} Sustained(c: Config, s: State, run: seq<Input>)
    requires Legal(c) && Disciplined(s) && Bounded(c, s) && Reacts(s)
    requires Fixed(c, run) && KeepsRising(c, s, run)
    requires AtFloor(c, s) || Budget(c, s) <= |run|
    ensures AtFloor(c, After(s, run))
    decreases run
  {
    if run == [] {
      if c.minInFlight < s.limit {
        CutShrinks(c, s.limit);
      }
    } else {
      RisingStep(c, s, run[0].sample);
      TickKeepsDiscipline(c, s, run[0].sample);
      TickKeepsBounds(c, s, run[0].sample);
      Sustained(c, Tick(c, s, run[0].sample).0, run[1..]);
    }
  }

  /** Under sustained rising latency every legal controller that reacts to
      latency has its limit at the floor after 122 deciding ticks, and keeps it
      there as long as latency keeps rising. */
  lemma SustainedLatencyReachesFloor(c: Config, s: State, run: seq<Input>)
    requires Legal(c) && Disciplined(s) && Bounded(c, s) && Reacts(s)
    requires Fixed(c, run) && KeepsRising(c, s, run)
    requires 122 <= |run|
    ensures After(s, run).limit == c.minInFlight
  {
    BudgetBound(c, s);
    Sustained(c, s, run);
  }
}
