/** How the controller probes, told by the samples of a run alone: when a tick in
    PROBING raises the limit, where growing throughput takes it and how soon, where
    it goes whatever the throughput does, and how it comes back to PROBING after a
    cut. */
module AimdProbing {
  import opened Options
  import opened AimdSpec
  import opened AimdProperties
  import opened AimdRuns

  /** Throughput has grown by more than one percent of what it is now. */
  predicate Gain(was: real, now: real)
  {
    100.0 * (now - was) > if now > 0.0 then now else 0.0
  }

  /** There is a latency target, and a valid P99 below it. */
  predicate Headroom(c: Config, m: Sample)
  {
    c.maxP99 > 0.0 && m.count >= LOW_IOPS_MIN_SAMPLES && m.p99.Some? && m.p99.value < c.maxP99
  }

  // --------------------------------------------------------------- one tick

  ghost predicate Decides(s: State, m: Sample)
  {
    Effective(m) && !s.passthroughMode
  }

  /** A tick that decides leaves behind its throughput and the limit it found. */
  lemma DecisionSaved(c: Config, s: State, m: Sample)
    requires |s.window| <= BASELINE_WINDOW && Decides(s, m)
    ensures Tick(c, s, m).0.prevThroughput == m.throughput && Tick(c, s, m).0.prevLimit == s.limit
  {
    hide Measure, StatsOf, PlateauTick;
    var measured := Measured(s, m);
    HandlerSaves(c, Saved(c, measured, m), StatsOf(c, measured, m));
    StatsCarry(c, measured, m);
  }

  lemma StatsCarry(c: Config, s: State, m: Sample)
    ensures StatsOf(c, s, m).throughput == m.throughput && StatsOf(c, s, m).count == m.count
  {
  }

  lemma HandlerSaves(c: Config, s: State, t: Stats)
    requires t.validP99 ==> t.p99.Some?
    ensures var s' := Handle(c, s, t).0;
      && (s'.prevThroughput == s.prevThroughput || s'.prevThroughput == t.throughput)
      && (s'.prevLimit == s.prevLimit || s'.prevLimit == s.limit)
  {
    hide PlateauTick, SpikeCheck, LeaveSteady;
    match s.phase
    case Probing => ProbingSaves(c, s, t);
    case Steady => SteadySaves(s, t);
    case Converged => SpikeSaves(s, t);
    case _ =>
  }

  lemma SpikeSaves(s: State, t: Stats)
    ensures SpikeCheck(s, t).0.prevThroughput == s.prevThroughput && SpikeCheck(s, t).0.prevLimit == s.prevLimit
  {
  }

  lemma ProbingSaves(c: Config, s: State, t: Stats)
    requires t.validP99 ==> t.p99.Some?
    ensures OnProbing(c, s, t).0.prevThroughput == s.prevThroughput && OnProbing(c, s, t).0.prevLimit == s.prevLimit
  {
    hide PlateauTick;
  }

  lemma SteadySaves(s: State, t: Stats)
    ensures OnSteady(s, t).prevThroughput == s.prevThroughput && OnSteady(s, t).prevLimit == s.prevLimit
  {
  }

  /** The statistics behind a raise by one. */
  lemma PaysExactly(c: Config, s: State, m: Sample)
    requires s.prevLimit > 0 && s.limit == s.prevLimit + 1
    ensures var t := StatsOf(c, s, m);
      t.ratio.Some? && (PlateauTick(c, t) <==> !Gain(s.prevThroughput, m.throughput) && !Headroom(c, m))
  {
    var t := StatsOf(c, s, m);
    var d := s.limit - s.prevLimit;
    assert d == 1 && t.delta == 1 && d as real == 1.0;
    assert t.ratio == Some(m.throughput - s.prevThroughput);
    assert Threshold(t) == if m.throughput > 0.0 then m.throughput * 0.01 / 1.0 else 0.0;
  }

  lemma HandledProbing(c: Config, s: State, t: Stats)
    requires (t.validP99 ==> t.p99.Some?) && s.phase == Probing && s.spike <= 1 && t.count > 0 && !(t.rising && s.spike == 1)
    requires t.ratio.None? || s.plateau == 0
    ensures var s' := Handle(c, s, t).0;
      && s'.phase == Probing
      && s'.limit == s.limit + if s.limit < c.maxQueueDepth && (t.ratio.None? || !PlateauTick(c, t)) then 1 else 0
  {
  }

  lemma EntersBackoff(c: Config, s: State, t: Stats)
    requires (t.validP99 ==> t.p99.Some?) && s.phase == Probing && t.rising && s.spike == 1
    ensures Handle(c, s, t).0.phase == Backoff
  {
  }

  /** A tick in PROBING with samples that does not enter BACKOFF: the limit rises,
      if there is room, exactly if the tick before did not raise it or the raise has paid. */
  lemma ProbeRule(c: Config, s: State, m: Sample)
    requires Disciplined(s) && s.phase == Probing && 1 <= s.prevLimit && Effective(m) && m.count > 0
    requires Tick(c, s, m).0.phase != Backoff
    ensures var s' := Tick(c, s, m).0;
      && s'.phase == Probing
      && s'.limit == s.limit
           + if s.limit < c.maxQueueDepth && (s.limit == s.prevLimit || Gain(s.prevThroughput, m.throughput) || Headroom(c, m)) then 1 else 0
  {
    var measured := Measured(s, m);
    var t := StatsOf(c, measured, m);
    StatsCarry(c, measured, m);
    PlateauIsClear(c, s, m);
    NoRatio(c, measured, m);
    if s.limit == s.prevLimit + 1 { PaysExactly(c, measured, m); }
    hide Measure, StatsOf, Handle, PlateauTick, Gain, Headroom;
    if t.rising && s.spike == 1 {
      EntersBackoff(c, Saved(c, measured, m), t);
    } else {
      HandledProbing(c, Saved(c, measured, m), t);
    }
  }

  lemma NoRatio(c: Config, s: State, m: Sample)
    ensures s.limit == s.prevLimit ==> StatsOf(c, s, m).ratio.None?
  {
  }

  // ------------------------------------------------------------- over a whole run

  /** The controller after the first `k` ticks of a run from start. */
  ghost function At(c: Config, run: seq<Input>, k: nat): (s: State)
    requires k <= |run|
    ensures |s.window| <= BASELINE_WINDOW
  {
    After(Init(c), run[..k])
  }

  lemma OneTickOn(c: Config, run: seq<Input>, k: nat)
    requires k < |run|
    ensures At(c, run, k + 1) == Tick(run[k].cfg, At(c, run, k), run[k].sample).0
  {
    AfterSplit(Init(c), run[..k + 1], k);
    assert run[..k + 1][..k] == run[..k] && run[..k + 1][k..] == [run[k]];
    AfterOne(At(c, run, k), run[k]);
  }

  lemma DisciplinedAt(c: Config, run: seq<Input>, k: nat)
    requires k <= |run|
    ensures Disciplined(At(c, run, k))
  {
    PhaseDiscipline(Init(c), run[..k]);
  }

  lemma PassthroughIsNotProbing(c: Config, s: State, m: Sample)
    requires |s.window| <= BASELINE_WINDOW && s.passthroughMode && s.phase != Probing
    ensures Tick(c, s, m).0.phase != Probing
  {
  }

  /** A controller in PROBING has decided before, and what it remembers is the
      throughput of the last tick that decided and the limit which that tick found. */
  lemma {:induction false} LastDecision(c: Config, run: seq<Input>, k: nat) returns (j: nat)
    requires k <= |run| && At(c, run, k).phase == Probing
    ensures j < k && Decides(At(c, run, j), run[j].sample) && forall i :: j < i < k ==> !Effective(run[i].sample)
    ensures At(c, run, k).prevThroughput == run[j].sample.throughput && At(c, run, k).prevLimit == At(c, run, j).limit
    decreases k
  {
    assert run[..0] == [];
    if k == 0 {
      assert false;
    } else {
      OneTickOn(c, run, k - 1);
      DisciplinedAt(c, run, k - 1);
      var s := At(c, run, k - 1);
      hide At;
      if Decides(s, run[k - 1].sample) {
        j := k - 1;
        DecisionSaved(run[j].cfg, s, run[j].sample);
      } else if Effective(run[k - 1].sample) {
        PassthroughIsNotProbing(run[k - 1].cfg, s, run[k - 1].sample);
        assert false;
      } else {
        j := LastDecision(c, run, k - 1);
      }
    }
  }

  /** In every run with legal settings and one queue depth: at a tick in PROBING
      with samples that does not enter BACKOFF, the limit rises by one if there is
      room and the last tick that decided had not raised it, or had and throughput
      has grown by more than one percent since, or a target leaves headroom; and in
      no other case. */
  lemma ProbesExactly(c: Config, run: seq<Input>, k: nat) returns (j: nat)
    requires Legal(c) && FloorFrom(1, c.maxQueueDepth, run) && k < |run|
    requires At(c, run, k).phase == Probing && Effective(run[k].sample) && run[k].sample.count > 0
    requires At(c, run, k + 1).phase != Backoff
    ensures j < k && Decides(At(c, run, j), run[j].sample) && forall i :: j < i < k ==> !Effective(run[i].sample)
    ensures var (before, now, after) := (At(c, run, j).limit, At(c, run, k).limit, At(c, run, k + 1).limit);
      && (now == before || now == before + 1)
      && after == now + if now < c.maxQueueDepth
           && (now == before || Gain(run[j].sample.throughput, run[k].sample.throughput) || Headroom(run[k].cfg, run[k].sample)) then 1 else 0
  {
    j := LastDecision(c, run, k);
    assert FloorFrom(1, c.maxQueueDepth, run[..j]);
    LeastFloorHolds(1, c.maxQueueDepth, Init(c), run[..j]);
    DisciplinedAt(c, run, k);
    OneTickOn(c, run, k);
    hide At, Gain, Headroom, Tick;
    ProbeRule(run[k].cfg, At(c, run, k), run[k].sample);
  }

  // ------------------------------------------------------------------- climbing

  /** A tick with samples and without rising latency. */
  ghost predicate Calm(c: Config, s: State, m: Sample)
    requires |s.window| <= BASELINE_WINDOW
  {
    Effective(m) && m.count > 0 && !Rising(c, s, m)
  }

  ghost predicate KeepsCalm(c: Config, s: State, run: seq<Input>)
    requires |s.window| <= BASELINE_WINDOW
    decreases run
  {
    run == [] || (Calm(c, s, run[0].sample) && KeepsCalm(c, Tick(c, s, run[0].sample).0, run[1..]))
  }

  /** Each tick has more than one percent more throughput than the one before; `was`
      comes before the first. */
  ghost predicate KeepsGrowing(was: real, run: seq<Input>)
    decreases run
  {
    run == [] || (Gain(was, run[0].sample.throughput) && KeepsGrowing(run[0].sample.throughput, run[1..]))
  }

  ghost function Lesser(a: int, b: int): int
  {
    if a < b then a else b
  }

  ghost predicate Probes(c: Config, s: State)
  {
    Disciplined(s) && s.phase == Probing && 1 <= s.prevLimit && s.limit <= c.maxQueueDepth
  }

  lemma CalmTick(c: Config, s: State, m: Sample)
    requires Probes(c, s) && Calm(c, s, m)
    ensures var s' := Tick(c, s, m).0;
      && Probes(c, s') && s'.prevThroughput == m.throughput && s'.prevLimit == s.limit
      && s'.limit == s.limit
           + if s.limit < c.maxQueueDepth && (s.limit == s.prevLimit || Gain(s.prevThroughput, m.throughput) || Headroom(c, m)) then 1 else 0
  {
    NoBackoff(c, s, m);
    ProbeRule(c, s, m);
    DecisionSaved(c, s, m);
    TickKeepsDiscipline(c, s, m);
  }

  lemma NoBackoff(c: Config, s: State, m: Sample)
    requires Disciplined(s) && s.phase == Probing && Calm(c, s, m)
    ensures Tick(c, s, m).0.phase != Backoff
  {
    var measured := Measured(s, m);
    hide Measure, StatsOf, PlateauTick;
    StaysOut(c, Saved(c, measured, m), StatsOf(c, measured, m));
  }

  lemma StaysOut(c: Config, s: State, t: Stats)
    requires (t.validP99 ==> t.p99.Some?) && s.phase == Probing && !t.rising
    ensures Handle(c, s, t).0.phase != Backoff
  {
    hide PlateauTick;
  }

  /** With throughput growing at every tick and latency calm, every tick raises the
      limit by one until it is the queue depth. */
  lemma {:induction false} GrowthReachesDepth(c: Config, s: State, run: seq<Input>)
    requires Probes(c, s) && Fixed(c, run) && KeepsCalm(c, s, run) && KeepsGrowing(s.prevThroughput, run)
    ensures Probes(c, After(s, run)) && After(s, run).limit == Lesser(c.maxQueueDepth, s.limit + |run|)
    decreases run
  {
    if run != [] {
      CalmTick(c, s, run[0].sample);
      hide Tick, Probes, Calm, Gain;
      GrowthReachesDepth(c, Tick(c, s, run[0].sample).0, run[1..]);
    }
  }

  /** Whatever the throughput does: with latency calm no two ticks go by without a
      raise, so the limit reaches the queue depth after at most twice as many. */
  lemma {:induction false} CalmReachesDepth(c: Config, s: State, run: seq<Input>)
    requires Probes(c, s) && Fixed(c, run) && KeepsCalm(c, s, run)
    ensures Probes(c, After(s, run))
    ensures After(s, run).limit >= Lesser(c.maxQueueDepth, s.limit + (|run| + if s.limit == s.prevLimit then 1 else 0) / 2)
    decreases run
  {
    if run != [] {
      CalmTick(c, s, run[0].sample);
      ProbesIs(c, s);
      hide Tick, Probes, Calm, Gain, Headroom;
      CalmReachesDepth(c, Tick(c, s, run[0].sample).0, run[1..]);
    }
  }

  lemma ProbesIs(c: Config, s: State)
    requires Probes(c, s)
    ensures s.limit == s.prevLimit || s.limit == s.prevLimit + 1
    ensures s.limit <= c.maxQueueDepth
  {
  }

  /** From start: a run into PROBING, and from there on growing throughput. */
  lemma GrowthFromStart(c: Config, run: seq<Input>)
    requires Legal(c) && Fixed(c, run)
    requires KeepsCalm(c, Along(c, PROBING_FROM), run) && KeepsGrowing(0.0, run)
    ensures var whole := RunAlong(c, 0) + run;
      && |RunAlong(c, 0)| == PROBING_FROM
      && After(Init(c), whole).limit == Lesser(c.maxQueueDepth, Along(c, PROBING_FROM).limit + |run|)
  {
    var whole := RunAlong(c, 0) + run;
    assert Init(c) == Along(c, 0);
    assert whole[..PROBING_FROM] == RunAlong(c, 0) && whole[PROBING_FROM..] == run;
    assert Probes(c, Along(c, PROBING_FROM)) && Along(c, PROBING_FROM).prevThroughput == 0.0;
    hide Along, After, KeepsCalm, KeepsGrowing, Probes;
    RunsAlong(c, 0);
    AfterSplit(Init(c), whole, PROBING_FROM);
    GrowthReachesDepth(c, Along(c, PROBING_FROM), run);
  }

  // --------------------------------------------------------- back after a cut

  const REPROBE_AFTER := 1 + SETTLING_TICKS + REPROBE_INTERVAL

  /** Where the controller is `n` ticks after it entered BACKOFF. */
  ghost predicate Recovering(s: State, n: nat)
  {
    if n == 0 then s.phase == Backoff
    else if n <= SETTLING_TICKS then s.phase == Settling && s.viaBackoff && s.settling == n - 1
    else if n < REPROBE_AFTER then s.phase == Steady && s.viaBackoff && s.steady == n - 1 - SETTLING_TICKS
    else n == REPROBE_AFTER && s.phase == Probing
  }

  /** No tick but the first, which cuts in any case, finds rising latency. */
  ghost predicate KeepsEasy(c: Config, s: State, run: seq<Input>, n: nat)
    requires |s.window| <= BASELINE_WINDOW
    decreases run
  {
    run == [] ||
    (Effective(run[0].sample) && (n == 0 || !Rising(c, s, run[0].sample))
     && KeepsEasy(c, Tick(c, s, run[0].sample).0, run[1..], n + 1))
  }

  lemma HandledEasy(c: Config, s: State, t: Stats, n: nat)
    requires (t.validP99 ==> t.p99.Some?) && Recovering(s, n) && n < REPROBE_AFTER && (n == 0 || !t.rising)
    ensures Recovering(Handle(c, s, t).0, n + 1)
    ensures Handle(c, s, t).0.limit == if n == 0 then Reduced(c, s.limit) else s.limit
  {
    hide Reduced;
  }

  lemma EasyTick(c: Config, s: State, m: Sample, n: nat)
    requires Disciplined(s) && Recovering(s, n) && n < REPROBE_AFTER && Effective(m) && (n == 0 || !Rising(c, s, m))
    ensures var s' := Tick(c, s, m).0;
      Disciplined(s') && Recovering(s', n + 1) && s'.limit == if n == 0 then Reduced(c, s.limit) else s.limit
  {
    TickKeepsDiscipline(c, s, m);
    var measured := Measured(s, m);
    hide Measure, StatsOf, Handle, Reduced;
    HandledEasy(c, Saved(c, measured, m), StatsOf(c, measured, m), n);
  }

  lemma {:induction false} StaysEasy(c: Config, s: State, run: seq<Input>, n: nat)
    requires Disciplined(s) && 0 < n && Recovering(s, n) && n + |run| <= REPROBE_AFTER
    requires Fixed(c, run) && KeepsEasy(c, s, run, n)
    ensures Recovering(After(s, run), n + |run|) && After(s, run).limit == s.limit
    decreases run
  {
    if run != [] {
      EasyTick(c, s, run[0].sample, n);
      var s' := Tick(run[0].cfg, s, run[0].sample).0;
      FixedRest(c, run);
      hide Tick, Disciplined, Recovering, Rising, Effective, Fixed;
      StaysEasy(c, s', run[1..], n + 1);
    }
  }

  lemma FixedRest(c: Config, run: seq<Input>)
    requires Fixed(c, run) && run != []
    ensures run[0].cfg == c && Fixed(c, run[1..])
  {
  }

  /** A cut, and what follows when latency is no longer high: one tick in BACKOFF,
      ten in SETTLING, a hundred in STEADY, all at the limit of the cut, and then
      PROBING again; not a tick sooner or later. */
  lemma CutIsRecovered(c: Config, s: State, run: seq<Input>)
    requires Disciplined(s) && s.phase == Backoff && 0 < |run| <= 111
    requires Fixed(c, run) && KeepsEasy(c, s, run, 0)
    ensures var s' := After(s, run);
      && s'.limit == (if 4 * s.limit / 5 > c.minInFlight then 4 * s.limit / 5 else c.minInFlight)
      && s'.phase == (if |run| <= 10 then Settling else if |run| <= 110 then Steady else Probing)
  {
    EasyTick(c, s, run[0].sample, 0);
    FixedRest(c, run);
    StaysEasy(c, Tick(c, s, run[0].sample).0, run[1..], 1);
    hide Tick, Disciplined, Rising, Effective, Fixed;
  }
}
