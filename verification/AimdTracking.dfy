/** What the controller keeps track of besides its phase, told by the samples of a
    run: the batch threshold follows the ratio of SQEs to submits, and the latency
    guard, without a target, is ten times the least of the last fifty P99s that
    congestion did not inflate. */
module AimdTracking {
  import opened Options
  import opened AimdSpec
  import opened AimdProperties
  import opened AimdRuns
  import opened AimdProbing

  // ------------------------------------------------------------ the batch threshold

  /** Fewer than eight SQEs per submit. */
  predicate Sparse(m: Sample)
  {
    0 < m.sqes < 8 * m.submitCalls
  }

  /** More than twelve. */
  predicate Dense(m: Sample)
  {
    0 < m.submitCalls && 12 * m.submitCalls < m.sqes
  }

  lemma ProbingKeeps(c: Config, s: State, t: Stats)
    requires t.validP99 ==> t.p99.Some?
    ensures OnProbing(c, s, t).0.batch == s.batch && OnProbing(c, s, t).0.baselineP99 == s.baselineP99
  {
    hide PlateauTick;
  }

  /** The handlers leave the threshold and the baseline alone. */
  lemma HandlerKeeps(c: Config, s: State, t: Stats)
    requires t.validP99 ==> t.p99.Some?
    ensures var s' := Handle(c, s, t).0;
      s'.batch == s.batch && s'.window == s.window && s'.baselineP99 == s.baselineP99
  {
    hide OnProbing;
    ProbingKeeps(c, s, t);
  }

  /** A tick that decides moves the threshold by one towards the target ratio while
      it has room, and in no other case. */
  lemma BatchTick(c: Config, s: State, m: Sample)
    requires |s.window| <= BASELINE_WINDOW && Decides(s, m)
    ensures var b := Tick(c, s, m).0.batch;
      && (!c.batchFixed && Sparse(m) && s.batch < 64 ==> b == s.batch + 1)
      && (!c.batchFixed && Dense(m) && s.batch > 2 ==> b == s.batch - 1)
      && (c.batchFixed || (Sparse(m) && s.batch >= 64) || (Dense(m) && s.batch <= 2) || !(Sparse(m) || Dense(m)) ==> b == s.batch)
  {
    hide Measure, StatsOf, Handle;
    var measured := Measured(s, m);
    HandlerKeeps(c, Saved(c, measured, m), StatsOf(c, measured, m));
  }

  ghost predicate Batches(run: seq<Input>, sparse: bool)
  {
    forall i {:trigger run[i]} :: 0 <= i < |run| ==>
      Effective(run[i].sample) && !run[i].cfg.batchFixed && if sparse then Sparse(run[i].sample) else Dense(run[i].sample)
  }

  /** Over a run of small batches the threshold climbs by one a tick to 64, and over
      a run of large ones it falls to 2. */
  lemma {:induction false} BatchFollows(s: State, run: seq<Input>, sparse: bool)
    requires Disciplined(s) && !s.passthroughMode && 2 <= s.batch <= 64 && Batches(run, sparse)
    ensures After(s, run).batch ==
      if sparse then (if s.batch + |run| < 64 then s.batch + |run| else 64)
      else if s.batch - |run| > 2 then s.batch - |run| else 2
    decreases run
  {
    if run != [] {
      var (c, m) := (run[0].cfg, run[0].sample);
      BatchTick(c, s, m);
      TickKeepsDiscipline(c, s, m);
      hide Tick;
      BatchFollows(Tick(c, s, m).0, run[1..], sparse);
    }
  }

  // -------------------------------------------------------------- the latency guard

  /** The P99s of the ticks that decided outside BACKOFF and SETTLING. */
  ghost function Tracked(c: Config, run: seq<Input>, k: nat): (p: seq<real>)
    requires k <= |run|
    decreases k
  {
    if k == 0 then []
    else
      var s, m := At(c, run, k - 1), run[k - 1].sample;
      if Decides(s, m) && m.p99.Some? && s.phase != Backoff && s.phase != Settling
      then Tracked(c, run, k - 1) + [m.p99.value] else Tracked(c, run, k - 1)
  }

  ghost function Last(q: seq<real>): (w: seq<real>)
    ensures |w| == if |q| < 50 then |q| else 50
  {
    if |q| <= 50 then q else q[|q| - 50..]
  }

  lemma LastSlides(q: seq<real>, x: real)
    ensures Slide(Last(q), x, BASELINE_WINDOW) == Last(q + [x])
  {
  }

  /** What an engaged controller remembers of the latencies `p`. */
  ghost predicate Remembers(s: State, p: seq<real>)
  {
    && s.window == Last(p)
    && s.baselineP99 == (if p == [] then 0.0 else Least(Last(p)))
  }

  lemma MeasureRemembers(s: State, m: Sample, p: seq<real>)
    requires Disciplined(s) && Remembers(s, p)
    ensures var p' := if m.p99.Some? && s.phase != Backoff && s.phase != Settling then p + [m.p99.value] else p;
      Remembers(Measured(s, m), p')
  {
    if m.p99.Some? {
      LastSlides(p, m.p99.value);
    }
    hide Least, Slide;
  }

  lemma TickKeepsMeasured(c: Config, s: State, m: Sample)
    requires |s.window| <= BASELINE_WINDOW && Decides(s, m)
    ensures Tick(c, s, m).0.window == Measured(s, m).window && Tick(c, s, m).0.baselineP99 == Measured(s, m).baselineP99
  {
    var measured := Measured(s, m);
    hide Measure, StatsOf, Handle;
    HandlerKeeps(c, Saved(c, measured, m), StatsOf(c, measured, m));
  }

  lemma TickRemembers(c: Config, s: State, m: Sample, p: seq<real>)
    requires Disciplined(s) && Decides(s, m) && Remembers(s, p)
    ensures var p' := if m.p99.Some? && s.phase != Backoff && s.phase != Settling then p + [m.p99.value] else p;
      Remembers(Measured(s, m), p') && Remembers(Tick(c, s, m).0, p')
  {
    MeasureRemembers(s, m, p);
    TickKeepsMeasured(c, s, m);
    hide Measured, Tick, Least, Last;
  }

  lemma PassthroughTick(c: Config, s: State, m: Sample)
    requires Disciplined(s) && s.passthroughMode && Effective(m)
    ensures !Tick(c, s, m).0.passthroughMode ==> Remembers(Tick(c, s, m).0, [])
  {
    hide Measure;
  }

  lemma {:induction false} RunRemembers(c: Config, run: seq<Input>, k: nat)
    requires k <= |run|
    ensures if At(c, run, k).passthroughMode then Tracked(c, run, k) == [] else Remembers(At(c, run, k), Tracked(c, run, k))
    decreases k
  {
    assert run[..0] == [];
    if k > 0 {
      RunRemembers(c, run, k - 1);
      OneTickOn(c, run, k - 1);
      DisciplinedAt(c, run, k - 1);
      var s, i := At(c, run, k - 1), run[k - 1];
      TickKeepsDiscipline(i.cfg, s, i.sample);
      hide At, Remembers;
      if Decides(s, i.sample) {
        TickRemembers(i.cfg, s, i.sample, Tracked(c, run, k - 1));
      } else if Effective(i.sample) {
        PassthroughTick(i.cfg, s, i.sample);
      }
    }
  }

  /** Without a target a tick that decides rises exactly if it has twenty samples and
      their P99 is at least ten times the least of the last fifty P99s of such ticks
      outside BACKOFF and SETTLING, this one included, and at least 50 ms if there is
      none or the least is not positive. */
  lemma RisingIsTenfold(c: Config, run: seq<Input>, k: nat)
    requires k < |run| && Decides(At(c, run, k), run[k].sample) && run[k].cfg.maxP99 == 0.0
    ensures var (m, p) := (run[k].sample, Tracked(c, run, k + 1));
      Rising(run[k].cfg, At(c, run, k), m) <==>
        && m.count >= 20 && m.p99.Some?
        && m.p99.value >= if p != [] && Least(Last(p)) > 0.0 then 10.0 * Least(Last(p)) else 50.0
  {
    var s := At(c, run, k);
    RunRemembers(c, run, k);
    DisciplinedAt(c, run, k);
    TickRemembers(run[k].cfg, s, run[k].sample, Tracked(c, run, k));
    hide At, Least, Last;
  }

  // ----------------------------------------------------------------- engaging

  /** The operations in flight at the last tick that had enough samples or time. */
  ghost function Was(run: seq<Input>, k: nat): int
    requires k <= |run|
    decreases k
  {
    if k == 0 then 0 else if Effective(run[k - 1].sample) then run[k - 1].sample.pending else Was(run, k - 1)
  }

  /** A tick under pressure: more than sixteen operations have been added since the
      last one, or a target has been missed. */
  ghost predicate Presses(run: seq<Input>, k: nat)
    requires k < |run|
  {
    var (c, m) := (run[k].cfg, run[k].sample);
    || m.pending - Was(run, k) > 16
    || (c.maxP99 > 0.0 && m.count >= 20 && m.p99.Some? && m.p99.value > c.maxP99)
  }

  /** Ticks under pressure in a row. */
  ghost function Streak(run: seq<Input>, k: nat): nat
    requires k <= |run|
    decreases k
  {
    if k == 0 then 0
    else if !Effective(run[k - 1].sample) then Streak(run, k - 1)
    else if Presses(run, k - 1) then Streak(run, k - 1) + 1 else 0
  }

  /** At some time there have been eight of them. */
  ghost predicate EverPressed(run: seq<Input>, k: nat)
    requires k <= |run|
    decreases k
  {
    Streak(run, k) >= 8 || (k > 0 && EverPressed(run, k - 1))
  }

  lemma PassthroughPress(c: Config, s: State, m: Sample)
    requires |s.window| <= BASELINE_WINDOW && s.passthroughMode && Effective(m)
    ensures var s' := Tick(c, s, m).0;
      var press := m.pending - s.prevPending > 16 || (c.maxP99 > 0.0 && m.count >= 20 && m.p99.Some? && m.p99.value > c.maxP99);
      && s'.prevPending == m.pending
      && (!s'.passthroughMode <==> press && s.pressure >= 7)
      && (s'.passthroughMode ==> s'.pressure == if press then s.pressure + 1 else 0)
      && (!s'.passthroughMode ==> s'.phase == Baseline && s'.warmup == 0 && s'.spike == 0 && s'.window == [] && s'.limit == StartLimit(c))
  {
    hide Measure;
  }

  /** The configured start, or half the queue depth without one, at least the floor. */
  function StartLimit(c: Config): int
  {
    var start := if c.initialInFlight > 0 then c.initialInFlight else c.maxQueueDepth / 2;
    if start < c.minInFlight then c.minInFlight else start
  }

  /** From start the controller is engaged if and only if at some time eight ticks in
      a row have been under pressure. */
  lemma {:induction false} EngagedExactly(c: Config, run: seq<Input>, k: nat)
    requires k <= |run|
    ensures At(c, run, k).passthroughMode <==> !EverPressed(run, k)
    ensures At(c, run, k).passthroughMode ==> At(c, run, k).pressure == Streak(run, k) && At(c, run, k).prevPending == Was(run, k)
    decreases k
  {
    assert run[..0] == [];
    if k > 0 {
      EngagedExactly(c, run, k - 1);
      OneTickOn(c, run, k - 1);
      DisciplinedAt(c, run, k - 1);
      var s, i := At(c, run, k - 1), run[k - 1];
      if !Effective(i.sample) { TooEarly(i.cfg, s, i.sample); }
      hide At, Tick;
      if Effective(i.sample) && s.passthroughMode {
        PassthroughPress(i.cfg, s, i.sample);
      } else {
        TickKeepsDiscipline(i.cfg, s, i.sample);
      }
    }
  }

  lemma TooEarly(c: Config, s: State, m: Sample)
    requires |s.window| <= BASELINE_WINDOW && !Effective(m)
    ensures Tick(c, s, m).0 == s
  {
  }

  /** It starts in BASELINE at the configured limit. */
  lemma EngagedStart(c: Config, run: seq<Input>, k: nat)
    requires k < |run| && At(c, run, k).passthroughMode && !At(c, run, k + 1).passthroughMode
    ensures At(c, run, k + 1).phase == Baseline && At(c, run, k + 1).warmup == 0 && At(c, run, k + 1).spike == 0 && At(c, run, k + 1).limit == StartLimit(run[k].cfg)
  {
    OneTickOn(c, run, k);
    DisciplinedAt(c, run, k);
    PassthroughPress(run[k].cfg, At(c, run, k), run[k].sample);
  }

  lemma WarmupTick(c: Config, s: State, m: Sample)
    requires Disciplined(s) && s.phase == Baseline && Effective(m)
    ensures var s' := Tick(c, s, m).0;
      && s'.limit == s.limit && s'.warmup == s.warmup + 1
      && s'.phase == if s'.warmup >= 10 then Probing else Baseline
  {
    hide Measure, StatsOf;
  }

  /** And probes after ten ticks, no sooner and no later, the limit unchanged. */
  lemma {:induction false} WarmsUp(s: State, run: seq<Input>)
    requires Disciplined(s) && s.phase == Baseline && s.warmup + |run| <= 10 && s.warmup < 10
    requires forall i :: 0 <= i < |run| ==> Effective(run[i].sample)
    ensures var s' := After(s, run);
      && s'.limit == s.limit && s'.warmup == s.warmup + |run|
      && s'.phase == if s'.warmup == 10 then Probing else Baseline
    decreases run
  {
    if run != [] {
      WarmupTick(run[0].cfg, s, run[0].sample);
      TickKeepsDiscipline(run[0].cfg, s, run[0].sample);
      hide Tick, Disciplined;
      if |run| > 1 {
        WarmsUp(Tick(run[0].cfg, s, run[0].sample).0, run[1..]);
      } else {
        AfterOne(s, run[0]);
        assert run == [run[0]];
      }
    }
  }
}
