/** The AIMD congestion controller as a function of its state: one tick maps
    the controller fields and what was measured since the last tick to the new
    fields. Times and rates are reals; a measurement that does not exist (the
    source's NaN, or a P99 of -1) is `None`. */
module AimdSpec {
  import opened Options

  datatype Phase = Baseline | Probing | Steady | Backoff | Settling | Converged | Passthrough

  const WARMUP_SAMPLES := 10
  const BASELINE_WINDOW := 50
  const LATENCY_GUARD_MULT := 10.0
  const DEFAULT_LATENCY_GUARD := 50.0
  const ER_EPSILON_RATIO := 0.01
  const LOW_IOPS_MIN_SAMPLES := 20
  const MIN_SAMPLE_WINDOW_MS := 100
  const MIN_BATCH := 2
  const MAX_BATCH := 64
  const SETTLING_TICKS := 10
  const STEADY_THRESHOLD := 500
  const REPROBE_INTERVAL := 100
  const ENGAGE_TICKS := 8
  const ENGAGE_PENDING_DELTA := 16
  const REENTER_TICKS := 10
  const REENTER_DELTA_MAX := 2
  const PLATEAU_TICKS := 3
  const QUEUE_DEPTH_LIMIT := 32768

  /** What the owner of the ring sets; `maxP99 == 0.0` means no target. */
  datatype Config = Config(maxQueueDepth: int, minInFlight: int, initialInFlight: int, maxP99: real, batchFixed: bool)

  ghost predicate Legal(c: Config)
  {
    && 1 <= c.minInFlight <= c.maxQueueDepth <= QUEUE_DEPTH_LIMIT
    && 1 <= c.initialInFlight <= c.maxQueueDepth
    && c.maxP99 >= 0.0
  }

  /** What one call of the tick observes. */
  datatype Sample = Sample(
    pending: int,           // operations in flight
    elapsedMs: int,         // since the start of the sample
    peekCount: nat,         // samples in the active histogram
    count: nat,             // samples in the histogram swapped out
    p99: Option<real>,      // its P99 in milliseconds
    throughput: real,
    submitCalls: nat,
    sqes: nat)

  datatype State = State(
    phase: Phase,
    passthroughMode: bool,
    limit: int,             // current_in_flight_limit
    prevLimit: int,         // prev_in_flight_limit
    prevThroughput: real,
    batch: int,             // current_batch_threshold
    warmup: nat,
    plateau: nat,
    steady: nat,
    spike: nat,
    settling: nat,
    viaBackoff: bool,       // entered_via_backoff
    reenter: nat,           // passthrough_qualify_count
    pressure: nat,          // pressure_qualify_count
    prevPending: int,
    window: seq<real>,      // baseline window, oldest first
    baselineP99: real)

  function Init(c: Config): State
  {
    State(Passthrough, true, c.maxQueueDepth, 0, 0.0, MIN_BATCH, 0, 0, 0, 0, 0, false, 0, 0, 0, [], 0.0)
  }

  /** The statistics of a tick that the phase handlers read. */
  datatype Stats = Stats(
    count: nat,
    p99: Option<real>,
    throughput: real,
    validP99: bool,
    rising: bool,
    ratio: Option<real>,    // efficiency ratio; None is NaN
    delta: int)

  function Slide(w: seq<real>, x: real, size: nat): (r: seq<real>)
    requires 0 < size && |w| <= size
    ensures 0 < |r| <= size
  {
    if |w| < size then w + [x] else w[1..] + [x]
  }

  function Least(w: seq<real>): (m: real)
    requires 0 < |w|
  {
    if |w| == 1 then w[0]
    else
      var m := Least(w[..|w| - 1]);
      if w[|w| - 1] < m then w[|w| - 1] else m
  }

  /** Windows only grow in phases whose latency is not inflated by congestion. */
  predicate TracksBaseline(s: State)
  {
    s.phase != Backoff && !(s.phase == Settling && s.viaBackoff)
  }

  function Measure(s: State, m: Sample): (r: State)
    requires |s.window| <= BASELINE_WINDOW
    ensures |r.window| <= BASELINE_WINDOW
    ensures r == s.(window := r.window, baselineP99 := r.baselineP99)
  {
    var w := if m.p99.Some? && TracksBaseline(s) then Slide(s.window, m.p99.value, BASELINE_WINDOW) else s.window;
    s.(window := w, baselineP99 := if 0 < |w| then Least(w) else s.baselineP99)
  }

  function Guard(c: Config, baselineP99: real): real
  {
    if c.maxP99 > 0.0 then c.maxP99
    else if baselineP99 > 0.0 then baselineP99 * LATENCY_GUARD_MULT
    else DEFAULT_LATENCY_GUARD
  }

  /** Statistics of a tick; `s` already holds the updated baseline. */
  function StatsOf(c: Config, s: State, m: Sample): (t: Stats)
    ensures t.validP99 ==> t.p99.Some?
  {
    var valid := m.count >= LOW_IOPS_MIN_SAMPLES && m.p99.Some?;
    var rising := valid && m.p99.value >= Guard(c, s.baselineP99);
    var delta := if s.prevLimit > 0 then s.limit - s.prevLimit else 0;
    var ratio := if delta > 0 then Some((m.throughput - s.prevThroughput) / (delta as real)) else None;
    Stats(m.count, m.p99, m.throughput, valid, rising, ratio, delta)
  }

  /** Spike counting; the flag says that BACKOFF was entered. */
  function SpikeCheck(s: State, t: Stats): (State, bool)
  {
    if !t.rising then (s.(spike := 0), false)
    else if s.spike + 1 >= 2 then (s.(spike := 0, phase := Backoff), true)
    else (s.(spike := s.spike + 1), false)
  }

  function Increase(c: Config, s: State): (State, bool)
  {
    if s.limit < c.maxQueueDepth then (s.(limit := s.limit + 1), true) else (s, false)
  }

  function OnBaseline(s: State, t: Stats): State
  {
    var s := s.(warmup := s.warmup + 1);
    if s.warmup >= WARMUP_SAMPLES then s.(phase := Probing, prevThroughput := t.throughput, prevLimit := s.limit) else s
  }

  function Threshold(t: Stats): real
  {
    if t.throughput > 0.0 && t.delta != 0
    then t.throughput * ER_EPSILON_RATIO / ((if t.delta < 0 then -t.delta else t.delta) as real)
    else 0.0
  }

  /** A tick in which throughput no longer pays for the last increase. */
  predicate PlateauTick(c: Config, t: Stats)
    requires t.validP99 ==> t.p99.Some?
  {
    && t.ratio.Some? && t.ratio.value <= Threshold(t)
    && !(c.maxP99 > 0.0 && t.validP99 && t.p99.value < c.maxP99)
  }

  function OnProbing(c: Config, s: State, t: Stats): (State, bool)
    requires t.validP99 ==> t.p99.Some?
  {
    var (s, spiked) := SpikeCheck(s, t);
    if spiked || t.count == 0 then (s, false)
    else
      var (up, raised) := Increase(c, s);
      if t.ratio.None? then
        if raised then (up.(plateau := 0), true) else (s.(plateau := s.plateau + 1), false)
      else if !PlateauTick(c, t) then (up.(plateau := 0), raised)
      else if s.plateau + 1 >= PLATEAU_TICKS then
        (s.(plateau := s.plateau + 1, viaBackoff := false, spike := 0, phase := Settling, settling := 0), false)
      else (s.(plateau := s.plateau + 1), false)
  }

  function OnSettling(s: State, t: Stats): State
  {
    if t.rising then s.(viaBackoff := true, phase := Backoff, settling := 0, spike := 0)
    else if s.settling + 1 >= SETTLING_TICKS then s.(settling := s.settling + 1, phase := Steady, steady := 0)
    else s.(settling := s.settling + 1)
  }

  /** STEADY ends by probing again, or by convergence if it was not entered through
      BACKOFF. */
  function LeaveSteady(s: State): State
  {
    if s.viaBackoff && s.steady >= REPROBE_INTERVAL then s.(phase := Probing, viaBackoff := false, plateau := 0)
    else if !s.viaBackoff && s.steady >= STEADY_THRESHOLD then s.(phase := Converged)
    else s
  }

  function OnSteady(s: State, t: Stats): State
  {
    var (s, spiked) := SpikeCheck(s.(steady := s.steady + 1), t);
    if spiked then s.(steady := 0) else LeaveSteady(s)
  }

  /** `floor(limit * 0.80)`, kept at or above the floor of the configuration. */
  function Reduced(c: Config, limit: int): int
  {
    if limit * 4 / 5 > c.minInFlight then limit * 4 / 5 else c.minInFlight
  }

  function OnBackoff(c: Config, s: State): State
  {
    s.(limit := Reduced(c, s.limit), plateau := 0, viaBackoff := true, phase := Settling, settling := 0)
  }

  function OnConverged(s: State, t: Stats): State
  {
    var (s, spiked) := SpikeCheck(s, t);
    if spiked then s.(steady := 0) else s
  }

  /** Switching from pass-through to active control. */
  function Engage(c: Config, s: State): State
  {
    var initial := if c.initialInFlight > 0 then c.initialInFlight else c.maxQueueDepth / 2;
    s.(phase := Baseline, passthroughMode := false,
       limit := if initial < c.minInFlight then c.minInFlight else initial,
       warmup := 0, plateau := 0, steady := 0, spike := 0, settling := 0, viaBackoff := false,
       reenter := 0, pressure := 0, window := [], baselineP99 := 0.0, prevThroughput := 0.0, prevLimit := 0)
  }

  /** Enough samples or enough time: otherwise the tick changes nothing. */
  predicate Effective(m: Sample)
  {
    m.peekCount >= LOW_IOPS_MIN_SAMPLES || m.elapsedMs >= MIN_SAMPLE_WINDOW_MS
  }

  /** Pressure has to last for several ticks to engage. */
  function Pressed(c: Config, s: State, pressure: bool): (r: (State, bool))
    ensures |r.0.window| <= |s.window|
  {
    if !pressure then (s.(pressure := 0), false)
    else if s.pressure + 1 >= ENGAGE_TICKS then (Engage(c, s), true)
    else (s.(pressure := s.pressure + 1), false)
  }

  function TickPassthrough(c: Config, s: State, m: Sample): (r: (State, bool))
    requires |s.window| <= BASELINE_WINDOW
    ensures |r.0.window| <= BASELINE_WINDOW
  {
    var jump := m.pending - s.prevPending > ENGAGE_PENDING_DELTA;
    var s := s.(prevPending := m.pending);
    var looks := !jump && c.maxP99 > 0.0;
    var s := if looks then Measure(s, m) else s;
    var over := looks && m.count >= LOW_IOPS_MIN_SAMPLES && m.p99.Some? && m.p99.value > c.maxP99;
    Pressed(c, s, jump || over)
  }

  function TunedBatch(c: Config, batch: int, m: Sample): int
  {
    if c.batchFixed || m.submitCalls == 0 || m.sqes == 0 then batch
    else if m.sqes < 8 * m.submitCalls && batch < MAX_BATCH then batch + 1
    else if m.sqes > 12 * m.submitCalls && batch > MIN_BATCH then batch - 1
    else batch
  }

  /** Phase dispatch of the outer loop. */
  function Handle(c: Config, s: State, t: Stats): (r: (State, bool))
    requires t.validP99 ==> t.p99.Some?
    ensures r.0.window == s.window
  {
    match s.phase
    case Baseline => (OnBaseline(s, t), false)
    case Probing => OnProbing(c, s, t)
    case Settling => (OnSettling(s, t), false)
    case Steady => (OnSteady(s, t), false)
    case Backoff => (OnBackoff(c, s), true)
    case Converged => (OnConverged(s, t), false)
    case Passthrough => (s, false)
  }

  /** Re-entry of pass-through from CONVERGED while pending is flat. */
  function Reenter(c: Config, s: State, delta: int): (r: (State, bool))
    ensures r.0.window == s.window
  {
    if s.phase != Converged then (s, false)
    else if !(-REENTER_DELTA_MAX <= delta <= REENTER_DELTA_MAX) then (s.(reenter := 0), false)
    else if s.reenter + 1 >= REENTER_TICKS then
      (s.(passthroughMode := true, phase := Passthrough, limit := c.maxQueueDepth, reenter := 0), true)
    else (s.(reenter := s.reenter + 1), false)
  }

  /** Baseline update of an active tick. */
  function Measured(s: State, m: Sample): (r: State)
    requires |s.window| <= BASELINE_WINDOW
    ensures |r.window| <= BASELINE_WINDOW
    ensures r == s.(prevPending := m.pending, window := r.window, baselineP99 := r.baselineP99)
  {
    Measure(s.(prevPending := m.pending), m)
  }

  /** The state the handlers start from: batch tuned, previous values saved. */
  function Saved(c: Config, s: State, m: Sample): (r: State)
  {
    s.(batch := TunedBatch(c, s.batch, m), prevThroughput := m.throughput, prevLimit := s.limit)
  }

  function TickActive(c: Config, s: State, m: Sample): (r: (State, bool))
    requires |s.window| <= BASELINE_WINDOW
    ensures |r.0.window| <= BASELINE_WINDOW
  {
    var measured := Measured(s, m);
    var saved := Saved(c, measured, m);
    var (handled, changed) := Handle(c, saved, StatsOf(c, measured, m));
    var (s', reentered) := Reenter(c, handled, m.pending - s.prevPending);
    (s', saved.batch != s.batch || changed || reentered)
  }

  /** One call of the tick: the new state and whether parameters changed. */
  function Tick(c: Config, s: State, m: Sample): (r: (State, bool))
    requires |s.window| <= BASELINE_WINDOW
    ensures |r.0.window| <= BASELINE_WINDOW
  {
    if !Effective(m) then (s, false)
    else if s.passthroughMode then TickPassthrough(c, s, m)
    else TickActive(c, s, m)
  }
}
