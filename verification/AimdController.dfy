/** The AIMD controller in the form the engine runs it: an object whose fields
    are updated in place by one method per phase. Every method is proved
    against the specification function of the same step. */
module AimdController {
  import opened Options
  import opened AimdSpec
  import opened AimdProperties
  import Circle

  /** A fixed-size circular window of measurements. */
  class SlidingWindow {
    const size: nat
    const values: array<real>
    var head: nat
    var count: nat

    ghost predicate Valid()
      reads this, values
    {
      && 0 < size == values.Length
      && head < size && count <= size
      && (count < size ==> head == count)
    }

    /** The measurements in the window, oldest first. */
    ghost function Contents(): (s: seq<real>)
      requires Valid()
      reads this, values
      ensures |s| == count
    {
      if count < size then values[..count] else values[head..] + values[..head]
    }

    constructor (n: nat)
      requires 0 < n
      ensures Valid() && fresh(values) && size == n && Contents() == []
    {
      size, head, count := n, 0, 0;
      values := new real[n];
    }

    method Add(x: real)
      requires Valid()
      modifies this, values
      ensures Valid() && Contents() == Slide(old(Contents()), x, size)
    {
      hide Circle.Next;
      values[head] := x;
      head := Circle.Next(size, head);
      if count < size {
        count := count + 1;
      }
    }

    method Min() returns (m: real)
      requires Valid()
      ensures m == if count == 0 then 0.0 else Least(Contents())
    {
      if count == 0 {
        return 0.0;
      }
      m := values[0];
      ghost var at := 0;
      for i := 1 to count
        invariant 0 <= at < i && m == values[at]
        invariant forall j :: 0 <= j < i ==> m <= values[j]
      {
        if values[i] < m {
          m, at := values[i], i;
        }
      }
      ghost var s := Contents();
      ghost var p := if count < size || head <= at then at - (if count < size then 0 else head) else at + size - head;
      assert s[p] == m;
      LeastIs(s, m);
    }

    method Clear()
      requires Valid()
      modifies this
      ensures Valid() && Contents() == []
    {
      head, count := 0, 0;
    }
  }

  lemma {:induction false} LeastIs(s: seq<real>, m: real)
    requires m in s && forall x :: x in s ==> m <= x
    ensures Least(s) == m
  {
    if |s| == 1 {
      assert s[0] == m;
    } else {
      var rest := s[..|s| - 1];
      assert s[|s| - 1] in s;
      assert forall x :: x in s <==> x in rest || x == s[|s| - 1];
      if m in rest {
        LeastIs(rest, m);
      } else {
        LeastBelongs(rest);
      }
    }
  }

  lemma {:induction false} LeastBelongs(s: seq<real>)
    requires 0 < |s|
    ensures Least(s) in s
  {
    if |s| > 1 {
      LeastBelongs(s[..|s| - 1]);
    }
  }

  class Controller {
    var cfg: Config
    var phase: Phase
    var passthroughMode: bool
    var currentInFlightLimit: int
    var prevInFlightLimit: int
    var prevThroughput: real
    var currentBatchThreshold: int
    var warmupCount: nat
    var plateauCount: nat
    var steadyCount: nat
    var spikeCount: nat
    var settlingTimer: nat
    var enteredViaBackoff: bool
    var passthroughQualifyCount: nat
    var pressureQualifyCount: nat
    var prevPendingSnapshot: int
    const baselineWindow: SlidingWindow
    var baselineP99: real
    ghost var Window: seq<real>

    ghost predicate Valid()
      reads this, baselineWindow, baselineWindow.values
    {
      && baselineWindow.Valid() && baselineWindow.size == BASELINE_WINDOW
      && Window == baselineWindow.Contents()
    }

    ghost function View(): State
      reads this
    {
      State(phase, passthroughMode, currentInFlightLimit, prevInFlightLimit, prevThroughput, currentBatchThreshold,
            warmupCount, plateauCount, steadyCount, spikeCount, settlingTimer, enteredViaBackoff,
            passthroughQualifyCount, pressureQualifyCount, prevPendingSnapshot,
            Window, baselineP99)
    }

    constructor ()
      ensures Valid() && fresh(baselineWindow) && fresh(baselineWindow.values)
    {
      baselineWindow := new SlidingWindow(BASELINE_WINDOW);
      Window := [];
    }

    /** Sets up a controller; a floor below one means the default of four. */
    method Initialize(maxQueueDepth: int, initialInFlight: int, minInFlight: int) returns (ok: bool)
      requires Valid()
      modifies this, baselineWindow
      ensures Valid()
      ensures ok <==> maxQueueDepth >= 1 && initialInFlight >= 1
      ensures ok ==>
        && cfg == Config(maxQueueDepth, if minInFlight < 1 then 4 else minInFlight, initialInFlight, 0.0, false)
        && View() == Init(cfg)
        && phase == Passthrough && passthroughMode && currentInFlightLimit == maxQueueDepth && currentBatchThreshold == 2
      ensures !ok ==> View() == old(View()) && cfg == old(cfg)
    {
      if maxQueueDepth < 1 || initialInFlight < 1 {
        return false;
      }
      cfg := Config(maxQueueDepth, if minInFlight < 1 then 4 else minInFlight, initialInFlight, 0.0, false);
      StartPassthrough();
      ClearCounters();
      ClearMeasurements();
      return true;
    }

    method StartPassthrough()
      modifies this`phase, this`passthroughMode, this`currentInFlightLimit, this`currentBatchThreshold,
               this`prevPendingSnapshot, this`pressureQualifyCount
      ensures View() == old(View()).(phase := Passthrough, passthroughMode := true, limit := cfg.maxQueueDepth,
                                     batch := MIN_BATCH, prevPending := 0, pressure := 0)
    {
      passthroughMode, phase := true, Passthrough;
      currentInFlightLimit, currentBatchThreshold := cfg.maxQueueDepth, MIN_BATCH;
      prevPendingSnapshot, pressureQualifyCount := 0, 0;
    }

    method ClearCounters()
      modifies this`warmupCount, this`plateauCount, this`steadyCount, this`spikeCount, this`settlingTimer,
               this`enteredViaBackoff, this`passthroughQualifyCount
      ensures View() == old(View()).(warmup := 0, plateau := 0, steady := 0, spike := 0, settling := 0,
                                     viaBackoff := false, reenter := 0)
    {
      warmupCount, plateauCount, steadyCount, spikeCount, settlingTimer := 0, 0, 0, 0, 0;
      enteredViaBackoff := false;
      passthroughQualifyCount := 0;
    }

    method ClearMeasurements()
      requires Valid()
      modifies this`Window, this`baselineP99, this`prevThroughput, this`prevInFlightLimit, baselineWindow
      ensures Valid()
      ensures View() == old(View()).(window := [], baselineP99 := 0.0, prevThroughput := 0.0, prevLimit := 0)
    {
      baselineWindow.Clear();
      Window := [];
      baselineP99, prevThroughput, prevInFlightLimit := 0.0, 0.0, 0;
    }

    method CheckSpikeBackoff(t: Stats) returns (entered: bool)
      modifies this`spikeCount, this`phase
      ensures (View(), entered) == SpikeCheck(old(View()), t)
    {
      entered := false;
      if t.rising {
        spikeCount := spikeCount + 1;
        if spikeCount >= 2 {
          phase := Backoff;
          spikeCount := 0;
          return true;
        }
      } else {
        spikeCount := 0;
      }
    }

    method AimdIncrease() returns (raised: bool)
      modifies this`currentInFlightLimit
      ensures (View(), raised) == Increase(cfg, old(View()))
    {
      if currentInFlightLimit < cfg.maxQueueDepth {
        var limit := currentInFlightLimit + 1;
        if limit > cfg.maxQueueDepth {
          limit := cfg.maxQueueDepth;
        }
        currentInFlightLimit := limit;
        return true;
      }
      return false;
    }

    method HandleBaseline(t: Stats)
      modifies this`warmupCount, this`phase, this`prevThroughput, this`prevInFlightLimit
      ensures View() == OnBaseline(old(View()), t)
    {
      warmupCount := warmupCount + 1;
      if warmupCount >= WARMUP_SAMPLES {
        phase := Probing;
        prevThroughput := t.throughput;
        prevInFlightLimit := currentInFlightLimit;
      }
    }

    method HandleProbing(t: Stats) returns (changed: bool)
      requires (t.validP99 ==> t.p99.Some?)
      modifies this`spikeCount, this`phase, this`currentInFlightLimit, this`plateauCount, this`enteredViaBackoff, this`settlingTimer
      ensures (View(), changed) == OnProbing(cfg, old(View()), t)
    {
      changed := false;
      var spiked := CheckSpikeBackoff(t);
      if spiked || t.count == 0 {
        return;
      }
      var threshold := Threshold(t);
      if t.ratio.None? {
        var raised := AimdIncrease();
        if raised {
          changed := true;
          plateauCount := 0;
        } else {
          plateauCount := plateauCount + 1;
        }
      } else if t.ratio.value > threshold {
        changed := AimdIncrease();
        plateauCount := 0;
      } else if cfg.maxP99 > 0.0 && t.validP99 && t.p99.value < cfg.maxP99 {
        changed := AimdIncrease();
        plateauCount := 0;
      } else {
        plateauCount := plateauCount + 1;
        if plateauCount >= PLATEAU_TICKS {
          enteredViaBackoff := false;
          spikeCount := 0;
          phase := Settling;
          settlingTimer := 0;
        }
      }
    }

    method HandleSettling(t: Stats)
      modifies this`enteredViaBackoff, this`phase, this`settlingTimer, this`spikeCount, this`steadyCount
      ensures View() == OnSettling(old(View()), t)
    {
      if t.rising {
        enteredViaBackoff := true;
        phase := Backoff;
        settlingTimer := 0;
        spikeCount := 0;
        return;
      }
      settlingTimer := settlingTimer + 1;
      if settlingTimer >= SETTLING_TICKS {
        phase := Steady;
        steadyCount := 0;
      }
    }

    method HandleSteady(t: Stats)
      modifies this`steadyCount, this`spikeCount, this`phase, this`enteredViaBackoff, this`plateauCount
      ensures View() == OnSteady(old(View()), t)
    {
      hide LeaveSteady;
      steadyCount := steadyCount + 1;
      var spiked := CheckSpikeBackoff(t);
      if spiked {
        steadyCount := 0;
        return;
      }
      EndSteady();
    }

    method EndSteady()
      modifies this`phase, this`enteredViaBackoff, this`plateauCount
      ensures View() == LeaveSteady(old(View()))
    {
      if enteredViaBackoff && steadyCount >= REPROBE_INTERVAL {
        phase := Probing;
        enteredViaBackoff := false;
        plateauCount := 0;
      } else if !enteredViaBackoff && steadyCount >= STEADY_THRESHOLD {
        phase := Converged;
      }
    }

    method HandleBackoff()
      modifies this`currentInFlightLimit, this`plateauCount, this`enteredViaBackoff, this`phase, this`settlingTimer
      ensures View() == OnBackoff(cfg, old(View()))
    {
      var reduced := currentInFlightLimit * 4 / 5;
      currentInFlightLimit := if reduced > cfg.minInFlight then reduced else cfg.minInFlight;
      plateauCount := 0;
      enteredViaBackoff := true;
      phase := Settling;
      settlingTimer := 0;
    }

    method HandleConverged(t: Stats)
      modifies this`spikeCount, this`phase, this`steadyCount
      ensures View() == OnConverged(old(View()), t)
    {
      var spiked := CheckSpikeBackoff(t);
      if spiked {
        steadyCount := 0;
      }
    }

    method ResetToBaseline()
      requires Valid()
      modifies this, baselineWindow
      ensures Valid() && cfg == old(cfg)
      ensures View() == Engage(cfg, old(View())).(passthroughMode := old(passthroughMode), pressure := old(pressureQualifyCount))
    {
      hide SlidingWindow.Contents, SlidingWindow.Valid;
      phase := Baseline;
      var initial := if cfg.initialInFlight > 0 then cfg.initialInFlight else cfg.maxQueueDepth / 2;
      if initial < cfg.minInFlight {
        initial := cfg.minInFlight;
      }
      currentInFlightLimit := initial;
      ClearCounters();
      ClearMeasurements();
    }

    /** Adds the P99 to the baseline window, except while congestion inflates it. */
    method UpdateBaseline(m: Sample)
      requires Valid()
      modifies this`baselineP99, this`Window, baselineWindow, baselineWindow.values
      ensures Valid() && View() == Measure(old(View()), m)
    {
      hide SlidingWindow.Contents, Slide, Least;
      if m.p99.Some? {
        if phase != Backoff && !(phase == Settling && enteredViaBackoff) {
          baselineWindow.Add(m.p99.value);
          Window := baselineWindow.Contents();
        }
      }
      if baselineWindow.count > 0 {
        baselineP99 := baselineWindow.Min();
      }
    }

    method ComputeStats(m: Sample) returns (t: Stats)
      ensures t == StatsOf(cfg, View(), m)
    {
      var guard := Guard(cfg, baselineP99);
      var valid := m.count >= LOW_IOPS_MIN_SAMPLES && m.p99.Some?;
      var rising := valid && m.p99.value >= guard;
      var delta, ratio := 0, None;
      if prevInFlightLimit > 0 && currentInFlightLimit != prevInFlightLimit {
        delta := currentInFlightLimit - prevInFlightLimit;
        if delta > 0 {
          ratio := Some((m.throughput - prevThroughput) / (delta as real));
        }
      }
      t := Stats(m.count, m.p99, m.throughput, valid, rising, ratio, delta);
    }

    method TakeSnapshot(pending: int)
      modifies this`prevPendingSnapshot
      ensures View() == old(View()).(prevPending := pending)
    {
      prevPendingSnapshot := pending;
    }

    method SavePrevious(t: Stats)
      modifies this`prevThroughput, this`prevInFlightLimit
      ensures View() == old(View()).(prevThroughput := t.throughput, prevLimit := old(currentInFlightLimit))
    {
      prevThroughput := t.throughput;
      prevInFlightLimit := currentInFlightLimit;
    }

    method TickInPassthrough(m: Sample, pendingDelta: int) returns (changed: bool)
      requires Valid() && Effective(m) && passthroughMode
      requires pendingDelta == m.pending - prevPendingSnapshot
      modifies this, baselineWindow, baselineWindow.values
      ensures Valid() && cfg == old(cfg) && (View(), changed) == TickPassthrough(cfg, old(View()), m)
    {
      hide Measure, SlidingWindow.Contents, SlidingWindow.Valid, Pressed;
      TakeSnapshot(m.pending);
      var pressure := pendingDelta > ENGAGE_PENDING_DELTA;
      if !pressure && cfg.maxP99 > 0.0 {
        UpdateBaseline(m);
        var t := ComputeStats(m);
        if t.validP99 && t.p99.value > cfg.maxP99 {
          pressure := true;
        }
      }
      changed := CountPressure(pressure);
    }

    method CountPressure(pressure: bool) returns (changed: bool)
      requires Valid() && passthroughMode
      modifies this, baselineWindow
      ensures Valid() && cfg == old(cfg) && (View(), changed) == Pressed(cfg, old(View()), pressure)
    {
      hide SlidingWindow.Contents, SlidingWindow.Valid;
      changed := false;
      if pressure {
        pressureQualifyCount := pressureQualifyCount + 1;
        if pressureQualifyCount >= ENGAGE_TICKS {
          passthroughMode := false;
          ResetToBaseline();
          pressureQualifyCount := 0;
          changed := true;
        }
      } else {
        pressureQualifyCount := 0;
      }
    }

    method TuneBatch(m: Sample) returns (changed: bool)
      modifies this`currentBatchThreshold
      ensures View() == old(View()).(batch := TunedBatch(cfg, old(currentBatchThreshold), m))
      ensures changed <==> currentBatchThreshold != old(currentBatchThreshold)
    {
      changed := false;
      if !cfg.batchFixed && m.submitCalls > 0 && m.sqes > 0 {
        if m.sqes < 8 * m.submitCalls && currentBatchThreshold < MAX_BATCH {
          currentBatchThreshold := currentBatchThreshold + 1;
          changed := true;
        } else if m.sqes > 12 * m.submitCalls && currentBatchThreshold > MIN_BATCH {
          currentBatchThreshold := currentBatchThreshold - 1;
          changed := true;
        }
      }
    }

    method Dispatch(t: Stats) returns (changed: bool)
      requires (t.validP99 ==> t.p99.Some?)
      modifies this`phase, this`currentInFlightLimit, this`prevInFlightLimit, this`prevThroughput, this`warmupCount,
               this`plateauCount, this`steadyCount, this`spikeCount, this`settlingTimer, this`enteredViaBackoff
      ensures (View(), changed) == Handle(cfg, old(View()), t)
    {
      hide SlidingWindow.Contents, SlidingWindow.Valid, OnBaseline, OnProbing, OnSettling, OnSteady, OnBackoff, OnConverged;
      changed := false;
      match phase
      case Baseline => HandleBaseline(t);
      case Probing => changed := HandleProbing(t);
      case Settling => HandleSettling(t);
      case Steady => HandleSteady(t);
      case Backoff => HandleBackoff(); changed := true;
      case Converged => HandleConverged(t);
      case Passthrough =>
    }

    method CheckReentry(pendingDelta: int) returns (changed: bool)
      modifies this`passthroughQualifyCount, this`passthroughMode, this`phase, this`currentInFlightLimit
      ensures (View(), changed) == Reenter(cfg, old(View()), pendingDelta)
    {
      changed := false;
      if phase == Converged {
        if -REENTER_DELTA_MAX <= pendingDelta <= REENTER_DELTA_MAX {
          passthroughQualifyCount := passthroughQualifyCount + 1;
          if passthroughQualifyCount >= REENTER_TICKS {
            passthroughMode := true;
            phase := Passthrough;
            currentInFlightLimit := cfg.maxQueueDepth;
            passthroughQualifyCount := 0;
            changed := true;
          }
        } else {
          passthroughQualifyCount := 0;
        }
      }
    }

    /** The part of a tick that runs while the controller is engaged. */
    method TickWhenActive(m: Sample, pendingDelta: int) returns (changed: bool)
      requires Valid() && !passthroughMode
      requires pendingDelta == m.pending - prevPendingSnapshot
      modifies this, baselineWindow, baselineWindow.values
      ensures Valid() && cfg == old(cfg) && (View(), changed) == TickActive(cfg, old(View()), m)
    {
      hide Measure, Handle, Reenter, TunedBatch, SlidingWindow.Contents, SlidingWindow.Valid;
      TakeSnapshot(m.pending);
      UpdateBaseline(m);
      var t := ComputeStats(m);
      var tuned := TuneBatch(m);
      SavePrevious(t);
      var handled := Dispatch(t);
      var reentered := CheckReentry(pendingDelta);
      changed := tuned || handled || reentered;
    }

    /** One tick. */
    method RunTick(m: Sample) returns (changed: bool)
      requires Valid()
      modifies this, baselineWindow, baselineWindow.values
      ensures Valid() && cfg == old(cfg) && (View(), changed) == Tick(cfg, old(View()), m)
      ensures Disciplined(old(View())) ==>
        && Disciplined(View()) && EntersInOrder(old(View()), View())
        && !LeavesByPlateau(old(View()), View()) && !Converges(old(View()), View()) && !ReturnsToPassthrough(old(View()), View())
      ensures Legal(cfg) && Disciplined(old(View())) && Bounded(cfg, old(View())) ==> Bounded(cfg, View())
    {
      TickIsSound(cfg, View(), m);
      hide Disciplined, Bounded, EntersInOrder, LeavesByPlateau, Converges, ReturnsToPassthrough, Tick, Legal;
      OneTick(cfg, View(), m);
      hide TickActive, TickPassthrough, SlidingWindow.Contents, SlidingWindow.Valid;
      if m.peekCount < LOW_IOPS_MIN_SAMPLES && m.elapsedMs < MIN_SAMPLE_WINDOW_MS {
        return false;
      }
      var pendingDelta := m.pending - prevPendingSnapshot;
      if passthroughMode {
        changed := TickInPassthrough(m, pendingDelta);
      } else {
        changed := TickWhenActive(m, pendingDelta);
      }
    }
  }

  lemma TickIsSound(c: Config, s: State, m: Sample)
    requires |s.window| <= BASELINE_WINDOW
    ensures var s' := Tick(c, s, m).0;
      && (Disciplined(s) ==>
            && Disciplined(s') && EntersInOrder(s, s')
            && !LeavesByPlateau(s, s') && !Converges(s, s') && !ReturnsToPassthrough(s, s'))
      && (Legal(c) && Disciplined(s) && Bounded(c, s) ==> Bounded(c, s'))
  {
    hide Tick, Bounded, EntersInOrder, LeavesByPlateau, Converges, ReturnsToPassthrough;
    if Disciplined(s) {
      TickKeepsDiscipline(c, s, m);
      if Legal(c) && Bounded(c, s) { TickKeepsBounds(c, s, m); }
    }
  }

  lemma OneTick(c: Config, s: State, m: Sample)
    requires |s.window| <= BASELINE_WINDOW
    ensures !Effective(m) ==> Tick(c, s, m) == (s, false)
    ensures Effective(m) && s.passthroughMode ==> Tick(c, s, m) == TickPassthrough(c, s, m)
    ensures Effective(m) && !s.passthroughMode ==> Tick(c, s, m) == TickActive(c, s, m)
  {
    hide TickActive, TickPassthrough;
  }
}
