/** The parallel scan of a directory tree: workers take directories from a
    shared queue in batches, find their subdirectories, and put those on the
    queue. A counter of pending directories tells when all is done. Lock
    sections and atomic operations are steps; workers interleave in any way,
    and a scan may find any number of subdirectories. Directories are numbered
    in the order in which they are found. */
module WorkQueue {

  datatype Worker =
    | Waiting                                       // about to pop
    | Popped(batch: seq<nat>)                       // to be scanned
    | Scanned(count: nat, found: seq<nat>)          // `count` scanned; found, not counted yet
    | Counted(count: nat, found: seq<nat>)          // counted, not pushed yet
    | Discounting(count: nat)                       // to be taken off the counter
    | Signalling(count: nat)                        // has taken the counter to zero
    | Stopped

  datatype Scan = Scan(
    queue: seq<nat>,
    pending: int,
    done: bool,
    next: nat,                 // directories found so far, enqueued or to be
    scanned: multiset<nat>,    // directories scanned so far
    workers: seq<Worker>)

  datatype Step =
    | Pop(w: nat, max: nat)
    | ScanBatch(w: nat, found: nat)
    | CountFound(w: nat)
    | Push(w: nat)
    | Discount(w: nat)
    | Signal(w: nat)
    | Again(w: nat)

  /** The numbers from `a` to `b - 1`. */
  function Range(a: nat, b: nat): (r: seq<nat>)
    requires a <= b
    ensures |r| == b - a && forall i :: 0 <= i < |r| ==> r[i] == a + i
    decreases b - a
  {
    if a == b then [] else Range(a, b - 1) + [b - 1]
  }

  /** The subdirectories of the root are on the queue, and counted. */
  function Init(seeds: nat, workers: nat): Scan
  {
    Scan(Range(0, seeds), seeds, false, seeds, multiset{}, seq(workers, i => Waiting))
  }

  predicate Enabled(s: Scan, step: Step)
  {
    && step.w < |s.workers|
    && match step
       case Pop(w, max) => s.workers[w].Waiting? && (s.queue != [] || s.done) && 0 < max
       case ScanBatch(w, _) => s.workers[w].Popped?
       case CountFound(w) => s.workers[w].Scanned?
       case Push(w) => s.workers[w].Counted?
       case Discount(w) => s.workers[w].Discounting? && s.workers[w].count > 0
       case Signal(w) => s.workers[w].Signalling?
       case Again(w) => s.workers[w].Discounting? && s.workers[w].count == 0
  }

  function Goto(s: Scan, w: nat, p: Worker): Scan
    requires w < |s.workers|
  {
    s.(workers := s.workers[w := p])
  }

  function Apply(s: Scan, step: Step): Scan
    requires Enabled(s, step)
  {
    var p := s.workers[step.w];
    match step
    case Pop(w, max) =>
      var n := if max < |s.queue| then max else |s.queue|;
      Goto(s, w, if n == 0 then Stopped else Popped(s.queue[..n])).(queue := s.queue[n..])
    case ScanBatch(w, found) =>
      Goto(s, w, Scanned(|p.batch|, Range(s.next, s.next + found)))
        .(next := s.next + found, scanned := s.scanned + multiset(p.batch))
    case CountFound(w) =>
      if |p.found| > 0 then Goto(s, w, Counted(p.count, p.found)).(pending := s.pending + |p.found|)
      else Goto(s, w, Discounting(p.count))
    case Push(w) => Goto(s, w, Discounting(p.count)).(queue := s.queue + p.found)
    case Discount(w) =>
      Goto(s, w, if s.pending == 1 then Signalling(p.count - 1) else Discounting(p.count - 1)).(pending := s.pending - 1)
    case Signal(w) => Goto(s, w, Discounting(p.count)).(done := true)
    case Again(w) => Goto(s, w, Waiting)
  }

  // ----------------------------------------------------------------- invariant

  /** What a worker still has on the counter. */
  function Owes(p: Worker): nat
  {
    match p
    case Popped(batch) => |batch|
    case Scanned(count, _) => count
    case Counted(count, found) => count + |found|
    case Discounting(count) => count
    case Signalling(count) => count
    case _ => 0
  }

  /** How often a worker holds a directory that is not scanned and not queued. */
  function Holds(p: Worker, d: nat): nat
  {
    match p
    case Popped(batch) => multiset(batch)[d]
    case Scanned(_, found) => multiset(found)[d]
    case Counted(_, found) => multiset(found)[d]
    case _ => 0
  }

  ghost function Owed(workers: seq<Worker>): nat
  {
    if workers == [] then 0 else Owed(workers[..|workers| - 1]) + Owes(workers[|workers| - 1])
  }

  ghost function Held(workers: seq<Worker>, d: nat): nat
  {
    if workers == [] then 0 else Held(workers[..|workers| - 1], d) + Holds(workers[|workers| - 1], d)
  }

  lemma {:induction false} OwedUpdate(workers: seq<Worker>, w: nat, p: Worker)
    requires w < |workers|
    ensures Owed(workers[w := p]) == Owed(workers) + Owes(p) - Owes(workers[w])
    ensures Owes(workers[w]) <= Owed(workers)
  {
    var n := |workers| - 1;
    if w == n {
      assert workers[w := p][..n] == workers[..n];
    } else {
      assert workers[w := p][..n] == workers[..n][w := p];
      OwedUpdate(workers[..n], w, p);
    }
  }

  lemma {:induction false} HeldUpdate(workers: seq<Worker>, w: nat, p: Worker, d: nat)
    requires w < |workers|
    ensures Held(workers[w := p], d) == Held(workers, d) + Holds(p, d) - Holds(workers[w], d)
  {
    var n := |workers| - 1;
    if w == n {
      assert workers[w := p][..n] == workers[..n];
    } else {
      assert workers[w := p][..n] == workers[..n][w := p];
      HeldUpdate(workers[..n], w, p, d);
    }
  }

  lemma {:induction false} OwedNothing(workers: seq<Worker>)
    requires forall w :: 0 <= w < |workers| ==> workers[w].Waiting?
    ensures Owed(workers) == 0 && forall d: nat :: Held(workers, d) == 0
  {
    if workers != [] { OwedNothing(workers[..|workers| - 1]); }
  }

  lemma {:induction false} OwedZero(workers: seq<Worker>)
    requires Owed(workers) == 0
    ensures forall w {:trigger workers[w]} :: 0 <= w < |workers| ==> Owes(workers[w]) == 0
    ensures (forall w :: 0 <= w < |workers| ==> Fair(workers[w])) ==> forall d: nat :: Held(workers, d) == 0
  {
    if workers != [] {
      var n := |workers| - 1;
      OwedZero(workers[..n]);
      assert forall w :: 0 <= w < n ==> workers[w] == workers[..n][w];
    }
  }

  /** A worker that has scanned something has it on the counter. */
  predicate Fair(p: Worker)
  {
    match p
    case Popped(batch) => batch != []
    case Scanned(count, _) => count > 0
    case Counted(count, found) => count > 0
    case _ => true
  }

  /** The counter is the number of directories queued, popped and not yet
      discounted, or counted and not yet pushed. */
  ghost predicate CounterSound(s: Scan)
  {
    && s.pending == |s.queue| + Owed(s.workers)
    && forall w {:trigger s.workers[w]} :: 0 <= w < |s.workers| ==> Fair(s.workers[w])
  }

  /** How often a directory is on the queue, in hands, or scanned. */
  ghost function Places(s: Scan, d: nat): nat
  {
    multiset(s.queue)[d] + Held(s.workers, d) + s.scanned[d]
  }

  /** Every directory found is on the queue, or in one worker's hands, or scanned; once. */
  ghost predicate EachOnce(s: Scan)
  {
    forall d: nat {:trigger Places(s, d)} :: Places(s, d) == if d < s.next then 1 else 0
  }

  /** Only a zero counter is signalled, and a zero counter is. */
  ghost predicate SignalSound(s: Scan)
  {
    && (s.done ==> s.pending == 0)
    && (forall w {:trigger s.workers[w]} :: 0 <= w < |s.workers| ==>
          && (s.workers[w].Signalling? ==> s.pending == 0)
          && (s.workers[w].Stopped? ==> s.done))
    && (s.pending == 0 ==> s.done || exists w {:trigger s.workers[w]} :: 0 <= w < |s.workers| && s.workers[w].Signalling?)
  }

  ghost predicate Inv(s: Scan)
  {
    CounterSound(s) && EachOnce(s) && SignalSound(s)
  }

  // --------------------------------------------------------------------- steps

  lemma CounterKept(s: Scan, step: Step)
    requires CounterSound(s) && Enabled(s, step)
    ensures CounterSound(Apply(s, step))
  {
    OwedUpdate(s.workers, step.w, Apply(s, step).workers[step.w]);
  }

  lemma SnocCount(list: seq<nat>, x: nat, d: nat)
    ensures multiset(list + [x])[d] == multiset(list)[d] + if x == d then 1 else 0
  {
  }

  lemma RangeMore(a: nat, b: nat)
    requires a <= b
    ensures a == b ==> Range(a, b) == []
    ensures a < b ==> Range(a, b) == Range(a, b - 1) + [b - 1]
  {
  }

  lemma {:induction false} RangeHolds(a: nat, b: nat, d: nat)
    requires a <= b
    ensures multiset(Range(a, b))[d] == if a <= d < b then 1 else 0
    decreases b - a
  {
    hide Range;
    RangeMore(a, b);
    if a < b {
      RangeHolds(a, b - 1, d);
      SnocCount(Range(a, b - 1), b - 1, d);
    }
  }

  lemma SplitCount(list: seq<nat>, n: nat, d: nat)
    requires n <= |list|
    ensures multiset(list)[d] == multiset(list[..n])[d] + multiset(list[n..])[d]
  {
    assert list == list[..n] + list[n..];
  }

  lemma PopPlaces(s: Scan, step: Step, d: nat)
    requires Enabled(s, step) && step.Pop?
    ensures Places(Apply(s, step), d) == Places(s, d)
  {
    HeldUpdate(s.workers, step.w, Apply(s, step).workers[step.w], d);
    hide Held;
    SplitCount(s.queue, if step.max < |s.queue| then step.max else |s.queue|, d);
  }

  lemma ScanPlaces(s: Scan, step: Step, d: nat)
    requires Enabled(s, step) && step.ScanBatch?
    ensures Places(Apply(s, step), d) == Places(s, d) + if s.next <= d < s.next + step.found then 1 else 0
  {
    HeldUpdate(s.workers, step.w, Apply(s, step).workers[step.w], d);
    hide Held, Range;
    RangeHolds(s.next, s.next + step.found, d);
  }

  lemma PushPlaces(s: Scan, step: Step, d: nat)
    requires Enabled(s, step) && step.Push?
    ensures Places(Apply(s, step), d) == Places(s, d)
  {
    HeldUpdate(s.workers, step.w, Apply(s, step).workers[step.w], d);
    hide Held;
    SplitCount(s.queue + s.workers[step.w].found, |s.queue|, d);
  }

  lemma CountPlaces(s: Scan, step: Step, d: nat)
    requires Enabled(s, step) && (step.CountFound? || step.Discount? || step.Signal? || step.Again?)
    ensures Places(Apply(s, step), d) == Places(s, d)
  {
    HeldUpdate(s.workers, step.w, Apply(s, step).workers[step.w], d);
    hide Held;
  }

  lemma PlacesAfter(s: Scan, step: Step, d: nat)
    requires Enabled(s, step)
    ensures Places(Apply(s, step), d) ==
      Places(s, d) + if step.ScanBatch? && s.next <= d < s.next + step.found then 1 else 0
  {
    hide Places, Apply, Enabled;
    match step {
      case Pop(_, _) => PopPlaces(s, step, d);
      case ScanBatch(_, _) => ScanPlaces(s, step, d);
      case Push(_) => PushPlaces(s, step, d);
      case _ => CountPlaces(s, step, d);
    }
  }

  lemma EachOnceKept(s: Scan, step: Step)
    requires EachOnce(s) && Enabled(s, step)
    ensures EachOnce(Apply(s, step))
  {
    var s' := Apply(s, step);
    forall d: nat
      ensures Places(s', d) == if d < s'.next then 1 else 0
    {
      PlacesAfter(s, step, d);
      assert Places(s, d) == if d < s.next then 1 else 0;
    }
  }

  lemma SignalKept(s: Scan, step: Step)
    requires CounterSound(s) && SignalSound(s) && Enabled(s, step)
    ensures SignalSound(Apply(s, step))
  {
    var s' := Apply(s, step);
    OwedUpdate(s.workers, step.w, s'.workers[step.w]);
    assert s.workers[step.w] == s.workers[step.w];
    assert s'.workers[step.w].Signalling? || s'.done || s'.pending != 0 ||
      forall w :: 0 <= w < |s.workers| && s.workers[w].Signalling? ==> w != step.w && s'.workers[w] == s.workers[w];
  }

  lemma StepKeeps(s: Scan, step: Step)
    requires Inv(s) && Enabled(s, step)
    ensures Inv(Apply(s, step))
  {
    CounterKept(s, step);
    EachOnceKept(s, step);
    SignalKept(s, step);
  }

  // ---------------------------------------------------------------------- runs

  ghost predicate Runs(s: Scan, steps: seq<Step>)
    decreases |steps|
  {
    steps == [] || (Enabled(s, steps[0]) && Runs(Apply(s, steps[0]), steps[1..]))
  }

  ghost function After(s: Scan, steps: seq<Step>): Scan
    requires Runs(s, steps)
    decreases |steps|
  {
    if steps == [] then s else After(Apply(s, steps[0]), steps[1..])
  }

  lemma {:induction false} RunKeeps(s: Scan, steps: seq<Step>)
    requires Inv(s) && Runs(s, steps)
    ensures Inv(After(s, steps))
    decreases |steps|
  {
    hide Inv;
    if steps != [] {
      StepKeeps(s, steps[0]);
      RunKeeps(Apply(s, steps[0]), steps[1..]);
    }
  }

  /** The scan starts workers only when something was enqueued. */
  lemma InitKeeps(seeds: nat, workers: nat)
    requires 0 < seeds
    ensures Inv(Init(seeds, workers))
  {
    var s := Init(seeds, workers);
    OwedNothing(s.workers);
    forall d: nat
      ensures Places(s, d) == if d < s.next then 1 else 0
    {
      RangeHolds(0, seeds, d);
    }
  }

  /** When `done` is set, every directory ever found has been scanned exactly
      once, and nothing is left anywhere. */
  lemma DoneMeansAllScanned(seeds: nat, workers: nat, steps: seq<Step>)
    requires 0 < seeds && Runs(Init(seeds, workers), steps)
    ensures var s := After(Init(seeds, workers), steps);
      s.done ==>
        && s.queue == [] && (forall w {:trigger s.workers[w]} :: 0 <= w < |s.workers| ==> Owes(s.workers[w]) == 0)
        && forall d: nat :: s.scanned[d] == if d < s.next then 1 else 0
  {
    InitKeeps(seeds, workers);
    RunKeeps(Init(seeds, workers), steps);
    var s := After(Init(seeds, workers), steps);
    if s.done {
      OwedZero(s.workers);
      forall d: nat
        ensures s.scanned[d] == if d < s.next then 1 else 0
      {
        assert Places(s, d) == if d < s.next then 1 else 0;
      }
    }
  }

  /** No directory is scanned twice, done or not; and a worker leaves only when
      all is done. */
  lemma NeverTwice(seeds: nat, workers: nat, steps: seq<Step>)
    requires 0 < seeds && Runs(Init(seeds, workers), steps)
    ensures var s := After(Init(seeds, workers), steps);
      && (forall d: nat :: s.scanned[d] <= if d < s.next then 1 else 0)
      && forall w {:trigger s.workers[w]} :: 0 <= w < |s.workers| && s.workers[w].Stopped? ==> s.done
  {
    InitKeeps(seeds, workers);
    RunKeeps(Init(seeds, workers), steps);
    var s := After(Init(seeds, workers), steps);
    forall d: nat
      ensures s.scanned[d] <= if d < s.next then 1 else 0
    {
      assert Places(s, d) == if d < s.next then 1 else 0;
    }
  }

  /** Until all workers have stopped, one of them can take a step: nobody waits
      for a signal that does not come. */
  lemma NeverStuck(seeds: nat, workers: nat, steps: seq<Step>) returns (step: Step)
    requires 0 < seeds && Runs(Init(seeds, workers), steps)
    requires exists w :: 0 <= w < |After(Init(seeds, workers), steps).workers| && !After(Init(seeds, workers), steps).workers[w].Stopped?
    ensures Enabled(After(Init(seeds, workers), steps), step)
  {
    InitKeeps(seeds, workers);
    RunKeeps(Init(seeds, workers), steps);
    step := CanStep(After(Init(seeds, workers), steps));
  }

  lemma CanStep(s: Scan) returns (step: Step)
    requires Inv(s) && exists w :: 0 <= w < |s.workers| && !s.workers[w].Stopped?
    ensures Enabled(s, step)
  {
    if w: nat :| w < |s.workers| && !s.workers[w].Stopped? && !s.workers[w].Waiting? {
      match s.workers[w] {
        case Popped(_) => step := ScanBatch(w, 0);
        case Scanned(_, _) => step := CountFound(w);
        case Counted(_, _) => step := Push(w);
        case Discounting(count) => step := if count > 0 then Discount(w) else Again(w);
        case Signalling(_) => step := Signal(w);
      }
    } else {
      var w: nat :| w < |s.workers| && s.workers[w].Waiting?;
      IdleOwesNothing(s.workers);
      step := Pop(w, 1);
    }
  }

  lemma {:induction false} IdleOwesNothing(workers: seq<Worker>)
    requires forall w :: 0 <= w < |workers| ==> workers[w].Waiting? || workers[w].Stopped?
    ensures Owed(workers) == 0
  {
    if workers != [] { IdleOwesNothing(workers[..|workers| - 1]); }
  }

  // ----------------------------------------------------------------- termination

  /** Steps that a worker still has to take, at most, apart from what it finds. */
  function Weight(p: Worker): nat
  {
    match p
    case Waiting => 1
    case Popped(batch) => 5 + 2 * |batch|
    case Scanned(count, found) => 4 + 2 * count + 7 * |found|
    case Counted(count, found) => 3 + 2 * count + 7 * |found|
    case Discounting(count) => 2 + 2 * count
    case Signalling(count) => 3 + 2 * count
    case Stopped => 0
  }

  ghost function Weights(workers: seq<Worker>): nat
  {
    if workers == [] then 0 else Weights(workers[..|workers| - 1]) + Weight(workers[|workers| - 1])
  }

  lemma {:induction false} WeightsUpdate(workers: seq<Worker>, w: nat, p: Worker)
    requires w < |workers|
    ensures Weights(workers[w := p]) == Weights(workers) + Weight(p) - Weight(workers[w])
  {
    var n := |workers| - 1;
    if w == n {
      assert workers[w := p][..n] == workers[..n];
    } else {
      assert workers[w := p][..n] == workers[..n][w := p];
      WeightsUpdate(workers[..n], w, p);
    }
  }

  lemma {:induction false} WaitingWeighs(workers: seq<Worker>)
    requires forall w :: 0 <= w < |workers| ==> workers[w].Waiting?
    ensures Weights(workers) == |workers|
  {
    if workers != [] { WaitingWeighs(workers[..|workers| - 1]); }
  }

  /** Work left when `total` directories are found in the end. */
  ghost function Left(s: Scan, total: nat): int
  {
    7 * (total - s.next) + 7 * |s.queue| + Weights(s.workers)
  }

  lemma StepWorks(s: Scan, step: Step, total: nat)
    requires Enabled(s, step)
    ensures Left(Apply(s, step), total) < Left(s, total) && s.next <= Apply(s, step).next
    ensures |Apply(s, step).workers| == |s.workers|
  {
    WeightsUpdate(s.workers, step.w, Apply(s, step).workers[step.w]);
    hide Weights;
  }

  lemma {:induction false} RunWorks(s: Scan, steps: seq<Step>, total: nat)
    requires Runs(s, steps) && After(s, steps).next <= total
    ensures s.next <= total && |steps| <= Left(s, total)
    decreases |steps|
  {
    hide Enabled, Apply, Left;
    if steps == [] {
      LeftIsNat(s, total);
    } else {
      StepWorks(s, steps[0], total);
      RunWorks(Apply(s, steps[0]), steps[1..], total);
    }
  }

  lemma LeftIsNat(s: Scan, total: nat)
    requires s.next <= total
    ensures Left(s, total) >= 0
  {
  }

  /** The scan ends: a run in which `n` directories are found has at most seven
      steps for each and one for each worker. With `NeverStuck`, every run that
      finds finitely many directories ends with all workers stopped. */
  lemma ScanEnds(seeds: nat, workers: nat, steps: seq<Step>)
    requires Runs(Init(seeds, workers), steps)
    ensures |steps| <= 7 * After(Init(seeds, workers), steps).next + workers
  {
    RunWorks(Init(seeds, workers), steps, After(Init(seeds, workers), steps).next);
    WaitingWeighs(Init(seeds, workers).workers);
  }

  // --------------------------------------------------------------- queue order

  /** What a worker has just been handed. */
  function Handed(s: Scan, w: nat): seq<nat>
  {
    if w < |s.workers| && s.workers[w].Popped? then s.workers[w].batch else []
  }

  /** The directories that the steps of a run hand out, in order. */
  ghost function PoppedBy(s: Scan, steps: seq<Step>): seq<nat>
    requires Runs(s, steps)
    decreases |steps|
  {
    if steps == [] then []
    else (if steps[0].Pop? then Handed(Apply(s, steps[0]), steps[0].w) else []) + PoppedBy(Apply(s, steps[0]), steps[1..])
  }

  /** And those that they put on the queue. */
  ghost function PushedBy(s: Scan, steps: seq<Step>): seq<nat>
    requires Runs(s, steps)
    decreases |steps|
  {
    if steps == [] then []
    else
      (if steps[0].Push? && steps[0].w < |s.workers| && s.workers[steps[0].w].Counted? then s.workers[steps[0].w].found else [])
      + PushedBy(Apply(s, steps[0]), steps[1..])
  }

  lemma StepQueues(s: Scan, step: Step)
    requires Enabled(s, step)
    ensures var s' := Apply(s, step);
      s.queue + (if step.Push? then s.workers[step.w].found else []) == (if step.Pop? then Handed(s', step.w) else []) + s'.queue
    ensures step.Push? ==> s.workers[step.w].Counted?
  {
    if step.Pop? {
      var n := if step.max < |s.queue| then step.max else |s.queue|;
      assert s.queue == s.queue[..n] + s.queue[n..];
    }
  }

  lemma {:induction false} QueueOrder(s: Scan, steps: seq<Step>)
    requires Runs(s, steps)
    ensures s.queue + PushedBy(s, steps) == PoppedBy(s, steps) + After(s, steps).queue
    decreases |steps|
  {
    if steps != [] {
      var s' := Apply(s, steps[0]);
      StepQueues(s, steps[0]);
      hide Apply, Handed;
      QueueOrder(s', steps[1..]);
      Regroup(s.queue, if steps[0].Push? then s.workers[steps[0].w].found else [], PushedBy(s', steps[1..]),
              if steps[0].Pop? then Handed(s', steps[0].w) else [], s'.queue, PoppedBy(s', steps[1..]), After(s, steps).queue);
    }
  }

  lemma Regroup(q: seq<nat>, x: seq<nat>, xs: seq<nat>, y: seq<nat>, q': seq<nat>, ys: seq<nat>, e: seq<nat>)
    requires q + x == y + q' && q' + xs == ys + e
    ensures q + (x + xs) == (y + ys) + e
  {
    assert q + (x + xs) == (q + x) + xs == y + (q' + xs);
  }

  /** First in, first out, whatever the interleaving: what the workers are handed,
      one batch after another, and then what is still queued, is the seeds and what
      was pushed, in that order. */
  lemma FirstInFirstOut(seeds: nat, workers: nat, steps: seq<Step>)
    requires Runs(Init(seeds, workers), steps)
    ensures Range(0, seeds) + PushedBy(Init(seeds, workers), steps)
      == PoppedBy(Init(seeds, workers), steps) + After(Init(seeds, workers), steps).queue
  {
    QueueOrder(Init(seeds, workers), steps);
  }

  /** A worker is handed no more than it has room for, and less only if it has
      taken all there was. */
  ghost predicate Fits(s: Scan, steps: seq<Step>)
    requires Runs(s, steps)
    decreases |steps|
  {
    steps == [] ||
    (var (step, s') := (steps[0], Apply(s, steps[0]));
     && (step.Pop? ==> |Handed(s', step.w)| <= step.max && (|Handed(s', step.w)| < step.max ==> s'.queue == []))
     && Fits(s', steps[1..]))
  }

  lemma {:induction false} BatchesFit(s: Scan, steps: seq<Step>)
    requires Runs(s, steps)
    ensures Fits(s, steps)
    decreases |steps|
  {
    if steps != [] {
      BatchesFit(Apply(s, steps[0]), steps[1..]);
    }
  }
}
