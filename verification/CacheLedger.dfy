/** The books of the thread caches while the pool is shut down: no buffer leaves
    a cache twice and none stays behind, exactly as long as the destroyer does
    not start to empty a cache from which its owner is about to take a buffer. A
    pop takes no lock, and neither counter that the destroyer waits for covers
    it. */
module CacheLedger {
  import opened ShutdownMachine
  import opened PoolShutdown

  /** The owner has found the pool alive, or has refilled, and has not yet stored
      the count that its pop leaves. */
  predicate AboutToTake(p: Pc)
  {
    p.PopTest? || p.PopLoad? || p.PopStore?
  }

  /** The destroyer starts to empty a cache that holds something while its owner
      is about to take from it. */
  predicate Overtakes(s: Pool, step: Step)
  {
    && step.Destroy? && s.phase.Clean? && s.phase.c < |s.caches| && s.phase.c < |s.threads|
    && !s.caches[s.phase.c].cleaned && s.caches[s.phase.c].counts > 0 && AboutToTake(s.threads[s.phase.c])
  }

  // ----------------------------------------------------------------- invariant

  /** The count is what the books say; a buffer whose lower count has been stored
      is still owed to its taker. */
  predicate BooksAt(c: Cache, p: Pc, stage: Stage)
  {
    && c.owed == (if stage.Dumped? then 0 else c.counts) + (if p.PopTake? then 1 else 0)
    && (Registering(p) || c.cleaned ==> c.counts == 0)
    && (p.PopLoad? ==> c.counts > 0) && (p.PopStore? ==> p.v == c.counts && c.counts > 0)
    && (stage.Read? ==> stage.n == c.counts)
    && (stage.Read? || stage.Dumped? ==> !p.PopLoad? && !p.PopStore? && (p.PopTest? ==> c.counts == 0))
  }

  ghost predicate Books(s: Pool)
  {
    |s.caches| == |s.threads| &&
    forall t: nat {:trigger s.caches[t]} {:trigger s.threads[t]} :: t < |s.caches| ==>
      BooksAt(s.caches[t], s.threads[t], StageOf(s.phase, t))
  }

  // --------------------------------------------------------------------- steps

  /** Whoever changes the count is alone: in the shards, in registration or with
      the mutex the owner is not being emptied, and what it fills is not clean. */
  lemma Alone(c: Cache, p: Pc, waiting: bool, destroyed: bool, past: bool, stage: Stage, mine: bool)
    requires CacheSound(c, p, waiting, destroyed, past, stage, mine) && MayGo(c, p, destroyed, past, stage, mine)
    requires stage.Read? || stage.Dumped? ==> past
    ensures HoldsOwn(p) || UsesShards(p) || Registering(p) ==> !stage.Read? && !stage.Dumped?
    ensures p.InShards? || p.StorePut? ==> !c.cleaned
    ensures p.RegCheck? || p.RegMake? ==> c == NoCache
  {
  }

  lemma PopBooks(c: Cache, p: Pc, destroyed: bool, stage: Stage, fails: bool, n: nat)
    requires BooksAt(c, p, stage) && (Pops(p))
    ensures BooksAt(NextCache(c, p, destroyed, fails, n), NextPc(p, c, destroyed, fails, n), stage)
  {
  }

  lemma StoreBooks(c: Cache, p: Pc, destroyed: bool, stage: Stage, fails: bool, n: nat)
    requires BooksAt(c, p, stage) && (Stores(p))
    requires !stage.Read? && !stage.Dumped?
    requires p.StorePut? ==> !c.cleaned
    ensures BooksAt(NextCache(c, p, destroyed, fails, n), NextPc(p, c, destroyed, fails, n), stage)
  {
  }

  lemma EnterBooks(c: Cache, p: Pc, destroyed: bool, stage: Stage, fails: bool, n: nat)
    requires BooksAt(c, p, stage) && (p.InShards? || p.EnterCheck? || p.EnterBack?)
    requires p.InShards? ==> !c.cleaned && !stage.Read? && !stage.Dumped?
    ensures BooksAt(NextCache(c, p, destroyed, fails, n), NextPc(p, c, destroyed, fails, n), stage)
  {
  }

  lemma MakeBooks(c: Cache, p: Pc, destroyed: bool, stage: Stage, fails: bool, n: nat)
    requires BooksAt(c, p, stage) && (p.RegBump? || p.RegCheck? || p.RegMake?)
    requires !p.RegBump? ==> c == NoCache
    requires p.RegMake? ==> !stage.Read? && !stage.Dumped?
    ensures BooksAt(NextCache(c, p, destroyed, fails, n), NextPc(p, c, destroyed, fails, n), stage)
  {
  }

  lemma PushBooks(c: Cache, p: Pc, destroyed: bool, stage: Stage, fails: bool, n: nat)
    requires BooksAt(c, p, stage) && (p.RegPush? || p.RegRecheck?)
    requires !stage.Read? && !stage.Dumped?
    ensures BooksAt(NextCache(c, p, destroyed, fails, n), NextPc(p, c, destroyed, fails, n), stage)
  {
  }

  lemma MarkBooks(c: Cache, p: Pc, destroyed: bool, stage: Stage, fails: bool, n: nat)
    requires BooksAt(c, p, stage) && (p.RegLock? || p.RegMark? || p.RegUnlock? || p.RegKey?)
    requires !stage.Read? && !stage.Dumped?
    ensures BooksAt(NextCache(c, p, destroyed, fails, n), NextPc(p, c, destroyed, fails, n), stage)
  {
  }

  lemma ExitBooks(c: Cache, p: Pc, destroyed: bool, stage: Stage, fails: bool, n: nat)
    requires BooksAt(c, p, stage) && (p.RegBack? || p.ExitLock? || p.ExitMark? || p.ExitBump? || p.ExitCheck? || p.ExitBack?)
    ensures BooksAt(NextCache(c, p, destroyed, fails, n), NextPc(p, c, destroyed, fails, n), stage)
  {
  }

  lemma FlushBooks(c: Cache, p: Pc, destroyed: bool, stage: Stage, fails: bool, n: nat)
    requires BooksAt(c, p, stage) && (p.ExitFree? || p.ExitFlush?)
    requires !stage.Read? && !stage.Dumped?
    ensures BooksAt(NextCache(c, p, destroyed, fails, n), NextPc(p, c, destroyed, fails, n), stage)
  {
  }

  lemma LookBooks(c: Cache, p: Pc, destroyed: bool, stage: Stage, fails: bool, n: nat)
    requires BooksAt(c, p, stage) && (p.ExitLeave? || p.ExitLook? || p.ExitUnlock? || p.ExitDispose?)
    ensures BooksAt(NextCache(c, p, destroyed, fails, n), NextPc(p, c, destroyed, fails, n), stage)
  {
  }

  lemma GoBooks(c: Cache, p: Pc, destroyed: bool, stage: Stage, fails: bool, n: nat)
    requires BooksAt(c, p, stage) && !p.Idle? && !p.Gone?
    requires HoldsOwn(p) || UsesShards(p) || Registering(p) ==> !stage.Read? && !stage.Dumped?
    requires p.InShards? || p.StorePut? ==> !c.cleaned
    requires p.RegCheck? || p.RegMake? ==> c == NoCache
    requires stage.Read? || stage.Dumped? ==> destroyed
    ensures BooksAt(NextCache(c, p, destroyed, fails, n), NextPc(p, c, destroyed, fails, n), stage)
  {
    hide BooksAt, NextPc, NextCache;
    if Pops(p) { PopBooks(c, p, destroyed, stage, fails, n); }
    else if Stores(p) { StoreBooks(c, p, destroyed, stage, fails, n); }
    else if p.InShards? || p.EnterCheck? || p.EnterBack? { EnterBooks(c, p, destroyed, stage, fails, n); }
    else if p.RegBump? || p.RegCheck? || p.RegMake? { MakeBooks(c, p, destroyed, stage, fails, n); }
    else if p.RegPush? || p.RegRecheck? { PushBooks(c, p, destroyed, stage, fails, n); }
    else if p.RegLock? || p.RegMark? || p.RegUnlock? || p.RegKey? { MarkBooks(c, p, destroyed, stage, fails, n); }
    else if p.ExitFree? || p.ExitFlush? { FlushBooks(c, p, destroyed, stage, fails, n); }
    else if p.ExitLeave? || p.ExitLook? || p.ExitUnlock? || p.ExitDispose? { LookBooks(c, p, destroyed, stage, fails, n); }
    else { ExitBooks(c, p, destroyed, stage, fails, n); }
  }

  lemma StartBooks(c: Cache, stage: Stage)
    requires BooksAt(c, Idle, stage)
    ensures BooksAt(c, RegBump, stage) && BooksAt(c, EnterCheck, stage) && BooksAt(c.(holder := Owner), StoreCheck, stage)
    ensures BooksAt(c.(key := false), ExitLock, stage) && BooksAt(c.(key := false), Gone, stage)
    ensures !stage.Read? && !stage.Dumped? ==> BooksAt(c, PopTest, stage)
  {
  }

  lemma ThreadBooks(s: Pool, step: Step)
    requires Inv(s) && Books(s) && Enabled(s, step) && !step.Destroy?
    ensures Books(Apply(s, step))
  {
    var t := step.t;
    assert SoundAt(s, t);
    ThreadMayGo(s, t);
    hide Inv, Counted, Quiet, DestroyerSound, WaitingSound, CachesSound, CacheSound, BooksAt, NextPc, NextCache, MayGo, StageOf, Registers, Uses, Waiting, PastUsers, HoldsOwn, UsesShards, Registering;
    if step.Go? {
      Alone(s.caches[t], s.threads[t], t in Waiting(s), s.destroyed, PastUsers(s.phase), StageOf(s.phase, t), t == s.destroyer);
      GoBooks(s.caches[t], s.threads[t], s.destroyed, StageOf(s.phase, t), step.fails, step.n);
    } else {
      StartBooks(s.caches[t], StageOf(s.phase, t));
    }
  }

  /** The destroyer's own steps at a cache. */
  lemma BooksAtCache(c: Cache, p: Pc, waiting: bool, stage: Stage, mine: bool)
    requires CacheSound(c, p, waiting, true, true, stage, mine) && BooksAt(c, p, stage)
    requires stage.Holding? ==> !(!c.cleaned && c.counts > 0 && AboutToTake(p))
    ensures BooksAt(Handled(c, stage, mine), p, StageAfter(c, stage))
  {
  }

  lemma DestroyerBooksElsewhere(s: Pool, t: nat)
    requires Books(s) && DestroyEnabled(s) && t < |s.caches| && StageOf(s.phase, t).Away? && s.phase != Lock(t)
    requires s.destroyed <==> !s.phase.NotYet?
    ensures |DestroyStep(s).caches| == |DestroyStep(s).threads| == |s.caches|
    ensures BooksAt(DestroyStep(s).caches[t], DestroyStep(s).threads[t], StageOf(DestroyStep(s).phase, t))
  {
    DestroyerKeepsLength(s);
    assert BooksAt(s.caches[t], s.threads[t], StageOf(s.phase, t));
    hide BooksAt, Books, DestroyStep, DestroyEnabled;
    DestroyerElsewhere(s, t);
  }

  lemma AtCacheBooked(s: Pool)
    requires Inv(s) && Books(s) && DestroyEnabled(s) && !Overtakes(s, Destroy) && AtSomeCache(s.phase) && s.phase.c < |s.caches|
    ensures |DestroyStep(s).caches| == |DestroyStep(s).threads| == |s.caches|
    ensures BooksAt(DestroyStep(s).caches[s.phase.c], DestroyStep(s).threads[s.phase.c], StageOf(DestroyStep(s).phase, s.phase.c))
  {
    var t := s.phase.c;
    assert BooksAt(s.caches[t], s.threads[t], StageOf(s.phase, t)) && SoundAt(s, t);
    DestroyerMoves(s);
    hide Inv, Counted, Quiet, WaitingSound, CachesSound, CacheSound, BooksAt, Books, Waiting, DestroyStep, DestroyEnabled, Handled, StageAfter;
    BooksAtCache(s.caches[t], s.threads[t], t in Waiting(s), StageOf(s.phase, t), t == s.destroyer);
  }

  lemma BooksKept(s: Pool, step: Step)
    requires Inv(s) && Books(s) && Enabled(s, step) && !Overtakes(s, step)
    ensures Books(Apply(s, step))
  {
    hide Inv, BooksAt, Overtakes;
    if step.Destroy? {
      hide DestroyEnabled, DestroyStep;
      forall t: nat | t < |s.caches|
        ensures |DestroyStep(s).caches| == |DestroyStep(s).threads| == |s.caches|
        ensures BooksAt(DestroyStep(s).caches[t], DestroyStep(s).threads[t], StageOf(DestroyStep(s).phase, t))
      {
        if StageOf(s.phase, t).Away? && s.phase != Lock(t) { DestroyerIsMarked(s); DestroyerBooksElsewhere(s, t); } else { AtCacheBooked(s); }
      }
      DestroyerKeepsLength(s);
    } else {
      ThreadBooks(s, step);
    }
  }

  lemma DestroyerIsMarked(s: Pool)
    requires Inv(s)
    ensures s.destroyed <==> !s.phase.NotYet?
  {
  }

  lemma DestroyerKeepsLength(s: Pool)
    requires DestroyEnabled(s) && |s.caches| == |s.threads|
    ensures |DestroyStep(s).caches| == |DestroyStep(s).threads| == |s.caches|
  {
  }

  // ---------------------------------------------------------------------- runs

  /** The destroyer overtakes nobody. */
  ghost predicate Orderly(s: Pool, steps: seq<Step>)
    requires Runs(s, steps)
    decreases |steps|
  {
    steps == [] || (!Overtakes(s, steps[0]) && Orderly(Apply(s, steps[0]), steps[1..]))
  }

  lemma {:induction false} RunKeepsBooks(s: Pool, steps: seq<Step>)
    requires Inv(s) && Books(s) && Runs(s, steps) && Orderly(s, steps)
    ensures Inv(After(s, steps)) && Books(After(s, steps))
    decreases |steps|
  {
    hide Inv, Books, Overtakes;
    if steps != [] {
      StepKeeps(s, steps[0]);
      BooksKept(s, steps[0]);
      RunKeepsBooks(Apply(s, steps[0]), steps[1..]);
    }
  }

  lemma OrderlyReached(threads: nat, destroyer: nat, steps: seq<Step>)
    requires destroyer < threads && Runs(Init(threads, destroyer), steps) && Orderly(Init(threads, destroyer), steps)
    ensures Inv(After(Init(threads, destroyer), steps)) && Books(After(Init(threads, destroyer), steps))
  {
    InitKeeps(threads, destroyer);
    RunKeepsBooks(Init(threads, destroyer), steps);
  }

  // ------------------------------------------------------------- main results

  /** No buffer has left a cache that had not come into it, and a cache that is
      freed or orphaned, or whose owner is gone, holds none and owes none, but for
      the one that its owner is just taking. */
  ghost predicate Balanced(s: Pool)
  {
    forall t {:trigger s.caches[t]} :: 0 <= t < |s.caches| && t < |s.threads| ==>
      && s.caches[t].owed >= 0
      && (s.caches[t].frees > 0 || !s.caches[t].pool || s.threads[t].Gone? ==>
            s.caches[t].counts == 0 && s.caches[t].owed == if s.threads[t].PopTake? then 1 else 0)
  }

  lemma BooksBalance(s: Pool)
    requires Inv(s) && Books(s)
    ensures Balanced(s)
  {
    forall t | 0 <= t < |s.caches| && t < |s.threads|
      ensures s.caches[t].owed >= 0
      ensures s.caches[t].frees > 0 || !s.caches[t].pool || s.threads[t].Gone? ==>
            s.caches[t].counts == 0 && s.caches[t].owed == if s.threads[t].PopTake? then 1 else 0
    {
      assert SoundAt(s, t) && BooksAt(s.caches[t], s.threads[t], StageOf(s.phase, t));
      hide Inv, CachesSound, Waiting;
    }
  }

  /** As long as the destroyer overtakes nobody, the books balance in every state:
      no buffer leaves twice, none stays behind, none is stored later. */
  lemma NoBufferLeftBehind(threads: nat, destroyer: nat, steps: seq<Step>)
    requires destroyer < threads && Runs(Init(threads, destroyer), steps) && Orderly(Init(threads, destroyer), steps)
    ensures Balanced(After(Init(threads, destroyer), steps))
  {
    OrderlyReached(threads, destroyer, steps);
    BooksBalance(After(Init(threads, destroyer), steps));
  }

  /** And the condition is exact: once it has overtaken somebody, there is a
      continuation in which more buffers have left the cache than came in: one has
      been freed and handed out. */
  lemma OvertakingBreaksIt(threads: nat, destroyer: nat, before: seq<Step>) returns (rest: seq<Step>)
    requires destroyer < threads && Runs(Init(threads, destroyer), before) && Orderly(Init(threads, destroyer), before)
    requires Enabled(After(Init(threads, destroyer), before), Destroy) && Overtakes(After(Init(threads, destroyer), before), Destroy)
    ensures Runs(Apply(After(Init(threads, destroyer), before), Destroy), rest)
    ensures !Balanced(After(Apply(After(Init(threads, destroyer), before), Destroy), rest))
  {
    OrderlyReached(threads, destroyer, before);
    rest := HandsOutFreed(After(Init(threads, destroyer), before));
  }

  lemma HandsOutFreed(s: Pool) returns (rest: seq<Step>)
    requires Inv(s) && Books(s) && Enabled(s, Destroy) && Overtakes(s, Destroy)
    ensures Runs(Apply(s, Destroy), rest) && !Balanced(After(Apply(s, Destroy), rest))
  {
    var t := s.phase.c;
    var a := Apply(s, Destroy);
    assert BooksAt(s.caches[t], s.threads[t], StageOf(s.phase, t)) && s.caches[t].owed == s.caches[t].counts;
    assert t != s.destroyer;
    hide Inv, Books, Balanced;
    rest := TakesLate(a, t, s.caches[t].counts);
  }

  /** The owner loads the count, the destroyer frees the buffers and clears it, and
      the owner takes its buffer all the same. */
  lemma TakesLate(s: Pool, t: nat, v: nat) returns (rest: seq<Step>)
    requires t < |s.threads| == |s.caches| && t != s.destroyer && s.phase == Dump(t, v)
    requires AboutToTake(s.threads[t]) && (s.threads[t].PopStore? ==> s.threads[t].v == v)
    requires s.caches[t].counts == v > 0 && s.caches[t].owed == v
    ensures Runs(s, rest) && !Balanced(After(s, rest))
    decreases if s.threads[t].PopTest? then 2 else if s.threads[t].PopLoad? then 1 else 0
  {
    if s.threads[t].PopStore? {
      rest := TakesFreed(s, t, v);
    } else {
      var s' := Apply(s, Go(t, false, 0));
      hide Runs, After, Balanced;
      rest := TakesLate(s', t, v);
      rest := Prepend(s, Go(t, false, 0), s', rest);
    }
  }

  lemma TakesFreed(s: Pool, t: nat, v: nat) returns (rest: seq<Step>)
    requires t < |s.threads| == |s.caches| && t != s.destroyer && s.phase == Dump(t, v)
    requires s.threads[t] == PopStore(v) && s.caches[t].counts == v > 0 && s.caches[t].owed == v
    ensures Runs(s, rest) && !Balanced(After(s, rest))
  {
    var a := Apply(s, Destroy);
    var b := Apply(a, Destroy);
    hide Runs, After, Balanced;
    rest := TakesAfterAll(b, t, v);
    rest := Prepend(a, Destroy, b, rest);
    rest := Prepend(s, Destroy, a, rest);
  }

  lemma TakesAfterAll(s: Pool, t: nat, v: nat) returns (rest: seq<Step>)
    requires t < |s.threads| == |s.caches| && t != s.destroyer
    requires s.threads[t] == PopStore(v) && s.caches[t].owed == 0
    ensures Runs(s, rest) && !Balanced(After(s, rest))
  {
    var c := Apply(s, Go(t, false, 0));
    var d := Apply(c, Go(t, false, 0));
    assert d.caches[t].owed == -1;
    assert !Balanced(d);
    Nowhere(d);
    hide Runs, After, Balanced;
    rest := Prepend(c, Go(t, false, 0), d, []);
    rest := Prepend(s, Go(t, false, 0), c, rest);
  }

  // ----------------------------------------------- such a state can be reached

  const Full := Keyed.(counts := 2, owed := 2)

  /** The thread of `Along` stores two buffers and has begun to take one when the
      destroyer gets to its cache. */
  function Popping(i: nat): Pool
  {
    match i
    case 0 => Two(NotYet, 0, [1], [], Idle, Keyed)
    case 1 => Two(NotYet, 0, [1], [], StoreCheck, Keyed.(holder := Owner))
    case 2 => Two(NotYet, 0, [1], [], StorePut, Keyed.(holder := Owner))
    case 3 => Two(NotYet, 0, [1], [], StoreUnlock, Full.(holder := Owner))
    case 4 => Two(NotYet, 0, [1], [], Idle, Full)
    case 5 => Two(NotYet, 0, [1], [], PopTest, Full)
    case 6 => Two(WaitRegistrations, 0, [1], [], PopTest, Full)
    case 7 => Two(WaitUsers, 0, [1], [], PopTest, Full)
    case 8 => Two(Detach, 0, [1], [], PopTest, Full)
    case 9 => Two(Next, 0, [], [1], PopTest, Full)
    case 10 => Two(Lock(1), 0, [], [], PopTest, Full)
    case 11 => Two(Clean(1), 0, [], [], PopTest, Full.(holder := Destroyer))
    case _ => Two(Dump(1, 2), 0, [], [], PopTest, Full.(holder := Destroyer))
  }

  function PoppingStep(i: nat): Step
  {
    if i == 0 then Store(1) else if i < 4 then Go(1, false, 2) else if i == 4 then Pop(1) else Destroy
  }

  lemma StoreFits(i: nat)
    requires i < 3
    ensures Enabled(Popping(i), PoppingStep(i)) && Apply(Popping(i), PoppingStep(i)) == Popping(i + 1)
  {
  }

  lemma StoredFits(i: nat)
    requires 3 <= i < 5
    ensures Enabled(Popping(i), PoppingStep(i)) && Apply(Popping(i), PoppingStep(i)) == Popping(i + 1)
  {
  }

  lemma ReachingFits(i: nat)
    requires 5 <= i < 12
    ensures Enabled(Popping(i), PoppingStep(i)) && Apply(Popping(i), PoppingStep(i)) == Popping(i + 1)
  {
  }

  lemma {:induction false} RunsPopping(i: nat, rest: seq<Step>) returns (steps: seq<Step>)
    requires i <= 12 && Runs(Popping(12), rest)
    ensures Runs(Popping(i), steps) && After(Popping(i), steps) == After(Popping(12), rest)
    decreases 12 - i
  {
    hide *;
    if i == 12 {
      steps := rest;
    } else {
      steps := RunsPopping(i + 1, rest);
      if i < 3 { StoreFits(i); } else if i < 5 { StoredFits(i); } else { ReachingFits(i); }
      steps := Prepend(Popping(i), PoppingStep(i), Popping(i + 1), steps);
    }
  }

  lemma PoppingEnds()
    ensures Popping(0) == Along(8) && Popping(12).phase == Dump(1, 2) && Popping(12).destroyer == 0
    ensures |Popping(12).threads| == |Popping(12).caches| == 2 && Popping(12).threads[1] == PopTest
    ensures Popping(12).caches[1].counts == 2 == Popping(12).caches[1].owed
    ensures Overtakes(Popping(11), Destroy)
  {
  }

  /** A run after which a buffer has been freed and handed out. */
  lemma FreedAndHandedOut() returns (steps: seq<Step>)
    ensures Runs(Init(2, 0), steps) && !Balanced(After(Init(2, 0), steps))
  {
    AlongEnds();
    PoppingEnds();
    hide *;
    Pending(PopTest);
    steps := TakesLate(Popping(12), 1, 2);
    steps := RunsPopping(0, steps);
    steps := RunsAlong(0, 8, steps);
  }

  lemma Pending(p: Pc)
    ensures AboutToTake(p) <==> p.PopTest? || p.PopLoad? || p.PopStore?
  {
  }
}
