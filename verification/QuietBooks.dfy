/** When the books of the thread caches are safe from a shutdown: the exact
    state of the other threads at the moment a caller destroys the pool under
    which no buffer is ever freed and handed out. */
module QuietBooks {
  import opened ShutdownMachine
  import opened PoolShutdown
  import opened CacheLedger
  import opened QuietShutdown

  /** The thread is about to take a buffer from its cache, which holds one, or is
      in the shards, from where a refill leads straight to taking one. */
  predicate Taking(c: Cache, p: Pc)
  {
    (AboutToTake(p) && c.counts > 0) || (p.InShards? && c.key)
  }

  ghost predicate OthersTakeNothing(s: Pool)
  {
    forall t {:trigger s.threads[t]} {:trigger s.caches[t]} :: 0 <= t < |s.threads| && t < |s.caches| && t != s.destroyer ==>
      !Taking(s.caches[t], s.threads[t])
  }

  // ------------------------------------------------------------ it is sufficient

  /** Nobody takes from a cache any more. */
  ghost predicate Still(s: Pool)
  {
    && s.destroyed && |s.threads| == |s.caches|
    && forall t {:trigger s.threads[t]} {:trigger s.caches[t]} :: 0 <= t < |s.threads| ==> !Taking(s.caches[t], s.threads[t])
  }

  /** In a destroyed pool nobody begins to take. */
  lemma GoTakesNothing(c: Cache, p: Pc, fails: bool, n: nat)
    requires !Taking(c, p) && !p.Idle? && !p.Gone?
    ensures !Taking(NextCache(c, p, true, fails, n), NextPc(p, c, true, fails, n))
  {
  }

  lemma NotAtTaking(c: Cache)
    ensures !Taking(c, Idle) && !Taking(c, RegBump) && !Taking(c, EnterCheck) && !Taking(c, StoreCheck)
    ensures !Taking(c, ExitLock) && !Taking(c, Gone)
  {
  }

  lemma ThreadStill(s: Pool, step: Step)
    requires Still(s) && Enabled(s, step) && !step.Destroy?
    ensures Still(Apply(s, step))
  {
    var t := step.t;
    assert !Taking(s.caches[t], s.threads[t]);
    hide NextPc, NextCache, Taking, Registers, Uses;
    if step.Go? {
      GoTakesNothing(s.caches[t], s.threads[t], step.fails, step.n);
    } else {
      NotAtTaking(s.caches[t]);
      NotAtTaking(s.caches[t].(holder := Owner));
      NotAtTaking(s.caches[t].(key := false));
    }
  }

  /** The destroyer fills no cache and gives no thread a key. */
  lemma DestroyerStill(s: Pool)
    requires Still(s) && DestroyEnabled(s)
    ensures Still(DestroyStep(s))
  {
    var s' := DestroyStep(s);
    assert s'.threads == s.threads && |s'.caches| == |s.caches| && s'.destroyed;
    forall t | 0 <= t < |s.threads|
      ensures !Taking(s'.caches[t], s'.threads[t])
    {
      assert !Taking(s.caches[t], s.threads[t]);
      assert s'.caches[t].counts <= s.caches[t].counts && (s'.caches[t].key ==> s.caches[t].key);
    }
  }

  lemma StillKept(s: Pool, step: Step)
    requires Still(s) && Enabled(s, step)
    ensures Still(Apply(s, step)) && !Overtakes(s, step)
  {
    if step.Destroy? {
      hide DestroyStep;
      DestroyerStill(s);
      if s.phase.Clean? { assert !Taking(s.caches[s.phase.c], s.threads[s.phase.c]); }
    } else {
      hide Still, Enabled, Apply;
      ThreadStill(s, step);
    }
  }

  lemma {:induction false} StillRun(s: Pool, steps: seq<Step>)
    requires Inv(s) && Books(s) && Still(s) && Runs(s, steps)
    ensures Inv(After(s, steps)) && Books(After(s, steps))
    decreases |steps|
  {
    hide Inv, Books, Still, Overtakes, Enabled, Apply;
    if steps != [] {
      StepKeeps(s, steps[0]);
      StillKept(s, steps[0]);
      BooksKept(s, steps[0]);
      StillRun(Apply(s, steps[0]), steps[1..]);
    }
  }

  lemma StillStart(s: Pool)
    requires Inv(s) && s.phase.NotYet? && Enabled(s, Destroy) && OthersTakeNothing(s)
    ensures Still(Apply(s, Destroy)) && !Overtakes(s, Destroy)
  {
    SameLength(s);
    hide Inv;
  }

  lemma StillIsBalanced(s: Pool, rest: seq<Step>)
    requires Inv(s) && Books(s) && s.phase.NotYet? && Enabled(s, Destroy) && OthersTakeNothing(s)
    requires Runs(Apply(s, Destroy), rest)
    ensures Balanced(After(Apply(s, Destroy), rest))
  {
    hide Inv, Books, Still, Overtakes, Enabled, Apply, Runs, After, Balanced;
    StillStart(s);
    StepKeeps(s, Destroy);
    BooksKept(s, Destroy);
    StillRun(Apply(s, Destroy), rest);
    BooksBalance(After(Apply(s, Destroy), rest));
  }

  // ------------------------------------------------------------- it is necessary

  /** The destroyer is on its way to the victim's cache and has not begun to empty it. */
  ghost predicate Approaching(s: Pool, victim: nat)
  {
    && OnTheWay(s, victim) && victim in Waiting(s)
    && (Processing(s.phase) && s.phase.c == victim ==> s.phase.Lock? || s.phase.Clean?)
    && AboutToTake(s.threads[victim]) && s.caches[victim].counts > 0
  }

  /** The caches that it passes on the way are others. */
  lemma PassesOn(s: Pool, victim: nat)
    requires DestroyerSound(s) && WaitingSound(s) && DestroyEnabled(s) && victim < |s.threads| == |s.caches|
    requires victim in Waiting(s) && s.phase != Clean(victim)
    requires Processing(s.phase) && s.phase.c == victim ==> s.phase.Lock?
    ensures var s' := DestroyStep(s);
      && victim in Waiting(s') && (Processing(s'.phase) && s'.phase.c == victim ==> s'.phase.Lock? || s'.phase.Clean?)
  {
    DestroyerWaiting(s);
    hide Waiting;
  }

  lemma CountStays(s: Pool, victim: nat)
    requires DestroyEnabled(s) && victim < |s.threads| == |s.caches| && s.phase != Zero(victim)
    ensures var s' := DestroyStep(s);
      && s'.threads == s.threads && |s'.caches| == |s.caches| && s'.caches[victim].counts == s.caches[victim].counts
  {
  }

  lemma ApproachStep(s: Pool, victim: nat)
    requires Inv(s) && Approaching(s, victim) && s.phase != Clean(victim)
    ensures Enabled(s, Destroy) && Approaching(Apply(s, Destroy), victim) && Rank(Apply(s, Destroy)) < Rank(s)
  {
    assert victim < |s.threads| == |s.caches|;
    NotDisposing(s, victim);
    hide Inv, OnTheWay, Rank, Waiting, DestroyStep, AboutToTake;
    DriveStep(s, victim);
    Sound(s);
    PassesOn(s, victim);
    CountStays(s, victim);
  }

  lemma Sound(s: Pool)
    requires Inv(s)
    ensures DestroyerSound(s) && WaitingSound(s)
  {
  }

  /** A cache that still waits is not being disposed of. */
  lemma NotDisposing(s: Pool, victim: nat)
    requires Inv(s) && Approaching(s, victim)
    ensures s.phase != Dispose(victim, false)
  {
    assert SoundAt(s, victim);
    hide Counted, Quiet, Waiting, WaitingSound, CachesSound;
  }

  lemma {:induction false} Approach(s: Pool, victim: nat) returns (steps: seq<Step>)
    requires Inv(s) && Approaching(s, victim)
    ensures Runs(s, steps)
    ensures var e := After(s, steps); Inv(e) && Approaching(e, victim) && e.phase == Clean(victim)
    decreases Rank(s)
  {
    hide Inv, Runs, After, Enabled, Apply, Rank, Approaching;
    if s.phase == Clean(victim) {
      Nowhere(s);
      steps := [];
    } else {
      ApproachStep(s, victim);
      StepKeeps(s, Destroy);
      steps := Approach(Apply(s, Destroy), victim);
      steps := Prepend(s, Destroy, Apply(s, Destroy), steps);
    }
  }

  /** A run that overtakes somebody can be left where it first does. */
  lemma {:induction false} BreaksSomewhere(s: Pool, steps: seq<Step>) returns (rest: seq<Step>)
    requires Inv(s) && Books(s) && Runs(s, steps) && !Orderly(s, steps)
    ensures Runs(s, rest) && !Balanced(After(s, rest))
    decreases |steps|
  {
    var s' := Apply(s, steps[0]);
    if Overtakes(s, steps[0]) {
      hide Inv, Books, Overtakes, Runs, After, Balanced, Enabled, Apply;
      OnlyDestroy(s, steps[0]);
      rest := HandsOutFreed(s);
    } else {
      hide Inv, Books, Overtakes, Balanced, Enabled, Apply;
      StepKeeps(s, steps[0]);
      BooksKept(s, steps[0]);
      rest := BreaksSomewhere(s', steps[1..]);
    }
    hide Inv, Books, Overtakes, Runs, After, Balanced, Enabled, Apply;
    rest := Prepend(s, steps[0], s', rest);
  }

  lemma OnlyDestroy(s: Pool, step: Step)
    requires Overtakes(s, step)
    ensures step == Destroy
  {
  }

  /** A thread that takes, with its buffer, at the moment the pool is marked. */
  ghost predicate Caught(s: Pool, victim: nat)
  {
    && victim < |s.threads| == |s.caches| && victim != s.destroyer && s.phase.WaitRegistrations?
    && AboutToTake(s.threads[victim]) && s.caches[victim].counts > 0 && Staying(s.caches[victim], s.threads[victim])
  }

  lemma TakerHasCache(s: Pool, t: nat)
    requires Inv(s) && t < |s.threads| == |s.caches| && Taking(s.caches[t], s.threads[t])
    ensures s.caches[t].made && s.caches[t].key && !s.caches[t].exited
  {
    assert SoundAt(s, t);
    hide Counted, Quiet, Waiting, WaitingSound, CachesSound;
  }

  /** From the shards a refill brings it there. */
  lemma Catch(s: Pool, victim: nat) returns (steps: seq<Step>)
    requires Inv(s) && s.phase.WaitRegistrations? && victim < |s.threads| == |s.caches| && victim != s.destroyer
    requires Taking(s.caches[victim], s.threads[victim])
    ensures Runs(s, steps) && Inv(After(s, steps)) && Caught(After(s, steps), victim)
  {
    TakerHasCache(s, victim);
    hide Inv;
    if s.threads[victim].InShards? {
      var s' := Apply(s, Go(victim, false, 1));
      assert Enabled(s, Go(victim, false, 1));
      Refilled(s.caches[victim], s.destroyed);
      assert Caught(s', victim);
      hide Runs, After, Enabled, Apply, Caught;
      StepKeeps(s, Go(victim, false, 1));
      Nowhere(s');
      steps := Prepend(s, Go(victim, false, 1), s', []);
    } else {
      Nowhere(s);
      steps := [];
    }
  }

  lemma Refilled(c: Cache, destroyed: bool)
    requires c.key && c.made && !c.exited
    ensures NextPc(InShards, c, destroyed, false, 1) == PopLoad
    ensures NextCache(c, InShards, destroyed, false, 1) == c.(counts := 1, owed := c.owed + 1 - c.counts)
  {
  }

  lemma CaughtIsApproached(s: Pool, victim: nat)
    requires Inv(s) && Caught(s, victim) && ParkedFrom(s, 0)
    ensures Approaching(s, victim)
  {
    ParkedIsOnTheWay(s, victim);
    hide Inv;
  }

  lemma EmptiesCaught(s: Pool, victim: nat)
    requires Inv(s) && Books(s) && Approaching(s, victim) && s.phase == Clean(victim)
    ensures Enabled(s, Destroy) && Overtakes(s, Destroy)
  {
    assert BooksAt(s.caches[victim], s.threads[victim], StageOf(s.phase, victim));
    hide Inv, OnTheWay, Waiting;
  }

  /** The victim is caught, all others go on until they are parked, and the
      destroyer comes to the victim's cache. */
  lemma Meets(s: Pool, victim: nat) returns (steps: seq<Step>)
    requires Inv(s) && Caught(s, victim)
    ensures Runs(s, steps)
    ensures var e := After(s, steps); Inv(e) && Approaching(e, victim) && e.phase == Clean(victim)
  {
    assert Parked(s.threads[victim]) && ParkedFrom(s, |s.threads|);
    hide Inv, Runs, After, Parked, Staying, ParkedFrom, Approaching, AboutToTake;
    var parking := ParkBelow(s, |s.threads|, victim);
    var b := After(s, parking);
    CaughtIsApproached(b, victim);
    var driving := Approach(b, victim);
    steps := Joined(s, parking, driving);
  }

  /** With one thread taking there is a run in which a buffer is freed and handed out. */
  lemma TakingIsUnsafe(s: Pool, victim: nat) returns (rest: seq<Step>)
    requires Inv(s) && Books(s) && s.phase.NotYet? && Enabled(s, Destroy)
    requires victim < |s.threads| == |s.caches| && victim != s.destroyer && Taking(s.caches[victim], s.threads[victim])
    ensures Runs(Apply(s, Destroy), rest) && !Balanced(After(Apply(s, Destroy), rest))
  {
    StepKeeps(s, Destroy);
    var a := Apply(s, Destroy);
    assert a.phase.WaitRegistrations? && a.destroyer == s.destroyer && a.threads == s.threads && a.caches == s.caches;
    StillNotOvertaken(s);
    hide Inv, Books, Runs, After, Enabled, Apply, Taking, Caught, Approaching, Overtakes, Orderly, Balanced;
    BooksKept(s, Destroy);
    var first := Catch(a, victim);
    var meeting := Meets(After(a, first), victim);
    var all := Joined(a, first, meeting);
    if Orderly(a, all) {
      RunKeepsBooks(a, all);
      var e := After(a, all);
      EmptiesCaught(e, victim);
      var last := HandsOutFreed(e);
      last := Prepend(e, Destroy, Apply(e, Destroy), last);
      rest := Joined(a, all, last);
    } else {
      rest := BreaksSomewhere(a, all);
    }
  }

  lemma StillNotOvertaken(s: Pool)
    requires s.phase.NotYet?
    ensures !Overtakes(s, Destroy)
  {
  }

  /** At the moment a caller destroys a pool: the books balance ever after,
      whatever the threads do, exactly when no other thread is taking a buffer. */
  lemma BooksAreSafeExactly(threads: nat, destroyer: nat, before: seq<Step>)
    requires destroyer < threads && Runs(Init(threads, destroyer), before)
    requires After(Init(threads, destroyer), before).phase.NotYet? && Enabled(After(Init(threads, destroyer), before), Destroy)
    ensures var s := After(Init(threads, destroyer), before);
      (forall rest: seq<Step> :: Runs(Apply(s, Destroy), rest) ==> Balanced(After(Apply(s, Destroy), rest))) <==> OthersTakeNothing(s)
  {
    Undestroyed(Init(threads, destroyer), before);
    OrderlyReached(threads, destroyer, before);
    var s := After(Init(threads, destroyer), before);
    SameLength(s);
    hide Inv, Books, Runs, After, Enabled, Apply, Balanced, Taking;
    if OthersTakeNothing(s) {
      forall rest: seq<Step> | Runs(Apply(s, Destroy), rest)
        ensures Balanced(After(Apply(s, Destroy), rest))
      {
        StillIsBalanced(s, rest);
      }
    } else {
      var victim: nat :| victim < |s.threads| && victim != s.destroyer && Taking(s.caches[victim], s.threads[victim]);
      var rest := TakingIsUnsafe(s, victim);
    }
  }
}
