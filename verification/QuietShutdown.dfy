/** When a caller may destroy a pool: the exact state of the other threads at that
    moment under which the shutdown never reads a struct that has been freed. And
    nobody gets stuck. */
module QuietShutdown {
  import opened ShutdownMachine
  import opened PoolShutdown
  import opened CacheLedger

  /** The thread has no cache and is not making one, or its destructor has come as
      far as to mark the cache, or holds the mutex to do so. */
  predicate Leaving(c: Cache, p: Pc)
  {
    if c.made then c.exited || p.ExitMark? else !p.RegMake?
  }

  ghost predicate OthersLeaving(s: Pool)
  {
    forall t {:trigger s.threads[t]} {:trigger s.caches[t]} :: 0 <= t < |s.threads| && t < |s.caches| && t != s.destroyer ==>
      Leaving(s.caches[t], s.threads[t])
  }

  // ------------------------------------------------------------ it is sufficient

  /** The destroyer finds every owner but itself marked. */
  ghost predicate Guarded(s: Pool)
  {
    && s.destroyed && OthersLeaving(s)
    && (s.phase.Unlock? || s.phase.Dispose? ==> s.phase.exited || s.phase.c == s.destroyer)
  }

  lemma GoLeaves(c: Cache, p: Pc, fails: bool, n: nat)
    requires Leaving(c, p) && !p.Idle? && !p.Gone? && (c.made ==> !p.RegMake?)
    ensures Leaving(NextCache(c, p, true, fails, n), NextPc(p, c, true, fails, n))
  {
  }

  lemma StartLeaves(c: Cache)
    requires Leaving(c, Idle)
    ensures Leaving(c, EnterCheck) && Leaving(c.(holder := Owner), StoreCheck)
    ensures Leaving(c.(key := false), if c.key then ExitLock else Gone)
  {
  }

  lemma ThreadGuarded(s: Pool, step: Step)
    requires Inv(s) && Guarded(s) && Enabled(s, step) && !step.Destroy?
    ensures Guarded(Apply(s, step))
  {
    assert SoundAt(s, step.t);
    hide Inv, NextPc, NextCache, Leaving, Registers, Uses;
    if step.t != s.destroyer {
      assert Leaving(s.caches[step.t], s.threads[step.t]);
      if step.Go? { GoLeaves(s.caches[step.t], s.threads[step.t], step.fails, step.n); }
      else { StartLeaves(s.caches[step.t]); }
    }
  }

  /** A cache that the destroyer orphans is its own or that of a thread that has
      exited: a thread at the mark has the mutex. */
  lemma OrphanIsMarked(s: Pool)
    requires Inv(s) && Guarded(s) && s.phase.Orphan? && s.phase.c != s.destroyer
    ensures s.phase.c < |s.caches| && s.caches[s.phase.c].exited
  {
    var c := s.phase.c;
    assert c in Waiting(s);
    assert SoundAt(s, c) && Leaving(s.caches[c], s.threads[c]);
    hide Counted, Quiet, Waiting, CachesSound;
  }

  lemma DestroyerGuarded(s: Pool)
    requires Guarded(s) && DestroyEnabled(s)
    requires s.phase.Orphan? && s.phase.c != s.destroyer ==> s.caches[s.phase.c].exited
    ensures Guarded(DestroyStep(s))
  {
  }

  lemma GuardedKept(s: Pool, step: Step)
    requires Inv(s) && Guarded(s) && Enabled(s, step)
    ensures Guarded(Apply(s, step))
  {
    if !step.Destroy? {
      ThreadGuarded(s, step);
    } else {
      if s.phase.Orphan? && s.phase.c != s.destroyer { OrphanIsMarked(s); }
      DestroyerGuarded(s);
    }
  }

  lemma GuardedOvertakesNobody(s: Pool, step: Step)
    requires Inv(s) && Guarded(s) && Enabled(s, step)
    ensures !Overtakes(s, step)
  {
    if step.Destroy? && s.phase.Clean? {
      assert SoundAt(s, s.phase.c);
      assert s.phase.c in Waiting(s);
    }
  }

  lemma {:induction false} GuardedRun(s: Pool, steps: seq<Step>)
    requires Inv(s) && Books(s) && Guarded(s) && Runs(s, steps)
    ensures var e := After(s, steps); Inv(e) && Books(e) && Guarded(e)
    decreases |steps|
  {
    hide Inv, Books, Guarded, Overtakes;
    if steps != [] {
      StepKeeps(s, steps[0]);
      GuardedKept(s, steps[0]);
      GuardedOvertakesNobody(s, steps[0]);
      BooksKept(s, steps[0]);
      GuardedRun(Apply(s, steps[0]), steps[1..]);
    }
  }

  /** A run before the pool is destroyed overtakes nobody. */
  lemma {:induction false} Undestroyed(s: Pool, steps: seq<Step>)
    requires Runs(s, steps) && After(s, steps).phase.NotYet?
    ensures s.phase.NotYet? && Orderly(s, steps)
    decreases |steps|
  {
    hide Enabled, Apply, Overtakes;
    if steps != [] {
      Undestroyed(Apply(s, steps[0]), steps[1..]);
      StillNotYet(s, steps[0]);
    }
  }

  lemma StillNotYet(s: Pool, step: Step)
    requires Enabled(s, step) && Apply(s, step).phase.NotYet?
    ensures s.phase.NotYet? && !Overtakes(s, step)
  {
  }

  /** No struct is used that has been freed. */
  ghost predicate SafelyUsed(s: Pool)
  {
    forall t {:trigger s.caches[t]} :: 0 <= t < |s.caches| && t < |s.threads| && InUse(s, t) ==> s.caches[t].frees == 0
  }

  lemma QuietIsSafe(s: Pool, rest: seq<Step>)
    requires Inv(s) && Books(s) && s.phase.NotYet? && Enabled(s, Destroy) && OthersLeaving(s)
    requires Runs(Apply(s, Destroy), rest)
    ensures SafelyUsed(After(Apply(s, Destroy), rest)) && Balanced(After(Apply(s, Destroy), rest))
  {
    StepKeeps(s, Destroy);
    GuardedStart(s);
    BooksKept(s, Destroy);
    GuardedRun(Apply(s, Destroy), rest);
    var e := After(Apply(s, Destroy), rest);
    BooksBalance(e);
    hide Inv, Books, Balanced, Runs, After;
    forall t | 0 <= t < |e.caches| && t < |e.threads| && InUse(e, t)
      ensures e.caches[t].frees == 0
    {
      SameLength(e);
      LiveWhileUsed(e, t);
    }
  }

  lemma SameLength(s: Pool)
    requires Inv(s)
    ensures |s.caches| == |s.threads|
  {
  }

  lemma GuardedStart(s: Pool)
    requires s.phase.NotYet? && Enabled(s, Destroy) && OthersLeaving(s)
    ensures Guarded(Apply(s, Destroy)) && !Overtakes(s, Destroy)
  {
  }

  // ------------------------------------------------------------- it is necessary

  /** The thread has a cache, or is about to make one, and is not leaving. */
  predicate Staying(c: Cache, p: Pc)
  {
    !Leaving(c, p)
  }

  /** Where a thread can be left: it holds nothing, and nobody waits for it. */
  predicate Parked(p: Pc)
  {
    p.Idle? || p.Gone? || p.ExitLock? || AboutToTake(p)
  }

  lemma CloserToParked(p: Pc, c: Cache)
    requires !Parked(p)
    ensures ToGo(NextPc(p, c, true, false, 0)) < ToGo(p)
  {
  }

  lemma StaysWhileParking(p: Pc, c: Cache)
    requires !Parked(p) && Staying(c, p) && !Marked(p) && !p.RegBump? && !p.RegCheck?
    ensures Staying(NextCache(c, p, true, false, 0), NextPc(p, c, true, false, 0))
  {
  }

  /** Nothing has happened to threads other than `u`. */
  ghost predicate OthersSame(s: Pool, e: Pool, u: nat)
  {
    && |e.threads| == |s.threads| == |e.caches| == |s.caches|
    && forall t {:trigger e.threads[t]} {:trigger s.threads[t]} :: 0 <= t < |s.threads| && t != u ==> e.threads[t] == s.threads[t] && e.caches[t] == s.caches[t]
  }

  lemma OthersSameJoin(s: Pool, e: Pool, f: Pool, u: nat)
    requires OthersSame(s, e, u) && OthersSame(e, f, u)
    ensures OthersSame(s, f, u)
  {
  }

  lemma OthersSameItself(s: Pool, u: nat)
    requires |s.threads| == |s.caches|
    ensures OthersSame(s, s, u)
  {
  }

  /** Before the destroyer is past waiting, every thread can go on until it is parked. */
  lemma ParkStep(s: Pool, u: nat)
    requires Inv(s) && s.phase.WaitRegistrations? && u < |s.threads| && u != s.destroyer && !Parked(s.threads[u])
    ensures Enabled(s, Go(u, false, 0))
    ensures var s' := Apply(s, Go(u, false, 0));
      && s'.phase == s.phase && s'.destroyer == s.destroyer && |s'.threads| == |s.threads| == |s'.caches| == |s.caches|
      && ToGo(s'.threads[u]) < ToGo(s.threads[u])
      && OthersSame(s, s', u)
      && (Staying(s.caches[u], s.threads[u]) ==> Staying(s'.caches[u], s'.threads[u]))
  {
    assert SoundAt(s, u) && s.destroyed;
    assert s.threads[u].RegLock? ==> s.caches[u].holder.Nobody?;
    assert Staying(s.caches[u], s.threads[u]) ==> !Marked(s.threads[u]) && !s.threads[u].RegBump? && !s.threads[u].RegCheck?;
    hide Inv, Counted, Quiet, DestroyerSound, WaitingSound, CachesSound, CacheSound, Waiting, NextPc, NextCache, Registers, Uses, ToGo, Marked;
    CloserToParked(s.threads[u], s.caches[u]);
    if Staying(s.caches[u], s.threads[u]) { StaysWhileParking(s.threads[u], s.caches[u]); }
  }

  /** One thread goes on until it is parked; the others stay where they are. */
  lemma {:induction false} Park(s: Pool, u: nat) returns (steps: seq<Step>)
    requires Inv(s) && s.phase.WaitRegistrations? && u < |s.threads| == |s.caches| && u != s.destroyer
    ensures Runs(s, steps)
    ensures var e := After(s, steps);
      && Inv(e) && e.phase == s.phase && e.destroyer == s.destroyer && |e.threads| == |s.threads| == |e.caches|
      && Parked(e.threads[u])
      && OthersSame(s, e, u)
      && (Staying(s.caches[u], s.threads[u]) ==> Staying(e.caches[u], e.threads[u]))
      && (Parked(s.threads[u]) ==> e == s)
    decreases ToGo(s.threads[u])
  {
    hide Inv, Runs, After, Enabled, Apply, ToGo, Staying, Parked, OthersSame;
    if Parked(s.threads[u]) {
      Nowhere(s);
      OthersSameItself(s, u);
      steps := [];
    } else {
      ParkStep(s, u);
      StepKeeps(s, Go(u, false, 0));
      var s' := Apply(s, Go(u, false, 0));
      assert s'.phase.WaitRegistrations?;
      var rest := Park(s', u);
      OthersSameJoin(s, s', After(s', rest), u);
      steps := Prepend(s, Go(u, false, 0), s', rest);
    }
  }

  ghost predicate ParkedFrom(s: Pool, u: nat)
  {
    forall t {:trigger s.threads[t]} :: u <= t < |s.threads| && t != s.destroyer ==> Parked(s.threads[t])
  }

  /** All threads below `u` are parked as well. */
  lemma {:induction false} ParkBelow(s: Pool, u: nat, victim: nat) returns (steps: seq<Step>)
    requires Inv(s) && s.phase.WaitRegistrations? && u <= |s.threads| == |s.caches| && ParkedFrom(s, u)
    requires victim < |s.threads| && victim != s.destroyer && Staying(s.caches[victim], s.threads[victim])
    ensures Runs(s, steps)
    ensures var e := After(s, steps);
      && Inv(e) && e.phase == s.phase && e.destroyer == s.destroyer && |e.threads| == |s.threads| == |e.caches|
      && ParkedFrom(e, 0) && Staying(e.caches[victim], e.threads[victim])
      && (Parked(s.threads[victim]) ==> e.threads[victim] == s.threads[victim] && e.caches[victim] == s.caches[victim])
    decreases u
  {
    hide Inv, Runs, After, Staying, Parked;
    if u == 0 {
      Nowhere(s);
      steps := [];
    } else if u - 1 == s.destroyer {
      steps := ParkBelow(s, u - 1, victim);
    } else {
      var first := Park(s, u - 1);
      var e := After(s, first);
      var more := ParkBelow(e, u - 1, victim);
      steps := Joined(s, first, more);
    }
  }

  lemma {:induction false} Joined(s: Pool, a: seq<Step>, b: seq<Step>) returns (steps: seq<Step>)
    requires Runs(s, a) && Runs(After(s, a), b)
    ensures Runs(s, steps) && After(s, steps) == After(After(s, a), b)
    decreases |a|
  {
    if a == [] {
      steps := b;
    } else {
      steps := Joined(Apply(s, a[0]), a[1..], b);
      steps := Prepend(s, a[0], Apply(s, a[0]), steps);
    }
  }

  /** Steps of the destroyer until it has unlocked the victim's cache. */
  function Rank(s: Pool): nat
  {
    match s.phase
    case WaitRegistrations => 20 * |s.list| + 30
    case WaitUsers => 20 * |s.list| + 29
    case Detach => 20 * |s.list| + 28
    case Next => 20 * |s.taken| + 2
    case Lock(_) => 20 * |s.taken| + 14
    case Clean(_) => 20 * |s.taken| + 13
    case Dump(_, _) => 20 * |s.taken| + 12
    case Zero(_) => 20 * |s.taken| + 11
    case Orphan(_) => 20 * |s.taken| + 10
    case Unlock(_, _) => 20 * |s.taken| + 9
    case Dispose(_, _) => 20 * |s.taken| + 8
    case _ => 0
  }

  /** The destroyer is on its way to the victim's cache. */
  ghost predicate OnTheWay(s: Pool, victim: nat)
  {
    && victim < |s.threads| == |s.caches| && victim != s.destroyer
    && ParkedFrom(s, 0) && s.caches[victim].made && !s.caches[victim].exited
    && (s.phase.WaitRegistrations? || s.phase.WaitUsers? || s.phase.Detach? || s.phase.Next? || AtSomeCache(s.phase))
    && (victim in Waiting(s) || s.phase == Unlock(victim, false) || s.phase == Dispose(victim, false))
  }

  lemma {:induction false} NobodyCounted(threads: seq<Pc>, user: bool)
    requires forall t :: 0 <= t < |threads| ==> Parked(threads[t])
    ensures Number(threads, user) == 0
  {
    if threads != [] { NobodyCounted(threads[..|threads| - 1], user); }
  }

  lemma AllParked(s: Pool)
    requires Inv(s) && ParkedFrom(s, 0) && Between(s.phase)
    ensures s.registrations == 0 && s.activeUsers == 0
    ensures forall t {:trigger s.threads[t]} :: 0 <= t < |s.threads| ==> Parked(s.threads[t])
  {
    NobodyCounted(s.threads, true);
    NobodyCounted(s.threads, false);
  }

  lemma LockIsFree(s: Pool)
    requires Inv(s) && ParkedFrom(s, 0) && s.phase.Lock?
    ensures s.phase.c < |s.caches| && s.caches[s.phase.c].holder.Nobody?
  {
    AllParked(s);
    assert s.phase.c in Waiting(s);
    assert SoundAt(s, s.phase.c);
    hide Counted, Quiet, Waiting, CachesSound;
  }

  lemma CacheInRange(s: Pool)
    requires Inv(s) && AtSomeCache(s.phase)
    ensures s.phase.c < |s.caches|
  {
    assert Processing(s.phase) ==> s.phase.c in Waiting(s);
  }

  lemma DriveEnabled(s: Pool, victim: nat)
    requires Inv(s) && OnTheWay(s, victim)
    ensures DestroyEnabled(s) && (s.phase.Next? ==> s.taken != []) && (s.phase.Detach? ==> s.list != [])
  {
    AllParked(s);
    if s.phase.Lock? { LockIsFree(s); }
    if AtSomeCache(s.phase) { CacheInRange(s); }
    hide Inv;
  }

  lemma DriveRank(s: Pool)
    requires DestroyEnabled(s) && (s.phase.Next? ==> s.taken != []) && (s.phase.Detach? ==> s.list != [])
    requires !s.phase.NotYet? && !s.phase.FreeShards?
    ensures Rank(DestroyStep(s)) < Rank(s) && DestroyStep(s).destroyer == s.destroyer && DestroyStep(s).threads == s.threads
    ensures !DestroyStep(s).phase.FreeShards?
    ensures s.phase.WaitRegistrations? || s.phase.WaitUsers? || DestroyStep(s).list == [] || s.list != []
  {
  }

  lemma DriveCaches(s: Pool, victim: nat)
    requires DestroyEnabled(s) && victim < |s.caches| && s.caches[victim].made && !s.caches[victim].exited
    ensures |DestroyStep(s).caches| == |s.caches| && DestroyStep(s).caches[victim].made && !DestroyStep(s).caches[victim].exited
  {
  }

  lemma DrivePhase(s: Pool, victim: nat)
    requires Inv(s) && OnTheWay(s, victim) && DestroyEnabled(s) && s.phase != Dispose(victim, false)
    requires (s.phase.Next? ==> s.taken != []) && (s.phase.Detach? ==> s.list != [])
    ensures var s' := DestroyStep(s);
      && (s'.phase.WaitRegistrations? || s'.phase.WaitUsers? || s'.phase.Detach? || s'.phase.Next? || AtSomeCache(s'.phase))
      && (victim in Waiting(s') || s'.phase == Unlock(victim, false) || s'.phase == Dispose(victim, false))
  {
    DestroyerWaiting(s);
    hide Inv, Waiting, ParkedFrom;
  }

  lemma DriveStep(s: Pool, victim: nat)
    requires Inv(s) && OnTheWay(s, victim) && s.phase != Dispose(victim, false)
    ensures Enabled(s, Destroy) && OnTheWay(Apply(s, Destroy), victim) && Rank(Apply(s, Destroy)) < Rank(s)
    ensures Apply(s, Destroy).destroyer == s.destroyer
  {
    DriveEnabled(s, victim);
    DriveRank(s);
    DriveCaches(s, victim);
    DrivePhase(s, victim);
    hide Inv, Waiting, DestroyStep, DestroyEnabled, Rank, Processing;
  }

  lemma {:induction false} Drive(s: Pool, victim: nat) returns (steps: seq<Step>)
    requires Inv(s) && OnTheWay(s, victim)
    ensures Runs(s, steps)
    ensures var e := After(s, steps); Inv(e) && Unguarded(e, victim) && victim < |e.threads| == |e.caches|
    decreases Rank(s)
  {
    hide Inv, Runs, After, Enabled, Apply, Rank;
    if s.phase == Dispose(victim, false) {
      Nowhere(s);
      steps := [];
    } else {
      DriveStep(s, victim);
      StepKeeps(s, Destroy);
      steps := Drive(Apply(s, Destroy), victim);
      steps := Prepend(s, Destroy, Apply(s, Destroy), steps);
    }
  }

  lemma ParkedIsOnTheWay(s: Pool, victim: nat)
    requires Inv(s) && s.phase.WaitRegistrations? && ParkedFrom(s, 0)
    requires victim < |s.threads| == |s.caches| && victim != s.destroyer && Staying(s.caches[victim], s.threads[victim])
    ensures OnTheWay(s, victim)
  {
    assert SoundAt(s, victim) && Parked(s.threads[victim]);
    hide Counted, Quiet, Waiting, CachesSound, WaitingSound;
  }

  lemma UsedAfterFree(s: Pool, victim: nat)
    requires Unguarded(s, victim) && victim < |s.threads| == |s.caches| && s.caches[victim].frees == 1
    ensures !SafelyUsed(s)
  {
    assert InUse(s, victim);
  }

  lemma SameUnguarded(s: Pool, e: Pool, t: nat)
    requires Unguarded(s, t) && e.phase == s.phase && e.destroyer == s.destroyer
    ensures Unguarded(e, t)
  {
  }

  /** With one thread staying there is a run in which the destroyer reads its
      struct after it has been freed. */
  lemma StayingIsUnsafe(s: Pool, victim: nat) returns (rest: seq<Step>)
    requires Inv(s) && s.phase.NotYet? && Enabled(s, Destroy)
    requires victim < |s.threads| == |s.caches| && victim != s.destroyer && Staying(s.caches[victim], s.threads[victim])
    ensures Runs(Apply(s, Destroy), rest) && !SafelyUsed(After(Apply(s, Destroy), rest))
  {
    StepKeeps(s, Destroy);
    var a := Apply(s, Destroy);
    SameLength(a);
    assert a.phase.WaitRegistrations? && a.destroyer == s.destroyer && a.threads == s.threads && a.caches == s.caches;
    assert ParkedFrom(a, |a.threads|);
    hide Inv, Runs, After, Enabled, Apply, Staying, OnTheWay, Unguarded, SafelyUsed, ParkedFrom;
    var parking := ParkBelow(a, |a.threads|, victim);
    var b := After(a, parking);
    ParkedIsOnTheWay(b, victim);
    var driving := Drive(b, victim);
    var c := After(b, driving);
    var leaving := OwnerFinishes(c, victim);
    var d := After(c, leaving);
    RunKeeps(c, leaving);
    SameLength(d);
    SameDestroyer(c, leaving);
    SameUnguarded(c, d, victim);
    UsedAfterFree(d, victim);
    rest := Joined(b, driving, leaving);
    rest := Joined(a, parking, rest);
  }

  /** A caller may destroy a pool exactly when every other thread is leaving: then
      no struct is used after it has been freed, whatever the threads do, and the
      books of the caches balance; and otherwise there is a run in which one is. */
  lemma DestroyIsSafeExactly(threads: nat, destroyer: nat, before: seq<Step>)
    requires destroyer < threads && Runs(Init(threads, destroyer), before)
    requires After(Init(threads, destroyer), before).phase.NotYet? && Enabled(After(Init(threads, destroyer), before), Destroy)
    ensures var s := After(Init(threads, destroyer), before);
      && ((forall rest: seq<Step> :: Runs(Apply(s, Destroy), rest) ==> SafelyUsed(After(Apply(s, Destroy), rest))) <==> OthersLeaving(s))
      && (OthersLeaving(s) ==> forall rest: seq<Step> :: Runs(Apply(s, Destroy), rest) ==> Balanced(After(Apply(s, Destroy), rest)))
  {
    Undestroyed(Init(threads, destroyer), before);
    OrderlyReached(threads, destroyer, before);
    var s := After(Init(threads, destroyer), before);
    SameLength(s);
    hide Inv, Books, Runs, After, Enabled, Apply, SafelyUsed, Balanced;
    if OthersLeaving(s) {
      forall rest: seq<Step> | Runs(Apply(s, Destroy), rest)
        ensures SafelyUsed(After(Apply(s, Destroy), rest)) && Balanced(After(Apply(s, Destroy), rest))
      {
        QuietIsSafe(s, rest);
      }
    } else {
      var victim: nat :| victim < |s.threads| && victim != s.destroyer && Staying(s.caches[victim], s.threads[victim]);
      var rest := StayingIsUnsafe(s, victim);
    }
  }

  // ------------------------------------------------------------------ no deadlock

  /** Some step can be taken until all threads are gone and the pool, if anyone
      has begun to destroy it, is destroyed: no two locks or waits hold each
      other up. */
  lemma NeverStuck(threads: nat, destroyer: nat, steps: seq<Step>) returns (step: Step)
    requires destroyer < threads && Runs(Init(threads, destroyer), steps)
    requires var s := After(Init(threads, destroyer), steps);
      Between(s.phase) || exists t :: 0 <= t < |s.threads| && !s.threads[t].Gone?
    ensures Enabled(After(Init(threads, destroyer), steps), step)
  {
    Reached(threads, destroyer, steps);
    step := CanStep(After(Init(threads, destroyer), steps));
  }

  lemma CanStep(s: Pool) returns (step: Step)
    requires Inv(s) && (Between(s.phase) || exists t :: 0 <= t < |s.threads| && !s.threads[t].Gone?)
    ensures Enabled(s, step)
  {
    SameLength(s);
    if t: nat :| t < |s.threads| && !s.threads[t].Gone? && (t == s.destroyer ==> !Between(s.phase)) {
      if s.threads[t].Idle? {
        step := Exit(t);
      } else if Enabled(s, Go(t, false, 0)) {
        step := Go(t, false, 0);
      } else {
        BlockedByDestroyer(s, t);
        step := Destroy;
      }
    } else {
      assert forall t {:trigger s.threads[t]} :: 0 <= t < |s.threads| && t != s.destroyer ==> s.threads[t].Gone?;
      assert ParkedFrom(s, 0);
      AllParked(s);
      if s.phase.Lock? { LockIsFree(s); }
      if AtSomeCache(s.phase) { CacheInRange(s); }
      step := Destroy;
    }
  }

  /** A thread that waits for its own cache's mutex waits for the destroyer, who
      does not wait while it has one. */
  lemma BlockedByDestroyer(s: Pool, t: nat)
    requires Inv(s) && ThreadEnabled(s, t) && !s.threads[t].Idle? && !s.threads[t].Gone? && !Enabled(s, Go(t, false, 0))
    ensures DestroyEnabled(s)
  {
    assert SoundAt(s, t);
    hide Counted, Quiet, Waiting, CachesSound, WaitingSound;
  }
}
