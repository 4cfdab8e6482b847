/** What the shutdown protocol of the buffer pool guarantees, over every run of
    `ShutdownMachine`, and exactly where it does not. */
module PoolShutdown {
  import opened ShutdownMachine

  // -------------------------------------------------------- shards and the list

  /** The shards are freed only when no thread is between entering and leaving,
      or flushing from its destructor; and no thread gets there afterwards. */
  lemma ShardsOutliveUsers(threads: nat, destroyer: nat, steps: seq<Step>, t: nat)
    requires destroyer < threads && Runs(Init(threads, destroyer), steps)
    ensures var s := After(Init(threads, destroyer), steps);
      t < |s.threads| && UsesShards(s.threads[t]) ==> !s.shardsFreed && !PastUsers(s.phase)
  {
    Reached(threads, destroyer, steps);
  }

  /** Once the destroyer has taken the list for the last time it stays empty, and
      no thread is on its way to push a cache. */
  lemma NoLateRegistration(threads: nat, destroyer: nat, steps: seq<Step>, t: nat)
    requires destroyer < threads && Runs(Init(threads, destroyer), steps)
    ensures var s := After(Init(threads, destroyer), steps);
      && (s.phase.FreeShards? || s.phase.Finished? ==> s.list == [])
      && (PastRegistrations(s.phase) && t < |s.threads| ==> !Registering(s.threads[t]))
  {
    Reached(threads, destroyer, steps);
  }

  // ------------------------------------------------------- the life of a struct

  /** The struct is used: by its owner whenever its key holds it, in registration,
      in a refill or flush, in a pop, in a store and in its destructor, and by the
      destroyer from locking it to disposing of it. */
  predicate InUse(s: Pool, t: nat)
    requires t < |s.threads|
  {
    || (t < |s.caches| && s.caches[t].key)
    || (Registering(s.threads[t]) && !s.threads[t].RegMake?)
    || Pops(s.threads[t]) || HoldsOwn(s.threads[t]) || s.threads[t].ExitLock? || (s.threads[t].ExitDispose? && s.threads[t].gone)
    || ((Processing(s.phase) || s.phase.Unlock? || s.phase.Dispose?) && s.phase.c == t)
  }

  /** The destroyer has unlocked the cache of a thread that had not exited, and
      still has to read who its owner is. */
  predicate Unguarded(s: Pool, t: nat)
  {
    s.phase == Dispose(t, false) && t != s.destroyer
  }

  /** No struct is freed twice; and none is freed while it is used, except when
      the destroyer is to read the owner of a cache that it has left to a living
      thread. */
  lemma NeverFreedTwice(threads: nat, destroyer: nat, steps: seq<Step>, t: nat)
    requires destroyer < threads && Runs(Init(threads, destroyer), steps)
    ensures var s := After(Init(threads, destroyer), steps);
      t < |s.threads| == |s.caches| ==> s.caches[t].frees <= 1 && (InUse(s, t) && !Unguarded(s, t) ==> s.caches[t].frees == 0)
  {
    Reached(threads, destroyer, steps);
    var s := After(Init(threads, destroyer), steps);
    if t < |s.threads| == |s.caches| { LiveWhileUsed(s, t); }
  }

  lemma LiveWhileUsed(s: Pool, t: nat)
    requires Inv(s) && t < |s.threads| == |s.caches|
    ensures s.caches[t].frees <= 1 && (InUse(s, t) && !Unguarded(s, t) ==> s.caches[t].frees == 0)
  {
    assert SoundAt(s, t);
    assert Processing(s.phase) && s.phase.c == t ==> t in Waiting(s);
    hide Counted, Waiting, WaitingSound, CachesSound;
  }

  /** When the pool is destroyed and a thread has exited, its struct, if it ever
      had one, has been freed exactly once; the destroyer's own at once. */
  lemma FreedExactlyOnce(threads: nat, destroyer: nat, steps: seq<Step>, t: nat)
    requires destroyer < threads && Runs(Init(threads, destroyer), steps)
    ensures var s := After(Init(threads, destroyer), steps);
      t < |s.threads| == |s.caches| && s.phase.Finished? && (s.threads[t].Gone? || t == destroyer) ==>
        s.caches[t].frees == if s.caches[t].made then 1 else 0
  {
    Reached(threads, destroyer, steps);
    SameDestroyer(Init(threads, destroyer), steps);
    var s := After(Init(threads, destroyer), steps);
    if t < |s.threads| == |s.caches| && s.phase.Finished? && (s.threads[t].Gone? || t == destroyer) {
      FreedBy(s, t);
    }
  }

  lemma FreedBy(s: Pool, t: nat)
    requires Inv(s) && s.phase.Finished? && t < |s.threads| == |s.caches| && (s.threads[t].Gone? || t == s.destroyer)
    ensures s.caches[t].frees == if s.caches[t].made then 1 else 0
  {
    assert SoundAt(s, t);
    assert Waiting(s) == [] && !s.threads[t].RegPush?;
    hide Counted, Waiting, WaitingSound, CachesSound;
  }

  /** Steps that a thread still has to take until it is gone, once the destroyer
      waits for nobody. */
  function ToGo(p: Pc): nat
  {
    match p
    case Gone => 0
    case ExitDispose(_) => 1
    case ExitUnlock(_) => 2
    case ExitLook => 3
    case ExitLeave => 4
    case ExitFree => 4
    case ExitFlush => 5
    case ExitBack => 5
    case ExitCheck => 6
    case ExitBump => 7
    case ExitMark => 8
    case ExitLock => 9
    case Idle => 10
    case PopStore(_) => 12
    case PopLoad => 13
    case PopTest => 14
    case StorePut => 12
    case StoreCheck => 13
    case EnterCheck => 12
    case InShards => 14
    case RegKey => 12
    case RegUnlock => 13
    case RegMark => 14
    case RegLock => 15
    case RegRecheck => 16
    case RegPush => 17
    case RegMake => 18
    case RegCheck => 19
    case RegBump => 20
    case _ => 11
  }

  function Onward(s: Pool, t: nat): Step
    requires t < |s.threads|
  {
    if s.threads[t].Idle? then Exit(t) else Go(t, true, 0)
  }

  lemma Prepend(s: Pool, step: Step, t: Pool, rest: seq<Step>) returns (steps: seq<Step>)
    requires Enabled(s, step) && Apply(s, step) == t && Runs(t, rest)
    ensures Runs(s, steps) && After(s, steps) == After(t, rest)
  {
    steps := [step] + rest;
    assert steps[1..] == rest;
  }

  lemma Nowhere(s: Pool)
    ensures Runs(s, []) && After(s, []) == s
  {
  }

  lemma OrphanMayGo(c: Cache, p: Pc, waiting: bool)
    requires CacheSound(c, p, waiting, true, true, Released(false), false) && !p.Gone?
    ensures (p.Idle? ==> c.key) && (p.ExitLock? ==> c.holder.Nobody?) && !p.RegBump? && !p.RegCheck?
  {
  }

  lemma CloserToGone(p: Pc, c: Cache)
    requires !p.Idle? && !p.Gone? && !Registering(p) && !UsesShards(p) && !p.RegBump? && !p.RegCheck?
    ensures ToGo(NextPc(p, c, true, true, 0)) < ToGo(p)
  {
  }

  /** The owner of an orphaned cache can always go on to the end of its destructor. */
  lemma OwnerSteps(s: Pool, t: nat)
    requires Inv(s) && Unguarded(s, t) && t < |s.threads| == |s.caches| && !s.threads[t].Gone?
    ensures Enabled(s, Onward(s, t))
    ensures var s' := Apply(s, Onward(s, t));
      && s'.phase == s.phase && s'.destroyer == s.destroyer && t < |s'.threads| == |s'.caches|
      && ToGo(s'.threads[t]) < ToGo(s.threads[t])
  {
    assert SoundAt(s, t);
    assert s.destroyed && !Registering(s.threads[t]) && !UsesShards(s.threads[t]);
    hide Inv, Counted, Waiting, WaitingSound, CachesSound, NextCache, NextPc, CacheSound, Quiet, DestroyerSound, Registering, UsesShards, Uses, Registers;
    OrphanMayGo(s.caches[t], s.threads[t], t in Waiting(s));
    if !s.threads[t].Idle? { CloserToGone(s.threads[t], s.caches[t]); }
  }

  lemma {:induction false} OwnerFinishes(s: Pool, t: nat) returns (steps: seq<Step>)
    requires Inv(s) && Unguarded(s, t) && t < |s.threads| == |s.caches|
    ensures Runs(s, steps)
    ensures var s' := After(s, steps);
      s'.phase == s.phase && t < |s'.caches| && s'.caches[t].frees == 1
    decreases ToGo(s.threads[t])
  {
    hide Inv, Runs, After, Enabled, Apply, ToGo;
    if s.threads[t].Gone? {
      Nowhere(s);
      GoneHasFreed(s, t);
      steps := [];
    } else {
      OwnerSteps(s, t);
      StepKeeps(s, Onward(s, t));
      steps := OwnerFinishes(Apply(s, Onward(s, t)), t);
      steps := Prepend(s, Onward(s, t), Apply(s, Onward(s, t)), steps);
    }
  }

  lemma GoneHasFreed(s: Pool, t: nat)
    requires Inv(s) && Unguarded(s, t) && t < |s.threads| == |s.caches| && s.threads[t].Gone?
    ensures s.caches[t].frees == 1
  {
    assert SoundAt(s, t);
  }

  /** Exactly when the struct is there for the destroyer to read: in every
      continuation, as long as it has not disposed of the cache, if and only if it
      saw that the owner had exited, or is the owner itself. */
  lemma ReadIsSafeExactly(threads: nat, destroyer: nat, before: seq<Step>, c: nat, exited: bool)
    requires destroyer < threads && Runs(Init(threads, destroyer), before)
    requires After(Init(threads, destroyer), before).phase == Dispose(c, exited)
    ensures var s := After(Init(threads, destroyer), before);
      && c < |s.caches|
      && ((forall rest: seq<Step> :: Runs(s, rest) && After(s, rest).phase == s.phase && c < |After(s, rest).caches| ==>
             After(s, rest).caches[c].frees == 0)
          <==> exited || c == destroyer)
  {
    Reached(threads, destroyer, before);
    SameDestroyer(Init(threads, destroyer), before);
    var s := After(Init(threads, destroyer), before);
    assert WaitingSound(s) && |s.caches| == |s.threads|;
    hide Inv;
    if exited || c == destroyer {
      forall rest: seq<Step> | Runs(s, rest) && After(s, rest).phase == s.phase && c < |After(s, rest).caches|
        ensures After(s, rest).caches[c].frees == 0
      {
        RunKeeps(s, rest);
        SameDestroyer(s, rest);
        LiveWhileUsed(After(s, rest), c);
      }
    } else {
      var rest := OwnerFinishes(s, c);
    }
  }

  // ----------------------------------------------- such a state can be reached

  const Fresh := Cache(true, true, false, 0, 0, false, false, Nobody, false, 0)
  const Keyed := Fresh.(key := true)
  const Held := Keyed.(holder := Destroyer)

  /** Two threads: the destroyer, and one that has the cache `c` and is at `p`. */
  function Two(phase: Phase, registrations: int, list: seq<nat>, taken: seq<nat>, p: Pc, c: Cache): Pool
  {
    Pool(!phase.NotYet?, 0, registrations, false, list, taken, 0, phase, [Idle, p], [NoCache, c])
  }

  /** A run in which one thread registers and stays where it is while the other
      destroys the pool, up to the point where it has orphaned the cache. */
  function Along(i: nat): Pool
  {
    match i
    case 0 => Two(NotYet, 0, [], [], Idle, NoCache)
    case 1 => Two(NotYet, 0, [], [], RegBump, NoCache)
    case 2 => Two(NotYet, 1, [], [], RegCheck, NoCache)
    case 3 => Two(NotYet, 1, [], [], RegMake, NoCache)
    case 4 => Two(NotYet, 1, [], [], RegPush, Fresh)
    case 5 => Two(NotYet, 1, [1], [], RegRecheck, Fresh)
    case 6 => Two(NotYet, 1, [1], [], RegKey, Fresh)
    case 7 => Two(NotYet, 1, [1], [], RegBack, Keyed)
    case 8 => Two(NotYet, 0, [1], [], Idle, Keyed)
    case 9 => Two(WaitRegistrations, 0, [1], [], Idle, Keyed)
    case 10 => Two(WaitUsers, 0, [1], [], Idle, Keyed)
    case 11 => Two(Detach, 0, [1], [], Idle, Keyed)
    case 12 => Two(Next, 0, [], [1], Idle, Keyed)
    case 13 => Two(Lock(1), 0, [], [], Idle, Keyed)
    case 14 => Two(Clean(1), 0, [], [], Idle, Held)
    case 15 => Two(Dump(1, 0), 0, [], [], Idle, Held)
    case 16 => Two(Zero(1), 0, [], [], Idle, Held)
    case 17 => Two(Orphan(1), 0, [], [], Idle, Held.(cleaned := true))
    case 18 => Two(Unlock(1, false), 0, [], [], Idle, Held.(cleaned := true, pool := false))
    case _ => Two(Dispose(1, false), 0, [], [], Idle, Keyed.(cleaned := true, pool := false))
  }

  function StepAt(i: nat): Step
  {
    if i == 0 then GetCache(1) else if i < 8 then Go(1, false, 0) else Destroy
  }

  lemma RegistrationFits(i: nat)
    requires i < 4
    ensures Enabled(Along(i), StepAt(i)) && Apply(Along(i), StepAt(i)) == Along(i + 1)
  {
  }

  lemma RegisteredFits(i: nat)
    requires 4 <= i < 8
    ensures Enabled(Along(i), StepAt(i)) && Apply(Along(i), StepAt(i)) == Along(i + 1)
  {
  }

  lemma WaitingFits(i: nat)
    requires 8 <= i < 13
    ensures Enabled(Along(i), StepAt(i)) && Apply(Along(i), StepAt(i)) == Along(i + 1)
  {
  }

  lemma CleaningFits(i: nat)
    requires 13 <= i < 19
    ensures Enabled(Along(i), StepAt(i)) && Apply(Along(i), StepAt(i)) == Along(i + 1)
  {
  }

  lemma {:induction false} RunsAlong(i: nat, j: nat, rest: seq<Step>) returns (steps: seq<Step>)
    requires i <= j <= 19 && Runs(Along(j), rest)
    ensures Runs(Along(i), steps) && After(Along(i), steps) == After(Along(j), rest)
    decreases j - i
  {
    hide *;
    if i == j {
      steps := rest;
    } else {
      steps := RunsAlong(i + 1, j, rest);
      if i < 4 { RegistrationFits(i); } else if i < 8 { RegisteredFits(i); } else if i < 13 { WaitingFits(i); } else { CleaningFits(i); }
      steps := Prepend(Along(i), StepAt(i), Along(i + 1), steps);
    }
  }

  lemma AlongEnds()
    ensures Along(0) == Init(2, 0)
    ensures Along(19).phase == Dispose(1, false) && Unguarded(Along(19), 1) && |Along(19).threads| == |Along(19).caches| == 2
  {
  }

  /** A run after which the destroyer is about to read a struct that its owner,
      in its destructor, has freed. */
  lemma ReadAfterFree() returns (steps: seq<Step>)
    ensures Runs(Init(2, 0), steps)
    ensures var s := After(Init(2, 0), steps);
      s.phase == Dispose(1, false) && 1 < |s.caches| && s.caches[1].frees == 1
  {
    hide *;
    AlongEnds();
    Nowhere(Along(19));
    var toDispose := RunsAlong(0, 19, []);
    Reached(2, 0, toDispose);
    var rest := OwnerFinishes(Along(19), 1);
    steps := RunsAlong(0, 19, rest);
  }
}
