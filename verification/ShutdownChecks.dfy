/** What a shutdown changes for the other threads, told by the steps taken so far:
    every check of the flag lets a thread through exactly until the pool has begun to
    be destroyed. */
module ShutdownChecks {
  import opened ShutdownMachine
  import opened PoolShutdown

  /** The pool has begun to be destroyed. */
  ghost predicate Begun(steps: seq<Step>)
  {
    steps != [] && (steps[0].Destroy? || Begun(steps[1..]))
  }

  lemma StepMarks(s: Pool, step: Step)
    requires Inv(s) && Enabled(s, step)
    ensures Apply(s, step).destroyed <==> s.destroyed || step.Destroy?
  {
    hide CacheSound, Counted, Quiet, WaitingSound, CachesSound, NextPc, NextCache;
  }

  lemma {:induction false} FlagIsHistory(s: Pool, steps: seq<Step>)
    requires Inv(s) && Runs(s, steps)
    ensures After(s, steps).destroyed <==> s.destroyed || Begun(steps)
    decreases |steps|
  {
    hide Inv, Enabled, Apply;
    if steps != [] {
      StepKeeps(s, steps[0]);
      StepMarks(s, steps[0]);
      FlagIsHistory(Apply(s, steps[0]), steps[1..]);
    }
  }

  /** Where the next step takes a thread that is about to look at the flag. */
  lemma LooksExactly(c: Cache, p: Pc, waiting: bool, destroyed: bool, past: bool, stage: Stage, mine: bool, fails: bool, n: nat)
    requires CacheSound(c, p, waiting, destroyed, past, stage, mine)
    ensures var p' := NextPc(p, c, destroyed, fails, n);
      && (p.RegCheck? ==> (p'.RegMake? <==> !destroyed) && (p'.RegBack? <==> destroyed))
      && (p.RegRecheck? ==> (p'.RegKey? <==> !destroyed) && (p'.RegLock? <==> destroyed))
      && (p.EnterCheck? ==> (p'.InShards? <==> !destroyed) && (p'.EnterBack? <==> destroyed))
      && (p.StoreCheck? ==> (p'.StorePut? <==> !destroyed) && (p'.StoreUnlock? <==> destroyed))
      && (p.ExitCheck? ==> (p'.ExitFlush? <==> !destroyed) && (p'.ExitBack? <==> destroyed))
  {
  }

  /** In every run: a thread at a check goes on, to make a cache, keep it as it is, use
      the shards, store its buffers or flush them to the shards, if and only if no
      destroy has begun; and turns back otherwise. */
  lemma ChecksExactly(threads: nat, destroyer: nat, steps: seq<Step>, t: nat, fails: bool, n: nat)
    requires destroyer < threads && Runs(Init(threads, destroyer), steps)
    requires Enabled(After(Init(threads, destroyer), steps), Go(t, fails, n))
    ensures var s := After(Init(threads, destroyer), steps);
      && t < |s.threads| == |s.caches|
      && var p, p' := s.threads[t], Apply(s, Go(t, fails, n)).threads[t];
         && (p.RegCheck? ==> (p'.RegMake? <==> !Begun(steps)) && (p'.RegBack? <==> Begun(steps)))
         && (p.RegRecheck? ==> (p'.RegKey? <==> !Begun(steps)) && (p'.RegLock? <==> Begun(steps)))
         && (p.EnterCheck? ==> (p'.InShards? <==> !Begun(steps)) && (p'.EnterBack? <==> Begun(steps)))
         && (p.StoreCheck? ==> (p'.StorePut? <==> !Begun(steps)) && (p'.StoreUnlock? <==> Begun(steps)))
         && (p.ExitCheck? ==> (p'.ExitFlush? <==> !Begun(steps)) && (p'.ExitBack? <==> Begun(steps)))
  {
    Reached(threads, destroyer, steps);
    InitKeeps(threads, destroyer);
    InitIsAlive(threads, destroyer);
    var s := After(Init(threads, destroyer), steps);
    GoEnabled(s, t, fails, n);
    SoundThere(s, t);
    GoIs(s, t, fails, n);
    hide *;
    FlagIsHistory(Init(threads, destroyer), steps);
    LooksExactly(s.caches[t], s.threads[t], t in Waiting(s), s.destroyed, PastUsers(s.phase), StageOf(s.phase, t), t == s.destroyer, fails, n);
  }

  lemma InitIsAlive(threads: nat, destroyer: nat)
    ensures !Init(threads, destroyer).destroyed
  {
  }

  lemma GoEnabled(s: Pool, t: nat, fails: bool, n: nat)
    requires Enabled(s, Go(t, fails, n))
    ensures t < |s.threads| == |s.caches|
  {
  }

  lemma GoIs(s: Pool, t: nat, fails: bool, n: nat)
    requires Enabled(s, Go(t, fails, n)) && t < |s.threads| == |s.caches|
    ensures |Apply(s, Go(t, fails, n)).threads| == |s.threads|
    ensures Apply(s, Go(t, fails, n)).threads[t] == NextPc(s.threads[t], s.caches[t], s.destroyed, fails, n)
  {
    hide NextPc, NextCache, Registers, Uses;
  }

  lemma SoundThere(s: Pool, t: nat)
    requires Inv(s) && t < |s.threads| == |s.caches|
    ensures CacheSound(s.caches[t], s.threads[t], t in Waiting(s), s.destroyed, PastUsers(s.phase), StageOf(s.phase, t), t == s.destroyer)
  {
    assert SoundAt(s, t);
    hide CacheSound, Waiting;
  }

  /** And the calls that look at the flag before they do anything: they begin exactly
      until then. */
  lemma CallsExactly(threads: nat, destroyer: nat, steps: seq<Step>, t: nat)
    requires destroyer < threads && Runs(Init(threads, destroyer), steps)
    ensures var s := After(Init(threads, destroyer), steps);
      && (Enabled(s, Pop(t)) ==> if Begun(steps) then Apply(s, Pop(t)) == s else t < |Apply(s, Pop(t)).threads| && Apply(s, Pop(t)).threads[t].PopTest?)
      && (Enabled(s, GetCache(t)) && t < |s.caches| ==>
            if Begun(steps) || s.caches[t].key then Apply(s, GetCache(t)) == s
            else t < |Apply(s, GetCache(t)).threads| && Apply(s, GetCache(t)).threads[t].RegBump?)
  {
    InitKeeps(threads, destroyer);
    InitIsAlive(threads, destroyer);
    hide Inv, Runs, After;
    FlagIsHistory(Init(threads, destroyer), steps);
  }
}
