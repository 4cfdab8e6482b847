/** A shutdown ends: how many steps the thread that destroys a pool can take,
    whatever the other threads do meanwhile. */
module ShutdownBound {
  import opened ShutdownMachine

  /** Steps that the destroyer has ahead of it: eight for every cache on its list. */
  ghost function Ahead(s: Pool): nat
  {
    match s.phase
    case NotYet => 8 * |s.threads| + 7
    case WaitRegistrations => 8 * |s.threads| + 6
    case WaitUsers => 8 * |s.threads| + 5
    case Detach => if s.list == [] then 2 else 8 * |s.list| + 4
    case Next => 8 * |s.taken| + 3
    case Lock(_) => 8 * |s.taken| + 10
    case Clean(_) => 8 * |s.taken| + 9
    case Dump(_, _) => 8 * |s.taken| + 8
    case Zero(_) => 8 * |s.taken| + 7
    case Orphan(_) => 8 * |s.taken| + 6
    case Unlock(_, _) => 8 * |s.taken| + 5
    case Dispose(_, _) => 8 * |s.taken| + 4
    case FreeShards => 1
    case Finished => 0
  }

  ghost predicate Under(list: seq<nat>, n: nat)
  {
    forall t: nat {:trigger t in list} :: t in list ==> t < n
  }

  lemma Without(list: seq<nat>, k: nat, n: nat)
    requires Distinct(list) && Under(list, n + 1) && k < |list| && list[k] == n
    ensures var rest := list[..k] + list[k + 1..];
      Distinct(rest) && Under(rest, n)
  {
    var rest := list[..k] + list[k + 1..];
    assert forall j :: 0 <= j < |rest| ==> rest[j] == list[if j < k then j else j + 1];
    assert forall t: nat {:trigger t in rest} :: t in rest ==> t in list && t != n;
  }

  /** Different threads, different entries. */
  lemma {:induction false} FewDistinct(list: seq<nat>, n: nat)
    requires Distinct(list) && Under(list, n)
    ensures |list| <= n
    decreases n
  {
    if list != [] {
      assert list[0] in list;
      if k: nat :| k < |list| && list[k] == n - 1 {
        Without(list, k, n - 1);
        FewDistinct(list[..k] + list[k + 1..], n - 1);
      } else {
        FewDistinct(list, n - 1);
      }
    }
  }

  lemma EndIsDistinct(a: seq<nat>, b: seq<nat>, n: nat)
    requires Distinct(a + b) && Under(a + b, n)
    ensures Distinct(b) && Under(b, n)
  {
    var all := a + b;
    assert forall j :: 0 <= j < |b| ==> b[j] == all[|a| + j];
    assert forall t: nat {:trigger t in b} :: t in b ==> t in all;
  }

  lemma ListFits(s: Pool)
    requires Inv(s)
    ensures |s.list| <= |s.threads| == |s.caches|
  {
    var front := (if Processing(s.phase) then [s.phase.c] else []) + s.taken;
    assert Waiting(s) == front + s.list;
    hide Inv, Counted, Quiet, CachesSound, Processing, Waiting, Distinct;
    EndIsDistinct(front, s.list, |s.caches|);
    FewDistinct(s.list, |s.caches|);
  }

  lemma WaitsLess(s: Pool)
    requires DestroyEnabled(s) && |s.list| <= |s.threads| && !AtSomeCache(s.phase) && (s.phase.Next? ==> s.list == [])
    ensures Ahead(DestroyStep(s)) < Ahead(s)
  {
  }

  lemma CacheDone(s: Pool)
    requires DestroyEnabled(s) && AtSomeCache(s.phase)
    ensures Ahead(DestroyStep(s)) < Ahead(s)
  {
  }

  lemma DestroyerGetsAhead(s: Pool)
    requires Inv(s) && DestroyEnabled(s)
    ensures Ahead(DestroyStep(s)) < Ahead(s)
  {
    ListFits(s);
    assert s.phase.Next? ==> s.list == [];
    hide *;
    if AtSomeCache(s.phase) { CacheDone(s); } else { WaitsLess(s); }
  }

  /** No thread gives the destroyer more to do. */
  lemma ThreadsAddNothing(s: Pool, step: Step)
    requires Inv(s) && Enabled(s, step) && !step.Destroy?
    ensures Ahead(Apply(s, step)) == Ahead(s)
  {
    ThreadWaiting(s, step);
    assert step.Go? && s.threads[step.t].RegPush? ==> !PastRegistrations(s.phase);
    hide NextPc, NextCache, Uses, Registers, Counted, CachesSound, WaitingSound, Waiting;
  }

  ghost function Destroys(steps: seq<Step>): nat
  {
    if steps == [] then 0 else (if steps[0].Destroy? then 1 else 0) + Destroys(steps[1..])
  }

  lemma {:induction false} RunUsesUp(s: Pool, steps: seq<Step>)
    requires Inv(s) && Runs(s, steps)
    ensures Destroys(steps) + Ahead(After(s, steps)) <= Ahead(s)
    decreases |steps|
  {
    hide Inv, Enabled, Apply, Ahead;
    if steps != [] {
      var s' := Apply(s, steps[0]);
      StepKeeps(s, steps[0]);
      if steps[0].Destroy? { Destroying(s); } else { ThreadsAddNothing(s, steps[0]); }
      RunUsesUp(s', steps[1..]);
    }
  }

  lemma Destroying(s: Pool)
    requires Inv(s) && Enabled(s, Destroy)
    ensures Ahead(Apply(s, Destroy)) < Ahead(s)
  {
    hide Inv, Ahead, DestroyEnabled, DestroyStep;
    DestroyerGetsAhead(s);
  }

  lemma NothingAhead(s: Pool)
    ensures Ahead(s) == 0 <==> s.phase.Finished?
  {
  }

  lemma Start(threads: nat, destroyer: nat)
    ensures Ahead(Init(threads, destroyer)) == 8 * threads + 7
  {
  }

  /** In every run the destroyer takes at most eight steps for each thread and
      seven more; and from any state of the run on at most those still ahead, which
      are none exactly when the pool is destroyed. */
  lemma ShutdownEnds(threads: nat, destroyer: nat, steps: seq<Step>)
    requires destroyer < threads && Runs(Init(threads, destroyer), steps)
    ensures var s := After(Init(threads, destroyer), steps);
      Destroys(steps) + Ahead(s) <= 8 * threads + 7 && (Ahead(s) == 0 <==> s.phase.Finished?)
  {
    InitKeeps(threads, destroyer);
    Start(threads, destroyer);
    NothingAhead(After(Init(threads, destroyer), steps));
    hide Inv, Runs, After, Ahead, Init;
    RunUsesUp(Init(threads, destroyer), steps);
  }
}
