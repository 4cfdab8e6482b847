/** No call on the free list of I/O contexts has to wait for another: from every
    state, wherever it is in its call, a thread that runs alone finishes it in a few
    steps. So a swap that fails has lost to one that did not. */
module IoCtxProgress {
  import opened IoCtxFreeList

  lemma Linking(s: Pool, q: nat)
    requires Inv(s) && q < |s.pushers| && s.pushers[q].Loaded?
    ensures Enabled(s, StoreNext(q)) && Inv(Apply(s, StoreNext(q)))
    ensures var s' := Apply(s, StoreNext(q));
      && s'.head == s.head && s'.list == s.list && s'.held == s.held && |s'.pushers| == |s.pushers|
      && s'.pushers[q] == Linked(s.pushers[q].slot, s.pushers[q].seen)
  {
    assert PusherSound(s, s.pushers[q]);
    StoreNextKeeps(s, q);
  }

  /** The head is as it was seen: the swap puts the slot on top. */
  lemma PushSucceeds(s: Pool, q: nat) returns (steps: seq<Step>)
    requires Inv(s) && q < |s.pushers| && s.pushers[q].Linked? && s.pushers[q].seen == s.head
    ensures |steps| == 1 && Runs(s, steps)
    ensures var e := After(s, steps);
      q < |e.pushers| && e.pushers[q].NotPushing? && e.list == [s.pushers[q].slot] + s.list && e.held == s.held
  {
    var e := Apply(s, SwapIn(q, false));
    assert e.pushers[q].NotPushing?;
    hide Runs, After;
    Nowhere(e);
    steps := OneStep(s, SwapIn(q, false), e, []);
  }

  lemma OneStep(s: Pool, step: Step, t: Pool, rest: seq<Step>) returns (steps: seq<Step>)
    requires Enabled(s, step) && Apply(s, step) == t && Runs(t, rest)
    ensures |steps| == |rest| + 1 && Runs(s, steps) && After(s, steps) == After(t, rest)
  {
    steps := [step] + rest;
    assert steps[1..] == rest;
  }

  lemma PushLoaded(s: Pool, q: nat) returns (steps: seq<Step>)
    requires Inv(s) && q < |s.pushers| && s.pushers[q].Loaded? && s.pushers[q].seen == s.head
    ensures |steps| == 2 && Runs(s, steps)
    ensures var e := After(s, steps);
      q < |e.pushers| && e.pushers[q].NotPushing? && e.list == [s.pushers[q].slot] + s.list && e.held == s.held
  {
    hide Runs, After, Inv, Enabled, Apply;
    Linking(s, q);
    steps := PushSucceeds(Apply(s, StoreNext(q)), q);
    steps := OneStep(s, StoreNext(q), Apply(s, StoreNext(q)), steps);
  }

  lemma Retry(s: Pool, q: nat)
    requires Inv(s) && q < |s.pushers| && s.pushers[q].Linked? && s.pushers[q].seen != s.head
    ensures Enabled(s, SwapIn(q, false)) && Inv(Apply(s, SwapIn(q, false)))
    ensures var s' := Apply(s, SwapIn(q, false));
      && s'.head == s.head && s'.list == s.list && s'.held == s.held && |s'.pushers| == |s.pushers|
      && s'.pushers[q] == Loaded(s.pushers[q].slot, s.head)
  {
    SwapInKeeps(s, q, false);
  }

  lemma PushLinked(s: Pool, q: nat) returns (steps: seq<Step>)
    requires Inv(s) && q < |s.pushers| && s.pushers[q].Linked?
    ensures |steps| <= 3 && Runs(s, steps)
    ensures var e := After(s, steps);
      q < |e.pushers| && e.pushers[q].NotPushing? && e.list == [s.pushers[q].slot] + s.list && e.held == s.held
  {
    hide Runs, After, Inv, Enabled, Apply;
    if s.pushers[q].seen == s.head {
      steps := PushSucceeds(s, q);
    } else {
      Retry(s, q);
      steps := PushLoaded(Apply(s, SwapIn(q, false)), q);
      steps := OneStep(s, SwapIn(q, false), Apply(s, SwapIn(q, false)), steps);
    }
  }

  /** A push that runs alone puts its slot on top within four steps. */
  lemma PushAlone(s: Pool, q: nat) returns (steps: seq<Step>)
    requires Inv(s) && q < |s.pushers| && !s.pushers[q].NotPushing?
    ensures |steps| <= 4 && Runs(s, steps)
    ensures var e := After(s, steps);
      q < |e.pushers| && e.pushers[q].NotPushing? && e.list == [s.pushers[q].slot] + s.list && e.held == s.held
  {
    hide Runs, After, Inv, Enabled, Apply;
    if s.pushers[q].Loaded? {
      Linking(s, q);
      steps := PushLinked(Apply(s, StoreNext(q)), q);
      steps := OneStep(s, StoreNext(q), Apply(s, StoreNext(q)), steps);
    } else {
      steps := PushLinked(s, q);
    }
  }

  /** The slot on top is handed out, or there is none to hand out. */
  ghost predicate Popped(s: Pool, e: Pool, p: nat)
  {
    && p < |e.poppers| && e.poppers[p].Outside?
    && if s.list == [] then e.list == [] && e.held == s.held
       else e.list == s.list[1..] && e.held == s.held + multiset{s.list[0]}
  }

  lemma Swaps(s: Pool, p: nat) returns (steps: seq<Step>)
    requires Inv(s) && p < |s.poppers| && s.poppers[p].HaveNext? && s.poppers[p].idx == s.head >= 0
    ensures |steps| == 1 && Runs(s, steps) && Popped(s, After(s, steps), p)
  {
    var e := Apply(s, SwapOut(p, false));
    assert PopperSound(s, s.poppers[p]);
    assert Popped(s, e, p);
    hide Runs, After;
    Nowhere(e);
    steps := OneStep(s, SwapOut(p, false), e, []);
  }

  lemma Follows(s: Pool, p: nat)
    requires Inv(s) && p < |s.poppers| && s.poppers[p] == HaveHead(s.head)
    ensures Enabled(s, LoadNext(p))
    ensures var s' := Apply(s, LoadNext(p));
      && s'.head == s.head && s'.list == s.list && s'.held == s.held && |s'.poppers| == |s.poppers|
      && (if s.head < 0 then s'.poppers[p].Outside? && s.list == [] else s'.poppers[p].HaveNext? && s'.poppers[p].idx == s.head)
  {
    assert PopperSound(s, s.poppers[p]);
  }

  lemma PopLoaded(s: Pool, p: nat) returns (steps: seq<Step>)
    requires Inv(s) && p < |s.poppers| && s.poppers[p] == HaveHead(s.head) && |s.poppers| == 1
    ensures |steps| <= 2 && Runs(s, steps) && Popped(s, After(s, steps), p)
  {
    Follows(s, p);
    StepKeeps(s, LoadNext(p));
    var s' := Apply(s, LoadNext(p));
    hide Runs, After, Inv, Enabled, Apply;
    if s.head < 0 {
      Nowhere(s');
      steps := [];
    } else {
      steps := Swaps(s', p);
    }
    steps := OneStep(s, LoadNext(p), s', steps);
  }

  lemma Reloads(s: Pool, p: nat)
    requires Inv(s) && p < |s.poppers| == 1 && s.poppers[p].HaveNext? && s.poppers[p].idx != s.head
    ensures Enabled(s, SwapOut(p, false)) && Inv(Apply(s, SwapOut(p, false)))
    ensures var s' := Apply(s, SwapOut(p, false));
      && s'.head == s.head && s'.list == s.list && s'.held == s.held && |s'.poppers| == 1
      && s'.poppers[p] == HaveHead(s.head)
  {
    assert PopperSound(s, s.poppers[p]);
    StepKeeps(s, SwapOut(p, false));
  }

  lemma PopStale(s: Pool, p: nat) returns (steps: seq<Step>)
    requires Inv(s) && p < |s.poppers| == 1 && s.poppers[p].HaveNext?
    ensures |steps| <= 3 && Runs(s, steps) && Popped(s, After(s, steps), p)
  {
    if s.poppers[p].idx == s.head {
      assert PopperSound(s, s.poppers[p]);
      steps := Swaps(s, p);
    } else {
      Reloads(s, p);
      hide Runs, After, Inv, Enabled, Apply;
      var s' := Apply(s, SwapOut(p, false));
      steps := PopLoaded(s', p);
      steps := OneStep(s, SwapOut(p, false), s', steps);
    }
  }

  lemma Looks(s: Pool, p: nat)
    requires Inv(s) && p < |s.poppers| == 1 && (s.poppers[p].Outside? || s.poppers[p].HaveHead?)
    ensures var step := if s.poppers[p].Outside? then LoadHead(p) else LoadNext(p);
      && Enabled(s, step) && Inv(Apply(s, step))
      && var s' := Apply(s, step);
         && s'.head == s.head && s'.list == s.list && s'.held == s.held && |s'.poppers| == 1
         && s'.poppers[p] == (if s.poppers[p].Outside? then HaveHead(s.head)
              else if s.poppers[p].idx < 0 then Outside else HaveNext(s.poppers[p].idx, s.next[s.poppers[p].idx]))
  {
    assert PopperSound(s, s.poppers[p]);
    StepKeeps(s, if s.poppers[p].Outside? then LoadHead(p) else LoadNext(p));
  }

  /** The one popping thread, wherever it is in its call and if it runs alone, takes the
      slot on top within four steps; or none, if there is none or it has seen none. */
  lemma PopAlone(s: Pool, p: nat) returns (steps: seq<Step>)
    requires Inv(s) && p < |s.poppers| == 1
    ensures |steps| <= 4 && Runs(s, steps)
    ensures var e := After(s, steps);
      if s.poppers[p].HaveHead? && s.poppers[p].idx < 0 then
        p < |e.poppers| && e.poppers[p].Outside? && e.list == s.list && e.held == s.held
      else Popped(s, e, p)
  {
    if s.poppers[p].HaveNext? {
      steps := PopStale(s, p);
    } else {
      Looks(s, p);
      var step := if s.poppers[p].Outside? then LoadHead(p) else LoadNext(p);
      var s' := Apply(s, step);
      PoppedLike(s, s', p);
      hide Runs, After, Inv, Enabled, Apply, Popped;
      if s.poppers[p].Outside? {
        steps := PopLoaded(s', p);
      } else if s.poppers[p].idx < 0 {
        Nowhere(s');
        steps := [];
      } else {
        steps := PopStale(s', p);
      }
      steps := OneStep(s, step, s', steps);
    }
  }

  lemma PoppedLike(s: Pool, s': Pool, p: nat)
    requires s'.list == s.list && s'.held == s.held
    ensures forall e :: Popped(s', e, p) ==> Popped(s, e, p)
  {
  }

  lemma {:induction false} RunKeepsOne(s: Pool, steps: seq<Step>)
    requires Inv(s) && |s.poppers| == 1 && Runs(s, steps)
    ensures Inv(After(s, steps)) && |After(s, steps).poppers| == 1
    decreases |steps|
  {
    hide Inv;
    if steps != [] {
      StepKeeps(s, steps[0]);
      RunKeepsOne(Apply(s, steps[0]), steps[1..]);
    }
  }

  /** Every state that a pool with one popping thread can reach is such a state: the
      pop that is under way, and every push, finishes in four steps of its own. */
  lemma NobodyWaits(capacity: nat, pushers: nat, before: seq<Step>) returns (pop: seq<Step>)
    requires Runs(Init(capacity, 1, pushers), before)
    ensures var s := After(Init(capacity, 1, pushers), before);
      && Inv(s) && |s.poppers| == 1
      && |pop| <= 4 && Runs(s, pop) && 0 < |After(s, pop).poppers| && After(s, pop).poppers[0].Outside?
  {
    InitKeeps(capacity, 1, pushers);
    InitHasOne(capacity, pushers);
    hide *;
    RunKeepsOne(Init(capacity, 1, pushers), before);
    pop := PopAlone(After(Init(capacity, 1, pushers), before), 0);
    PoppedIs(After(Init(capacity, 1, pushers), before), After(After(Init(capacity, 1, pushers), before), pop), 0);
  }

  lemma InitHasOne(capacity: nat, pushers: nat)
    ensures |Init(capacity, 1, pushers).poppers| == 1
  {
  }

  lemma PoppedIs(s: Pool, e: Pool, p: nat)
    ensures Popped(s, e, p) ==> p < |e.poppers| && e.poppers[p].Outside?
  {
  }
}
