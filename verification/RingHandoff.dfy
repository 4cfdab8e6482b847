/** The handoff of a thread-local ring from lock-free use by its sole owner to
    mutexes. Any number of threads claim the ring; the first turns lock-free use
    on, every later one turns it off and waits for lock-free sections to end.
    Every load, store and read-modify-write is a step, and threads interleave
    in any way. The submission side and the completion side of a ring have a
    lock each, of the same make. */
module RingHandoff {
  import opened Options

  /** Where a thread is in one of the locks (`ring_lock` to `ring_unlock`). */
  datatype At =
    | Out
    | SawFlag                  // loaded single_thread as true
    | Bumped                   // raised the user count, to load the flag again
    | Lockless                 // in the section, counted as a user
    | Backing                  // the flag was gone: to lower the count again
    | Waiting                  // for the mutex
    | Locked                   // in the section, with the mutex

  /** Where a thread is in its claim (`select_ring_thread_local`). */
  datatype Claim =
    | Unclaimed
    | First                    // counted itself first, to set the flag
    | Later                    // counted itself later, to clear the flag
    | DrainSq                  // waiting for st_users to read zero
    | DrainCq                  // waiting for st_cq_users to read zero
    | Claimed

  datatype Lane = Lane(users: int, mutex: Option<nat>, at: seq<At>)

  /** `first` remembers which thread counted itself first. */
  datatype Ring = Ring(flag: bool, owners: nat, first: nat, claims: seq<Claim>, sq: Lane, cq: Lane)

  datatype Act = Load | Bump | Recheck | Back | Acquire | GiveUp | LeaveLockless | LeaveLocked

  datatype Step =
    | Lock(t: nat, completions: bool, act: Act)
    | Count(t: nat)
    | SetFlag(t: nat)
    | ClearFlag(t: nat)
    | SqDrained(t: nat)
    | CqDrained(t: nat)

  function Idle(threads: nat): Lane
  {
    Lane(0, None, seq(threads, i => Out))
  }

  function Init(threads: nat): Ring
  {
    Ring(false, 0, 0, seq(threads, i => Unclaimed), Idle(threads), Idle(threads))
  }

  predicate LaneEnabled(l: Lane, t: nat, act: Act)
  {
    && t < |l.at|
    && match act
       case Load => l.at[t].Out?
       case Bump => l.at[t].SawFlag?
       case Recheck => l.at[t].Bumped?
       case Back => l.at[t].Backing?
       case Acquire => l.at[t].Waiting? && l.mutex.None?
       case GiveUp => l.at[t].Waiting? && l.mutex.Some?      // ring_trylock
       case LeaveLockless => l.at[t].Lockless?
       case LeaveLocked => l.at[t].Locked?
  }

  function LaneApply(l: Lane, flag: bool, t: nat, act: Act): Lane
    requires LaneEnabled(l, t, act)
  {
    match act
    case Load => l.(at := l.at[t := if flag then SawFlag else Waiting])
    case Bump => l.(at := l.at[t := Bumped], users := l.users + 1)
    case Recheck => l.(at := l.at[t := if flag then Lockless else Backing])
    case Back => l.(at := l.at[t := Waiting], users := l.users - 1)
    case Acquire => l.(at := l.at[t := Locked], mutex := Some(t))
    case GiveUp => l.(at := l.at[t := Out])
    case LeaveLockless => l.(at := l.at[t := Out], users := l.users - 1)
    case LeaveLocked => l.(at := l.at[t := Out], mutex := None)
  }

  /** A thread uses the locks once its claim has finished. */
  predicate Enabled(s: Ring, step: Step)
  {
    && step.t < |s.claims|
    && match step
       case Lock(t, completions, act) => s.claims[t].Claimed? && LaneEnabled(if completions then s.cq else s.sq, t, act)
       case Count(t) => s.claims[t].Unclaimed?
       case SetFlag(t) => s.claims[t].First?
       case ClearFlag(t) => s.claims[t].Later?
       case SqDrained(t) => s.claims[t].DrainSq? && s.sq.users <= 0
       case CqDrained(t) => s.claims[t].DrainCq? && s.cq.users <= 0
  }

  function Apply(s: Ring, step: Step): Ring
    requires Enabled(s, step)
  {
    match step
    case Lock(t, completions, act) =>
      if completions then s.(cq := LaneApply(s.cq, s.flag, t, act)) else s.(sq := LaneApply(s.sq, s.flag, t, act))
    case Count(t) =>
      if s.owners == 0 then s.(owners := 1, first := t, claims := s.claims[t := First])
      else s.(owners := s.owners + 1, claims := s.claims[t := Later])
    case SetFlag(t) => s.(flag := true, claims := s.claims[t := Claimed])
    case ClearFlag(t) => s.(flag := false, claims := s.claims[t := DrainSq])
    case SqDrained(t) => s.(claims := s.claims[t := DrainCq])
    case CqDrained(t) => s.(claims := s.claims[t := Claimed])
  }

  /** A claimant clears the flag before the first owner has set it. */
  predicate TooEarly(s: Ring, step: Step)
  {
    step.ClearFlag? && exists t {:trigger s.claims[t]} :: 0 <= t < |s.claims| && s.claims[t].First?
  }

  predicate InSection(l: Lane, t: nat)
  {
    t < |l.at| && (l.at[t].Lockless? || l.at[t].Locked?)
  }

  /** No two threads are in a section of the same side. */
  ghost predicate Exclusive(s: Ring)
  {
    && (forall t: nat, u: nat :: InSection(s.sq, t) && InSection(s.sq, u) ==> t == u)
    && (forall t: nat, u: nat :: InSection(s.cq, t) && InSection(s.cq, u) ==> t == u)
  }

  // ----------------------------------------------------------------- invariant

  /** Until the first owner has set the flag no claim finishes; while the flag is
      set no other thread is past clearing it. */
  ghost predicate ClaimsSound(s: Ring)
  {
    && (s.owners == 0 ==> forall t {:trigger s.claims[t]} :: 0 <= t < |s.claims| ==> s.claims[t].Unclaimed?)
    && (s.owners > 0 ==> s.first < |s.claims| && (s.claims[s.first].First? || s.claims[s.first].Claimed?))
    && (s.owners == 0 || s.claims[s.first].First? ==> !s.flag)
    && (forall t {:trigger s.claims[t]} :: 0 <= t < |s.claims| && t != s.first ==>
          && !s.claims[t].First?
          && (s.flag || s.owners == 0 || s.claims[s.first].First? ==> s.claims[t].Unclaimed? || s.claims[t].Later?))
  }

  predicate CountsAsUser(a: At)
  {
    a.Bumped? || a.Lockless? || a.Backing?
  }

  /** The claimant has seen the side's user count at zero. */
  predicate Drained(c: Claim, completions: bool)
  {
    c.Claimed? || (c.DrainCq? && !completions)
  }

  /** Only the first owner is ever a lock-free user of a side, and not inside it
      once another thread has seen the user count at zero. */
  ghost predicate LaneSound(l: Lane, claims: seq<Claim>, first: nat, completions: bool)
  {
    && |l.at| == |claims|
    && l.users == (if first < |l.at| && CountsAsUser(l.at[first]) then 1 else 0)
    && (forall t {:trigger l.at[t]} {:trigger claims[t]} :: 0 <= t < |l.at| ==>
          && (!claims[t].Claimed? ==> l.at[t].Out?)
          && (l.at[t].Locked? <==> l.mutex == Some(t))
          && (t != first ==> l.at[t].Out? || l.at[t].Waiting? || l.at[t].Locked?)
          && (t != first && Drained(claims[t], completions) && first < |l.at| ==> !l.at[first].Lockless?))
  }

  ghost predicate Inv(s: Ring)
  {
    ClaimsSound(s) && LaneSound(s.sq, s.claims, s.first, false) && LaneSound(s.cq, s.claims, s.first, true)
  }

  lemma LaneStepKeeps(l: Lane, s: Ring, t: nat, act: Act, completions: bool)
    requires ClaimsSound(s) && t < |s.claims| && s.claims[t].Claimed?
    requires LaneSound(l, s.claims, s.first, completions) && LaneEnabled(l, t, act)
    ensures LaneSound(LaneApply(l, s.flag, t, act), s.claims, s.first, completions)
  {
    // a thread other than the first owner whose claim has finished finds the flag cleared
    assert t != s.first ==> !s.flag;
    assert forall u {:trigger s.claims[u]} :: 0 <= u < |s.claims| && u != s.first && Drained(s.claims[u], completions) ==> !s.flag;
  }

  lemma LaneKeptByClaim(l: Lane, s: Ring, step: Step, completions: bool)
    requires ClaimsSound(s) && Enabled(s, step) && !step.Lock? && !TooEarly(s, step)
    requires LaneSound(l, s.claims, s.first, completions)
    requires step.SqDrained? && !completions ==> l.users <= 0
    requires step.CqDrained? && completions ==> l.users <= 0
    ensures LaneSound(l, Apply(s, step).claims, Apply(s, step).first, completions)
  {
  }

  lemma ClaimsKept(s: Ring, step: Step)
    requires ClaimsSound(s) && Enabled(s, step) && !TooEarly(s, step)
    ensures ClaimsSound(Apply(s, step))
  {
  }

  lemma StepKeeps(s: Ring, step: Step)
    requires Inv(s) && Enabled(s, step) && !TooEarly(s, step)
    ensures Inv(Apply(s, step))
  {
    hide LaneSound, ClaimsSound, LaneEnabled, LaneApply;
    ClaimsKept(s, step);
    if step.Lock? {
      LaneStepKeeps(if step.completions then s.cq else s.sq, s, step.t, step.act, step.completions);
    } else {
      LaneKeptByClaim(s.sq, s, step, false);
      LaneKeptByClaim(s.cq, s, step, true);
    }
  }

  lemma SoundIsExclusive(s: Ring)
    requires Inv(s)
    ensures Exclusive(s)
  {
  }

  // ---------------------------------------------------------------------- runs

  ghost predicate Runs(s: Ring, steps: seq<Step>)
    decreases |steps|
  {
    steps == [] || (Enabled(s, steps[0]) && Runs(Apply(s, steps[0]), steps[1..]))
  }

  ghost function After(s: Ring, steps: seq<Step>): Ring
    requires Runs(s, steps)
    decreases |steps|
  {
    if steps == [] then s else After(Apply(s, steps[0]), steps[1..])
  }

  /** No claimant cleared the flag before the first owner had set it. */
  ghost predicate Orderly(s: Ring, steps: seq<Step>)
    requires Runs(s, steps)
    decreases |steps|
  {
    steps == [] || (!TooEarly(s, steps[0]) && Orderly(Apply(s, steps[0]), steps[1..]))
  }

  lemma {:induction false} RunKeeps(s: Ring, steps: seq<Step>)
    requires Inv(s) && Runs(s, steps) && Orderly(s, steps)
    ensures Inv(After(s, steps))
    decreases |steps|
  {
    hide Inv, TooEarly;
    if steps != [] {
      StepKeeps(s, steps[0]);
      RunKeeps(Apply(s, steps[0]), steps[1..]);
    }
  }

  lemma InitKeeps(threads: nat)
    ensures Inv(Init(threads))
  {
  }

  /** However many threads claim the ring, and however they interleave, sections
      exclude one another across the switch from the flag to the mutexes, as long
      as no claimant clears the flag before the first owner has set it. */
  lemma SectionsExclude(threads: nat, steps: seq<Step>)
    requires Runs(Init(threads), steps) && Orderly(Init(threads), steps)
    ensures Exclusive(After(Init(threads), steps))
  {
    InitKeeps(threads);
    RunKeeps(Init(threads), steps);
    SoundIsExclusive(After(Init(threads), steps));
  }

  // -------------------------------------------------- the condition is needed

  lemma Prepend(s: Ring, step: Step, t: Ring, rest: seq<Step>) returns (steps: seq<Step>)
    requires Enabled(s, step) && Apply(s, step) == t && Runs(t, rest)
    ensures |steps| == |rest| + 1 && Runs(s, steps) && After(s, steps) == After(t, rest)
  {
    steps := [step] + rest;
    assert steps[1..] == rest;
  }

  lemma Nowhere(s: Ring)
    ensures Runs(s, []) && After(s, []) == s
  {
  }

  /** With the flag set and nobody in the way, a thread enters without the mutex. */
  lemma Enters(s: Ring, t: nat, rest: seq<Step>) returns (steps: seq<Step>)
    requires t < |s.claims| == |s.sq.at| && s.claims[t].Claimed? && s.flag && s.sq.at[t].Out?
    requires Runs(s.(sq := Lane(s.sq.users + 1, s.sq.mutex, s.sq.at[t := Lockless])), rest)
    ensures Runs(s, steps)
    ensures After(s, steps) == After(s.(sq := Lane(s.sq.users + 1, s.sq.mutex, s.sq.at[t := Lockless])), rest)
  {
    hide Runs, After;
    var a := Apply(s, Lock(t, false, Load));
    var b := Apply(a, Lock(t, false, Bump));
    var c := s.(sq := Lane(s.sq.users + 1, s.sq.mutex, s.sq.at[t := Lockless]));
    assert Apply(b, Lock(t, false, Recheck)).sq.at == c.sq.at;
    steps := Prepend(b, Lock(t, false, Recheck), c, rest);
    steps := Prepend(a, Lock(t, false, Bump), b, steps);
    steps := Prepend(s, Lock(t, false, Load), a, steps);
  }

  /** And the condition is exact: as soon as one claimant clears the flag too
      early, there is a continuation with two threads in a section at once. */
  lemma TooEarlyBreaksIt(threads: nat, before: seq<Step>, step: Step) returns (rest: seq<Step>)
    requires Runs(Init(threads), before) && Orderly(Init(threads), before)
    requires Enabled(After(Init(threads), before), step) && TooEarly(After(Init(threads), before), step)
    ensures Runs(Apply(After(Init(threads), before), step), rest)
    ensures !Exclusive(After(Apply(After(Init(threads), before), step), rest))
  {
    InitKeeps(threads);
    RunKeeps(Init(threads), before);
    var s := After(Init(threads), before);
    rest := BothEnter(s, step);
  }

  /** Until the first owner has set the flag nobody is in a lock. */
  lemma NobodyIn(s: Ring, step: Step)
    requires Inv(s) && Enabled(s, step) && TooEarly(s, step)
    ensures step.ClearFlag? && s.first < |s.claims| && s.claims[s.first].First? && s.first != step.t
    ensures |s.sq.at| == |s.claims| && s.sq.at[s.first].Out? && s.sq.at[step.t].Out? && s.sq.users == 0 && s.cq.users == 0
  {
  }

  /** The claimant finds both counts at zero, and the first owner sets the flag. */
  lemma BothClaim(s: Ring, t: nat, u: nat, rest: seq<Step>) returns (steps: seq<Step>)
    requires t < |s.claims| && u < |s.claims| && t != u && s.claims[t].First? && s.claims[u].DrainSq?
    requires s.sq.users == 0 && s.cq.users == 0
    requires Runs(s.(flag := true, claims := s.claims[u := Claimed][t := Claimed]), rest)
    ensures Runs(s, steps)
    ensures After(s, steps) == After(s.(flag := true, claims := s.claims[u := Claimed][t := Claimed]), rest)
  {
    hide Runs, After;
    var b := s.(claims := s.claims[u := DrainCq]);
    var c := s.(claims := s.claims[u := Claimed]);
    var d := s.(flag := true, claims := s.claims[u := Claimed][t := Claimed]);
    assert s.claims[u := DrainCq][u := Claimed] == s.claims[u := Claimed];
    steps := Prepend(c, SetFlag(t), d, rest);
    steps := Prepend(b, CqDrained(u), c, steps);
    steps := Prepend(s, SqDrained(u), b, steps);
  }

  lemma BothEnter(s: Ring, step: Step) returns (rest: seq<Step>)
    requires Inv(s) && Enabled(s, step) && TooEarly(s, step)
    ensures Runs(Apply(s, step), rest) && !Exclusive(After(Apply(s, step), rest))
  {
    var t, u := s.first, step.t;
    NobodyIn(s, step);
    var a := Apply(s, step);
    hide Runs, After, Inv, TooEarly, Enabled, Apply;
    var d := a.(flag := true, claims := a.claims[u := Claimed][t := Claimed]);
    var e := d.(sq := Lane(1, d.sq.mutex, d.sq.at[t := Lockless]));
    var f := e.(sq := Lane(2, e.sq.mutex, e.sq.at[u := Lockless]));
    assert InSection(f.sq, t) && InSection(f.sq, u);
    Nowhere(f);
    rest := Enters(e, u, []);
    rest := Enters(d, t, rest);
    rest := BothClaim(a, t, u, rest);
  }

  /** Such a clear can come, in every ring with two claimants: both have counted
      themselves, and the second is the faster. */
  lemma EarlyClearHappens(threads: nat) returns (before: seq<Step>)
    requires 2 <= threads
    ensures Runs(Init(threads), before) && Orderly(Init(threads), before)
    ensures Enabled(After(Init(threads), before), ClearFlag(1)) && TooEarly(After(Init(threads), before), ClearFlag(1))
  {
    var s := Init(threads);
    var a := Apply(s, Count(0));
    var b := Apply(a, Count(1));
    before := [Count(0), Count(1)];
    assert before[1..] == [Count(1)] && [Count(1)][1..] == [];
    assert Runs(b, []) && Orderly(b, []) && After(b, []) == b;
    assert Runs(a, [Count(1)]) && Orderly(a, [Count(1)]) && After(a, [Count(1)]) == b;
    assert b.claims[0].First?;
  }

  /** So without the condition two threads can be in a section at once. */
  lemma TwoInside(threads: nat) returns (steps: seq<Step>)
    requires 2 <= threads
    ensures Runs(Init(threads), steps) && !Exclusive(After(Init(threads), steps))
  {
    var before := EarlyClearHappens(threads);
    var s := After(Init(threads), before);
    var rest := TooEarlyBreaksIt(threads, before, ClearFlag(1));
    hide *;
    steps := Prepend(s, ClearFlag(1), Apply(s, ClearFlag(1)), rest);
    steps := Joined(Init(threads), before, steps);
  }

  lemma {:induction false} Joined(s: Ring, a: seq<Step>, b: seq<Step>) returns (steps: seq<Step>)
    requires Runs(s, a) && Runs(After(s, a), b)
    ensures Runs(s, steps) && After(s, steps) == After(After(s, a), b)
    decreases |a|
  {
    if a == [] {
      steps := b;
    } else {
      steps := Joined(Apply(s, a[0]), a[1..], b);
      steps := Prepend(s, a[0], Apply(s, a[0]), steps);
    }
  }

  // -------------------------------------------------- a claimant's waits end

  /** Steps after which a thread in a lock is no longer a lock-free user, and will
      not become one with the flag cleared. */
  function Lingers(a: At): nat
  {
    match a
    case SawFlag => 3
    case Bumped => 2
    case Lockless => 1
    case Backing => 1
    case _ => 0
  }

  function Side(s: Ring, completions: bool): Lane
  {
    if completions then s.cq else s.sq
  }

  /** How many steps of the run the thread takes in the lock of a side. */
  ghost function StepsIn(steps: seq<Step>, t: nat, completions: bool): nat
  {
    if steps == [] then 0
    else (if steps[0].Lock? && steps[0].t == t && steps[0].completions == completions then 1 else 0) + StepsIn(steps[1..], t, completions)
  }

  /** The flag has been cleared for good. */
  predicate Cleared(s: Ring)
  {
    !s.flag && 0 < s.owners && s.first < |s.claims| && s.claims[s.first].Claimed?
  }

  lemma LingerStep(s: Ring, step: Step, completions: bool)
    requires Inv(s) && Cleared(s) && Enabled(s, step)
    ensures Cleared(Apply(s, step)) && !TooEarly(s, step) && Apply(s, step).first == s.first
    ensures |Side(s, completions).at| == |s.claims| == |Side(Apply(s, step), completions).at|
    ensures var l, l' := Lingers(Side(s, completions).at[s.first]), Lingers(Side(Apply(s, step), completions).at[s.first]);
      l' <= l && (step.Lock? && step.t == s.first && step.completions == completions && l > 0 ==> l' < l)
  {
  }

  /** Once the flag is cleared the first owner raises each count at most once more:
      after three steps of its own in a lock it is no longer a user there, and the
      count that a claimant waits for is zero and stays zero. */
  lemma {:induction false} WaitEnds(s: Ring, steps: seq<Step>, completions: bool)
    requires Inv(s) && Cleared(s) && Runs(s, steps)
    ensures Inv(After(s, steps)) && Cleared(After(s, steps)) && After(s, steps).first == s.first
    ensures |Side(s, completions).at| == |s.claims|
    ensures Lingers(Side(s, completions).at[s.first]) <= StepsIn(steps, s.first, completions) ==> Side(After(s, steps), completions).users == 0
    decreases |steps|
  {
    if steps == [] {
      UsersLinger(s, completions);
    } else {
      hide Inv, Cleared, TooEarly, Lingers, Side;
      LingerStep(s, steps[0], completions);
      StepKeeps(s, steps[0]);
      WaitEnds(Apply(s, steps[0]), steps[1..], completions);
    }
  }

  lemma UsersLinger(s: Ring, completions: bool)
    requires Inv(s) && Cleared(s)
    ensures |Side(s, completions).at| == |s.claims|
    ensures Lingers(Side(s, completions).at[s.first]) == 0 ==> Side(s, completions).users == 0
  {
  }

  // ------------------------------------------------------- a lock does its work

  /** A call to lock comes back only from the section, by leaving it, or, if it only
      tries, because the mutex is taken; and the section is entered with the mutex or,
      counted as a user, while the flag is still set. */
  lemma ReturnsFromSection(s: Ring, step: Step)
    requires Enabled(s, step) && step.Lock?
    ensures var l, l' := Side(s, step.completions), Side(Apply(s, step), step.completions);
      var t := step.t;
      && t < |l.at| == |l'.at|
      && (!l.at[t].Out? && l'.at[t].Out? <==> step.act.GiveUp? || InSection(l, t))
      && (step.act.GiveUp? ==> l.mutex.Some? && !InSection(l, t))
      && (!InSection(l, t) && InSection(l', t) <==> step.act.Acquire? || (step.act.Recheck? && s.flag))
      && (l'.at[t].Locked? ==> l'.mutex == Some(t) || l.at[t].Locked?)
  {
  }

  /** Where a thread goes on in a lock when nobody hinders it. */
  function Onward(a: At): Act
  {
    match a
    case Out => Load
    case SawFlag => Bump
    case Bumped => Recheck
    case Lockless => LeaveLockless
    case Backing => Back
    case Waiting => Acquire
    case Locked => LeaveLocked
  }

  function Closeness(a: At): nat
  {
    match a
    case Out => 5
    case SawFlag => 4
    case Bumped => 3
    case Backing => 2
    case Waiting => 1
    case _ => 0
  }

  lemma OnwardSteps(s: Ring, t: nat, completions: bool)
    requires t < |s.claims| && s.claims[t].Claimed? && t < |Side(s, completions).at|
    requires Side(s, completions).mutex.None? && !InSection(Side(s, completions), t)
    ensures var step := Lock(t, completions, Onward(Side(s, completions).at[t]));
      && Enabled(s, step)
      && var s' := Apply(s, step);
         && s'.claims == s.claims && t < |Side(s', completions).at|
         && Closeness(Side(s', completions).at[t]) < Closeness(Side(s, completions).at[t])
         && (InSection(Side(s', completions), t) || Side(s', completions).mutex.None?)
  {
  }

  /** A thread whose claim has finished, wherever it is in a lock, gets into the section
      within five steps of its own if the mutex is free and nobody else comes between. */
  lemma {:induction false} EntersAlone(s: Ring, t: nat, completions: bool) returns (steps: seq<Step>)
    requires t < |s.claims| && s.claims[t].Claimed? && t < |Side(s, completions).at|
    requires Side(s, completions).mutex.None? || InSection(Side(s, completions), t)
    ensures |steps| <= Closeness(Side(s, completions).at[t]) <= 5
    ensures Runs(s, steps) && InSection(Side(After(s, steps), completions), t)
    decreases Closeness(Side(s, completions).at[t])
  {
    if InSection(Side(s, completions), t) {
      Nowhere(s);
      steps := [];
    } else {
      OnwardSteps(s, t, completions);
      var step := Lock(t, completions, Onward(Side(s, completions).at[t]));
      var s' := Apply(s, step);
      hide Runs, After, Enabled, Apply, Side, InSection, Onward;
      steps := EntersAlone(s', t, completions);
      steps := Prepend(s, step, s', steps);
    }
  }
}
