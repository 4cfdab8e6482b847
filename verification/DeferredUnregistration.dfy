/** Deferred unregistration of the registered-buffer table. Any number of
    threads submit operations that use the table, under the read side of
    `reg_lock`; completions lower the in-flight counters without the lock; and
    any number of threads register, request unregistration and finalize it,
    under the write side, reading the counters ring by ring while completions
    go on. */
module DeferredUnregistration {

  /** Where a thread is. `Reading` to `Leaving` hold the read lock; `Registering`
      and `Marking` to `Clearing` hold the write lock. */
  datatype Pc =
    | Idle
    | Reading(ring: nat)       // validate_registered_buffer has the lock
    | Checked(ring: nat)       // the table may be used
    | Counted(ring: nat)       // fixed_buf_inflight raised, SQE not queued yet
    | Leaving
    | Registering
    | Marking                  // request_unregister_generic
    | Marked                   // between marking and finalizing, no lock
    | Summing(next: nat, total: int)
    | Dropping                 // the sum was zero: the table is to be freed
    | Dropped                  // freed; flags still to be cleared
    | Clearing
    | Done                     // write lock to be released

  datatype Engine = Engine(
    threads: seq<Pc>,
    tableLive: bool,           // registered_buffers is allocated
    registered: bool,          // buffers_registered
    unregPending: bool,        // buffers_unreg_pending
    inflight: seq<int>,        // fixed_buf_inflight of each ring
    flying: seq<nat>)          // registered-buffer operations accepted and not completed, by ring

  predicate HoldsRead(p: Pc)
  {
    p.Reading? || p.Checked? || p.Counted? || p.Leaving?
  }

  predicate HoldsWrite(p: Pc)
  {
    p.Registering? || p.Marking? || p.Summing? || p.Dropping? || p.Dropped? || p.Clearing? || p.Done?
  }

  function Init(threads: nat, rings: nat): Engine
  {
    Engine(seq(threads, i => Idle), false, false, false, seq(rings, i => 0), seq(rings, i => 0))
  }

  // --------------------------------------------------------------------- steps

  datatype Step =
    | LockRead(ring: nat)
    | Validate
    | BeginFails               // the index is bad, or there is no slot for a request
    | Count
    | Submitted                // the SQE is queued
    | SubmitFailed             // the counter is lowered again
    | UnlockRead
    | LockToRegister
    | Register
    | RegisterFails            // no memory, or the kernel refuses
    | LockToMark
    | Mark
    | LockToFinalize
    | AddRing
    | Decide
    | FreeTable
    | ClearRegistered
    | ClearPending
    | UnlockWrite

  /** No thread but `t` holds the lock in a way that excludes `p`. */
  ghost predicate CanLock(e: Engine, t: nat, write: bool)
  {
    forall u {:trigger e.threads[u]} :: 0 <= u < |e.threads| && u != t ==>
      !HoldsWrite(e.threads[u]) && (write ==> !HoldsRead(e.threads[u]))
  }

  ghost predicate Enabled(e: Engine, t: nat, step: Step)
  {
    && t < |e.threads|
    && var p := e.threads[t];
       match step
       case LockRead(r) => p.Idle? && r < |e.inflight| && r < |e.flying| && CanLock(e, t, false)
       case Validate => p.Reading?
       case BeginFails => p.Checked?
       case Count => p.Checked? && p.ring < |e.inflight|
       case Submitted => p.Counted? && p.ring < |e.flying|
       case SubmitFailed => p.Counted? && p.ring < |e.inflight|
       case UnlockRead => p.Leaving?
       case LockToRegister => p.Idle? && CanLock(e, t, true)
       case Register => p.Registering?
       case RegisterFails => p.Registering?
       case LockToMark => p.Idle? && CanLock(e, t, true)
       case Mark => p.Marking?
       case LockToFinalize => (p.Idle? || p.Marked?) && CanLock(e, t, true)
       case AddRing => p.Summing? && p.next < |e.inflight|
       case Decide => p.Summing? && p.next == |e.inflight|
       case FreeTable => p.Dropping?
       case ClearRegistered => p.Dropped?
       case ClearPending => p.Clearing?
       case UnlockWrite => p.Done?
  }

  function Goto(e: Engine, t: nat, p: Pc): Engine
    requires t < |e.threads|
  {
    e.(threads := e.threads[t := p])
  }

  ghost function Apply(e: Engine, t: nat, step: Step): Engine
    requires Enabled(e, t, step)
  {
    var p := e.threads[t];
    match step
    case LockRead(r) => Goto(e, t, Reading(r))
    case Validate => Goto(e, t, if e.registered && !e.unregPending then Checked(p.ring) else Leaving)
    case BeginFails => Goto(e, t, Leaving)
    case Count => Goto(e, t, Counted(p.ring)).(inflight := e.inflight[p.ring := e.inflight[p.ring] + 1])
    case Submitted => Goto(e, t, Leaving).(flying := e.flying[p.ring := e.flying[p.ring] + 1])
    case SubmitFailed => Goto(e, t, Leaving).(inflight := e.inflight[p.ring := e.inflight[p.ring] - 1])
    case UnlockRead => Goto(e, t, Idle)
    case LockToRegister => Goto(e, t, Registering)
    case Register =>
      if e.registered || e.unregPending then Goto(e, t, Done)
      else Goto(e, t, Done).(tableLive := true, registered := true, unregPending := false)
    case RegisterFails => Goto(e, t, Done)
    case LockToMark => Goto(e, t, Marking)
    case Mark =>
      if !e.registered && !e.unregPending then Goto(e, t, Done) else Goto(e, t, Marked).(unregPending := true)
    case LockToFinalize => Goto(e, t, Summing(0, 0))
    case AddRing => Goto(e, t, Summing(p.next + 1, p.total + e.inflight[p.next]))
    case Decide => Goto(e, t, if e.registered && e.unregPending && p.total == 0 then Dropping else Done)
    case FreeTable => Goto(e, t, Dropped).(tableLive := false)
    case ClearRegistered => Goto(e, t, Clearing).(registered := false)
    case ClearPending => Goto(e, t, Done).(unregPending := false)
    case UnlockWrite => Goto(e, t, Idle)
  }

  /** A completion on a ring: `process_completion` lowers the counter. No lock. */
  ghost predicate CanComplete(e: Engine, r: nat)
  {
    r < |e.flying| && r < |e.inflight| && e.flying[r] > 0
  }

  function Completed(e: Engine, r: nat): Engine
    requires r < |e.flying| && r < |e.inflight| && e.flying[r] > 0
  {
    e.(flying := e.flying[r := e.flying[r] - 1], inflight := e.inflight[r := e.inflight[r] - 1])
  }

  // ----------------------------------------------------------------- invariant

  /** Threads that have raised the counter of ring `r` and not queued the SQE. */
  ghost function Raised(threads: seq<Pc>, r: nat): nat
  {
    if threads == [] then 0
    else Raised(threads[..|threads| - 1], r) + if threads[|threads| - 1] == Counted(r) then 1 else 0
  }

  lemma {:induction false} RaisedUpdate(threads: seq<Pc>, t: nat, p: Pc, r: nat)
    requires t < |threads|
    ensures Raised(threads[t := p], r) == Raised(threads, r)
      + (if p == Counted(r) then 1 else 0) - (if threads[t] == Counted(r) then 1 else 0)
  {
    var n := |threads| - 1;
    if t == n {
      assert threads[t := p][..n] == threads[..n];
    } else {
      assert threads[t := p][..n] == threads[..n][t := p];
      RaisedUpdate(threads[..n], t, p, r);
    }
  }

  lemma {:induction false} RaisedNone(threads: seq<Pc>, r: nat)
    requires forall t :: 0 <= t < |threads| ==> !threads[t].Counted?
    ensures Raised(threads, r) == 0
  {
    if threads != [] {
      RaisedNone(threads[..|threads| - 1], r);
    }
  }

  /** The lock: a writer is alone. */
  ghost predicate Exclusive(e: Engine)
  {
    forall t, u {:trigger e.threads[t], e.threads[u]} :: 0 <= t < |e.threads| && 0 <= u < |e.threads| && t != u ==>
      HoldsWrite(e.threads[t]) ==> !HoldsWrite(e.threads[u]) && !HoldsRead(e.threads[u])
  }

  ghost predicate CountersMatch(e: Engine)
  {
    && |e.inflight| == |e.flying|
    && forall r {:trigger e.inflight[r]} :: 0 <= r < |e.inflight| ==> e.inflight[r] == e.flying[r] + Raised(e.threads, r)
  }

  /** What the position of a thread says about the shared state. */
  ghost predicate Knows(e: Engine, p: Pc)
  {
    match p
    case Checked(r) => e.registered && !e.unregPending && r < |e.inflight|
    case Counted(r) => e.registered && !e.unregPending && r < |e.inflight|
    case Reading(r) => r < |e.inflight|
    case Summing(next, total) => next <= |e.inflight| && 0 <= total && (total == 0 ==> forall r :: 0 <= r < next ==> e.inflight[r] == 0)
    case Dropping => e.registered && e.unregPending && NothingFlies(e)
    case Dropped => e.unregPending && NothingFlies(e)
    case Clearing => !e.registered && NothingFlies(e)
    case _ => true
  }

  ghost predicate NothingFlies(e: Engine)
  {
    forall r {:trigger e.inflight[r]} :: 0 <= r < |e.inflight| ==> e.inflight[r] == 0
  }

  ghost predicate Inv(e: Engine)
  {
    && Exclusive(e) && CountersMatch(e)
    && (forall t {:trigger e.threads[t]} :: 0 <= t < |e.threads| ==> Knows(e, e.threads[t]))
    && (e.registered && (forall t {:trigger e.threads[t]} :: 0 <= t < |e.threads| ==> !e.threads[t].Dropped?) ==> e.tableLive)
    && (forall r {:trigger e.flying[r]} :: 0 <= r < |e.flying| && e.flying[r] > 0 ==> e.tableLive && e.registered)
  }

  lemma InitKeeps(threads: nat, rings: nat)
    ensures Inv(Init(threads, rings))
  {
    forall r: nat
      ensures Raised(Init(threads, rings).threads, r) == 0
    {
      RaisedNone(Init(threads, rings).threads, r);
    }
  }

  /** With the write lock held by another, no thread has a counter raised. */
  lemma WriterSeesNoneRaised(e: Engine, t: nat, r: nat)
    requires Exclusive(e) && t < |e.threads| && HoldsWrite(e.threads[t])
    ensures Raised(e.threads, r) == 0
  {
    RaisedNone(e.threads, r);
  }

  lemma CompletionKeeps(e: Engine, r: nat)
    requires Inv(e) && CanComplete(e, r)
    ensures Inv(Completed(e, r))
  {
    var e' := Completed(e, r);
    forall t | 0 <= t < |e.threads|
      ensures Knows(e', e'.threads[t])
    {
      assert Knows(e, e.threads[t]);
      assert e.inflight[r] > 0;
      if HoldsWrite(e.threads[t]) {
        WriterSeesNoneRaised(e, t, r);
      }
    }
  }

  lemma ExclusiveKeeps(e: Engine, t: nat, step: Step)
    requires Exclusive(e) && Enabled(e, t, step)
    ensures Exclusive(Apply(e, t, step))
  {
    hide Knows, CountersMatch;
  }

  lemma CountersKeep(e: Engine, t: nat, step: Step)
    requires Inv(e) && Enabled(e, t, step)
    ensures CountersMatch(Apply(e, t, step))
  {
    hide Exclusive, NothingFlies;
    var e' := Apply(e, t, step);
    assert Knows(e, e.threads[t]);
    forall r | 0 <= r < |e'.inflight|
      ensures e'.inflight[r] == e'.flying[r] + Raised(e'.threads, r)
    {
      RaisedUpdate(e.threads, t, e'.threads[t], r);
      assert e.inflight[r] == e.flying[r] + Raised(e.threads, r);
    }
  }

  /** A writer that has read zero from a ring finds it at zero from then on. */
  lemma OthersKnow(e: Engine, t: nat, step: Step, u: nat)
    requires Inv(e) && Enabled(e, t, step) && u < |e.threads| && u != t
    ensures Knows(Apply(e, t, step), e.threads[u])
  {
    hide CountersMatch;
    assert Knows(e, e.threads[u]) && Knows(e, e.threads[t]);
  }

  lemma AdderKnows(e: Engine, t: nat)
    requires Inv(e) && Enabled(e, t, AddRing)
    ensures Knows(Apply(e, t, AddRing), Apply(e, t, AddRing).threads[t])
  {
    var p := e.threads[t];
    assert Knows(e, p);
    WriterSeesNoneRaised(e, t, p.next);
    assert e.inflight[p.next] >= 0;
    hide Exclusive, CountersMatch;
  }

  lemma ActorKnows(e: Engine, t: nat, step: Step)
    requires Inv(e) && Enabled(e, t, step)
    ensures Knows(Apply(e, t, step), Apply(e, t, step).threads[t])
  {
    if step.AddRing? {
      AdderKnows(e, t);
    } else {
      assert Knows(e, e.threads[t]);
      hide Exclusive, CountersMatch, CanLock;
    }
  }

  lemma TableKeeps(e: Engine, t: nat, step: Step)
    requires Inv(e) && Enabled(e, t, step)
    ensures var e' := Apply(e, t, step);
      && (e'.registered && (forall u {:trigger e'.threads[u]} :: 0 <= u < |e'.threads| ==> !e'.threads[u].Dropped?) ==> e'.tableLive)
      && (forall r {:trigger e'.flying[r]} :: 0 <= r < |e'.flying| && e'.flying[r] > 0 ==> e'.tableLive && e'.registered)
  {
    var e' := Apply(e, t, step);
    assert Knows(e, e.threads[t]);
    assert e'.threads[t] == e'.threads[t];
    if step.FreeTable? || step.ClearRegistered? {
      forall r | 0 <= r < |e.flying|
        ensures e.flying[r] == 0
      {
        assert e.inflight[r] == e.flying[r] + Raised(e.threads, r);
      }
    } else if step.Submitted? {
      AliveForReader(e, t);
    }
  }

  lemma AliveForReader(e: Engine, t: nat)
    requires Inv(e) && t < |e.threads| && (e.threads[t].Checked? || e.threads[t].Counted?)
    ensures e.tableLive && e.registered
  {
    assert Knows(e, e.threads[t]);
  }

  lemma StepKeeps(e: Engine, t: nat, step: Step)
    requires Inv(e) && Enabled(e, t, step)
    ensures Inv(Apply(e, t, step))
  {
    var e' := Apply(e, t, step);
    ExclusiveKeeps(e, t, step);
    CountersKeep(e, t, step);
    TableKeeps(e, t, step);
    forall u | 0 <= u < |e'.threads|
      ensures Knows(e', e'.threads[u])
    {
      if u == t {
        ActorKnows(e, t, step);
      } else {
        OthersKnow(e, t, step, u);
        assert e'.threads[u] == e.threads[u];
      }
    }
  }

  // ----------------------------------------------------------------- whole runs

  datatype Event = Act(thread: nat, step: Step) | Completion(ring: nat)

  ghost predicate Can(e: Engine, ev: Event)
  {
    match ev
    case Act(t, step) => Enabled(e, t, step)
    case Completion(r) => CanComplete(e, r)
  }

  ghost function Next(e: Engine, ev: Event): Engine
    requires Can(e, ev)
  {
    match ev
    case Act(t, step) => Apply(e, t, step)
    case Completion(r) => Completed(e, r)
  }

  ghost predicate Runs(e: Engine, run: seq<Event>)
    decreases run
  {
    run == [] || (Can(e, run[0]) && Runs(Next(e, run[0]), run[1..]))
  }

  ghost function After(e: Engine, run: seq<Event>): Engine
    requires Runs(e, run)
    decreases run
  {
    if run == [] then e else After(Next(e, run[0]), run[1..])
  }

  lemma {:induction false} RunKeeps(e: Engine, run: seq<Event>)
    requires Inv(e) && Runs(e, run)
    ensures Inv(After(e, run))
    decreases run
  {
    if run != [] {
      match run[0] {
        case Act(t, step) => StepKeeps(e, t, step);
        case Completion(r) => CompletionKeeps(e, r);
      }
      RunKeeps(Next(e, run[0]), run[1..]);
    }
  }

  /** The thread may read or write the table entry of its operation. */
  predicate UsesTable(p: Pc)
  {
    p.Checked? || p.Counted?
  }

  /** Whatever the interleaving, when a thread is about to free the table no
      operation that uses it is in flight on any ring, and no submitter is
      between its check and the end of its submission. */
  lemma DropIsSafe(threads: nat, rings: nat, run: seq<Event>, t: nat)
    requires Runs(Init(threads, rings), run)
    requires var e := After(Init(threads, rings), run); t < |e.threads| && e.threads[t].Dropping?
    ensures var e := After(Init(threads, rings), run);
      && (forall r :: 0 <= r < |e.flying| ==> e.flying[r] == 0)
      && (forall u :: 0 <= u < |e.threads| ==> !UsesTable(e.threads[u]))
      && e.registered && e.unregPending
  {
    InitKeeps(threads, rings);
    RunKeeps(Init(threads, rings), run);
    var e := After(Init(threads, rings), run);
    assert Knows(e, e.threads[t]);
    forall r | 0 <= r < |e.flying|
      ensures e.flying[r] == 0
    {
      assert e.inflight[r] == e.flying[r] + Raised(e.threads, r);
    }
    forall u | 0 <= u < |e.threads|
      ensures !UsesTable(e.threads[u])
    {
      if u != t {
        assert !HoldsRead(e.threads[u]);
      }
    }
  }

  /** Whatever the interleaving, the table is there for every operation in
      flight and for every submitter that has checked it; and an operation is
      accepted only while no unregistration is pending. */
  lemma TableOutlivesUsers(threads: nat, rings: nat, run: seq<Event>)
    requires Runs(Init(threads, rings), run)
    ensures var e := After(Init(threads, rings), run);
      && (forall r :: 0 <= r < |e.flying| && e.flying[r] > 0 ==> e.tableLive)
      && (forall u :: 0 <= u < |e.threads| && UsesTable(e.threads[u]) ==> e.tableLive && !e.unregPending)
  {
    InitKeeps(threads, rings);
    RunKeeps(Init(threads, rings), run);
    var e := After(Init(threads, rings), run);
    forall u | 0 <= u < |e.threads| && UsesTable(e.threads[u])
      ensures e.tableLive && !e.unregPending
    {
      AliveForReader(e, u);
      assert Knows(e, e.threads[u]);
    }
  }

  /** A finalizer reads the counters ring by ring while completions lower them;
      if the sum comes out as zero then every counter is zero. */
  lemma ZeroSumIsTrueZero(threads: nat, rings: nat, run: seq<Event>, t: nat)
    requires Runs(Init(threads, rings), run)
    requires var e := After(Init(threads, rings), run);
      t < |e.threads| && e.threads[t].Summing? && e.threads[t].next == |e.inflight| && e.threads[t].total == 0
    ensures var e := After(Init(threads, rings), run);
      (forall r :: 0 <= r < |e.flying| ==> e.flying[r] == 0) && NothingFlies(e)
  {
    InitKeeps(threads, rings);
    RunKeeps(Init(threads, rings), run);
    var e := After(Init(threads, rings), run);
    assert Knows(e, e.threads[t]);
    forall r | 0 <= r < |e.flying|
      ensures e.flying[r] == 0
    {
      assert e.inflight[r] == e.flying[r] + Raised(e.threads, r);
    }
  }
}
