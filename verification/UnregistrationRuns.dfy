/** What a request for unregistration does, told by what has happened in a run:
    from the request to the step that answers it no operation on the table is
    let through, and once nothing is in flight any one finalizer carries it out. */
module UnregistrationRuns {
  import opened DeferredUnregistration

  // ------------------------------------------------- what the steps of a run say

  /** A table has been registered and not freed; it has been asked to go, and that
      has not been answered. */
  datatype History = History(table: bool, asked: bool)

  ghost function Record(h: History, ev: Event): History
  {
    match ev
    case Completion(_) => h
    case Act(_, step) =>
      match step
      case Register => h.(table := true)
      case ClearRegistered => h.(table := false)
      case Mark => h.(asked := h.asked || h.table)
      case ClearPending => h.(asked := false)
      case _ => h
  }

  ghost function Recorded(h: History, run: seq<Event>): History
    decreases run
  {
    if run == [] then h else Recorded(Record(h, run[0]), run[1..])
  }

  const Start := History(false, false)

  // ------------------------------------------------- the flags are that history

  /** A request is pending only for a registered table, but while it is answered. */
  ghost predicate PendingHasTable(e: Engine)
  {
    e.unregPending && (forall t {:trigger e.threads[t]} :: 0 <= t < |e.threads| ==> !e.threads[t].Clearing?) ==> e.registered
  }

  ghost predicate Agrees(e: Engine, h: History)
  {
    e.registered == h.table && e.unregPending == h.asked
  }

  lemma StepRecords(e: Engine, t: nat, step: Step, h: History)
    requires Inv(e) && Enabled(e, t, step) && PendingHasTable(e) && Agrees(e, h)
    ensures PendingHasTable(Apply(e, t, step)) && Agrees(Apply(e, t, step), Record(h, Act(t, step)))
  {
    var e' := Apply(e, t, step);
    hide CountersMatch, Knows, CanLock;
    assert HoldsWrite(e.threads[t]) ==> forall u {:trigger e.threads[u]} :: 0 <= u < |e.threads| && u != t ==> !e.threads[u].Clearing?;
    assert e'.threads[t] == e'.threads[t];
    assert forall u {:trigger e.threads[u]} {:trigger e'.threads[u]} :: 0 <= u < |e.threads| && u != t ==> e'.threads[u] == e.threads[u];
  }

  lemma {:induction false} RunRecords(e: Engine, run: seq<Event>, h: History)
    requires Inv(e) && Runs(e, run) && PendingHasTable(e) && Agrees(e, h)
    ensures Inv(After(e, run)) && PendingHasTable(After(e, run)) && Agrees(After(e, run), Recorded(h, run))
    decreases run
  {
    hide Inv, PendingHasTable, Agrees, Enabled, Apply, Record;
    if run != [] {
      match run[0] {
        case Act(t, step) => StepKeeps(e, t, step); StepRecords(e, t, step, h);
        case Completion(r) => CompletionKeeps(e, r); CompletionRecords(e, r, h);
      }
      RunRecords(Next(e, run[0]), run[1..], Record(h, run[0]));
    }
  }

  lemma CompletionRecords(e: Engine, r: nat, h: History)
    requires CanComplete(e, r) && PendingHasTable(e) && Agrees(e, h)
    ensures PendingHasTable(Completed(e, r)) && Agrees(Completed(e, r), Record(h, Completion(r)))
  {
  }

  lemma FromStart(threads: nat, rings: nat, run: seq<Event>)
    requires Runs(Init(threads, rings), run)
    ensures var e := After(Init(threads, rings), run);
      Inv(e) && PendingHasTable(e) && Agrees(e, Recorded(Start, run))
  {
    InitKeeps(threads, rings);
    RunRecords(Init(threads, rings), run, Start);
  }

  // ------------------------------------------------------ a request has its effect

  /** Whatever the interleaving: a thread that asks for the table is let through if
      and only if one has been registered, has not been freed, and has not been
      asked to go; and no submission ends, and nobody is past the check, from the
      request until its answer. */
  lemma LetThroughExactly(threads: nat, rings: nat, run: seq<Event>, t: nat)
    requires Runs(Init(threads, rings), run) && t < |After(Init(threads, rings), run).threads|
    ensures var e, h := After(Init(threads, rings), run), Recorded(Start, run);
      && (Enabled(e, t, Validate) ==> (Apply(e, t, Validate).threads[t].Checked? <==> h.table && !h.asked))
      && (Enabled(e, t, Submitted) || UsesTable(e.threads[t]) ==> h.table && !h.asked)
  {
    FromStart(threads, rings, run);
    var e := After(Init(threads, rings), run);
    assert Knows(e, e.threads[t]);
  }

  lemma {:induction false} StaysAsked(h: History, between: seq<Event>)
    requires h.asked && forall ev :: ev in between ==> !Answers(ev)
    ensures Recorded(h, between).asked
    decreases between
  {
    if between != [] {
      assert between[0] in between;
      StaysAsked(Record(h, between[0]), between[1..]);
    }
  }

  predicate Answers(ev: Event)
  {
    ev.Act? && ev.step.ClearPending?
  }

  lemma {:induction false} RecordedJoins(h: History, a: seq<Event>, b: seq<Event>)
    ensures Recorded(h, a + b) == Recorded(Recorded(h, a), b)
    decreases a
  {
    if a == [] {
      assert a + b == b;
    } else {
      assert (a + b)[1..] == a[1..] + b;
      RecordedJoins(Record(h, a[0]), a[1..], b);
    }
  }

  /** From the moment a thread asks for unregistration of a registered table to the
      step that answers it, whatever else happens: no thread that looks is let
      through, none is past its look, and no submission ends. */
  lemma RequestStopsSubmissions(threads: nat, rings: nat, before: seq<Event>, t: nat, between: seq<Event>, u: nat)
    requires Recorded(Start, before).table && forall ev :: ev in between ==> !Answers(ev)
    requires Runs(Init(threads, rings), before + [Act(t, Mark)] + between)
    requires u < |After(Init(threads, rings), before + [Act(t, Mark)] + between).threads|
    ensures var e := After(Init(threads, rings), before + [Act(t, Mark)] + between);
      && (Enabled(e, u, Validate) ==> Apply(e, u, Validate).threads[u] == Leaving)
      && !Enabled(e, u, Submitted) && !UsesTable(e.threads[u])
  {
    RecordedJoins(Start, before, [Act(t, Mark)]);
    RecordedJoins(Start, before + [Act(t, Mark)], between);
    var h := Recorded(Start, before);
    assert Recorded(h, [Act(t, Mark)]) == Record(h, Act(t, Mark)) by { assert [Act(t, Mark)][1..] == []; }
    StaysAsked(Record(h, Act(t, Mark)), between);
    hide Runs, After, Recorded;
    LetThroughExactly(threads, rings, before + [Act(t, Mark)] + between, u);
    hide *;
    NotLetThrough(After(Init(threads, rings), before + [Act(t, Mark)] + between), u);
  }

  lemma NotLetThrough(e: Engine, u: nat)
    requires u < |e.threads| && (Enabled(e, u, Validate) ==> !Apply(e, u, Validate).threads[u].Checked?)
    ensures Enabled(e, u, Validate) ==> Apply(e, u, Validate).threads[u] == Leaving
  {
  }

  /** The counters decide: the table is dropped if and only if it has been asked to
      go and the sum that the finalizer has read is zero. */
  lemma DropsExactly(threads: nat, rings: nat, run: seq<Event>, t: nat)
    requires Runs(Init(threads, rings), run) && Enabled(After(Init(threads, rings), run), t, Decide)
    ensures var e, h := After(Init(threads, rings), run), Recorded(Start, run);
      Apply(e, t, Decide).threads[t].Dropping? <==> h.asked && e.threads[t].total == 0
  {
    FromStart(threads, rings, run);
    var e := After(Init(threads, rings), run);
    assert forall u {:trigger e.threads[u]} :: 0 <= u < |e.threads| ==> !e.threads[u].Clearing?;
  }

  // --------------------------------------------------------- and it is carried out

  ghost function Finalizing(t: nat, left: nat): (run: seq<Event>)
  {
    if left == 0 then [Act(t, Decide)] + ([Act(t, FreeTable)] + Answering(t))
    else [Act(t, AddRing)] + Finalizing(t, left - 1)
  }

  ghost function Answering(t: nat): (run: seq<Event>)
  {
    [Act(t, ClearRegistered), Act(t, ClearPending), Act(t, UnlockWrite)]
  }

  lemma Prepend(e: Engine, ev: Event, next: Engine, rest: seq<Event>)
    requires Can(e, ev) && Next(e, ev) == next && Runs(next, rest)
    ensures Runs(e, [ev] + rest) && After(e, [ev] + rest) == After(next, rest)
  {
    assert ([ev] + rest)[1..] == rest;
  }

  /** What is left when thread `t` has freed the table. */
  ghost function Freed(e: Engine, t: nat): Engine
    requires t < |e.threads|
  {
    Goto(e, t, Idle).(tableLive := false, registered := false, unregPending := false)
  }

  lemma Clears(e: Engine, t: nat)
    requires t < |e.threads| && e.threads[t] == Dropped && !e.tableLive
    ensures Runs(e, Answering(t)) && After(e, Answering(t)) == Freed(e, t)
  {
    var e3 := Apply(e, t, ClearRegistered);
    var e4 := Apply(e3, t, ClearPending);
    var e5 := Apply(e4, t, UnlockWrite);
    assert e5 == Freed(e, t);
    hide Runs, After, Enabled, Apply;
    Nothing(e5);
    Prepend(e4, Act(t, UnlockWrite), e5, []);
    Prepend(e3, Act(t, ClearPending), e4, [Act(t, UnlockWrite)]);
    Prepend(e, Act(t, ClearRegistered), e3, [Act(t, ClearPending), Act(t, UnlockWrite)]);
  }

  lemma Drops(e: Engine, t: nat)
    requires t < |e.threads| && e.threads[t] == Summing(|e.inflight|, 0) && e.registered && e.unregPending
    ensures Runs(e, Finalizing(t, 0)) && After(e, Finalizing(t, 0)) == Freed(e, t)
  {
    var e1 := Apply(e, t, Decide);
    var e2 := Apply(e1, t, FreeTable);
    assert Freed(e2, t) == Freed(e, t);
    hide Runs, After, Enabled, Apply;
    Clears(e2, t);
    Prepend(e1, Act(t, FreeTable), e2, Answering(t));
    Prepend(e, Act(t, Decide), e1, [Act(t, FreeTable)] + Answering(t));
  }

  lemma Nothing(e: Engine)
    ensures Runs(e, []) && After(e, []) == e
  {
  }

  lemma {:induction false} Sums(e: Engine, t: nat, left: nat)
    requires t < |e.threads| && left <= |e.inflight| && e.threads[t] == Summing(|e.inflight| - left, 0)
    requires e.registered && e.unregPending && NothingFlies(e)
    ensures Runs(e, Finalizing(t, left)) && After(e, Finalizing(t, left)) == Freed(e, t)
    decreases left
  {
    if left == 0 {
      Drops(e, t);
    } else {
      var e' := Apply(e, t, AddRing);
      assert e'.threads[t] == Summing(|e.inflight| - (left - 1), 0);
      assert Freed(e', t) == Freed(e, t);
      hide Runs, After, Enabled, Apply;
      Sums(e', t, left - 1);
      Prepend(e, Act(t, AddRing), e', Finalizing(t, left - 1));
    }
  }

  ghost predicate Unlocked(e: Engine)
  {
    forall u {:trigger e.threads[u]} :: 0 <= u < |e.threads| ==> !HoldsRead(e.threads[u]) && !HoldsWrite(e.threads[u])
  }

  lemma NoneInFlight(e: Engine)
    requires Inv(e) && Unlocked(e) && forall r :: 0 <= r < |e.flying| ==> e.flying[r] == 0
    ensures NothingFlies(e)
  {
    forall r | 0 <= r < |e.inflight|
      ensures e.inflight[r] == 0
    {
      RaisedNone(e.threads, r);
      assert e.inflight[r] == e.flying[r] + Raised(e.threads, r);
    }
  }

  /** In every state that can be reached with a request made and not answered,
      nothing in flight and no lock held, whichever thread comes to finalize: its
      steps are enabled one after another, and at their end the table is freed, not
      registered, and nothing is pending. */
  lemma RequestIsCarriedOut(threads: nat, rings: nat, run: seq<Event>, t: nat)
    requires Runs(Init(threads, rings), run) && Recorded(Start, run).asked
    requires var e := After(Init(threads, rings), run);
      t < |e.threads| && Unlocked(e) && forall r :: 0 <= r < |e.flying| ==> e.flying[r] == 0
    ensures var e := After(Init(threads, rings), run);
      var rest := [Act(t, LockToFinalize)] + Finalizing(t, |e.inflight|);
      && Runs(e, rest) && After(e, rest) == Freed(e, t)
      && !After(e, rest).tableLive && !After(e, rest).registered && !After(e, rest).unregPending
  {
    FromStart(threads, rings, run);
    var e := After(Init(threads, rings), run);
    NoneInFlight(e);
    assert forall u {:trigger e.threads[u]} :: 0 <= u < |e.threads| ==> !e.threads[u].Clearing?;
    assert !HoldsRead(e.threads[t]) && !HoldsWrite(e.threads[t]);
    var e' := Apply(e, t, LockToFinalize);
    assert Freed(e', t) == Freed(e, t);
    Sums(e', t, |e.inflight|);
    hide Runs, After, Enabled, Apply, Inv;
    Prepend(e, Act(t, LockToFinalize), e', Finalizing(t, |e.inflight|));
  }
}
