/** The life of a request on one ring, as a state machine whose steps are the
    critical sections of the ring and the moves of the kernel. Threads may
    interleave the steps in any order; a callback is a point after which any
    steps may follow, so callbacks that submit again are included.

    A request is identified by a tag that is new each time a slot is acquired. */
module RingMachine {

  /** Where a slot is: in the free stack, with a submitter that has no SQE yet,
      in the submission queue, in the kernel, in the completion queue, copied
      out by a drainer, or handled and waiting to be returned. */
  datatype Place = Free | Acquired | Queued | InKernel | Posted | Taken | Retiring

  datatype Slot = Slot(inPool: bool, pending: bool, hasCallback: bool, tag: nat, place: Place)

  datatype Ring = Ring(
    slots: seq<Slot>,
    free: seq<nat>,           // free_request_stack, top last
    sq: seq<nat>,             // SQEs the kernel has not consumed
    cq: seq<nat>,             // CQEs not yet seen
    queuedSqes: int,
    pendingCount: int,
    nextTag: nat,
    accepted: set<nat>,       // tags of the requests accepted for submission
    wanted: set<nat>,         // those with a callback
    called: multiset<nat>)    // callbacks made, by tag

  function Init(max: nat): Ring
  {
    Ring(seq(max, i => Slot(true, false, false, 0, Free)), seq(max, i => i), [], [], 0, 0, 1, {}, {}, multiset{})
  }

  // --------------------------------------------------------------------- steps

  datatype Step =
    | Get
    | Submit(idx: nat, hasCallback: bool)
    | Abort(idx: nat)
    | Flush(submitted: nat)
    | Complete(idx: nat)
    | Take
    | Process(idx: nat)
    | Retire(batch: seq<nat>)

  ghost predicate Is(r: Ring, i: nat, p: Place)
  {
    i < |r.slots| && r.slots[i].place == p
  }

  ghost predicate Distinct(q: seq<nat>)
  {
    forall i, j :: 0 <= i < j < |q| ==> q[i] != q[j]
  }

  /** What the surroundings guarantee when a step is taken: a submitter uses the
      slot it acquired, the kernel consumes SQEs in order and posts one CQE for
      each, a drainer handles the CQEs it took and retires what it handled. A
      further CQE for a request that is not pending may be handled at any time. */
  ghost predicate Enabled(r: Ring, step: Step)
  {
    match step
    case Get => r.free != []
    case Submit(i, _) => Is(r, i, Acquired)
    case Abort(i) => Is(r, i, Acquired)
    case Flush(k) => r.queuedSqes != 0 && k <= |r.sq|
    case Complete(i) => Is(r, i, InKernel)
    case Take => r.cq != []
    case Process(i) => i < |r.slots| && (r.slots[i].pending ==> Is(r, i, Taken))
    case Retire(b) => Distinct(b) && forall i :: 0 <= i < |b| ==> Is(r, b[i], Retiring)
  }

  function Move(r: Ring, i: nat, p: Place): Ring
  {
    if i < |r.slots| then r.(slots := r.slots[i := r.slots[i].(place := p)]) else r
  }

  function GetSlot(r: Ring): Ring
    requires r.free != []
  {
    var n := |r.free| - 1;
    var i := r.free[n];
    if i < |r.slots| then
      r.(free := r.free[..n], nextTag := r.nextTag + 1,
         slots := r.slots[i := Slot(false, false, r.slots[i].hasCallback, r.nextTag, Acquired)])
    else r
  }

  /** `ring_put_request`, with its guards against double return. */
  function PutSlot(r: Ring, i: nat): (r': Ring)
    ensures |r'.slots| == |r.slots|
  {
    if i >= |r.slots| || r.slots[i].inPool || r.slots[i].pending then r
    else r.(free := r.free + [i], slots := r.slots[i := r.slots[i].(inPool := true, place := Free)])
  }

  function PutAll(r: Ring, b: seq<nat>): (r': Ring)
    ensures |r'.slots| == |r.slots|
    decreases |b|
  {
    if b == [] then r else PutSlot(PutAll(r, b[..|b| - 1]), b[|b| - 1])
  }

  /** `data_finish` and `meta_finish`: the SQE is in the queue. */
  function Finish(r: Ring, i: nat, cb: bool): Ring
    requires i < |r.slots|
  {
    var s := r.slots[i].(pending := true, hasCallback := cb, place := Queued);
    r.(slots := r.slots[i := s], sq := r.sq + [i],
       queuedSqes := r.queuedSqes + 1, pendingCount := r.pendingCount + 1,
       accepted := r.accepted + {s.tag}, wanted := if cb then r.wanted + {s.tag} else r.wanted)
  }

  function Min(a: int, b: int): int
  {
    if a < b then a else b
  }

  /** The kernel consumes the first `k` SQEs. */
  function Consume(r: Ring, k: nat): (r': Ring)
    requires k <= |r.sq|
    ensures r'.sq == r.sq[k..] && |r'.slots| == |r.slots|
    decreases k
  {
    if k == 0 then r
    else
      var r1 := Consume(r, k - 1);
      Move(r1, r1.sq[0], InKernel).(sq := r1.sq[1..])
  }

  /** `process_completion`: a completion whose request is not pending is dropped. */
  function Handle(r: Ring, i: nat): Ring
    requires i < |r.slots|
  {
    var s := r.slots[i];
    if !s.pending then r
    else r.(slots := r.slots[i := s.(pending := false, place := Retiring)],
            called := if s.hasCallback then r.called + multiset{s.tag} else r.called)
  }

  function Apply(r: Ring, step: Step): Ring
    requires Enabled(r, step)
  {
    match step
    case Get => GetSlot(r)
    case Submit(i, cb) => Finish(r, i, cb)
    case Abort(i) => PutSlot(r, i)
    case Flush(k) => Consume(r, k).(queuedSqes := r.queuedSqes - Min(k, r.queuedSqes))
    case Complete(i) => Move(r, i, Posted).(cq := r.cq + [i])
    case Take => Move(r, r.cq[0], Taken).(cq := r.cq[1..])
    case Process(i) => Handle(r, i)
    case Retire(b) => PutAll(r, b).(pendingCount := r.pendingCount - |b|)
  }

  // ----------------------------------------------------------------- invariant

  predicate Flying(p: Place)
  {
    p == Queued || p == InKernel || p == Posted || p == Taken
  }

  /** `q` lists the slots that are at `p`, each once. */
  ghost predicate Lists(q: seq<nat>, slots: seq<Slot>, p: Place)
  {
    && Distinct(q)
    && (forall k {:trigger q[k]} :: 0 <= k < |q| ==> q[k] < |slots| && slots[q[k]].place == p)
    && (forall i {:trigger slots[i]} :: 0 <= i < |slots| && slots[i].place == p ==> i in q)
  }

  ghost predicate FlagsMatch(slots: seq<Slot>)
  {
    forall i {:trigger slots[i]} :: 0 <= i < |slots| ==>
      (slots[i].inPool <==> slots[i].place == Free) && (slots[i].pending <==> Flying(slots[i].place))
  }

  /** Number of slots that count as pending: accepted and not yet returned. */
  ghost function Busy(slots: seq<Slot>): nat
  {
    if slots == [] then 0
    else Busy(slots[..|slots| - 1]) + var p := slots[|slots| - 1].place; if Flying(p) || p == Retiring then 1 else 0
  }

  ghost function Number(slots: seq<Slot>, p: Place): nat
  {
    if slots == [] then 0
    else Number(slots[..|slots| - 1], p) + if slots[|slots| - 1].place == p then 1 else 0
  }

  /** The counters, up to what a step under way has still to subtract. */
  ghost predicate Counted(r: Ring, queued: int, pending: int)
  {
    && r.queuedSqes == |r.sq| + queued
    && r.pendingCount == Busy(r.slots) + pending
    && |r.free| == Number(r.slots, Free)
  }

  /** The tags of slots that have been used are distinct (0 marks a slot never
      used), and accepted exactly from submission on. */
  ghost predicate Tagged(r: Ring)
  {
    && (forall i {:trigger r.slots[i]} :: 0 <= i < |r.slots| ==>
          && r.slots[i].tag < r.nextTag
          && (r.slots[i].tag == 0 ==> r.slots[i].place == Free)
          && (r.slots[i].place == Acquired ==> r.slots[i].tag !in r.accepted)
          && (r.slots[i].pending ==> r.slots[i].tag in r.accepted && (r.slots[i].hasCallback <==> r.slots[i].tag in r.wanted)))
    && (forall i, j {:trigger r.slots[i], r.slots[j]} :: 0 <= i < j < |r.slots| && r.slots[i].tag != 0 ==>
          r.slots[i].tag != r.slots[j].tag)
    && (forall t {:trigger t in r.accepted} :: t in r.accepted ==> 0 < t < r.nextTag)
    && r.wanted <= r.accepted
  }

  ghost predicate Pending(slots: seq<Slot>, t: nat)
  {
    exists i {:trigger slots[i]} :: 0 <= i < |slots| && slots[i].pending && slots[i].tag == t
  }

  /** A request that wants a callback has had it, once, exactly when it is no
      longer pending; no other callback is made. */
  ghost predicate CalledOnce(r: Ring)
  {
    forall t: nat {:trigger r.called[t]} :: r.called[t] == if t in r.wanted && !Pending(r.slots, t) then 1 else 0
  }

  ghost predicate Sound(r: Ring)
  {
    && Lists(r.free, r.slots, Free) && Lists(r.sq, r.slots, Queued) && Lists(r.cq, r.slots, Posted)
    && FlagsMatch(r.slots) && Tagged(r) && CalledOnce(r)
  }

  ghost predicate Inv(r: Ring)
  {
    Sound(r) && Counted(r, 0, 0)
  }

  // ---------------------------------------------- changing the place of one slot

  lemma {:induction false} BusyUpdate(slots: seq<Slot>, i: nat, s: Slot)
    requires i < |slots|
    ensures Busy(slots[i := s]) == Busy(slots)
      + (if Flying(s.place) || s.place == Retiring then 1 else 0)
      - (if Flying(slots[i].place) || slots[i].place == Retiring then 1 else 0)
  {
    var n := |slots| - 1;
    if i == n {
      assert slots[i := s][..n] == slots[..n];
    } else {
      assert slots[i := s][..n] == slots[..n][i := s];
      BusyUpdate(slots[..n], i, s);
    }
  }

  lemma {:induction false} NumberUpdate(slots: seq<Slot>, p: Place, i: nat, s: Slot)
    requires i < |slots|
    ensures Number(slots[i := s], p) == Number(slots, p)
      + (if s.place == p then 1 else 0) - (if slots[i].place == p then 1 else 0)
  {
    var n := |slots| - 1;
    if i == n {
      assert slots[i := s][..n] == slots[..n];
    } else {
      assert slots[i := s][..n] == slots[..n][i := s];
      NumberUpdate(slots[..n], p, i, s);
    }
  }

  lemma ListsSame(q: seq<nat>, slots: seq<Slot>, p: Place, i: nat, s: Slot)
    requires Lists(q, slots, p) && i < |slots|
    requires slots[i].place != p && s.place != p
    ensures Lists(q, slots[i := s], p)
  {
  }

  lemma ListsPush(q: seq<nat>, slots: seq<Slot>, p: Place, i: nat, s: Slot)
    requires Lists(q, slots, p) && i < |slots|
    requires slots[i].place != p && s.place == p
    ensures Lists(q + [i], slots[i := s], p)
  {
    var u := slots[i := s];
    forall j | 0 <= j < |u| && u[j].place == p
      ensures j in q + [i]
    {
      if j != i {
        assert slots[j].place == p;
      }
    }
  }

  lemma ListsPop(q: seq<nat>, slots: seq<Slot>, p: Place, s: Slot)
    requires Lists(q, slots, p) && q != [] && s.place != p
    ensures q[0] < |slots| && slots[q[0]].place == p
    ensures Lists(q[1..], slots[q[0] := s], p)
  {
    var u := slots[q[0] := s];
    assert q[0] < |slots|;
    forall j | 0 <= j < |u| && u[j].place == p
      ensures j in q[1..]
    {
      assert slots[j].place == p;
      var k :| 0 <= k < |q| && q[k] == j;
      assert q[1..][k - 1] == j;
    }
  }

  lemma ListsPopTop(q: seq<nat>, slots: seq<Slot>, p: Place, s: Slot)
    requires Lists(q, slots, p) && q != [] && s.place != p
    ensures var n := |q| - 1;
      q[n] < |slots| && slots[q[n]].place == p && Lists(q[..n], slots[q[n] := s], p)
  {
    var n := |q| - 1;
    assert q[n] < |slots|;
    var u := slots[q[n] := s];
    forall j | 0 <= j < |u| && u[j].place == p
      ensures j in q[..n]
    {
      assert slots[j].place == p;
      var k :| 0 <= k < |q| && q[k] == j;
      assert q[..n][k] == j;
    }
  }

  lemma PendingUpdate(slots: seq<Slot>, i: nat, s: Slot, t: nat)
    requires i < |slots|
    ensures Pending(slots[i := s], t) <==>
      (s.pending && s.tag == t) || exists j {:trigger slots[j]} :: 0 <= j < |slots| && j != i && slots[j].pending && slots[j].tag == t
  {
    var u := slots[i := s];
    if s.pending && s.tag == t {
      assert u[i].pending;
    } else if exists j {:trigger slots[j]} :: 0 <= j < |slots| && j != i && slots[j].pending && slots[j].tag == t {
      var j :| 0 <= j < |slots| && j != i && slots[j].pending && slots[j].tag == t;
      assert u[j].pending;
    }
  }

  /** Moving a slot without touching its flags or tag. */
  lemma SamePending(slots: seq<Slot>, i: nat, s: Slot)
    requires i < |slots| && s.pending == slots[i].pending && (s.pending ==> s.tag == slots[i].tag)
    ensures forall t :: Pending(slots[i := s], t) <==> Pending(slots, t)
  {
    forall t
      ensures Pending(slots[i := s], t) <==> Pending(slots, t)
    {
      PendingUpdate(slots, i, s, t);
    }
  }

  // --------------------------------------------------- steps keep the invariant

  lemma GetKeeps(r: Ring)
    requires Inv(r) && r.free != []
    ensures Inv(GetSlot(r))
  {
    hide Lists, Busy, Number, Pending;
    var n := |r.free| - 1;
    var i := r.free[n];
    ListsPopTop(r.free, r.slots, Free, Slot(false, false, false, r.nextTag, Acquired));
    var s := Slot(false, false, r.slots[i].hasCallback, r.nextTag, Acquired);
    ListsPopTop(r.free, r.slots, Free, s);
    ListsSame(r.sq, r.slots, Queued, i, s);
    ListsSame(r.cq, r.slots, Posted, i, s);
    BusyUpdate(r.slots, i, s);
    NumberUpdate(r.slots, Free, i, s);
    SamePending(r.slots, i, s);
  }

  lemma FinishKeeps(r: Ring, i: nat, cb: bool)
    requires Inv(r) && Is(r, i, Acquired)
    ensures Inv(Finish(r, i, cb))
  {
    hide Lists, Busy, Number, Pending;
    var s := r.slots[i].(pending := true, hasCallback := cb, place := Queued);
    ListsSame(r.free, r.slots, Free, i, s);
    ListsPush(r.sq, r.slots, Queued, i, s);
    ListsSame(r.cq, r.slots, Posted, i, s);
    BusyUpdate(r.slots, i, s);
    NumberUpdate(r.slots, Free, i, s);
    NotYetCalled(r, i);
    var r' := Finish(r, i, cb);
    assert r'.slots == r.slots[i := s] && r.slots[i := r.slots[i]] == r.slots;
    forall t: nat
      ensures r'.called[t] == if t in r'.wanted && !Pending(r'.slots, t) then 1 else 0
    {
      PendingUpdate(r.slots, i, s, t);
      PendingUpdate(r.slots, i, r.slots[i], t);
    }
  }

  /** The tag of an acquired slot is not pending, wanted or called. */
  lemma NotYetCalled(r: Ring, i: nat)
    requires Sound(r) && Is(r, i, Acquired)
    ensures r.slots[i].tag !in r.wanted && r.called[r.slots[i].tag] == 0
  {
  }

  lemma PutBack(r: Ring, i: nat)
    requires Sound(r) && |r.free| == Number(r.slots, Free)
    requires Is(r, i, Acquired) || Is(r, i, Retiring)
    ensures var r' := PutSlot(r, i);
      && r' == r.(free := r.free + [i], slots := r.slots[i := r.slots[i].(inPool := true, place := Free)])
      && Sound(r') && |r'.free| == Number(r'.slots, Free)
      && Busy(r'.slots) == Busy(r.slots) - if r.slots[i].place == Retiring then 1 else 0
  {
    hide Lists, Busy, Number, Pending;
    var s := r.slots[i].(inPool := true, place := Free);
    ListsPush(r.free, r.slots, Free, i, s);
    ListsSame(r.sq, r.slots, Queued, i, s);
    ListsSame(r.cq, r.slots, Posted, i, s);
    BusyUpdate(r.slots, i, s);
    NumberUpdate(r.slots, Free, i, s);
    SamePending(r.slots, i, s);
  }

  lemma LeftAlone(r: Ring, i: nat)
    requires FlagsMatch(r.slots) && !Is(r, i, Acquired) && !Is(r, i, Retiring)
    ensures PutSlot(r, i) == r
  {
  }

  /** Returning a slot: a slot in the pool or pending is left alone, and any other
      goes back. */
  lemma PutKeeps(r: Ring, i: nat)
    requires Sound(r) && |r.free| == Number(r.slots, Free)
    ensures var r' := PutSlot(r, i);
      && r' == (if Is(r, i, Acquired) || Is(r, i, Retiring)
                then r.(free := r.free + [i], slots := r.slots[i := r.slots[i].(inPool := true, place := Free)]) else r)
      && Sound(r') && |r'.free| == Number(r'.slots, Free)
      && Busy(r'.slots) == Busy(r.slots) - if Is(r, i, Retiring) then 1 else 0
  {
    hide Lists, Busy, Number, Pending, Tagged, CalledOnce, PutSlot, FlagsMatch;
    if Is(r, i, Acquired) || Is(r, i, Retiring) { PutBack(r, i); } else { LeftAlone(r, i); }
  }

  lemma {:induction false} PutAllKeeps(r: Ring, b: seq<nat>)
    requires Inv(r) && Enabled(r, Retire(b))
    ensures var r' := PutAll(r, b);
      && Sound(r') && |r'.free| == Number(r'.slots, Free)
      && r'.free == r.free + b
      && r' == r.(free := r'.free, slots := r'.slots)
      && Busy(r'.slots) == Busy(r.slots) - |b|
      && (forall i :: 0 <= i < |r.slots| && i !in b ==> r'.slots[i] == r.slots[i])
    decreases |b|
  {
    hide Sound, PutSlot, Busy, Number;
    if b == [] {
      assert r.free + b == r.free;
    } else {
      var n := |b| - 1;
      var c := b[..n];
      PutAllKeeps(r, c);
      assert b[n] !in c;
      assert Is(r, b[n], Retiring);
      PutKeeps(PutAll(r, c), b[n]);
      assert b == c + [b[n]];
      assert r.free + b == r.free + c + [b[n]];
    }
  }

  lemma {:induction false} ConsumeKeeps(r: Ring, k: nat)
    requires Inv(r) && k <= |r.sq|
    ensures var r' := Consume(r, k);
      && Sound(r') && Counted(r', k, 0)
      && r' == r.(sq := r.sq[k..], slots := r'.slots)
    decreases k
  {
    if k != 0 {
      ConsumeKeeps(r, k - 1);
      ConsumeOne(Consume(r, k - 1), k - 1);
    }
  }

  lemma ConsumeOne(r: Ring, k: int)
    requires Sound(r) && Counted(r, k, 0) && r.sq != []
    ensures var r' := Move(r, r.sq[0], InKernel).(sq := r.sq[1..]);
      Sound(r') && Counted(r', k + 1, 0) && r' == r.(sq := r.sq[1..], slots := r'.slots)
  {
    hide Lists, Busy, Number, Pending;
    ListsPop(r.sq, r.slots, Queued, Slot(false, false, false, 0, InKernel));
    var i := r.sq[0];
    var s := r.slots[i].(place := InKernel);
    ListsPop(r.sq, r.slots, Queued, s);
    ListsSame(r.free, r.slots, Free, i, s);
    ListsSame(r.cq, r.slots, Posted, i, s);
    BusyUpdate(r.slots, i, s);
    NumberUpdate(r.slots, Free, i, s);
    SamePending(r.slots, i, s);
  }

  lemma CompleteKeeps(r: Ring, i: nat)
    requires Inv(r) && Is(r, i, InKernel)
    ensures Inv(Apply(r, Complete(i)))
  {
    hide Lists, Busy, Number, Pending;
    var s := r.slots[i].(place := Posted);
    ListsSame(r.free, r.slots, Free, i, s);
    ListsSame(r.sq, r.slots, Queued, i, s);
    ListsPush(r.cq, r.slots, Posted, i, s);
    BusyUpdate(r.slots, i, s);
    NumberUpdate(r.slots, Free, i, s);
    SamePending(r.slots, i, s);
  }

  lemma TakeKeeps(r: Ring)
    requires Inv(r) && r.cq != []
    ensures Inv(Apply(r, Take))
  {
    hide Lists, Busy, Number, Pending;
    ListsPop(r.cq, r.slots, Posted, Slot(false, false, false, 0, Taken));
    var i := r.cq[0];
    var s := r.slots[i].(place := Taken);
    ListsPop(r.cq, r.slots, Posted, s);
    ListsSame(r.free, r.slots, Free, i, s);
    ListsSame(r.sq, r.slots, Queued, i, s);
    BusyUpdate(r.slots, i, s);
    NumberUpdate(r.slots, Free, i, s);
    SamePending(r.slots, i, s);
  }

  /** Handling a completion: the callback that is made is the first for its
      request; a completion of a request that is not pending changes nothing. */
  lemma HandleKeeps(r: Ring, i: nat)
    requires Inv(r) && i < |r.slots| && (r.slots[i].pending ==> Is(r, i, Taken))
    ensures Inv(Handle(r, i)) && (Is(r, i, Taken) ==> r.slots[i].pending)
    ensures r.slots[i].pending ==> r.called[r.slots[i].tag] == 0 && Is(Handle(r, i), i, Retiring)
    ensures !r.slots[i].pending ==> Handle(r, i) == r
  {
    hide Lists, Busy, Number;
    if r.slots[i].pending {
      var s := r.slots[i].(pending := false, place := Retiring);
      var tag := s.tag;
      assert Pending(r.slots, tag);
      ListsSame(r.free, r.slots, Free, i, s);
      ListsSame(r.sq, r.slots, Queued, i, s);
      ListsSame(r.cq, r.slots, Posted, i, s);
      BusyUpdate(r.slots, i, s);
      NumberUpdate(r.slots, Free, i, s);
      forall t
        ensures Pending(r.slots[i := s], t) <==> t != tag && Pending(r.slots, t)
      {
        PendingUpdate(r.slots, i, s, t);
        PendingUpdate(r.slots, i, r.slots[i], t);
        assert r.slots[i := r.slots[i]] == r.slots;
      }
    }
  }

  lemma AbortKeeps(r: Ring, i: nat)
    requires Inv(r) && Enabled(r, Abort(i))
    ensures Inv(Apply(r, Abort(i)))
  {
    PutKeeps(r, i);
  }

  lemma FlushKeeps(r: Ring, k: nat)
    requires Inv(r) && Enabled(r, Flush(k))
    ensures Inv(Apply(r, Flush(k)))
  {
    hide Lists, FlagsMatch, Busy, Number, Pending;
    ConsumeKeeps(r, k);
  }

  lemma RetireKeeps(r: Ring, b: seq<nat>)
    requires Inv(r) && Enabled(r, Retire(b))
    ensures Inv(Apply(r, Retire(b)))
  {
    hide Lists, FlagsMatch, Busy, Number, Pending;
    PutAllKeeps(r, b);
  }

  lemma StepKeeps(r: Ring, step: Step)
    requires Inv(r) && Enabled(r, step)
    ensures Inv(Apply(r, step))
  {
    hide Inv;
    match step
    case Get => GetKeeps(r);
    case Submit(i, cb) => FinishKeeps(r, i, cb);
    case Abort(i) => AbortKeeps(r, i);
    case Flush(k) => FlushKeeps(r, k);
    case Complete(i) => CompleteKeeps(r, i);
    case Take => TakeKeeps(r);
    case Process(i) => HandleKeeps(r, i);
    case Retire(b) => RetireKeeps(r, b);
  }

  // ----------------------------------------------------------------- whole runs

  /** Every step of the run is enabled where it is taken. */
  ghost predicate Runs(r: Ring, steps: seq<Step>)
    decreases steps
  {
    steps == [] || (Enabled(r, steps[0]) && Runs(Apply(r, steps[0]), steps[1..]))
  }

  ghost function After(r: Ring, steps: seq<Step>): Ring
    requires Runs(r, steps)
    decreases steps
  {
    if steps == [] then r else After(Apply(r, steps[0]), steps[1..])
  }

  lemma {:induction false} InitCounts(max: nat)
    ensures Number(Init(max).slots, Free) == max && Busy(Init(max).slots) == 0
  {
    if max > 0 {
      InitCounts(max - 1);
      assert Init(max).slots[..max - 1] == Init(max - 1).slots;
    }
  }

  lemma InitKeeps(max: nat)
    ensures Inv(Init(max))
  {
    InitCounts(max);
    var r := Init(max);
    assert forall i {:trigger r.slots[i]} :: 0 <= i < max ==> r.free[i] == i;
  }

  lemma {:induction false} RunKeeps(r: Ring, steps: seq<Step>)
    requires Inv(r) && Runs(r, steps)
    ensures Inv(After(r, steps))
    decreases steps
  {
    if steps != [] {
      StepKeeps(r, steps[0]);
      RunKeeps(Apply(r, steps[0]), steps[1..]);
    }
  }

  lemma {:induction false} SlotsCount(slots: seq<Slot>)
    ensures Number(slots, Free) + Number(slots, Acquired) + Busy(slots) == |slots|
  {
    if slots != [] {
      SlotsCount(slots[..|slots| - 1]);
    }
  }

  /** Slots are conserved over every run: those in the free stack, those a
      submitter holds, and those the pending counter counts are all of them;
      the queue counter is the number of SQEs the kernel has not consumed. */
  lemma SlotsConserved(max: nat, steps: seq<Step>)
    requires Runs(Init(max), steps)
    ensures var r := After(Init(max), steps);
      && |r.free| + Number(r.slots, Acquired) + r.pendingCount == |r.slots|
      && r.queuedSqes == |r.sq|
      && Distinct(r.free)
      && forall i: nat :: i in r.free <==> i < |r.slots| && r.slots[i].inPool
  {
    InitKeeps(max);
    RunKeeps(Init(max), steps);
    SlotsCount(After(Init(max), steps).slots);
  }

  lemma {:induction false} BusyAll(slots: seq<Slot>, i: nat)
    requires Busy(slots) == 0 && i < |slots|
    ensures !Flying(slots[i].place) && slots[i].place != Retiring
  {
    if i < |slots| - 1 {
      BusyAll(slots[..|slots| - 1], i);
    }
  }

  /** The tags of the requests that are submitted during a run. */
  ghost function SubmittedBy(r: Ring, steps: seq<Step>): set<nat>
    requires Runs(r, steps)
    decreases steps
  {
    if steps == [] then {}
    else (if steps[0].Submit? then {r.slots[steps[0].idx].tag} else {}) + SubmittedBy(Apply(r, steps[0]), steps[1..])
  }

  /** Of these, the ones submitted with a callback. */
  ghost function AskedBy(r: Ring, steps: seq<Step>): set<nat>
    requires Runs(r, steps)
    decreases steps
  {
    if steps == [] then {}
    else (if Asks(steps[0]) then {r.slots[steps[0].idx].tag} else {}) + AskedBy(Apply(r, steps[0]), steps[1..])
  }

  predicate Asks(step: Step)
  {
    step.Submit? && step.hasCallback
  }

  ghost function Asking(steps: seq<Step>): nat
  {
    if steps == [] then 0 else (if Asks(steps[0]) then 1 else 0) + Asking(steps[1..])
  }

  lemma StepRecords(r: Ring, step: Step)
    requires Inv(r) && Enabled(r, step)
    ensures var r' := Apply(r, step);
      && r'.accepted == r.accepted + (if step.Submit? then {r.slots[step.idx].tag} else {})
      && r'.wanted == r.wanted + (if Asks(step) then {r.slots[step.idx].tag} else {})
    ensures step.Submit? ==> r.slots[step.idx].tag !in r.accepted
    ensures r.wanted <= r.accepted
  {
    hide Lists, Busy, Number, CalledOnce;
    match step
    case Flush(k) => ConsumeNonePends(r, k);
    case Retire(b) => PutAllNonePends(r, b);
    case _ =>
  }

  /** What the ring remembers of its submissions is what was submitted. */
  lemma {:induction false} RunRecords(r: Ring, steps: seq<Step>)
    requires Inv(r) && Runs(r, steps)
    ensures After(r, steps).accepted == r.accepted + SubmittedBy(r, steps)
    ensures After(r, steps).wanted == r.wanted + AskedBy(r, steps)
    decreases steps
  {
    hide Inv, Enabled, Apply, Asks;
    if steps != [] {
      StepKeeps(r, steps[0]);
      StepRecords(r, steps[0]);
      RunRecords(Apply(r, steps[0]), steps[1..]);
    }
  }

  /** No two submissions have the same tag. */
  lemma {:induction false} AsksAreDistinct(r: Ring, steps: seq<Step>)
    requires Inv(r) && Runs(r, steps)
    ensures AskedBy(r, steps) !! r.accepted && |AskedBy(r, steps)| == Asking(steps)
    decreases steps
  {
    hide Inv, Enabled, Apply, Asks;
    if steps != [] {
      StepKeeps(r, steps[0]);
      StepRecords(r, steps[0]);
      var rest := AskedBy(Apply(r, steps[0]), steps[1..]);
      AsksAreDistinct(Apply(r, steps[0]), steps[1..]);
      if Asks(steps[0]) {
        AsksIs(r, steps[0]);
        OneMoreTag(r.slots[steps[0].idx].tag, rest);
      }
    }
  }

  lemma OneMoreTag(t: nat, rest: set<nat>)
    requires t !in rest
    ensures |{t} + rest| == 1 + |rest|
  {
  }

  lemma AsksIs(r: Ring, step: Step)
    requires Enabled(r, step) && Asks(step)
    ensures step.Submit? && step.idx < |r.slots|
  {
  }

  /** Over every run: no callback is made twice or for a request that did not
      ask for it; by the time a slot can be handed out again the request it carried
      has had its callback; and when nothing is pending every request has, and
      there have been as many callbacks as submissions that asked for one. */
  lemma CallbacksExactlyOnce(max: nat, steps: seq<Step>)
    requires Runs(Init(max), steps)
    ensures var r, asked := After(Init(max), steps), AskedBy(Init(max), steps);
      && (forall t: nat :: r.called[t] <= 1 && (t !in asked ==> r.called[t] == 0))
      && (forall i: nat {:trigger i in r.free} :: i in r.free ==>
            i < |r.slots| && (r.slots[i].tag in asked ==> r.called[r.slots[i].tag] == 1))
      && (r.pendingCount == 0 ==> (forall t :: t in asked ==> r.called[t] == 1) && |r.called| == Asking(steps))
  {
    InitKeeps(max);
    RunKeeps(Init(max), steps);
    RunRecords(Init(max), steps);
    AsksAreDistinct(Init(max), steps);
    var r, asked := After(Init(max), steps), AskedBy(Init(max), steps);
    assert r.wanted == asked;
    CalledOnceIs(r);
    FreeIsCalled(r);
    if r.pendingCount == 0 {
      IdleIsCalled(r);
      assert r.called == multiset(asked);
    }
  }

  lemma CalledOnceIs(r: Ring)
    requires Inv(r)
    ensures forall t: nat :: r.called[t] <= 1 && (t !in r.wanted ==> r.called[t] == 0)
  {
  }

  lemma IdleIsCalled(r: Ring)
    requires Inv(r) && r.pendingCount == 0
    ensures forall t :: t in r.wanted ==> r.called[t] == 1
  {
    forall t | t in r.wanted
      ensures r.called[t] == 1
    {
      if Pending(r.slots, t) {
        var i :| 0 <= i < |r.slots| && r.slots[i].pending && r.slots[i].tag == t;
        BusyAll(r.slots, i);
      }
    }
  }

  /** The requests that last used the free slots are not pending. */
  lemma FreeIsCalled(r: Ring)
    requires Inv(r)
    ensures forall i: nat {:trigger i in r.free} :: i in r.free ==>
      i < |r.slots| && (r.slots[i].tag in r.wanted ==> r.called[r.slots[i].tag] == 1)
  {
    forall i: nat | i in r.free
      ensures i < |r.slots| && (r.slots[i].tag in r.wanted ==> r.called[r.slots[i].tag] == 1)
    {
      NotPendingInPool(r, i);
    }
  }

  lemma NotPendingInPool(r: Ring, i: nat)
    requires Inv(r) && i in r.free
    ensures i < |r.slots| && (r.slots[i].tag in r.wanted ==> r.called[r.slots[i].tag] == 1)
  {
    var k :| 0 <= k < |r.free| && r.free[k] == i;
    assert r.slots[i].place == Free;
    var t := r.slots[i].tag;
    hide Lists, Busy, Number;
  }

  // -------------------------------------------------------- what stays settled

  /** Accepted requests stay accepted with the callback they asked for, and one
      that is no longer pending never is again. */
  ghost predicate Settles(r: Ring, r': Ring)
  {
    forall t {:trigger t in r.accepted} :: t in r.accepted ==>
      t in r'.accepted && (t in r'.wanted <==> t in r.wanted) && (Pending(r'.slots, t) ==> Pending(r.slots, t))
  }

  /** No slot becomes pending, and none changes its tag. */
  ghost predicate NonePends(slots: seq<Slot>, slots': seq<Slot>)
  {
    |slots'| == |slots| && forall i {:trigger slots'[i]} :: 0 <= i < |slots| ==>
      (slots'[i].pending ==> slots[i].pending) && slots'[i].tag == slots[i].tag
  }

  lemma NonePendsSettles(r: Ring, r': Ring)
    requires NonePends(r.slots, r'.slots) && r'.accepted == r.accepted && r'.wanted == r.wanted
    ensures Settles(r, r')
  {
    forall t | Pending(r'.slots, t)
      ensures Pending(r.slots, t)
    {
      var i :| 0 <= i < |r'.slots| && r'.slots[i].pending && r'.slots[i].tag == t;
      assert r.slots[i].pending;
    }
  }

  lemma {:induction false} ConsumeNonePends(r: Ring, k: nat)
    requires k <= |r.sq|
    ensures NonePends(r.slots, Consume(r, k).slots)
    ensures Consume(r, k).accepted == r.accepted && Consume(r, k).wanted == r.wanted
  {
    if k > 0 {
      ConsumeNonePends(r, k - 1);
    }
  }

  lemma {:induction false} PutAllNonePends(r: Ring, b: seq<nat>)
    ensures NonePends(r.slots, PutAll(r, b).slots)
    ensures PutAll(r, b).accepted == r.accepted && PutAll(r, b).wanted == r.wanted
    decreases |b|
  {
    if b != [] {
      PutAllNonePends(r, b[..|b| - 1]);
    }
  }

  lemma StepSettles(r: Ring, step: Step)
    requires Inv(r) && Enabled(r, step)
    ensures Settles(r, Apply(r, step))
  {
    hide Lists, Busy, Number, CalledOnce;
    var r' := Apply(r, step);
    match step
    case Get =>
      GetSettles(r);
    case Submit(i, cb) =>
      forall t | t in r.accepted && Pending(r'.slots, t)
        ensures Pending(r.slots, t)
      {
        var j :| 0 <= j < |r'.slots| && r'.slots[j].pending && r'.slots[j].tag == t;
        assert r.slots[j].tag == t;
        assert r.slots[j].pending;
      }
    case Flush(k) =>
      ConsumeNonePends(r, k);
      NonePendsSettles(r, r');
    case Retire(b) =>
      PutAllNonePends(r, b);
      NonePendsSettles(r, r');
    case _ =>
      NonePendsSettles(r, r');
  }

  lemma GetSettles(r: Ring)
    requires Inv(r) && r.free != []
    ensures Settles(r, GetSlot(r))
  {
    hide Lists, Busy, Number, CalledOnce;
    var r' := GetSlot(r);
    forall t | t in r.accepted && Pending(r'.slots, t)
      ensures Pending(r.slots, t)
    {
      var j :| 0 <= j < |r'.slots| && r'.slots[j].pending && r'.slots[j].tag == t;
      assert r.slots[j].pending && r.slots[j].tag == t;
    }
  }

  lemma SettlesJoins(r: Ring, r1: Ring, r2: Ring)
    requires Settles(r, r1) && Settles(r1, r2)
    ensures Settles(r, r2)
  {
  }

  /** Handling a completion ends the pendency of its request. */
  lemma HandledIsDone(r: Ring, i: nat)
    requires Inv(r) && Is(r, i, Taken)
    ensures !Pending(Handle(r, i).slots, r.slots[i].tag)
  {
    hide Lists, Busy, Number, CalledOnce;
  }

  // ------------------------------------------------- which completions were posted

  /** The tags of the requests whose completions the kernel posts during a run. */
  ghost function PostedBy(r: Ring, steps: seq<Step>): set<nat>
    requires Runs(r, steps)
    decreases steps
  {
    if steps == [] then {}
    else (if steps[0].Complete? then {r.slots[steps[0].idx].tag} else {}) + PostedBy(Apply(r, steps[0]), steps[1..])
  }

  /** The kernel has posted the completion of this request. */
  ghost predicate PastKernel(r: Ring, t: nat)
  {
    && t in r.accepted
    && forall i {:trigger r.slots[i]} :: 0 <= i < |r.slots| && r.slots[i].pending && r.slots[i].tag == t ==>
         r.slots[i].place == Posted || r.slots[i].place == Taken
  }

  /** Slots that a step makes pending or moves on in the kernel are not those of
      requests past the kernel. */
  lemma {:induction false} ConsumePastKernel(r: Ring, k: nat, t: nat)
    requires Inv(r) && k <= |r.sq| && PastKernel(r, t)
    ensures PastKernel(Consume(r, k), t)
  {
    hide Inv, Sound, Counted;
    if k > 0 {
      ConsumePastKernel(r, k - 1, t);
      ConsumeKeeps(r, k - 1);
      NotQueued(Consume(r, k - 1), t);
    }
  }

  lemma NotQueued(r: Ring, t: nat)
    requires Sound(r) && r.sq != [] && PastKernel(r, t)
    ensures r.sq[0] < |r.slots| && r.slots[r.sq[0]].tag != t && r.slots[r.sq[0]].pending
  {
  }

  lemma {:induction false} PutAllPastKernel(r: Ring, b: seq<nat>, t: nat)
    requires PastKernel(r, t)
    ensures PastKernel(PutAll(r, b), t)
    decreases |b|
  {
    if b != [] {
      PutAllPastKernel(r, b[..|b| - 1], t);
    }
  }

  /** A request past the kernel stays so, and no second completion is posted for it. */
  lemma StepPastKernel(r: Ring, step: Step, t: nat)
    requires Inv(r) && Enabled(r, step) && PastKernel(r, t)
    ensures PastKernel(Apply(r, step), t)
    ensures step.Complete? ==> r.slots[step.idx].tag != t
  {
    hide Lists, Busy, Number, CalledOnce;
    match step
    case Flush(k) => ConsumePastKernel(r, k, t);
    case Retire(b) => PutAllPastKernel(r, b, t);
    case _ =>
  }

  lemma CompletePassesKernel(r: Ring, i: nat)
    requires Inv(r) && Is(r, i, InKernel)
    ensures PastKernel(Apply(r, Complete(i)), r.slots[i].tag)
  {
    hide Lists, Busy, Number, CalledOnce;
  }

  lemma {:induction false} RunPastKernel(r: Ring, steps: seq<Step>, t: nat)
    requires Inv(r) && Runs(r, steps) && PastKernel(r, t)
    ensures PastKernel(After(r, steps), t) && t !in PostedBy(r, steps)
    decreases steps
  {
    hide Inv, Enabled, Apply, PastKernel;
    if steps != [] {
      StepKeeps(r, steps[0]);
      StepPastKernel(r, steps[0], t);
      RunPastKernel(Apply(r, steps[0]), steps[1..], t);
    }
  }

  lemma {:induction false} PostedIsPastKernel(r: Ring, steps: seq<Step>, t: nat)
    requires Inv(r) && Runs(r, steps) && t in PostedBy(r, steps)
    ensures PastKernel(After(r, steps), t)
    decreases steps
  {
    var s := Apply(r, steps[0]);
    assert steps[0].Complete? ==> Is(r, steps[0].idx, InKernel);
    hide Inv, Enabled, Apply, PastKernel;
    StepKeeps(r, steps[0]);
    if t in PostedBy(s, steps[1..]) {
      PostedIsPastKernel(s, steps[1..], t);
    } else {
      CompletePassesKernel(r, steps[0].idx);
      RunPastKernel(s, steps[1..], t);
    }
  }
}
