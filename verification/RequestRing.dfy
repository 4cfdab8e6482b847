/** The request pool and completion drain of one ring, in the form the engine
    runs them: arrays and counters updated in place. Each method is proved to
    take the step, or a run of steps, of the ring state machine. */
module RequestRing {
  import opened RingMachine

  lemma {:induction false} RunJoins(r: Ring, a: seq<Step>, b: seq<Step>)
    requires Runs(r, a) && Runs(After(r, a), b)
    ensures Runs(r, a + b) && After(r, a + b) == After(After(r, a), b)
    decreases a
  {
    if a == [] {
      assert a + b == b;
    } else {
      hide Apply, Enabled;
      RunJoins(Apply(r, a[0]), a[1..], b);
      assert (a + b)[1..] == a[1..] + b;
    }
  }

  /** A run and one more step. */
  lemma OneMore(r: Ring, a: seq<Step>, step: Step)
    requires Runs(r, a) && Enabled(After(r, a), step)
    ensures Runs(r, a + [step]) && After(r, a + [step]) == Apply(After(r, a), step)
  {
    assert [step][1..] == [];
    RunJoins(r, a, [step]);
  }

  class RequestRing {
    const maxRequests: nat
    const requests: array<Slot>
    const freeRequestStack: array<nat>
    var freeRequestCount: nat
    var queuedSqes: int
    var pendingCount: int
    var sq: seq<nat>              // shared with the kernel
    var cq: seq<int>              // shared too; negative for a CQE without a request
    var nextTag: nat
    ghost var accepted: set<nat>
    ghost var wanted: set<nat>
    ghost var called: multiset<nat>

    ghost predicate Shaped()
      reads this
    {
      requests.Length == freeRequestStack.Length == maxRequests && freeRequestCount <= maxRequests
    }

    ghost function View(): Ring
      requires Shaped()
      reads this, requests, freeRequestStack
    {
      Ring(requests[..], freeRequestStack[..freeRequestCount], sq, Real(cq), queuedSqes, pendingCount,
           nextTag, accepted, wanted, called)
    }

    ghost predicate Valid()
      reads this, requests, freeRequestStack
    {
      Shaped() && Inv(View())
    }

    constructor (max: nat)
      ensures Valid() && View() == Init(max)
      ensures fresh(requests) && fresh(freeRequestStack)
    {
      maxRequests := max;
      requests := new Slot[max](_ => Slot(true, false, false, 0, Free));
      freeRequestStack := new nat[max](i => i);
      freeRequestCount := max;
      queuedSqes, pendingCount, sq, cq := 0, 0, [], [];
      nextTag, accepted, wanted, called := 1, {}, {}, multiset{};
      new;
      InitKeeps(max);
      assert View().slots == Init(max).slots;
      assert View().free == Init(max).free;
    }

    /** Takes a slot from the pool; -1 when there is none. */
    method GetRequest() returns (idx: int)
      requires Valid()
      modifies this`freeRequestCount, this`nextTag, requests
      ensures Valid()
      ensures old(freeRequestCount) == 0 ==> idx == -1 && View() == old(View())
      ensures old(freeRequestCount) > 0 ==>
        0 <= idx < maxRequests && Is(View(), idx, Acquired) && View() == GetSlot(old(View()))
    {
      hide Inv;
      if freeRequestCount == 0 {
        return -1;
      }
      ghost var r := View();
      GetKeeps(r);
      TopIsSlot(r);
      freeRequestCount := freeRequestCount - 1;
      idx := freeRequestStack[freeRequestCount];
      assert r.free[|r.free| - 1] == idx;
      requests[idx] := Slot(false, false, requests[idx].hasCallback, nextTag, Acquired);
      nextTag := nextTag + 1;
      assert View().slots == GetSlot(r).slots;
      assert View().free == GetSlot(r).free;
    }

    /** Returns a slot to the pool, unless it is there already or still pending. */
    method PutRequest(opIdx: int)
      requires Shaped() && Sound(View()) && |View().free| == Number(View().slots, Free)
      modifies this`freeRequestCount, requests, freeRequestStack
      ensures Shaped()
      ensures View() == if opIdx < 0 then old(View()) else PutSlot(old(View()), opIdx)
    {
      hide Number, Lists, Tagged, CalledOnce;
      if opIdx < 0 || opIdx >= maxRequests {
        return;
      }
      if requests[opIdx].inPool || requests[opIdx].pending {
        return;
      }
      ghost var r := View();
      RoomOnStack(r, opIdx);
      requests[opIdx] := requests[opIdx].(inPool := true, place := Free);
      freeRequestStack[freeRequestCount] := opIdx;
      freeRequestCount := freeRequestCount + 1;
      assert View().slots == PutSlot(r, opIdx).slots;
      assert View().free == PutSlot(r, opIdx).free;
    }

    /** The end of a submission: the SQE is queued and the request pending. */
    method FinishSubmit(idx: nat, hasCallback: bool)
      requires Valid() && Is(View(), idx, Acquired)
      modifies this`sq, this`queuedSqes, this`pendingCount, this`accepted, this`wanted, requests
      ensures Valid() && View() == Finish(old(View()), idx, hasCallback)
      ensures idx < maxRequests && requests[idx].pending && requests[idx].hasCallback == hasCallback
      ensures sq == old(sq) + [idx] && accepted == old(accepted) + {requests[idx].tag}
      ensures wanted == old(wanted) + if hasCallback then {requests[idx].tag} else {}
    {
      hide Inv;
      ghost var r := View();
      FinishKeeps(r, idx, hasCallback);
      requests[idx] := requests[idx].(pending := true, hasCallback := hasCallback, place := Queued);
      sq := sq + [idx];
      accepted := accepted + {requests[idx].tag};
      wanted := if hasCallback then wanted + {requests[idx].tag} else wanted;
      queuedSqes := queuedSqes + 1;
      pendingCount := pendingCount + 1;
      assert View().slots == Finish(r, idx, hasCallback).slots;
    }

    /** Hands the queue to the kernel. `answer` is what the kernel says: a
        negative error, or how many SQEs it consumed. */
    method FlushQueue(answer: int) returns (submitted: int)
      requires Valid() && answer <= |sq|
      modifies this`sq, this`queuedSqes, requests
      ensures Valid()
      ensures old(queuedSqes) == 0 ==> submitted == 0 && View() == old(View())
      ensures old(queuedSqes) != 0 && answer < 0 ==> submitted == -1 && View() == old(View())
      ensures old(queuedSqes) != 0 && answer >= 0 ==> submitted == answer && View() == Apply(old(View()), Flush(answer))
    {
      hide Inv, Sound, Counted, Consume;
      var queued := queuedSqes;
      if queued == 0 {
        return 0;
      }
      if answer < 0 {
        return -1;
      }
      ghost var r := View();
      FlushKeeps(r, answer);
      ConsumeKeeps(r, answer);
      KernelConsumes(answer);
      if answer > 0 {
        var old_ := queuedSqes;
        var sub := if answer < old_ then answer else old_;
        queuedSqes := old_ - sub;
      }
      submitted := answer;
    }

    /** The kernel's side of a flush. */
    method KernelConsumes(k: nat)
      requires Shaped() && Inv(View()) && k <= |sq|
      modifies this`sq, requests
      ensures Shaped() && View() == Consume(old(View()), k)
    {
      ghost var r := View();
      for i := 0 to k
        invariant i <= |r.sq|
        invariant Shaped() && View() == Consume(r, i)
      {
        var head := sq[0];
        if head < maxRequests {
          requests[head] := requests[head].(place := InKernel);
        }
        sq := sq[1..];
        assert View().slots == Consume(r, i + 1).slots;
      }
    }

    /** The callback phase of one completion: returns the slot to retire, or -1
        for a completion without a request or of one that is not pending. */
    method ProcessCompletion(idx: int) returns (retire: int)
      requires Valid() && idx < maxRequests
      requires idx >= 0 && requests[idx].pending ==> Is(View(), idx, Taken)
      modifies this`called, requests
      ensures Valid()
      ensures retire == if idx >= 0 && old(requests[idx].pending) then idx else -1
      ensures View() == if idx >= 0 then Handle(old(View()), idx) else old(View())
    {
      hide Inv;
      ghost var r := View();
      if idx < 0 {
        return -1;
      }
      HandleKeeps(r, idx);
      if !requests[idx].pending {
        return -1;
      }
      requests[idx] := requests[idx].(pending := false, place := Retiring);
      if requests[idx].hasCallback {
        called := called + multiset{requests[idx].tag};
      }
      assert View().slots == Handle(r, idx).slots;
      return idx;
    }

    /** Returns the slots of a batch, skipping what has none, and lowers the
        pending counter once. */
    method RetireBatch(entries: seq<int>)
      requires Valid() && Enabled(View(), Retire(Real(entries)))
      modifies this`freeRequestCount, this`pendingCount, requests, freeRequestStack
      ensures Valid() && View() == Apply(old(View()), Retire(Real(entries)))
    {
      hide Sound, Number, Busy, Real, Apply, Enabled, PutAll, PutSlot, Lists;
      ghost var r, b := View(), Real(entries);
      RetireKeeps(r, b);
      RetireIs(r, b);
      RealOfNone();
      var pendingDelta := 0;
      for i := 0 to |entries|
        invariant pendingDelta == |Real(entries[..i])| <= |b| && b[..pendingDelta] == Real(entries[..i])
        invariant Shaped() && View() == PutAll(r, b[..pendingDelta])
      {
        RealAt(entries, i);
        if entries[i] >= 0 {
          PutPrefix(r, b, pendingDelta);
          PutRequest(entries[i]);
          pendingDelta := pendingDelta + 1;
        }
      }
      assert entries[..|entries|] == entries && b[..|b|] == b;
      pendingCount := pendingCount - pendingDelta;
    }

    // ------------------------------------------------------------- the drain

    /** What happens while a callback runs: it submits any number of times, finds a
        slot or not and succeeds or fails, and flushes with any answer; and the
        kernel posts completions, at most `posts` of them. */
    method RunCallback(posts: nat, ghost start: Ring, ghost before: seq<Step>) returns (left: nat, ghost steps: seq<Step>)
      requires Valid() && Runs(start, before) && After(start, before) == View()
      modifies this`freeRequestCount, this`nextTag, this`sq, this`cq, this`queuedSqes, this`pendingCount, this`accepted, this`wanted,
               requests, freeRequestStack
      ensures Valid() && Runs(start, steps) && After(start, steps) == View()
      ensures Undisturbed(old(View()), View()) && Settles(old(View()), View())
      ensures old(cq) <= cq && |cq| + left == |old(cq)| + posts
    {
      hide Inv, Apply, Enabled, After, Runs;
      hide Settles, Pending, Undisturbed;
      steps, left := before, posts;
      SettlesItself(View());
      UndisturbedItself(View());
      var count :| 0 <= count;
      for n := 0 to count
        invariant Valid() && Runs(start, steps) && After(start, steps) == View()
        invariant Undisturbed(old(View()), View()) && Settles(old(View()), View())
        invariant old(cq) <= cq && |cq| + left == |old(cq)| + posts
      {
        ghost var r := View();
        steps := SubmitOnce(start, steps);
        SettlesJoins(old(View()), r, View());
        UndisturbedJoins(old(View()), r, View());
        ghost var r1 := View();
        var answer: int := *;
        if answer <= |sq| {
          steps := FlushOnce(answer, start, steps);
          SettlesJoins(old(View()), r1, View());
          UndisturbedJoins(old(View()), r1, View());
        }
        ghost var r2 := View();
        if left > 0 {
          var idx: int := *;
          if idx < 0 || (idx < maxRequests && requests[idx].place == InKernel) {
            steps := KernelPosts(idx, start, steps);
            left := left - 1;
            SettlesJoins(old(View()), r2, View());
            UndisturbedJoins(old(View()), r2, View());
          }
        }
      }
    }

    /** The kernel posts the completion of an operation, or one without a request. */
    method KernelPosts(idx: int, ghost start: Ring, ghost before: seq<Step>) returns (ghost steps: seq<Step>)
      requires Valid() && Runs(start, before) && After(start, before) == View()
      requires idx < maxRequests && (idx >= 0 ==> requests[idx].place == InKernel)
      modifies this`cq, requests
      ensures Valid() && Runs(start, steps) && After(start, steps) == View()
      ensures Undisturbed(old(View()), View()) && Settles(old(View()), View())
      ensures cq == old(cq) + [idx]
    {
      hide Inv, After, Runs, Settles, Pending, Real;
      steps := before;
      ghost var r := View();
      SettlesItself(r);
      RealMore(cq, idx);
      if idx >= 0 {
        CompleteKeeps(r, idx);
        requests[idx] := requests[idx].(place := Posted);
        OneMore(start, steps, Complete(idx));
        StepSettles(r, Complete(idx));
        steps := steps + [Complete(idx)];
      }
      cq := cq + [idx];
      assert idx >= 0 ==> View() == Apply(r, Complete(idx)) by {
        if idx >= 0 { assert View().slots == Apply(r, Complete(idx)).slots; }
      }
      assert idx < 0 ==> View() == r;
    }

    method SubmitOnce(ghost start: Ring, ghost before: seq<Step>) returns (ghost steps: seq<Step>)
      requires Valid() && Runs(start, before) && After(start, before) == View()
      modifies this`freeRequestCount, this`nextTag, this`sq, this`queuedSqes, this`pendingCount, this`accepted, this`wanted,
               requests, freeRequestStack
      ensures Valid() && Runs(start, steps) && After(start, steps) == View()
      ensures Undisturbed(old(View()), View()) && Settles(old(View()), View())
    {
      hide Inv, After, Runs, Number, Settles, Pending, Undisturbed, Enabled, Apply, GetSlot, Finish, PutSlot, Sound;
      steps := before;
      ghost var r := View();
      SettlesItself(r);
      UndisturbedItself(r);
      HasFree();
      var idx := GetRequest();
      if idx >= 0 {
        GetUndisturbed(r);
        OneMore(start, steps, Get);
        StepSettles(r, Get);
        steps := steps + [Get];
        ghost var r1 := View();
        var ok: bool, cb: bool := *, *;
        if ok {
          FinishUndisturbed(r1, idx, cb);
          FinishSubmit(idx, cb);
          OneMore(start, steps, Submit(idx, cb));
          StepSettles(r1, Submit(idx, cb));
          steps := steps + [Submit(idx, cb)];
        } else {
          AbortUndisturbed(r1, idx);
          AbortKeeps(r1, idx);
          InvParts(r1);
          PutRequest(idx);
          OneMore(start, steps, Abort(idx));
          StepSettles(r1, Abort(idx));
          steps := steps + [Abort(idx)];
        }
        SettlesJoins(r, r1, View());
        UndisturbedJoins(r, r1, View());
      }
    }

    lemma HasFree()
      requires Shaped()
      ensures freeRequestCount > 0 <==> View().free != []
    {
    }

    method FlushOnce(answer: int, ghost start: Ring, ghost before: seq<Step>) returns (ghost steps: seq<Step>)
      requires Valid() && Runs(start, before) && After(start, before) == View() && answer <= |sq|
      modifies this`sq, this`queuedSqes, requests
      ensures Valid() && Runs(start, steps) && After(start, steps) == View()
      ensures Undisturbed(old(View()), View()) && Settles(old(View()), View())
    {
      hide Inv, After, Runs, Consume, Settles, Pending;
      steps := before;
      ghost var r := View();
      SettlesItself(r);
      var submitted := FlushQueue(answer);
      if r.queuedSqes != 0 && answer >= 0 {
        FlushUndisturbed(r, answer);
        OneMore(start, steps, Flush(answer));
        StepSettles(r, Flush(answer));
        steps := steps + [Flush(answer)];
      }
    }

    method TakeOne() returns (idx: int)
      requires Valid() && cq != []
      modifies this`cq, requests
      ensures Valid() && idx == old(cq)[0] && cq == old(cq)[1..]
      ensures idx < 0 ==> View() == old(View())
      ensures idx >= 0 ==> old(View()).cq != [] && old(View()).cq[0] == idx && View() == Apply(old(View()), Take)
    {
      hide Inv, Pending, Real;
      ghost var r := View();
      RealFirst(cq);
      idx := cq[0];
      if idx >= 0 {
        TakeKeeps(r);
        FirstPosted(r);
        requests[idx] := requests[idx].(place := Taken);
      }
      cq := cq[1..];
      assert idx >= 0 ==> View() == Apply(r, Take) by {
        if idx >= 0 { assert View().slots == Apply(r, Take).slots; }
      }
    }

    /** Copies CQEs out of the completion queue, at most `batchSize`. */
    method TakeBatch(batchSize: nat, ghost start: Ring, ghost before: seq<Step>) returns (batch: seq<int>, ghost steps: seq<Step>)
      requires Valid() && Runs(start, before) && After(start, before) == View()
      modifies this`cq, requests
      ensures Valid() && Runs(start, steps) && After(start, steps) == View()
      ensures Settles(old(View()), View())
      ensures old(cq) == batch + cq && (cq == [] || |batch| == batchSize)
      ensures TakenFrom(View(), Real(batch), 0)
      ensures SameTags(old(View()), View()) && TookOnly(old(View()), View(), Real(batch))
    {
      hide TookOnly, Inv, After, Runs, Settles, Pending, TakenFrom, SameTags, Apply, Move, Real;
      batch, steps := [], before;
      NoneTaken(View());
      TookNone(View());
      RealOfNone();
      ghost var r := View();
      SettlesItself(r);
      while |batch| < batchSize && cq != []
        invariant Valid() && Runs(start, steps) && After(start, steps) == View()
        invariant Settles(r, View())
        invariant old(cq) == batch + cq && |batch| <= batchSize
        invariant TakenFrom(View(), Real(batch), 0)
        invariant SameTags(r, View()) && TookOnly(r, View(), Real(batch))
        decreases |cq|
      {
        ghost var r1 := View();
        ghost var b := Real(batch);
        var idx := TakeOne();
        RealMore(batch, idx);
        batch := batch + [idx];
        if idx >= 0 {
          TakeExtends(r1, b);
          TookOneMore(r, r1, b);
          OneMore(start, steps, Take);
          StepSettles(r1, Take);
          SettlesJoins(r, r1, View());
          SameTagsJoin(r, r1, View());
          steps := steps + [Take];
        }
      }
    }

    /** Runs the callbacks of a batch; the slots wait to be retired. */
    method ProcessBatch(batch: seq<int>, posts: nat, ghost start: Ring, ghost before: seq<Step>)
      returns (retire: seq<int>, left: nat, ghost steps: seq<Step>)
      requires Valid() && Runs(start, before) && After(start, before) == View()
      requires TakenFrom(View(), Real(batch), 0)
      modifies this`freeRequestCount, this`nextTag, this`sq, this`cq, this`queuedSqes, this`pendingCount, this`accepted, this`wanted, this`called,
               requests, freeRequestStack
      ensures Valid() && Runs(start, steps) && After(start, steps) == View()
      ensures Settles(old(View()), View()) && old(cq) <= cq && |cq| + left == |old(cq)| + posts
      ensures Real(retire) == Real(batch) && |retire| == |batch|
      ensures TakenFrom(View(), Real(batch), |Real(batch)|) && PostedKept(old(View()), View()) && TookOnly(old(View()), View(), [])
      ensures var b := Real(batch); forall i :: 0 <= i < |b| ==> !Pending(View().slots, old(View()).slots[b[i]].tag)
    {
      hide TookOnly, Inv, After, Runs, Settles, Pending, Real, Handle, PostedKept, Undisturbed, Apply;
      retire, steps, left := [], before, posts;
      ghost var r, b, done := View(), Real(batch), 0;
      SettlesItself(r);
      PostedItself(r);
      TookNone(r);
      RealOfNone();
      AllAccepted(r, b);
      for i := 0 to |batch|
        invariant Valid() && Runs(start, steps) && After(start, steps) == View()
        invariant Settles(r, View()) && old(cq) <= cq && |cq| + left == |old(cq)| + posts
        invariant |retire| == i && Real(retire) == Real(batch[..i]) && done == |Real(batch[..i])| <= |b|
        invariant TakenFrom(View(), b, done) && PostedKept(r, View()) && TookOnly(r, View(), [])
        invariant forall k :: done <= k < |b| ==> View().slots[b[k]] == r.slots[b[k]]
        invariant forall k :: 0 <= k < done ==> !Pending(View().slots, r.slots[b[k]].tag)
      {
        RealAt(batch, i);
        ghost var r1 := View();
        if batch[i] >= 0 { TakenPends(r1, b, done); }
        var entry := ProcessCompletion(batch[i]);
        RealMore(retire, entry);
        retire := retire + [entry];
        if entry >= 0 {
          HandleMoves(r1, b, done);
          OneMore(start, steps, Process(entry));
          StepSettles(r1, Process(entry));
          SettlesJoins(r, r1, View());
          HandledIsDone(r1, entry);
          steps := steps + [Process(entry)];
          ghost var r2 := View();
          PostedStay(r, r1, r2);
          TookOneLess(r, r1, entry);
          left, steps := RunCallback(left, start, steps);
          StillDone(r, r1, r2, View(), b, done);
          UndisturbedPosted(r2, View());
          PostedStay(r, r2, View());
          TookJoins(r, r2, View());
          done := done + 1;
        }
      }
      assert batch[..|batch|] == batch;
    }

    /** The whole drain: batch after batch until the completion queue is empty,
        while the kernel posts at most `posts` further completions. Every
        completion that was posted before or is posted meanwhile is handled: its
        request is no longer pending and has had one callback if it was submitted
        with one, before or during the drain, and none otherwise. No
        completion is left, in the queue or taken from it but not handled. */
    method DrainCqes(batchSize: nat, posts: nat) returns (completed: nat, left: nat, ghost steps: seq<Step>)
      requires Valid() && 0 < batchSize
      modifies this, requests, freeRequestStack
      ensures Valid() && Runs(old(View()), steps) && After(old(View()), steps) == View()
      ensures cq == [] && left <= posts && completed == |old(cq)| + posts - left
      ensures forall i :: 0 <= i < |old(View()).cq| ==>
        old(View()).cq[i] < |old(View()).slots| && Settled(View(), old(View()).slots[old(View()).cq[i]].tag, old(wanted) + AskedBy(old(View()), steps))
      ensures forall t :: t in PostedBy(old(View()), steps) ==> Settled(View(), t, old(wanted) + AskedBy(old(View()), steps))
      ensures forall i :: 0 <= i < |View().slots| ==> View().slots[i].place != Posted
      ensures TookOnly(old(View()), View(), [])
    {
      hide PostedBy, AskedBy, TookOnly, Inv, After, Runs, Settles, Pending, Settled, Drained, SameTags, PostedKept, Apply, Real;
      completed, steps, left := 0, [], posts;
      ghost var r := View();
      ghost var posted: seq<nat>, n: nat := r.cq, 0;
      NoSteps(r);
      SettlesItself(r);
      NoneDrained(r);
      TookNone(r);
      RealOfNone();
      while true
        invariant Valid() && Runs(r, steps) && After(r, steps) == View() && Settles(r, View())
        invariant left <= posts && completed + |cq| == |old(cq)| + posts - left
        invariant r.cq <= posted && n <= |posted| && View().cq == posted[n..] && Drained(r, View(), n)
        invariant TookOnly(r, View(), [])
        decreases |cq| + left
      {
        ghost var r1 := View();
        ghost var was := cq;
        var batch: seq<int>;
        batch, steps := TakeBatch(batchSize, r, steps);
        ghost var r2 := View();
        RealJoin(batch, cq);
        if |batch| == 0 {
          LastRound(r, r1, r2, posted, n);
          TookNoMore(r, r1, r2);
          break;
        }
        ghost var rest := cq;
        var retire: seq<int>;
        retire, left, steps := ProcessBatch(batch, left, r, steps);
        ghost var r3 := View();
        RealPrefix(rest, cq);
        ReadyToRetire(r3, Real(batch));
        RetireBatch(retire);
        OneMore(r, steps, Retire(Real(retire)));
        StepSettles(r3, Retire(Real(retire)));
        RetireSameTags(r3, Real(retire));
        RetireTakesNone(r3, Real(retire));
        TookRound(r, r1, r2, r3, View(), Real(batch));
        steps := steps + [Retire(Real(retire))];
        posted, n := DrainRound(r, r1, r2, r3, View(), Real(batch), posted, n);
        completed := completed + |batch|;
      }
      AllSettled(r, View(), n);
      PostedAreSettled(r, steps);
      RunRecords(r, steps);
      NonePosted(View());
    }
  }

  // --------------------------------------------------- CQEs that have a request

  /** The slots of the CQEs that have a request. */
  function Real(q: seq<int>): (b: seq<nat>)
    ensures |b| <= |q|
  {
    if q == [] then []
    else Real(q[..|q| - 1]) + if q[|q| - 1] >= 0 then [q[|q| - 1]] else []
  }

  lemma RealOfNone()
    ensures Real([]) == []
  {
  }

  lemma RealMore(q: seq<int>, x: int)
    ensures x >= 0 ==> Real(q + [x]) == Real(q) + [x]
    ensures x < 0 ==> Real(q + [x]) == Real(q)
  {
    assert (q + [x])[..|q|] == q;
  }

  lemma {:induction false} RealJoin(a: seq<int>, b: seq<int>)
    ensures Real(a + b) == Real(a) + Real(b)
  {
    hide Real;
    if b == [] {
      RealOfNone();
      assert a + b == a && Real(a) + [] == Real(a);
    } else {
      var n := |b| - 1;
      RealJoin(a, b[..n]);
      RealMore(a + b[..n], b[n]);
      RealMore(b[..n], b[n]);
      assert a + b == a + b[..n] + [b[n]] && b == b[..n] + [b[n]];
    }
  }

  lemma RealFirst(q: seq<int>)
    requires q != []
    ensures q[0] >= 0 ==> Real(q) == [q[0]] + Real(q[1..])
    ensures q[0] < 0 ==> Real(q) == Real(q[1..])
  {
    assert q == [q[0]] + q[1..];
    RealJoin([q[0]], q[1..]);
    RealMore([], q[0]);
    assert [] + [q[0]] == [q[0]] && Real([]) == [];
    assert [] + Real(q[1..]) == Real(q[1..]);
  }

  lemma RealPrefix(a: seq<int>, b: seq<int>)
    requires a <= b
    ensures Real(a) <= Real(b)
  {
    assert b == a + b[|a|..];
    RealJoin(a, b[|a|..]);
  }

  /** The next entry of a batch, among those with a request. */
  lemma RealAt(q: seq<int>, i: nat)
    requires i < |q|
    ensures q[i] >= 0 ==> Real(q[..i + 1]) == Real(q[..i]) + [q[i]]
    ensures q[i] < 0 ==> Real(q[..i + 1]) == Real(q[..i])
    ensures |Real(q[..i + 1])| <= |Real(q)| && Real(q)[..|Real(q[..i + 1])|] == Real(q[..i + 1])
    ensures q[i] >= 0 ==> |Real(q[..i])| < |Real(q)| && Real(q)[|Real(q[..i])|] == q[i]
  {
    assert q[..i + 1] == q[..i] + [q[i]];
    RealMore(q[..i], q[i]);
    RealPrefix(q[..i + 1], q);
  }

  /** The requests that a ring remembers as wanting a callback, and those of a
      further run, are those that asked for one since the start. */
  lemma AskedFromStart(max: nat, before: seq<Step>, steps: seq<Step>)
    requires Runs(Init(max), before) && Runs(After(Init(max), before), steps)
    ensures Runs(Init(max), before + steps)
    ensures var r := After(Init(max), before);
      r.wanted == AskedBy(Init(max), before) && r.wanted + AskedBy(r, steps) == AskedBy(Init(max), before + steps)
  {
    hide Runs, After, AskedBy, Inv;
    InitKeeps(max);
    RunJoins(Init(max), before, steps);
    RunKeeps(Init(max), before);
    RunRecords(Init(max), before);
    RunRecords(After(Init(max), before), steps);
    RunRecords(Init(max), before + steps);
  }

  /** Slots whose completion is posted, taken or handled are as they were. */
  ghost predicate Undisturbed(r: Ring, r': Ring)
  {
    && r.cq <= r'.cq && r'.called == r.called && |r'.slots| == |r.slots|
    && (forall i {:trigger r'.slots[i]} :: 0 <= i < |r.slots| && r.slots[i].place in {Posted, Taken, Retiring} ==>
          r'.slots[i] == r.slots[i])
    && TookOnly(r, r', [])
  }

  /** Only the slots of `b` have been taken out of the completion queue. */
  ghost predicate TookOnly(r: Ring, r': Ring, b: seq<nat>)
  {
    && |r'.slots| == |r.slots|
    && forall i {:trigger r'.slots[i]} :: 0 <= i < |r.slots| && r'.slots[i].place == Taken && i !in b ==>
         r'.slots[i] == r.slots[i]
  }

  lemma TookNone(r: Ring)
    ensures TookOnly(r, r, [])
  {
  }

  lemma TookOneMore(r: Ring, r1: Ring, b: seq<nat>)
    requires TookOnly(r, r1, b) && r1.cq != [] && r1.cq[0] < |r1.slots|
    ensures TookOnly(r, Apply(r1, Take), b + [r1.cq[0]])
  {
    assert r1.cq[0] in b + [r1.cq[0]];
  }

  lemma TookOneLess(r: Ring, r1: Ring, i: nat)
    requires TookOnly(r, r1, []) && i < |r1.slots|
    ensures TookOnly(r, Handle(r1, i), [])
  {
    var r' := Handle(r1, i);
    assert |r'.slots| == |r1.slots|;
    assert forall j {:trigger r'.slots[j]} :: 0 <= j < |r1.slots| && r'.slots[j].place == Taken ==> r'.slots[j] == r1.slots[j];
  }

  lemma TookJoins(r: Ring, r1: Ring, r2: Ring)
    requires TookOnly(r, r1, []) && Undisturbed(r1, r2)
    ensures TookOnly(r, r2, [])
  {
  }

  lemma RetireTakesNone(r: Ring, b: seq<nat>)
    requires Inv(r) && Enabled(r, Retire(b))
    ensures TookOnly(r, Apply(r, Retire(b)), [])
  {
    PutAllTakesNone(r, b);
  }

  lemma {:induction false} PutAllTakesNone(r: Ring, b: seq<nat>)
    ensures TookOnly(r, PutAll(r, b), [])
    decreases |b|
  {
    if b != [] {
      PutAllTakesNone(r, b[..|b| - 1]);
    }
  }

  lemma AreRetiring(r: Ring, b: seq<nat>)
    requires TakenFrom(r, b, |b|)
    ensures forall i {:trigger i in b} :: i in b ==> i < |r.slots| && r.slots[i].place == Retiring
  {
    forall i | i in b
      ensures i < |r.slots| && r.slots[i].place == Retiring
    {
      var k :| 0 <= k < |b| && b[k] == i;
      assert Is(r, b[k], Retiring);
    }
  }

  /** What a round takes it handles. */
  lemma TookRound(r: Ring, r1: Ring, r2: Ring, r3: Ring, r4: Ring, b: seq<nat>)
    requires TookOnly(r, r1, []) && TookOnly(r1, r2, b) && TookOnly(r2, r3, []) && TookOnly(r3, r4, [])
    requires TakenFrom(r3, b, |b|)
    ensures TookOnly(r, r4, [])
  {
    AreRetiring(r3, b);
    forall i | 0 <= i < |r.slots| && r4.slots[i].place == Taken
      ensures r4.slots[i] == r.slots[i]
    {
      assert r4.slots[i] == r3.slots[i] == r2.slots[i];
    }
  }

  lemma TookNoMore(r: Ring, r1: Ring, r2: Ring)
    requires TookOnly(r, r1, []) && TookOnly(r1, r2, [])
    ensures TookOnly(r, r2, [])
  {
  }

  /** With nothing posted and nothing newly taken at the end of a run, every
      completion posted in it has been dealt with. */
  lemma PostedAreSettled(r: Ring, steps: seq<Step>)
    requires Inv(r) && Runs(r, steps)
    requires var r' := After(r, steps); r'.cq == [] && TookOnly(r, r', [])
    ensures forall t :: t in PostedBy(r, steps) ==> Settled(After(r, steps), t, After(r, steps).wanted)
  {
    var r' := After(r, steps);
    forall t | t in PostedBy(r, steps)
      ensures Settled(r', t, r'.wanted)
    {
      hide Inv, PostedBy, Runs, After;
      PostedIsPastKernel(r, steps, t);
      RunKeeps(r, steps);
      if Pending(r'.slots, t) {
        NonePosted(r');
        var i :| 0 <= i < |r'.slots| && r'.slots[i].pending && r'.slots[i].tag == t;
        assert r'.slots[i].place == Taken;
        TakenIsPastKernel(r, i);
        RunPastKernel(r, steps, t);
      } else {
        SettledParts(r', t);
      }
    }
  }

  lemma TakenIsPastKernel(r: Ring, i: nat)
    requires Inv(r) && Is(r, i, Taken)
    ensures PastKernel(r, r.slots[i].tag)
  {
    assert r.slots[i].pending;
  }

  lemma SettledParts(r: Ring, t: nat)
    requires Inv(r) && PastKernel(r, t) && !Pending(r.slots, t)
    ensures Settled(r, t, r.wanted)
  {
  }

  lemma UndisturbedItself(r: Ring)
    ensures Undisturbed(r, r)
  {
  }

  lemma UndisturbedJoins(r: Ring, r1: Ring, r2: Ring)
    requires Undisturbed(r, r1) && Undisturbed(r1, r2)
    ensures Undisturbed(r, r2)
  {
  }

  lemma TakenPends(r: Ring, batch: seq<nat>, done: nat)
    requires Inv(r) && TakenFrom(r, batch, done) && done < |batch|
    ensures batch[done] < |r.slots| && Is(r, batch[done], Taken) && r.slots[batch[done]].pending
  {
    assert Is(r, batch[done], Taken);
  }

  lemma NonePosted(r: Ring)
    requires Inv(r) && r.cq == []
    ensures forall i :: 0 <= i < |r.slots| ==> r.slots[i].place != Posted
  {
  }

  lemma SettlesItself(r: Ring)
    ensures Settles(r, r)
  {
  }

  /** A batch being handled: the first `done` slots are, the others are taken. */
  ghost predicate TakenFrom(r: Ring, batch: seq<nat>, done: nat)
  {
    && Distinct(batch)
    && forall k {:trigger batch[k]} :: 0 <= k < |batch| ==> Is(r, batch[k], if k < done then Retiring else Taken)
  }

  ghost predicate SameTags(r: Ring, r': Ring)
  {
    |r'.slots| == |r.slots| && forall i {:trigger r'.slots[i]} :: 0 <= i < |r.slots| ==> r'.slots[i].tag == r.slots[i].tag
  }

  lemma NoneTaken(r: Ring)
    ensures TakenFrom(r, [], 0) && SameTags(r, r)
  {
  }

  lemma SameTagsJoin(r: Ring, r1: Ring, r2: Ring)
    requires SameTags(r, r1) && SameTags(r1, r2)
    ensures SameTags(r, r2)
  {
  }

  lemma FirstPosted(r: Ring)
    requires Inv(r) && r.cq != []
    ensures r.cq[0] < |r.slots|
  {
    assert Is(r, r.cq[0], Posted);
  }

  lemma TakeExtends(r: Ring, batch: seq<nat>)
    requires Inv(r) && r.cq != [] && TakenFrom(r, batch, 0)
    ensures r.cq[0] < |r.slots|
    ensures TakenFrom(Apply(r, Take), batch + [r.cq[0]], 0) && SameTags(r, Apply(r, Take))
  {
    assert Is(r, r.cq[0], Posted);
  }

  lemma AllAccepted(r: Ring, batch: seq<nat>)
    requires Inv(r) && TakenFrom(r, batch, 0)
    ensures forall k :: 0 <= k < |batch| ==> r.slots[batch[k]].tag in r.accepted
  {
    forall k | 0 <= k < |batch|
      ensures r.slots[batch[k]].tag in r.accepted
    {
      assert Is(r, batch[k], Taken);
      assert r.slots[batch[k]].pending;
    }
  }

  lemma HandleMoves(r: Ring, batch: seq<nat>, i: nat)
    requires Inv(r) && TakenFrom(r, batch, i) && i < |batch|
    ensures TakenFrom(Handle(r, batch[i]), batch, i + 1) && PostedKept(r, Handle(r, batch[i]))
    ensures Apply(r, Process(batch[i])) == Handle(r, batch[i])
    ensures forall k :: i < k < |batch| ==> Handle(r, batch[i]).slots[batch[k]] == r.slots[batch[k]]
  {
    assert Is(r, batch[i], Taken);
    assert r.slots[batch[i]].pending;
  }

  /** A callback disturbs neither the batch nor what is settled. */
  lemma StillDone(r: Ring, r1: Ring, r2: Ring, r3: Ring, batch: seq<nat>, i: nat)
    requires Settles(r, r1) && Settles(r1, r2) && Settles(r2, r3) && Undisturbed(r2, r3)
    requires TakenFrom(r, batch, 0) && TakenFrom(r2, batch, i + 1) && i < |batch|
    requires forall k :: 0 <= k < |batch| ==> r.slots[batch[k]].tag in r.accepted
    requires forall k :: 0 <= k < i ==> !Pending(r1.slots, r.slots[batch[k]].tag)
    requires !Pending(r2.slots, r.slots[batch[i]].tag)
    requires forall k :: i < k < |batch| ==> r2.slots[batch[k]] == r.slots[batch[k]]
    ensures Settles(r, r3) && TakenFrom(r3, batch, i + 1)
    ensures forall k :: 0 <= k <= i ==> !Pending(r3.slots, r.slots[batch[k]].tag)
    ensures forall k :: i < k < |batch| ==> r3.slots[batch[k]] == r.slots[batch[k]]
  {
    SettlesJoins(r, r1, r2);
    SettlesJoins(r, r2, r3);
    forall k | 0 <= k < |batch|
      ensures r3.slots[batch[k]] == r2.slots[batch[k]]
    {
      assert Is(r2, batch[k], if k < i + 1 then Retiring else Taken);
    }
    forall k | 0 <= k <= i
      ensures !Pending(r3.slots, r.slots[batch[k]].tag)
    {
      assert r.slots[batch[k]].tag in r1.accepted && r.slots[batch[k]].tag in r2.accepted;
    }
  }

  /** A request whose completion has been dealt with: it has had its callback if
      it is among those that asked for one. */
  ghost predicate Settled(r: Ring, t: nat, asked: set<nat>)
  {
    t in r.accepted && !Pending(r.slots, t) && r.called[t] == if t in asked then 1 else 0
  }

  ghost predicate PostedKept(r: Ring, r': Ring)
  {
    |r'.slots| == |r.slots| && forall i {:trigger r'.slots[i]} :: 0 <= i < |r.slots| && r.slots[i].place == Posted ==>
      r'.slots[i] == r.slots[i]
  }

  lemma PostedItself(r: Ring)
    ensures PostedKept(r, r)
  {
  }

  lemma PostedStay(r: Ring, r1: Ring, r2: Ring)
    requires PostedKept(r, r1) && PostedKept(r1, r2)
    ensures PostedKept(r, r2)
  {
  }

  lemma UndisturbedPosted(r: Ring, r1: Ring)
    requires Undisturbed(r, r1)
    ensures PostedKept(r, r1)
  {
  }

  /** Of the completions posted in `r`, the first `n` have been dealt with in `r'`
      and the others carry the same requests. */
  ghost predicate Drained(r: Ring, r': Ring, n: nat)
  {
    && |r'.slots| == |r.slots|
    && (forall k {:trigger r.cq[k]} :: 0 <= k < |r.cq| ==> r.cq[k] < |r.slots| && r.slots[r.cq[k]].tag in r.accepted)
    && (forall k {:trigger r.cq[k]} :: n <= k < |r.cq| ==> r'.slots[r.cq[k]].tag == r.slots[r.cq[k]].tag)
    && (forall k {:trigger r.cq[k]} :: 0 <= k < n && k < |r.cq| ==> !Pending(r'.slots, r.slots[r.cq[k]].tag))
  }

  lemma NoSteps(r: Ring)
    ensures Runs(r, []) && After(r, []) == r
  {
  }

  lemma NoneDrained(r: Ring)
    requires Inv(r)
    ensures Drained(r, r, 0)
  {
    forall k | 0 <= k < |r.cq|
      ensures r.cq[k] < |r.slots| && r.slots[r.cq[k]].tag in r.accepted
    {
      assert r.slots[r.cq[k]].place == Posted;
      assert r.slots[r.cq[k]].pending;
    }
  }

  lemma ReadyToRetire(r: Ring, batch: seq<nat>)
    requires TakenFrom(r, batch, |batch|)
    ensures Enabled(r, Retire(batch))
  {
    forall i | 0 <= i < |batch|
      ensures Is(r, batch[i], Retiring)
    {
    }
  }

  lemma RetireSameTags(r: Ring, b: seq<nat>)
    requires Inv(r) && Enabled(r, Retire(b))
    ensures SameTags(r, Apply(r, Retire(b))) && Apply(r, Retire(b)).cq == r.cq
  {
    PutAllNonePends(r, b);
    PutAllKeeps(r, b);
  }

  lemma PostedIs(r: Ring)
    requires Inv(r)
    ensures forall k :: 0 <= k < |r.cq| ==> Is(r, r.cq[k], Posted)
  {
  }

  /** The round that finds the completion queue empty. */
  lemma LastRound(r: Ring, r1: Ring, r2: Ring, posted: seq<nat>, n: nat)
    requires Settles(r, r1) && Settles(r1, r2) && SameTags(r1, r2)
    requires r.cq <= posted && n <= |posted| && posted[n..] == [] && Drained(r, r1, n)
    ensures |r.cq| <= n && Settles(r, r2) && Drained(r, r2, n)
  {
    hide Settles, Pending;
    SettlesJoins(r, r1, r2);
    forall k | 0 <= k < |r.cq|
      ensures !Pending(r2.slots, r.slots[r.cq[k]].tag)
    {
      StaysSettled(r, r1, r2, r.slots[r.cq[k]].tag);
    }
  }

  /** One round of the drain: take, handle, retire. What the kernel posts meanwhile
      comes after all that was posted before. */
  lemma DrainRound(r: Ring, r1: Ring, r2: Ring, r3: Ring, r4: Ring, batch: seq<nat>, posted: seq<nat>, n: nat)
    returns (posted': seq<nat>, n': nat)
    requires Settles(r, r1) && Settles(r1, r2) && Settles(r2, r3) && Settles(r3, r4)
    requires r.cq <= posted && n <= |posted| && r1.cq == posted[n..] && Drained(r, r1, n)
    requires r1.cq == batch + r2.cq && SameTags(r1, r2) && Inv(r2)
    requires forall i :: 0 <= i < |batch| ==> batch[i] < |r2.slots| && !Pending(r3.slots, r2.slots[batch[i]].tag)
    requires r2.cq <= r3.cq && PostedKept(r2, r3)
    requires r4.cq == r3.cq && SameTags(r3, r4)
    ensures Settles(r, r4) && r.cq <= posted' && n' <= |posted'| && r4.cq == posted'[n'..] && Drained(r, r4, n')
  {
    hide Settles, Pending, Inv;
    SettlesJoins(r, r1, r2);
    SettlesJoins(r, r2, r3);
    SettlesJoins(r, r3, r4);
    PostedIs(r2);
    n' := n + |batch|;
    posted' := posted[..n] + batch + r3.cq;
    assert posted == posted[..n] + batch + r2.cq;
    assert posted <= posted';
    assert posted'[n'..] == r3.cq;
    forall k | n' <= k < |r.cq|
      ensures r4.slots[r.cq[k]].tag == r.slots[r.cq[k]].tag
    {
      assert r.cq[k] == posted[k] == r2.cq[k - n'];
    }
    forall k | 0 <= k < n' && k < |r.cq|
      ensures !Pending(r4.slots, r.slots[r.cq[k]].tag)
    {
      if k >= n {
        assert r.cq[k] == posted[k] == r1.cq[k - n] == batch[k - n];
        StaysSettled(r, r3, r4, r.slots[r.cq[k]].tag);
      } else {
        SettlesJoins(r1, r2, r3);
        SettlesJoins(r1, r3, r4);
        StaysSettled(r, r1, r4, r.slots[r.cq[k]].tag);
      }
    }
  }

  lemma StaysSettled(r: Ring, r1: Ring, r2: Ring, t: nat)
    requires t in r.accepted && Settles(r, r1) && Settles(r1, r2) && !Pending(r1.slots, t)
    ensures !Pending(r2.slots, t)
  {
  }

  lemma AllSettled(r: Ring, r': Ring, n: nat)
    requires Settles(r, r') && |r.cq| <= n && Drained(r, r', n) && Inv(r')
    ensures forall k :: 0 <= k < |r.cq| ==> r.cq[k] < |r.slots| && Settled(r', r.slots[r.cq[k]].tag, r'.wanted)
  {
    forall k | 0 <= k < |r.cq|
      ensures Settled(r', r.slots[r.cq[k]].tag, r'.wanted)
    {
      assert r.slots[r.cq[k]].tag in r.accepted;
    }
  }

  lemma InvParts(r: Ring)
    requires Inv(r)
    ensures Sound(r) && |r.free| == Number(r.slots, Free)
  {
  }

  lemma GetUndisturbed(r: Ring)
    requires Inv(r) && r.free != []
    ensures Undisturbed(r, GetSlot(r)) && Enabled(r, Get) && Apply(r, Get) == GetSlot(r)
  {
    TopIsSlot(r);
  }

  lemma {:induction false} FlushUndisturbed(r: Ring, k: nat)
    requires Inv(r) && k <= |r.sq|
    ensures Undisturbed(r, Consume(r, k))
  {
    hide Inv, Sound, Counted;
    if k > 0 {
      FlushUndisturbed(r, k - 1);
      ConsumeKeeps(r, k - 1);
      FirstQueued(Consume(r, k - 1));
    }
  }

  lemma FirstQueued(r: Ring)
    requires Sound(r) && r.sq != []
    ensures r.sq[0] < |r.slots| && r.slots[r.sq[0]].place == Queued
  {
  }

  lemma RetireIs(r: Ring, b: seq<nat>)
    requires Inv(r) && Enabled(r, Retire(b))
    ensures Apply(r, Retire(b)) == PutAll(r, b).(pendingCount := r.pendingCount - |b|)
    ensures PutAll(r, b).pendingCount == r.pendingCount && PutAll(r, []) == r && b[..0] == []
  {
    hide Sound, Number, Busy;
    PutAllKeeps(r, b);
  }

  lemma FinishUndisturbed(r: Ring, i: nat, cb: bool)
    requires Is(r, i, Acquired)
    ensures Enabled(r, Submit(i, cb)) && Apply(r, Submit(i, cb)) == Finish(r, i, cb) && Undisturbed(r, Finish(r, i, cb))
  {
  }

  lemma AbortUndisturbed(r: Ring, i: nat)
    requires Is(r, i, Acquired)
    ensures Enabled(r, Abort(i)) && Apply(r, Abort(i)) == PutSlot(r, i) && Undisturbed(r, PutSlot(r, i))
  {
  }

  lemma PutPrefix(r: Ring, b: seq<nat>, i: nat)
    requires Inv(r) && Enabled(r, Retire(b)) && i < |b|
    ensures var r' := PutAll(r, b[..i]);
      Sound(r') && |r'.free| == Number(r'.slots, Free)
    ensures PutAll(r, b[..i + 1]) == PutSlot(PutAll(r, b[..i]), b[i])
  {
    hide Sound, Number, Busy;
    PutAllKeeps(r, b[..i]);
    assert b[..i + 1][..i] == b[..i];
  }

  lemma {:induction false} NumberBound(slots: seq<Slot>, p: Place)
    ensures Number(slots, p) <= |slots|
    ensures Number(slots, p) == |slots| ==> forall i :: 0 <= i < |slots| ==> slots[i].place == p
  {
    if slots != [] {
      NumberBound(slots[..|slots| - 1], p);
    }
  }

  /** A slot that is not in the pool leaves room on the stack. */
  lemma RoomOnStack(r: Ring, i: nat)
    requires FlagsMatch(r.slots) && |r.free| == Number(r.slots, Free)
    requires i < |r.slots| && !r.slots[i].inPool
    ensures |r.free| < |r.slots|
  {
    NumberBound(r.slots, Free);
  }


  lemma TopIsSlot(r: Ring)
    requires Inv(r) && r.free != []
    ensures r.free[|r.free| - 1] < |r.slots|
  {
  }
}

