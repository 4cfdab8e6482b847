/** The lock-free free list of I/O contexts: a linked stack with a
    compare-and-swap on its head. Every load, store and compare-and-swap is a
    step, and threads interleave in any way. Any number of threads push; the
    list is sound for one popping thread, and a run with two shows why. */
module IoCtxFreeList {

  /** A thread inside `io_ctx_pool_get`. */
  datatype Popper =
    | Outside
    | HaveHead(idx: int)               // loaded the head
    | HaveNext(idx: int, next: int)    // loaded its successor, about to swap

  /** A thread inside `io_ctx_pool_put`, with the slot it gives back. */
  datatype Pusher =
    | NotPushing
    | Loaded(slot: nat, seen: int)      // has seen a head, about to link to it
    | Linked(slot: nat, seen: int)      // stored next_free, about to swap

  datatype Pool = Pool(
    head: int,                 // free_head; negative when empty
    next: seq<int>,            // next_free of each slot
    poppers: seq<Popper>,
    pushers: seq<Pusher>,
    list: seq<nat>,            // the slots on the list, head first
    held: multiset<nat>)       // slots handed out and not being given back

  datatype Step =
    | LoadHead(p: nat)
    | LoadNext(p: nat)
    | SwapOut(p: nat, spurious: bool)     // a weak swap may fail without cause
    | StartPush(q: nat, slot: nat)        // loads the head
    | StoreNext(q: nat)
    | SwapIn(q: nat, spurious: bool)

  function Init(capacity: nat, poppers: nat, pushers: nat): Pool
  {
    Pool(capacity - 1, seq(capacity, i => i - 1), seq(poppers, i => Outside), seq(pushers, i => NotPushing),
         Down(capacity), multiset{})
  }

  /** `n - 1, ..., 1, 0`. */
  function Down(n: nat): seq<nat>
  {
    if n == 0 then [] else [n - 1] + Down(n - 1)
  }

  ghost predicate Enabled(s: Pool, step: Step)
  {
    match step
    case LoadHead(p) => p < |s.poppers| && s.poppers[p].Outside?
    case LoadNext(p) => p < |s.poppers| && s.poppers[p].HaveHead? && s.poppers[p].idx < |s.next|
    case SwapOut(p, _) => p < |s.poppers| && s.poppers[p].HaveNext? && s.poppers[p].idx >= 0
    case StartPush(q, slot) => q < |s.pushers| && s.pushers[q].NotPushing? && slot in s.held
    case StoreNext(q) => q < |s.pushers| && s.pushers[q].Loaded? && s.pushers[q].slot < |s.next|
    case SwapIn(q, _) => q < |s.pushers| && s.pushers[q].Linked?
  }

  function Tail(list: seq<nat>): seq<nat>
  {
    if list == [] then [] else list[1..]
  }

  function Apply(s: Pool, step: Step): Pool
    requires Enabled(s, step)
  {
    match step
    case LoadHead(p) => s.(poppers := s.poppers[p := HaveHead(s.head)])
    case LoadNext(p) =>
      var i := s.poppers[p].idx;
      // an empty list ends the call: nothing is handed out
      s.(poppers := s.poppers[p := if i < 0 then Outside else HaveNext(i, s.next[i])])
    case SwapOut(p, spurious) =>
      var q := s.poppers[p];
      if s.head == q.idx && !spurious then
        s.(head := q.next, poppers := s.poppers[p := Outside], list := Tail(s.list), held := s.held + multiset{q.idx})
      else s.(poppers := s.poppers[p := HaveHead(s.head)])
    case StartPush(q, slot) => s.(pushers := s.pushers[q := Loaded(slot, s.head)], held := s.held - multiset{slot})
    case StoreNext(q) =>
      var w := s.pushers[q];
      s.(next := s.next[w.slot := w.seen], pushers := s.pushers[q := Linked(w.slot, w.seen)])
    case SwapIn(q, spurious) =>
      var w := s.pushers[q];
      if s.head == w.seen && !spurious then
        s.(head := w.slot, pushers := s.pushers[q := NotPushing], list := [w.slot] + s.list)
      else s.(pushers := s.pushers[q := Loaded(w.slot, s.head)])
  }

  // ----------------------------------------------------------------- invariant

  /** Following `next_free` from the head visits `list`, slot by slot, and ends. */
  ghost predicate Chain(head: int, next: seq<int>, list: seq<nat>)
  {
    && (forall k {:trigger list[k]} :: 0 <= k < |list| ==> list[k] < |next|)
    && head == (if list == [] then -1 else list[0])
    && forall k {:trigger list[k]} :: 0 <= k < |list| ==> next[list[k]] == if k + 1 < |list| then list[k + 1] else -1
  }

  /** How many pushes are giving back the slot. */
  ghost function Pushes(pushers: seq<Pusher>, slot: nat): nat
  {
    if pushers == [] then 0
    else
      var last := pushers[|pushers| - 1];
      Pushes(pushers[..|pushers| - 1], slot) + if !last.NotPushing? && last.slot == slot then 1 else 0
  }

  /** In how many places a slot is: on the list, in hands, in a push. */
  ghost function Places(s: Pool, slot: nat): nat
  {
    multiset(s.list)[slot] + s.held[slot] + Pushes(s.pushers, slot)
  }

  ghost predicate OnePlace(s: Pool)
  {
    forall i: nat {:trigger Places(s, i)} :: Places(s, i) == if i < |s.next| then 1 else 0
  }

  /** What a popper has read is still so: its slot is on the list, with that successor. */
  ghost predicate PopperSound(s: Pool, p: Popper)
  {
    match p
    case Outside => true
    case HaveHead(i) => i < 0 || (i in s.list && i < |s.next|)
    case HaveNext(i, n) => i in s.list && i < |s.next| && s.next[i] == n
  }

  ghost predicate PusherSound(s: Pool, w: Pusher)
  {
    && (!w.NotPushing? ==> w.slot < |s.next|)
    && (w.Linked? ==> s.next[w.slot] == w.seen)
  }

  ghost predicate Poppers(s: Pool)
  {
    forall p {:trigger s.poppers[p]} :: 0 <= p < |s.poppers| ==> PopperSound(s, s.poppers[p])
  }

  ghost predicate Pushers(s: Pool)
  {
    forall q {:trigger s.pushers[q]} :: 0 <= q < |s.pushers| ==> PusherSound(s, s.pushers[q])
  }

  ghost predicate Inv(s: Pool)
  {
    Chain(s.head, s.next, s.list) && OnePlace(s) && Poppers(s) && Pushers(s)
  }

  // -------------------------------------------------------------------- counts

  lemma {:induction false} PushesUpdate(pushers: seq<Pusher>, q: nat, w: Pusher, slot: nat)
    requires q < |pushers|
    ensures Pushes(pushers[q := w], slot) == Pushes(pushers, slot)
      + (if !w.NotPushing? && w.slot == slot then 1 else 0)
      - (if !pushers[q].NotPushing? && pushers[q].slot == slot then 1 else 0)
  {
    var n := |pushers| - 1;
    if q == n {
      assert pushers[q := w][..n] == pushers[..n];
    } else {
      assert pushers[q := w][..n] == pushers[..n][q := w];
      PushesUpdate(pushers[..n], q, w, slot);
    }
  }

  /** Two pushes of one slot would count twice. */
  lemma {:induction false} PushesSome(pushers: seq<Pusher>, q: nat, r: nat, slot: nat)
    requires q <= r < |pushers| && !pushers[q].NotPushing? && !pushers[r].NotPushing?
    requires pushers[q].slot == slot == pushers[r].slot
    ensures Pushes(pushers, slot) >= if q < r then 2 else 1
  {
    var n := |pushers| - 1;
    if r < n {
      PushesSome(pushers[..n], q, r, slot);
    } else if q < n {
      PushesSome(pushers[..n], q, q, slot);
    }
  }

  lemma {:induction false} PushesNone(pushers: seq<Pusher>, slot: nat)
    requires forall q :: 0 <= q < |pushers| ==> pushers[q].NotPushing?
    ensures Pushes(pushers, slot) == 0
  {
    if pushers != [] {
      PushesNone(pushers[..|pushers| - 1], slot);
    }
  }

  lemma CountTwice(list: seq<nat>, j: nat, k: nat)
    requires j < k < |list| && list[j] == list[k]
    ensures multiset(list)[list[k]] >= 2
  {
    assert list == list[..k] + list[k..];
    assert list[..k][j] in list[..k] && list[k..][0] in list[k..];
    assert multiset(list) == multiset(list[..k]) + multiset(list[k..]);
  }

  lemma AtMostOnce(list: seq<nat>)
    requires forall i: nat :: multiset(list)[i] <= 1
    ensures forall j, k :: 0 <= j < k < |list| ==> list[j] != list[k]
  {
    forall j, k | 0 <= j < k < |list|
      ensures list[j] != list[k]
    {
      if list[j] == list[k] { CountTwice(list, j, k); }
    }
  }

  lemma {:induction false} DownHoldsAll(n: nat)
    ensures |Down(n)| == n && (forall k :: 0 <= k < n ==> Down(n)[k] == n - 1 - k)
    ensures forall i: nat {:trigger multiset(Down(n))[i]} :: multiset(Down(n))[i] == if i < n then 1 else 0
  {
    if n > 0 {
      DownHoldsAll(n - 1);
      assert multiset(Down(n)) == multiset{n - 1} + multiset(Down(n - 1));
    }
  }

  lemma TailCount(list: seq<nat>, i: nat)
    requires list != []
    ensures multiset(list)[i] == multiset(Tail(list))[i] + if list[0] == i then 1 else 0
  {
    assert list == [list[0]] + list[1..];
  }

  // --------------------------------------------------------------------- steps

  lemma InitKeeps(capacity: nat, poppers: nat, pushers: nat)
    ensures Inv(Init(capacity, poppers, pushers))
  {
    var s := Init(capacity, poppers, pushers);
    DownHoldsAll(capacity);
    forall i: nat
      ensures Places(s, i) == if i < capacity then 1 else 0
    {
      PushesNone(s.pushers, i);
    }
  }

  /** A slot in a push is not on the list and in no other push. */
  lemma PushedIsOff(s: Pool, q: nat)
    requires OnePlace(s) && q < |s.pushers| && !s.pushers[q].NotPushing?
    ensures s.pushers[q].slot !in s.list && s.pushers[q].slot < |s.next|
    ensures forall r {:trigger s.pushers[r]} :: 0 <= r < |s.pushers| && r != q && !s.pushers[r].NotPushing? ==> s.pushers[r].slot != s.pushers[q].slot
  {
    var slot := s.pushers[q].slot;
    PushesSome(s.pushers, q, q, slot);
    assert Places(s, slot) <= 1;
    forall r {:trigger s.pushers[r]} | 0 <= r < |s.pushers| && r != q && !s.pushers[r].NotPushing? && s.pushers[r].slot == slot
      ensures false
    {
      if q < r { PushesSome(s.pushers, q, r, slot); } else { PushesSome(s.pushers, r, q, slot); }
    }
  }

  lemma ReadKeeps(s: Pool, step: Step)
    requires Inv(s) && Enabled(s, step)
    requires step.LoadHead? || step.LoadNext? || (step.SwapOut? && (step.spurious || s.head != s.poppers[step.p].idx))
    ensures Inv(Apply(s, step))
  {
    var s' := Apply(s, step);
    assert s.list != [] ==> s.list[0] in s.list;
    assert forall i: nat {:trigger Places(s', i)} :: Places(s', i) == Places(s, i);
  }

  /** A swap that finds the head it loaded takes the first slot of the list and
      leaves the rest of it, provided no other thread pops. */
  lemma SwapOutKeeps(s: Pool, p: nat)
    requires Inv(s) && Enabled(s, SwapOut(p, false)) && |s.poppers| <= 1 && s.head == s.poppers[p].idx
    ensures s.list != [] && s.list[0] == s.poppers[p].idx
    ensures Inv(Apply(s, SwapOut(p, false)))
  {
    var s' := Apply(s, SwapOut(p, false));
    var idx := s.poppers[p].idx;
    assert s.list != [] && s.list[0] == idx;
    assert forall k {:trigger s'.list[k]} :: 0 <= k < |s'.list| ==> s'.list[k] == s.list[k + 1];
    forall i: nat
      ensures Places(s', i) == Places(s, i)
    {
      TailCount(s.list, i);
    }
    assert OnePlace(s') by { assert forall i: nat {:trigger Places(s', i)} :: Places(s', i) == Places(s, i); }
  }

  lemma StartPushKeeps(s: Pool, q: nat, slot: nat)
    requires Inv(s) && Enabled(s, StartPush(q, slot))
    ensures Inv(Apply(s, StartPush(q, slot)))
  {
    var s' := Apply(s, StartPush(q, slot));
    assert Places(s, slot) >= 1;
    forall i: nat
      ensures Places(s', i) == Places(s, i)
    {
      PushesUpdate(s.pushers, q, s'.pushers[q], i);
    }
    assert OnePlace(s') by { assert forall i: nat {:trigger Places(s', i)} :: Places(s', i) == Places(s, i); }
  }

  /** Linking a slot that is in a push disturbs nobody: not the list, not what
      the popper has read, not another push. */
  lemma StoreNextKeeps(s: Pool, q: nat)
    requires Inv(s) && Enabled(s, StoreNext(q))
    ensures Inv(Apply(s, StoreNext(q)))
  {
    var s' := Apply(s, StoreNext(q));
    PushedIsOff(s, q);
    var slot := s.pushers[q].slot;
    assert forall k {:trigger s.list[k]} :: 0 <= k < |s.list| ==> s.list[k] in s.list;
    forall i: nat
      ensures Places(s', i) == Places(s, i)
    {
      PushesUpdate(s.pushers, q, s'.pushers[q], i);
    }
    assert OnePlace(s') by { assert forall i: nat {:trigger Places(s', i)} :: Places(s', i) == Places(s, i); }
  }

  lemma SwapInKeeps(s: Pool, q: nat, spurious: bool)
    requires Inv(s) && Enabled(s, SwapIn(q, spurious))
    ensures Inv(Apply(s, SwapIn(q, spurious)))
  {
    var s' := Apply(s, SwapIn(q, spurious));
    PushedIsOff(s, q);
    var w := s.pushers[q];
    if s.head == w.seen && !spurious {
      assert forall k {:trigger s'.list[k]} :: 0 < k < |s'.list| ==> s'.list[k] == s.list[k - 1];
      assert forall i: nat :: i in s.list ==> i in s'.list;
    }
    forall i: nat
      ensures Places(s', i) == Places(s, i)
    {
      PushesUpdate(s.pushers, q, s'.pushers[q], i);
    }
    assert OnePlace(s') by { assert forall i: nat {:trigger Places(s', i)} :: Places(s', i) == Places(s, i); }
  }

  lemma StepKeeps(s: Pool, step: Step)
    requires Inv(s) && Enabled(s, step) && |s.poppers| <= 1
    ensures Inv(Apply(s, step)) && |Apply(s, step).poppers| == |s.poppers| && |Apply(s, step).next| == |s.next|
  {
    hide Inv;
    match step {
      case LoadHead(_) => ReadKeeps(s, step);
      case LoadNext(_) => ReadKeeps(s, step);
      case SwapOut(p, spurious) =>
        if s.head == s.poppers[p].idx && !spurious { SwapOutKeeps(s, p); } else { ReadKeeps(s, step); }
      case StartPush(q, slot) => StartPushKeeps(s, q, slot);
      case StoreNext(q) => StoreNextKeeps(s, q);
      case SwapIn(q, spurious) => SwapInKeeps(s, q, spurious);
    }
  }

  // ---------------------------------------------------------------------- runs

  ghost predicate Runs(s: Pool, steps: seq<Step>)
    decreases |steps|
  {
    steps == [] || (Enabled(s, steps[0]) && Runs(Apply(s, steps[0]), steps[1..]))
  }

  ghost function After(s: Pool, steps: seq<Step>): Pool
    requires Runs(s, steps)
    decreases |steps|
  {
    if steps == [] then s else After(Apply(s, steps[0]), steps[1..])
  }

  lemma {:induction false} RunKeeps(s: Pool, steps: seq<Step>)
    requires Inv(s) && |s.poppers| <= 1 && Runs(s, steps)
    ensures Inv(After(s, steps)) && |After(s, steps).poppers| <= 1 && |After(s, steps).next| == |s.next|
    decreases |steps|
  {
    hide Inv;
    if steps != [] {
      StepKeeps(s, steps[0]);
      RunKeeps(Apply(s, steps[0]), steps[1..]);
    }
  }

  /** The slots met by following `next_free` at most `limit` times. */
  function Walk(head: int, next: seq<int>, limit: nat): seq<nat>
    decreases limit
  {
    if limit == 0 || !(0 <= head < |next|) then [] else [head] + Walk(next[head], next, limit - 1)
  }

  function First(list: seq<nat>): int
  {
    if list == [] then -1 else list[0]
  }

  lemma ChainRest(next: seq<int>, list: seq<nat>)
    requires Chain(First(list), next, list) && list != []
    ensures list[0] < |next| && next[list[0]] == First(list[1..]) && Chain(First(list[1..]), next, list[1..])
  {
    var rest := list[1..];
    assert forall k {:trigger rest[k]} :: 0 <= k < |rest| ==> rest[k] == list[k + 1];
  }

  lemma WalkStep(head: int, next: seq<int>, limit: nat)
    ensures head < 0 ==> Walk(head, next, limit) == []
    ensures limit > 0 && 0 <= head < |next| ==> Walk(head, next, limit) == [head] + Walk(next[head], next, limit - 1)
  {
  }

  lemma {:induction false} WalkIsList(next: seq<int>, list: seq<nat>, limit: nat)
    requires Chain(First(list), next, list) && |list| <= limit
    ensures Walk(First(list), next, limit) == list
  {
    hide Walk, Chain;
    WalkStep(First(list), next, limit);
    if list != [] {
      ChainRest(next, list);
      WalkIsList(next, list[1..], limit - 1);
      assert list == [list[0]] + list[1..];
    }
  }

  lemma {:induction false} DistinctFits(list: seq<nat>, n: nat)
    requires forall j, k :: 0 <= j < k < |list| ==> list[j] != list[k]
    requires forall k :: 0 <= k < |list| ==> list[k] < n
    ensures |list| <= n
  {
    if list == [] {
    } else if k: nat :| k < |list| && list[k] == n - 1 {
      var less := list[..k] + list[k + 1..];
      DistinctFits(less, n - 1);
    } else {
      assert list[0] < n;
      DistinctFits(list, n - 1);
    }
  }

  lemma ListDistinct(s: Pool)
    requires OnePlace(s)
    ensures forall j, k :: 0 <= j < k < |s.list| ==> s.list[j] != s.list[k]
  {
    forall i: nat
      ensures multiset(s.list)[i] <= 1
    {
      assert Places(s, i) <= 1;
    }
    AtMostOnce(s.list);
  }

  lemma ListWalked(s: Pool)
    requires Chain(s.head, s.next, s.list) && OnePlace(s)
    ensures Walk(s.head, s.next, |s.next| + 1) == s.list
  {
    hide OnePlace;
    ListDistinct(s);
    DistinctFits(s.list, |s.next|);
    WalkIsList(s.next, s.list, |s.next| + 1);
  }

  /** The links from the head end, visit each slot at most once, and are the list;
      and every slot is on that list, in one owner's hands, or in one pending
      push, and in only one of these. */
  ghost predicate SoundList(s: Pool)
  {
    && Walk(s.head, s.next, |s.next| + 1) == s.list
    && (forall j, k :: 0 <= j < k < |s.list| ==> s.list[j] != s.list[k])
    && OnePlace(s)
  }

  lemma InvIsSound(s: Pool)
    requires Chain(s.head, s.next, s.list) && OnePlace(s)
    ensures SoundList(s)
  {
    hide OnePlace;
    ListDistinct(s);
    ListWalked(s);
  }

  /** With at most one popping thread and any number of pushing threads the list
      is sound after every run. */
  lemma FreeListIsSound(capacity: nat, poppers: nat, pushers: nat, steps: seq<Step>)
    requires poppers <= 1 && Runs(Init(capacity, poppers, pushers), steps)
    ensures SoundList(After(Init(capacity, poppers, pushers), steps))
  {
    InitKeeps(capacity, poppers, pushers);
    RunKeeps(Init(capacity, poppers, pushers), steps);
    InvIsSound(After(Init(capacity, poppers, pushers), steps));
  }

  /** A slot handed out was on the list, in no other hands and in no push; the
      pop is the removal of the top of the list at the instant of the swap. */
  lemma PopIsClean(capacity: nat, pushers: nat, steps: seq<Step>)
    requires Runs(Init(capacity, 1, pushers), steps)
    ensures var s := After(Init(capacity, 1, pushers), steps);
      Enabled(s, SwapOut(0, false)) && s.head == s.poppers[0].idx ==>
        var i := s.poppers[0].idx;
        && s.list != [] && s.list[0] == i
        && s.held[i] == 0 && Pushes(s.pushers, i) == 0
        && Apply(s, SwapOut(0, false)).list == s.list[1..]
        && Apply(s, SwapOut(0, false)).held == s.held + multiset{i}
  {
    var z := Init(capacity, 1, pushers);
    InitKeeps(capacity, 1, pushers);
    RunKeeps(z, steps);
    var s := After(z, steps);
    if Enabled(s, SwapOut(0, false)) && s.head == s.poppers[0].idx {
      SwapOutKeeps(s, 0);
      TailCount(s.list, s.list[0]);
      assert Places(s, s.list[0]) <= 1;
    }
  }

  // ------------------------------------------- no pushes, or only one slot

  /** No link ever changes: nobody pushes, or the only slot is pushed on an empty
      list. What a popper has read stays so, however many there are. */
  ghost predicate Still(s: Pool)
  {
    && Chain(s.head, s.next, s.list) && OnePlace(s) && (s.pushers == [] || |s.next| <= 1)
    && (forall i {:trigger s.next[i]} :: 0 <= i < |s.next| ==> s.next[i] == i - 1)
    && (forall p {:trigger s.poppers[p]} :: 0 <= p < |s.poppers| ==> PopperStill(s, s.poppers[p]))
    && (forall q {:trigger s.pushers[q]} :: 0 <= q < |s.pushers| ==> PusherStill(s, s.pushers[q]))
  }

  ghost predicate PopperStill(s: Pool, p: Popper)
  {
    match p
    case Outside => true
    case HaveHead(i) => i < |s.next|
    case HaveNext(i, n) => 0 <= i < |s.next| && n == i - 1
  }

  ghost predicate PusherStill(s: Pool, w: Pusher)
  {
    !w.NotPushing? ==> w.slot < |s.next| && w.seen == -1
  }

  lemma ReadStill(s: Pool, step: Step)
    requires Still(s) && Enabled(s, step)
    requires step.LoadHead? || step.LoadNext? || (step.SwapOut? && (step.spurious || s.head != s.poppers[step.p].idx))
    ensures Still(Apply(s, step))
  {
    var s' := Apply(s, step);
    assert s.list != [] ==> s.list[0] < |s.next|;
    assert forall i: nat {:trigger Places(s', i)} :: Places(s', i) == Places(s, i);
  }

  lemma SwapOutStill(s: Pool, p: nat)
    requires Still(s) && Enabled(s, SwapOut(p, false)) && s.head == s.poppers[p].idx
    ensures Still(Apply(s, SwapOut(p, false)))
  {
    var s' := Apply(s, SwapOut(p, false));
    assert s.list != [] && s.list[0] == s.poppers[p].idx && PopperStill(s, s.poppers[p]);
    assert forall k {:trigger s'.list[k]} :: 0 <= k < |s'.list| ==> s'.list[k] == s.list[k + 1];
    forall i: nat
      ensures Places(s', i) == Places(s, i)
    {
      TailCount(s.list, i);
    }
    assert OnePlace(s') by { assert forall i: nat {:trigger Places(s', i)} :: Places(s', i) == Places(s, i); }
  }

  /** The only slot is not on the list while it is held or in a push. */
  lemma OnlySlotIsOff(s: Pool, slot: nat)
    requires Still(s) && |s.next| <= 1 && (slot in s.held || Pushes(s.pushers, slot) > 0)
    ensures s.list == [] && s.head == -1 && slot == 0 < |s.next|
  {
    assert Places(s, slot) == if slot < |s.next| then 1 else 0;
    if s.list != [] { FirstIsOnly(s); }
  }

  lemma FirstIsOnly(s: Pool)
    requires Still(s) && |s.next| <= 1 && s.list != []
    ensures multiset(s.list)[0] >= 1
  {
    assert s.list[0] < |s.next|;
    assert s.list[0] in s.list;
  }

  lemma PushStill(s: Pool, step: Step)
    requires Still(s) && Enabled(s, step) && (step.StartPush? || step.StoreNext? || step.SwapIn?)
    ensures Still(Apply(s, step))
  {
    var s', q := Apply(s, step), step.q;
    if step.StartPush? {
      OnlySlotIsOff(s, step.slot);
    } else {
      PushesSome(s.pushers, q, q, s.pushers[q].slot);
      OnlySlotIsOff(s, s.pushers[q].slot);
    }
    forall i: nat
      ensures Places(s', i) == Places(s, i)
    {
      PushesUpdate(s.pushers, q, s'.pushers[q], i);
    }
    assert OnePlace(s') by { assert forall i: nat {:trigger Places(s', i)} :: Places(s', i) == Places(s, i); }
  }

  lemma StepStill(s: Pool, step: Step)
    requires Still(s) && Enabled(s, step)
    ensures Still(Apply(s, step))
  {
    hide Still;
    match step {
      case LoadHead(_) => ReadStill(s, step);
      case LoadNext(_) => ReadStill(s, step);
      case SwapOut(p, spurious) =>
        if s.head == s.poppers[p].idx && !spurious { SwapOutStill(s, p); } else { ReadStill(s, step); }
      case _ => PushStill(s, step);
    }
  }

  lemma {:induction false} RunStill(s: Pool, steps: seq<Step>)
    requires Still(s) && Runs(s, steps)
    ensures Still(After(s, steps))
    decreases |steps|
  {
    hide Still;
    if steps != [] {
      StepStill(s, steps[0]);
      RunStill(Apply(s, steps[0]), steps[1..]);
    }
  }

  // --------------------------------------------------- two poppers and a pusher

  lemma Prepend(s: Pool, step: Step, t: Pool, rest: seq<Step>) returns (steps: seq<Step>)
    requires Enabled(s, step) && Apply(s, step) == t && Runs(t, rest)
    ensures Runs(s, steps) && After(s, steps) == After(t, rest)
  {
    steps := [step] + rest;
    assert steps[1..] == rest;
  }

  lemma Nowhere(s: Pool)
    ensures Runs(s, []) && After(s, []) == s
  {
  }

  /** The links of a new pool. */
  function Links(n: nat): (next: seq<int>)
    ensures |next| == n && forall i :: 0 <= i < n ==> next[i] == i - 1
  {
    seq(n, i => i - 1)
  }

  /** Two threads are in a pop; the others are outside. */
  function Both(poppers: nat, x: Popper, y: Popper): (r: seq<Popper>)
    requires 2 <= poppers
    ensures |r| == poppers && r[0] == x && r[1] == y && forall i :: 2 <= i < poppers ==> r[i] == Outside
  {
    seq(poppers, i => if i == 0 then x else if i == 1 then y else Outside)
  }

  function One(pushers: nat, w: Pusher): (r: seq<Pusher>)
    requires 1 <= pushers
    ensures |r| == pushers && r[0] == w && forall i :: 1 <= i < pushers ==> r[i] == NotPushing
  {
    seq(pushers, i => if i == 0 then w else NotPushing)
  }

  lemma Moves(poppers: nat, pushers: nat)
    requires 2 <= poppers && 1 <= pushers
    ensures forall x, y, z: Popper {:trigger Both(poppers, x, y)[0 := z]} :: Both(poppers, x, y)[0 := z] == Both(poppers, z, y)
    ensures forall x, y, z: Popper {:trigger Both(poppers, x, y)[1 := z]} :: Both(poppers, x, y)[1 := z] == Both(poppers, x, z)
    ensures forall w, z: Pusher {:trigger One(pushers, w)[0 := z]} :: One(pushers, w)[0 := z] == One(pushers, z)
  {
  }

  /** The run, for any pool of `n` slots: one thread loads the head and its
      successor; another takes both slots and the first is given back; the first
      thread's swap then succeeds, puts the successor back at the head, and takes
      it although it is in use. */
  function Along(i: nat, n: nat, poppers: nat, pushers: nat): Pool
    requires 2 <= n && 2 <= poppers && 1 <= pushers
  {
    var h, g, f := n - 1, n - 2, n - 3;
    var idle := One(pushers, NotPushing);
    var stale := HaveNext(h, g);
    var d := Down(n - 2);
    var next' := Links(n)[h := f];
    match i
    case 0 => Pool(h, Links(n), Both(poppers, Outside, Outside), idle, [h, g] + d, multiset{})
    case 1 => Pool(h, Links(n), Both(poppers, HaveHead(h), Outside), idle, [h, g] + d, multiset{})
    case 2 => Pool(h, Links(n), Both(poppers, stale, Outside), idle, [h, g] + d, multiset{})
    case 3 => Pool(h, Links(n), Both(poppers, stale, HaveHead(h)), idle, [h, g] + d, multiset{})
    case 4 => Pool(h, Links(n), Both(poppers, stale, stale), idle, [h, g] + d, multiset{})
    case 5 => Pool(g, Links(n), Both(poppers, stale, Outside), idle, [g] + d, multiset{h})
    case 6 => Pool(g, Links(n), Both(poppers, stale, HaveHead(g)), idle, [g] + d, multiset{h})
    case 7 => Pool(g, Links(n), Both(poppers, stale, HaveNext(g, f)), idle, [g] + d, multiset{h})
    case 8 => Pool(f, Links(n), Both(poppers, stale, Outside), idle, d, multiset{h, g})
    case 9 => Pool(f, Links(n), Both(poppers, stale, Outside), One(pushers, Loaded(h, f)), d, multiset{g})
    case 10 => Pool(f, next', Both(poppers, stale, Outside), One(pushers, Linked(h, f)), d, multiset{g})
    case 11 => Pool(h, next', Both(poppers, stale, Outside), idle, [h] + d, multiset{g})
    case 12 => Pool(g, next', Both(poppers, Outside, Outside), idle, d, multiset{g, h})
    case 13 => Pool(g, next', Both(poppers, HaveHead(g), Outside), idle, d, multiset{g, h})
    case 14 => Pool(g, next', Both(poppers, HaveNext(g, f), Outside), idle, d, multiset{g, h})
    case _ => Pool(f, next', Both(poppers, Outside, Outside), idle, Tail(d), multiset{g, h, g})
  }

  function StepAt(i: nat, n: nat): Step
    requires 2 <= n
  {
    match i
    case 0 => LoadHead(0)
    case 1 => LoadNext(0)
    case 2 => LoadHead(1)
    case 3 => LoadNext(1)
    case 4 => SwapOut(1, false)
    case 5 => LoadHead(1)
    case 6 => LoadNext(1)
    case 7 => SwapOut(1, false)
    case 8 => StartPush(0, n - 1)
    case 9 => StoreNext(0)
    case 10 => SwapIn(0, false)
    case 11 => SwapOut(0, false)
    case 12 => LoadHead(0)
    case 13 => LoadNext(0)
    case _ => SwapOut(0, false)
  }

  ghost predicate Fits(i: nat, n: nat, poppers: nat, pushers: nat)
    requires 2 <= n && 2 <= poppers && 1 <= pushers
  {
    var s := Along(i, n, poppers, pushers);
    Enabled(s, StepAt(i, n)) && Apply(s, StepAt(i, n)) == Along(i + 1, n, poppers, pushers)
  }

  lemma LoadFits(i: nat, n: nat, poppers: nat, pushers: nat)
    requires 2 <= n && 2 <= poppers && 1 <= pushers && i < 4
    ensures Fits(i, n, poppers, pushers)
  {
    Moves(poppers, pushers);
    hide Both, One, Down;
  }

  lemma ReloadFits(i: nat, n: nat, poppers: nat, pushers: nat)
    requires 2 <= n && 2 <= poppers && 1 <= pushers && (i == 5 || i == 6 || i == 12 || i == 13)
    ensures Fits(i, n, poppers, pushers)
  {
    Moves(poppers, pushers);
    hide Both, One, Down;
  }

  lemma TakeFits(i: nat, n: nat, poppers: nat, pushers: nat)
    requires 2 <= n && 2 <= poppers && 1 <= pushers && (i == 4 || i == 7)
    ensures Fits(i, n, poppers, pushers)
  {
    Moves(poppers, pushers);
    hide Both, One, Down;
    assert Tail([n - 1, n - 2] + Down(n - 2)) == [n - 2] + Down(n - 2);
    assert Tail([n - 2] + Down(n - 2)) == Down(n - 2);
  }

  lemma GiveFits(i: nat, n: nat, poppers: nat, pushers: nat)
    requires 2 <= n && 2 <= poppers && 1 <= pushers && 8 <= i < 11
    ensures Fits(i, n, poppers, pushers)
  {
    Moves(poppers, pushers);
    hide Both, One, Down;
  }

  lemma StaleFits(i: nat, n: nat, poppers: nat, pushers: nat)
    requires 2 <= n && 2 <= poppers && 1 <= pushers && (i == 11 || i == 14)
    ensures Fits(i, n, poppers, pushers)
  {
    Moves(poppers, pushers);
    hide Both, One, Down;
    assert Tail([n - 1] + Down(n - 2)) == Down(n - 2);
  }

  lemma {:induction false} RunsAlong(i: nat, n: nat, poppers: nat, pushers: nat) returns (steps: seq<Step>)
    requires 2 <= n && 2 <= poppers && 1 <= pushers && i <= 15
    ensures Runs(Along(i, n, poppers, pushers), steps)
    ensures After(Along(i, n, poppers, pushers), steps) == Along(15, n, poppers, pushers)
    decreases 15 - i
  {
    hide Along, Runs, After, Enabled, Apply, StepAt;
    if i == 15 {
      Nowhere(Along(15, n, poppers, pushers));
      steps := [];
    } else {
      steps := RunsAlong(i + 1, n, poppers, pushers);
      if i == 4 || i == 7 { TakeFits(i, n, poppers, pushers); }
      else if i == 11 || i == 14 { StaleFits(i, n, poppers, pushers); }
      else if 8 <= i < 11 { GiveFits(i, n, poppers, pushers); }
      else if i < 4 { LoadFits(i, n, poppers, pushers); }
      else { ReloadFits(i, n, poppers, pushers); }
      steps := Prepend(Along(i, n, poppers, pushers), StepAt(i, n), Along(i + 1, n, poppers, pushers), steps);
    }
  }

  lemma AlongStarts(n: nat, poppers: nat, pushers: nat)
    requires 2 <= n && 2 <= poppers && 1 <= pushers
    ensures Along(0, n, poppers, pushers) == Init(n, poppers, pushers)
    ensures Along(15, n, poppers, pushers).held[n - 2] == 2
  {
    assert Down(n) == [n - 1] + Down(n - 1) && Down(n - 1) == [n - 2] + Down(n - 2);
  }

  /** In every pool with two slots, two popping threads and a pushing thread can
      have one slot handed out twice. */
  lemma TwoPoppersBreakIt(capacity: nat, poppers: nat, pushers: nat) returns (steps: seq<Step>)
    requires 2 <= capacity && 2 <= poppers && 1 <= pushers
    ensures Runs(Init(capacity, poppers, pushers), steps)
    ensures After(Init(capacity, poppers, pushers), steps).held[capacity - 2] == 2
  {
    hide Along;
    AlongStarts(capacity, poppers, pushers);
    steps := RunsAlong(0, capacity, poppers, pushers);
  }

  /** Exactly when the free list is sound in every run. */
  lemma SoundExactly(capacity: nat, poppers: nat, pushers: nat)
    ensures (forall steps: seq<Step> :: Runs(Init(capacity, poppers, pushers), steps) ==> SoundList(After(Init(capacity, poppers, pushers), steps)))
      <==> poppers <= 1 || pushers == 0 || capacity <= 1
  {
    var z := Init(capacity, poppers, pushers);
    if poppers <= 1 || pushers == 0 || capacity <= 1 {
      InitKeeps(capacity, poppers, pushers);
      forall steps: seq<Step> | Runs(z, steps)
        ensures SoundList(After(z, steps))
      {
        if poppers <= 1 {
          FreeListIsSound(capacity, poppers, pushers, steps);
        } else {
          RunStill(z, steps);
          InvIsSound(After(z, steps));
        }
      }
    } else {
      var steps := TwoPoppersBreakIt(capacity, poppers, pushers);
      HeldTwice(After(z, steps), capacity - 2);
    }
  }

  lemma HeldTwice(s: Pool, slot: nat)
    requires s.held[slot] == 2
    ensures !SoundList(s)
  {
    assert Places(s, slot) >= 2;
  }
}
