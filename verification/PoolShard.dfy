/** One shard of the buffer pool: a fixed pool of slots, linked through indices
    into one free list and one bucket per size class. The lists share the slots
    and are rewired in place. */
module PoolShard {

  const Classes: nat := 16

  /** Following `next` from `head` visits `list` and ends. */
  ghost predicate Linked(next: seq<int>, head: int, list: seq<nat>)
  {
    && head == (if list == [] then -1 else list[0])
    && forall j {:trigger list[j]} :: 0 <= j < |list| ==>
         list[j] < |next| && next[list[j]] == if j + 1 < |list| then list[j + 1] else -1
  }

  lemma LinkedElsewhere(next: seq<int>, head: int, list: seq<nat>, slot: nat, v: int)
    requires Linked(next, head, list) && slot < |next| && slot !in list
    ensures Linked(next[slot := v], head, list)
  {
  }

  lemma LinkedTail(next: seq<int>, head: int, list: seq<nat>)
    requires Linked(next, head, list) && list != []
    ensures head == list[0] && list[0] < |next| && Linked(next, next[list[0]], list[1..])
  {
    var rest := list[1..];
    assert forall j {:trigger rest[j]} :: 0 <= j < |rest| ==> rest[j] == list[j + 1];
  }

  lemma LinkedPush(next: seq<int>, head: int, list: seq<nat>, slot: nat)
    requires Linked(next, head, list) && slot < |next| && slot !in list
    ensures Linked(next[slot := head], slot, [slot] + list)
  {
    var more := [slot] + list;
    assert forall j {:trigger more[j]} :: 0 < j < |more| ==> more[j] == list[j - 1];
  }

  /** In how many of the lists, and how often, a slot appears. */
  ghost function Listed(chains: seq<seq<nat>>, slot: nat): nat
  {
    if chains == [] then 0
    else Listed(chains[..|chains| - 1], slot) + multiset(chains[|chains| - 1])[slot]
  }

  ghost function Total(chains: seq<seq<nat>>): nat
  {
    if chains == [] then 0 else Total(chains[..|chains| - 1]) + |chains[|chains| - 1]|
  }

  lemma {:induction false} ListedUpdate(chains: seq<seq<nat>>, k: nat, list: seq<nat>, slot: nat)
    requires k < |chains|
    ensures Listed(chains[k := list], slot) == Listed(chains, slot) - multiset(chains[k])[slot] + multiset(list)[slot]
    ensures multiset(chains[k])[slot] <= Listed(chains, slot)
  {
    var n := |chains| - 1;
    if k == n {
      assert chains[k := list][..n] == chains[..n];
    } else {
      assert chains[k := list][..n] == chains[..n][k := list];
      ListedUpdate(chains[..n], k, list, slot);
    }
  }

  lemma {:induction false} ListedTwice(chains: seq<seq<nat>>, j: nat, k: nat, slot: nat)
    requires j < k < |chains| && slot in chains[j] && slot in chains[k]
    ensures Listed(chains, slot) >= 2
  {
    ListedUpdate(chains, k, [], slot);
    ListedUpdate(chains[k := []], j, [], slot);
  }

  lemma {:induction false} TotalUpdate(chains: seq<seq<nat>>, k: nat, list: seq<nat>)
    requires k < |chains|
    ensures Total(chains[k := list]) == Total(chains) - |chains[k]| + |list|
    ensures |chains[k]| <= Total(chains)
  {
    var n := |chains| - 1;
    if k == n {
      assert chains[k := list][..n] == chains[..n];
    } else {
      assert chains[k := list][..n] == chains[..n][k := list];
      TotalUpdate(chains[..n], k, list);
    }
  }

  /** Lists without elements. */
  function Empty(n: nat): (chains: seq<seq<nat>>)
    ensures |chains| == n && forall k :: 0 <= k < n ==> chains[k] == []
  {
    if n == 0 then [] else Empty(n - 1) + [[]]
  }

  lemma {:induction false} NothingListed(n: nat)
    ensures Total(Empty(n)) == 0
    ensures forall slot: nat {:trigger Listed(Empty(n), slot)} :: Listed(Empty(n), slot) == 0
  {
    if n > 0 {
      assert Empty(n)[..n - 1] == Empty(n - 1);
      NothingListed(n - 1);
    }
  }

  lemma PushCount(list: seq<nat>, slot: nat, i: nat)
    ensures multiset([slot] + list)[i] == multiset(list)[i] + if i == slot then 1 else 0
  {
  }

  lemma TailCount(list: seq<nat>, i: nat)
    requires list != []
    ensures multiset(list)[i] == multiset(list[1..])[i] + if list[0] == i then 1 else 0
  {
    assert list == [list[0]] + list[1..];
  }

  /** Every slot is in exactly one list, once. */
  ghost predicate Partition(free: seq<nat>, chains: seq<seq<nat>>, size: nat)
  {
    forall slot: nat {:trigger Listed(chains, slot)} ::
      multiset(free)[slot] + Listed(chains, slot) == if slot < size then 1 else 0
  }

  ghost predicate Buckets(next: seq<int>, heads: seq<int>, chains: seq<seq<nat>>)
  {
    && |heads| == |chains| == Classes
    && forall k {:trigger chains[k]} {:trigger heads[k]} :: 0 <= k < Classes ==> Linked(next, heads[k], chains[k])
  }

  ghost predicate Sound(next: seq<int>, freeHead: int, heads: seq<int>, freeCount: int, free: seq<nat>, chains: seq<seq<nat>>)
  {
    && Linked(next, freeHead, free)
    && Buckets(next, heads, chains)
    && Partition(free, chains, |next|)
    && freeCount == Total(chains) && |free| + freeCount == |next|
  }

  /** The first slot of a bucket is in no other list. */
  lemma TopOfBucket(free: seq<nat>, chains: seq<seq<nat>>, size: nat, k: nat)
    requires Partition(free, chains, size) && k < |chains| && chains[k] != []
    ensures chains[k][0] < size && chains[k][0] !in free && chains[k][0] !in chains[k][1..]
    ensures forall j {:trigger chains[j]} :: 0 <= j < |chains| && j != k ==> chains[k][0] !in chains[j]
  {
    var slot := chains[k][0];
    ListedUpdate(chains, k, [], slot);
    TailCount(chains[k], slot);
    assert multiset(free)[slot] + Listed(chains, slot) <= 1;
    forall j {:trigger chains[j]} | 0 <= j < |chains| && j != k
      ensures slot !in chains[j]
    {
      if slot in chains[j] {
        if j < k { ListedTwice(chains, j, k, slot); } else { ListedTwice(chains, k, j, slot); }
      }
    }
  }

  lemma TopOfFree(free: seq<nat>, chains: seq<seq<nat>>, size: nat)
    requires Partition(free, chains, size) && free != []
    ensures free[0] < size && free[0] !in free[1..]
    ensures forall j {:trigger chains[j]} :: 0 <= j < |chains| ==> free[0] !in chains[j]
  {
    var slot := free[0];
    TailCount(free, slot);
    assert multiset(free)[slot] + Listed(chains, slot) <= 1;
    forall j {:trigger chains[j]} | 0 <= j < |chains|
      ensures slot !in chains[j]
    {
      ListedUpdate(chains, j, [], slot);
    }
  }

  lemma MovePartition(free: seq<nat>, free': seq<nat>, chains: seq<seq<nat>>, k: nat, list: seq<nat>, size: nat)
    requires Partition(free, chains, size) && k < |chains|
    requires (chains[k] != [] && list == chains[k][1..] && free' == [chains[k][0]] + free)
          || (free != [] && free' == free[1..] && list == [free[0]] + chains[k])
    ensures Partition(free', chains[k := list], size)
  {
    forall slot: nat
      ensures multiset(free')[slot] + Listed(chains[k := list], slot) == if slot < size then 1 else 0
    {
      ListedUpdate(chains, k, list, slot);
      assert multiset(free)[slot] + Listed(chains, slot) == if slot < size then 1 else 0;
      if chains[k] != [] && list == chains[k][1..] && free' == [chains[k][0]] + free {
        TailCount(chains[k], slot);
        PushCount(free, chains[k][0], slot);
      } else {
        TailCount(free, slot);
        PushCount(chains[k], free[0], slot);
      }
    }
  }

  lemma PopKeeps(next: seq<int>, freeHead: int, heads: seq<int>, freeCount: int, free: seq<nat>, chains: seq<seq<nat>>, k: nat)
    requires Sound(next, freeHead, heads, freeCount, free, chains) && k < Classes && chains[k] != []
    ensures 0 <= heads[k] < |next| && heads[k] == chains[k][0]
    ensures Sound(next[heads[k] := freeHead], heads[k], heads[k := next[heads[k]]], freeCount - 1,
                  [chains[k][0]] + free, chains[k := chains[k][1..]])
  {
    var slot := chains[k][0];
    var rest := chains[k][1..];
    TopOfBucket(free, chains, |next|, k);
    LinkedTail(next, heads[k], chains[k]);
    MovePartition(free, [slot] + free, chains, k, rest, |next|);
    TotalUpdate(chains, k, rest);
    LinkedPush(next, freeHead, free, slot);
    var next' := next[slot := freeHead];
    var chains' := chains[k := rest];
    var heads' := heads[k := next[slot]];
    hide Linked, Partition, Total;
    forall j {:trigger chains'[j]} | 0 <= j < Classes
      ensures Linked(next', heads'[j], chains'[j])
    {
      LinkedElsewhere(next, heads'[j], chains'[j], slot, freeHead);
    }
  }

  lemma PushKeeps(next: seq<int>, freeHead: int, heads: seq<int>, freeCount: int, free: seq<nat>, chains: seq<seq<nat>>, k: nat)
    requires Sound(next, freeHead, heads, freeCount, free, chains) && k < Classes && free != []
    ensures 0 <= freeHead < |next| && freeHead == free[0]
    ensures Sound(next[freeHead := heads[k]], next[freeHead], heads[k := freeHead], freeCount + 1,
                  free[1..], chains[k := [free[0]] + chains[k]])
  {
    var slot := free[0];
    TopOfFree(free, chains, |next|);
    LinkedTail(next, freeHead, free);
    MovePartition(free, free[1..], chains, k, [slot] + chains[k], |next|);
    TotalUpdate(chains, k, [slot] + chains[k]);
    LinkedElsewhere(next, next[slot], free[1..], slot, heads[k]);
    LinkedPush(next, heads[k], chains[k], slot);
    var next' := next[slot := heads[k]];
    var chains' := chains[k := [slot] + chains[k]];
    var heads' := heads[k := slot];
    hide Linked, Partition, Total;
    forall j {:trigger chains'[j]} | 0 <= j < Classes
      ensures Linked(next', heads'[j], chains'[j])
    {
      if j != k { LinkedElsewhere(next, heads[j], chains[j], slot, heads[k]); }
    }
  }

  /** The buffers in a list of slots. */
  ghost function Held(buffer: seq<nat>, list: seq<nat>): (b: seq<nat>)
    ensures |b| == |list| && forall j :: 0 <= j < |b| ==> b[j] == if list[j] < |buffer| then buffer[list[j]] else 0
  {
    seq(|list|, j requires 0 <= j < |list| => if list[j] < |buffer| then buffer[list[j]] else 0)
  }

  ghost function HeldAll(buffer: seq<nat>, chains: seq<seq<nat>>): (b: seq<seq<nat>>)
    ensures |b| == |chains| && forall k :: 0 <= k < |b| ==> b[k] == Held(buffer, chains[k])
  {
    seq(|chains|, k requires 0 <= k < |chains| => Held(buffer, chains[k]))
  }

  lemma {:induction false} SameTotal(buffer: seq<nat>, chains: seq<seq<nat>>)
    ensures Total(HeldAll(buffer, chains)) == Total(chains)
  {
    if chains != [] {
      var n := |chains| - 1;
      SameTotal(buffer, chains[..n]);
      assert HeldAll(buffer, chains)[..n] == HeldAll(buffer, chains[..n]);
    }
  }

  lemma HeadSlots(next: seq<int>, freeHead: int, heads: seq<int>, freeCount: int, free: seq<nat>, chains: seq<seq<nat>>, k: nat)
    requires Sound(next, freeHead, heads, freeCount, free, chains) && k < Classes
    ensures heads[k] >= 0 <==> chains[k] != []
    ensures freeHead >= 0 <==> freeCount < |next|
    ensures freeHead >= 0 <==> free != []
    ensures |heads| == |chains| == Classes && Partition(free, chains, |next|)
  {
  }

  /** Slots of a bucket are not in other buckets, so clearing or filling one
      slot does not show in them. */
  lemma HeldElsewhere(buffer: seq<nat>, list: seq<nat>, slot: nat, v: nat)
    requires slot !in list && slot < |buffer|
    ensures Held(buffer[slot := v], list) == Held(buffer, list)
  {
  }

  lemma HeldAfterPop(buffer: seq<nat>, free: seq<nat>, chains: seq<seq<nat>>, k: nat)
    requires Partition(free, chains, |buffer|) && |chains| == Classes && k < Classes && chains[k] != []
    ensures chains[k][0] < |buffer|
    ensures var slot := chains[k][0]; var buffer' := buffer[slot := 0];
      && (forall j: nat {:trigger chains[j]} :: j < Classes && j != k ==> Held(buffer', chains[j]) == Held(buffer, chains[j]))
      && [buffer[slot]] + Held(buffer', chains[k][1..]) == Held(buffer, chains[k])
  {
    var slot := chains[k][0];
    TopOfBucket(free, chains, |buffer|, k);
    hide Partition;
    forall j: nat {:trigger chains[j]} | j < Classes && j != k
      ensures Held(buffer[slot := 0], chains[j]) == Held(buffer, chains[j])
    {
      HeldElsewhere(buffer, chains[j], slot, 0);
    }
    HeldElsewhere(buffer, chains[k][1..], slot, 0);
    assert [buffer[slot]] + Held(buffer, chains[k][1..]) == Held(buffer, chains[k]);
  }

  lemma HeldAfterPush(buffer: seq<nat>, free: seq<nat>, chains: seq<seq<nat>>, k: nat, buf: nat)
    requires Partition(free, chains, |buffer|) && |chains| == Classes && k < Classes && free != []
    ensures free[0] < |buffer|
    ensures var slot := free[0]; var buffer' := buffer[slot := buf];
      && (forall j: nat {:trigger chains[j]} :: j < Classes ==> Held(buffer', chains[j]) == Held(buffer, chains[j]))
      && Held(buffer', [slot] + chains[k]) == [buf] + Held(buffer, chains[k])
  {
    var slot := free[0];
    TopOfFree(free, chains, |buffer|);
    hide Partition;
    forall j: nat {:trigger chains[j]} | j < Classes
      ensures Held(buffer[slot := buf], chains[j]) == Held(buffer, chains[j])
    {
      HeldElsewhere(buffer, chains[j], slot, buf);
    }
    assert Held(buffer[slot := buf], [slot] + chains[k]) == [buf] + Held(buffer[slot := buf], chains[k]);
  }

  class Shard {
    const buffer: array<nat>         // of each slot; 0 is NULL
    const next: array<int>           // of each slot; negative is NULL
    const sizeBuckets: array<int>
    const maxFreeCount: nat
    var freeSlots: int
    var freeCount: int
    ghost var free: seq<nat>
    ghost var chains: seq<seq<nat>>

    ghost predicate Valid()
      reads this, buffer, next, sizeBuckets
    {
      && sizeBuckets != next && buffer.Length == next.Length && sizeBuckets.Length == Classes
      && Sound(next[..], freeSlots, sizeBuckets[..], freeCount, free, chains)
    }

    ghost function Foot(): set<object>
    {
      {this, buffer, next, sizeBuckets}
    }

    /** The buffers of every size class. */
    ghost function Shelf(): (shelf: seq<seq<nat>>)
      requires Valid()
      reads this, buffer, next, sizeBuckets
      ensures |shelf| == Classes && forall k: nat {:trigger shelf[k]} :: k < Classes ==> shelf[k] == Bucket(k)
    {
      HeldAll(buffer[..], chains)
    }

    /** The buffers of a size class, last pushed first. */
    ghost function Bucket(k: nat): (b: seq<nat>)
      requires Valid() && k < Classes
      reads this, buffer, next, sizeBuckets
    {
      Held(buffer[..], chains[k])
    }

    constructor (slots: nat, max: nat)
      requires 0 < slots
      ensures Valid()
      ensures next.Length == slots && maxFreeCount == max && freeCount == 0
      ensures fresh(Foot()) && this in Foot()
      ensures |Shelf()| == Classes && forall k: nat {:trigger Shelf()[k]} :: k < Classes ==> Shelf()[k] == []
    {
      buffer := new nat[slots](i => 0);
      next := new int[slots](i => -1);
      sizeBuckets := new int[Classes](i => -1);
      maxFreeCount, freeCount, freeSlots := max, 0, 0;
      new;
      for i := 0 to slots - 1
        invariant forall j :: 0 <= j < slots ==> next[j] == if j < i then j + 1 else -1
        invariant forall k :: 0 <= k < Classes ==> sizeBuckets[k] == -1
        invariant buffer.Length == next.Length == slots && sizeBuckets.Length == Classes && freeCount == 0 && freeSlots == 0 && maxFreeCount == max
      {
        next[i] := i + 1;
      }
      free := Up(slots);
      chains := Empty(Classes);
      UpHoldsAll(slots);
      NothingListed(Classes);
    }

    /** Below the high-water mark (0: none), and a slot is left. */
    predicate Accepts()
      reads this
    {
      (maxFreeCount == 0 || freeCount < maxFreeCount) && freeCount < next.Length
    }

    /** The count is the number of buffers in the buckets. */
    lemma CountsBuffers()
      requires Valid()
      ensures freeCount == Total(Shelf())
    {
      SameTotal(buffer[..], chains);
    }

    /** When the high-water mark is the number of slots, a shard below it always has
        a free slot: only the mark ever refuses. */
    lemma OnlyTheMarkRefuses()
      requires Valid() && maxFreeCount == next.Length > 0
      ensures Accepts() <==> freeCount < maxFreeCount
      ensures freeCount < maxFreeCount ==> freeSlots >= 0
    {
      HeadSlots(next[..], freeSlots, sizeBuckets[..], freeCount, free, chains, 0);
    }

    lemma FullRefuses()
      ensures maxFreeCount > 0 && freeCount >= maxFreeCount ==> !Accepts()
    {
    }

    /** Takes the buffer last pushed to a class, if there is one; its slot goes
        back to the free list. */
    method Pop(k: nat) returns (got: bool, buf: nat)
      requires Valid() && k < Classes
      modifies this, buffer, next, sizeBuckets
      ensures Valid() && got == (old(Bucket(k)) != [])
      ensures forall j: nat :: j < Classes && (j != k || old(Bucket(k)) == []) ==> Bucket(j) == old(Bucket(j))
      ensures old(Bucket(k)) != [] ==> [buf] + Bucket(k) == old(Bucket(k))
      ensures freeCount == old(freeCount) - if old(Bucket(k)) == [] then 0 else 1
    {
      hide Sound, Partition, Total, Listed;
      got, buf := false, 0;
      var slot := sizeBuckets[k];
      HeadSlots(next[..], freeSlots, sizeBuckets[..], freeCount, free, chains, k);
      if slot >= 0 {
        PopKeeps(next[..], freeSlots, sizeBuckets[..], freeCount, free, chains, k);
        HeldAfterPop(buffer[..], free, chains, k);
        sizeBuckets[k] := next[slot];
        got, buf := true, buffer[slot];
        freeCount := freeCount - 1;
        buffer[slot] := 0;
        next[slot] := freeSlots;
        freeSlots := slot;
        free := [chains[k][0]] + free;
        chains := chains[k := chains[k][1..]];
      }
    }

    /** Keeps a buffer, unless the shard holds as many as it may or has no slot. */
    method Push(k: nat, buf: nat) returns (ok: bool)
      requires Valid() && k < Classes
      modifies this, buffer, next, sizeBuckets
      ensures Valid()
      ensures ok == old(Accepts())
      ensures ok <==> (maxFreeCount == 0 || old(freeCount) < maxFreeCount) && old(freeCount) < next.Length
      ensures forall j: nat :: j < Classes && (j != k || !ok) ==> Bucket(j) == old(Bucket(j))
      ensures ok ==> Bucket(k) == [buf] + old(Bucket(k))
      ensures freeCount == old(freeCount) + if ok then 1 else 0
      ensures !ok ==> !Accepts()
    {
      hide Sound, Partition, Total, Listed;
      HeadSlots(next[..], freeSlots, sizeBuckets[..], freeCount, free, chains, k);
      if maxFreeCount > 0 && freeCount >= maxFreeCount {
        return false;
      }
      var slot := freeSlots;
      if slot < 0 {
        return false;
      }
      PushKeeps(next[..], freeSlots, sizeBuckets[..], freeCount, free, chains, k);
      HeldAfterPush(buffer[..], free, chains, k, buf);
      freeSlots := next[slot];
      buffer[slot] := buf;
      next[slot] := sizeBuckets[k];
      sizeBuckets[k] := slot;
      freeCount := freeCount + 1;
      chains := chains[k := [free[0]] + chains[k]];
      free := free[1..];
      ok := true;
    }
  }

  /** `0, 1, ..., n - 1`. */
  ghost function Up(n: nat): (list: seq<nat>)
    ensures |list| == n && forall j :: 0 <= j < n ==> list[j] == j
  {
    if n == 0 then [] else Up(n - 1) + [n - 1]
  }

  lemma SnocCount(list: seq<nat>, x: nat, i: nat)
    ensures multiset(list + [x])[i] == multiset(list)[i] + if x == i then 1 else 0
  {
  }

  lemma UpMore(n: nat)
    ensures n == 0 ==> Up(n) == []
    ensures n > 0 ==> Up(n) == Up(n - 1) + [n - 1]
  {
  }

  lemma {:induction false} UpHolds(n: nat, i: nat)
    ensures multiset(Up(n))[i] == if i < n then 1 else 0
  {
    hide Up;
    UpMore(n);
    if n > 0 {
      UpHolds(n - 1, i);
      SnocCount(Up(n - 1), n - 1, i);
    }
  }

  lemma UpHoldsAll(n: nat)
    ensures forall i: nat {:trigger multiset(Up(n))[i]} :: multiset(Up(n))[i] == if i < n then 1 else 0
  {
    forall i: nat
      ensures multiset(Up(n))[i] == if i < n then 1 else 0
    {
      UpHolds(n, i);
    }
  }
}
