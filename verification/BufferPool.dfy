/** The buffer pool before it is destroyed: thread caches, shards and the heap.
    A buffer address stands for the buffer; 0 is NULL. */
module BufferPool {
  import opened SizeClasses
  import PoolShard

  const CACHE_SIZE: nat := 32
  const BATCH_SIZE: nat := 16

  /** One stack of buffers for each size class. */
  type Shelf = seq<seq<nat>>

  /** The cache of a thread; the top of a stack is its last element. */
  datatype Cache = NoCache | Cache(shardId: nat, stacks: Shelf)

  ghost function ShelfOf(c: Cache): Shelf
  {
    if c.NoCache? then [] else c.stacks
  }

  ghost function Shelves(caches: seq<Cache>): (r: seq<Shelf>)
    ensures |r| == |caches| && forall i :: 0 <= i < |r| ==> r[i] == ShelfOf(caches[i])
  {
    seq(|caches|, i requires 0 <= i < |caches| => ShelfOf(caches[i]))
  }

  // -------------------------------------------------------------- conservation

  /** How often a buffer lies on the stacks of a class. */
  ghost function On(shelf: Shelf, k: nat, b: nat): nat
  {
    if k < |shelf| then multiset(shelf[k])[b] else 0
  }

  ghost function SumAt(shelves: seq<Shelf>, k: nat, b: nat): nat
  {
    if shelves == [] then 0 else SumAt(shelves[..|shelves| - 1], k, b) + On(shelves[|shelves| - 1], k, b)
  }

  lemma {:induction false} SumAtUpdate(shelves: seq<Shelf>, i: nat, shelf: Shelf, k: nat, b: nat)
    requires i < |shelves|
    ensures SumAt(shelves[i := shelf], k, b) == SumAt(shelves, k, b) - On(shelves[i], k, b) + On(shelf, k, b)
    ensures On(shelves[i], k, b) <= SumAt(shelves, k, b)
  {
    var n := |shelves| - 1;
    if i == n {
      assert shelves[i := shelf][..n] == shelves[..n];
    } else {
      assert shelves[i := shelf][..n] == shelves[..n][i := shelf];
      SumAtUpdate(shelves[..n], i, shelf, k, b);
    }
  }

  lemma {:induction false} SumAtEmpty(shelves: seq<Shelf>, k: nat, b: nat)
    requires forall i, j :: 0 <= i < |shelves| && 0 <= j < |shelves[i]| ==> shelves[i][j] == []
    ensures SumAt(shelves, k, b) == 0
  {
    if shelves != [] { SumAtEmpty(shelves[..|shelves| - 1], k, b); }
  }

  ghost function In(m: map<nat, nat>, k: nat, b: nat): nat
  {
    if b in m && m[b] == k then 1 else 0
  }

  /** Every buffer taken from the heap and not given back is in exactly one
      place, and there under its own class: with the user, on one stack of one
      cache, or on one stack of one shard. */
  ghost predicate Kept(user: map<nat, nat>, live: map<nat, nat>, caches: seq<Shelf>, shards: seq<Shelf>)
  {
    && 0 !in live && (forall b {:trigger live[b]} :: b in live ==> live[b] < SIZE_CLASSES)
    && forall k: nat, b: nat {:trigger SumAt(shards, k, b)} {:trigger SumAt(caches, k, b)} {:trigger In(user, k, b)} ::
         In(user, k, b) + SumAt(caches, k, b) + SumAt(shards, k, b) == In(live, k, b)
  }

  lemma KeptSwap(user: map<nat, nat>, live: map<nat, nat>, xs: seq<Shelf>, ys: seq<Shelf>)
    requires Kept(user, live, xs, ys)
    ensures Kept(user, live, ys, xs)
  {
  }

  lemma UserIsLive(user: map<nat, nat>, live: map<nat, nat>, xs: seq<Shelf>, ys: seq<Shelf>, b: nat)
    requires Kept(user, live, xs, ys) && b in user
    ensures b in live && live[b] == user[b] && user[b] < SIZE_CLASSES && b != 0
    ensures forall k: nat :: SumAt(xs, k, b) == 0 && SumAt(ys, k, b) == 0
  {
    assert In(user, user[b], b) == 1;
    assert In(user, user[b], b) + SumAt(xs, user[b], b) + SumAt(ys, user[b], b) == In(live, user[b], b);
    forall k: nat
      ensures SumAt(xs, k, b) == 0 && SumAt(ys, k, b) == 0
    {
      assert In(user, k, b) + SumAt(xs, k, b) + SumAt(ys, k, b) == In(live, k, b);
    }
  }

  /** One buffer leaves a stack for the user. */
  lemma Taken(user: map<nat, nat>, live: map<nat, nat>, xs: seq<Shelf>, ys: seq<Shelf>, i: nat, k: nat, rest: seq<nat>, b: nat)
    requires Kept(user, live, xs, ys) && i < |xs| && k < |xs[i]|
    requires multiset(xs[i][k]) == multiset(rest) + multiset{b}
    ensures b in live && live[b] == k && b !in user && b != 0
    ensures Kept(user[b := k], live, xs[i := xs[i][k := rest]], ys)
  {
    SumAtUpdate(xs, i, [], k, b);
    assert In(user, k, b) + SumAt(xs, k, b) + SumAt(ys, k, b) == In(live, k, b);
    if b in user { UserIsLive(user, live, xs, ys, b); }
    var xs' := xs[i := xs[i][k := rest]];
    forall j: nat, c: nat
      ensures In(user[b := k], j, c) + SumAt(xs', j, c) + SumAt(ys, j, c) == In(live, j, c)
    {
      SumAtUpdate(xs, i, xs[i][k := rest], j, c);
      assert In(user, j, c) + SumAt(xs, j, c) + SumAt(ys, j, c) == In(live, j, c);
    }
  }

  /** One buffer goes from the user to a stack of its class. */
  lemma Given(user: map<nat, nat>, live: map<nat, nat>, xs: seq<Shelf>, ys: seq<Shelf>, i: nat, k: nat, more: seq<nat>, b: nat)
    requires Kept(user, live, xs, ys) && i < |xs| && k < |xs[i]| && b in user && user[b] == k
    requires multiset(more) == multiset(xs[i][k]) + multiset{b}
    ensures Kept(user - {b}, live, xs[i := xs[i][k := more]], ys)
  {
    var xs' := xs[i := xs[i][k := more]];
    forall j: nat, c: nat
      ensures In(user - {b}, j, c) + SumAt(xs', j, c) + SumAt(ys, j, c) == In(live, j, c)
    {
      SumAtUpdate(xs, i, xs[i][k := more], j, c);
      assert In(user, j, c) + SumAt(xs, j, c) + SumAt(ys, j, c) == In(live, j, c);
    }
  }

  /** A new buffer from the heap goes to the user. */
  lemma Born(user: map<nat, nat>, live: map<nat, nat>, xs: seq<Shelf>, ys: seq<Shelf>, k: nat, b: nat)
    requires Kept(user, live, xs, ys) && b !in live && b != 0 && k < SIZE_CLASSES
    ensures b !in user && Kept(user[b := k], live[b := k], xs, ys)
  {
    if b in user { UserIsLive(user, live, xs, ys, b); }
    forall j: nat, c: nat
      ensures In(user[b := k], j, c) + SumAt(xs, j, c) + SumAt(ys, j, c) == In(live[b := k], j, c)
    {
      assert In(user, j, c) + SumAt(xs, j, c) + SumAt(ys, j, c) == In(live, j, c);
    }
  }

  /** A buffer goes from the user back to the heap. */
  lemma Dead(user: map<nat, nat>, live: map<nat, nat>, xs: seq<Shelf>, ys: seq<Shelf>, b: nat)
    requires Kept(user, live, xs, ys) && b in user
    ensures Kept(user - {b}, live - {b}, xs, ys)
  {
    UserIsLive(user, live, xs, ys, b);
    forall j: nat, c: nat
      ensures In(user - {b}, j, c) + SumAt(xs, j, c) + SumAt(ys, j, c) == In(live - {b}, j, c)
    {
      assert In(user, j, c) + SumAt(xs, j, c) + SumAt(ys, j, c) == In(live, j, c);
      assert In(user, user[b], b) + SumAt(xs, user[b], b) + SumAt(ys, user[b], b) == In(live, user[b], b);
    }
  }

  /** A live buffer that is not with the user is on a stack; if it is taken off the
      books there, not every buffer on a stack is live any more. */
  lemma LostOnStack(user: map<nat, nat>, live: map<nat, nat>, xs: seq<Shelf>, ys: seq<Shelf>, b: nat)
    requires Kept(user, live, xs, ys) && b in live && b !in user
    ensures !Kept(user, live - {b}, xs, ys)
  {
    assert In(user, live[b], b) + SumAt(xs, live[b], b) + SumAt(ys, live[b], b) == In(live, live[b], b);
    assert In(user, live[b], b) + SumAt(xs, live[b], b) + SumAt(ys, live[b], b) != In(live - {b}, live[b], b);
  }

  // -------------------------------------------------------------------- totals

  ghost function OfClass(live: map<nat, nat>, k: nat): set<nat>
  {
    set b | b in live && live[b] == k
  }

  /** The bytes of the buffers of the classes below `n`. */
  ghost function BytesBelow(live: map<nat, nat>, n: nat): nat
  {
    if n == 0 then 0 else BytesBelow(live, n - 1) + |OfClass(live, n - 1)| * ClassToSize(n - 1)
  }

  ghost function Bytes(live: map<nat, nat>): nat
  {
    BytesBelow(live, SIZE_CLASSES)
  }

  lemma OfClassAdd(live: map<nat, nat>, b: nat, k: nat, j: nat)
    requires b !in live
    ensures |OfClass(live[b := k], j)| == |OfClass(live, j)| + if j == k then 1 else 0
  {
    assert OfClass(live[b := k], j) == if j == k then OfClass(live, j) + {b} else OfClass(live, j);
  }

  lemma OneMore(n: int, size: int)
    ensures (n + 1) * size == n * size + size
  {
  }

  lemma {:induction false} BytesBelowAdd(live: map<nat, nat>, b: nat, k: nat, n: nat)
    requires b !in live
    ensures BytesBelow(live[b := k], n) == BytesBelow(live, n) + if k < n then ClassToSize(k) else 0
  {
    hide OfClass, ClassToSize;
    if n > 0 {
      BytesBelowAdd(live, b, k, n - 1);
      OfClassAdd(live, b, k, n - 1);
      OneMore(|OfClass(live, n - 1)|, ClassToSize(n - 1));
    }
  }

  lemma BytesAdd(live: map<nat, nat>, b: nat, k: nat)
    requires b !in live && k < SIZE_CLASSES
    ensures Bytes(live[b := k]) == Bytes(live) + ClassToSize(k)
    ensures |live[b := k]| == |live| + 1
  {
    BytesBelowAdd(live, b, k, SIZE_CLASSES);
    assert live[b := k].Keys == live.Keys + {b};
    assert |live[b := k].Keys| == |live.Keys| + 1;
  }

  lemma BytesRemove(live: map<nat, nat>, b: nat)
    requires b in live && live[b] < SIZE_CLASSES
    ensures Bytes(live - {b}) == Bytes(live) - ClassToSize(live[b])
    ensures |live - {b}| == |live| - 1
  {
    var rest := live - {b};
    assert rest[b := live[b]] == live;
    BytesAdd(rest, b, live[b]);
  }

  lemma {:induction false} NoBytes(n: nat)
    ensures BytesBelow(map[], n) == 0
  {
    if n > 0 {
      NoBytes(n - 1);
      assert OfClass(map[], n - 1) == {};
    }
  }

  // ------------------------------------------------------------------ the pool

  ghost predicate CachesShaped(caches: seq<Cache>, shards: nat)
  {
    forall t {:trigger caches[t]} :: 0 <= t < |caches| && caches[t].Cache? ==>
      && caches[t].shardId < shards && |caches[t].stacks| == SIZE_CLASSES
      && forall k :: 0 <= k < SIZE_CLASSES ==> |caches[t].stacks[k]| <= CACHE_SIZE
  }

  class Pool {
    const shards: seq<PoolShard.Shard>
    const caches: array<Cache>                 // by thread
    var nextShard: nat
    var totalAllocated: int
    var totalBuffers: int
    ghost const repr: set<object>              // the shards and their arrays
    ghost var stock: seq<Shelf>                // the contents of the shards
    ghost var user: map<nat, nat>              // buffers with the user, by class
    ghost var live: map<nat, nat>              // buffers taken from the heap, by class

    /** The shards share no memory with each other or with the pool. */
    ghost predicate Apart()
    {
      && this !in repr && caches !in repr && 0 < |shards|
      && (forall i {:trigger shards[i]} :: 0 <= i < |shards| ==> shards[i].Foot() <= repr)
      && (forall i, j {:trigger shards[i], shards[j]} :: 0 <= i < j < |shards| ==> shards[i].Foot() !! shards[j].Foot())
    }

    /** The shards are as `stock` says. */
    ghost predicate Shaped()
      reads this`stock, repr
    {
      && Apart() && |stock| == |shards|
      && (forall i {:trigger shards[i]} {:trigger stock[i]} :: 0 <= i < |shards| ==>
            shards[i] in repr && shards[i].Foot() <= repr &&
            shards[i].Valid() && shards[i].Shelf() == stock[i] && |stock[i]| == SIZE_CLASSES)
    }

    /** Every buffer is in one place and the totals are those of the live ones. */
    ghost predicate Valid()
      reads this, caches, repr
    {
      && Shaped() && CachesShaped(caches[..], |shards|)
      && Kept(user, live, Shelves(caches[..]), stock)
      && totalBuffers == |live| && totalAllocated == Bytes(live)
    }

    constructor (threads: nat, shardCount: nat, slots: nat, maxFree: nat)
      requires 0 < shardCount && 0 < slots
      ensures Valid() && user == map[] && live == map[]
      ensures |shards| == shardCount && caches.Length == threads && fresh(repr) && fresh(caches)
      ensures forall t :: 0 <= t < threads ==> caches[t].NoCache?
    {
      var made, foot, bare := MakeShards(shardCount, slots, maxFree);
      shards, repr, stock := made, foot, bare;
      caches := new Cache[threads](_ => NoCache);
      nextShard, totalAllocated, totalBuffers := 0, 0, 0;
      user, live := map[], map[];
      new;
      hide *;
      NoneBare();
      StartShaped();
      EmptyIsKept(caches[..], stock);
      assert |live| == 0;
      ValidWhole();
    }

    lemma StartShaped()
      requires this !in repr && caches !in repr && 0 < |shards| && |stock| == |shards| && AllBare(stock)
      requires forall i :: 0 <= i < |shards| ==> shards[i].Valid() && shards[i].Shelf() == stock[i]
      requires forall i :: 0 <= i < |shards| ==> shards[i] in repr && shards[i].Foot() <= repr
      requires forall i, j :: 0 <= i < j < |shards| ==> shards[i].Foot() !! shards[j].Foot()
      ensures Shaped()
    {
    }

    // -------------------------------------------- moving one buffer at a time

    /** A change of one shard leaves the others as they are. */
    twostate lemma OthersStay(i: nat)
      requires old(Shaped()) && i < |shards| && |stock| == |shards|
      requires forall o: object :: o in repr && o !in shards[i].Foot() ==> unchanged(o)
      requires shards[i].Valid() && shards[i].Shelf() == stock[i]
      requires forall j :: 0 <= j < |shards| && j != i ==> stock[j] == old(stock[j])
      ensures Shaped()
    {
      forall j {:trigger shards[j]} | 0 <= j < |shards|
        ensures shards[j].Valid() && shards[j].Shelf() == stock[j]
      {
        if j != i {
          assert shards[j].Foot() !! shards[i].Foot();
          assert old(shards[j].Valid());
        }
      }
    }

    /** One pop from a shard, seen from the pool. */
    method PopFrom(i: nat, k: nat) returns (got: bool, b: nat)
      requires Shaped() && i < |shards| && k < SIZE_CLASSES
      modifies this`stock, repr
      ensures Shaped() && caches[..] == old(caches[..]) && |old(stock)| == |stock| && |old(stock)[i]| == SIZE_CLASSES
      ensures got == (old(stock)[i][k] != [])
      ensures !got ==> stock == old(stock)
      ensures got ==> old(stock)[i][k][0] == b && stock == old(stock)[i := old(stock)[i][k := old(stock)[i][k][1..]]]
    {
      var sh := shards[i];
      assert sh.Shelf() == stock[i];
      got, b := sh.Pop(k);
      if got {
        assert sh.Shelf() == stock[i][k := stock[i][k][1..]];
        stock := stock[i := stock[i][k := stock[i][k][1..]]];
      } else {
        assert sh.Shelf() == stock[i];
      }
      OthersStay(i);
    }

    lemma ValidParts()
      requires Valid()
      ensures Shaped() && CachesShaped(caches[..], |shards|) && Kept(user, live, Shelves(caches[..]), stock)
      ensures totalBuffers == |live| && totalAllocated == Bytes(live)
      ensures this !in repr && caches !in repr && 0 < |stock| == |shards|
    {
    }

    lemma ValidWhole()
      requires Shaped() && CachesShaped(caches[..], |shards|) && Kept(user, live, Shelves(caches[..]), stock)
      requires totalBuffers == |live| && totalAllocated == Bytes(live)
      ensures Valid()
    {
    }

    /** Pops a buffer of a class from a shard into the user's hands. */
    method PopShard(i: nat, k: nat) returns (got: bool, b: nat)
      requires Valid() && i < |shards| && k < SIZE_CLASSES
      modifies this`stock, this`user, repr
      ensures Valid() && caches[..] == old(caches[..]) && live == old(live)
      ensures got ==> b !in old(user) && user == old(user)[b := k] && b in live && b != 0
      ensures !got ==> user == old(user)
      ensures |stock| == |old(stock)| == |shards| && |old(stock)[i]| == SIZE_CLASSES && got == (|old(stock)[i][k]| > 0)
      ensures got ==> b == old(stock)[i][k][0] && stock == old(stock)[i := old(stock)[i][k := old(stock)[i][k][1..]]]
      ensures !got ==> stock == old(stock)
    {
      hide *;
      ValidParts();
      ghost var was := stock;
      got, b := PopFrom(i, k);
      if got {
        TakenFromShard(user, live, Shelves(caches[..]), was, i, k);
        user := user[b := k];
      }
      ValidWhole();
    }

    /** One push to a shard, seen from the pool. */
    method PushTo(i: nat, k: nat, b: nat) returns (ok: bool)
      requires Shaped() && i < |shards| && k < SIZE_CLASSES
      modifies this`stock, repr
      ensures Shaped() && caches[..] == old(caches[..]) && |old(stock)| == |stock| && |old(stock)[i]| == SIZE_CLASSES
      ensures stock == if ok then old(stock)[i := old(stock)[i][k := [b] + old(stock)[i][k]]] else old(stock)
      ensures ok == old(shards[i].Accepts()) && (!ok ==> !shards[i].Accepts())
    {
      var sh := shards[i];
      assert sh.Shelf() == stock[i];
      ok := sh.Push(k, b);
      if ok {
        assert sh.Shelf() == stock[i][k := [b] + stock[i][k]];
        stock := stock[i := stock[i][k := [b] + stock[i][k]]];
      } else {
        assert sh.Shelf() == stock[i];
      }
      OthersStay(i);
    }

    /** Gives a buffer of the user's to a shard. */
    method PushShard(i: nat, k: nat, b: nat) returns (ok: bool)
      requires Valid() && i < |shards| && b in user && user[b] == k
      modifies this`stock, this`user, repr
      ensures Valid() && caches[..] == old(caches[..]) && live == old(live)
      ensures user == if ok then old(user) - {b} else old(user)
      ensures ok == old(shards[i].Accepts()) && (!ok ==> !shards[i].Accepts())
      ensures |stock| == |old(stock)| == |shards| && |old(stock)[i]| == SIZE_CLASSES && k < SIZE_CLASSES
      ensures stock == if ok then old(stock)[i := old(stock)[i][k := [b] + old(stock)[i][k]]] else old(stock)
    {
      hide *;
      ValidParts();
      ghost var was := stock;
      UserIsLive(user, live, Shelves(caches[..]), stock, b);
      ok := PushTo(i, k, b);
      if ok {
        GivenToShard(user, live, Shelves(caches[..]), was, i, k, b);
        user := user - {b};
      }
      ValidWhole();
    }

    /** Takes the last buffer of a thread's own stack. */
    method PopCache(t: nat, k: nat) returns (b: nat)
      requires Valid() && t < caches.Length && k < SIZE_CLASSES
      requires caches[t].Cache? && k < |caches[t].stacks| && caches[t].stacks[k] != []
      modifies this`user, caches
      ensures Valid() && b !in old(user) && user == old(user)[b := k] && b in live && b != 0
      ensures var s := old(caches[t]).stacks[k];
        b == s[|s| - 1] && caches[..] == Put(old(caches[..]), t, k, s[..|s| - 1])
    {
      hide *;
      ValidParts();
      TakenFromCache(user, live, caches[..], stock, |shards|, t, k);
      var c := caches[t];
      b := c.stacks[k][|c.stacks[k]| - 1];
      ShorterIs(caches[..], t, k);
      caches[t] := Cache(c.shardId, c.stacks[k := c.stacks[k][..|c.stacks[k]| - 1]]);
      user := user[b := k];
      ShapedApartFromCaches();
      ValidWhole();
    }

    /** Puts a buffer of the user's on a thread's own stack. */
    method PushCache(t: nat, k: nat, b: nat)
      requires Valid() && t < caches.Length && b in user && user[b] == k
      requires caches[t].Cache? && k < |caches[t].stacks| && |caches[t].stacks[k]| < CACHE_SIZE
      modifies this`user, caches
      ensures Valid() && user == old(user) - {b}
      ensures caches[..] == Put(old(caches[..]), t, k, old(caches[t]).stacks[k] + [b])
    {
      hide *;
      ValidParts();
      UserIsLive(user, live, Shelves(caches[..]), stock, b);
      GivenToCache(user, live, caches[..], stock, |shards|, t, k, b);
      var c := caches[t];
      LongerIs(caches[..], t, k, b);
      caches[t] := Cache(c.shardId, c.stacks[k := c.stacks[k] + [b]]);
      user := user - {b};
      ShapedApartFromCaches();
      ValidWhole();
    }

    twostate lemma ShapedApartFromCaches()
      requires old(Shaped()) && stock == old(stock) && caches !in repr && this !in repr
      requires forall o: object :: o in repr ==> unchanged(o)
      ensures Shaped()
    {
      forall j {:trigger shards[j]} | 0 <= j < |shards|
        ensures shards[j].Valid() && shards[j].Shelf() == stock[j]
      {
        assert old(shards[j].Valid());
      }
    }

    /** A buffer comes from the heap; `posix_memalign` has returned `b`. */
    method FromHeap(k: nat, b: nat)
      requires Valid() && b != 0 && b !in live && k < SIZE_CLASSES
      modifies this`user, this`live, this`totalAllocated, this`totalBuffers
      ensures Valid() && b !in old(user) && user == old(user)[b := k] && live == old(live)[b := k]
    {
      hide *;
      ValidParts();
      Born(user, live, Shelves(caches[..]), stock, k, b);
      BytesAdd(live, b, k);
      totalAllocated := totalAllocated + ClassToSize(k);
      totalBuffers := totalBuffers + 1;
      user, live := user[b := k], live[b := k];
      ValidWhole();
    }

    /** A buffer goes back to the heap and leaves the totals. */
    method ToHeap(k: nat, b: nat)
      requires Valid() && b in user && user[b] == k
      modifies this`user, this`live, this`totalAllocated, this`totalBuffers
      ensures Valid() && user == old(user) - {b} && live == old(live) - {b}
      ensures b in old(live) && |live| == |old(live)| - 1
    {
      hide *;
      ValidParts();
      UserIsLive(user, live, Shelves(caches[..]), stock, b);
      Dead(user, live, Shelves(caches[..]), stock, b);
      BytesRemove(live, b);
      totalAllocated := totalAllocated - ClassToSize(k);
      totalBuffers := totalBuffers - 1;
      user, live := user - {b}, live - {b};
      ValidWhole();
    }

    // -------------------------------------------------------------- operations

    /** Moves a batch of buffers from the cache's shard to the cache: the first ones
        of the shard, in order, and nothing else changes. */
    method Refill(t: nat, k: nat) returns (transferred: nat)
      requires Valid() && t < caches.Length && caches[t].Cache? && k < SIZE_CLASSES
      modifies this`stock, this`user, repr, caches
      ensures Valid() && user == old(user) && live == old(live)
      ensures k < |old(caches[t]).stacks| && |old(caches[t]).stacks[k]| <= CACHE_SIZE
      ensures old(caches[t]).shardId < |old(stock)| && k < |old(stock)[old(caches[t]).shardId]|
      ensures var (i, s) := (old(caches[t]).shardId, old(caches[t]).stacks[k]);
        var q := old(stock)[i][k];
        && transferred == Least3(BATCH_SIZE, CACHE_SIZE - |s|, |q|) && transferred <= |q|
        && caches[..] == Put(old(caches[..]), t, k, s + q[..transferred])
        && stock == Lay(old(stock), i, k, q[transferred..])
    {
      hide *;
      CacheParts(t);
      StockParts(caches[t].shardId, k);
      transferred := 0;
      ghost var u, i, s, a, st := user, caches[t].shardId, caches[t].stacks[k], caches[..], stock;
      ghost var q := stock[i][k];
      PutNone(a, t, k, s, q);
      LayNone(st, i, k, q);
      while transferred < BATCH_SIZE && |caches[t].stacks[k]| < CACHE_SIZE
        invariant Valid() && user == u && live == old(live)
        invariant transferred <= BATCH_SIZE && transferred <= |q| && |s| + transferred <= CACHE_SIZE
        invariant caches[..] == Put(a, t, k, s + q[..transferred]) && stock == Lay(st, i, k, q[transferred..])
        invariant caches[t].Cache? && caches[t].shardId == i && k < |caches[t].stacks| && caches[t].stacks[k] == s + q[..transferred]
        decreases BATCH_SIZE - transferred
      {
        StockParts(i, k);
        LayIs(st, i, k, q[transferred..]);
        var got, b := PopShard(caches[t].shardId, k);
        LayAgain(st, i, k, q[transferred..], if got then q[transferred..][1..] else []);
        if !got {
          break;
        }
        PutAgain(a, t, k, s + q[..transferred], s + q[..transferred] + [b]);
        OneOn(s, q, transferred);
        PushCache(t, k, b);
        assert user == u;
        transferred := transferred + 1;
        PutIs(a, t, k, s + q[..transferred]);
      }
      Least3Is(BATCH_SIZE, CACHE_SIZE - |s|, |q|);
    }

    /** How many buffers of a class a shard holds. */
    ghost function Stocked(i: nat, k: nat): nat
      reads this`stock
    {
      if i < |stock| && k < |stock[i]| then |stock[i][k]| else 0
    }

    lemma StockParts(i: nat, k: nat)
      requires Valid() && i < |shards| && k < SIZE_CLASSES
      ensures i < |stock| && |stock[i]| == SIZE_CLASSES && Stocked(i, k) == |stock[i][k]|
    {
    }

    /** Moves a batch of buffers from the cache to its shard, the last ones first;
        as soon as the shard refuses, all that are left go back to the heap. */
    method Flush(t: nat, k: nat) returns (result: int)
      requires Valid() && t < caches.Length && caches[t].Cache? && k < SIZE_CLASSES
      modifies this`stock, this`user, this`live, this`totalAllocated, this`totalBuffers, repr, caches
      ensures Valid() && user == old(user)
      ensures k < |old(caches[t]).stacks| && old(caches[t]).shardId < |old(stock)| == |shards| && k < |old(stock)[old(caches[t]).shardId]|
      ensures Flushed(old(caches[..]), caches[..], old(stock), stock, old(live), live, t, k, if result > 0 then result else 0)
      ensures var (i, s) := (old(caches[t]).shardId, old(caches[t]).stacks[k]);
        && (result < BATCH_SIZE && result < |s| ==> !shards[i].Accepts())
        && (old(shards[i].Accepts()) && s != [] ==> result > 0)
        && (result <= 0 ==> -result == |s|)
    {
      hide *;
      BatchSize();
      var transferred, freed := MoveOut(t, k);
      result := if transferred > 0 then transferred else -(freed as int);
    }

    /** How many go to the shard, and then to the heap. */
    method MoveOut(t: nat, k: nat) returns (transferred: nat, freed: nat)
      requires Valid() && t < caches.Length && caches[t].Cache? && k < SIZE_CLASSES
      modifies this`stock, this`user, this`live, this`totalAllocated, this`totalBuffers, repr, caches
      ensures Valid() && user == old(user)
      ensures k < |old(caches[t]).stacks| && old(caches[t]).shardId < |old(stock)| == |shards| && k < |old(stock)[old(caches[t]).shardId]|
      ensures Flushed(old(caches[..]), caches[..], old(stock), stock, old(live), live, t, k, transferred)
      ensures transferred == BATCH_SIZE || transferred + freed == |old(caches[t]).stacks[k]|
      ensures freed > 0 ==> !shards[old(caches[t]).shardId].Accepts()
      ensures old(shards[caches[t].shardId].Accepts()) ==> transferred > 0 || freed == 0
    {
      hide *;
      ValidParts();
      CacheParts(t);
      StockParts(caches[t].shardId, k);
      ghost var u, s, a, st, l := user, caches[t].stacks[k], caches[..], stock, live;
      transferred, freed := 0, 0;
      BatchSize();
      FlushBegins(a, st, l, t, k);
      ghost var i := caches[t].shardId;
      while transferred < BATCH_SIZE && |caches[t].stacks[k]| > 0
        invariant Valid() && user == u
        invariant Flushing(a, caches[..], st, stock, l, live, t, k, transferred, freed)
        invariant caches[t].Cache? && caches[t].shardId == i && k < |caches[t].stacks|
        invariant transferred <= BATCH_SIZE && |caches[t].stacks[k]| + transferred + freed == |s|
        invariant freed > 0 ==> !shards[i].Accepts()
        invariant old(shards[caches[t].shardId].Accepts()) ==> transferred > 0 || (freed == 0 && shards[i].Accepts())
        decreases |caches[t].stacks[k]|
      {
        transferred, freed := MoveRound(t, k, transferred, freed, a, st, l);
        FlushingIs(a, caches[..], st, stock, l, live, t, k, transferred, freed);
      }
      FlushEnds(a, caches[..], st, stock, l, live, t, k, transferred, freed);
    }

    /** One more for the shard; or one for the heap, or all that are left. */
    method MoveRound(t: nat, k: nat, transferred: nat, freed: nat, ghost a: seq<Cache>, ghost st: seq<Shelf>, ghost l: map<nat, nat>)
      returns (m: nat, f: nat)
      requires Valid() && t < caches.Length && caches[t].Cache? && k < SIZE_CLASSES && caches[t].shardId < |shards|
      requires k < |caches[t].stacks| && caches[t].stacks[k] != [] && transferred < BATCH_SIZE
      requires Flushing(a, caches[..], st, stock, l, live, t, k, transferred, freed)
      requires freed > 0 ==> !shards[caches[t].shardId].Accepts()
      modifies this`stock, this`user, this`live, this`totalAllocated, this`totalBuffers, repr, caches
      ensures Valid() && user == old(user) && transferred <= m <= transferred + 1 && freed <= f && m + f > transferred + freed
      ensures Flushing(a, caches[..], st, stock, l, live, t, k, m, f)
      ensures caches[t].Cache? && caches[t].shardId == old(caches[t]).shardId && k < |caches[t].stacks|
      ensures f > 0 ==> !shards[caches[t].shardId].Accepts()
      ensures old(shards[caches[t].shardId].Accepts()) ==> m > transferred
    {
      hide *;
      ghost var a1, st1, l1 := caches[..], stock, live;
      FlushingIs(a, a1, st, st1, l, l1, t, k, transferred, freed);
      AcceptsApart(caches[t].shardId);
      var shard := shards[caches[t].shardId];
      if shard.maxFreeCount > 0 && shard.freeCount >= shard.maxFreeCount {
        shard.FullRefuses();
        var drained := Drain(t, k);
        FlushDrains(a, a1, caches[..], st, st1, l, l1, live, t, k, transferred, freed);
        m, f := transferred, freed + drained;
      } else {
        StockParts(caches[t].shardId, k);
        var ok := FlushOne(t, k);
        FlushSteps(a, a1, caches[..], st, st1, stock, l, l1, live, t, k, transferred, freed, ok);
        m, f := if ok then transferred + 1 else transferred, if ok then freed else freed + 1;
      }
      FlushingIs(a, caches[..], st, stock, l, live, t, k, m, f);
    }

    /** The last buffer leaves the cache: for its shard, or for want of a slot for the heap. */
    method FlushOne(t: nat, k: nat) returns (ok: bool)
      requires Valid() && t < caches.Length && caches[t].Cache? && k < SIZE_CLASSES
      requires k < |caches[t].stacks| && caches[t].stacks[k] != []
      modifies this`stock, this`user, this`live, this`totalAllocated, this`totalBuffers, repr, caches
      ensures Valid() && user == old(user) && caches[t].Cache? && caches[t].shardId == old(caches[t]).shardId
      ensures ok == old(shards[caches[t].shardId].Accepts()) && (!ok ==> !shards[caches[t].shardId].Accepts())
      ensures old(caches[t]).shardId < |old(stock)| && k < |old(stock)[old(caches[t]).shardId]|
      ensures var (s, i) := (old(caches[t]).stacks[k], old(caches[t]).shardId);
        var b := s[|s| - 1];
        && caches[..] == Put(old(caches[..]), t, k, s[..|s| - 1])
        && stock == (if ok then old(stock)[i := old(stock)[i][k := [b] + old(stock)[i][k]]] else old(stock))
        && live == if ok then old(live) else old(live) - {b}
    {
      hide *;
      CacheParts(t);
      var i := caches[t].shardId;
      AcceptsApart(i);
      PutIs(caches[..], t, k, caches[t].stacks[k][..|caches[t].stacks[k]| - 1]);
      var b := PopCache(t, k);
      ok := PushShard(i, k, b);
      if !ok {
        ToHeap(k, b);
      }
      assert user == old(user);
    }

    /** Gives everything on a thread's stack back to the heap. */
    method Drain(t: nat, k: nat) returns (freed: nat)
      requires Valid() && t < caches.Length && caches[t].Cache? && k < SIZE_CLASSES
      modifies this`user, this`live, this`totalAllocated, this`totalBuffers, caches
      ensures Valid() && user == old(user) && k < |old(caches[t]).stacks|
      ensures caches[..] == Put(old(caches[..]), t, k, []) && live == old(live) - Elements(old(caches[t]).stacks[k])
      ensures freed == |old(caches[t]).stacks[k]|
    {
      hide *;
      CacheParts(t);
      freed := 0;
      ghost var u, s, a, l := user, caches[t].stacks[k], caches[..], live;
      PutNone(a, t, k, s, []);
      NoneGone(s, [], l);
      while |caches[t].stacks[k]| > 0
        invariant Valid() && user == u && freed <= |s|
        invariant caches[..] == Put(a, t, k, s[..|s| - freed]) && live == l - Elements(s[|s| - freed..])
        invariant caches[t].Cache? && k < |caches[t].stacks| && caches[t].stacks[k] == s[..|s| - freed]
        decreases |caches[t].stacks[k]|
      {
        ghost var n := |s| - freed;
        PutAgain(a, t, k, s[..n], s[..n - 1]);
        OneGone(s, n, 0, [], l);
        var b := PopCache(t, k);
        ToHeap(k, b);
        assert user == u;
        freed := freed + 1;
        PutIs(a, t, k, s[..n - 1]);
      }
      WholeGone(s);
    }

    lemma AcceptsApart(i: nat)
      requires Valid() && i < |shards|
      ensures shards[i] in repr && caches !in repr && this !in repr
    {
    }

    /** The shard that is next in turn. */
    ghost function Turn(): nat
      reads this`nextShard
    {
      if shards == [] then 0 else nextShard % |shards|
    }

    lemma InTurn()
      requires 0 < |shards|
      ensures Turn() == nextShard % |shards| < |shards|
    {
    }

    /** The cache of a thread, made on first use; there may be no memory for it. */
    method GetThreadCache(t: nat, allocOk: bool) returns (has: bool)
      requires Valid() && t < caches.Length
      modifies this`nextShard, caches
      ensures 0 < |shards|
      ensures Valid() && (has <==> caches[t].Cache?) && (has <==> old(caches[t]).Cache? || allocOk)
      ensures old(caches[t]).Cache? ==> caches[..] == old(caches[..])
      ensures has && old(caches[t]).NoCache? ==>
        caches[..] == old(caches[..])[t := Cache(old(Turn()), PoolShard.Empty(SIZE_CLASSES))]
      ensures nextShard == old(nextShard) + (if old(caches[t]).NoCache? && allocOk then 1 else 0)
      ensures caches[..] == WithCache(old(caches[..]), t, allocOk, old(Turn()))
    {
      hide *;
      ValidParts();
      InTurn();
      has := caches[t].Cache?;
      if !has && allocOk {
        EmptyCache(user, live, caches[..], stock, |shards|, t, nextShard % |shards|);
        caches[t] := Cache(nextShard % |shards|, PoolShard.Empty(SIZE_CLASSES));
        nextShard := nextShard + 1;
        has := true;
        ShapedApartFromCaches();
      }
      WithCacheIs(old(caches[..]), t, allocOk, old(Turn()));
      ValidWhole();
    }

    /** The shard of the thread's cache, or the next in turn. */
    method SelectShard(t: nat, has: bool) returns (i: nat)
      requires Valid() && t < caches.Length && (has ==> caches[t].Cache?)
      modifies this`nextShard
      ensures Valid() && i < |shards| && i == (if has then caches[t].shardId else old(Turn()))
      ensures nextShard == old(nextShard) + if has then 0 else 1
    {
      hide *;
      ValidParts();
      InTurn();
      if has {
        CacheParts(t);
        i := caches[t].shardId;
      } else {
        i := nextShard % |shards|;
        nextShard := nextShard + 1;
      }
      ValidWhole();
    }

    /** `buffer_pool_alloc`. `heap` are the addresses the heap returns, one after
        another, before it runs out of memory. A returned buffer is nobody
        else's, of the class of the size asked for, and was of that class when
        it came from the heap. `Allocated` says where it comes from and what
        becomes of every other buffer. */
    method Alloc(t: nat, size: nat, cacheOk: bool, heap: seq<nat>) returns (buf: nat)
      requires Valid() && t < caches.Length && FreshFor(heap, live)
      modifies this`nextShard, this`stock, this`user, this`live, this`totalAllocated, this`totalBuffers, repr, caches
      ensures Valid() && 0 < |shards|
      ensures buf == 0 ==> user == old(user) && (size == 0 || size > POOL_MAX_SIZE || heap == [])
      ensures buf != 0 ==>
        && 0 < size <= POOL_MAX_SIZE
        && buf !in old(user) && user == old(user)[buf := SizeToClass(size)]
        && buf in live && live[buf] == SizeToClass(size)
        && size <= ClassToSize(live[buf])
      ensures size == 0 || size > POOL_MAX_SIZE ==>
        buf == 0 && caches[..] == old(caches[..]) && stock == old(stock) && live == old(live) && nextShard == old(nextShard)
      ensures 0 < size <= POOL_MAX_SIZE ==>
        Allocated(WithCache(old(caches[..]), t, cacheOk, old(Turn())), caches[..], old(stock), stock, old(live), live,
                  t, SizeToClass(size), old(Turn()), heap, buf)
      ensures 0 < size <= POOL_MAX_SIZE ==> nextShard == old(nextShard) + if old(caches[t]).NoCache? then 1 else 0
    {
      hide *;
      ValidParts();
      InTurn();
      if size == 0 || size > POOL_MAX_SIZE {
        return 0;
      }
      SmallestClass(size);
      var k := SizeToClass(size);
      BatchSize();
      var has := GetThreadCache(t, cacheOk);
      ghost var a, st, l, turn := caches[..], stock, live, old(Turn());
      TurnIs(old(caches[..]), t, cacheOk, turn);
      if has {
        CacheParts(t);
        StockParts(caches[t].shardId, k);
      } else {
        StockParts(turn, k);
      }
      if has && |caches[t].stacks[k]| > 0 {
        AllocatedHit(a, st, l, t, k, turn, heap);
        buf := PopCache(t, k);
        InUserIsLive(buf);
        return;
      }
      ghost var turn' := Turn();
      buf := AllocSlow(t, k, has, heap);
      AllocatedTurn(a, caches[..], st, stock, l, live, t, k, turn', turn, heap, buf);
      if buf != 0 { InUserIsLive(buf); }
    }

    /** The thread's own stack is empty, if it has one: a batch from the shard, or one
        buffer of the shard, or the heap. */
    method AllocSlow(t: nat, k: nat, has: bool, heap: seq<nat>) returns (buf: nat)
      requires Valid() && t < caches.Length && k < SIZE_CLASSES && FreshFor(heap, live)
      requires (has <==> caches[t].Cache?) && (has ==> k < |caches[t].stacks| && caches[t].stacks[k] == [])
      requires 0 < |shards|
      modifies this`nextShard, this`stock, this`user, this`live, this`totalAllocated, this`totalBuffers, repr, caches
      ensures Valid()
      ensures buf == 0 ==> user == old(user) && heap == []
      ensures buf != 0 ==> buf !in old(user) && user == old(user)[buf := k]
      ensures Allocated(old(caches[..]), caches[..], old(stock), stock, old(live), live, t, k, old(Turn()), heap, buf)
      ensures nextShard == old(nextShard) + if has then 0 else 1
    {
      hide *;
      ValidParts();
      InTurn();
      BatchSize();
      ghost var a, st, l, turn := caches[..], stock, live, Turn();
      ShardOfIs(a[t], turn);
      if has {
        CacheParts(t);
        StockParts(caches[t].shardId, k);
        ghost var q := stock[caches[t].shardId][k];
        Least3Is(BATCH_SIZE, CACHE_SIZE - |caches[t].stacks[k]|, |q|);
        var refilled := Refill(t, k);
        RefilledIs(a, st, t, k, q, refilled);
        if refilled > 0 {
          AllocatedRefill(a, st, l, t, k, turn, heap, refilled);
          buf := PopCache(t, k);
          InUserIsLive(buf);
          return;
        }
        assert |q| == 0;
      }
      buf := AllocShared(t, k, has, heap);
    }

    /** From the shard, when there is no cache, or from the heap. */
    method AllocShared(t: nat, k: nat, has: bool, heap: seq<nat>) returns (buf: nat)
      requires Valid() && t < caches.Length && k < SIZE_CLASSES && FreshFor(heap, live) && 0 < |shards|
      requires (has <==> caches[t].Cache?) && (has ==> k < |caches[t].stacks| && caches[t].stacks[k] == [])
      requires has ==> caches[t].shardId < |stock| && k < |stock[caches[t].shardId]| && stock[caches[t].shardId][k] == []
      modifies this`nextShard, this`stock, this`user, this`live, this`totalAllocated, this`totalBuffers, repr, caches
      ensures Valid()
      ensures buf == 0 ==> user == old(user) && heap == []
      ensures buf != 0 ==> buf !in old(user) && user == old(user)[buf := k]
      ensures Allocated(old(caches[..]), caches[..], old(stock), stock, old(live), live, t, k, old(Turn()), heap, buf)
      ensures nextShard == old(nextShard) + if has then 0 else 1
    {
      hide *;
      ValidParts();
      InTurn();
      BatchSize();
      ghost var a, st, l, turn := caches[..], stock, live, Turn();
      ShardOfIs(a[t], turn);
      var i := SelectShard(t, has);
      StockParts(i, k);
      var got, b := PopShard(i, k);
      if got {
        AllocatedShard(a, st, l, t, k, turn, heap);
        InUserIsLive(b);
        return b;
      }
      if heap == [] {
        AllocatedNone(a, st, l, t, k, turn);
        return 0;
      }
      FirstFresh(heap, live, k);
      FromHeap(k, heap[0]);
      InUserIsLive(heap[0]);
      AllocatedHeap(a, st, l, t, k, turn, heap);
      if has {
        Least3Is(|heap[1..]|, BATCH_SIZE - 1, CACHE_SIZE - |caches[t].stacks[k]|);
        Prefill(t, k, heap[1..]);
      }
      return heap[0];
    }

    /** The thread has a buffer of the class on its own stack. */
    ghost predicate OnTop(t: nat, k: nat)
      reads caches
    {
      t < caches.Length && caches[t].Cache? && k < |caches[t].stacks| && |caches[t].stacks[k]| > 0
    }

    lemma OnTopIs(t: nat, k: nat)
      ensures OnTop(t, k) <==> t < caches.Length && caches[t].Cache? && k < |caches[t].stacks| && |caches[t].stacks[k]| > 0
    {
    }

    /** Fills the cache with up to a batch less one from the heap. */
    method Prefill(t: nat, k: nat, heap: seq<nat>)
      requires Valid() && t < caches.Length && caches[t].Cache? && k < SIZE_CLASSES && FreshFor(heap, live)
      modifies this`user, this`live, this`totalAllocated, this`totalBuffers, caches
      ensures Valid() && user == old(user) && k < |old(caches[t]).stacks| && |old(caches[t]).stacks[k]| <= CACHE_SIZE
      ensures var s := old(caches[t]).stacks[k];
        var n := Least3(|heap|, BATCH_SIZE - 1, CACHE_SIZE - |s|);
        && 0 <= n <= |heap|
        && caches[..] == Put(old(caches[..]), t, k, s + heap[..n]) && live == Grown(old(live), heap[..n], k)
    {
      hide *;
      CacheParts(t);
      var i := 0;
      BatchSize();
      ghost var u, s, a, l := user, caches[t].stacks[k], caches[..], live;
      PutNone(a, t, k, s, heap);
      GrownNot(l, heap, k);
      while i < |heap| && i < BATCH_SIZE - 1 && |caches[t].stacks[k]| < CACHE_SIZE
        invariant Valid() && user == u
        invariant i <= |heap| && i <= BATCH_SIZE - 1 && |s| + i <= CACHE_SIZE
        invariant caches[..] == Put(a, t, k, s + heap[..i]) && live == Grown(l, heap[..i], k) && FreshFor(heap[i..], live)
        invariant caches[t].Cache? && k < |caches[t].stacks| && caches[t].stacks[k] == s + heap[..i]
      {
        FirstFresh(heap[i..], live, k);
        OneOn(s, heap, i);
        GrownStep(l, heap, i, k);
        PutAgain(a, t, k, s + heap[..i], s + heap[..i] + [heap[i]]);
        FromHeap(k, heap[i]);
        PushCache(t, k, heap[i]);
        assert user == u;
        i := i + 1;
        PutIs(a, t, k, s + heap[..i]);
      }
      Least3Is(|heap|, BATCH_SIZE - 1, CACHE_SIZE - |s|);
    }

    /** `buffer_pool_free`, with the size the buffer was asked for, or any other
        of the same class. `Freed` says where it goes and what becomes of every
        other buffer. */
    method Free(t: nat, buf: nat, size: nat, cacheOk: bool)
      requires Valid() && t < caches.Length
      requires buf != 0 ==> 0 < size <= POOL_MAX_SIZE && buf in user && user[buf] == SizeToClass(size)
      modifies this`nextShard, this`stock, this`user, this`live, this`totalAllocated, this`totalBuffers, repr, caches
      ensures Valid() && user == old(user) - {buf} && 0 < |shards|
      ensures live == old(live) ==> totalBuffers == old(totalBuffers) && totalAllocated == old(totalAllocated)
      ensures buf == 0 ==> caches[..] == old(caches[..]) && stock == old(stock) && live == old(live)
      ensures nextShard == old(nextShard) + if buf != 0 && old(caches[t]).NoCache? then 1 else 0
      ensures buf != 0 ==>
        var a, turn := WithCache(old(caches[..]), t, cacheOk, old(Turn())), old(Turn());
        && |a| == |old(caches[..])| && ShardOf(a[t], turn) < |shards|
        && Freed(a, caches[..], old(stock), stock, old(live), live, t, SizeToClass(size), turn, buf, old(shards[ShardOf(a[t], turn)].Accepts()))
        && (live != old(live) ==> !shards[ShardOf(a[t], turn)].Accepts())
      ensures buf != 0 && (old(caches[t]).Cache? || cacheOk) ==>
        && buf in live && OnTop(t, SizeToClass(size))
        && buf == caches[t].stacks[SizeToClass(size)][|caches[t].stacks[SizeToClass(size)]| - 1]
    {
      hide *;
      ValidParts();
      InTurn();
      if buf == 0 {
        NullNotUser();
        return;
      }
      SmallestClass(size);
      BatchSize();
      var k := SizeToClass(size);
      InUserIsLive(buf);
      var has := GetThreadCache(t, cacheOk);
      ghost var a, st, l, turn := caches[..], stock, live, old(Turn());
      TurnIs(old(caches[..]), t, cacheOk, turn);
      ShardOfIs(a[t], turn);
      if has {
        CacheParts(t);
        StockParts(caches[t].shardId, k);
      } else {
        StockParts(turn, k);
      }
      ghost var accepts := shards[ShardOf(a[t], turn)].Accepts();
      if has && |caches[t].stacks[k]| < CACHE_SIZE {
        FreedFast(a, st, l, t, k, turn, buf, accepts);
        PutIs(a, t, k, a[t].stacks[k] + [buf]);
        PushCache(t, k, buf);
        OnTopIs(t, k);
        InUserOrStack(t, k, buf);
        ValidParts();
        return;
      }
      if has && |caches[t].stacks[k]| >= CACHE_SIZE {
        var result := Flush(t, k);
        ghost var m := if result > 0 then result else 0;
        FlushShorter(a, caches[..], st, stock, l, live, t, k, m);
        if |caches[t].stacks[k]| < CACHE_SIZE {
          InUserIsLive(buf);
          FreedFlushed(a, caches[..], st, stock, l, live, t, k, turn, buf, accepts, m);
          PutIs(caches[..], t, k, caches[t].stacks[k] + [buf]);
          PushCache(t, k, buf);
          OnTopIs(t, k);
          InUserOrStack(t, k, buf);
          ValidParts();
          return;
        }
      }
      var i := SelectShard(t, has);
      var kept := PushShard(i, k, buf);
      if !kept {
        ToHeap(k, buf);
      }
      FreedShard(a, st, l, t, k, turn, buf, kept);
      ValidParts();
    }

    lemma InUserOrStack(t: nat, k: nat, b: nat)
      requires Valid() && t < caches.Length && caches[t].Cache? && k < |caches[t].stacks| && b in caches[t].stacks[k]
      ensures b in live
    {
      OnOneStack(user, live, Shelves(caches[..]), stock, t, k, b);
    }

    /** The heap takes back an address that is not the user's. */
    method HeapTakes(b: nat)
      requires Valid() && b !in user
      modifies this`live
      ensures live == old(live) - {b}
      ensures Valid() <==> b !in old(live)
      ensures !Valid() ==> !Kept(user, live, Shelves(caches[..]), stock)
    {
      hide *;
      ValidParts();
      if b in live {
        LostOnStack(user, live, Shelves(caches[..]), stock, b);
        live := live - {b};
        NotKeptNotValid();
      } else {
        assert live - {b} == live;
        live := live - {b};
        ValidWhole();
      }
    }

    lemma NotKeptNotValid()
      requires !Kept(user, live, Shelves(caches[..]), stock)
      ensures !Valid()
    {
    }

    lemma InUserIsLive(b: nat)
      requires Valid() && b in user
      ensures b in live && live[b] == user[b] && b != 0
    {
      UserIsLive(user, live, Shelves(caches[..]), stock, b);
    }

    lemma NullNotUser()
      requires Valid()
      ensures user - {0} == user
    {
      if 0 in user { InUserIsLive(0); }
    }

    lemma CacheParts(t: nat)
      requires Valid() && t < caches.Length && caches[t].Cache?
      ensures caches[t].shardId < |shards| && |caches[t].stacks| == SIZE_CLASSES
      ensures forall k :: 0 <= k < SIZE_CLASSES ==> |caches[t].stacks[k]| <= CACHE_SIZE
    {
    }
  }

  /** Addresses that the heap may return: not NULL, and not in use. */
  ghost predicate FreshFor(heap: seq<nat>, live: map<nat, nat>)
  {
    && (forall i {:trigger heap[i]} :: 0 <= i < |heap| ==> heap[i] != 0 && heap[i] !in live)
    && (forall i, j {:trigger heap[i], heap[j]} :: 0 <= i < j < |heap| ==> heap[i] != heap[j])
  }

  /** The live buffers with new ones of a class. */
  ghost function Grown(live: map<nat, nat>, heap: seq<nat>, k: nat): map<nat, nat>
  {
    if heap == [] then live else Grown(live, heap[..|heap| - 1], k)[heap[|heap| - 1] := k]
  }

  lemma GrownNot(live: map<nat, nat>, heap: seq<nat>, k: nat)
    ensures heap[..0] == [] && heap[0..] == heap && Grown(live, [], k) == live
  {
  }

  lemma GrownStep(live: map<nat, nat>, heap: seq<nat>, i: nat, k: nat)
    requires i < |heap|
    ensures Grown(live, heap[..i + 1], k) == Grown(live, heap[..i], k)[heap[i] := k] && heap[i..][1..] == heap[i + 1..]
    ensures heap[i..][0] == heap[i]
  {
    assert heap[..i + 1][..i] == heap[..i];
  }

  /** Grown by the first, and then by others. */
  lemma {:induction false} GrownFirst(live: map<nat, nat>, heap: seq<nat>, n: nat, k: nat)
    requires heap != [] && n < |heap|
    ensures Grown(live[heap[0] := k], heap[1..][..n], k) == Grown(live, heap[..n + 1], k)
  {
    if n == 0 {
      assert heap[..1][..0] == [] && heap[1..][..0] == [];
    } else {
      GrownFirst(live, heap, n - 1, k);
      GrownStep(live[heap[0] := k], heap[1..], n - 1, k);
      GrownStep(live, heap, n, k);
    }
  }

  lemma FirstFresh(heap: seq<nat>, live: map<nat, nat>, k: nat)
    requires FreshFor(heap, live) && heap != []
    ensures heap[0] != 0 && heap[0] !in live && FreshFor(heap[1..], live[heap[0] := k])
  {
  }

  lemma EmptyCache(user: map<nat, nat>, live: map<nat, nat>, caches: seq<Cache>, shards: seq<Shelf>, n: nat, t: nat, i: nat)
    requires Kept(user, live, Shelves(caches), shards) && CachesShaped(caches, n)
    requires t < |caches| && caches[t].NoCache? && i < n
    ensures Kept(user, live, Shelves(caches[t := Cache(i, PoolShard.Empty(SIZE_CLASSES))]), shards)
    ensures CachesShaped(caches[t := Cache(i, PoolShard.Empty(SIZE_CLASSES))], n)
  {
    var bare := PoolShard.Empty(SIZE_CLASSES);
    assert Shelves(caches[t := Cache(i, bare)]) == Shelves(caches)[t := bare];
    forall k: nat, b: nat
      ensures SumAt(Shelves(caches)[t := bare], k, b) == SumAt(Shelves(caches), k, b)
    {
      SumAtUpdate(Shelves(caches), t, bare, k, b);
    }
  }

  function Least3(a: int, b: int, c: int): int
  {
    if a <= b && a <= c then a else if b <= c then b else c
  }

  lemma Least3Is(a: int, b: int, c: int)
    ensures Least3(a, b, c) <= a && Least3(a, b, c) <= b && Least3(a, b, c) <= c
    ensures Least3(a, b, c) == a || Least3(a, b, c) == b || Least3(a, b, c) == c
  {
  }

  lemma NothingInEmpty(k: nat)
    requires k < SIZE_CLASSES
    ensures |PoolShard.Empty(SIZE_CLASSES)| == SIZE_CLASSES && PoolShard.Empty(SIZE_CLASSES)[k] == []
  {
  }

  lemma BatchSize()
    ensures BATCH_SIZE == 16 && CACHE_SIZE == 32
  {
  }

  // ----------------------------------------------- what an operation changes

  /** The caches with another stack in one place. */
  ghost function Put(caches: seq<Cache>, t: nat, k: nat, stack: seq<nat>): seq<Cache>
  {
    if Has(caches, t, k) then caches[t := Cache(caches[t].shardId, caches[t].stacks[k := stack])] else caches
  }

  predicate Has(caches: seq<Cache>, t: nat, k: nat)
  {
    t < |caches| && caches[t].Cache? && k < |caches[t].stacks|
  }

  /** The contents of the shards with another list in one place. */
  ghost function Lay(stock: seq<Shelf>, i: nat, k: nat, list: seq<nat>): seq<Shelf>
  {
    if i < |stock| && k < |stock[i]| then stock[i := stock[i][k := list]] else stock
  }

  ghost function Elements(list: seq<nat>): set<nat>
  {
    set b | b in list
  }

  /** The caches when thread `t` has looked for its own. */
  ghost function WithCache(caches: seq<Cache>, t: nat, allocOk: bool, i: nat): seq<Cache>
  {
    if t < |caches| && caches[t].NoCache? && allocOk then caches[t := Cache(i, PoolShard.Empty(SIZE_CLASSES))] else caches
  }

  /** The shard of a cache, or the next in turn. */
  ghost function ShardOf(c: Cache, turn: nat): nat
  {
    if c.Cache? then c.shardId else turn
  }

  /** The last `m` of a stack have gone to the front of the shard's list; if that is
      not a batch, or all there were, the others have gone to the heap. */
  ghost predicate Flushed(a: seq<Cache>, a': seq<Cache>, st: seq<Shelf>, st': seq<Shelf>, l: map<nat, nat>, l': map<nat, nat>, t: nat, k: nat, m: nat)
  {
    && Has(a, t, k) && a[t].shardId < |st| && k < |st[a[t].shardId]|
    && var (i, s) := (a[t].shardId, a[t].stacks[k]);
       && m <= BATCH_SIZE && m <= |s|
       && st' == Lay(st, i, k, s[|s| - m..] + st[i][k])
       && if m == BATCH_SIZE || m == |s| then a' == Put(a, t, k, s[..|s| - m]) && l' == l
          else a' == Put(a, t, k, []) && l' == l - Elements(s[..|s| - m])
  }

  /** Where an allocation takes its buffer, and what it moves: the top of the
      thread's stack; or the last of a batch that comes into the empty stack from the
      shard; or, without a cache, the first of the shard; or the first from the heap,
      with which up to fifteen others come into the stack. */
  ghost predicate Allocated(a: seq<Cache>, a': seq<Cache>, st: seq<Shelf>, st': seq<Shelf>, l: map<nat, nat>, l': map<nat, nat>,
                            t: nat, k: nat, turn: nat, heap: seq<nat>, buf: nat)
  {
    && t < |a| && (a[t].Cache? ==> k < |a[t].stacks|)
    && var i := ShardOf(a[t], turn);
       && i < |st| && k < |st[i]|
       && var q := st[i][k];
          if a[t].Cache? && a[t].stacks[k] != [] then
            var s := a[t].stacks[k];
            buf == s[|s| - 1] && a' == Put(a, t, k, s[..|s| - 1]) && st' == st && l' == l
          else if q != [] then
            var n := if a[t].NoCache? then 1 else if |q| < BATCH_SIZE then |q| else BATCH_SIZE;
            && 0 < n <= |q| && buf == q[n - 1] && st' == Lay(st, i, k, q[n..]) && l' == l
            && a' == Put(a, t, k, q[..n - 1])
          else if heap == [] then buf == 0 && a' == a && st' == st && l' == l
          else
            var n := if a[t].NoCache? then 1 else if |heap| < BATCH_SIZE then |heap| else BATCH_SIZE;
            && 0 < n <= |heap| && buf == heap[0] && st' == st && l' == Grown(l, heap[..n], k)
            && a' == Put(a, t, k, heap[1..n])
  }

  /** Where a freed buffer goes, and what it moves: on top of the thread's stack, if
      need be after a flush of a batch; without a cache to the front of the shard's
      list, or to the heap if the shard does not accept it. */
  ghost predicate Freed(a: seq<Cache>, a': seq<Cache>, st: seq<Shelf>, st': seq<Shelf>, l: map<nat, nat>, l': map<nat, nat>,
                        t: nat, k: nat, turn: nat, buf: nat, accepts: bool)
  {
    && t < |a| && (a[t].Cache? ==> k < |a[t].stacks|)
    && var i := ShardOf(a[t], turn);
       && i < |st| && k < |st[i]|
       && if a[t].NoCache? then
            && a' == a
            && if accepts then st' == Lay(st, i, k, [buf] + st[i][k]) && l' == l else st' == st && l' == l - {buf}
          else if |a[t].stacks[k]| < CACHE_SIZE then
            a' == Put(a, t, k, a[t].stacks[k] + [buf]) && st' == st && l' == l
          else
            && i < |st'| && k < |st'[i]| && |st[i][k]| <= |st'[i][k]|
            && var (s, m) := (a[t].stacks[k], |st'[i][k]| - |st[i][k]|);
               && m <= BATCH_SIZE && m <= |s| && (accepts ==> 0 < m)
               && st' == Lay(st, i, k, s[|s| - m..] + st[i][k])
               && if m == BATCH_SIZE then a' == Put(a, t, k, s[..|s| - m] + [buf]) && l' == l
                  else a' == Put(a, t, k, [buf]) && l' == l - Elements(s[..|s| - m])
  }

  lemma PutNone(a: seq<Cache>, t: nat, k: nat, s: seq<nat>, q: seq<nat>)
    requires Has(a, t, k) && a[t].stacks[k] == s
    ensures s[..|s|] == s && s + q[..0] == s && Put(a, t, k, s) == a
  {
    assert a[t].stacks[k := s] == a[t].stacks;
  }

  lemma PutIs(a: seq<Cache>, t: nat, k: nat, x: seq<nat>)
    requires t < |a| && a[t].Cache? && k < |a[t].stacks|
    ensures var a' := Put(a, t, k, x);
      && |a'| == |a| && a'[t].Cache? && a'[t].shardId == a[t].shardId && |a'[t].stacks| == |a[t].stacks| && a'[t].stacks[k] == x
  {
  }

  lemma PutAgain(a: seq<Cache>, t: nat, k: nat, x: seq<nat>, y: seq<nat>)
    requires t < |a| && a[t].Cache? && k < |a[t].stacks|
    ensures Put(Put(a, t, k, x), t, k, y) == Put(a, t, k, y)
  {
    assert a[t].stacks[k := x][k := y] == a[t].stacks[k := y];
  }

  lemma LayNone(st: seq<Shelf>, i: nat, k: nat, q: seq<nat>)
    requires i < |st| && k < |st[i]| && st[i][k] == q
    ensures q[0..] == q && Lay(st, i, k, q) == st
  {
    assert st[i][k := q] == st[i];
  }

  lemma LayIs(st: seq<Shelf>, i: nat, k: nat, x: seq<nat>)
    requires i < |st| && k < |st[i]|
    ensures var st' := Lay(st, i, k, x);
      |st'| == |st| && |st'[i]| == |st[i]| && st'[i][k] == x
  {
  }

  lemma LayAgain(st: seq<Shelf>, i: nat, k: nat, x: seq<nat>, y: seq<nat>)
    requires i < |st| && k < |st[i]|
    ensures |Lay(st, i, k, x)| == |st| && |Lay(st, i, k, x)[i]| == |st[i]|
    ensures Lay(st, i, k, x)[i := Lay(st, i, k, x)[i][k := y]] == Lay(st, i, k, y)
  {
    assert st[i][k := x][k := y] == st[i][k := y];
  }

  /** One more of `q` comes onto `s`. */
  lemma OneOn(s: seq<nat>, q: seq<nat>, n: nat)
    requires n < |q|
    ensures q[n..][0] == q[n] && q[n..][1..] == q[n + 1..] && s + q[..n] + [q[n]] == s + q[..n + 1]
  {
  }

  lemma NoneGone(s: seq<nat>, q: seq<nat>, l: map<nat, nat>)
    ensures s[..|s|] == s && s[|s|..] == [] && s[|s|..|s|] == [] && s[|s|..] + q == q && l - Elements([]) == l
  {
    assert Elements([]) == {};
  }

  /** The next one, `s[n - 1]`, leaves the stack: for the shard, or for the heap. */
  lemma OneGone(s: seq<nat>, n: nat, m: nat, q: seq<nat>, l: map<nat, nat>)
    requires 0 < n && n + m <= |s|
    ensures s[..n][..n - 1] == s[..n - 1]
    ensures n + m == |s| ==> [s[n - 1]] + (s[|s| - m..] + q) == s[n - 1..] + q
    ensures n + m == |s| ==> s[n - 1..n - 1] == s[n..|s| - m] == []
    ensures l - Elements(s[n..|s| - m]) - {s[n - 1]} == l - Elements(s[n - 1..|s| - m])
  {
    assert s[n - 1..|s| - m] == [s[n - 1]] + s[n..|s| - m];
    assert Elements(s[n - 1..|s| - m]) == {s[n - 1]} + Elements(s[n..|s| - m]);
  }

  lemma AllGone(s: seq<nat>, n: nat, m: nat, l: map<nat, nat>)
    requires n + m <= |s|
    ensures s[..0] == [] && l - Elements(s[n..|s| - m]) - Elements(s[..n]) == l - Elements(s[0..|s| - m])
  {
    assert s[0..|s| - m] == s[..n] + s[n..|s| - m];
    assert Elements(s[0..|s| - m]) == Elements(s[..n]) + Elements(s[n..|s| - m]);
  }

  /** A flush on its way: `m` have gone to the shard and then `f` to the heap. */
  ghost predicate Flushing(a: seq<Cache>, a': seq<Cache>, st: seq<Shelf>, st': seq<Shelf>, l: map<nat, nat>, l': map<nat, nat>,
                           t: nat, k: nat, m: nat, f: nat)
  {
    && Has(a, t, k) && a[t].shardId < |st| && k < |st[a[t].shardId]|
    && var s := a[t].stacks[k];
       && m + f <= |s| && m <= BATCH_SIZE && (f > 0 ==> m < BATCH_SIZE)
       && a' == Put(a, t, k, s[..|s| - m - f])
       && st' == Lay(st, a[t].shardId, k, s[|s| - m..] + st[a[t].shardId][k])
       && l' == l - Elements(s[|s| - m - f..|s| - m])
  }

  lemma FlushBegins(a: seq<Cache>, st: seq<Shelf>, l: map<nat, nat>, t: nat, k: nat)
    requires t < |a| && a[t].Cache? && k < |a[t].stacks| && a[t].shardId < |st| && k < |st[a[t].shardId]|
    ensures Flushing(a, a, st, st, l, l, t, k, 0, 0)
  {
    var (s, q) := (a[t].stacks[k], st[a[t].shardId][k]);
    NoneGone(s, q, l);
    PutNone(a, t, k, s, q);
    LayNone(st, a[t].shardId, k, q);
  }

  lemma FlushingIs(a: seq<Cache>, a': seq<Cache>, st: seq<Shelf>, st': seq<Shelf>, l: map<nat, nat>, l': map<nat, nat>,
                   t: nat, k: nat, m: nat, f: nat)
    requires Flushing(a, a', st, st', l, l', t, k, m, f)
    ensures t < |a| == |a'| && a[t].Cache? && a'[t].Cache? && a'[t].shardId == a[t].shardId && k < |a[t].stacks| == |a'[t].stacks|
    ensures |a'[t].stacks[k]| + m + f == |a[t].stacks[k]|
  {
    PutIs(a, t, k, a[t].stacks[k][..|a[t].stacks[k]| - m - f]);
  }

  lemma FlushSteps(a: seq<Cache>, a1: seq<Cache>, a2: seq<Cache>, st: seq<Shelf>, st1: seq<Shelf>, st2: seq<Shelf>,
                   l: map<nat, nat>, l1: map<nat, nat>, l2: map<nat, nat>, t: nat, k: nat, m: nat, f: nat, ok: bool)
    requires Flushing(a, a1, st, st1, l, l1, t, k, m, f) && m < BATCH_SIZE && (ok ==> f == 0)
    requires t < |a1| && a1[t].Cache? && k < |a1[t].stacks| && a1[t].stacks[k] != [] && a1[t].shardId < |st1| && k < |st1[a1[t].shardId]|
    requires var (s, i) := (a1[t].stacks[k], a1[t].shardId);
      var b := s[|s| - 1];
      && a2 == Put(a1, t, k, s[..|s| - 1])
      && st2 == (if ok then st1[i := st1[i][k := [b] + st1[i][k]]] else st1)
      && l2 == if ok then l1 else l1 - {b}
    ensures Flushing(a, a2, st, st2, l, l2, t, k, if ok then m + 1 else m, if ok then f else f + 1)
  {
    var (s, i) := (a[t].stacks[k], a[t].shardId);
    var q, n := st[i][k], |s| - m - f;
    PutIs(a, t, k, s[..n]);
    OneGone(s, n, m, q, l);
    PutAgain(a, t, k, s[..n], s[..n - 1]);
    LayIs(st, i, k, s[|s| - m..] + q);
    LayAgain(st, i, k, s[|s| - m..] + q, [s[n - 1]] + (s[|s| - m..] + q));
    hide Put, Lay, Elements;
  }

  lemma FlushDrains(a: seq<Cache>, a1: seq<Cache>, a2: seq<Cache>, st: seq<Shelf>, st1: seq<Shelf>,
                    l: map<nat, nat>, l1: map<nat, nat>, l2: map<nat, nat>, t: nat, k: nat, m: nat, f: nat)
    requires Flushing(a, a1, st, st1, l, l1, t, k, m, f) && m < BATCH_SIZE
    requires t < |a1| && a1[t].Cache? && k < |a1[t].stacks| && a2 == Put(a1, t, k, []) && l2 == l1 - Elements(a1[t].stacks[k])
    ensures Flushing(a, a2, st, st1, l, l2, t, k, m, f + |a1[t].stacks[k]|)
  {
    var s := a[t].stacks[k];
    var n := |s| - m - f;
    PutIs(a, t, k, s[..n]);
    PutAgain(a, t, k, s[..n], []);
    AllGone(s, n, m, l);
    hide Put, Lay, Elements;
  }

  lemma FlushEnds(a: seq<Cache>, a': seq<Cache>, st: seq<Shelf>, st': seq<Shelf>, l: map<nat, nat>, l': map<nat, nat>,
                  t: nat, k: nat, m: nat, f: nat)
    requires Flushing(a, a', st, st', l, l', t, k, m, f)
    requires t < |a| && a[t].Cache? && k < |a[t].stacks| && (m == BATCH_SIZE || m + f == |a[t].stacks[k]|)
    ensures Flushed(a, a', st, st', l, l', t, k, m)
  {
    var s := a[t].stacks[k];
    if f == 0 {
      assert s[|s| - m..|s| - m] == [] && Elements([]) == {};
    } else {
      assert s[..0] == [] && s[0..|s| - m] == s[..|s| - m];
    }
  }

  lemma WholeGone(s: seq<nat>)
    ensures s[..0] == [] && s[0..] == s
  {
  }

  lemma WithCacheIs(caches: seq<Cache>, t: nat, allocOk: bool, i: nat)
    requires t < |caches|
    ensures WithCache(caches, t, allocOk, i) ==
      if caches[t].NoCache? && allocOk then caches[t := Cache(i, PoolShard.Empty(SIZE_CLASSES))] else caches
  {
  }

  lemma TurnIs(caches: seq<Cache>, t: nat, allocOk: bool, turn: nat)
    requires t < |caches|
    ensures var a := WithCache(caches, t, allocOk, turn);
      |a| == |caches| && (a[t].Cache? <==> caches[t].Cache? || allocOk)
  {
  }

  lemma ShardOfIs(c: Cache, turn: nat)
    ensures ShardOf(c, turn) == if c.Cache? then c.shardId else turn
  {
  }

  lemma HasIs(a: seq<Cache>, t: nat, k: nat)
    ensures Has(a, t, k) <==> t < |a| && a[t].Cache? && k < |a[t].stacks|
  {
  }

  /** Whose turn it is does not matter to a thread with a cache. */
  lemma AllocatedTurn(a: seq<Cache>, a': seq<Cache>, st: seq<Shelf>, st': seq<Shelf>, l: map<nat, nat>, l': map<nat, nat>,
                      t: nat, k: nat, turn: nat, turn': nat, heap: seq<nat>, buf: nat)
    requires t < |a| && Allocated(a, a', st, st', l, l', t, k, turn, heap, buf) && (a[t].Cache? || turn == turn')
    ensures Allocated(a, a', st, st', l, l', t, k, turn', heap, buf)
  {
  }

  lemma AllocatedHit(a: seq<Cache>, st: seq<Shelf>, l: map<nat, nat>, t: nat, k: nat, turn: nat, heap: seq<nat>)
    requires t < |a| && a[t].Cache? && k < |a[t].stacks| && a[t].stacks[k] != [] && a[t].shardId < |st| && k < |st[a[t].shardId]|
    ensures var s := a[t].stacks[k];
      Allocated(a, Put(a, t, k, s[..|s| - 1]), st, st, l, l, t, k, turn, heap, s[|s| - 1])
  {
  }

  /** What a refill has put on the empty stack. */
  lemma RefilledIs(a: seq<Cache>, st: seq<Shelf>, t: nat, k: nat, q: seq<nat>, n: nat)
    requires t < |a| && a[t].Cache? && k < |a[t].stacks| && a[t].stacks[k] == [] && n <= |q|
    requires a[t].shardId < |st| && k < |st[a[t].shardId]| && st[a[t].shardId][k] == q
    ensures [] + q[..n] == q[..n] && (n > 0 ==> q[..n][n - 1] == q[n - 1]) && (n == 0 ==> Put(a, t, k, [] + q[..n]) == a && Lay(st, a[t].shardId, k, q[n..]) == st)
    ensures var a' := Put(a, t, k, [] + q[..n]);
      |a'| == |a| && a'[t].Cache? && a'[t].shardId == a[t].shardId && |a'[t].stacks| == |a[t].stacks| && a'[t].stacks[k] == q[..n]
  {
    PutIs(a, t, k, [] + q[..n]);
    if n == 0 {
      PutNone(a, t, k, [], q);
      LayNone(st, a[t].shardId, k, q);
    }
  }

  lemma AllocatedRefill(a: seq<Cache>, st: seq<Shelf>, l: map<nat, nat>, t: nat, k: nat, turn: nat, heap: seq<nat>, n: nat)
    requires t < |a| && a[t].Cache? && k < |a[t].stacks| && a[t].stacks[k] == [] && a[t].shardId < |st| && k < |st[a[t].shardId]|
    requires var q := st[a[t].shardId][k];
      0 < n <= |q| && n <= BATCH_SIZE && (n == |q| || n == BATCH_SIZE)
    ensures var q := st[a[t].shardId][k];
      var a' := Put(a, t, k, [] + q[..n]);
      && q[..n][..n - 1] == q[..n - 1]
      && Allocated(a, Put(a', t, k, q[..n][..n - 1]), st, Lay(st, a[t].shardId, k, q[n..]), l, l, t, k, turn, heap, q[n - 1])
  {
    var q := st[a[t].shardId][k];
    PutAgain(a, t, k, [] + q[..n], q[..n - 1]);
    assert q[..n][..n - 1] == q[..n - 1];
  }

  lemma AllocatedShard(a: seq<Cache>, st: seq<Shelf>, l: map<nat, nat>, t: nat, k: nat, turn: nat, heap: seq<nat>)
    requires t < |a| && a[t].NoCache? && turn < |st| && k < |st[turn]| && st[turn][k] != []
    ensures Allocated(a, a, st, st[turn := st[turn][k := st[turn][k][1..]]], l, l, t, k, turn, heap, st[turn][k][0])
  {
  }

  lemma AllocatedNone(a: seq<Cache>, st: seq<Shelf>, l: map<nat, nat>, t: nat, k: nat, turn: nat)
    requires t < |a| && ShardOf(a[t], turn) < |st| && k < |st[ShardOf(a[t], turn)]| && st[ShardOf(a[t], turn)][k] == []
    requires a[t].Cache? ==> k < |a[t].stacks| && a[t].stacks[k] == []
    ensures Allocated(a, a, st, st, l, l, t, k, turn, [], 0)
  {
  }

  lemma AllocatedHeap(a: seq<Cache>, st: seq<Shelf>, l: map<nat, nat>, t: nat, k: nat, turn: nat, heap: seq<nat>)
    requires t < |a| && ShardOf(a[t], turn) < |st| && k < |st[ShardOf(a[t], turn)]| && st[ShardOf(a[t], turn)][k] == []
    requires heap != [] && (a[t].Cache? ==> k < |a[t].stacks| && a[t].stacks[k] == [])
    ensures a[t].NoCache? ==> Allocated(a, a, st, st, l, l[heap[0] := k], t, k, turn, heap, heap[0])
    ensures a[t].Cache? ==>
      var n := Least3(|heap[1..]|, BATCH_SIZE - 1, CACHE_SIZE - 0);
      && 0 <= n <= |heap[1..]|
      && Allocated(a, Put(a, t, k, [] + heap[1..][..n]), st, st, l, Grown(l[heap[0] := k], heap[1..][..n], k), t, k, turn, heap, heap[0])
  {
    if a[t].Cache? {
      var n := Least3(|heap[1..]|, BATCH_SIZE - 1, CACHE_SIZE - 0);
      GrownFirst(l, heap, n, k);
      assert [] + heap[1..][..n] == heap[1..n + 1];
    } else {
      assert heap[..1][..0] == [];
      assert Grown(l, heap[..1], k) == l[heap[0] := k];
    }
  }

  lemma FreedFast(a: seq<Cache>, st: seq<Shelf>, l: map<nat, nat>, t: nat, k: nat, turn: nat, buf: nat, accepts: bool)
    requires t < |a| && a[t].Cache? && k < |a[t].stacks| && |a[t].stacks[k]| < CACHE_SIZE && a[t].shardId < |st| && k < |st[a[t].shardId]|
    ensures Freed(a, Put(a, t, k, a[t].stacks[k] + [buf]), st, st, l, l, t, k, turn, buf, accepts)
  {
  }

  lemma FlushShorter(a: seq<Cache>, a': seq<Cache>, st: seq<Shelf>, st': seq<Shelf>, l: map<nat, nat>, l': map<nat, nat>, t: nat, k: nat, m: nat)
    requires Flushed(a, a', st, st', l, l', t, k, m) && |a[t].stacks[k]| == CACHE_SIZE
    ensures |a'| == |a| && a'[t].Cache? && a'[t].shardId == a[t].shardId && |a'[t].stacks| == |a[t].stacks| && |a'[t].stacks[k]| < CACHE_SIZE
    ensures l' != l ==> m < BATCH_SIZE && m < |a[t].stacks[k]|
  {
  }

  lemma FreedFlushed(a: seq<Cache>, a': seq<Cache>, st: seq<Shelf>, st': seq<Shelf>, l: map<nat, nat>, l': map<nat, nat>,
                     t: nat, k: nat, turn: nat, buf: nat, accepts: bool, m: nat)
    requires Flushed(a, a', st, st', l, l', t, k, m) && |a[t].stacks[k]| == CACHE_SIZE && (accepts ==> 0 < m)
    requires |a'| == |a| && a'[t].Cache? && k < |a'[t].stacks|
    ensures Freed(a, Put(a', t, k, a'[t].stacks[k] + [buf]), st, st', l, l', t, k, turn, buf, accepts)
  {
    var s := a[t].stacks[k];
    var x := if m == BATCH_SIZE then s[..|s| - m] else [];
    PutIs(a, t, k, x);
    PutAgain(a, t, k, x, x + [buf]);
    assert [] + [buf] == [buf];
    LayIs(st, a[t].shardId, k, s[|s| - m..] + st[a[t].shardId][k]);
  }

  lemma FreedShard(a: seq<Cache>, st: seq<Shelf>, l: map<nat, nat>, t: nat, k: nat, turn: nat, buf: nat, accepts: bool)
    requires t < |a| && a[t].NoCache? && turn < |st| && k < |st[turn]|
    ensures Freed(a, a, st, if accepts then st[turn := st[turn][k := [buf] + st[turn][k]]] else st, l, if accepts then l else l - {buf},
                  t, k, turn, buf, accepts)
  {
  }

  ghost predicate AllBare(shelves: seq<Shelf>)
  {
    forall i :: 0 <= i < |shelves| ==> |shelves[i]| == SIZE_CLASSES && forall j :: 0 <= j < SIZE_CLASSES ==> shelves[i][j] == []
  }

  lemma EmptyIsKept(caches: seq<Cache>, shards: seq<Shelf>)
    requires forall t :: 0 <= t < |caches| ==> caches[t].NoCache?
    requires AllBare(shards)
    ensures Kept(map[], map[], Shelves(caches), shards) && Bytes(map[]) == 0
    ensures forall n: nat :: CachesShaped(caches, n)
    ensures forall i :: 0 <= i < |shards| ==> |shards[i]| == SIZE_CLASSES
  {
    NoBytes(SIZE_CLASSES);
    forall k: nat, b: nat
      ensures SumAt(Shelves(caches), k, b) == 0 && SumAt(shards, k, b) == 0
    {
      SumAtEmpty(Shelves(caches), k, b);
      SumAtEmpty(shards, k, b);
    }
  }

  lemma BareMore(shelves: seq<Shelf>, shelf: Shelf)
    requires AllBare(shelves) && |shelf| == SIZE_CLASSES == PoolShard.Classes
    requires forall k: nat {:trigger shelf[k]} :: k < PoolShard.Classes ==> shelf[k] == []
    ensures AllBare(shelves + [shelf])
  {
  }

  lemma NoneBare()
    ensures AllBare([]) && SIZE_CLASSES == PoolShard.Classes
  {
  }

  method MakeShards(n: nat, slots: nat, maxFree: nat)
    returns (shards: seq<PoolShard.Shard>, ghost foot: set<object>, ghost bare: seq<Shelf>)
    requires 0 < slots
    ensures |shards| == |bare| == n && fresh(foot) && AllBare(bare)
    ensures forall i :: 0 <= i < n ==> shards[i].Valid() && shards[i].Shelf() == bare[i]
    ensures forall i :: 0 <= i < n ==> shards[i] in foot && shards[i].Foot() <= foot
    ensures forall i, j :: 0 <= i < j < n ==> shards[i].Foot() !! shards[j].Foot()
  {
    hide *;
    NoneBare();
    shards, foot, bare := [], {}, [];
    for made := 0 to n
      invariant |shards| == |bare| == made && fresh(foot) && AllBare(bare)
      invariant forall i :: 0 <= i < made ==> shards[i].Valid() && shards[i].Shelf() == bare[i]
      invariant forall i :: 0 <= i < made ==> shards[i] in foot && shards[i].Foot() <= foot
      invariant forall i, j :: 0 <= i < j < made ==> shards[i].Foot() !! shards[j].Foot()
    {
      var sh := new PoolShard.Shard(slots, maxFree);
      BareMore(bare, sh.Shelf());
      bare := bare + [sh.Shelf()];
      foot := foot + sh.Foot();
      shards := shards + [sh];
    }
  }

  /** A buffer on a stack is on no other stack, on this one once, and not with the user. */
  lemma OnOneStack(user: map<nat, nat>, live: map<nat, nat>, xs: seq<Shelf>, ys: seq<Shelf>, i: nat, k: nat, b: nat)
    requires Kept(user, live, xs, ys) && i < |xs| && k < |xs[i]| && b in xs[i][k]
    ensures b in live && live[b] == k && b !in user && multiset(xs[i][k])[b] == 1
    ensures forall j, l :: 0 <= j < |xs| && 0 <= l < |xs[j]| && b in xs[j][l] ==> j == i && l == k
    ensures forall j, l :: 0 <= j < |ys| && 0 <= l < |ys[j]| ==> b !in ys[j][l]
  {
    SumAtUpdate(xs, i, [], k, b);
    assert In(user, k, b) + SumAt(xs, k, b) + SumAt(ys, k, b) == In(live, k, b);
    if b in user { UserIsLive(user, live, xs, ys, b); }
    forall j, l | 0 <= j < |xs| && 0 <= l < |xs[j]| && b in xs[j][l]
      ensures j == i && l == k
    {
      SumAtUpdate(xs, j, [], l, b);
      assert In(user, l, b) + SumAt(xs, l, b) + SumAt(ys, l, b) == In(live, l, b);
      if j != i { SumAtUpdate(xs[i := []], j, [], k, b); }
    }
    forall j, l | 0 <= j < |ys| && 0 <= l < |ys[j]|
      ensures b !in ys[j][l]
    {
      SumAtUpdate(ys, j, [], l, b);
      assert In(user, l, b) + SumAt(xs, l, b) + SumAt(ys, l, b) == In(live, l, b);
    }
  }

  lemma ShorterIs(a: seq<Cache>, t: nat, k: nat)
    requires t < |a| && a[t].Cache? && k < |a[t].stacks| && a[t].stacks[k] != []
    ensures var s := a[t].stacks[k][..|a[t].stacks[k]| - 1];
      Put(a, t, k, s) == a[t := Cache(a[t].shardId, a[t].stacks[k := s])]
  {
  }

  lemma LongerIs(a: seq<Cache>, t: nat, k: nat, b: nat)
    requires t < |a| && a[t].Cache? && k < |a[t].stacks|
    ensures Put(a, t, k, a[t].stacks[k] + [b]) == a[t := Cache(a[t].shardId, a[t].stacks[k := a[t].stacks[k] + [b]])]
  {
  }

  lemma TakenFromCache(user: map<nat, nat>, live: map<nat, nat>, caches: seq<Cache>, shards: seq<Shelf>, n: nat, t: nat, k: nat)
    requires Kept(user, live, Shelves(caches), shards) && CachesShaped(caches, n)
    requires t < |caches| && caches[t].Cache? && k < |caches[t].stacks| && caches[t].stacks[k] != []
    ensures var stack := caches[t].stacks[k]; var b := stack[|stack| - 1];
      && b in live && live[b] == k && b !in user && b != 0
      && Kept(user[b := k], live, Shelves(Put(caches, t, k, stack[..|stack| - 1])), shards)
      && CachesShaped(Put(caches, t, k, stack[..|stack| - 1]), n)
  {
    var stack := caches[t].stacks[k];
    LastOff(stack);
    hide Kept;
    Taken(user, live, Shelves(caches), shards, t, k, stack[..|stack| - 1], stack[|stack| - 1]);
    assert Shelves(Put(caches, t, k, stack[..|stack| - 1]))
        == Shelves(caches)[t := caches[t].stacks[k := stack[..|stack| - 1]]];
  }

  lemma GivenToCache(user: map<nat, nat>, live: map<nat, nat>, caches: seq<Cache>, shards: seq<Shelf>, n: nat, t: nat, k: nat, b: nat)
    requires Kept(user, live, Shelves(caches), shards) && CachesShaped(caches, n) && b in user && user[b] == k
    requires t < |caches| && caches[t].Cache? && k < |caches[t].stacks| && |caches[t].stacks[k]| < CACHE_SIZE
    ensures Kept(user - {b}, live, Shelves(Put(caches, t, k, caches[t].stacks[k] + [b])), shards)
    ensures CachesShaped(Put(caches, t, k, caches[t].stacks[k] + [b]), n)
  {
    hide Kept;
    Given(user, live, Shelves(caches), shards, t, k, caches[t].stacks[k] + [b], b);
    assert Shelves(Put(caches, t, k, caches[t].stacks[k] + [b]))
        == Shelves(caches)[t := caches[t].stacks[k := caches[t].stacks[k] + [b]]];
  }

  lemma GivenToShard(user: map<nat, nat>, live: map<nat, nat>, caches: seq<Shelf>, shards: seq<Shelf>, i: nat, k: nat, b: nat)
    requires Kept(user, live, caches, shards) && i < |shards| && k < |shards[i]| && b in user && user[b] == k
    ensures Kept(user - {b}, live, caches, shards[i := shards[i][k := [b] + shards[i][k]]])
  {
    hide Kept;
    KeptSwap(user, live, caches, shards);
    Given(user, live, shards, caches, i, k, [b] + shards[i][k], b);
    KeptSwap(user - {b}, live, shards[i := shards[i][k := [b] + shards[i][k]]], caches);
  }

  lemma LastOff(list: seq<nat>)
    requires list != []
    ensures multiset(list) == multiset(list[..|list| - 1]) + multiset{list[|list| - 1]}
  {
    assert list == list[..|list| - 1] + [list[|list| - 1]];
  }

  lemma TakenFromShard(user: map<nat, nat>, live: map<nat, nat>, caches: seq<Shelf>, shards: seq<Shelf>, i: nat, k: nat)
    requires Kept(user, live, caches, shards) && i < |shards| && k < |shards[i]| && shards[i][k] != []
    ensures var b := shards[i][k][0];
      && b in live && live[b] == k && b !in user && b != 0
      && Kept(user[b := k], live, caches, shards[i := shards[i][k := shards[i][k][1..]]])
  {
    hide Kept;
    var b := shards[i][k][0];
    KeptSwap(user, live, caches, shards);
    FirstOff(shards[i][k]);
    Taken(user, live, shards, caches, i, k, shards[i][k][1..], b);
    KeptSwap(user[b := k], live, shards[i := shards[i][k := shards[i][k][1..]]], caches);
  }

  lemma FirstOff(list: seq<nat>)
    requires list != []
    ensures multiset(list) == multiset(list[1..]) + multiset{list[0]}
  {
    assert list == [list[0]] + list[1..];
  }
}
