/** The buffers an engine hands out: the pool, and a map that remembers the size
    class of every buffer with the user, so that a free needs no size. */
module ManagedBuffers {
  import opened SizeClasses
  import BufferPool
  import BufferSizeMap

  class ManagedBuffers {
    const pool: BufferPool.Pool
    const sizes: BufferSizeMap.BufferSizeMap

    /** The map holds exactly the user's buffers, with the classes the pool knows. */
    ghost predicate Valid()
      reads this, pool, pool.caches, pool.repr, sizes, sizes.entries
    {
      && Separate() && pool.Valid() && sizes.Valid() && sizes.Contents == pool.user
    }

    constructor (hash: nat -> nat, threads: nat, shardCount: nat, slots: nat, maxFree: nat)
      requires 0 < shardCount && 0 < slots
      ensures Valid() && pool.user == map[] && pool.caches.Length == threads
    {
      pool := new BufferPool.Pool(threads, shardCount, slots, maxFree);
      sizes := new BufferSizeMap.BufferSizeMap(hash);
    }

    /** `aura_buffer_alloc`: a buffer the user does not have yet, at least as
        large as asked for; or none, for want of memory or of a place in the map,
        and nothing changes for the user. */
    method Alloc(t: nat, size: nat, cacheOk: bool, growOk: bool, heap: seq<nat>) returns (buf: nat)
      requires Valid() && t < pool.caches.Length && BufferPool.FreshFor(heap, pool.live)
      modifies pool, pool.caches, pool.repr, sizes, sizes.entries
      ensures Valid()
      ensures buf == 0 ==> pool.user == old(pool.user)
      ensures buf == 0 ==> size == 0 || size > POOL_MAX_SIZE || heap == [] || !old(sizes.Accepts(growOk))
      ensures buf != 0 ==>
        && buf !in old(pool.user) && pool.user == old(pool.user)[buf := SizeToClass(size)]
        && buf in pool.live && pool.live[buf] == SizeToClass(size) && size <= ClassToSize(pool.live[buf])
      ensures 0 < |pool.shards|
      ensures buf != 0 ==>
        var turn := old(pool.Turn());
        BufferPool.Allocated(BufferPool.WithCache(old(pool.caches[..]), t, cacheOk, turn), pool.caches[..],
                             old(pool.stock), pool.stock, old(pool.live), pool.live, t, SizeToClass(size), turn, heap, buf)
    {
      hide Valid, pool.Valid, sizes.Valid, SizeToClass, ClassToSize, BufferPool.FreshFor, BufferPool.Allocated, BufferPool.Freed, BufferPool.WithCache, BufferPool.ShardOf, BufferPool.Put, HasRoom, Pushed;
      Parts();
      pool.ValidParts();
      if size == 0 {
        return 0;
      }
      buf := pool.Alloc(t, size, cacheOk, heap);
      if buf != 0 {
        var ok := Track(t, buf, size, cacheOk, growOk);
        if !ok {
          assert pool.user == old(pool.user);
          buf := 0;
        }
      }
      Whole();
    }

    /** Remembers the class of a new buffer, or gives the buffer back. */
    method Track(t: nat, buf: nat, size: nat, cacheOk: bool, growOk: bool) returns (ok: bool)
      requires Separate() && pool.Valid() && sizes.Valid() && t < pool.caches.Length
      requires 0 < size <= POOL_MAX_SIZE && buf != 0
      requires buf in pool.user && pool.user[buf] == SizeToClass(size) && sizes.Contents == pool.user - {buf}
      modifies pool, pool.caches, pool.repr, sizes, sizes.entries
      ensures Separate() && pool.Valid() && sizes.Valid() && sizes.Contents == pool.user
      ensures ok == old(sizes.Accepts(growOk))
      ensures pool.user == if ok then old(pool.user) else old(pool.user) - {buf}
      ensures ok ==> pool.live == old(pool.live) && pool.caches[..] == old(pool.caches[..]) && pool.stock == old(pool.stock)
    {
      hide pool.Valid, sizes.Valid, SizeToClass, ClassToSize;
      SmallestClass(size);
      FitsInMap();
      ok := sizes.Insert(buf, SizeToClass(size), growOk);
      if ok {
        assert sizes.Contents == pool.user;
      } else {
        pool.Free(t, buf, size, cacheOk);
      }
    }

    /** `aura_buffer_free`: a buffer of the user's goes back to the class it came
        from, to the top of the thread's own stack if the thread has a cache; any
        other address goes to the heap. That is right for memory that is not the
        pool's, and exactly then: the heap would take back a buffer that the pool
        still has on a stack. */
    method Free(t: nat, buf: nat, cacheOk: bool)
      requires Valid() && t < pool.caches.Length
      modifies pool, pool.caches, pool.repr, sizes, sizes.entries
      ensures Valid() <==> buf == 0 || buf in old(pool.user) || buf !in old(pool.live)
      ensures pool.user == old(pool.user) - {buf} && sizes.entries == old(sizes.entries)
      ensures buf in old(pool.user) && (old(pool.caches[t]).Cache? || cacheOk) ==>
        var k := old(pool.user)[buf];
        buf in pool.live && pool.OnTop(t, k) && buf == pool.caches[t].stacks[k][|pool.caches[t].stacks[k]| - 1]
      ensures old(HasRoom(t, buf, cacheOk)) ==>
        && pool.caches[..] == old(Pushed(t, buf, cacheOk)) && pool.stock == old(pool.stock) && pool.live == old(pool.live)
        && pool.totalBuffers == old(pool.totalBuffers) && pool.totalAllocated == old(pool.totalAllocated)
      ensures buf !in old(pool.user) ==>
        && pool.caches[..] == old(pool.caches[..]) && pool.stock == old(pool.stock)
        && pool.live == if buf == 0 then old(pool.live) else old(pool.live) - {buf}
      ensures !Valid() ==> !BufferPool.Kept(pool.user, pool.live, BufferPool.Shelves(pool.caches[..]), pool.stock)
    {
      hide Valid, pool.Valid, sizes.Valid, SizeToClass, ClassToSize, BufferPool.Freed, BufferPool.Kept, BufferPool.Shelves, HasRoom, Pushed;
      Parts();
      pool.ValidParts();
      SeenIs(t, buf, cacheOk);
      if buf == 0 {
        pool.NullNotUser();
        Whole();
        return;
      }
      var k := sizes.Remove(buf);
      if k < 0 {
        assert sizes.Contents == pool.user;
        assert pool.user - {buf} == pool.user;
        Whole();
        FreeForeign(buf);
        return;
      }
      pool.InUserIsLive(buf);
      UserClass(buf);
      ClassRoundTrip(k);
      FreeTracked(t, buf, k, cacheOk);
      Whole();
    }

    /** An address that the map does not know. */
    method FreeForeign(buf: nat)
      requires Valid() && buf !in pool.user
      modifies pool
      ensures Valid() <==> buf !in old(pool.live)
      ensures pool.user == old(pool.user) && pool.caches[..] == old(pool.caches[..]) && pool.stock == old(pool.stock)
      ensures pool.live == old(pool.live) - {buf}
      ensures !Valid() ==> !BufferPool.Kept(pool.user, pool.live, BufferPool.Shelves(pool.caches[..]), pool.stock)
    {
      hide Valid, pool.Valid, sizes.Valid, BufferPool.Kept, BufferPool.Shelves;
      Parts();
      pool.HeapTakes(buf);
      WholeIfPoolIs();
    }

    /** The pool's side of a tracked free. */
    method FreeTracked(t: nat, buf: nat, k: nat, cacheOk: bool)
      requires pool.Valid() && t < pool.caches.Length && buf != 0 && buf in pool.user && pool.user[buf] == k < SIZE_CLASSES
      requires 0 < ClassToSize(k) <= POOL_MAX_SIZE && SizeToClass(ClassToSize(k)) == k
      modifies pool, pool.caches, pool.repr
      ensures pool.Valid() && pool.user == old(pool.user) - {buf}
      ensures old(pool.caches[t]).Cache? || cacheOk ==>
        buf in pool.live && pool.OnTop(t, k) && buf == pool.caches[t].stacks[k][|pool.caches[t].stacks[k]| - 1]
      ensures old(HasRoom(t, buf, cacheOk)) ==>
        && pool.caches[..] == old(Pushed(t, buf, cacheOk)) && pool.stock == old(pool.stock) && pool.live == old(pool.live)
        && pool.totalBuffers == old(pool.totalBuffers) && pool.totalAllocated == old(pool.totalAllocated)
    {
      hide *;
      pool.ValidParts();
      ghost var turn := pool.Turn();
      ghost var a := BufferPool.WithCache(pool.caches[..], t, cacheOk, turn);
      SeenIs(t, buf, cacheOk);
      pool.Free(t, buf, ClassToSize(k), cacheOk);
      if old(HasRoom(t, buf, cacheOk)) {
        FreedFits(a, pool.caches[..], old(pool.stock), pool.stock, old(pool.live), pool.live, t, k, turn, buf,
                  old(pool.shards[BufferPool.ShardOf(a[t], pool.Turn())].Accepts()));
      }
    }

    /** The caches as the thread finds them, its own made if it had none. */
    ghost function Seen(t: nat, cacheOk: bool): seq<BufferPool.Cache>
      reads pool`nextShard, pool.caches
    {
      BufferPool.WithCache(pool.caches[..], t, cacheOk, pool.Turn())
    }

    /** It has a cache then, with room for this buffer of the user's. */
    ghost predicate HasRoom(t: nat, buf: nat, cacheOk: bool)
      reads pool`user, pool`nextShard, pool.caches
    {
      && buf in pool.user && BufferPool.Has(Seen(t, cacheOk), t, pool.user[buf])
      && |Seen(t, cacheOk)[t].stacks[pool.user[buf]]| < BufferPool.CACHE_SIZE
    }

    /** And these are the caches with the buffer on top of its stack, all else the same. */
    ghost function Pushed(t: nat, buf: nat, cacheOk: bool): seq<BufferPool.Cache>
      reads pool`user, pool`nextShard, pool.caches
    {
      if HasRoom(t, buf, cacheOk) then
        BufferPool.Put(Seen(t, cacheOk), t, pool.user[buf], Seen(t, cacheOk)[t].stacks[pool.user[buf]] + [buf])
      else Seen(t, cacheOk)
    }

    lemma SeenIs(t: nat, buf: nat, cacheOk: bool)
      ensures HasRoom(t, buf, cacheOk) ==>
        var a := BufferPool.WithCache(pool.caches[..], t, cacheOk, pool.Turn());
        && buf in pool.user
        && var k := pool.user[buf];
           && t < |a| && a[t].Cache? && k < |a[t].stacks| && |a[t].stacks[k]| < BufferPool.CACHE_SIZE
           && Pushed(t, buf, cacheOk) == BufferPool.Put(a, t, k, a[t].stacks[k] + [buf])
    {
    }

    /** A second free of the same buffer: the heap has taken it back, and it lies on
        top of the stack from which the thread's next allocation of its class is
        served. */
    method DoubleFree(t: nat, buf: nat, cacheOk: bool)
      requires Valid() && t < pool.caches.Length && buf in pool.user && (pool.caches[t].Cache? || cacheOk)
      modifies pool, pool.caches, pool.repr, sizes, sizes.entries
      ensures !Valid() && buf !in pool.live
      ensures var k := old(pool.user)[buf];
        pool.OnTop(t, k) && buf == pool.caches[t].stacks[k][|pool.caches[t].stacks[k]| - 1]
    {
      hide Valid, pool.Valid, sizes.Valid;
      Parts();
      pool.InUserIsLive(buf);
      Free(t, buf, cacheOk);
      Parts();
      Free(t, buf, cacheOk);
    }

    ghost predicate Separate()
      reads sizes
    {
      {sizes, sizes.entries} !! {pool, pool.caches} + pool.repr
    }

    lemma Parts()
      requires Valid()
      ensures Separate() && pool.Valid() && sizes.Valid() && sizes.Contents == pool.user
    {
    }

    lemma Whole()
      requires Separate() && pool.Valid() && sizes.Valid() && sizes.Contents == pool.user
      ensures Valid()
    {
    }

    lemma WholeIfPoolIs()
      requires Separate() && sizes.Valid() && sizes.Contents == pool.user
      ensures Valid() <==> pool.Valid()
    {
      hide pool.Valid, sizes.Valid;
    }

    lemma UserClass(b: nat)
      requires pool.Valid() && b in pool.user
      ensures pool.user[b] < SIZE_CLASSES
    {
      BufferPool.UserIsLive(pool.user, pool.live, BufferPool.Shelves(pool.caches[..]), pool.stock, b);
    }
  }

  /** With room in the cache a freed buffer moves nothing else. */
  lemma FreedFits(a: seq<BufferPool.Cache>, a': seq<BufferPool.Cache>, st: seq<BufferPool.Shelf>, st': seq<BufferPool.Shelf>,
                  l: map<nat, nat>, l': map<nat, nat>, t: nat, k: nat, turn: nat, buf: nat, accepts: bool)
    requires BufferPool.Freed(a, a', st, st', l, l', t, k, turn, buf, accepts)
    requires t < |a| && a[t].Cache? && k < |a[t].stacks| && |a[t].stacks[k]| < BufferPool.CACHE_SIZE
    ensures a' == BufferPool.Put(a, t, k, a[t].stacks[k] + [buf]) && st' == st && l' == l
  {
  }

  lemma FitsInMap()
    ensures SIZE_CLASSES <= 256
  {
  }
}
