/** The shutdown of a buffer pool while other threads use it: threads register
    their caches, use the shards, and exit at any moment; one thread destroys
    the pool. Every access to state that another thread can reach at the same
    time is a step of its own. What is one step although it is more than one
    access: a section in the shards under their locks, the allocation and the
    filling in of a struct that nobody else has seen, and what the owner or the
    destroyer does, under the cleanup mutex, to fields that only its holder
    touches. Threads interleave in any way. */
module ShutdownMachine {

  /** Who holds the cleanup mutex of a cache. */
  datatype Holder = Nobody | Owner | Destroyer

  /** The cache of one thread, with the count of one size class. `owed` keeps the
      books: the buffers that have come into the cache less those that have been
      handed out, flushed or freed. `leftToDestroyer` remembers whether the
      destroyer decided, when it orphaned the cache, to free the struct itself. */
  datatype Cache = Cache(
    made: bool,                // the struct has been allocated
    pool: bool,                // its pool pointer is not NULL
    cleaned: bool,             // cleaned_up
    counts: nat,               // counts[] of the class
    owed: int,
    exited: bool,              // thread_exited
    key: bool,                 // the pthread key of the owner holds the cache
    holder: Holder,
    leftToDestroyer: bool,
    frees: nat)                // how often the struct has been freed

  /** Where a thread is. */
  datatype Pc =
    | Idle
    // get_thread_cache
    | RegBump | RegCheck | RegMake | RegPush | RegRecheck | RegLock | RegMark | RegUnlock | RegKey | RegBack
    // pool_enter to pool_leave
    | EnterCheck | EnterBack | InShards
    // taking a buffer from the own cache, without its mutex
    | PopTest                  // get_thread_cache has found the pool alive
    | PopLoad                  // there was a buffer, or a refill has brought some
    | PopStore(v: nat)         // has loaded the count
    | PopTake                  // has stored the lower count
    // storing buffers into the own cache, under its mutex
    | StoreCheck | StorePut | StoreUnlock
    // tls_destructor
    | ExitLock | ExitMark | ExitBump | ExitCheck | ExitBack | ExitFree | ExitFlush | ExitLeave | ExitLook
    | ExitUnlock(gone: bool) | ExitDispose(gone: bool)
    | Gone

  /** Where the destroyer is in `buffer_pool_destroy`. */
  datatype Phase =
    | NotYet
    | WaitRegistrations
    | WaitUsers
    | Detach
    | Next
    | Lock(c: nat)
    | Clean(c: nat)            // to read cleaned_up and the count
    | Dump(c: nat, n: nat)     // to free as many buffers as it has read
    | Zero(c: nat)             // to clear the count
    | Orphan(c: nat)
    | Unlock(c: nat, exited: bool)
    | Dispose(c: nat, exited: bool)
    | FreeShards
    | Finished

  datatype Pool = Pool(
    destroyed: bool,
    activeUsers: int,
    registrations: int,        // registrations_inflight
    shardsFreed: bool,
    list: seq<nat>,            // thread_caches, by owner
    taken: seq<nat>,           // detached, still to be processed
    destroyer: nat,            // the thread that will destroy the pool
    phase: Phase,
    threads: seq<Pc>,
    caches: seq<Cache>)

  const NoCache := Cache(false, false, false, 0, 0, false, false, Nobody, false, 0)

  function Init(threads: nat, destroyer: nat): Pool
  {
    Pool(false, 0, 0, false, [], [], destroyer, NotYet, seq(threads, i => Idle), seq(threads, i => NoCache))
  }

  // --------------------------------------------------------------------- steps

  datatype Step =
    | GetCache(t: nat)
    | Enter(t: nat)
    | Pop(t: nat)
    | Store(t: nat)
    | Exit(t: nat)
    | Go(t: nat, fails: bool, n: nat)  // the next step of the call the thread is in
    | Destroy                  // the next step of the destroyer

  predicate Between(phase: Phase)
  {
    !phase.NotYet? && !phase.Finished?
  }

  predicate ThreadEnabled(s: Pool, t: nat)
  {
    t < |s.threads| == |s.caches| && (t == s.destroyer ==> !Between(s.phase))
  }

  predicate Enabled(s: Pool, step: Step)
  {
    match step
    case GetCache(t) => ThreadEnabled(s, t) && s.threads[t].Idle?
    case Enter(t) => ThreadEnabled(s, t) && s.threads[t].Idle?
    case Pop(t) => ThreadEnabled(s, t) && s.threads[t].Idle? && s.caches[t].key
    case Store(t) => ThreadEnabled(s, t) && s.threads[t].Idle? && s.caches[t].key && s.caches[t].holder.Nobody?
    case Exit(t) => ThreadEnabled(s, t) && s.threads[t].Idle?
    case Go(t, _, _) =>
      && ThreadEnabled(s, t) && !s.threads[t].Idle? && !s.threads[t].Gone?
      && (s.threads[t].RegLock? || s.threads[t].ExitLock? ==> s.caches[t].holder.Nobody?)
    case Destroy => DestroyEnabled(s)
  }

  predicate DestroyEnabled(s: Pool)
  {
    match s.phase
    case NotYet => s.destroyer < |s.threads| && s.threads[s.destroyer].Idle?
    case WaitRegistrations => s.registrations <= 0
    case WaitUsers => s.activeUsers <= 0
    case Detach => true
    case Next => true
    case Lock(c) => c < |s.caches| && s.caches[c].holder.Nobody?
    case Clean(c) => c < |s.caches|
    case Dump(c, _) => c < |s.caches|
    case Zero(c) => c < |s.caches|
    case Orphan(c) => c < |s.caches|
    case Unlock(c, _) => c < |s.caches|
    case Dispose(c, _) => c < |s.caches|
    case FreeShards => true
    case Finished => false
  }

  /** One step of a thread changes its position, its own cache, and counters. */
  function ThreadStep(s: Pool, t: nat, p: Pc, c: Cache): Pool
    requires t < |s.threads| == |s.caches|
  {
    s.(threads := s.threads[t := p], caches := s.caches[t := c])
  }

  function NextPc(p: Pc, c: Cache, destroyed: bool, fails: bool, n: nat): Pc
  {
    match p
    case RegBump => RegCheck
    case RegCheck => if destroyed then RegBack else RegMake
    case RegMake => if fails then RegBack else RegPush
    case RegPush => RegRecheck
    case RegRecheck => if destroyed then RegLock else RegKey
    case RegLock => RegMark
    case RegMark => RegUnlock
    case RegUnlock => RegKey
    case RegKey => RegBack
    case EnterCheck => if destroyed then EnterBack else InShards
    case InShards => if c.key && n > 0 && !fails then PopLoad else Idle
    case PopTest => if c.counts > 0 then PopLoad else Idle
    case PopLoad => PopStore(c.counts)
    case PopStore(_) => PopTake
    case StoreCheck => if c.cleaned || destroyed then StoreUnlock else StorePut
    case StorePut => StoreUnlock
    case ExitLock => ExitMark
    case ExitMark => if c.pool then ExitBump else ExitFree
    case ExitBump => ExitCheck
    case ExitCheck => if destroyed then ExitBack else ExitFlush
    case ExitBack => ExitFree
    case ExitFree => ExitLook
    case ExitFlush => ExitLeave
    case ExitLeave => ExitLook
    case ExitLook => ExitUnlock(!c.pool)
    case ExitUnlock(gone) => ExitDispose(gone)
    case ExitDispose(_) => Gone
    case _ => Idle
  }

  /** Disposing of the buffers of a cache, unless that has been done. */
  function Cleaned(c: Cache): Cache
  {
    if c.cleaned then c else c.(cleaned := true, owed := c.owed - c.counts, counts := 0)
  }

  /** `n`: the count that a refill or flush leaves, or what a store brings. */
  function NextCache(c: Cache, p: Pc, destroyed: bool, fails: bool, n: nat): Cache
  {
    match p
    case InShards => if c.key then c.(counts := n, owed := c.owed + n - c.counts) else c
    case PopStore(v) => c.(counts := if v > 0 then v - 1 else 0)
    case PopTake => c.(owed := c.owed - 1)
    case StorePut => c.(counts := c.counts + n, owed := c.owed + n)
    case StoreUnlock => c.(holder := Nobody)
    case RegMake => if fails then c else Cache(true, true, false, 0, 0, false, false, Nobody, false, c.frees)
    case RegLock => c.(holder := Owner)
    case RegMark => c.(cleaned := true)
    case RegUnlock => c.(holder := Nobody)
    case RegKey => c.(key := true)
    case ExitLock => c.(holder := Owner)
    case ExitMark => c.(exited := true)
    case ExitFree => Cleaned(c)
    case ExitFlush => Cleaned(c)
    case ExitUnlock(_) => c.(holder := Nobody)
    case ExitDispose(gone) => if gone then c.(frees := c.frees + 1) else c
    case _ => c
  }

  /** What the step adds to `registrations_inflight` and to `active_users`. */
  function Registers(p: Pc): int
  {
    if p.RegBump? then 1 else if p.RegBack? then -1 else 0
  }

  function Uses(p: Pc): int
  {
    if p.ExitBump? then 1
    else if p.EnterBack? || p.InShards? || p.ExitBack? || p.ExitLeave? then -1
    else 0
  }

  function Apply(s: Pool, step: Step): Pool
    requires Enabled(s, step)
  {
    match step
    case GetCache(t) =>
      if s.destroyed || s.caches[t].key then s else ThreadStep(s, t, RegBump, s.caches[t])
    case Enter(t) => ThreadStep(s, t, EnterCheck, s.caches[t]).(activeUsers := s.activeUsers + 1)
    case Pop(t) => if s.destroyed then s else ThreadStep(s, t, PopTest, s.caches[t])
    case Store(t) => ThreadStep(s, t, StoreCheck, s.caches[t].(holder := Owner))
    case Exit(t) => ThreadStep(s, t, if s.caches[t].key then ExitLock else Gone, s.caches[t].(key := false))
    case Go(t, fails, n) =>
      var p := s.threads[t];
      ThreadStep(s, t, NextPc(p, s.caches[t], s.destroyed, fails, n), NextCache(s.caches[t], p, s.destroyed, fails, n))
        .(registrations := s.registrations + Registers(p), activeUsers := s.activeUsers + Uses(p),
          list := if p.RegPush? then [t] + s.list else s.list)
    case Destroy => DestroyStep(s)
  }

  function DestroyStep(s: Pool): Pool
    requires DestroyEnabled(s)
  {
    match s.phase
    case NotYet => s.(destroyed := true, phase := WaitRegistrations)
    case WaitRegistrations => s.(phase := WaitUsers)
    case WaitUsers => s.(phase := Detach)
    case Detach => if s.list == [] then s.(phase := FreeShards) else s.(taken := s.list, list := [], phase := Next)
    case Next => if s.taken == [] then s.(phase := Detach) else s.(phase := Lock(s.taken[0]), taken := s.taken[1..])
    case Lock(c) => s.(caches := s.caches[c := s.caches[c].(holder := Destroyer)], phase := Clean(c))
    case Clean(c) => s.(phase := if s.caches[c].cleaned then Orphan(c) else Dump(c, s.caches[c].counts))
    case Dump(c, n) => s.(caches := s.caches[c := s.caches[c].(owed := s.caches[c].owed - n)], phase := Zero(c))
    case Zero(c) => s.(caches := s.caches[c := s.caches[c].(counts := 0, cleaned := true)], phase := Orphan(c))
    case Orphan(c) =>
      var exited := s.caches[c].exited;
      s.(caches := s.caches[c := s.caches[c].(pool := false, leftToDestroyer := exited || c == s.destroyer)],
         phase := Unlock(c, exited))
    case Unlock(c, exited) => s.(caches := s.caches[c := s.caches[c].(holder := Nobody)], phase := Dispose(c, exited))
    case Dispose(c, exited) =>
      if c == s.destroyer then
        s.(caches := s.caches[c := s.caches[c].(key := false, frees := s.caches[c].frees + 1)], phase := Next)
      else if exited then
        s.(caches := s.caches[c := s.caches[c].(frees := s.caches[c].frees + 1)], phase := Next)
      else s.(phase := Next)
    case FreeShards => s.(shardsFreed := true, phase := Finished)
  }

  // ----------------------------------------------------------- kinds of position

  predicate Registering(p: Pc)
  {
    p.RegMake? || p.RegPush? || p.RegRecheck? || p.RegLock? || p.RegMark? || p.RegUnlock? || p.RegKey?
  }

  predicate UsesShards(p: Pc)
  {
    p.InShards? || p.ExitFlush?
  }

  predicate CountsAs(p: Pc, user: bool)
  {
    if user then p.EnterCheck? || p.EnterBack? || UsesShards(p) || p.ExitCheck? || p.ExitBack? || p.ExitLeave?
    else p.RegCheck? || p.RegBack? || Registering(p)
  }

  predicate Stores(p: Pc)
  {
    p.StoreCheck? || p.StorePut? || p.StoreUnlock?
  }

  predicate Pops(p: Pc)
  {
    p.PopTest? || p.PopLoad? || p.PopStore? || p.PopTake?
  }

  predicate HoldsOwn(p: Pc)
  {
    || p.RegMark? || p.RegUnlock? || Stores(p) || p.ExitMark? || p.ExitBump? || p.ExitCheck? || p.ExitBack? || p.ExitFree?
    || p.ExitFlush? || p.ExitLeave? || p.ExitLook? || p.ExitUnlock?
  }

  predicate Marked(p: Pc)
  {
    || p.ExitBump? || p.ExitCheck? || p.ExitBack? || p.ExitFree? || p.ExitFlush? || p.ExitLeave? || p.ExitLook?
    || p.ExitUnlock? || p.ExitDispose?
  }

  predicate Plain(p: Pc)
  {
    p.Idle? || p.RegBack? || p.EnterCheck? || p.EnterBack? || p.InShards? || Pops(p) || Stores(p)
  }

  predicate PastRegistrations(phase: Phase)
  {
    !phase.NotYet? && !phase.WaitRegistrations?
  }

  predicate PastUsers(phase: Phase)
  {
    PastRegistrations(phase) && !phase.WaitUsers?
  }

  // ----------------------------------------------------------------- invariant

  ghost function Number(threads: seq<Pc>, user: bool): nat
  {
    if threads == [] then 0
    else Number(threads[..|threads| - 1], user) + if CountsAs(threads[|threads| - 1], user) then 1 else 0
  }

  lemma {:induction false} NumberUpdate(threads: seq<Pc>, t: nat, p: Pc, user: bool)
    requires t < |threads|
    ensures Number(threads[t := p], user) == Number(threads, user)
      + (if CountsAs(p, user) then 1 else 0) - (if CountsAs(threads[t], user) then 1 else 0)
  {
    var n := |threads| - 1;
    if t == n {
      assert threads[t := p][..n] == threads[..n];
    } else {
      assert threads[t := p][..n] == threads[..n][t := p];
      NumberUpdate(threads[..n], t, p, user);
    }
  }

  lemma {:induction false} NumberZero(threads: seq<Pc>, user: bool)
    requires Number(threads, user) == 0
    ensures forall t {:trigger threads[t]} :: 0 <= t < |threads| ==> !CountsAs(threads[t], user)
  {
    if threads != [] {
      NumberZero(threads[..|threads| - 1], user);
      assert forall t {:trigger threads[t]} :: 0 <= t < |threads| - 1 ==> threads[t] == threads[..|threads| - 1][t];
    }
  }

  lemma {:induction false} NumberNone(threads: seq<Pc>, user: bool)
    requires forall t :: 0 <= t < |threads| ==> threads[t].Idle?
    ensures Number(threads, user) == 0
  {
    if threads != [] {
      NumberNone(threads[..|threads| - 1], user);
    }
  }

  ghost predicate Counted(s: Pool)
  {
    s.activeUsers == Number(s.threads, true) && s.registrations == Number(s.threads, false)
  }

  /** Once the destroyer has seen a counter at zero, nobody is in what it guards. */
  ghost predicate Quiet(s: Pool)
  {
    && (PastRegistrations(s.phase) ==> forall t {:trigger s.threads[t]} :: 0 <= t < |s.threads| ==> !Registering(s.threads[t]))
    && (PastUsers(s.phase) ==> forall t {:trigger s.threads[t]} :: 0 <= t < |s.threads| ==> !UsesShards(s.threads[t]))
  }

  ghost predicate DestroyerSound(s: Pool)
  {
    && |s.caches| == |s.threads| && s.destroyer < |s.threads|
    && (s.destroyed <==> !s.phase.NotYet?) && (s.shardsFreed <==> s.phase.Finished?)
    && (Between(s.phase) ==> s.threads[s.destroyer].Idle?)
    && (!PastUsers(s.phase) || s.phase.Detach? ==> s.taken == [])
    && (s.phase.Next? || AtSomeCache(s.phase) ==> s.list == [])
    && (s.phase.FreeShards? || s.phase.Finished? ==> s.list == [] && s.taken == [])
  }

  /** The destroyer is at a cache that it has not orphaned yet. */
  predicate Processing(phase: Phase)
  {
    phase.Lock? || phase.Clean? || phase.Dump? || phase.Zero? || phase.Orphan?
  }

  predicate AtSomeCache(phase: Phase)
  {
    Processing(phase) || phase.Unlock? || phase.Dispose?
  }

  /** The caches that the destroyer still has to orphan. */
  function Waiting(s: Pool): seq<nat>
  {
    (if Processing(s.phase) then [s.phase.c] else []) + s.taken + s.list
  }

  ghost predicate Distinct(list: seq<nat>)
  {
    forall j, k :: 0 <= j < k < |list| ==> list[j] != list[k]
  }

  ghost predicate WaitingSound(s: Pool)
  {
    && Distinct(Waiting(s))
    && (forall t: nat {:trigger t in Waiting(s)} :: t in Waiting(s) ==> t < |s.caches|)
    && (s.phase.Unlock? || s.phase.Dispose? ==> s.phase.c < |s.caches|)
  }

  /** The life of a struct whose pool pointer is set: nobody has freed it. */
  predicate Attached(c: Cache)
  {
    c.frees == 0 && !c.leftToDestroyer
  }

  /** How far the destroyer is with one cache. */
  datatype Stage = Away | Holding | Read(n: nat) | Dumped | Emptied | Nulled(exited: bool) | Released(exited: bool)

  function StageOf(phase: Phase, t: nat): Stage
  {
    match phase
    case Clean(c) => if c == t then Holding else Away
    case Dump(c, n) => if c == t then Read(n) else Away
    case Zero(c) => if c == t then Dumped else Away
    case Orphan(c) => if c == t then Emptied else Away
    case Unlock(c, exited) => if c == t then Nulled(exited) else Away
    case Dispose(c, exited) => if c == t then Released(exited) else Away
    case _ => Away
  }

  /** The life of an orphaned struct: the destroyer frees it if it saw that the
      owner had exited or if it is its own, and otherwise the owner does. */
  predicate Orphaned(c: Cache, p: Pc, past: bool, stage: Stage, mine: bool)
  {
    && past
    && (if c.leftToDestroyer then
          && c.frees == (if stage.Nulled? || stage.Released? then 0 else 1)
          && (if mine then stage.Away? ==> !c.key && ((Plain(p) && !Pops(p) && !Stores(p) && !p.InShards?) || p.Gone?)
              else p == ExitDispose(false) || p.Gone?)
        else
          && !mine
          && c.frees == (if p.Gone? then 1 else 0)
          && (p.ExitDispose? ==> p.gone))
  }

  /** `cleaned_up`: set when the owner has gone through the destructor or the
      destroyer has orphaned the cache; and nothing is stored from then on. */
  predicate CleanSound(c: Cache, p: Pc, destroyed: bool, stage: Stage)
  {
    && (c.cleaned ==> destroyed || Marked(p) || p.Gone?)
    && (p.RegLock? || p.RegMark? || p.RegUnlock? ==> destroyed)
    && (p.InShards? || p.StorePut? || stage.Read? || stage.Dumped? ==> !c.cleaned)
    && (!c.pool || stage.Emptied? ==> c.cleaned)
    && (p.ExitLeave? || p.ExitLook? || p.ExitUnlock? || p.ExitDispose? || p.Gone? ==> c.cleaned)
  }

  /** Everything about the cache of a thread. `past`: the destroyer is past
      waiting for users. */
  predicate CacheSound(c: Cache, p: Pc, waiting: bool, destroyed: bool, past: bool, stage: Stage, mine: bool)
  {
    if !c.made then
      && c == NoCache && !waiting && stage.Away?
      && (Plain(p) || p.RegBump? || p.RegCheck? || p.RegMake? || p.Gone?) && !Pops(p) && !Stores(p)
    else
      && !(p.RegBump? || p.RegCheck? || p.RegMake?)
      && (waiting <==> c.pool && !p.RegPush?)
      && (p.RegPush? ==> c.pool)
      && (c.holder.Owner? <==> HoldsOwn(p))
      && (c.holder.Destroyer? <==> stage.Holding? || stage.Read? || stage.Dumped? || stage.Emptied? || stage.Nulled?)
      && (c.exited ==> Marked(p) || p.Gone?)
      && (Marked(p) ==> c.exited)
      && (p.Gone? ==> c.exited || (mine && !c.pool && c.leftToDestroyer))
      && (c.key ==> Plain(p))
      && (Plain(p) ==> c.key || (mine && !c.pool && c.leftToDestroyer))
      && (p.ExitUnlock? ==> p.gone == !c.pool)
      && (p.ExitDispose? && p.gone ==> !c.pool)
      && (stage.Nulled? || stage.Released? ==> !c.pool && c.leftToDestroyer == (stage.exited || mine))
      && (stage.Nulled? ==> c.exited == stage.exited)
      && CleanSound(c, p, destroyed, stage)
      && (if c.pool then Attached(c) else Orphaned(c, p, past, stage, mine))
  }

  ghost predicate SoundAt(s: Pool, t: nat)
    requires t < |s.caches| == |s.threads|
  {
    CacheSound(s.caches[t], s.threads[t], t in Waiting(s), s.destroyed, PastUsers(s.phase), StageOf(s.phase, t), t == s.destroyer)
  }

  ghost predicate CachesSound(s: Pool)
  {
    |s.caches| == |s.threads| &&
    forall t: nat {:trigger s.caches[t]} {:trigger s.threads[t]} :: t < |s.caches| ==> SoundAt(s, t)
  }

  ghost predicate Inv(s: Pool)
  {
    Counted(s) && Quiet(s) && DestroyerSound(s) && WaitingSound(s) && CachesSound(s)
  }

  // ------------------------------------------------------------ steps keep it

  lemma GoCounts(p: Pc, c: Cache, destroyed: bool, fails: bool, n: nat)
    requires !p.Idle? && !p.Gone?
    ensures var p' := NextPc(p, c, destroyed, fails, n);
      && Uses(p) == (if CountsAs(p', true) then 1 else 0) - (if CountsAs(p, true) then 1 else 0)
      && Registers(p) == (if CountsAs(p', false) then 1 else 0) - (if CountsAs(p, false) then 1 else 0)
  {
  }

  lemma GoCounted(s: Pool, step: Step)
    requires Counted(s) && Enabled(s, step) && step.Go?
    ensures Counted(Apply(s, step))
  {
    hide NextPc, NextCache, Uses, Registers, Number, CountsAs;
    var p := s.threads[step.t];
    GoCounts(p, s.caches[step.t], s.destroyed, step.fails, step.n);
    var p' := NextPc(p, s.caches[step.t], s.destroyed, step.fails, step.n);
    NumberUpdate(s.threads, step.t, p', true);
    NumberUpdate(s.threads, step.t, p', false);
  }

  lemma StartCounted(s: Pool, t: nat, p: Pc, c: Cache)
    requires Counted(s) && t < |s.threads| == |s.caches| && s.threads[t].Idle?
    requires p.Idle? || p.RegBump? || p.EnterCheck? || p.PopTest? || p.StoreCheck? || p.ExitLock? || p.Gone?
    ensures Counted(ThreadStep(s, t, p, c).(activeUsers := if p.EnterCheck? then s.activeUsers + 1 else s.activeUsers))
  {
    hide Number;
    NumberUpdate(s.threads, t, p, true);
    NumberUpdate(s.threads, t, p, false);
  }

  lemma CountedKept(s: Pool, step: Step)
    requires Counted(s) && Enabled(s, step)
    ensures Counted(Apply(s, step))
  {
    if step.Go? {
      GoCounted(s, step);
    } else if step.Destroy? {
      assert DestroyStep(s).threads == s.threads;
    } else {
      hide Counted, Number;
      var t := step.t;
      match step {
        case GetCache(_) => StartCounted(s, t, RegBump, s.caches[t]);
        case Enter(_) => StartCounted(s, t, EnterCheck, s.caches[t]);
        case Pop(_) => StartCounted(s, t, PopTest, s.caches[t]);
        case Store(_) => StartCounted(s, t, StoreCheck, s.caches[t].(holder := Owner));
        case Exit(_) => StartCounted(s, t, if s.caches[t].key then ExitLock else Gone, s.caches[t].(key := false));
      }
    }
  }

  /** A thread gets into a section that a counter guards only while the pool is alive. */
  lemma GoEnters(p: Pc, c: Cache, destroyed: bool, fails: bool, n: nat)
    requires !p.Idle? && !p.Gone? && destroyed
    ensures var p' := NextPc(p, c, destroyed, fails, n);
      && (Registering(p') ==> Registering(p))
      && (UsesShards(p') ==> UsesShards(p))
  {
  }

  lemma ThreadQuiet(s: Pool, step: Step)
    requires Quiet(s) && DestroyerSound(s) && Enabled(s, step) && !step.Destroy?
    ensures Quiet(Apply(s, step))
  {
    hide NextPc, NextCache, Number, Registering, UsesShards;
    PlainEnds();
    if step.Go? && s.destroyed {
      GoEnters(s.threads[step.t], s.caches[step.t], s.destroyed, step.fails, step.n);
    }
  }

  lemma PlainEnds()
    ensures !Registering(Idle) && !Registering(RegBump) && !Registering(EnterCheck) && !Registering(PopTest)
    ensures !Registering(StoreCheck) && !Registering(ExitLock) && !Registering(Gone)
    ensures !UsesShards(Idle) && !UsesShards(RegBump) && !UsesShards(EnterCheck) && !UsesShards(PopTest)
    ensures !UsesShards(StoreCheck) && !UsesShards(ExitLock) && !UsesShards(Gone)
  {
  }

  lemma QuietKept(s: Pool, step: Step)
    requires Counted(s) && Quiet(s) && DestroyerSound(s) && Enabled(s, step)
    ensures Quiet(Apply(s, step))
  {
    if !step.Destroy? {
      ThreadQuiet(s, step);
    } else {
      hide NextPc, NextCache, Number;
      if s.phase.WaitRegistrations? { NumberZero(s.threads, false); }
      if s.phase.WaitUsers? { NumberZero(s.threads, true); }
    }
  }

  lemma DestroyerKept(s: Pool, step: Step)
    requires Quiet(s) && DestroyerSound(s) && Enabled(s, step)
    ensures DestroyerSound(Apply(s, step))
  {
  }

  /** A thread's step leaves the caches of the others and the waiting list as
      they are, but for its own registration. */
  lemma ThreadWaiting(s: Pool, step: Step)
    requires Inv(s) && Enabled(s, step) && !step.Destroy?
    ensures var s' := Apply(s, step);
      && s'.phase == s.phase && s'.destroyer == s.destroyer
      && Waiting(s') == (if step.Go? && s.threads[step.t].RegPush? then [step.t] else []) + Waiting(s)
  {
    hide NextPc, NextCache, Uses, Registers, Counted, CachesSound, WaitingSound;
    assert step.Go? && s.threads[step.t].RegPush? ==> !PastRegistrations(s.phase);
  }

  lemma ThreadWaitingKept(s: Pool, step: Step)
    requires Inv(s) && Enabled(s, step) && !step.Destroy?
    ensures WaitingSound(Apply(s, step))
  {
    ThreadWaiting(s, step);
    var t := step.t;
    var s' := Apply(s, step);
    assert SoundAt(s, t);
    hide Waiting, CacheSound, CachesSound, NextPc, NextCache, Quiet, Counted, DestroyerSound;
    if step.Go? && s.threads[t].RegPush? {
      PushDistinct(t, Waiting(s));
    }
    assert Waiting(s') == if step.Go? && s.threads[t].RegPush? then [t] + Waiting(s) else Waiting(s);
  }

  lemma PushDistinct(t: nat, w: seq<nat>)
    requires Distinct(w) && t !in w
    ensures Distinct([t] + w)
  {
  }

  lemma TailDistinct(t: nat, w: seq<nat>)
    requires Distinct([t] + w)
    ensures Distinct(w) && t !in w
  {
    var all := [t] + w;
    assert forall k :: 0 <= k < |w| ==> w[k] == all[k + 1];
    assert all[0] == t;
  }

  lemma DestroyerWaitingKept(s: Pool)
    requires Inv(s) && DestroyEnabled(s)
    ensures WaitingSound(DestroyStep(s))
    ensures s.phase.Orphan? ==> s.phase.c in Waiting(s) && s.phase.c !in Waiting(DestroyStep(s))
  {
    DestroyerWaiting(s);
    DestroyerKeepsShape(s);
    var s' := DestroyStep(s);
    hide Waiting, CachesSound, Quiet, Counted, DestroyerSound, DestroyStep, DestroyEnabled, Distinct;
    if s.phase.Orphan? {
      assert Waiting(s)[0] == s.phase.c;
      TailDistinct(s.phase.c, Waiting(s'));
    }
    assert forall t: nat {:trigger t in Waiting(s')} :: t in Waiting(s') ==> t in Waiting(s);
  }

  lemma DestroyerKeepsShape(s: Pool)
    requires DestroyEnabled(s) && WaitingSound(s)
    ensures var s' := DestroyStep(s);
      && |s'.caches| == |s.caches| && s'.threads == s.threads
      && (s'.phase.Unlock? || s'.phase.Dispose? ==> s'.phase.c < |s'.caches|)
  {
    hide Waiting, Distinct;
  }

  /** The destroyer's step only takes the cache it orphans off the waiting list. */
  lemma DestroyerWaiting(s: Pool)
    requires DestroyerSound(s) && DestroyEnabled(s)
    ensures var w := Waiting(DestroyStep(s));
      if s.phase.Orphan? then Waiting(s) == [s.phase.c] + w else w == Waiting(s)
  {
  }

  /** A thread can take its next step: it is not the destroyer at work, the mutex
      it waits for is free, and registration is over once the destroyer is past
      waiting for it. */
  predicate MayGo(c: Cache, p: Pc, destroyed: bool, past: bool, stage: Stage, mine: bool)
  {
    && (mine ==> stage.Away?) && (past ==> destroyed)
    && (p.RegLock? || p.ExitLock? ==> c.holder.Nobody?)
    && (Registering(p) || UsesShards(p) ==> !past)
  }

  lemma RegistrationGoKeeps(c: Cache, p: Pc, waiting: bool, destroyed: bool, past: bool, stage: Stage, mine: bool, fails: bool, n: nat)
    requires CacheSound(c, p, waiting, destroyed, past, stage, mine) && MayGo(c, p, destroyed, past, stage, mine)
    requires p.RegBump? || p.RegCheck? || p.RegBack? || p.RegMake?
    ensures CacheSound(NextCache(c, p, destroyed, fails, n), NextPc(p, c, destroyed, fails, n), waiting || p.RegPush?, destroyed, past, stage, mine)
  {
  }

  lemma RegisteredGoKeeps(c: Cache, p: Pc, waiting: bool, destroyed: bool, past: bool, stage: Stage, mine: bool, fails: bool, n: nat)
    requires CacheSound(c, p, waiting, destroyed, past, stage, mine) && MayGo(c, p, destroyed, past, stage, mine)
    requires p.RegPush? || p.RegRecheck? || p.RegKey?
    ensures CacheSound(NextCache(c, p, destroyed, fails, n), NextPc(p, c, destroyed, fails, n), waiting || p.RegPush?, destroyed, past, stage, mine)
  {
  }

  lemma MarkGoKeeps(c: Cache, p: Pc, waiting: bool, destroyed: bool, past: bool, stage: Stage, mine: bool, fails: bool, n: nat)
    requires CacheSound(c, p, waiting, destroyed, past, stage, mine) && MayGo(c, p, destroyed, past, stage, mine)
    requires p.RegLock? || p.RegMark? || p.RegUnlock?
    ensures CacheSound(NextCache(c, p, destroyed, fails, n), NextPc(p, c, destroyed, fails, n), waiting || p.RegPush?, destroyed, past, stage, mine)
  {
  }

  lemma EnterGoKeeps(c: Cache, p: Pc, waiting: bool, destroyed: bool, past: bool, stage: Stage, mine: bool, fails: bool, n: nat)
    requires CacheSound(c, p, waiting, destroyed, past, stage, mine) && MayGo(c, p, destroyed, past, stage, mine)
    requires p.EnterCheck? || p.EnterBack? || p.InShards?
    ensures CacheSound(NextCache(c, p, destroyed, fails, n), NextPc(p, c, destroyed, fails, n), waiting || p.RegPush?, destroyed, past, stage, mine)
  {
  }

  lemma PopGoKeeps(c: Cache, p: Pc, waiting: bool, destroyed: bool, past: bool, stage: Stage, mine: bool, fails: bool, n: nat)
    requires CacheSound(c, p, waiting, destroyed, past, stage, mine) && MayGo(c, p, destroyed, past, stage, mine)
    requires Pops(p)
    ensures CacheSound(NextCache(c, p, destroyed, fails, n), NextPc(p, c, destroyed, fails, n), waiting || p.RegPush?, destroyed, past, stage, mine)
  {
  }

  lemma StoreGoKeeps(c: Cache, p: Pc, waiting: bool, destroyed: bool, past: bool, stage: Stage, mine: bool, fails: bool, n: nat)
    requires CacheSound(c, p, waiting, destroyed, past, stage, mine) && MayGo(c, p, destroyed, past, stage, mine)
    requires Stores(p)
    ensures CacheSound(NextCache(c, p, destroyed, fails, n), NextPc(p, c, destroyed, fails, n), waiting || p.RegPush?, destroyed, past, stage, mine)
  {
  }

  lemma LookGoKeeps(c: Cache, p: Pc, waiting: bool, destroyed: bool, past: bool, stage: Stage, mine: bool, fails: bool, n: nat)
    requires CacheSound(c, p, waiting, destroyed, past, stage, mine) && MayGo(c, p, destroyed, past, stage, mine)
    requires p.ExitLook? || p.ExitUnlock? || p.ExitDispose?
    ensures CacheSound(NextCache(c, p, destroyed, fails, n), NextPc(p, c, destroyed, fails, n), waiting || p.RegPush?, destroyed, past, stage, mine)
  {
  }

  lemma ExitGoKeeps(c: Cache, p: Pc, waiting: bool, destroyed: bool, past: bool, stage: Stage, mine: bool, fails: bool, n: nat)
    requires CacheSound(c, p, waiting, destroyed, past, stage, mine) && MayGo(c, p, destroyed, past, stage, mine)
    requires p.ExitLock? || p.ExitMark?
    ensures CacheSound(NextCache(c, p, destroyed, fails, n), NextPc(p, c, destroyed, fails, n), waiting || p.RegPush?, destroyed, past, stage, mine)
  {
  }

  lemma FlushGoKeeps(c: Cache, p: Pc, waiting: bool, destroyed: bool, past: bool, stage: Stage, mine: bool, fails: bool, n: nat)
    requires CacheSound(c, p, waiting, destroyed, past, stage, mine) && MayGo(c, p, destroyed, past, stage, mine)
    requires Marked(p) && !p.ExitLook? && !p.ExitUnlock? && !p.ExitDispose?
    ensures CacheSound(NextCache(c, p, destroyed, fails, n), NextPc(p, c, destroyed, fails, n), waiting || p.RegPush?, destroyed, past, stage, mine)
  {
  }

  lemma GoKeeps(c: Cache, p: Pc, waiting: bool, destroyed: bool, past: bool, stage: Stage, mine: bool, fails: bool, n: nat)
    requires CacheSound(c, p, waiting, destroyed, past, stage, mine) && MayGo(c, p, destroyed, past, stage, mine)
    requires !p.Idle? && !p.Gone?
    ensures CacheSound(NextCache(c, p, destroyed, fails, n), NextPc(p, c, destroyed, fails, n), waiting || p.RegPush?, destroyed, past, stage, mine)
  {
    hide CacheSound, NextPc, NextCache;
    if p.RegBump? || p.RegCheck? || p.RegBack? || p.RegMake? {
      RegistrationGoKeeps(c, p, waiting, destroyed, past, stage, mine, fails, n);
    } else if p.RegPush? || p.RegRecheck? || p.RegKey? {
      RegisteredGoKeeps(c, p, waiting, destroyed, past, stage, mine, fails, n);
    } else if p.RegLock? || p.RegMark? || p.RegUnlock? {
      MarkGoKeeps(c, p, waiting, destroyed, past, stage, mine, fails, n);
    } else if p.EnterCheck? || p.EnterBack? || p.InShards? {
      EnterGoKeeps(c, p, waiting, destroyed, past, stage, mine, fails, n);
    } else if Pops(p) {
      PopGoKeeps(c, p, waiting, destroyed, past, stage, mine, fails, n);
    } else if Stores(p) {
      StoreGoKeeps(c, p, waiting, destroyed, past, stage, mine, fails, n);
    } else if p.ExitLook? || p.ExitUnlock? || p.ExitDispose? {
      LookGoKeeps(c, p, waiting, destroyed, past, stage, mine, fails, n);
    } else if p.ExitLock? || p.ExitMark? {
      ExitGoKeeps(c, p, waiting, destroyed, past, stage, mine, fails, n);
    } else {
      FlushGoKeeps(c, p, waiting, destroyed, past, stage, mine, fails, n);
    }
  }

  lemma IdleKeeps(c: Cache, waiting: bool, destroyed: bool, past: bool, stage: Stage, mine: bool)
    requires CacheSound(c, Idle, waiting, destroyed, past, stage, mine) && MayGo(c, Idle, destroyed, past, stage, mine)
    ensures !destroyed && !c.key ==> CacheSound(c, RegBump, waiting, destroyed, past, stage, mine)
    ensures CacheSound(c, EnterCheck, waiting, destroyed, past, stage, mine)
    ensures c.key ==> CacheSound(c, PopTest, waiting, destroyed, past, stage, mine)
  {
  }

  lemma StoreKeeps(c: Cache, waiting: bool, destroyed: bool, past: bool, stage: Stage, mine: bool)
    requires CacheSound(c, Idle, waiting, destroyed, past, stage, mine) && MayGo(c, Idle, destroyed, past, stage, mine)
    ensures c.key && c.holder.Nobody? ==> CacheSound(c.(holder := Owner), StoreCheck, waiting, destroyed, past, stage, mine)
  {
  }

  lemma ExitKeeps(c: Cache, waiting: bool, destroyed: bool, past: bool, stage: Stage, mine: bool)
    requires CacheSound(c, Idle, waiting, destroyed, past, stage, mine) && MayGo(c, Idle, destroyed, past, stage, mine)
    ensures CacheSound(c.(key := false), if c.key then ExitLock else Gone, waiting, destroyed, past, stage, mine)
  {
  }

  lemma GoKept(s: Pool, step: Step)
    requires Inv(s) && Enabled(s, step) && step.Go?
    ensures SoundAt(Apply(s, step), step.t)
  {
    var t := step.t;
    ThreadWaiting(s, step);
    ThreadMayGo(s, t);
    assert SoundAt(s, t);
    hide Inv, Waiting, WaitingSound, Counted, CacheSound, Quiet, CachesSound, DestroyerSound, MayGo, StageOf, PastUsers, NextPc, NextCache, Registers, Uses;
    GoKeeps(s.caches[t], s.threads[t], t in Waiting(s), s.destroyed, PastUsers(s.phase), StageOf(s.phase, t), t == s.destroyer, step.fails, step.n);
  }

  lemma StartKept(s: Pool, step: Step)
    requires Inv(s) && Enabled(s, step) && (step.GetCache? || step.Enter? || step.Pop?)
    ensures SoundAt(Apply(s, step), step.t)
  {
    var t := step.t;
    ThreadWaiting(s, step);
    MayStart(s, t);
    assert SoundAt(s, t);
    hide Inv, Waiting, WaitingSound, Counted, CacheSound, Quiet, CachesSound, DestroyerSound, MayGo, StageOf, PastUsers, NextPc, NextCache;
    IdleKeeps(s.caches[t], t in Waiting(s), s.destroyed, PastUsers(s.phase), StageOf(s.phase, t), t == s.destroyer);
  }

  lemma StoreKept(s: Pool, step: Step)
    requires Inv(s) && Enabled(s, step) && (step.Store?)
    ensures SoundAt(Apply(s, step), step.t)
  {
    var t := step.t;
    ThreadWaiting(s, step);
    MayStart(s, t);
    assert SoundAt(s, t);
    hide Inv, Waiting, WaitingSound, Counted, CacheSound, Quiet, CachesSound, DestroyerSound, MayGo, StageOf, PastUsers, NextPc, NextCache;
    StoreKeeps(s.caches[t], t in Waiting(s), s.destroyed, PastUsers(s.phase), StageOf(s.phase, t), t == s.destroyer);
  }

  lemma ExitKept(s: Pool, step: Step)
    requires Inv(s) && Enabled(s, step) && (step.Exit?)
    ensures SoundAt(Apply(s, step), step.t)
  {
    var t := step.t;
    ThreadWaiting(s, step);
    MayStart(s, t);
    assert SoundAt(s, t);
    hide Inv, Waiting, WaitingSound, Counted, CacheSound, Quiet, CachesSound, DestroyerSound, MayGo, StageOf, PastUsers, NextPc, NextCache;
    ExitKeeps(s.caches[t], t in Waiting(s), s.destroyed, PastUsers(s.phase), StageOf(s.phase, t), t == s.destroyer);
  }

  lemma OwnCacheKept(s: Pool, step: Step)
    requires Inv(s) && Enabled(s, step) && !step.Destroy?
    ensures SoundAt(Apply(s, step), step.t)
  {
    hide Inv, Enabled, Apply, SoundAt;
    if step.Go? { GoKept(s, step); }
    else if step.Store? { StoreKept(s, step); }
    else if step.Exit? { ExitKept(s, step); }
    else { StartKept(s, step); }
  }

  lemma MayStart(s: Pool, t: nat)
    requires DestroyerSound(s) && ThreadEnabled(s, t) && s.threads[t].Idle?
    ensures MayGo(s.caches[t], Idle, s.destroyed, PastUsers(s.phase), StageOf(s.phase, t), t == s.destroyer)
  {
  }

  lemma ThreadMayGo(s: Pool, t: nat)
    requires Quiet(s) && DestroyerSound(s) && ThreadEnabled(s, t)
    requires s.threads[t].RegLock? || s.threads[t].ExitLock? ==> s.caches[t].holder.Nobody?
    ensures MayGo(s.caches[t], s.threads[t], s.destroyed, PastUsers(s.phase), StageOf(s.phase, t), t == s.destroyer)
    ensures StageOf(s.phase, t).Read? || StageOf(s.phase, t).Dumped? ==> s.destroyed && PastUsers(s.phase)
  {
  }

  lemma OtherCacheKept(s: Pool, step: Step, t: nat)
    requires Inv(s) && Enabled(s, step) && !step.Destroy? && t != step.t && t < |s.caches|
    ensures var s' := Apply(s, step);
      && s'.caches[t] == s.caches[t] && s'.threads[t] == s.threads[t]
      && SoundAt(s', t)
  {
    ThreadWaiting(s, step);
    hide Waiting, WaitingSound, Counted, CacheSound;
  }

  lemma ElsewhereKeeps(c: Cache, p: Pc, waiting: bool, destroyed: bool, past: bool, mine: bool)
    requires CacheSound(c, p, waiting, destroyed, past, Away, mine)
    ensures CacheSound(c, p, waiting, true, past, Away, mine) && CacheSound(c, p, waiting, true, true, Away, mine)
  {
  }

  /** What the destroyer's next step does to the cache it is at. */
  function Handled(c: Cache, stage: Stage, mine: bool): Cache
  {
    match stage
    case Away => c.(holder := Destroyer)
    case Holding => c
    case Read(n) => c.(owed := c.owed - n)
    case Dumped => c.(counts := 0, cleaned := true)
    case Emptied => c.(pool := false, leftToDestroyer := c.exited || mine)
    case Nulled(_) => c.(holder := Nobody)
    case Released(exited) =>
      if mine then c.(key := false, frees := c.frees + 1) else if exited then c.(frees := c.frees + 1) else c
  }

  function StageAfter(c: Cache, stage: Stage): Stage
  {
    match stage
    case Away => Holding
    case Holding => if c.cleaned then Emptied else Read(c.counts)
    case Read(_) => Dumped
    case Dumped => Emptied
    case Emptied => Nulled(c.exited)
    case Nulled(exited) => Released(exited)
    case Released(_) => Away
  }

  /** Each of its steps keeps what is known of the cache; it comes off the waiting
      list when it is orphaned. */
  lemma DestroyerAtCache(c: Cache, p: Pc, waiting: bool, stage: Stage, mine: bool)
    requires CacheSound(c, p, waiting, true, true, stage, mine) && !Registering(p) && !UsesShards(p) && (mine ==> p.Idle?)
    requires (stage.Away? ==> c.holder.Nobody?) && (waiting || stage.Nulled? || stage.Released?)
    ensures CacheSound(Handled(c, stage, mine), p, waiting && !stage.Emptied?, true, true, StageAfter(c, stage), mine)
  {
  }

  lemma DestroyerElsewhere(s: Pool, t: nat)
    requires DestroyEnabled(s) && t < |s.caches| == |s.threads| && StageOf(s.phase, t).Away? && s.phase != Lock(t)
    requires s.destroyed <==> !s.phase.NotYet?
    ensures var s' := DestroyStep(s);
      && s'.caches[t] == s.caches[t] && s'.threads[t] == s.threads[t] && s'.destroyer == s.destroyer && s'.destroyed
      && StageOf(s'.phase, t).Away? && (PastUsers(s'.phase) <== PastUsers(s.phase))
  {
  }

  lemma DestroyerPassesBy(s: Pool, t: nat)
    requires Inv(s) && DestroyEnabled(s) && t < |s.caches| && StageOf(s.phase, t).Away? && s.phase != Lock(t)
    ensures |DestroyStep(s).caches| == |DestroyStep(s).threads| == |s.caches| && SoundAt(DestroyStep(s), t)
  {
    DestroyerWaiting(s);
    DestroyerKeepsShape(s);
    assert SoundAt(s, t);
    assert t in Waiting(DestroyStep(s)) <==> t in Waiting(s);
    hide Counted, Waiting, WaitingSound, CachesSound, CacheSound, DestroyStep;
    DestroyerElsewhere(s, t);
    ElsewhereKeeps(s.caches[t], s.threads[t], t in Waiting(s), s.destroyed, PastUsers(s.phase), t == s.destroyer);
  }

  /** The destroyer's step at a cache is the one above. */
  lemma DestroyerMoves(s: Pool)
    requires DestroyEnabled(s) && DestroyerSound(s) && AtSomeCache(s.phase) && s.phase.c < |s.caches|
    ensures var t, s' := s.phase.c, DestroyStep(s);
      && |s'.caches| == |s'.threads| == |s.caches| && s'.threads[t] == s.threads[t]
      && s'.caches[t] == Handled(s.caches[t], StageOf(s.phase, t), t == s.destroyer)
      && StageOf(s'.phase, t) == StageAfter(s.caches[t], StageOf(s.phase, t))
      && s.destroyed && s'.destroyed && s'.destroyer == s.destroyer && PastUsers(s.phase) && PastUsers(s'.phase)
      && (StageOf(s.phase, t).Away? ==> s.caches[t].holder.Nobody?)
  {
  }

  lemma WaitsAtCache(s: Pool)
    requires Inv(s) && DestroyEnabled(s) && AtSomeCache(s.phase) && s.phase.c < |s.caches|
    ensures s.phase.c in Waiting(s) || s.phase.Unlock? || s.phase.Dispose?
    ensures s.phase.c in Waiting(DestroyStep(s)) <==> s.phase.c in Waiting(s) && !s.phase.Orphan?
  {
    DestroyerWaiting(s);
    DestroyerWaitingKept(s);
  }

  lemma AtCacheKept(s: Pool)
    requires Inv(s) && DestroyEnabled(s) && AtSomeCache(s.phase) && s.phase.c < |s.caches|
    ensures |DestroyStep(s).caches| == |DestroyStep(s).threads| == |s.caches| && SoundAt(DestroyStep(s), s.phase.c)
  {
    var t := s.phase.c;
    DestroyerMoves(s);
    WaitsAtCache(s);
    assert SoundAt(s, t);
    hide Counted, Waiting, WaitingSound, CachesSound, CacheSound, DestroyStep, DestroyEnabled, Handled, StageAfter;
    DestroyerAtCache(s.caches[t], s.threads[t], t in Waiting(s), StageOf(s.phase, t), t == s.destroyer);
  }

  lemma DestroyerCacheKept(s: Pool, t: nat)
    requires Inv(s) && DestroyEnabled(s) && t < |s.caches|
    ensures |DestroyStep(s).caches| == |DestroyStep(s).threads| == |s.caches| && SoundAt(DestroyStep(s), t)
  {
    hide Inv, DestroyEnabled, DestroyStep, SoundAt;
    if StageOf(s.phase, t).Away? && s.phase != Lock(t) { DestroyerPassesBy(s, t); } else { AtCacheKept(s); }
  }

  lemma StepKeeps(s: Pool, step: Step)
    requires Inv(s) && Enabled(s, step)
    ensures Inv(Apply(s, step))
  {
    CountedKept(s, step);
    QuietKept(s, step);
    DestroyerKept(s, step);
    if step.Destroy? { DestroyerWaitingKept(s); } else { ThreadWaitingKept(s, step); }
    hide CacheSound, Waiting, WaitingSound, Quiet, Counted;
    forall t: nat | t < |s.caches|
      ensures var s' := Apply(s, step);
        SoundAt(s', t)
    {
      if step.Destroy? { DestroyerCacheKept(s, t); }
      else if t == step.t { OwnCacheKept(s, step); }
      else { OtherCacheKept(s, step, t); }
    }
  }

  // ---------------------------------------------------------------------- runs

  ghost predicate Runs(s: Pool, steps: seq<Step>)
    decreases |steps|
  {
    steps == [] || (Enabled(s, steps[0]) && Runs(Apply(s, steps[0]), steps[1..]))
  }

  ghost function After(s: Pool, steps: seq<Step>): Pool
    requires Runs(s, steps)
    decreases |steps|
  {
    if steps == [] then s else After(Apply(s, steps[0]), steps[1..])
  }

  lemma {:induction false} RunKeeps(s: Pool, steps: seq<Step>)
    requires Inv(s) && Runs(s, steps)
    ensures Inv(After(s, steps))
    decreases |steps|
  {
    hide Inv;
    if steps != [] {
      StepKeeps(s, steps[0]);
      RunKeeps(Apply(s, steps[0]), steps[1..]);
    }
  }

  lemma InitKeeps(threads: nat, destroyer: nat)
    requires destroyer < threads
    ensures Inv(Init(threads, destroyer))
  {
    NumberNone(Init(threads, destroyer).threads, true);
    NumberNone(Init(threads, destroyer).threads, false);
    var s := Init(threads, destroyer);
    forall t: nat | t < |s.caches|
      ensures SoundAt(s, t)
    {
      assert s.caches[t] == NoCache && s.threads[t] == Idle;
    }
  }

  lemma Reached(threads: nat, destroyer: nat, steps: seq<Step>)
    requires destroyer < threads && Runs(Init(threads, destroyer), steps)
    ensures Inv(After(Init(threads, destroyer), steps))
  {
    InitKeeps(threads, destroyer);
    RunKeeps(Init(threads, destroyer), steps);
  }

  lemma {:induction false} SameDestroyer(s: Pool, steps: seq<Step>)
    requires Runs(s, steps)
    ensures After(s, steps).destroyer == s.destroyer && |After(s, steps).threads| == |s.threads| && |After(s, steps).caches| == |s.caches|
    decreases |steps|
  {
    if steps != [] {
      SameDestroyer(Apply(s, steps[0]), steps[1..]);
    }
  }
}
