/** Pipelined file copy: parts of several files are read into a fixed set of
    buffer slots and written out from there, in any order; a file is trimmed and
    synchronised when its last part has been written. */
module CopyPipeline {

  type Bytes = seq<bv8>

  const SECTOR_SIZE: nat := 512

  datatype Slot =
    | Free
    | Reading(task: nat, offset: nat, len: nat)             // `len` bytes of file data are to come
    | Writing(task: nat, offset: nat, len: nat, buf: Bytes) // `len` of the buffer's bytes are file data
    | Fsyncing(task: nat)

  datatype Task = Task(
    size: nat,
    isOpen: bool,              // src_fd >= 0
    readOffset: nat,
    bytesWritten: nat,
    activeOps: int,
    readsDone: bool,
    done: bool,
    dest: Bytes,               // what the destination holds
    finished: nat,             // how often finish_task has been called
    stable: Bytes)             // what of it has reached stable storage

  function RoundUp(x: nat): (r: nat)
    ensures x <= r < x + SECTOR_SIZE && r % SECTOR_SIZE == 0
  {
    (x + SECTOR_SIZE - 1) / SECTOR_SIZE * SECTOR_SIZE
  }

  lemma RoundUpOfWhole(x: nat)
    requires x % SECTOR_SIZE == 0
    ensures RoundUp(x) == x
  {
  }

  function Zeros(n: nat): (z: Bytes)
    ensures |z| == n && forall i :: 0 <= i < n ==> z[i] == 0
  {
    seq(n, i => 0 as bv8)
  }

  /** A write at an offset: the destination grows as needed, gaps read as zero. */
  function Put(dest: Bytes, offset: nat, data: Bytes): (d: Bytes)
    ensures |d| == if |dest| > offset + |data| then |dest| else offset + |data|
    ensures forall p :: 0 <= p < |d| ==>
      d[p] == if offset <= p < offset + |data| then data[p - offset] else if p < |dest| then dest[p] else 0
  {
    var base := if |dest| < offset then dest + Zeros(offset - |dest|) else dest;
    base[..offset] + data + if offset + |data| <= |base| then base[offset + |data|..] else []
  }

  // ---------------------------------------------------------------------- tallies

  datatype What = Ops | Syncs | Data | Busy | Work

  /** What one slot counts for: an operation or a sync of the task, bytes of the
      task in flight, a slot in use, or steps to come. */
  function Weigh(s: Slot, t: nat, what: What): nat
  {
    match what
    case Ops => if (s.Reading? || s.Writing?) && s.task == t then 1 else 0
    case Syncs => if s.Fsyncing? && s.task == t then 1 else 0
    case Data => if (s.Reading? || s.Writing?) && s.task == t then s.len else 0
    case Busy => if s.Free? then 0 else 1
    case Work => if s.Reading? then 3 else if s.Writing? then 2 else if s.Fsyncing? then 1 else 0
  }

  ghost function Tally(slots: seq<Slot>, t: nat, what: What): nat
  {
    if slots == [] then 0 else Tally(slots[..|slots| - 1], t, what) + Weigh(slots[|slots| - 1], t, what)
  }

  lemma {:induction false} TallyUpdate(slots: seq<Slot>, i: nat, s: Slot, t: nat, what: What)
    requires i < |slots|
    ensures Tally(slots[i := s], t, what) == Tally(slots, t, what) + Weigh(s, t, what) - Weigh(slots[i], t, what)
    ensures Weigh(slots[i], t, what) <= Tally(slots, t, what)
  {
    var n := |slots| - 1;
    if i == n {
      assert slots[i := s][..n] == slots[..n];
    } else {
      assert slots[i := s][..n] == slots[..n][i := s];
      TallyUpdate(slots[..n], i, s, t, what);
    }
  }

  lemma {:induction false} TallyZero(slots: seq<Slot>, t: nat, what: What)
    ensures Tally(slots, t, what) == 0 <==> forall i {:trigger slots[i]} :: 0 <= i < |slots| ==> Weigh(slots[i], t, what) == 0
  {
    if slots != [] {
      var n := |slots| - 1;
      TallyZero(slots[..n], t, what);
      assert forall i {:trigger slots[i]} :: 0 <= i < n ==> slots[i] == slots[..n][i];
    }
  }

  lemma {:induction false} NoDataWithoutOps(slots: seq<Slot>, t: nat)
    requires Tally(slots, t, Ops) == 0
    ensures Tally(slots, t, Data) == 0
  {
    if slots != [] { NoDataWithoutOps(slots[..|slots| - 1], t); }
  }

  ghost function Unread(tasks: seq<Task>): nat
  {
    if tasks == [] then 0
    else
      var t := tasks[|tasks| - 1];
      Unread(tasks[..|tasks| - 1]) + if t.readOffset < t.size then t.size - t.readOffset else 0
  }

  lemma {:induction false} UnreadUpdate(tasks: seq<Task>, t: nat, task: Task)
    requires t < |tasks| && tasks[t].readOffset <= tasks[t].size && task.readOffset <= task.size
    ensures Unread(tasks[t := task]) == Unread(tasks) - (tasks[t].size - tasks[t].readOffset) + (task.size - task.readOffset)
  {
    var n := |tasks| - 1;
    if t == n {
      assert tasks[t := task][..n] == tasks[..n];
    } else {
      assert tasks[t := task][..n] == tasks[..n][t := task];
      UnreadUpdate(tasks[..n], t, task);
    }
  }

  /** Steps to come, at most: four for a byte not yet asked for. */
  ghost function Left(tasks: seq<Task>, slots: seq<Slot>): nat
  {
    4 * Unread(tasks) + Tally(slots, 0, Work)
  }

  // -------------------------------------------------------------------- invariant

  /** The byte is in a slot that is being read or written. */
  ghost predicate InFlight(slots: seq<Slot>, t: nat, p: nat)
  {
    exists i {:trigger slots[i]} :: 0 <= i < |slots| && (slots[i].Reading? || slots[i].Writing?) && slots[i].task == t
      && slots[i].offset <= p < slots[i].offset + slots[i].len
  }

  predicate Copied(dest: Bytes, file: Bytes, p: nat)
  {
    p < |dest| && p < |file| && dest[p] == file[p]
  }

  /** Every byte asked for is in flight, or in the destination. */
  ghost predicate Covered(slots: seq<Slot>, task: Task, file: Bytes, t: nat)
  {
    forall p: nat {:trigger Copied(task.dest, file, p)} :: p < task.readOffset ==> InFlight(slots, t, p) || Copied(task.dest, file, p)
  }

  /** A slot holds what its file holds there; padding only past the end of the
      file. */
  ghost predicate SlotSound(s: Slot, files: seq<Bytes>, direct: bool)
  {
    match s
    case Free => true
    case Reading(t, offset, len) =>
      && t < |files| && 0 < len && offset + len <= |files[t]|
      && (direct && offset + len < |files[t]| ==> RoundUp(len) == len)
    case Writing(t, offset, len, buf) =>
      && t < |files| && 0 < len <= |buf| && offset + len <= |files[t]|
      && buf[..len] == files[t][offset..offset + len]
      && (|buf| > len ==> direct && offset + len == |files[t]|)
    case Fsyncing(t) => t < |files|
  }

  ghost predicate TaskSound(task: Task, file: Bytes, openable: bool, direct: bool, ops: nat, syncs: nat, data: nat)
  {
    && task.size == |file| && task.readOffset <= task.size
    && task.activeOps == ops
    && task.bytesWritten + data == task.readOffset
    && (!direct ==> |task.dest| <= task.size)
    && (if task.finished == 0 then syncs == 0 && !(task.done && openable)
        else task.finished == 1 && task.readsDone && ops == 0 && task.dest == file && syncs == (if task.done then 0 else 1))
    && (task.done ==> task.readsDone)
    && (task.readsDone && openable ==> task.readOffset == task.size && (task.finished == 0 ==> 0 < ops))
    && (!task.readsDone && task.isOpen ==> task.readOffset < task.size)
    && (!task.readsDone && !task.isOpen ==> task.readOffset == 0 && ops == 0)
    && (!openable ==> !task.isOpen && task.readOffset == 0 && ops == 0 && task.finished == 0 && task.readsDone == task.done)
  }

  ghost predicate TaskAt(files: seq<Bytes>, openable: seq<bool>, direct: bool, slots: seq<Slot>, tasks: seq<Task>, t: nat)
    requires t < |tasks| == |files| == |openable|
  {
    && TaskSound(tasks[t], files[t], openable[t], direct, Tally(slots, t, Ops), Tally(slots, t, Syncs), Tally(slots, t, Data))
    && Covered(slots, tasks[t], files[t], t)
  }

  ghost predicate SlotsSound(files: seq<Bytes>, direct: bool, slots: seq<Slot>)
  {
    forall i {:trigger slots[i]} :: 0 <= i < |slots| ==> SlotSound(slots[i], files, direct)
  }

  ghost predicate Sound(files: seq<Bytes>, openable: seq<bool>, direct: bool, slots: seq<Slot>, tasks: seq<Task>)
  {
    && |tasks| == |files| == |openable|
    && SlotsSound(files, direct, slots)
    && forall t: nat {:trigger tasks[t]} :: t < |tasks| ==> TaskAt(files, openable, direct, slots, tasks, t)
  }

  // -------------------------------------------------------------- one slot changes

  /** A change of one slot that was free or another task's is not seen by a task. */
  lemma OtherTask(files: seq<Bytes>, openable: seq<bool>, direct: bool, slots: seq<Slot>, tasks: seq<Task>, t: nat, i: nat, s: Slot)
    requires t < |tasks| == |files| == |openable| && i < |slots| && TaskAt(files, openable, direct, slots, tasks, t)
    requires slots[i].Free? || slots[i].task != t
    requires s.Free? || s.task != t
    ensures TaskAt(files, openable, direct, slots[i := s], tasks, t)
  {
    TallyUpdate(slots, i, s, t, Ops);
    TallyUpdate(slots, i, s, t, Syncs);
    TallyUpdate(slots, i, s, t, Data);
    forall p: nat | InFlight(slots, t, p)
      ensures InFlight(slots[i := s], t, p)
    {
      var j :| 0 <= j < |slots| && (slots[j].Reading? || slots[j].Writing?) && slots[j].task == t
        && slots[j].offset <= p < slots[j].offset + slots[j].len;
      assert slots[i := s][j] == slots[j];
    }
  }

  /** What the others see of a change to one slot and one task. */
  lemma OthersStay(files: seq<Bytes>, openable: seq<bool>, direct: bool, slots: seq<Slot>, tasks: seq<Task>, t: nat, task': Task, i: nat, s: Slot)
    requires Sound(files, openable, direct, slots, tasks) && t < |tasks| && i < |slots|
    requires slots[i].Free? || slots[i].task == t
    requires s.Free? || s.task == t
    requires SlotSound(s, files, direct)
    requires TaskAt(files, openable, direct, slots[i := s], tasks[t := task'], t)
    ensures Sound(files, openable, direct, slots[i := s], tasks[t := task'])
  {
    var slots', tasks' := slots[i := s], tasks[t := task'];
    forall u: nat | u < |tasks|
      ensures TaskAt(files, openable, direct, slots', tasks', u)
    {
      if u != t {
        assert TaskAt(files, openable, direct, slots, tasks, u);
        OtherTask(files, openable, direct, slots, tasks, u, i, s);
      }
    }
  }

  lemma Tallied(slots: seq<Slot>, i: nat, s: Slot, t: nat)
    requires i < |slots|
    ensures forall what: What {:trigger Tally(slots[i := s], t, what)} ::
      Tally(slots[i := s], t, what) == Tally(slots, t, what) + Weigh(s, t, what) - Weigh(slots[i], t, what)
    ensures forall what: What {:trigger Tally(slots, t, what)} :: Weigh(slots[i], t, what) <= Tally(slots, t, what)
  {
    forall what: What
      ensures Tally(slots[i := s], t, what) == Tally(slots, t, what) + Weigh(s, t, what) - Weigh(slots[i], t, what)
      ensures Weigh(slots[i], t, what) <= Tally(slots, t, what)
    {
      TallyUpdate(slots, i, s, t, what);
    }
  }

  /** In flight before, in flight after, unless it was in the slot that changed. */
  lemma FlightAfter(slots: seq<Slot>, i: nat, s: Slot, t: nat, p: nat)
    requires i < |slots|
    ensures InFlight(slots, t, p) ==> InFlight(slots[i := s], t, p) || InFlight([slots[i]], t, p)
    ensures InFlight([s], t, p) ==> InFlight(slots[i := s], t, p)
  {
    if InFlight(slots, t, p) {
      var j :| 0 <= j < |slots| && (slots[j].Reading? || slots[j].Writing?) && slots[j].task == t
        && slots[j].offset <= p < slots[j].offset + slots[j].len;
      if j == i { assert [slots[i]][0] == slots[j]; } else { assert slots[i := s][j] == slots[j]; }
    }
    assert slots[i := s][i] == s && [s][0] == s;
  }

  lemma SubmitKeeps(files: seq<Bytes>, openable: seq<bool>, direct: bool, slots: seq<Slot>, tasks: seq<Task>, t: nat, i: nat, chunk: nat, dest: Bytes)
    requires Sound(files, openable, direct, slots, tasks)
    requires t < |tasks| && i < |slots| && slots[i].Free? && openable[t] && !tasks[t].readsDone
    requires 0 < chunk && tasks[t].readOffset + chunk <= tasks[t].size
    requires direct && tasks[t].readOffset + chunk < tasks[t].size ==> RoundUp(chunk) == chunk
    requires if tasks[t].isOpen then dest == tasks[t].dest else |dest| <= tasks[t].size
    ensures var task := tasks[t];
      var to := task.readOffset + chunk;
      var task' := task.(isOpen := true, dest := dest, readOffset := to, readsDone := to >= task.size, activeOps := task.activeOps + 1);
      Sound(files, openable, direct, slots[i := Reading(t, task.readOffset, chunk)], tasks[t := task'])
  {
    var task := tasks[t];
    var s := Reading(t, task.readOffset, chunk);
    assert TaskAt(files, openable, direct, slots, tasks, t);
    Tallied(slots, i, s, t);
    var to := task.readOffset + chunk;
    var task' := task.(isOpen := true, dest := dest, readOffset := to, readsDone := to >= task.size, activeOps := task.activeOps + 1);
    forall p: nat | p < to
      ensures InFlight(slots[i := s], t, p) || Copied(dest, files[t], p)
    {
      FlightAfter(slots, i, s, t, p);
      assert [s][0] == s;
      assert p < task.readOffset && !InFlight(slots, t, p) ==> Copied(task.dest, files[t], p);
    }
    OthersStay(files, openable, direct, slots, tasks, t, task', i, s);
  }

  /** The data has come: padded with zeros to a whole sector under O_DIRECT. */
  lemma ReadKeeps(files: seq<Bytes>, openable: seq<bool>, direct: bool, slots: seq<Slot>, tasks: seq<Task>, i: nat)
    requires Sound(files, openable, direct, slots, tasks) && i < |slots| && slots[i].Reading?
    ensures slots[i].task < |files| && slots[i].offset + slots[i].len <= |files[slots[i].task]|
    ensures var s := slots[i];
      var data := files[s.task][s.offset..s.offset + s.len];
      var buf := if direct then data + Zeros(RoundUp(s.len) - s.len) else data;
      Sound(files, openable, direct, slots[i := Writing(s.task, s.offset, s.len, buf)], tasks)
  {
    var s := slots[i];
    assert SlotSound(s, files, direct);
    var t := s.task;
    var data := files[t][s.offset..s.offset + s.len];
    var buf := if direct then data + Zeros(RoundUp(s.len) - s.len) else data;
    var s' := Writing(t, s.offset, s.len, buf);
    assert TaskAt(files, openable, direct, slots, tasks, t);
    Tallied(slots, i, s', t);
    forall p: nat | InFlight(slots, t, p)
      ensures InFlight(slots[i := s'], t, p)
    {
      FlightAfter(slots, i, s', t, p);
      assert InFlight([s], t, p) ==> InFlight([s'], t, p) by { assert [s][0] == s && [s'][0] == s'; }
    }
    assert tasks[t := tasks[t]] == tasks;
    OthersStay(files, openable, direct, slots, tasks, t, tasks[t], i, s');
  }

  function Truncate(dest: Bytes, n: nat): (d: Bytes)
    ensures |d| == n && forall p :: 0 <= p < n ==> d[p] == if p < |dest| then dest[p] else 0
  {
    if |dest| >= n then dest[..n] else dest + Zeros(n - |dest|)
  }

  /** What a write leaves of the record of its task. */
  function Written(task: Task, s: Slot): Task
    requires s.Writing?
  {
    task.(dest := Put(task.dest, s.offset, s.buf), bytesWritten := task.bytesWritten + s.len, activeOps := task.activeOps - 1)
  }

  lemma PutCovers(files: seq<Bytes>, openable: seq<bool>, direct: bool, slots: seq<Slot>, tasks: seq<Task>, i: nat, s': Slot)
    requires Sound(files, openable, direct, slots, tasks) && i < |slots| && slots[i].Writing?
    ensures slots[i].task < |tasks| && SlotSound(slots[i], files, direct)
    ensures var t := slots[i].task; var dest' := Put(tasks[t].dest, slots[i].offset, slots[i].buf);
      && (!direct ==> |dest'| <= |files[t]|)
      && forall p: nat {:trigger Copied(dest', files[t], p)} :: p < tasks[t].readOffset ==>
           InFlight(slots[i := s'], t, p) || Copied(dest', files[t], p)
  {
    var s := slots[i];
    assert SlotSound(s, files, direct);
    var t := s.task;
    assert TaskAt(files, openable, direct, slots, tasks, t);
    var dest' := Put(tasks[t].dest, s.offset, s.buf);
    forall p: nat | p < tasks[t].readOffset
      ensures InFlight(slots[i := s'], t, p) || Copied(dest', files[t], p)
    {
      FlightAfter(slots, i, s', t, p);
      if s.offset <= p < s.offset + s.len {
        assert s.buf[..s.len][p - s.offset] == files[t][s.offset..s.offset + s.len][p - s.offset];
      } else {
        assert !InFlight([s], t, p);
        assert InFlight(slots, t, p) || Copied(tasks[t].dest, files[t], p);
      }
    }
  }

  /** A part has been written and others of its file are to come. */
  lemma WriteKeeps(files: seq<Bytes>, openable: seq<bool>, direct: bool, slots: seq<Slot>, tasks: seq<Task>, i: nat)
    requires Sound(files, openable, direct, slots, tasks) && i < |slots| && slots[i].Writing?
    ensures slots[i].task < |tasks|
    ensures var task' := Written(tasks[slots[i].task], slots[i]);
      !(task'.readsDone && task'.activeOps == 0 && !task'.done) ==>
        Sound(files, openable, direct, slots[i := Free], tasks[slots[i].task := task'])
  {
    PutCovers(files, openable, direct, slots, tasks, i, Free);
    var t := slots[i].task;
    var task' := Written(tasks[t], slots[i]);
    assert TaskAt(files, openable, direct, slots, tasks, t);
    Tallied(slots, i, Free, t);
    if !(task'.readsDone && task'.activeOps == 0 && !task'.done) {
      OthersStay(files, openable, direct, slots, tasks, t, task', i, Free);
    }
  }

  lemma AllCopied(dest: Bytes, file: Bytes, direct: bool)
    requires forall p: nat {:trigger Copied(dest, file, p)} :: p < |file| ==> Copied(dest, file, p)
    requires !direct ==> |dest| <= |file|
    ensures (if direct then Truncate(dest, |file|) else dest) == file
  {
    if file != [] { assert Copied(dest, file, |file| - 1); }
    var d := if direct then Truncate(dest, |file|) else dest;
    assert |d| == |file|;
    forall p | 0 <= p < |file|
      ensures d[p] == file[p]
    {
      assert Copied(dest, file, p);
    }
  }

  /** What `finish_task` makes of the record: trimmed under O_DIRECT, and done
      unless a sync is still to come; if none could be submitted it syncs itself. */
  function Finished(task: Task, direct: bool, noFsync: bool, syncing: bool): Task
  {
    var task := task.(dest := if direct then Truncate(task.dest, task.size) else task.dest, finished := task.finished + 1);
    if syncing then task
    else task.(isOpen := false, done := true, stable := if noFsync then task.stable else task.dest)
  }

  /** With syncing on, a file that is done has reached stable storage as it is. */
  predicate SyncedTask(task: Task, openable: bool, noFsync: bool)
  {
    task.done && openable && !noFsync ==> task.stable == task.dest
  }

  ghost predicate Synced(tasks: seq<Task>, openable: seq<bool>, noFsync: bool)
  {
    forall t {:trigger tasks[t]} :: 0 <= t < |tasks| && t < |openable| ==> SyncedTask(tasks[t], openable[t], noFsync)
  }

  lemma SyncedUpdate(tasks: seq<Task>, openable: seq<bool>, noFsync: bool, t: nat, task: Task)
    requires Synced(tasks, openable, noFsync) && t < |tasks| == |openable|
    requires !task.done || !openable[t] || task.stable == task.dest || noFsync
    ensures Synced(tasks[t := task], openable, noFsync)
  {
  }

  /** The record is not marked done before it is synced. */
  lemma FinishSyncs(task: Task, direct: bool, noFsync: bool, syncing: bool)
    requires !task.done
    ensures var r := Finished(task, direct, noFsync, syncing);
      !r.done || r.stable == r.dest || noFsync
  {
  }

  /** The last part of a file has been written: the destination is the source,
      and this happens once. */
  lemma LastWriteKeeps(files: seq<Bytes>, openable: seq<bool>, direct: bool, slots: seq<Slot>, tasks: seq<Task>, i: nat, noFsync: bool, syncing: bool)
    requires Sound(files, openable, direct, slots, tasks) && i < |slots| && slots[i].Writing?
    requires slots[i].task < |tasks|
    requires var task' := Written(tasks[slots[i].task], slots[i]);
      task'.readsDone && task'.activeOps == 0 && !task'.done
    ensures var t := slots[i].task;
      var task' := Finished(Written(tasks[t], slots[i]), direct, noFsync, syncing);
      && task'.dest == files[t] && task'.finished == 1
      && Sound(files, openable, direct, slots[i := if syncing then Fsyncing(t) else Free], tasks[t := task'])
  {
    var t := slots[i].task;
    var s' := if syncing then Fsyncing(t) else Free;
    PutCovers(files, openable, direct, slots, tasks, i, s');
    var task1 := Written(tasks[t], slots[i]);
    assert TaskAt(files, openable, direct, slots, tasks, t);
    Tallied(slots, i, s', t);
    NoFlight(slots[i := s'], t);
    NoDataWithoutOps(slots[i := s'], t);
    AllCopied(task1.dest, files[t], direct);
    var task' := Finished(task1, direct, noFsync, syncing);
    assert forall p: nat :: p < |files[t]| ==> Copied(files[t], files[t], p);
    OthersStay(files, openable, direct, slots, tasks, t, task', i, s');
  }

  lemma NoFlight(slots: seq<Slot>, t: nat)
    requires Tally(slots, t, Ops) == 0
    ensures forall p: nat :: !InFlight(slots, t, p)
  {
    TallyZero(slots, t, Ops);
  }

  lemma SyncKeeps(files: seq<Bytes>, openable: seq<bool>, direct: bool, slots: seq<Slot>, tasks: seq<Task>, i: nat)
    requires Sound(files, openable, direct, slots, tasks) && i < |slots| && slots[i].Fsyncing?
    ensures var t := slots[i].task;
      && t < |tasks| && !tasks[t].done && tasks[t].dest == files[t]
      && Sound(files, openable, direct, slots[i := Free], tasks[t := tasks[t].(isOpen := false, done := true, stable := tasks[t].dest)])
  {
    assert SlotSound(slots[i], files, direct);
    var t := slots[i].task;
    assert TaskAt(files, openable, direct, slots, tasks, t);
    Tallied(slots, i, Free, t);
    var task' := tasks[t].(isOpen := false, done := true, stable := tasks[t].dest);
    forall p: nat | p < task'.readOffset
      ensures InFlight(slots[i := Free], t, p) || Copied(task'.dest, files[t], p)
    {
      FlightAfter(slots, i, Free, t, p);
      assert !InFlight([slots[i]], t, p);
    }
    OthersStay(files, openable, direct, slots, tasks, t, task', i, Free);
  }

  /** A file that cannot be opened is passed over; an empty one is finished at once. */
  lemma PassKeeps(files: seq<Bytes>, openable: seq<bool>, direct: bool, slots: seq<Slot>, tasks: seq<Task>, t: nat, noFsync: bool)
    requires Sound(files, openable, direct, slots, tasks) && t < |tasks| && !tasks[t].readsDone && !tasks[t].isOpen
    ensures !openable[t] ==>
      Sound(files, openable, direct, slots, tasks[t := tasks[t].(readsDone := true, done := true)])
    ensures openable[t] && tasks[t].size == 0 ==>
      Sound(files, openable, direct, slots, tasks[t := Finished(tasks[t].(isOpen := true, readsDone := true, dest := []), direct, noFsync, false)])
  {
    assert TaskAt(files, openable, direct, slots, tasks, t);
    if !openable[t] {
      Replaced(files, openable, direct, slots, tasks, t, tasks[t].(readsDone := true, done := true));
    } else if tasks[t].size == 0 {
      assert files[t] == [];
      Replaced(files, openable, direct, slots, tasks, t, Finished(tasks[t].(isOpen := true, readsDone := true, dest := []), direct, noFsync, false));
    }
  }

  lemma Replaced(files: seq<Bytes>, openable: seq<bool>, direct: bool, slots: seq<Slot>, tasks: seq<Task>, t: nat, task': Task)
    requires Sound(files, openable, direct, slots, tasks) && t < |tasks| && TaskAt(files, openable, direct, slots, tasks[t := task'], t)
    ensures Sound(files, openable, direct, slots, tasks[t := task'])
  {
    var tasks' := tasks[t := task'];
    forall u: nat | u < |tasks|
      ensures TaskAt(files, openable, direct, slots, tasks', u)
    {
      assert TaskAt(files, openable, direct, slots, tasks, u);
    }
  }

  lemma TaskFacts(files: seq<Bytes>, openable: seq<bool>, direct: bool, slots: seq<Slot>, tasks: seq<Task>)
    requires Sound(files, openable, direct, slots, tasks)
    ensures |tasks| == |files| == |openable|
    ensures forall t {:trigger tasks[t]} :: 0 <= t < |tasks| ==>
      && tasks[t].readOffset <= tasks[t].size == |files[t]|
      && (!tasks[t].readsDone && tasks[t].isOpen ==> openable[t] && tasks[t].readOffset < tasks[t].size)
      && (!tasks[t].readsDone && !tasks[t].isOpen ==> tasks[t].readOffset == 0)
      && (tasks[t].done ==> tasks[t].readsDone)
      && (tasks[t].done && openable[t] ==> tasks[t].dest == files[t] && tasks[t].finished == 1 && tasks[t].bytesWritten == |files[t]|)
      && (tasks[t].done && !openable[t] ==> tasks[t].finished == 0)
  {
    forall t: nat | t < |tasks|
      ensures TaskAt(files, openable, direct, slots, tasks, t)
      ensures Tally(slots, t, Ops) == 0 ==> Tally(slots, t, Data) == 0
    {
      if Tally(slots, t, Ops) == 0 { NoDataWithoutOps(slots, t); }
    }
  }

  // ---------------------------------------------------------------------- no stall

  ghost predicate AllRead(tasks: seq<Task>)
  {
    forall t {:trigger tasks[t]} :: 0 <= t < |tasks| ==> tasks[t].readsDone
  }

  ghost predicate Filled(slots: seq<Slot>, tasks: seq<Task>, n: nat)
  {
    forall i {:trigger slots[i]} :: 0 <= i < n && i < |slots| && slots[i].Free? ==> AllRead(tasks)
  }

  ghost predicate AnyBusy(slots: seq<Slot>)
  {
    exists i {:trigger slots[i]} :: 0 <= i < |slots| && !slots[i].Free?
  }

  /** While a file is not done, something is in flight. */
  lemma NeverStalls(files: seq<Bytes>, openable: seq<bool>, direct: bool, slots: seq<Slot>, tasks: seq<Task>, t: nat)
    requires Sound(files, openable, direct, slots, tasks)
    requires 0 < |slots| && Filled(slots, tasks, |slots|) && t < |tasks| && !tasks[t].done
    ensures AnyBusy(slots)
  {
    assert TaskAt(files, openable, direct, slots, tasks, t);
    if slots[0].Free? {
      assert tasks[t].readsDone;
      TallyZero(slots, t, Ops);
      TallyZero(slots, t, Syncs);
    }
  }

  /** With every file done, no slot is in use. */
  lemma DoneIsIdle(files: seq<Bytes>, openable: seq<bool>, direct: bool, slots: seq<Slot>, tasks: seq<Task>)
    requires Sound(files, openable, direct, slots, tasks) && forall t :: 0 <= t < |tasks| ==> tasks[t].done
    ensures Tally(slots, 0, Busy) == 0
  {
    forall i {:trigger slots[i]} | 0 <= i < |slots|
      ensures slots[i].Free?
    {
      if !slots[i].Free? { UsedIsUnfinished(files, openable, direct, slots, tasks, i); }
    }
    TallyZero(slots, 0, Busy);
  }

  lemma UsedIsUnfinished(files: seq<Bytes>, openable: seq<bool>, direct: bool, slots: seq<Slot>, tasks: seq<Task>, i: nat)
    requires Sound(files, openable, direct, slots, tasks) && i < |slots| && !slots[i].Free?
    ensures slots[i].task < |tasks| && !tasks[slots[i].task].done
  {
    assert SlotSound(slots[i], files, direct);
    var t := slots[i].task;
    assert TaskAt(files, openable, direct, slots, tasks, t);
    TallyZero(slots, t, Ops);
    TallyZero(slots, t, Syncs);
  }

  function NewTask(size: nat): Task
  {
    Task(size, false, 0, 0, 0, false, false, [], 0, [])
  }

  lemma StartIsSound(files: seq<Bytes>, openable: seq<bool>, direct: bool, slots: seq<Slot>, tasks: seq<Task>)
    requires |tasks| == |files| == |openable|
    requires forall i :: 0 <= i < |slots| ==> slots[i].Free?
    requires forall t :: 0 <= t < |tasks| ==> tasks[t] == NewTask(|files[t]|)
    ensures Sound(files, openable, direct, slots, tasks) && Tally(slots, 0, Busy) == 0
  {
    TallyZero(slots, 0, Busy);
    forall t: nat | t < |tasks|
      ensures TaskAt(files, openable, direct, slots, tasks, t)
    {
      TallyZero(slots, t, Ops);
      TallyZero(slots, t, Syncs);
      TallyZero(slots, t, Data);
    }
  }

  // ------------------------------------------------------------------ the pipeline

  class Pipeline {
    const files: seq<Bytes>          // what the sources hold
    const openable: seq<bool>        // whether both files can be opened
    const direct: bool
    const noFsync: bool
    const chunkSize: nat
    const slots: array<Slot>
    const tasks: array<Task>
    var current: nat
    var activeOps: int

    /** `active_ops` is the number of slots in use. */
    ghost predicate Valid()
      reads this, slots, tasks
    {
      && Sound(files, openable, direct, slots[..], tasks[..])
      && activeOps == Tally(slots[..], 0, Busy)
      && Configured() && current <= tasks.Length && Synced(tasks[..], openable, noFsync)
      && forall t {:trigger tasks[t]} :: 0 <= t < current ==> tasks[t].readsDone
    }

    /** Under O_DIRECT chunks are whole sectors; with syncing no file is empty. */
    ghost predicate Configured()
    {
      && 0 < chunkSize && (direct ==> chunkSize % SECTOR_SIZE == 0)
      && (noFsync || forall t :: 0 <= t < |files| ==> files[t] != [])
    }

    constructor (files: seq<Bytes>, openable: seq<bool>, direct: bool, noFsync: bool, chunkSize: nat, depth: nat)
      requires |openable| == |files| && 0 < chunkSize && (direct ==> chunkSize % SECTOR_SIZE == 0)
      requires noFsync || forall t :: 0 <= t < |files| ==> files[t] != []
      ensures Valid() && this.files == files && this.openable == openable && slots.Length == depth && tasks.Length == |files|
    {
      this.files, this.openable, this.direct, this.noFsync, this.chunkSize := files, openable, direct, noFsync, chunkSize;
      slots := new Slot[depth](_ => Free);
      tasks := new Task[|files|](t requires 0 <= t < |files| => NewTask(|files[t]|));
      current, activeOps := 0, 0;
      new;
      StartIsSound(files, openable, direct, slots[..], tasks[..]);
    }

    lemma Parts()
      requires Valid()
      ensures Sound(files, openable, direct, slots[..], tasks[..]) && activeOps == Tally(slots[..], 0, Busy)
      ensures Configured() && current <= tasks.Length && Synced(tasks[..], openable, noFsync)
      ensures 0 < chunkSize && (direct ==> chunkSize % SECTOR_SIZE == 0)
      ensures noFsync || forall t :: 0 <= t < |files| ==> files[t] != []
      ensures forall t {:trigger tasks[t]} :: 0 <= t < current ==> tasks[t].readsDone
    {
    }

    lemma Whole()
      requires Sound(files, openable, direct, slots[..], tasks[..]) && activeOps == Tally(slots[..], 0, Busy)
      requires Configured() && current <= tasks.Length && Synced(tasks[..], openable, noFsync)
      requires forall t {:trigger tasks[t]} :: 0 <= t < current ==> tasks[t].readsDone
      ensures Valid()
    {
    }

    /** Asks for the next part of the first file that has any left, into a free slot. */
    method SubmitNextRead(i: nat)
      requires Valid() && i < slots.Length && slots[i].Free?
      modifies this`current, this`activeOps, slots, tasks
      ensures Valid()
      ensures slots[..] == old(slots[..])[i := slots[i]]
      ensures slots[i].Free? ==> AllRead(tasks[..])
      ensures AllRead(old(tasks[..])) ==> AllRead(tasks[..])
      ensures Left(tasks[..], slots[..]) <= Left(old(tasks[..]), old(slots[..]))
      ensures slots[i].Free? || FirstAsked(old(tasks[..]), tasks[..], slots[i], chunkSize)
      decreases tasks.Length - current
    {
      hide *;
      Parts();
      TaskFacts(files, openable, direct, slots[..], tasks[..]);
      var t := current;
      while t < tasks.Length && (tasks[t].readsDone || tasks[t].done)
        invariant current <= t <= tasks.Length && forall u {:trigger tasks[u]} :: 0 <= u < t ==> tasks[u].readsDone
      {
        assert tasks[..][t] == tasks[t];
        t := t + 1;
      }
      if t == tasks.Length {
        ReadAll(tasks[..]);
        return;
      }
      assert tasks[..][t] == tasks[t];
      if !tasks[t].isOpen && (!openable[t] || tasks[t].size == 0) {
        LeftIs(tasks[..], slots[..]);
        ghost var a := tasks[..];
        Pass(t);
        LeftIs(tasks[..], slots[..]);
        ghost var a1 := tasks[..];
        SubmitNextRead(i);
        PassThenAsk(a, a1, tasks[..], t, slots[i], chunkSize);
        return;
      }
      NotAllRead(tasks[..], t);
      ghost var a := tasks[..];
      Ask(i, t);
      AskedReads(a, tasks[..], slots[i], chunkSize);
    }

    /** Opens the file, if this is its first part, and asks for the next one. */
    method Ask(i: nat, t: nat)
      requires Valid() && i < slots.Length && slots[i].Free?
      requires current <= t < tasks.Length && t < |openable| && !tasks[t].readsDone && openable[t] && 0 < tasks[t].size
      requires forall u {:trigger tasks[u]} :: 0 <= u < t ==> tasks[u].readsDone
      modifies this`current, this`activeOps, slots, tasks
      ensures Valid() && slots[..] == old(slots[..])[i := slots[i]]
      ensures FirstAsked(old(tasks[..]), tasks[..], slots[i], chunkSize)
      ensures Left(tasks[..], slots[..]) < Left(old(tasks[..]), old(slots[..]))
    {
      hide *;
      Parts();
      TaskFacts(files, openable, direct, slots[..], tasks[..]);
      assert tasks[..][t] == tasks[t];
      var task := tasks[t];
      if !task.isOpen {
        // space for the file is allocated ahead, if the file system can
        var preallocated: bool := *;
        task := task.(isOpen := true, dest := if preallocated then Zeros(task.size) else []);
      }
      var chunk := chunkSize;
      if task.readOffset + chunk > task.size {
        chunk := task.size - task.readOffset;
      }
      ghost var a, s := tasks[..], slots[..];
      slots[i] := Reading(t, task.readOffset, chunk);
      task := task.(readOffset := task.readOffset + chunk);
      if task.readOffset >= task.size {
        task := task.(readsDone := true);
        current := t + 1;
      }
      activeOps := activeOps + 1;
      task := task.(activeOps := task.activeOps + 1);
      ChunkIsWhole(chunkSize, direct);
      Asked(files, openable, direct, noFsync, s, a, t, i, chunk, chunkSize, task);
      tasks[t] := task;
      Whole();
    }

    /** Passes over a file that cannot be opened, or finishes an empty one. */
    method Pass(t: nat)
      requires Valid() && current <= t < tasks.Length && !tasks[t].readsDone && !tasks[t].isOpen
      requires t < |openable| && (!openable[t] || tasks[t].size == 0)
      requires forall u {:trigger tasks[u]} :: 0 <= u < t ==> tasks[u].readsDone
      modifies this`current, tasks
      ensures Valid() && current == t + 1
      ensures AllRead(old(tasks[..])) ==> AllRead(tasks[..])
      ensures Unread(tasks[..]) == Unread(old(tasks[..]))
      ensures tasks[..] == old(tasks[..])[t := tasks[t]] && tasks[t].readsDone
    {
      hide *;
      Parts();
      PassKeeps(files, openable, direct, slots[..], tasks[..], t, noFsync);
      TaskFacts(files, openable, direct, slots[..], tasks[..]);
      assert tasks[..][t] == tasks[t];
      var task := tasks[t].(readsDone := true);
      if openable[t] {
        task := FinishTask(task.(isOpen := true, dest := []), false);
        FinishedRecord(tasks[t].(isOpen := true, readsDone := true, dest := []), direct, noFsync, false);
        FinishSyncs(tasks[t].(isOpen := true, readsDone := true, dest := []), direct, noFsync, false);
        assert task.readsDone;
      } else {
        task := task.(done := true);
      }
      UnreadUpdate(tasks[..], t, task);
      ReadStays(tasks[..], t, task);
      SyncedUpdate(tasks[..], openable, noFsync, t, task);
      tasks[t] := task;
      current := t + 1;
      Whole();
    }

    /** `finish_task`, on the record; `syncing`: a sync has been submitted. */
    method FinishTask(task: Task, syncing: bool) returns (r: Task)
      ensures r == Finished(task, direct, noFsync, syncing)
    {
      r := task.(finished := task.finished + 1);
      if direct {
        r := r.(dest := Truncate(r.dest, r.size));
      }
      if !syncing {
        if !noFsync {
          r := r.(stable := r.dest);
        }
        r := r.(isOpen := false, done := true);
      }
    }

    /** `on_read_complete` for a read that brought all that was asked for. */
    method OnReadComplete(i: nat)
      requires Valid() && i < slots.Length && slots[i].Reading?
      modifies slots
      ensures Valid()
      ensures slots[..] == old(slots[..])[i := slots[i]] && Brought(old(slots[i]), slots[i], files, direct)
      ensures Left(tasks[..], slots[..]) < Left(old(tasks[..]), old(slots[..]))
    {
      hide *;
      Parts();
      assert slots[..][i] == slots[i];
      ReadKeeps(files, openable, direct, slots[..], tasks[..], i);
      var s := slots[i];
      var buf := files[s.task][s.offset..s.offset + s.len];
      if direct {
        RoundsUp(s.len);
        buf := buf + Zeros(RoundUp(s.len) - s.len);
      }
      SlotChange(slots[..], i, Writing(s.task, s.offset, s.len, buf));
      BroughtIs(s, buf, files, direct);
      LeftIs(tasks[..], slots[..]);
      slots[i] := Writing(s.task, s.offset, s.len, buf);
      LeftIs(tasks[..], slots[..]);
      Whole();
    }

    /** `on_write_complete` for a write that took all. A destination that is
        finished here equals its source. */
    method OnWriteComplete(i: nat)
      requires Valid() && i < slots.Length && slots[i].Writing?
      modifies this`activeOps, slots, tasks
      ensures Valid()
      ensures old(slots[i]).task < tasks.Length
      ensures var t := old(slots[i]).task;
        && slots[..] == old(slots[..])[i := slots[i]] && tasks[..] == old(tasks[..])[t := tasks[t]]
        && TookIn(old(tasks[..])[t], old(slots[i]), tasks[t], slots[i], direct, noFsync)
        && (tasks[t].finished > old(tasks[..])[t].finished ==> tasks[t].dest == files[t] && tasks[t].finished == 1)
      ensures Left(tasks[..], slots[..]) < Left(old(tasks[..]), old(slots[..]))
    {
      hide *;
      Parts();
      TaskFacts(files, openable, direct, slots[..], tasks[..]);
      assert slots[..][i] == slots[i];
      UsedIsUnfinished(files, openable, direct, slots[..], tasks[..], i);
      var s := slots[i];
      var t := s.task;
      assert tasks[..][t] == tasks[t];
      var task := tasks[t].(dest := Put(tasks[t].dest, s.offset, s.buf), bytesWritten := tasks[t].bytesWritten + s.len);
      task := task.(activeOps := task.activeOps - 1);
      WrittenRecord(tasks[t], s);
      var s' := Free;
      activeOps := activeOps - 1;
      if task.readsDone && task.activeOps == 0 && !task.done {
        var submitted: bool := *;
        var syncing := !noFsync && submitted;
        if syncing {
          s' := Fsyncing(t);
          activeOps := activeOps + 1;
        }
        task := FinishTask(task, syncing);
      }
      TookInIs(tasks[t], s, task, s', direct, noFsync);
      WriteDone(files, openable, direct, noFsync, slots[..], tasks[..], i, task, s');
      slots[i] := s';
      tasks[t] := task;
      Whole();
    }

    method OnFsyncComplete(i: nat)
      requires Valid() && i < slots.Length && slots[i].Fsyncing?
      modifies this`activeOps, slots, tasks
      ensures Valid()
      ensures old(slots[i]).task < tasks.Length && slots[..] == old(slots[..])[i := Free]
      ensures var t := old(slots[i]).task;
        && tasks[..] == old(tasks[..])[t := old(tasks[..])[t].(isOpen := false, done := true, stable := files[t])] && tasks[t].dest == files[t]
      ensures Left(tasks[..], slots[..]) < Left(old(tasks[..]), old(slots[..]))
    {
      hide *;
      Parts();
      TaskFacts(files, openable, direct, slots[..], tasks[..]);
      assert slots[..][i] == slots[i];
      SyncKeeps(files, openable, direct, slots[..], tasks[..], i);
      var t := slots[i].task;
      assert tasks[..][t] == tasks[t];
      var task := tasks[t].(isOpen := false, done := true, stable := tasks[t].dest);
      SlotChange(slots[..], i, Free);
      UnreadUpdate(tasks[..], t, task);
      SyncedUpdate(tasks[..], openable, noFsync, t, task);
      LeftIs(tasks[..], slots[..]);
      tasks[t] := task;
      slots[i] := Free;
      activeOps := activeOps - 1;
      LeftIs(tasks[..], slots[..]);
      Whole();
    }

    /** The callback of whatever the slot is in use for. */
    method Complete(i: nat)
      requires Valid() && i < slots.Length && !slots[i].Free?
      modifies this`activeOps, slots, tasks
      ensures Valid()
      ensures Left(tasks[..], slots[..]) < Left(old(tasks[..]), old(slots[..]))
    {
      hide *;
      match slots[i] {
        case Reading(_, _, _) => OnReadComplete(i);
        case Writing(_, _, _, _) => OnWriteComplete(i);
        case Fsyncing(_) => OnFsyncComplete(i);
      }
    }

    /** A wait that does not time out runs at least one callback, for operations in any order. */
    method Wait()
      requires Valid() && AnyBusy(slots[..])
      modifies this`activeOps, slots, tasks
      ensures Valid()
      ensures Left(tasks[..], slots[..]) < Left(old(tasks[..]), old(slots[..]))
    {
      hide *;
      var i := ABusySlot(slots[..]);
      Complete(i);
      var more: bool := *;
      while more
        invariant Valid()
        invariant Left(tasks[..], slots[..]) < Left(old(tasks[..]), old(slots[..]))
        decreases Left(tasks[..], slots[..]), more
      {
        var j: nat :| 0 <= j;
        if j < slots.Length && !slots[j].Free? {
          Complete(j);
          more := *;
        } else {
          more := false;
        }
      }
    }

    /** `copy_pipeline`, without errors or interruption; at most `idle` of its waits
        time out without a completion. It ends, and every file that can be opened has been finished once, with a destination equal to
        its source; with syncing on that has reached stable storage. */
    method Run(idle: nat)
      requires Valid() && 0 < slots.Length
      modifies this`current, this`activeOps, slots, tasks
      ensures Valid() && activeOps == 0
      ensures forall t {:trigger tasks[t]} :: 0 <= t < tasks.Length ==>
        && tasks[t].done
        && (openable[t] ==> tasks[t].dest == files[t] && tasks[t].finished == 1 && tasks[t].bytesWritten == |files[t]|)
        && (openable[t] && !noFsync ==> tasks[t].stable == files[t])
        && (!openable[t] ==> tasks[t].finished == 0)
    {
      hide *;
      var quiet := idle;
      Fill();
      var finished := AllTasksDone();
      while !finished
        invariant Valid() && Filled(slots[..], tasks[..], slots.Length)
        invariant finished <==> forall t {:trigger tasks[t]} :: 0 <= t < tasks.Length ==> tasks[t].done
        decreases Left(tasks[..], slots[..]) + quiet, !finished
      {
        ghost var t :| 0 <= t < tasks.Length && !tasks[t].done;
        Parts();
        assert tasks[..][t] == tasks[t];
        NeverStalls(files, openable, direct, slots[..], tasks[..], t);
        var nothing: bool := *;
        if nothing && quiet > 0 {
          quiet := quiet - 1;
        } else {
          Wait();
        }
        Fill();
        finished := AllTasksDone();
      }
      Parts();
      TaskFacts(files, openable, direct, slots[..], tasks[..]);
      assert forall t :: 0 <= t < |tasks[..]| ==> tasks[..][t] == tasks[t];
      DoneIsIdle(files, openable, direct, slots[..], tasks[..]);
      SyncedIs(tasks[..], openable, noFsync);
    }

    /** Gives every free slot something to read. */
    method Fill()
      requires Valid()
      modifies this`current, this`activeOps, slots, tasks
      ensures Valid() && Filled(slots[..], tasks[..], slots.Length)
      ensures Left(tasks[..], slots[..]) <= Left(old(tasks[..]), old(slots[..]))
    {
      hide *;
      NoneFilled(slots[..], tasks[..]);
      for i := 0 to slots.Length
        invariant Valid() && Filled(slots[..], tasks[..], i)
        invariant Left(tasks[..], slots[..]) <= Left(old(tasks[..]), old(slots[..]))
      {
        ghost var s, a := slots[..], tasks[..];
        if slots[i].Free? {
          SubmitNextRead(i);
        }
        FilledMore(s, a, slots[..], tasks[..], i);
      }
    }

    method AllTasksDone() returns (all: bool)
      ensures all <==> forall t {:trigger tasks[t]} :: 0 <= t < tasks.Length ==> tasks[t].done
    {
      for t := 0 to tasks.Length
        invariant forall u {:trigger tasks[u]} :: 0 <= u < t ==> tasks[u].done
      {
        if !tasks[t].done {
          return false;
        }
      }
      return true;
    }
  }

  // ------------------------------------------------------ what the methods change

  /** The slot reads the next part of the first file that has any left: a whole
      chunk, or the rest of the file. Files passed over on the way have nothing left. */
  ghost predicate FirstAsked(tasks: seq<Task>, tasks': seq<Task>, s: Slot, chunkSize: nat)
  {
    && s.Reading? && s.task < |tasks| == |tasks'|
    && var t := s.task;
       && !tasks[t].readsDone && tasks[t].readOffset + s.len <= tasks[t].size && s.offset == tasks[t].readOffset
       && (s.len == chunkSize || (s.len < chunkSize && s.offset + s.len == tasks[t].size))
       && tasks'[t].readOffset == s.offset + s.len && (tasks'[t].readsDone <==> s.offset + s.len == tasks[t].size)
       && tasks'[t].isOpen && tasks'[t].activeOps == tasks[t].activeOps + 1 && tasks'[t].size == tasks[t].size
       && (tasks[t].isOpen ==> tasks'[t].dest == tasks[t].dest)
       && (forall u {:trigger tasks'[u]} :: 0 <= u < t ==> tasks'[u].readsDone && (tasks[u].readsDone ==> tasks'[u] == tasks[u]))
       && (forall u {:trigger tasks'[u]} :: t < u < |tasks| ==> tasks'[u] == tasks[u])
  }

  lemma AskIs(tasks: seq<Task>, t: nat, task: Task, chunk: nat, chunkSize: nat)
    requires t < |tasks| && !tasks[t].readsDone && (tasks[t].isOpen ==> task.dest == tasks[t].dest)
    requires tasks[t].readOffset + chunk <= tasks[t].size
    requires chunk == chunkSize || (chunk < chunkSize && tasks[t].readOffset + chunk == tasks[t].size)
    requires task == tasks[t].(isOpen := true, dest := task.dest, readOffset := tasks[t].readOffset + chunk,
                               readsDone := tasks[t].readOffset + chunk >= tasks[t].size, activeOps := tasks[t].activeOps + 1)
    requires forall u :: 0 <= u < t ==> tasks[u].readsDone
    ensures FirstAsked(tasks, tasks[t := task], Reading(t, tasks[t].readOffset, chunk), chunkSize)
  {
  }

  lemma AskedReads(tasks: seq<Task>, tasks': seq<Task>, s: Slot, chunkSize: nat)
    requires FirstAsked(tasks, tasks', s, chunkSize)
    ensures s.Reading?
  {
  }

  lemma PassThenAsk(tasks: seq<Task>, passed: seq<Task>, tasks': seq<Task>, t: nat, s: Slot, chunkSize: nat)
    requires t < |tasks| && !tasks[t].readsDone && |passed| == |tasks| && passed == tasks[t := passed[t]] && passed[t].readsDone
    requires forall u {:trigger tasks[u]} :: 0 <= u < t ==> tasks[u].readsDone
    ensures FirstAsked(passed, tasks', s, chunkSize) ==> FirstAsked(tasks, tasks', s, chunkSize)
  {
  }

  /** What asking for a part does to the whole. */
  lemma Asked(files: seq<Bytes>, openable: seq<bool>, direct: bool, noFsync: bool, slots: seq<Slot>, tasks: seq<Task>,
              t: nat, i: nat, chunk: nat, chunkSize: nat, task: Task)
    requires Sound(files, openable, direct, slots, tasks) && Synced(tasks, openable, noFsync)
    requires t < |tasks| == |openable| && i < |slots| && slots[i].Free? && openable[t] && !tasks[t].readsDone
    requires 0 < chunk && tasks[t].readOffset + chunk <= tasks[t].size
    requires chunk == chunkSize || (chunk < chunkSize && tasks[t].readOffset + chunk == tasks[t].size)
    requires direct ==> RoundUp(chunkSize) == chunkSize
    requires if tasks[t].isOpen then task.dest == tasks[t].dest else |task.dest| <= tasks[t].size
    requires task == tasks[t].(isOpen := true, dest := task.dest, readOffset := tasks[t].readOffset + chunk,
                               readsDone := tasks[t].readOffset + chunk >= tasks[t].size, activeOps := tasks[t].activeOps + 1)
    requires forall u :: 0 <= u < t ==> tasks[u].readsDone
    ensures var s := Reading(t, tasks[t].readOffset, chunk);
      && Sound(files, openable, direct, slots[i := s], tasks[t := task]) && Synced(tasks[t := task], openable, noFsync)
      && FirstAsked(tasks, tasks[t := task], s, chunkSize)
      && Tally(slots[i := s], 0, Busy) == Tally(slots, 0, Busy) + 1
      && Left(tasks[t := task], slots[i := s]) < Left(tasks, slots)
  {
    hide *;
    TaskFacts(files, openable, direct, slots, tasks);
    SubmitKeeps(files, openable, direct, slots, tasks, t, i, chunk, task.dest);
    SubmitLeft(tasks, slots, t, i, chunk);
    Submitted(slots, i, t, tasks[t].readOffset, chunk);
    AskIs(tasks, t, task, chunk, chunkSize);
    SyncedUpdate(tasks, openable, noFsync, t, task);
  }

  /** The slot holds what was asked for, padded with zeros under O_DIRECT. */
  ghost predicate Brought(s: Slot, s': Slot, files: seq<Bytes>, direct: bool)
  {
    && s.Reading? && s.task < |files| && s.offset + s.len <= |files[s.task]|
    && s'.Writing? && s'.task == s.task && s'.offset == s.offset && s'.len == s.len
    && |s'.buf| == (if direct then RoundUp(s.len) else s.len)
    && s'.buf[..s.len] == files[s.task][s.offset..s.offset + s.len]
    && forall p :: s.len <= p < |s'.buf| ==> s'.buf[p] == 0
  }

  lemma BroughtIs(s: Slot, buf: Bytes, files: seq<Bytes>, direct: bool)
    requires s.Reading? && s.task < |files| && s.offset + s.len <= |files[s.task]| && s.len <= RoundUp(s.len)
    requires var data := files[s.task][s.offset..s.offset + s.len];
      buf == if direct then data + Zeros(RoundUp(s.len) - s.len) else data
    ensures Brought(s, Writing(s.task, s.offset, s.len, buf), files, direct)
  {
    var data := files[s.task][s.offset..s.offset + s.len];
    assert buf[..s.len] == data;
  }

  /** A write takes its part into the record; the last one finishes the file, and
      its slot goes to the sync, if there is one. */
  ghost predicate TookIn(task: Task, s: Slot, task': Task, s': Slot, direct: bool, noFsync: bool)
  {
    && s.Writing?
    && var written := Written(task, s);
       if written.readsDone && written.activeOps == 0 && !written.done then
         (s' == Free || (!noFsync && s' == Fsyncing(s.task))) && task' == Finished(written, direct, noFsync, s'.Fsyncing?)
       else s' == Free && task' == written
  }

  lemma TookInIs(task: Task, s: Slot, task': Task, s': Slot, direct: bool, noFsync: bool)
    requires s.Writing?
    requires var written := Written(task, s);
      if written.readsDone && written.activeOps == 0 && !written.done then
        (s' == Free || (!noFsync && s' == Fsyncing(s.task))) && task' == Finished(written, direct, noFsync, s'.Fsyncing?)
      else s' == Free && task' == written
    ensures TookIn(task, s, task', s', direct, noFsync)
  {
  }

  /** What a completed write does to the whole. */
  lemma WriteDone(files: seq<Bytes>, openable: seq<bool>, direct: bool, noFsync: bool, slots: seq<Slot>, tasks: seq<Task>,
                  i: nat, task: Task, s: Slot)
    requires Sound(files, openable, direct, slots, tasks) && Synced(tasks, openable, noFsync)
    requires i < |slots| && slots[i].Writing? && slots[i].task < |tasks| == |openable| == |files| && !tasks[slots[i].task].done
    requires TookIn(tasks[slots[i].task], slots[i], task, s, direct, noFsync)
    ensures var t := slots[i].task;
      && Sound(files, openable, direct, slots[i := s], tasks[t := task]) && Synced(tasks[t := task], openable, noFsync)
      && task.readsDone == tasks[t].readsDone
      && (task.finished > tasks[t].finished ==> task.dest == files[t] && task.finished == 1)
      && Tally(slots[i := s], 0, Busy) == Tally(slots, 0, Busy) - (if s.Free? then 1 else 0)
      && Left(tasks[t := task], slots[i := s]) < Left(tasks, slots)
  {
    var t := slots[i].task;
    var written := Written(tasks[t], slots[i]);
    assert TookIn(tasks[t], slots[i], task, s, direct, noFsync);
    hide Sound, Synced, Tally, Left, Unread, Put, Weigh, Finished, Written;
    WrittenRecord(tasks[t], slots[i]);
    TaskFacts(files, openable, direct, slots, tasks);
    if written.readsDone && written.activeOps == 0 && !written.done {
      LastWriteKeeps(files, openable, direct, slots, tasks, i, noFsync, s.Fsyncing?);
      FinishedRecord(written, direct, noFsync, s.Fsyncing?);
      FinishSyncs(written, direct, noFsync, s.Fsyncing?);
    } else {
      WriteKeeps(files, openable, direct, slots, tasks, i);
    }
    SlotChange(slots, i, s);
    UnreadUpdate(tasks, t, task);
    SyncedUpdate(tasks, openable, noFsync, t, task);
    LeftIs(tasks, slots);
    LeftIs(tasks[t := task], slots[i := s]);
  }

  method ABusySlot(slots: seq<Slot>) returns (i: nat)
    requires AnyBusy(slots)
    ensures i < |slots| && !slots[i].Free?
  {
    i :| i < |slots| && !slots[i].Free?;
  }

  lemma ChunkIsWhole(chunkSize: nat, direct: bool)
    requires direct ==> chunkSize % SECTOR_SIZE == 0
    ensures direct ==> RoundUp(chunkSize) == chunkSize
  {
    if direct { RoundUpOfWhole(chunkSize); }
  }

  lemma RoundsUp(x: nat)
    ensures x <= RoundUp(x)
  {
  }

  lemma SyncedIs(tasks: seq<Task>, openable: seq<bool>, noFsync: bool)
    requires Synced(tasks, openable, noFsync) && |tasks| == |openable|
    ensures forall t {:trigger tasks[t]} :: 0 <= t < |tasks| && tasks[t].done && openable[t] && !noFsync ==> tasks[t].stable == tasks[t].dest
  {
  }

  lemma FinishedRecord(task: Task, direct: bool, noFsync: bool, syncing: bool)
    ensures var r := Finished(task, direct, noFsync, syncing);
      r.readOffset == task.readOffset && r.size == task.size && r.readsDone == task.readsDone
  {
  }

  lemma WrittenRecord(task: Task, s: Slot)
    requires s.Writing?
    ensures Written(task, s) ==
      task.(dest := Put(task.dest, s.offset, s.buf), bytesWritten := task.bytesWritten + s.len, activeOps := task.activeOps - 1)
  {
  }

  lemma SlotChange(slots: seq<Slot>, i: nat, s: Slot)
    requires i < |slots|
    ensures Tally(slots[i := s], 0, Busy) == Tally(slots, 0, Busy) + (if s.Free? then 0 else 1) - (if slots[i].Free? then 0 else 1)
    ensures Tally(slots[i := s], 0, Work) == Tally(slots, 0, Work) + Weigh(s, 0, Work) - Weigh(slots[i], 0, Work)
    ensures Weigh(Free, 0, Work) == 0
    ensures slots[i].Reading? && s.Writing? ==> Weigh(s, 0, Work) < Weigh(slots[i], 0, Work)
    ensures slots[i].Writing? && (s.Fsyncing? || s.Free?) ==> Weigh(s, 0, Work) < Weigh(slots[i], 0, Work)
    ensures slots[i].Fsyncing? && s.Free? ==> Weigh(s, 0, Work) < Weigh(slots[i], 0, Work)
  {
    TallyUpdate(slots, i, s, 0, Busy);
    TallyUpdate(slots, i, s, 0, Work);
  }

  lemma Submitted(slots: seq<Slot>, i: nat, t: nat, offset: nat, chunk: nat)
    requires i < |slots| && slots[i].Free?
    ensures Tally(slots[i := Reading(t, offset, chunk)], 0, Busy) == Tally(slots, 0, Busy) + 1
  {
    TallyUpdate(slots, i, Reading(t, offset, chunk), 0, Busy);
  }

  lemma SubmitLeft(tasks: seq<Task>, slots: seq<Slot>, t: nat, i: nat, chunk: nat)
    requires t < |tasks| && i < |slots| && slots[i].Free? && 0 < chunk && tasks[t].readOffset + chunk <= tasks[t].size
    ensures forall task: Task {:trigger tasks[t := task]} :: task.size == tasks[t].size && task.readOffset == tasks[t].readOffset + chunk ==>
      Left(tasks[t := task], slots[i := Reading(t, tasks[t].readOffset, chunk)]) < Left(tasks, slots)
  {
    TallyUpdate(slots, i, Reading(t, tasks[t].readOffset, chunk), 0, Work);
    forall task: Task {:trigger tasks[t := task]} | task.size == tasks[t].size && task.readOffset == tasks[t].readOffset + chunk
      ensures Left(tasks[t := task], slots[i := Reading(t, tasks[t].readOffset, chunk)]) < Left(tasks, slots)
    {
      UnreadUpdate(tasks, t, task);
    }
  }

  lemma LeftIs(tasks: seq<Task>, slots: seq<Slot>)
    ensures Left(tasks, slots) == 4 * Unread(tasks) + Tally(slots, 0, Work)
  {
  }

  lemma ReadAll(tasks: seq<Task>)
    requires forall t :: 0 <= t < |tasks| ==> tasks[t].readsDone
    ensures AllRead(tasks)
  {
  }

  lemma NotAllRead(tasks: seq<Task>, t: nat)
    requires t < |tasks| && !tasks[t].readsDone
    ensures !AllRead(tasks)
  {
  }

  lemma ReadStays(tasks: seq<Task>, t: nat, task: Task)
    requires t < |tasks| && (tasks[t].readsDone ==> task.readsDone)
    ensures AllRead(tasks) ==> AllRead(tasks[t := task])
  {
  }

  lemma NoneFilled(slots: seq<Slot>, tasks: seq<Task>)
    ensures Filled(slots, tasks, 0)
  {
  }

  lemma FilledMore(slots: seq<Slot>, tasks: seq<Task>, slots': seq<Slot>, tasks': seq<Task>, i: nat)
    requires Filled(slots, tasks, i) && i < |slots| && |slots'| == |slots|
    requires slots' == slots[i := slots'[i]] && (slots'[i].Free? ==> AllRead(tasks'))
    requires AllRead(tasks) ==> AllRead(tasks')
    ensures Filled(slots', tasks', i + 1)
  {
  }
}
