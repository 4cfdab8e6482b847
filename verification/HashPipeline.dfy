/** Pipelined hashing: reads of several files are in flight in a fixed set of
    buffer slots and complete in any order, while the bytes of each file reach
    its digest in order. A digest is modelled by the bytes fed to it. */
module HashPipeline {

  type Bytes = seq<bv8>

  datatype Slot =
    | Free
    | Reading(task: nat, offset: nat, bytes: nat)
    | Done(task: nat, offset: nat, data: Bytes)

  datatype Task = Task(
    size: nat,
    isOpen: bool,              // fd >= 0
    readOffset: nat,
    hashOffset: nat,
    activeOps: int,
    readsDone: bool,
    done: bool,
    digest: Bytes,             // what the digest has been fed
    printed: seq<Bytes>)       // the digests printed for this file

  function Length(s: Slot): nat
  {
    match s
    case Free => 0
    case Reading(_, _, bytes) => bytes
    case Done(_, _, data) => |data|
  }

  // ----------------------------------------------------------------- invariant

  /** The slots of `list` belong to the task and lie end to end from `from` to
      `to`; what has arrived is what the file holds there. */
  ghost predicate Tiled(slots: seq<Slot>, list: seq<nat>, t: nat, file: Bytes, from: nat, to: nat)
    decreases |list|
  {
    if list == [] then from == to
    else
      && from < to <= |file| && list[0] < |slots|
      && var s := slots[list[0]];
         && !s.Free? && s.task == t && s.offset == from && 0 < Length(s) && from + Length(s) <= to
         && (s.Done? ==> s.data == file[from..from + Length(s)])
         && Tiled(slots, list[1..], t, file, from + Length(s), to)
  }

  lemma {:induction false} TiledElsewhere(slots: seq<Slot>, list: seq<nat>, t: nat, file: Bytes, from: nat, to: nat, i: nat, s: Slot)
    requires Tiled(slots, list, t, file, from, to) && i < |slots| && i !in list
    ensures Tiled(slots[i := s], list, t, file, from, to)
    decreases |list|
  {
    if list != [] {
      TiledElsewhere(slots, list[1..], t, file, from + Length(slots[list[0]]), to, i, s);
    }
  }

  /** A read that arrives in full fits the gap it was made for. */
  lemma {:induction false} TiledArrived(slots: seq<Slot>, list: seq<nat>, t: nat, file: Bytes, from: nat, to: nat, i: nat, data: Bytes)
    requires Tiled(slots, list, t, file, from, to) && i < |slots| && slots[i].Reading? && (slots[i].task == t ==> |data| == slots[i].bytes)
    requires slots[i].offset + |data| <= |file| && (slots[i].task == t ==> data == file[slots[i].offset..slots[i].offset + |data|])
    ensures Tiled(slots[i := Done(slots[i].task, slots[i].offset, data)], list, t, file, from, to)
    decreases |list|
  {
    if list != [] {
      TiledArrived(slots, list[1..], t, file, from + Length(slots[list[0]]), to, i, data);
    }
  }

  lemma {:induction false} TiledMore(slots: seq<Slot>, list: seq<nat>, t: nat, file: Bytes, from: nat, to: nat, i: nat)
    requires Tiled(slots, list, t, file, from, to) && i < |slots|
    requires slots[i].Reading? && slots[i].task == t && slots[i].offset == to && 0 < slots[i].bytes && to + slots[i].bytes <= |file|
    ensures Tiled(slots, list + [i], t, file, from, to + slots[i].bytes)
    decreases |list|
  {
    if list == [] {
      assert (list + [i])[1..] == [];
    } else {
      assert (list + [i])[1..] == list[1..] + [i];
      TiledMore(slots, list[1..], t, file, from + Length(slots[list[0]]), to, i);
    }
  }

  /** Every slot of the list lies at or after its start, and only the first at it. */
  lemma {:induction false} TiledBounds(slots: seq<Slot>, list: seq<nat>, t: nat, file: Bytes, from: nat, to: nat)
    requires Tiled(slots, list, t, file, from, to)
    ensures from <= to && (list == [] <==> from == to)
    ensures forall k {:trigger list[k]} :: 0 <= k < |list| ==>
      && list[k] < |slots| && !slots[list[k]].Free? && slots[list[k]].task == t
      && from <= slots[list[k]].offset && slots[list[k]].offset + Length(slots[list[k]]) <= to
      && (slots[list[k]].offset == from <==> k == 0)
    decreases |list|
  {
    if list != [] {
      var rest := list[1..];
      TiledBounds(slots, rest, t, file, from + Length(slots[list[0]]), to);
      assert forall k {:trigger list[k]} :: 1 <= k < |list| ==> list[k] == rest[k - 1];
    }
  }

  ghost predicate TaskSound(task: Task, file: Bytes, openable: bool, flight: nat)
  {
    && task.size == |file| && task.hashOffset <= task.readOffset <= task.size
    && task.digest == file[..task.hashOffset]
    && task.activeOps == flight
    && (task.done ==> task.readsDone && flight == 0)
    && task.printed == (if task.done && openable then [file] else [])
    && (task.readsDone && openable ==> task.readOffset == task.size)
    && (!task.readsDone && task.isOpen ==> task.readOffset < task.size)
    && (!task.isOpen && !task.readsDone ==> task.readOffset == 0)
    && (!openable ==> !task.isOpen && flight == 0 && task.readsDone == task.done)
  }

  /** In-use slots and flight lists agree. */
  ghost predicate Owned(slots: seq<Slot>, flight: seq<seq<nat>>)
  {
    forall i {:trigger slots[i]} :: 0 <= i < |slots| && !slots[i].Free? ==> slots[i].task < |flight| && i in flight[slots[i].task]
  }

  ghost predicate TaskAt(files: seq<Bytes>, openable: seq<bool>, slots: seq<Slot>, tasks: seq<Task>, flight: seq<seq<nat>>, t: nat)
    requires t < |tasks| == |flight| == |files| == |openable|
  {
    && TaskSound(tasks[t], files[t], openable[t], |flight[t]|)
    && Tiled(slots, flight[t], t, files[t], tasks[t].hashOffset, tasks[t].readOffset)
  }

  ghost predicate Sound(files: seq<Bytes>, openable: seq<bool>, slots: seq<Slot>, tasks: seq<Task>, flight: seq<seq<nat>>)
  {
    && |tasks| == |flight| == |files| == |openable|
    && Owned(slots, flight)
    && forall t: nat {:trigger tasks[t]} {:trigger flight[t]} :: t < |tasks| ==> TaskAt(files, openable, slots, tasks, flight, t)
  }

  /** Nothing waits that could be fed: the slot at the hash offset is being read;
      and a file all of which has been fed is finished. */
  ghost predicate Settled(slots: seq<Slot>, task: Task, list: seq<nat>)
  {
    && (list != [] ==> list[0] < |slots| && slots[list[0]].Reading?)
    && (list == [] && task.readsDone ==> task.done)
  }

  ghost predicate AllSettled(slots: seq<Slot>, tasks: seq<Task>, flight: seq<seq<nat>>, but: int)
  {
    |tasks| == |flight| && forall t {:trigger tasks[t]} {:trigger flight[t]} :: 0 <= t < |tasks| && t != but ==> Settled(slots, tasks[t], flight[t])
  }

  // -------------------------------------------------------------------- counting

  ghost function Unread(tasks: seq<Task>): nat
  {
    if tasks == [] then 0
    else
      var t := tasks[|tasks| - 1];
      Unread(tasks[..|tasks| - 1]) + if t.readOffset < t.size then t.size - t.readOffset else 0
  }

  /** Slots in use, or only those being read. */
  ghost function Busy(slots: seq<Slot>, reading: bool): nat
  {
    if slots == [] then 0
    else
      var s := slots[|slots| - 1];
      Busy(slots[..|slots| - 1], reading) + if s.Reading? || (s.Done? && !reading) then 1 else 0
  }

  lemma {:induction false} UnreadUpdate(tasks: seq<Task>, t: nat, task: Task)
    requires t < |tasks| && tasks[t].readOffset <= tasks[t].size && task.readOffset <= task.size
    ensures Unread(tasks[t := task]) == Unread(tasks) - (tasks[t].size - tasks[t].readOffset) + (task.size - task.readOffset)
  {
    var n := |tasks| - 1;
    if t == n {
      assert tasks[t := task][..n] == tasks[..n];
    } else {
      assert tasks[t := task][..n] == tasks[..n][t := task];
      UnreadUpdate(tasks[..n], t, task);
    }
  }

  lemma {:induction false} BusyUpdate(slots: seq<Slot>, i: nat, s: Slot, reading: bool)
    requires i < |slots|
    ensures Busy(slots[i := s], reading) == Busy(slots, reading)
      + (if s.Reading? || (s.Done? && !reading) then 1 else 0)
      - (if slots[i].Reading? || (slots[i].Done? && !reading) then 1 else 0)
  {
    var n := |slots| - 1;
    if i == n {
      assert slots[i := s][..n] == slots[..n];
    } else {
      assert slots[i := s][..n] == slots[..n][i := s];
      BusyUpdate(slots[..n], i, s, reading);
    }
  }

  lemma {:induction false} NoneBusy(slots: seq<Slot>)
    requires forall i :: 0 <= i < |slots| ==> slots[i].Free?
    ensures Busy(slots, false) == 0 && Busy(slots, true) == 0
  {
    if slots != [] { NoneBusy(slots[..|slots| - 1]); }
  }

  /** How much is left to do: a byte not yet asked for counts twice, a read in
      flight once. */
  ghost function Left(tasks: seq<Task>, slots: seq<Slot>): nat
  {
    2 * Unread(tasks) + Busy(slots, true)
  }

  // --------------------------------------------------------------- changes of state

  lemma SubmitTiled(files: seq<Bytes>, openable: seq<bool>, slots: seq<Slot>, tasks: seq<Task>, flight: seq<seq<nat>>, t: nat, i: nat, chunk: nat)
    requires Sound(files, openable, slots, tasks, flight)
    requires t < |tasks| && i < |slots| && slots[i].Free?
    requires 0 < chunk && tasks[t].readOffset + chunk <= tasks[t].size
    ensures var slots' := slots[i := Reading(t, tasks[t].readOffset, chunk)];
      && (forall u: nat {:trigger flight[u]} :: u < |tasks| ==>
            i !in flight[u] && Tiled(slots', flight[u], u, files[u], tasks[u].hashOffset, tasks[u].readOffset))
      && Tiled(slots', flight[t] + [i], t, files[t], tasks[t].hashOffset, tasks[t].readOffset + chunk)
  {
    var task := tasks[t];
    var slots' := slots[i := Reading(t, task.readOffset, chunk)];
    forall u: nat | u < |tasks|
      ensures TaskAt(files, openable, slots, tasks, flight, u) && i !in flight[u]
      ensures Tiled(slots', flight[u], u, files[u], tasks[u].hashOffset, tasks[u].readOffset)
    {
      TiledBounds(slots, flight[u], u, files[u], tasks[u].hashOffset, tasks[u].readOffset);
      TiledElsewhere(slots, flight[u], u, files[u], tasks[u].hashOffset, tasks[u].readOffset, i, slots'[i]);
    }
    TiledMore(slots', flight[t], t, files[t], task.hashOffset, task.readOffset, i);
  }

  lemma SubmitKeeps(files: seq<Bytes>, openable: seq<bool>, slots: seq<Slot>, tasks: seq<Task>, flight: seq<seq<nat>>, t: nat, i: nat, chunk: nat)
    requires Sound(files, openable, slots, tasks, flight) && AllSettled(slots, tasks, flight, -1)
    requires t < |tasks| && i < |slots| && slots[i].Free? && openable[t] && !tasks[t].readsDone
    requires 0 < chunk && tasks[t].readOffset + chunk <= tasks[t].size
    ensures var task := tasks[t];
      var to := task.readOffset + chunk;
      var task' := task.(isOpen := true, readOffset := to, readsDone := to >= task.size, activeOps := task.activeOps + 1);
      var slots' := slots[i := Reading(t, task.readOffset, chunk)];
      && Sound(files, openable, slots', tasks[t := task'], flight[t := flight[t] + [i]])
      && AllSettled(slots', tasks[t := task'], flight[t := flight[t] + [i]], -1)
  {
    var task := tasks[t];
    var slots' := slots[i := Reading(t, task.readOffset, chunk)];
    SubmitTiled(files, openable, slots, tasks, flight, t, i, chunk);
    var flight' := flight[t := flight[t] + [i]];
    var task' := task.(isOpen := true, readOffset := task.readOffset + chunk, readsDone := task.readOffset + chunk >= task.size, activeOps := task.activeOps + 1);
    var tasks' := tasks[t := task'];
    forall u: nat | u < |tasks|
      ensures TaskAt(files, openable, slots', tasks', flight', u) && Settled(slots', tasks'[u], flight'[u])
    {
      assert TaskAt(files, openable, slots, tasks, flight, u) && Settled(slots, tasks[u], flight[u]);
      assert flight[u] != [] ==> flight[u][0] in flight[u];
      assert flight'[t][0] == if flight[t] == [] then i else flight[t][0];
    }
    forall j | 0 <= j < |slots'| && !slots'[j].Free?
      ensures slots'[j].task < |flight'| && j in flight'[slots'[j].task]
    {
      if j == i { assert flight'[t][|flight[t]|] == i; } else { assert slots'[j] == slots[j]; }
    }
  }

  /** A read arrives in full. */
  lemma ArriveKeeps(files: seq<Bytes>, openable: seq<bool>, slots: seq<Slot>, tasks: seq<Task>, flight: seq<seq<nat>>, i: nat, data: Bytes)
    requires Sound(files, openable, slots, tasks, flight) && AllSettled(slots, tasks, flight, -1)
    requires i < |slots| && slots[i].Reading?
    requires |data| == slots[i].bytes
    requires slots[i].task < |files| && slots[i].offset + |data| <= |files[slots[i].task]|
    requires data == files[slots[i].task][slots[i].offset..slots[i].offset + |data|]
    ensures var slots' := slots[i := Done(slots[i].task, slots[i].offset, data)];
      Sound(files, openable, slots', tasks, flight) && AllSettled(slots', tasks, flight, slots[i].task)
  {
    var slots' := slots[i := Done(slots[i].task, slots[i].offset, data)];
    forall u: nat | u < |tasks|
      ensures TaskAt(files, openable, slots', tasks, flight, u)
      ensures u != slots[i].task ==> Settled(slots', tasks[u], flight[u])
    {
      assert TaskAt(files, openable, slots, tasks, flight, u);
      TiledBounds(slots, flight[u], u, files[u], tasks[u].hashOffset, tasks[u].readOffset);
      if u == slots[i].task {
        TiledArrived(slots, flight[u], u, files[u], tasks[u].hashOffset, tasks[u].readOffset, i, data);
      } else {
        assert i !in flight[u];
        TiledElsewhere(slots, flight[u], u, files[u], tasks[u].hashOffset, tasks[u].readOffset, i, slots'[i]);
        assert flight[u] != [] ==> flight[u][0] in flight[u];
      }
    }
  }

  /** A slot is done at the hash offset of its task exactly if it is the first
      in flight there. */
  lemma FirstInFlight(files: seq<Bytes>, openable: seq<bool>, slots: seq<Slot>, tasks: seq<Task>, flight: seq<seq<nat>>, i: nat)
    requires Sound(files, openable, slots, tasks, flight) && i < |slots| && !slots[i].Free?
    ensures slots[i].task < |tasks|
    ensures slots[i].offset == tasks[slots[i].task].hashOffset <==>
      flight[slots[i].task] != [] && flight[slots[i].task][0] == i
  {
    var t := slots[i].task;
    assert TaskAt(files, openable, slots, tasks, flight, t);
    TiledBounds(slots, flight[t], t, files[t], tasks[t].hashOffset, tasks[t].readOffset);
    var k :| 0 <= k < |flight[t]| && flight[t][k] == i;
  }

  /** The first slot in flight is fed to the digest and freed. */
  lemma FeedKeeps(files: seq<Bytes>, openable: seq<bool>, slots: seq<Slot>, tasks: seq<Task>, flight: seq<seq<nat>>, i: nat)
    requires Sound(files, openable, slots, tasks, flight) && i < |slots| && slots[i].Done?
    requires slots[i].task < |tasks| && slots[i].offset == tasks[slots[i].task].hashOffset
    requires AllSettled(slots, tasks, flight, slots[i].task)
    ensures var t := slots[i].task;
      var task := tasks[t];
      var task' := task.(digest := task.digest + slots[i].data, hashOffset := task.hashOffset + |slots[i].data|, activeOps := task.activeOps - 1);
      && flight[t] != [] && !task.done
      && Sound(files, openable, slots[i := Free], tasks[t := task'], flight[t := flight[t][1..]])
      && AllSettled(slots[i := Free], tasks[t := task'], flight[t := flight[t][1..]], t)
  {
    var t := slots[i].task;
    FirstInFlight(files, openable, slots, tasks, flight, i);
    var task := tasks[t];
    var list := flight[t];
    var slots' := slots[i := Free];
    assert TaskAt(files, openable, slots, tasks, flight, t);
    TiledBounds(slots, list, t, files[t], task.hashOffset, task.readOffset);
    assert list == [i] + list[1..];
    assert i !in list[1..] by { OnlyFirst(slots, list, t, files[t], task.hashOffset, task.readOffset); }
    TiledElsewhere(slots, list[1..], t, files[t], task.hashOffset + |slots[i].data|, task.readOffset, i, Free);
    assert files[t][..task.hashOffset] + slots[i].data == files[t][..task.hashOffset + |slots[i].data|];
    forall u: nat | u < |tasks| && u != t
      ensures TaskAt(files, openable, slots', tasks, flight, u) && Settled(slots', tasks[u], flight[u]) && i !in flight[u]
    {
      assert TaskAt(files, openable, slots, tasks, flight, u);
      TiledBounds(slots, flight[u], u, files[u], tasks[u].hashOffset, tasks[u].readOffset);
      assert i !in flight[u];
      TiledElsewhere(slots, flight[u], u, files[u], tasks[u].hashOffset, tasks[u].readOffset, i, Free);
      assert flight[u] != [] ==> flight[u][0] in flight[u];
    }
    var task' := task.(digest := task.digest + slots[i].data, hashOffset := task.hashOffset + |slots[i].data|, activeOps := task.activeOps - 1);
    var tasks', flight' := tasks[t := task'], flight[t := list[1..]];
    assert TaskAt(files, openable, slots', tasks', flight', t);
    forall u: nat | u < |tasks|
      ensures TaskAt(files, openable, slots', tasks', flight', u)
    {
    }
    forall j {:trigger slots'[j]} | 0 <= j < |slots| && !slots'[j].Free?
      ensures slots'[j].task < |flight'| && j in flight'[slots'[j].task]
    {
      assert slots'[j] == slots[j];
    }
  }

  lemma OnlyFirst(slots: seq<Slot>, list: seq<nat>, t: nat, file: Bytes, from: nat, to: nat)
    requires Tiled(slots, list, t, file, from, to) && list != []
    ensures list[0] !in list[1..]
  {
    TiledBounds(slots, list, t, file, from, to);
    var rest := list[1..];
    assert forall k {:trigger rest[k]} :: 0 <= k < |rest| ==> rest[k] == list[k + 1];
  }

  /** Nothing more to feed: the first slot in flight is still being read. */
  lemma DrainedIsSettled(files: seq<Bytes>, openable: seq<bool>, slots: seq<Slot>, tasks: seq<Task>, flight: seq<seq<nat>>, t: nat)
    requires Sound(files, openable, slots, tasks, flight) && t < |tasks|
    requires forall i {:trigger slots[i]} :: 0 <= i < |slots| ==> !(slots[i].Done? && slots[i].task == t && slots[i].offset == tasks[t].hashOffset)
    ensures flight[t] != [] ==> flight[t][0] < |slots| && slots[flight[t][0]].Reading?
  {
    assert TaskAt(files, openable, slots, tasks, flight, t);
    TiledBounds(slots, flight[t], t, files[t], tasks[t].hashOffset, tasks[t].readOffset);
  }

  /** A file all of which has been read and fed is finished. */
  lemma FinishKeeps(files: seq<Bytes>, openable: seq<bool>, slots: seq<Slot>, tasks: seq<Task>, flight: seq<seq<nat>>, t: nat)
    requires Sound(files, openable, slots, tasks, flight) && t < |tasks| && openable[t]
    requires tasks[t].readsDone && tasks[t].activeOps == 0 && !tasks[t].done
    requires AllSettled(slots, tasks, flight, t)
    ensures tasks[t].digest == files[t]
    ensures var task' := tasks[t].(printed := tasks[t].printed + [tasks[t].digest], isOpen := false, done := true);
      Sound(files, openable, slots, tasks[t := task'], flight) && AllSettled(slots, tasks[t := task'], flight, -1)
  {
    assert TaskAt(files, openable, slots, tasks, flight, t);
    TiledBounds(slots, flight[t], t, files[t], tasks[t].hashOffset, tasks[t].readOffset);
    assert files[t][..|files[t]|] == files[t];
    var task' := tasks[t].(printed := tasks[t].printed + [tasks[t].digest], isOpen := false, done := true);
    assert flight[t] == [];
    assert task'.printed == [files[t]];
    Replaced(files, openable, slots, tasks, flight, t, task');
  }

  /** A file that cannot be opened is passed over; an empty one is finished at once. */
  lemma PassKeeps(files: seq<Bytes>, openable: seq<bool>, slots: seq<Slot>, tasks: seq<Task>, flight: seq<seq<nat>>, t: nat)
    requires Sound(files, openable, slots, tasks, flight) && AllSettled(slots, tasks, flight, -1)
    requires t < |tasks| && !tasks[t].readsDone && !tasks[t].isOpen
    ensures !openable[t] ==>
      var task' := tasks[t].(readsDone := true, done := true);
      Sound(files, openable, slots, tasks[t := task'], flight) && AllSettled(slots, tasks[t := task'], flight, -1)
    ensures openable[t] && tasks[t].size == 0 ==>
      var task' := tasks[t].(readsDone := true, printed := tasks[t].printed + [tasks[t].digest], done := true);
      Sound(files, openable, slots, tasks[t := task'], flight) && AllSettled(slots, tasks[t := task'], flight, -1)
  {
    assert TaskAt(files, openable, slots, tasks, flight, t);
    TiledBounds(slots, flight[t], t, files[t], tasks[t].hashOffset, tasks[t].readOffset);
    if !openable[t] {
      Replaced(files, openable, slots, tasks, flight, t, tasks[t].(readsDone := true, done := true));
    } else if tasks[t].size == 0 {
      assert files[t] == tasks[t].digest == [];
      var task' := tasks[t].(readsDone := true, printed := tasks[t].printed + [tasks[t].digest], done := true);
      assert task'.printed == [files[t]];
      Replaced(files, openable, slots, tasks, flight, t, task');
    }
  }

  /** Only the record of one task changes, and stays sound. */
  lemma Replaced(files: seq<Bytes>, openable: seq<bool>, slots: seq<Slot>, tasks: seq<Task>, flight: seq<seq<nat>>, t: nat, task': Task)
    requires Sound(files, openable, slots, tasks, flight) && AllSettled(slots, tasks, flight, t) && t < |tasks|
    requires TaskSound(task', files[t], openable[t], |flight[t]|) && Settled(slots, task', flight[t])
    requires task'.hashOffset == tasks[t].hashOffset && task'.readOffset == tasks[t].readOffset
    ensures Sound(files, openable, slots, tasks[t := task'], flight) && AllSettled(slots, tasks[t := task'], flight, -1)
  {
    var tasks' := tasks[t := task'];
    forall u: nat | u < |tasks|
      ensures TaskAt(files, openable, slots, tasks', flight, u) && Settled(slots, tasks'[u], flight[u])
    {
      assert TaskAt(files, openable, slots, tasks, flight, u);
    }
  }

  // ------------------------------------------------------------------ no stall

  ghost predicate AllRead(tasks: seq<Task>)
  {
    forall t {:trigger tasks[t]} :: 0 <= t < |tasks| ==> tasks[t].readsDone
  }

  /** A free slot means that every file has been asked for. */
  ghost predicate Filled(slots: seq<Slot>, tasks: seq<Task>, n: nat)
  {
    forall i {:trigger slots[i]} :: 0 <= i < n && i < |slots| && slots[i].Free? ==> AllRead(tasks)
  }

  ghost predicate AnyReading(slots: seq<Slot>)
  {
    exists i {:trigger slots[i]} :: 0 <= i < |slots| && slots[i].Reading?
  }

  /** While a file is not finished, a read is in flight: the pipeline never stalls
      on slots that have arrived and cannot be fed. */
  lemma NeverStalls(files: seq<Bytes>, openable: seq<bool>, slots: seq<Slot>, tasks: seq<Task>, flight: seq<seq<nat>>, t: nat)
    requires Sound(files, openable, slots, tasks, flight) && AllSettled(slots, tasks, flight, -1)
    requires 0 < |slots| && Filled(slots, tasks, |slots|) && t < |tasks| && !tasks[t].done
    ensures AnyReading(slots)
  {
    if flight[t] != [] {
      assert Settled(slots, tasks[t], flight[t]);
    } else {
      assert Settled(slots, tasks[t], flight[t]);
      assert !slots[0].Free?;
      var u := slots[0].task;
      assert 0 in flight[u];
      assert Settled(slots, tasks[u], flight[u]);
    }
  }

  lemma {:induction false} ReadingIsBusy(slots: seq<Slot>)
    ensures AnyReading(slots) <==> Busy(slots, true) > 0
  {
    if slots != [] {
      var n := |slots| - 1;
      ReadingIsBusy(slots[..n]);
      assert AnyReading(slots) <==> AnyReading(slots[..n]) || slots[n].Reading?;
    }
  }

  lemma UsedIsUnfinished(files: seq<Bytes>, openable: seq<bool>, slots: seq<Slot>, tasks: seq<Task>, flight: seq<seq<nat>>, i: nat)
    requires Sound(files, openable, slots, tasks, flight) && i < |slots| && !slots[i].Free?
    ensures slots[i].task < |tasks| && !tasks[slots[i].task].done && openable[slots[i].task]
  {
    assert TaskAt(files, openable, slots, tasks, flight, slots[i].task);
  }

  lemma TaskFacts(files: seq<Bytes>, openable: seq<bool>, slots: seq<Slot>, tasks: seq<Task>, flight: seq<seq<nat>>)
    requires Sound(files, openable, slots, tasks, flight)
    ensures forall t {:trigger tasks[t]} :: 0 <= t < |tasks| ==>
      && tasks[t].readOffset <= tasks[t].size == |files[t]| && tasks[t].activeOps == |flight[t]|
      && (!tasks[t].readsDone && tasks[t].isOpen ==> openable[t] && tasks[t].readOffset < tasks[t].size)
      && (!tasks[t].readsDone && !tasks[t].isOpen ==> tasks[t].readOffset == 0)
      && (tasks[t].done ==> tasks[t].readsDone)
  {
    forall t: nat | t < |tasks|
      ensures TaskAt(files, openable, slots, tasks, flight, t)
    {
    }
  }

  /** With every file finished, no slot is in use. */
  lemma FinishedIsIdle(files: seq<Bytes>, openable: seq<bool>, slots: seq<Slot>, tasks: seq<Task>, flight: seq<seq<nat>>)
    requires Sound(files, openable, slots, tasks, flight) && forall t :: 0 <= t < |tasks| ==> tasks[t].done
    ensures Busy(slots, false) == 0
    ensures forall t :: 0 <= t < |tasks| ==> tasks[t].printed == if openable[t] then [files[t]] else []
  {
    forall i | 0 <= i < |slots|
      ensures slots[i].Free?
    {
      if !slots[i].Free? {
        UsedIsUnfinished(files, openable, slots, tasks, flight, i);
      }
    }
    NoneBusy(slots);
    assert forall t: nat :: t < |tasks| ==> TaskAt(files, openable, slots, tasks, flight, t);
  }

  lemma StartIsSound(files: seq<Bytes>, openable: seq<bool>, slots: seq<Slot>, tasks: seq<Task>, flight: seq<seq<nat>>)
    requires |tasks| == |flight| == |files| == |openable|
    requires forall i :: 0 <= i < |slots| ==> slots[i].Free?
    requires forall t :: 0 <= t < |tasks| ==> tasks[t] == NewTask(|files[t]|) && flight[t] == []
    ensures Sound(files, openable, slots, tasks, flight) && AllSettled(slots, tasks, flight, -1)
    ensures Busy(slots, false) == 0
  {
    NoneBusy(slots);
    forall t: nat | t < |tasks|
      ensures TaskAt(files, openable, slots, tasks, flight, t)
    {
    }
  }

  function NewTask(size: nat): Task
  {
    Task(size, false, 0, 0, 0, false, false, [], [])
  }

  // ------------------------------------------------------------------ the pipeline

  class Pipeline {
    const files: seq<Bytes>          // what the files hold
    const openable: seq<bool>        // whether open() succeeds
    const chunkSize: nat
    const slots: array<Slot>
    const tasks: array<Task>
    var current: nat
    var activeOps: int
    ghost var flight: seq<seq<nat>>  // the slots of each task, in order of offset

    /** At every step, also between feeding two slots. */
    ghost predicate Valid()
      reads this, slots, tasks
    {
      && Sound(files, openable, slots[..], tasks[..], flight)
      && activeOps == Busy(slots[..], false)
      && 0 < chunkSize && current <= tasks.Length
      && forall t {:trigger tasks[t]} :: 0 <= t < current ==> tasks[t].readsDone
    }

    /** Between calls: nothing waits that could be fed. */
    ghost predicate Ready()
      reads this, slots, tasks
    {
      Valid() && AllSettled(slots[..], tasks[..], flight, -1)
    }

    constructor (files: seq<Bytes>, openable: seq<bool>, chunkSize: nat, depth: nat)
      requires |openable| == |files| && 0 < chunkSize
      ensures Ready() && this.files == files && this.openable == openable && slots.Length == depth && tasks.Length == |files|
    {
      this.files, this.openable, this.chunkSize := files, openable, chunkSize;
      slots := new Slot[depth](_ => Free);
      tasks := new Task[|files|](t requires 0 <= t < |files| => NewTask(|files[t]|));
      current, activeOps := 0, 0;
      flight := seq(|files|, t => []);
      new;
      StartIsSound(files, openable, slots[..], tasks[..], flight);
    }

    lemma Parts()
      requires Valid()
      ensures Sound(files, openable, slots[..], tasks[..], flight) && activeOps == Busy(slots[..], false)
      ensures 0 < chunkSize && current <= tasks.Length == |openable| == |files| == |flight|
      ensures forall t {:trigger tasks[t]} :: 0 <= t < current ==> tasks[t].readsDone
    {
    }

    lemma Whole()
      requires Sound(files, openable, slots[..], tasks[..], flight) && activeOps == Busy(slots[..], false)
      requires 0 < chunkSize && current <= tasks.Length
      requires forall t {:trigger tasks[t]} :: 0 <= t < current ==> tasks[t].readsDone
      ensures Valid()
    {
    }

    lemma ReadyIs()
      ensures Ready() <==> Valid() && AllSettled(slots[..], tasks[..], flight, -1)
    {
    }

    /** Asks for the next part of the first file that has any left, into a free slot. */
    method SubmitNextRead(i: nat)
      requires Ready() && i < slots.Length && slots[i].Free?
      modifies this`current, this`activeOps, this`flight, slots, tasks
      ensures Ready()
      ensures slots[..] == old(slots[..])[i := slots[i]]
      ensures slots[i].Free? ==> AllRead(tasks[..])
      ensures AllRead(old(tasks[..])) ==> AllRead(tasks[..])
      ensures Left(tasks[..], slots[..]) <= Left(old(tasks[..]), old(slots[..]))
      ensures slots[i].Free? || FirstAsked(old(tasks[..]), tasks[..], slots[i], chunkSize)
      decreases tasks.Length - current
    {
      hide *;
      ReadyIs();
      Parts();
      TaskFacts(files, openable, slots[..], tasks[..], flight);
      var t := current;
      while t < tasks.Length && (tasks[t].readsDone || tasks[t].done)
        invariant current <= t <= tasks.Length && forall u {:trigger tasks[u]} :: 0 <= u < t ==> tasks[u].readsDone
      {
        assert tasks[..][t] == tasks[t];
        t := t + 1;
      }
      if t == tasks.Length {
        ReadAll(tasks[..]);
        return;
      }
      assert tasks[..][t] == tasks[t];
      if !tasks[t].isOpen && (!openable[t] || tasks[t].size == 0) {
        LeftIs(tasks[..], slots[..]);
        ghost var a := tasks[..];
        Pass(t);
        LeftIs(tasks[..], slots[..]);
        ghost var a1 := tasks[..];
        SubmitNextRead(i);
        PassThenAsk(a, a1, tasks[..], t, slots[i], chunkSize);
        return;
      }
      NotAllRead(tasks[..], t);
      ghost var a := tasks[..];
      Ask(i, t);
      AskedReads(a, tasks[..], slots[i], chunkSize);
    }

    /** Opens the file, if this is its first part, and asks for the next one. */
    method Ask(i: nat, t: nat)
      requires Ready() && i < slots.Length && slots[i].Free?
      requires current <= t < tasks.Length && !tasks[t].readsDone && openable[t] && 0 < tasks[t].size
      requires forall u {:trigger tasks[u]} :: 0 <= u < t ==> tasks[u].readsDone
      modifies this`current, this`activeOps, this`flight, slots, tasks
      ensures Ready() && slots[..] == old(slots[..])[i := slots[i]]
      ensures FirstAsked(old(tasks[..]), tasks[..], slots[i], chunkSize)
      ensures Left(tasks[..], slots[..]) < Left(old(tasks[..]), old(slots[..]))
    {
      hide *;
      ReadyIs();
      Parts();
      TaskFacts(files, openable, slots[..], tasks[..], flight);
      assert tasks[..][t] == tasks[t];
      var task := tasks[t];
      var chunk := chunkSize;
      if task.readOffset + chunk > task.size {
        chunk := task.size - task.readOffset;
      }
      SubmitKeeps(files, openable, slots[..], tasks[..], flight, t, i, chunk);
      SubmitLeft(tasks[..], slots[..], t, i, chunk);
      BusyUpdate(slots[..], i, Reading(t, task.readOffset, chunk), false);
      slots[i] := Reading(t, task.readOffset, chunk);
      task := task.(isOpen := true, readOffset := task.readOffset + chunk);
      if task.readOffset >= task.size {
        task := task.(readsDone := true);
        current := t + 1;
      }
      activeOps := activeOps + 1;
      task := task.(activeOps := task.activeOps + 1);
      AskIs(tasks[..], t, task, chunk, chunkSize);
      tasks[t] := task;
      flight := flight[t := flight[t] + [i]];
      Whole();
      ReadyIs();
    }

    /** Passes over a file that cannot be opened, or finishes an empty one. */
    method Pass(t: nat)
      requires Ready() && current <= t < tasks.Length && !tasks[t].readsDone && !tasks[t].isOpen
      requires !openable[t] || tasks[t].size == 0
      requires forall u {:trigger tasks[u]} :: 0 <= u < t ==> tasks[u].readsDone
      modifies this`current, tasks
      ensures Ready() && current == t + 1
      ensures AllRead(old(tasks[..])) ==> AllRead(tasks[..])
      ensures Unread(tasks[..]) == Unread(old(tasks[..]))
      ensures tasks[..] == old(tasks[..])[t := tasks[t]] && tasks[t].readsDone
    {
      hide *;
      ReadyIs();
      Parts();
      PassKeeps(files, openable, slots[..], tasks[..], flight, t);
      TaskFacts(files, openable, slots[..], tasks[..], flight);
      assert tasks[..][t] == tasks[t];
      var task := tasks[t].(readsDone := true);
      if openable[t] {
        task := task.(printed := task.printed + [task.digest]);
      }
      task := task.(done := true);
      UnreadUpdate(tasks[..], t, task);
      ReadStays(tasks[..], t, task);
      tasks[t] := task;
      current := t + 1;
      Whole();
      ReadyIs();
    }

    /** Feeds one slot to the digest of its file and frees it. */
    method Feed(i: nat, t: nat)
      requires Valid() && t < tasks.Length && i < slots.Length && AllSettled(slots[..], tasks[..], flight, t)
      requires Feedable(slots[i], t, tasks[t].hashOffset)
      modifies this`activeOps, this`flight, slots, tasks
      ensures Valid() && AllSettled(slots[..], tasks[..], flight, t)
      ensures SameReads(old(slots[..]), slots[..]) && SameAsked(old(tasks[..]), tasks[..])
      ensures Busy(slots[..], false) == Busy(old(slots[..]), false) - 1
    {
      hide *;
      Parts();
      FeedableIs(slots[i], t, tasks[t].hashOffset);
      assert slots[..][i] == slots[i] && tasks[..][t] == tasks[t];
      FeedKeeps(files, openable, slots[..], tasks[..], flight, i);
      BusyUpdate(slots[..], i, Free, false);
      SameReadsFreed(slots[..], i);
      var s, task := slots[i], tasks[t];
      var task' := task.(digest := task.digest + s.data, hashOffset := task.hashOffset + |s.data|);
      SameAskedOne(tasks[..], t, task'.(activeOps := task.activeOps - 1));
      slots[i] := Free;
      activeOps := activeOps - 1;
      tasks[t] := task'.(activeOps := task.activeOps - 1);
      flight := flight[t := flight[t][1..]];
      Whole();
    }

    /** Finishes a file all of which has been fed, and no other. */
    method Finish(t: nat)
      requires Valid() && t < tasks.Length && openable[t] && AllSettled(slots[..], tasks[..], flight, t)
      requires forall j {:trigger slots[j]} :: 0 <= j < slots.Length ==> !Feedable(slots[j], t, tasks[t].hashOffset)
      modifies tasks
      ensures Ready() && SameAsked(old(tasks[..]), tasks[..])
    {
      hide *;
      Parts();
      TaskFacts(files, openable, slots[..], tasks[..], flight);
      assert tasks[..][t] == tasks[t];
      NoneFeedable(files, openable, slots[..], tasks[..], flight, t);
      SameAskedItself(tasks[..]);
      if tasks[t].readsDone && tasks[t].activeOps == 0 && !tasks[t].done {
        FinishKeeps(files, openable, slots[..], tasks[..], flight, t);
        var task := tasks[t].(printed := tasks[t].printed + [tasks[t].digest], isOpen := false, done := true);
        SameAskedOne(tasks[..], t, task);
        tasks[t] := task;
      }
      Whole();
      ReadyIs();
    }

    /** `drain_completed`: feeds, in the order of the file, the slots that have
        arrived, looking through all slots afresh after each. */
    method Drain(t: nat)
      requires Valid() && t < tasks.Length && openable[t] && AllSettled(slots[..], tasks[..], flight, t)
      modifies this`activeOps, this`flight, slots, tasks
      ensures Ready()
      ensures SameReads(old(slots[..]), slots[..]) && SameAsked(old(tasks[..]), tasks[..])
    {
      hide *;
      SameReadsItself(slots[..]);
      SameAskedItself(tasks[..]);
      var progress := true;
      while progress
        invariant Valid() && AllSettled(slots[..], tasks[..], flight, t)
        invariant SameReads(old(slots[..]), slots[..]) && SameAsked(old(tasks[..]), tasks[..])
        invariant !progress ==> forall j {:trigger slots[j]} :: 0 <= j < slots.Length ==> !Feedable(slots[j], t, tasks[t].hashOffset)
        decreases Busy(slots[..], false) + if progress then 1 else 0
      {
        progress := false;
        for i := 0 to slots.Length
          invariant forall j {:trigger slots[j]} :: 0 <= j < i ==> !Feedable(slots[j], t, tasks[t].hashOffset)
        {
          if Feedable(slots[i], t, tasks[t].hashOffset) {
            ghost var s, a := slots[..], tasks[..];
            Feed(i, t);
            SameReadsJoin(old(slots[..]), s, slots[..]);
            SameAskedJoin(old(tasks[..]), a, tasks[..]);
            progress := true;
            break;
          }
        }
      }
      ghost var a := tasks[..];
      Finish(t);
      SameAskedJoin(old(tasks[..]), a, tasks[..]);
    }

    /** `on_read_complete` for a read that brought all that was asked for. */
    method OnReadComplete(i: nat)
      requires Ready() && i < slots.Length && slots[i].Reading?
      modifies this`activeOps, this`flight, slots, tasks
      ensures Ready() && SameAsked(old(tasks[..]), tasks[..])
      ensures Left(tasks[..], slots[..]) < Left(old(tasks[..]), old(slots[..]))
    {
      hide *;
      ReadyIs();
      Parts();
      assert slots[..][i] == slots[i];
      UsedIsUnfinished(files, openable, slots[..], tasks[..], flight, i);
      ReadFits(files, openable, slots[..], tasks[..], flight, i);
      var s := slots[i];
      var data := files[s.task][s.offset..s.offset + s.bytes];
      ArriveKeeps(files, openable, slots[..], tasks[..], flight, i, data);
      BusyUpdate(slots[..], i, Done(s.task, s.offset, data), false);
      BusyUpdate(slots[..], i, Done(s.task, s.offset, data), true);
      LeftIs(tasks[..], slots[..]);
      slots[i] := Done(s.task, s.offset, data);
      Whole();
      ghost var was := slots[..];
      Drain(s.task);
      SameLeft(old(tasks[..]), tasks[..], was, slots[..]);
      LeftIs(tasks[..], slots[..]);
    }

    /** A wait that does not time out runs at least one callback, for reads in any order. */
    method Wait()
      requires Ready() && AnyReading(slots[..])
      modifies this`activeOps, this`flight, slots, tasks
      ensures Ready() && SameAsked(old(tasks[..]), tasks[..])
      ensures Left(tasks[..], slots[..]) < Left(old(tasks[..]), old(slots[..]))
    {
      hide *;
      var i := AReadingSlot(slots[..]);
      OnReadComplete(i);
      var more: bool := *;
      while more
        invariant Ready() && SameAsked(old(tasks[..]), tasks[..])
        invariant Left(tasks[..], slots[..]) < Left(old(tasks[..]), old(slots[..]))
        decreases Left(tasks[..], slots[..]), more
      {
        var j: nat :| 0 <= j;
        if j < slots.Length && slots[j].Reading? {
          ghost var a := tasks[..];
          OnReadComplete(j);
          SameAskedJoin(old(tasks[..]), a, tasks[..]);
          more := *;
        } else {
          more := false;
        }
      }
    }

    /** `hash_pipeline`, without errors or interruption; at most `idle` of its waits
        time out without a completion. It ends, and for every file that can be opened one digest has been printed, fed with the whole
        file. */
    method Run(idle: nat)
      requires Ready() && 0 < slots.Length
      modifies this`current, this`activeOps, this`flight, slots, tasks
      ensures Ready() && activeOps == 0
      ensures forall t {:trigger tasks[t]} :: 0 <= t < tasks.Length ==>
        tasks[t].done && tasks[t].printed == if openable[t] then [files[t]] else []
    {
      hide *;
      var quiet := idle;
      Fill();
      var finished := AllTasksDone();
      while !finished
        invariant Ready() && Filled(slots[..], tasks[..], slots.Length)
        invariant finished <==> forall t {:trigger tasks[t]} :: 0 <= t < tasks.Length ==> tasks[t].done
        decreases Left(tasks[..], slots[..]) + quiet, !finished
      {
        ghost var l := Left(tasks[..], slots[..]);
        ghost var t :| 0 <= t < tasks.Length && !tasks[t].done;
        ReadyIs();
        Parts();
        assert tasks[..][t] == tasks[t];
        NeverStalls(files, openable, slots[..], tasks[..], flight, t);
        var nothing: bool := *;
        if nothing && quiet > 0 {
          quiet := quiet - 1;
        } else {
          Wait();
        }
        Fill();
        finished := AllTasksDone();
      }
      ReadyIs();
      Parts();
      assert forall t :: 0 <= t < |tasks[..]| ==> tasks[..][t] == tasks[t];
      FinishedIsIdle(files, openable, slots[..], tasks[..], flight);
    }

    /** Gives every free slot something to read. */
    method Fill()
      requires Ready()
      modifies this`current, this`activeOps, this`flight, slots, tasks
      ensures Ready() && Filled(slots[..], tasks[..], slots.Length)
      ensures Left(tasks[..], slots[..]) <= Left(old(tasks[..]), old(slots[..]))
    {
      hide *;
      NoneFilled(slots[..], tasks[..]);
      for i := 0 to slots.Length
        invariant Ready() && Filled(slots[..], tasks[..], i)
        invariant Left(tasks[..], slots[..]) <= Left(old(tasks[..]), old(slots[..]))
      {
        ghost var s, a := slots[..], tasks[..];
        if slots[i].Free? {
          SubmitNextRead(i);
        }
        FilledMore(s, a, slots[..], tasks[..], i);
      }
    }

    method AllTasksDone() returns (all: bool)
      ensures all <==> forall t {:trigger tasks[t]} :: 0 <= t < tasks.Length ==> tasks[t].done
    {
      for t := 0 to tasks.Length
        invariant forall u {:trigger tasks[u]} :: 0 <= u < t ==> tasks[u].done
      {
        if !tasks[t].done {
          return false;
        }
      }
      return true;
    }
  }

  // --------------------------------------------------------- what a submit asks for

  /** The slot reads the next part of the first file that has any left: a whole
      chunk, or the rest of the file. Files passed over on the way have nothing left. */
  ghost predicate FirstAsked(tasks: seq<Task>, tasks': seq<Task>, s: Slot, chunkSize: nat)
  {
    && s.Reading? && s.task < |tasks| == |tasks'|
    && var t := s.task;
       && !tasks[t].readsDone && tasks[t].readOffset + s.bytes <= tasks[t].size && s.offset == tasks[t].readOffset
       && (s.bytes == chunkSize || (s.bytes < chunkSize && s.offset + s.bytes == tasks[t].size))
       && tasks'[t] == tasks[t].(isOpen := true, readOffset := s.offset + s.bytes,
                                 readsDone := s.offset + s.bytes == tasks[t].size, activeOps := tasks[t].activeOps + 1)
       && (forall u {:trigger tasks'[u]} :: 0 <= u < t ==> tasks'[u].readsDone && (tasks[u].readsDone ==> tasks'[u] == tasks[u]))
       && (forall u {:trigger tasks'[u]} :: t < u < |tasks| ==> tasks'[u] == tasks[u])
  }

  lemma AskIs(tasks: seq<Task>, t: nat, task: Task, chunk: nat, chunkSize: nat)
    requires t < |tasks| && !tasks[t].readsDone && tasks[t].readOffset + chunk <= tasks[t].size
    requires chunk == chunkSize || (chunk < chunkSize && tasks[t].readOffset + chunk == tasks[t].size)
    requires task == tasks[t].(isOpen := true, readOffset := tasks[t].readOffset + chunk,
                               readsDone := tasks[t].readOffset + chunk >= tasks[t].size, activeOps := tasks[t].activeOps + 1)
    requires forall u :: 0 <= u < t ==> tasks[u].readsDone
    ensures FirstAsked(tasks, tasks[t := task], Reading(t, tasks[t].readOffset, chunk), chunkSize)
  {
  }

  lemma AskedReads(tasks: seq<Task>, tasks': seq<Task>, s: Slot, chunkSize: nat)
    requires FirstAsked(tasks, tasks', s, chunkSize)
    ensures s.Reading?
  {
  }

  lemma PassThenAsk(tasks: seq<Task>, passed: seq<Task>, tasks': seq<Task>, t: nat, s: Slot, chunkSize: nat)
    requires t < |tasks| && !tasks[t].readsDone && |passed| == |tasks| && passed == tasks[t := passed[t]] && passed[t].readsDone
    requires forall u {:trigger tasks[u]} :: 0 <= u < t ==> tasks[u].readsDone
    ensures FirstAsked(passed, tasks', s, chunkSize) ==> FirstAsked(tasks, tasks', s, chunkSize)
  {
  }

  predicate Feedable(s: Slot, t: nat, at: nat)
  {
    s.Done? && s.task == t && s.offset == at
  }

  lemma FeedableIs(s: Slot, t: nat, at: nat)
    ensures Feedable(s, t, at) <==> s.Done? && s.task == t && s.offset == at
  {
  }

  lemma NoneFeedable(files: seq<Bytes>, openable: seq<bool>, slots: seq<Slot>, tasks: seq<Task>, flight: seq<seq<nat>>, t: nat)
    requires Sound(files, openable, slots, tasks, flight) && AllSettled(slots, tasks, flight, t) && t < |tasks|
    requires forall j {:trigger slots[j]} :: 0 <= j < |slots| ==> !Feedable(slots[j], t, tasks[t].hashOffset)
    ensures !(tasks[t].readsDone && tasks[t].activeOps == 0 && !tasks[t].done) ==> AllSettled(slots, tasks, flight, -1)
  {
    DrainedIsSettled(files, openable, slots, tasks, flight, t);
    assert TaskAt(files, openable, slots, tasks, flight, t);
  }

  lemma ReadFits(files: seq<Bytes>, openable: seq<bool>, slots: seq<Slot>, tasks: seq<Task>, flight: seq<seq<nat>>, i: nat)
    requires Sound(files, openable, slots, tasks, flight) && i < |slots| && slots[i].Reading?
    ensures slots[i].task < |files| && slots[i].offset + slots[i].bytes <= |files[slots[i].task]|
  {
    var t := slots[i].task;
    assert TaskAt(files, openable, slots, tasks, flight, t);
    TiledBounds(slots, flight[t], t, files[t], tasks[t].hashOffset, tasks[t].readOffset);
    var k :| 0 <= k < |flight[t]| && flight[t][k] == i;
  }

  method AReadingSlot(slots: seq<Slot>) returns (i: nat)
    requires AnyReading(slots)
    ensures i < |slots| && slots[i].Reading?
  {
    i :| i < |slots| && slots[i].Reading?;
  }

  /** The same reads are in flight. */
  ghost predicate SameReads(slots: seq<Slot>, slots': seq<Slot>)
  {
    |slots| == |slots'| && forall i {:trigger slots[i]} {:trigger slots'[i]} :: 0 <= i < |slots| ==> slots[i].Reading? == slots'[i].Reading?
  }

  /** As much has been asked for. */
  ghost predicate SameAsked(tasks: seq<Task>, tasks': seq<Task>)
  {
    |tasks| == |tasks'| && forall t {:trigger tasks[t]} {:trigger tasks'[t]} :: 0 <= t < |tasks| ==>
      tasks'[t].readOffset == tasks[t].readOffset && tasks'[t].size == tasks[t].size && tasks'[t].readsDone == tasks[t].readsDone
  }

  lemma SameReadsItself(slots: seq<Slot>)
    ensures SameReads(slots, slots)
  {
  }

  lemma SameAskedItself(tasks: seq<Task>)
    ensures SameAsked(tasks, tasks)
  {
  }

  lemma SameReadsFreed(slots: seq<Slot>, i: nat)
    requires i < |slots| && slots[i].Done?
    ensures SameReads(slots, slots[i := Free])
  {
  }

  lemma SameAskedOne(tasks: seq<Task>, t: nat, task: Task)
    requires t < |tasks| && task.readOffset == tasks[t].readOffset && task.size == tasks[t].size && task.readsDone == tasks[t].readsDone
    ensures SameAsked(tasks, tasks[t := task])
  {
  }

  lemma SameReadsJoin(a: seq<Slot>, b: seq<Slot>, c: seq<Slot>)
    requires SameReads(a, b) && SameReads(b, c)
    ensures SameReads(a, c)
  {
  }

  lemma SameAskedJoin(a: seq<Task>, b: seq<Task>, c: seq<Task>)
    requires SameAsked(a, b) && SameAsked(b, c)
    ensures SameAsked(a, c)
  {
  }

  lemma {:induction false} SameBusy(slots: seq<Slot>, slots': seq<Slot>)
    requires SameReads(slots, slots')
    ensures Busy(slots, true) == Busy(slots', true)
  {
    if slots != [] {
      var n := |slots| - 1;
      assert slots[n].Reading? == slots'[n].Reading?;
      SameBusy(slots[..n], slots'[..n]);
    }
  }

  lemma {:induction false} SameUnread(tasks: seq<Task>, tasks': seq<Task>)
    requires SameAsked(tasks, tasks')
    ensures Unread(tasks) == Unread(tasks')
  {
    if tasks != [] {
      var n := |tasks| - 1;
      assert tasks[n].readOffset == tasks'[n].readOffset;
      SameUnread(tasks[..n], tasks'[..n]);
    }
  }

  lemma SameLeft(tasks: seq<Task>, tasks': seq<Task>, slots: seq<Slot>, slots': seq<Slot>)
    requires SameReads(slots, slots') && SameAsked(tasks, tasks')
    ensures Busy(slots, true) == Busy(slots', true) && Unread(tasks) == Unread(tasks')
  {
    SameBusy(slots, slots');
    SameUnread(tasks, tasks');
  }

  lemma NoneFilled(slots: seq<Slot>, tasks: seq<Task>)
    ensures Filled(slots, tasks, 0)
  {
  }

  lemma FilledMore(slots: seq<Slot>, tasks: seq<Task>, slots': seq<Slot>, tasks': seq<Task>, i: nat)
    requires Filled(slots, tasks, i) && i < |slots| && |slots'| == |slots|
    requires slots' == slots[i := slots'[i]] && (slots'[i].Free? ==> AllRead(tasks'))
    requires AllRead(tasks) ==> AllRead(tasks')
    ensures Filled(slots', tasks', i + 1)
  {
  }

  lemma ReadAll(tasks: seq<Task>)
    requires forall t :: 0 <= t < |tasks| ==> tasks[t].readsDone
    ensures AllRead(tasks)
  {
  }

  lemma NotAllRead(tasks: seq<Task>, t: nat)
    requires t < |tasks| && !tasks[t].readsDone
    ensures !AllRead(tasks)
  {
  }

  lemma LeftIs(tasks: seq<Task>, slots: seq<Slot>)
    ensures Left(tasks, slots) == 2 * Unread(tasks) + Busy(slots, true)
  {
  }

  lemma ReadStays(tasks: seq<Task>, t: nat, task: Task)
    requires t < |tasks| && (tasks[t].readsDone ==> task.readsDone)
    ensures AllRead(tasks) ==> AllRead(tasks[t := task])
  {
  }

  lemma SubmitLeft(tasks: seq<Task>, slots: seq<Slot>, t: nat, i: nat, chunk: nat)
    requires t < |tasks| && i < |slots| && slots[i].Free? && 0 < chunk && tasks[t].readOffset + chunk <= tasks[t].size
    ensures forall task: Task {:trigger tasks[t := task]} :: task.size == tasks[t].size && task.readOffset == tasks[t].readOffset + chunk ==>
      Left(tasks[t := task], slots[i := Reading(t, tasks[t].readOffset, chunk)]) < Left(tasks, slots)
  {
    BusyUpdate(slots, i, Reading(t, tasks[t].readOffset, chunk), true);
    forall task: Task {:trigger tasks[t := task]} | task.size == tasks[t].size && task.readOffset == tasks[t].readOffset + chunk
      ensures Left(tasks[t := task], slots[i := Reading(t, tasks[t].readOffset, chunk)]) < Left(tasks, slots)
    {
      UnreadUpdate(tasks, t, task);
    }
  }
}
