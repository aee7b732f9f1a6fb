/**
 * The task queue's bookkeeping, run sequentially: a FIFO backlog of tasks
 * (a deque, optionally bounded), the `workers` dictionary from each worker
 * to the task it last took (or `None`), and one pass of a worker's polling
 * loop as a single step. Threads, sleeping, signals crossing threads and
 * the `on_spawn` hook are not part of this model; a worker is named by the
 * number of its spawn, and the dictionary's insertion order is `order`.
 */
module Tasks {

  import opened Wrappers
  import Text

  /** A worker, named by the number of its spawn: no two workers share one. */
  type WorkerId = nat

  /**
   * What a worker thread keeps for itself: its object name, whether it is re-spawned when it
   * finishes, the `start` flag it was spawned with (which its re-spawn reuses), whether the
   * thread is running, and its `empty` flag.
   */
  datatype Thread = Thread(name: Option<string>, readdOnCrash: bool, start: bool, running: bool, empty: bool)

  /** `get_busy_threads` on a dictionary: the workers with a task, and their tasks. */
  function Busy<T>(workers: map<WorkerId, Option<T>>): (r: map<WorkerId, T>)
    ensures forall w :: w in r <==> w in workers && workers[w].Some?
    ensures forall w :: w in r ==> workers[w] == Some(r[w])
  {
    map w | w in workers && workers[w].Some? :: workers[w].value
  }

  /** `thread_with_task` on a dictionary listed in `order`: the first worker whose entry is `task`. */
  function FirstWithTask<T(==)>(order: seq<WorkerId>, workers: map<WorkerId, Option<T>>, task: T): (r: Option<WorkerId>)
    requires forall w :: w in order ==> w in workers
    ensures r.None? <==> forall i :: 0 <= i < |order| ==> workers[order[i]] != Some(task)
    ensures r.Some? ==> exists i :: 0 <= i < |order| && order[i] == r.value && workers[r.value] == Some(task) &&
                                 forall j :: 0 <= j < i ==> workers[order[j]] != Some(task)
  {
    if |order| == 0 then None
    else if workers[order[0]] == Some(task) then Some(order[0])
    else
      var r := FirstWithTask(order[1..], workers, task);
      if r.Some? then
        assert forall i :: 0 < i < |order| ==> order[i] == order[1..][i - 1];
        Some(r.value)
      else
        assert forall i :: 0 < i < |order| ==> order[i] == order[1..][i - 1];
        None
  }

  /** `FirstWithTask` looks at the head, then at the rest. */
  lemma FirstWithTaskStep<T>(order: seq<WorkerId>, workers: map<WorkerId, Option<T>>, task: T)
    requires |order| > 0 && forall w :: w in order ==> w in workers
    ensures FirstWithTask(order, workers, task) ==
      if workers[order[0]] == Some(task) then Some(order[0]) else FirstWithTask(order[1..], workers, task)
  {
  }

  /** A worker holds `task` exactly when `thread_with_task` finds one, and the one it finds is busy with `task`. */
  lemma FirstWithTaskIsBusy<T>(order: seq<WorkerId>, workers: map<WorkerId, Option<T>>, task: T)
    requires forall w :: w in workers <==> w in order
    ensures FirstWithTask(order, workers, task).Some? <==> exists w :: w in Busy(workers) && Busy(workers)[w] == task
    ensures FirstWithTask(order, workers, task).Some? ==> Busy(workers)[FirstWithTask(order, workers, task).value] == task
  {
    var b := Busy(workers);
    if w :| w in b && b[w] == task {
      var i :| 0 <= i < |order| && order[i] == w;
    }
  }

  /** No worker appears twice in the dictionary's order. */
  ghost predicate Distinct(order: seq<WorkerId>) {
    forall i, j :: 0 <= i < j < |order| ==> order[i] != order[j]
  }

  /** `order` without `w`. */
  function Remove(order: seq<WorkerId>, w: WorkerId): (r: seq<WorkerId>)
    ensures forall x :: x in r <==> x in order && x != w
    ensures w !in order ==> r == order
    ensures Distinct(order) ==> Distinct(r) && (w in order ==> |r| == |order| - 1)
  {
    if |order| == 0 then []
    else
      var rest := Remove(order[1..], w);
      assert Distinct(order) ==> Distinct(order[1..]) && order[0] !in order[1..];
      if order[0] == w then rest else [order[0]] + rest
  }

  /** The workers of `threads` whose thread is running. */
  function RunningIn(threads: map<WorkerId, Thread>): (r: set<WorkerId>)
    ensures forall w :: w in r <==> w in threads && threads[w].running
  {
    set w | w in threads && threads[w].running
  }

  /** Stopping a running worker, or replacing it by a new worker, changes the running set by that worker alone. */
  lemma RunningAfterReplace(threads: map<WorkerId, Thread>, w: WorkerId, r: WorkerId, t: Thread)
    requires w in threads && threads[w].running && r !in threads
    ensures RunningIn(threads[w := threads[w].(running := false)]) == RunningIn(threads) - {w}
    ensures RunningIn((threads - {w})[r := t]) == RunningIn(threads) - {w} + (if t.running then {r} else {})
    ensures |RunningIn(threads) - {w}| == |RunningIn(threads)| - 1
  {
    var a := RunningIn(threads[w := threads[w].(running := false)]);
    assert forall x :: x in a <==> x in RunningIn(threads) - {w};
    var b := RunningIn((threads - {w})[r := t]);
    assert forall x :: x in b <==> x in RunningIn(threads) - {w} + (if t.running then {r} else {});
  }

  /** `TaskQueue`: the backlog and the workers' dictionary. */
  class TaskQueue<T(==)> {
    /** The deque's items, front first. */
    var backlog: seq<T>
    /** `maxlen`; 0 stands for no bound (`maxlen` `None` or 0). */
    var maxlen: nat
    /** The workers in the dictionary's insertion order. */
    var order: seq<WorkerId>
    /** `workers`: each worker's current task. */
    var workers: map<WorkerId, Option<T>>
    /** Each worker thread's own state. */
    var threads: map<WorkerId, Thread>
    /** The number the next spawned worker gets. */
    var nextId: nat
    /** The `error` signals sent so far: the worker and the task whose `run` raised. */
    var errors: seq<(WorkerId, T)>
    /** Every task appended, in order, and every task that left the front of the deque, in order. */
    ghost var appended: seq<T>
    ghost var departed: seq<T>

    ghost predicate Valid()
      reads this
    {
      && Distinct(order)
      && (forall w :: w in workers <==> w in order)
      && threads.Keys == workers.Keys
      && (forall w :: w in workers ==> w < nextId)
      && (maxlen > 0 ==> |backlog| <= maxlen)
      && appended == departed + backlog
    }

    /** The workers whose thread is running. */
    function Running(): (r: set<WorkerId>)
      reads this
      ensures forall w :: w in r <==> w in threads && threads[w].running
    {
      RunningIn(threads)
    }

    /**
     * `TaskQueue(worker_count, maxlen=..., new_workers_on_crash=...)`: an empty backlog and
     * `worker_count` idle workers named `"0"`, `"1"`, ... in that order, spawned with `start`
     * left False, so none of them runs yet.
     */
    constructor (workerCount: nat, maxlen: nat, newWorkersOnCrash: bool)
      ensures Valid()
      ensures backlog == [] && this.maxlen == maxlen && errors == []
      ensures |order| == workerCount
      ensures forall w :: w in workers ==> workers[w] == None
      ensures forall i :: 0 <= i < workerCount ==>
        threads[order[i]] == Thread(Some(Text.NatToString(i)), newWorkersOnCrash, false, false, false)
    {
      backlog := [];
      this.maxlen := maxlen;
      order := [];
      workers := map[];
      threads := map[];
      nextId := 0;
      errors := [];
      appended := [];
      departed := [];
      new;
      for i := 0 to workerCount
        invariant Valid()
        invariant backlog == [] && this.maxlen == maxlen && errors == []
        invariant |order| == i
        invariant forall w :: w in workers ==> workers[w] == None
        invariant forall j :: 0 <= j < i ==> threads[order[j]] == Thread(Some(Text.NatToString(j)), newWorkersOnCrash, false, false, false)
      {
        var w := SpawnNewWorker(false, newWorkersOnCrash, Some(Text.NatToString(i)));
      }
    }

    /**
     * `spawn_new_worker(start, readd_on_crash, name)`: a new worker, idle, added last to the
     * dictionary, and running exactly when `start` is set; nothing else changes.
     */
    method SpawnNewWorker(start: bool, readdOnCrash: bool, name: Option<string>) returns (w: WorkerId)
      requires Valid()
      modifies this
      ensures Valid()
      ensures w == old(nextId) && w !in old(workers) && nextId == w + 1
      ensures order == old(order) + [w]
      ensures workers == old(workers)[w := None]
      ensures threads == old(threads)[w := Thread(name, readdOnCrash, start, start, false)]
      ensures backlog == old(backlog) && maxlen == old(maxlen) && errors == old(errors)
      ensures appended == old(appended) && departed == old(departed)
    {
      w := nextId;
      assert w !in order;
      nextId := nextId + 1;
      order := order + [w];
      workers := workers[w := None];
      threads := threads[w := Thread(name, readdOnCrash, start, start, false)];
    }

    /** `start()`: every worker in the dictionary is started; a running one keeps running. */
    method Start()
      requires Valid()
      modifies this
      ensures Valid()
      ensures Running() == threads.Keys
      ensures threads.Keys == old(threads).Keys
      ensures forall w :: w in threads ==> threads[w] == old(threads)[w].(running := true)
      ensures backlog == old(backlog) && maxlen == old(maxlen) && order == old(order) && workers == old(workers)
      ensures nextId == old(nextId) && errors == old(errors) && appended == old(appended) && departed == old(departed)
    {
      var ids, ts := order, threads;
      assert forall j :: 0 <= j < |ids| ==> ids[j] in ts;
      for i := 0 to |ids|
        invariant ts.Keys == threads.Keys
        invariant forall w :: w in ts ==> ts[w] == threads[w].(running := ts[w].running)
        invariant forall w :: w in ts && threads[w].running ==> ts[w].running
        invariant forall j :: 0 <= j < i ==> ts[ids[j]].running
      {
        ts := ts[ids[i] := ts[ids[i]].(running := true)];
      }
      forall w | w in ts
        ensures ts[w].running
      {
        var j :| 0 <= j < |ids| && ids[j] == w;
      }
      threads := ts;
    }

    /**
     * `append(task)`: the task goes to the back; a bounded deque that is full
     * drops its front task first, so the length never exceeds `maxlen`.
     */
    method Append(task: T)
      requires Valid()
      modifies this
      ensures Valid()
      ensures old(maxlen) > 0 && |old(backlog)| == old(maxlen) ==> backlog == old(backlog)[1..] + [task]
      ensures !(old(maxlen) > 0 && |old(backlog)| == old(maxlen)) ==> backlog == old(backlog) + [task]
      ensures appended == old(appended) + [task]
      ensures maxlen == old(maxlen) && order == old(order) && workers == old(workers)
      ensures threads == old(threads) && nextId == old(nextId) && errors == old(errors)
    {
      if maxlen > 0 && |backlog| == maxlen {
        departed := departed + [backlog[0]];
        backlog := backlog[1..] + [task];
      } else {
        backlog := backlog + [task];
      }
      appended := appended + [task];
    }

    /** `popleft()` on a non-empty deque: the front task leaves. */
    method PopLeft() returns (task: T)
      requires Valid() && |backlog| > 0
      modifies this
      ensures Valid()
      ensures task == old(backlog)[0] && backlog == old(backlog)[1..]
      ensures appended == old(appended) && departed == old(departed) + [task]
      ensures maxlen == old(maxlen) && order == old(order) && workers == old(workers)
      ensures threads == old(threads) && nextId == old(nextId) && errors == old(errors)
    {
      task := backlog[0];
      departed := departed + [task];
      backlog := backlog[1..];
    }

    /**
     * One pass of `TaskWorker.run`'s loop for worker `w`, whose thread runs. With tasks waiting, the worker takes
     * the front one, its entry becomes that task and its `empty` flag clears; if the task's `run`
     * raises (`raises`), an `error` is sent and the worker carries on. With none waiting, the
     * entry is set to `None` on the first such poll only; later polls change nothing.
     */
    method WorkerStep(w: WorkerId, raises: bool) returns (taken: Option<T>)
      requires Valid() && w in workers && threads[w].running
      modifies this
      ensures Valid()
      ensures taken.Some? <==> |old(backlog)| > 0
      ensures taken.Some? ==>
        && taken.value == old(backlog)[0]
        && backlog == old(backlog)[1..]
        && workers == old(workers)[w := taken]
        && threads == old(threads)[w := old(threads)[w].(empty := false)]
        && errors == old(errors) + (if raises then [(w, taken.value)] else [])
      ensures taken.None? ==>
        && backlog == old(backlog) && errors == old(errors)
        && (old(threads)[w].empty ==> workers == old(workers) && threads == old(threads))
        && (!old(threads)[w].empty ==>
              workers == old(workers)[w := None] && threads == old(threads)[w := old(threads)[w].(empty := true)])
      ensures appended == old(appended)
      ensures maxlen == old(maxlen) && order == old(order) && nextId == old(nextId)
    {
      if |backlog| == 0 {
        taken := None;
        if !threads[w].empty {
          workers := workers[w := None];
          threads := threads[w := threads[w].(empty := true)];
        }
      } else {
        var task := PopLeft();
        taken := Some(task);
        threads := threads[w := threads[w].(empty := false)];
        workers := workers[w := taken];
        if raises {
          errors := errors + [(w, task)];
        }
      }
    }

    /** `self.workers.pop(w)`: the worker leaves the dictionary; nothing else changes. */
    method Retire(w: WorkerId)
      requires Valid() && w in workers
      modifies this
      ensures Valid()
      ensures order == Remove(old(order), w) && |order| == |old(order)| - 1
      ensures workers == old(workers) - {w} && threads == old(threads) - {w}
      ensures backlog == old(backlog) && errors == old(errors) && maxlen == old(maxlen) && nextId == old(nextId)
      ensures appended == old(appended) && departed == old(departed)
    {
      order := Remove(order, w);
      workers := workers - {w};
      threads := threads - {w};
    }

    /**
     * The thread of worker `w` finished (`QThread.finished`, as after `fullstop`). It no longer
     * runs. One spawned with `readd_on_crash` leaves the dictionary and `remake_worker` adds a
     * fresh idle worker last, with its name, its setting and its captured `start` flag, so the
     * replacement runs only when `start` was set; any other stays, stopped. The number of
     * workers never changes.
     */
    method Finished(w: WorkerId) returns (replacement: Option<WorkerId>)
      requires Valid() && w in workers && threads[w].running
      modifies this
      ensures Valid()
      ensures |order| == |old(order)|
      ensures replacement.Some? <==> old(threads)[w].readdOnCrash
      ensures replacement.None? ==>
        order == old(order) && workers == old(workers) && threads == old(threads)[w := old(threads)[w].(running := false)]
      ensures replacement.Some? ==>
        && replacement.value !in old(workers)
        && order == Remove(old(order), w) + [replacement.value]
        && workers == (old(workers) - {w})[replacement.value := None]
        && threads == (old(threads) - {w})[replacement.value := Thread(old(threads)[w].name, true, old(threads)[w].start, old(threads)[w].start, false)]
      ensures !old(threads)[w].start ==> |Running()| == |old(Running())| - 1
      ensures backlog == old(backlog) && errors == old(errors) && maxlen == old(maxlen)
    {
      var thread := threads[w];
      var spawned := nextId;
      RunningAfterReplace(threads, w, spawned, Thread(thread.name, true, thread.start, thread.start, false));
      if !thread.readdOnCrash {
        threads := threads[w := thread.(running := false)];
        return None;
      }
      Retire(w);
      spawned := SpawnNewWorker(thread.start, true, thread.name);
      replacement := Some(spawned);
    }

    /**
     * `remake_worker` as intended: the replacement of a finished running worker is started, so
     * a re-spawning pool keeps as many running workers as before.
     */
    method FinishedRestarting(w: WorkerId) returns (replacement: Option<WorkerId>)
      requires Valid() && w in workers && threads[w].running
      modifies this
      ensures Valid()
      ensures |order| == |old(order)|
      ensures replacement.Some? <==> old(threads)[w].readdOnCrash
      ensures replacement.None? ==>
        order == old(order) && workers == old(workers) && threads == old(threads)[w := old(threads)[w].(running := false)]
      ensures replacement.Some? ==>
        && replacement.value !in old(workers)
        && order == Remove(old(order), w) + [replacement.value]
        && workers == (old(workers) - {w})[replacement.value := None]
        && threads == (old(threads) - {w})[replacement.value := Thread(old(threads)[w].name, true, true, true, false)]
      ensures old(threads)[w].readdOnCrash ==> |Running()| == |old(Running())|
      ensures backlog == old(backlog) && errors == old(errors) && maxlen == old(maxlen)
    {
      var thread := threads[w];
      var spawned := nextId;
      RunningAfterReplace(threads, w, spawned, Thread(thread.name, true, true, true, false));
      if !thread.readdOnCrash {
        threads := threads[w := thread.(running := false)];
        return None;
      }
      Retire(w);
      spawned := SpawnNewWorker(true, true, thread.name);
      replacement := Some(spawned);
    }

    /** `thread_with_task(task)`: the first worker, in the dictionary's order, whose entry is `task`. */
    method ThreadWithTask(task: T) returns (r: Option<WorkerId>)
      requires Valid()
      ensures r == FirstWithTask(order, workers, task)
    {
      var ids, entries := order, workers;
      for i := 0 to |ids|
        invariant forall w :: w in ids[i..] ==> w in entries
        invariant FirstWithTask(ids, entries, task) == FirstWithTask(ids[i..], entries, task)
      {
        FirstWithTaskStep(ids[i..], entries, task);
        if entries[ids[i]] == Some(task) {
          return Some(ids[i]);
        }
        assert ids[i..][1..] == ids[i + 1..];
      }
      return None;
    }

    /** `get_busy_threads()`: exactly the workers with a task, with their tasks. */
    function GetBusyThreads(): (r: map<WorkerId, T>)
      reads this
      ensures forall w :: w in r <==> w in workers && workers[w].Some?
      ensures forall w :: w in r ==> workers[w] == Some(r[w])
    {
      Busy(workers)
    }
  }
}
