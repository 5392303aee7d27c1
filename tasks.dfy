/** The transfer-task registry of ui/tasks.go: a Task record per transfer,
  * referenced by pointer and updated in place by the transfer code, and a
  * TaskManager that keeps the tasks by ID together with their insertion
  * order. */
module Tasks {
  import opened Bytes

  datatype TaskStatus = Pending | Active | Completed | Failed

  /** A transfer task. Times are clock readings supplied by the caller;
    * an error is its message, None standing for Go's nil. */
  class Task {
    var id: string
    var fileName: string
    var filePath: seq<string>
    var status: TaskStatus
    var totalBytes: int
    var transferredBytes: int
    var startTime: int
    var endTime: int
    var lastUpdate: int
    var lastBytes: int
    var error: Option<string>
    var localPath: string

    /** A freshly queued transfer, as the browsers create it. */
    constructor (id: string, fileName: string, filePath: seq<string>, totalBytes: int, startTime: int)
      ensures this.id == id && this.fileName == fileName && this.filePath == filePath
      ensures this.totalBytes == totalBytes && this.startTime == startTime
      ensures status == Pending && transferredBytes == 0 && error == None && localPath == ""
    {
      this.id := id;
      this.fileName := fileName;
      this.filePath := filePath;
      this.totalBytes := totalBytes;
      this.startTime := startTime;
      status := Pending;
      transferredBytes := 0;
      endTime := 0;
      lastUpdate := 0;
      lastBytes := 0;
      error := None;
      localPath := "";
    }
  }

  /** Shown among the active transfers. */
  predicate Unfinished(t: Task)
    reads t
  {
    t.status == Pending || t.status == Active
  }

  /** Shown among the finished transfers. */
  predicate Finished(t: Task)
    reads t
  {
    t.status == Completed || t.status == Failed
  }

  /** The tasks stored under ids, in the order of ids. */
  function Lookup(m: map<string, Task>, ids: seq<string>): (r: seq<Task>)
    requires forall id :: id in ids ==> id in m
    ensures |r| == |ids| && forall i :: 0 <= i < |ids| ==> r[i] == m[ids[i]]
  {
    if ids == [] then [] else [m[ids[0]]] + Lookup(m, ids[1..])
  }

  /** The unfinished tasks of ts, in the order of ts. */
  function UnfinishedOf(ts: seq<Task>): (r: seq<Task>)
    reads ts
    ensures |r| <= |ts|
    ensures forall t :: t in r ==> t in ts && Unfinished(t)
    ensures forall t :: t in ts && Unfinished(t) ==> t in r
  {
    if ts == [] then []
    else (if Unfinished(ts[0]) then [ts[0]] else []) + UnfinishedOf(ts[1..])
  }

  /** The finished tasks of ts, in the order of ts. */
  function FinishedOf(ts: seq<Task>): (r: seq<Task>)
    reads ts
    ensures |r| <= |ts|
    ensures forall t :: t in r ==> t in ts && Finished(t)
    ensures forall t :: t in ts && Finished(t) ==> t in r
    decreases |ts|
  {
    if ts == [] then []
    else FinishedOf(ts[..|ts| - 1]) + (if Finished(ts[|ts| - 1]) then [ts[|ts| - 1]] else [])
  }

  /** Scanning ts from its last element backwards, the first `limit` finished tasks. */
  function RecentFinishedOf(ts: seq<Task>, limit: int): (r: seq<Task>)
    reads ts
    ensures |r| <= |ts| && (limit <= 0 ==> r == []) && |r| <= if limit < 0 then 0 else limit
    ensures forall t :: t in r ==> t in ts && Finished(t)
    decreases |ts|
  {
    if ts == [] || limit <= 0 then []
    else
      var last := ts[|ts| - 1];
      if Finished(last) then [last] + RecentFinishedOf(ts[..|ts| - 1], limit - 1)
      else RecentFinishedOf(ts[..|ts| - 1], limit)
  }

  class TaskManager {
    var tasks: map<string, Task>
    var order: seq<string>

    /** Every ID in the chronological order names a stored task. */
    ghost predicate Valid()
      reads this
    {
      forall id :: id in order ==> id in tasks
    }

    /** The stored tasks in insertion order (a task added twice appears twice). */
    function Chronological(): (r: seq<Task>)
      reads this
      requires Valid()
      ensures |r| == |order|
    {
      Lookup(tasks, order)
    }

    /** NewTaskManager: no tasks and an empty order. */
    constructor ()
      ensures Valid() && tasks == map[] && order == []
    {
      tasks := map[];
      order := [];
    }

    /** Stores t under its ID (replacing any task with that ID) and appends the ID to the order. */
    method Add(t: Task)
      requires Valid()
      modifies this
      ensures Valid()
      ensures tasks == old(tasks)[t.id := t]
      ensures order == old(order) + [t.id]
    {
      tasks := tasks[t.id := t];
      order := order + [t.id];
    }

    /** The task stored under id, or None (Go's nil) when there is none. */
    method Get(id: string) returns (r: Option<Task>)
      ensures r.Some? <==> id in tasks
      ensures r.Some? ==> r.value == tasks[id]
    {
      if id in tasks {
        r := Some(tasks[id]);
      } else {
        r := None;
      }
    }

    /** The Pending and Active tasks in insertion order. */
    method GetActive() returns (active: seq<Task>)
      requires Valid()
      ensures active == UnfinishedOf(Chronological())
    {
      active := [];
      var i := 0;
      while i < |order|
        invariant 0 <= i <= |order|
        invariant active == UnfinishedOf(Lookup(tasks, order[..i]))
      {
        var task := tasks[order[i]];
        if task.status == Active || task.status == Pending {
          active := active + [task];
        }
        UnfinishedOfAppend(Lookup(tasks, order[..i]), task);
        LookupPrefix(tasks, order, i);
        i := i + 1;
      }
      assert order[..i] == order;
    }

    /** Up to limit Completed or Failed tasks, newest first. */
    method GetCompleted(limit: int) returns (completed: seq<Task>)
      requires Valid()
      ensures completed == RecentFinishedOf(Chronological(), limit)
    {
      completed := [];
      var i := |order| - 1;
      ghost var prefix := Chronological();
      assert order[..i + 1] == order;
      assert completed + RecentFinishedOf(prefix, limit) == RecentFinishedOf(prefix, limit);
      while i >= 0 && |completed| < limit
        invariant -1 <= i < |order|
        invariant prefix == Lookup(tasks, order[..i + 1])
        invariant completed + RecentFinishedOf(prefix, limit - |completed|) == RecentFinishedOf(Chronological(), limit)
      {
        var task := tasks[order[i]];
        LookupPrefix(tasks, order, i);
        ScanStep(completed, Lookup(tasks, order[..i]), task, limit);
        if task.status == Completed || task.status == Failed {
          completed := completed + [task];
        }
        prefix := Lookup(tasks, order[..i]);
        i := i - 1;
      }
    }
  }

  /** One step of GetCompleted's backwards scan. */
  lemma ScanStep(done: seq<Task>, ts: seq<Task>, t: Task, limit: int)
    requires |done| < limit
    ensures done + RecentFinishedOf(ts + [t], limit - |done|)
            == if Finished(t) then (done + [t]) + RecentFinishedOf(ts, limit - |done + [t]|)
               else done + RecentFinishedOf(ts, limit - |done|)
  {
    assert (ts + [t])[..|ts|] == ts;
    if Finished(t) {
      var r := RecentFinishedOf(ts, limit - |done| - 1);
      assert done + ([t] + r) == (done + [t]) + r;
    }
  }

  lemma LookupPrefix(m: map<string, Task>, ids: seq<string>, i: int)
    requires 0 <= i < |ids| && forall id :: id in ids ==> id in m
    ensures Lookup(m, ids[..i + 1]) == Lookup(m, ids[..i]) + [m[ids[i]]]
  {
    var a, b := Lookup(m, ids[..i + 1]), Lookup(m, ids[..i]) + [m[ids[i]]];
    forall k | 0 <= k < |a| ensures a[k] == b[k] { }
  }

  lemma {:induction false} UnfinishedOfAppend(ts: seq<Task>, t: Task)
    ensures UnfinishedOf(ts + [t]) == UnfinishedOf(ts) + (if Unfinished(t) then [t] else [])
    decreases |ts|
  {
    if ts == [] {
      assert [t][1..] == [];
    } else {
      assert (ts + [t])[1..] == ts[1..] + [t];
      UnfinishedOfAppend(ts[1..], t);
    }
  }

  /** Filtering distributes over concatenation, so GetActive keeps insertion order. */
  lemma {:induction false} UnfinishedOfConcat(ts: seq<Task>, us: seq<Task>)
    ensures UnfinishedOf(ts + us) == UnfinishedOf(ts) + UnfinishedOf(us)
    decreases |ts|
  {
    if ts == [] {
      assert ts + us == us;
    } else {
      assert (ts + us)[1..] == ts[1..] + us;
      UnfinishedOfConcat(ts[1..], us);
    }
  }

  /** No task is reported both as active and as completed. */
  lemma ActiveAndCompletedDisjoint(ts: seq<Task>, limit: int)
    ensures forall t :: t in UnfinishedOf(ts) ==> t !in RecentFinishedOf(ts, limit)
  {
  }

  function Reversed<T>(s: seq<T>): (r: seq<T>)
    ensures |r| == |s| && forall i :: 0 <= i < |s| ==> r[i] == s[|s| - 1 - i]
  {
    if s == [] then [] else [s[|s| - 1]] + Reversed(s[..|s| - 1])
  }

  /** When every task is finished, GetCompleted(limit) is the newest limit tasks, newest first:
    * for [A, B, C] and limit 2 it is [C, B]. */
  lemma {:induction false} AllFinishedNewestFirst(ts: seq<Task>, limit: nat)
    requires forall t :: t in ts ==> Finished(t)
    ensures RecentFinishedOf(ts, limit) == Reversed(ts)[..if limit < |ts| then limit else |ts|]
    decreases |ts|
  {
    if ts != [] && limit > 0 {
      var init, last := ts[..|ts| - 1], ts[|ts| - 1];
      assert forall t :: t in init ==> t in ts;
      assert Finished(last);
      AllFinishedNewestFirst(init, limit - 1);
      var k := if limit - 1 < |init| then limit - 1 else |init|;
      var r := Reversed(init);
      assert RecentFinishedOf(ts, limit) == [last] + r[..k];
      assert Reversed(ts) == [last] + r;
      ConsTake(last, r, k);
    }
  }

  /** Whatever the statuses, GetCompleted(limit) is the finished tasks newest
    * first, none skipped, cut after `limit` (none for a limit of 0 or less). */
  lemma {:induction false} RecentFinishedIsNewestFinished(ts: seq<Task>, limit: int)
    ensures var f := FinishedOf(ts);
            RecentFinishedOf(ts, limit) == Reversed(f)[..if limit <= 0 then 0 else if limit < |f| then limit else |f|]
    decreases |ts|
  {
    if ts != [] && limit > 0 {
      var init, last := ts[..|ts| - 1], ts[|ts| - 1];
      var f := FinishedOf(init);
      if Finished(last) {
        assert FinishedOf(ts) == f + [last];
        assert RecentFinishedOf(ts, limit) == [last] + RecentFinishedOf(init, limit - 1);
        RecentFinishedIsNewestFinished(init, limit - 1);
        ReversedSnoc(f, last);
        ConsTake(last, Reversed(f), if limit - 1 < |f| then limit - 1 else |f|);
      } else {
        assert FinishedOf(ts) == f + [];
        assert f + [] == f;
        assert RecentFinishedOf(ts, limit) == RecentFinishedOf(init, limit);
        RecentFinishedIsNewestFinished(init, limit);
      }
    }
  }

  lemma ReversedSnoc<T>(s: seq<T>, x: T)
    ensures Reversed(s + [x]) == [x] + Reversed(s)
  {
    var a, b := Reversed(s + [x]), [x] + Reversed(s);
    forall k | 0 <= k < |a| ensures a[k] == b[k] { }
  }

  lemma ConsTake<T>(x: T, r: seq<T>, k: nat)
    requires k <= |r|
    ensures ([x] + r)[..k + 1] == [x] + r[..k]
  {
  }

  /** A smaller limit yields a prefix of what a larger one yields: GetCompleted
    * always returns the newest finished tasks. */
  lemma {:induction false} RecentFinishedPrefix(ts: seq<Task>, small: int, large: int)
    requires small <= large
    ensures RecentFinishedOf(ts, small) <= RecentFinishedOf(ts, large)
    decreases |ts|
  {
    if ts != [] && small > 0 {
      RecentFinishedPrefix(ts[..|ts| - 1], if Finished(ts[|ts| - 1]) then small - 1 else small,
                           if Finished(ts[|ts| - 1]) then large - 1 else large);
    }
  }
}
