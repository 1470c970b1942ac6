/**
 * Work queue of generic/work_queue_unique.c: a pool of buckets, an index sorted by task
 * and a queue of pending buckets, which together behave like a bounded set of known tasks
 * and a queue without repetitions.
 */
module WorkQueueUnique {
  import opened Common

  /** Addresses of the callback and of its argument. */
  datatype Task = Task(callback: nat, argument: nat)

  datatype Bucket = Bucket(task: Task, pending: bool)

  /** `taskComparator`. */
  function Compare(a: Task, b: Task): int {
    if a.callback > b.callback then 1
    else if a.callback < b.callback then -1
    else if a.argument == b.argument then 0
    else if a.argument > b.argument then 1 else -1
  }

  lemma CompareIsOrder(a: Task, b: Task, c: Task)
    ensures Compare(a, b) == 0 <==> a == b
    ensures Compare(a, b) < 0 <==> Compare(b, a) > 0
    ensures Compare(a, b) < 0 && Compare(b, c) < 0 ==> Compare(a, c) < 0
  {
  }

  // The simple form: known tasks and pending tasks

  datatype Model = Model(known: set<Task>, fifo: seq<Task>)

  ghost predicate Proper(model: Model, capacity: nat) {
    && Distinct(model.fifo) && (forall t | t in model.fifo :: t in model.known) && |model.known| <= capacity
  }

  function Added(model: Model, capacity: nat, task: Task): (Model, Result) {
    if task in model.fifo then
      (model, E_BUSY)
    else if task in model.known || |model.known| < capacity then
      (Model(model.known + {task}, model.fifo + [task]), E_OK)
    else
      (model, E_FULL)
  }

  /** The queue never holds more tasks than it has room for, whatever is added. */
  lemma AddedIsProper(model: Model, capacity: nat, task: Task)
    requires Proper(model, capacity)
    ensures Proper(Added(model, capacity, task).0, capacity)
    ensures |Added(model, capacity, task).0.fifo| <= capacity
  {
    var model' := Added(model, capacity, task).0;
    if task in model.known {
      assert model.known + {task} == model.known;
    }
    DistinctFits(model'.fifo, model'.known);
  }

  lemma AddedCases(model: Model, capacity: nat, task: Task)
    requires Proper(model, capacity)
    ensures task in model.known && task !in model.fifo ==>
              Added(model, capacity, task) == (model.(fifo := model.fifo + [task]), E_OK)
    ensures task !in model.known && |model.known| < capacity ==>
              Added(model, capacity, task)
              == (Model(model.known + {task}, model.fifo + [task]), E_OK)
    ensures task !in model.known && capacity <= |model.known| ==> Added(model, capacity, task) == (model, E_FULL)
  {
    if task in model.known {
      assert model.known + {task} == model.known;
    }
  }

  /** A task that is being called is not pending any more: adding it again is not lost. */
  lemma AddDuringCallback(model: Model, capacity: nat)
    requires Proper(model, capacity) && model.fifo != []
    ensures Proper(model.(fifo := model.fifo[1..]), capacity)
    ensures Added(model.(fifo := model.fifo[1..]), capacity, model.fifo[0])
         == (model.(fifo := model.fifo[1..] + [model.fifo[0]]), E_OK)
  {
    assert model.known + {model.fifo[0]} == model.known;
  }

  // The fast form

  ghost predicate Sorted(pool: seq<Bucket>, buckets: seq<nat>) {
    && |buckets| <= |pool| && (forall i | 0 <= i < |buckets| :: buckets[i] < |buckets|)
    && (forall i, j | 0 <= i < j < |buckets| :: Compare(pool[buckets[i]].task, pool[buckets[j]].task) < 0)
    && (forall k | 0 <= k < |buckets| :: k in buckets)
  }

  ghost predicate Pending(pool: seq<Bucket>, count: nat, tasks: seq<nat>) {
    && count <= |pool| && Distinct(tasks)
    && (forall i | 0 <= i < |tasks| :: tasks[i] < count)
    && (forall k | 0 <= k < count :: pool[k].pending <==> k in tasks)
  }

  ghost function KnownTasks(pool: seq<Bucket>, count: nat): set<Task>
    requires count <= |pool|
  {
    if count == 0 then {} else KnownTasks(pool, count - 1) + {pool[count - 1].task}
  }

  ghost function TasksOf(pool: seq<Bucket>, tasks: seq<nat>): seq<Task>
    requires forall i | 0 <= i < |tasks| :: tasks[i] < |pool|
  {
    seq(|tasks|, i requires 0 <= i < |tasks| => pool[tasks[i]].task)
  }

  lemma {:induction false} KnownTask(pool: seq<Bucket>, count: nat, task: Task)
    requires count <= |pool|
    ensures task in KnownTasks(pool, count) <==> exists k | 0 <= k < count :: pool[k].task == task
  {
    if count == 0 {
    } else {
      KnownTask(pool, count - 1, task);
      if exists k | 0 <= k < count :: pool[k].task == task {
        var k :| 0 <= k < count && pool[k].task == task;
      }
    }
  }

  lemma {:induction false} KnownSize(pool: seq<Bucket>, count: nat)
    requires count <= |pool|
    requires forall i, j | 0 <= i < j < count :: pool[i].task != pool[j].task
    ensures |KnownTasks(pool, count)| == count
  {
    if count == 0 {
    } else {
      KnownSize(pool, count - 1);
      KnownTask(pool, count - 1, pool[count - 1].task);
    }
  }

  lemma {:induction false} KnownFrame(pool: seq<Bucket>, pool': seq<Bucket>, count: nat)
    requires count <= |pool| && count <= |pool'|
    requires forall k | 0 <= k < count :: pool'[k].task == pool[k].task
    ensures KnownTasks(pool', count) == KnownTasks(pool, count)
  {
    if count == 0 {
    } else {
      KnownFrame(pool, pool', count - 1);
    }
  }

  /** The index is strictly sorted, so no task is in two buckets. */
  lemma SortedDistinct(pool: seq<Bucket>, buckets: seq<nat>)
    requires Sorted(pool, buckets)
    ensures forall i, j | 0 <= i < |buckets| && 0 <= j < |buckets| && i != j :: pool[i].task != pool[j].task
  {
    forall i, j | 0 <= i < |buckets| && 0 <= j < |buckets| && i != j
      ensures pool[i].task != pool[j].task
    {
      assert i in buckets && j in buckets;
      var a :| 0 <= a < |buckets| && buckets[a] == i;
      var b :| 0 <= b < |buckets| && buckets[b] == j;
      assert Compare(pool[buckets[a]].task, pool[buckets[b]].task) != 0 by {
        CompareIsOrder(pool[i].task, pool[j].task, pool[i].task);
      }
    }
  }

  /** An index with one more number holds every smaller number again. */
  lemma InsertedComplete(buckets: seq<nat>, index: nat)
    requires index <= |buckets| && forall k | 0 <= k < |buckets| :: k in buckets
    ensures forall k | 0 <= k <= |buckets| :: k in buckets[..index] + [|buckets|] + buckets[index..]
  {
    forall k | 0 <= k <= |buckets|
      ensures k in buckets[..index] + [|buckets|] + buckets[index..]
    {
      if k < |buckets| {
        assert k in buckets && buckets == buckets[..index] + buckets[index..];
      }
    }
  }

  /** A new bucket enters the index at the place that the search found. */
  lemma InsertedSorted(pool: seq<Bucket>, pool': seq<Bucket>, buckets: seq<nat>, index: nat, task: Task)
    requires Sorted(pool, buckets) && index <= |buckets| < |pool| == |pool'|
    requires forall k | 0 <= k < |buckets| :: pool'[k] == pool[k]
    requires pool'[|buckets|].task == task
    requires forall i | 0 <= i < index :: Compare(pool[buckets[i]].task, task) < 0
    requires forall i | index <= i < |buckets| :: Compare(pool[buckets[i]].task, task) > 0
    ensures Sorted(pool', buckets[..index] + [|buckets|] + buckets[index..])
  {
    hide Compare;
    InsertedComplete(buckets, index);
    var longer := buckets[..index] + [|buckets|] + buckets[index..];
    forall i, j | 0 <= i < j < |longer|
      ensures Compare(pool'[longer[i]].task, pool'[longer[j]].task) < 0
    {
      if j == index {
        assert longer[i] == buckets[i] && longer[j] == |buckets|;
      } else if i == index {
        assert longer[i] == |buckets| && longer[j] == buckets[j - 1];
        CompareIsOrder(task, pool[buckets[j - 1]].task, task);
      } else {
        var i', j' := if i < index then i else i - 1, if j < index then j else j - 1;
        assert longer[i] == buckets[i'] && longer[j] == buckets[j'];
        assert Compare(pool[buckets[i']].task, pool[buckets[j']].task) < 0;
      }
    }
  }

  /** The task of the search is known exactly when the search finds it. */
  lemma NotKnown(pool: seq<Bucket>, buckets: seq<nat>, index: nat, task: Task)
    requires Sorted(pool, buckets) && index <= |buckets|
    requires forall i | 0 <= i < index :: Compare(pool[buckets[i]].task, task) < 0
    requires forall i | index <= i < |buckets| :: Compare(pool[buckets[i]].task, task) > 0
    ensures task !in KnownTasks(pool, |buckets|)
  {
    KnownTask(pool, |buckets|, task);
    forall k | 0 <= k < |buckets|
      ensures pool[k].task != task
    {
      assert k in buckets;
      var i :| 0 <= i < |buckets| && buckets[i] == k;
      assert Compare(pool[buckets[i]].task, task) != 0;
    }
  }

  /** A bucket is in the queue exactly when its task is. */
  lemma QueuedTask(pool: seq<Bucket>, buckets: seq<nat>, tasks: seq<nat>, k: nat)
    requires Sorted(pool, buckets) && Pending(pool, |buckets|, tasks) && k < |buckets|
    ensures pool[k].task in TasksOf(pool, tasks) <==> k in tasks
    ensures pool[k].task in KnownTasks(pool, |buckets|)
  {
    KnownTask(pool, |buckets|, pool[k].task);
    SortedDistinct(pool, buckets);
    var fifo := TasksOf(pool, tasks);
    if pool[k].task in fifo {
      var i :| 0 <= i < |fifo| && fifo[i] == pool[k].task;
      assert pool[tasks[i]].task == pool[k].task;
    }
    if k in tasks {
      var i :| 0 <= i < |tasks| && tasks[i] == k;
      assert fifo[i] == pool[k].task;
    }
  }

  /** The contents of a valid queue are a proper model. */
  lemma ContentsProper(pool: seq<Bucket>, buckets: seq<nat>, tasks: seq<nat>)
    requires Sorted(pool, buckets) && Pending(pool, |buckets|, tasks)
    ensures |KnownTasks(pool, |buckets|)| == |buckets|
    ensures Proper(Model(KnownTasks(pool, |buckets|), TasksOf(pool, tasks)), |pool|)
    ensures |tasks| <= |buckets|
  {
    SortedDistinct(pool, buckets);
    KnownSize(pool, |buckets|);
    DistinctFits(tasks, Below(|buckets|));
    FifoProper(pool, |buckets|, tasks);
  }

  lemma FifoProper(pool: seq<Bucket>, count: nat, tasks: seq<nat>)
    requires Pending(pool, count, tasks)
    requires forall i, j | 0 <= i < count && 0 <= j < count && i != j :: pool[i].task != pool[j].task
    ensures Distinct(TasksOf(pool, tasks))
    ensures forall t | t in TasksOf(pool, tasks) :: t in KnownTasks(pool, count)
  {
    var fifo := TasksOf(pool, tasks);
    forall i, j | 0 <= i < j < |fifo|
      ensures fifo[i] != fifo[j]
    {
      assert tasks[i] != tasks[j];
    }
    forall t | t in fifo
      ensures t in KnownTasks(pool, count)
    {
      var i :| 0 <= i < |fifo| && fifo[i] == t;
      assert pool[tasks[i]].task == t;
      KnownTask(pool, count, t);
    }
  }

  ghost function Below(n: nat): (r: set<nat>)
    ensures |r| == n && forall k: nat :: k in r <==> k < n
  {
    if n == 0 then {} else Below(n - 1) + {n - 1}
  }

  lemma TasksOfExtends(pool: seq<Bucket>, pool': seq<Bucket>, tasks: seq<nat>, k: nat)
    requires (forall i | 0 <= i < |tasks| :: tasks[i] < |pool|) && |pool'| == |pool| && k < |pool|
    requires forall i | 0 <= i < |tasks| :: pool'[tasks[i]].task == pool[tasks[i]].task
    ensures forall i | 0 <= i < |tasks| + 1 :: (tasks + [k])[i] < |pool'|
    ensures TasksOf(pool', tasks) == TasksOf(pool, tasks)
    ensures TasksOf(pool', tasks + [k]) == TasksOf(pool, tasks) + [pool'[k].task]
  {
  }

  lemma EnqueuedPending(pool: seq<Bucket>, pool': seq<Bucket>, count: nat, tasks: seq<nat>, k: nat)
    requires Pending(pool, count, tasks) && k < count && !pool[k].pending
    requires pool' == pool[k := pool[k].(pending := true)]
    ensures Pending(pool', count, tasks + [k])
  {
    assert forall i :: i in tasks + [k] <==> i in tasks || i == k;
  }

  lemma SameTasksSorted(pool: seq<Bucket>, pool': seq<Bucket>, buckets: seq<nat>)
    requires Sorted(pool, buckets) && |pool'| == |pool|
    requires forall k | 0 <= k < |pool| :: pool'[k].task == pool[k].task
    ensures Sorted(pool', buckets)
  {
  }

  lemma PoppedPending(pool: seq<Bucket>, pool': seq<Bucket>, count: nat, tasks: seq<nat>)
    requires Pending(pool, count, tasks) && tasks != []
    requires pool' == pool[tasks[0] := pool[tasks[0]].(pending := false)]
    ensures Pending(pool', count, tasks[1..])
    ensures TasksOf(pool, tasks) == [pool[tasks[0]].task] + TasksOf(pool', tasks[1..])
  {
    assert forall i :: i in tasks <==> i == tasks[0] || i in tasks[1..];
  }

  class Queue {
    const pool: array<Bucket>
    var buckets: seq<nat>
    var tasks: seq<nat>

    // Tasks whose addition succeeded and tasks that were called
    ghost var accepted: seq<Task>
    ghost var executed: seq<Task>

    ghost predicate Valid()
      reads this, pool
    {
      && Sorted(pool[..], buckets) && Pending(pool[..], |buckets|, tasks)
      && accepted == executed + TasksOf(pool[..], tasks)
    }

    ghost function Contents(): Model
      reads this, pool
      requires Valid()
    {
      Model(KnownTasks(pool[..], |buckets|), TasksOf(pool[..], tasks))
    }

    /** `workQueueInit`. */
    constructor (size: nat)
      requires 0 < size
      ensures Valid() && fresh(pool) && pool.Length == size && Contents() == Model({}, [])
    {
      pool := new Bucket[size](_ => Bucket(Task(0, 0), false));
      buckets, tasks, accepted, executed := [], [], [], [];
    }

    /** `findTaskBucket`: binary search in the index. */
    method FindTaskBucket(task: Task) returns (found: bool, index: nat)
      requires Valid()
      ensures found ==> index < |buckets| && buckets[index] < pool.Length && pool[buckets[index]].task == task
      ensures !found ==> index <= |buckets|
      ensures !found ==> forall i | 0 <= i < index && buckets[i] < pool.Length ::
                Compare(pool[buckets[i]].task, task) < 0
      ensures !found ==> forall i | index <= i < |buckets| && buckets[i] < pool.Length ::
                Compare(pool[buckets[i]].task, task) > 0
    {
      var left, right := 0, |buckets|;
      while left != right
        invariant left <= right <= |buckets|
        invariant forall i | 0 <= i < left :: Compare(pool[..][buckets[i]].task, task) < 0
        invariant forall i | right <= i < |buckets| :: Compare(pool[..][buckets[i]].task, task) > 0
        decreases right - left
      {
        var middle := (left + right) / 2;
        var result := Compare(pool[buckets[middle]].task, task);
        if result > 0 {
          FarSide(pool[..], buckets, middle, task);
          right := middle;
        } else if result < 0 {
          FarSide(pool[..], buckets, middle, task);
          left := middle + 1;
        } else {
          CompareIsOrder(pool[buckets[middle]].task, task, task);
          return true, middle;
        }
      }
      return false, left;
    }

    static lemma FarSide(pool: seq<Bucket>, buckets: seq<nat>, middle: nat, task: Task)
      requires Sorted(pool, buckets) && middle < |buckets|
      ensures Compare(pool[buckets[middle]].task, task) > 0 ==>
                forall i | middle <= i < |buckets| :: Compare(pool[buckets[i]].task, task) > 0
      ensures Compare(pool[buckets[middle]].task, task) < 0 ==>
                forall i | 0 <= i <= middle :: Compare(pool[buckets[i]].task, task) < 0
    {
      forall i | 0 <= i < |buckets|
        ensures i < middle ==> Compare(pool[buckets[i]].task, pool[buckets[middle]].task) < 0
        ensures middle < i ==> Compare(pool[buckets[middle]].task, pool[buckets[i]].task) < 0
      {
      }
    }

    /** Marks a bucket and puts it in the queue; the push needs no check. */
    method Enqueue(bucket: nat)
      requires Valid() && bucket < |buckets| && !pool[..][bucket].pending
      modifies this`tasks, this`accepted, pool
      ensures Valid() && tasks == old(tasks) + [bucket] && |tasks| <= |buckets|
      ensures accepted == old(accepted) + [old(pool[..][bucket].task)]
      ensures Contents() == old(Contents().(fifo := Contents().fifo + [pool[..][bucket].task]))
    {
      ghost var before := pool[..];
      pool[bucket] := pool[bucket].(pending := true);
      tasks := tasks + [bucket];
      assert pool[..] == before[bucket := before[bucket].(pending := true)];
      ghost var queued := old(tasks);
      TasksOfExtends(before, pool[..], queued, bucket);
      KnownFrame(before, pool[..], |buckets|);
      accepted := accepted + [pool[bucket].task];
      EnqueuedPending(before, pool[..], |buckets|, queued, bucket);
      SameTasksSorted(before, pool[..], buckets);
      ContentsProper(pool[..], buckets, tasks);
    }

    /** A task gets the next bucket of the pool. */
    method NewBucket(task: Task, index: nat)
      requires Valid() && |buckets| < pool.Length && index <= |buckets|
      requires forall i | 0 <= i < index :: Compare(pool[..][buckets[i]].task, task) < 0
      requires forall i | index <= i < |buckets| :: Compare(pool[..][buckets[i]].task, task) > 0
      modifies this`buckets, pool
      ensures Valid() && |buckets| == |old(buckets)| + 1
      ensures pool[..][|buckets| - 1] == Bucket(task, false)
      ensures Contents() == old(Contents().(known := Contents().known + {task}))
    {
      ghost var before, earlier := pool[..], buckets;
      var bucket := |buckets|;
      pool[bucket] := Bucket(task, false);
      buckets := buckets[..index] + [bucket] + buckets[index..];
      assert pool[..] == before[bucket := Bucket(task, false)];
      InsertedSorted(before, pool[..], earlier, index, task);
      TasksOfExtends(before, pool[..], tasks, bucket);
      KnownFrame(before, pool[..], |earlier|);
    }

    /** `workQueueAdd` behaves like an addition to the model. */
    method Add(task: Task) returns (res: Result)
      requires Valid()
      modifies this`buckets, this`tasks, this`accepted, pool
      ensures Valid() && (Contents(), res) == Added(old(Contents()), pool.Length, task)
      ensures old(tasks) <= tasks
      ensures accepted == old(accepted) + (if res == E_OK then [task] else [])
    {
      ContentsProper(pool[..], buckets, tasks);
      AddedCases(Contents(), pool.Length, task);
      var found, index := FindTaskBucket(task);
      var bucket := None;
      if !found {
        NotKnown(pool[..], buckets, index, task);
        if |buckets| < pool.Length {
          NewBucket(task, index);
          bucket := Some(|buckets| - 1);
        }
      } else {
        bucket := Some(buckets[index]);
      }
      if bucket.Some? {
        QueuedTask(pool[..], buckets, tasks, bucket.value);
        if !pool[bucket.value].pending {
          Enqueue(bucket.value);
          res := E_OK;
        } else {
          res := E_BUSY;
        }
      } else {
        res := E_FULL;
      }
    }

    /** Environment: tasks are added by interrupts or by a callback. */
    method AddAny()
      requires Valid()
      modifies this`buckets, this`tasks, this`accepted, pool
      ensures Valid() && old(tasks) <= tasks && old(Contents().fifo) <= Contents().fifo
      ensures old(accepted) <= accepted && old(Contents().known) <= Contents().known
    {
      hide Sorted, Pending;
      var count: nat := *;
      while 0 < count
        invariant Valid() && old(tasks) <= tasks && old(Contents().fifo) <= Contents().fifo
        invariant old(accepted) <= accepted && old(Contents().known) <= Contents().known
      {
        var task: Task := *;
        var res := Add(task);
        count := count - 1;
      }
    }

    /** The critical section of `workQueueStart`: the front bucket leaves the queue. */
    method PopFront(bucket: nat) returns (task: Task)
      requires Valid() && tasks != [] && bucket == tasks[0]
      modifies this`tasks, this`executed, pool
      ensures Valid() && old(Contents().fifo) == [task] + Contents().fifo && Contents().known == old(Contents().known)
      ensures executed == old(executed) + [task] && tasks == old(tasks)[1..]
    {
      ghost var before := pool[..];
      pool[bucket] := pool[bucket].(pending := false);
      assert pool[..] == before[bucket := before[bucket].(pending := false)];
      PoppedPending(before, pool[..], |buckets|, tasks);
      SameTasksSorted(before, pool[..], buckets);
      KnownFrame(before, pool[..], |buckets|);
      task := pool[bucket].task;
      tasks := tasks[1..];
      executed := executed + [task];
    }

    /**
     * The serve loop of `workQueueStart`, for at most `rounds` calls. Interrupts add tasks
     * before the critical section, callbacks after it; the tasks are called in the order of
     * their successful additions, each exactly once for each.
     */
    method Serve(rounds: nat) returns (called: nat)
      requires Valid()
      modifies this, pool
      ensures Valid() && (called == rounds || (called < rounds && tasks == []))
      ensures old(executed) <= executed && |executed| == |old(executed)| + called
      ensures old(accepted) <= accepted && executed <= accepted
    {
      hide Sorted, Pending;
      called := 0;
      while called < rounds && tasks != []
        invariant Valid() && called <= rounds
        invariant old(executed) <= executed && |executed| == |old(executed)| + called
        invariant old(accepted) <= accepted
        decreases rounds - called
      {
        var bucket := tasks[0];
        AddAny();
        var task := PopFront(bucket);
        AddAny();
        called := called + 1;
      }
    }

    /** When the queue is empty, every accepted task has been called, in order. */
    lemma NothingIsLost()
      requires Valid() && tasks == []
      ensures executed == accepted
    {
    }
  }
}
