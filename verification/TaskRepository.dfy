// The in-memory task repository: records by id, in the order of creation.

module TaskRepository {
  import opened Wrappers
  import opened StableSort

  datatype Status = Pending | Processing | Completed | Failed

  datatype TaskRecord = TaskRecord(
    id: string,
    vip: bool,
    status: Status,
    createdAt: Option<int>,
    startedAt: Option<int>,
    completedAt: Option<int>,
    sourceTaskId: Option<string>,
    s3Key: Option<string>,
    fileHash: Option<string>,
    fullText: Option<string>,
    errorMessage: Option<string>,
    retryCount: nat,
    isDeleted: bool)

  function NewTask(id: string, vip: bool, source: Option<string>, s3Key: Option<string>,
                   fileHash: Option<string>, now: int): TaskRecord
  {
    TaskRecord(id, vip, Pending, Some(now), None, None, source, s3Key, fileHash, None, None, 0, false)
  }

  function WithStatus(t: TaskRecord, status: Status, now: int): TaskRecord
  {
    t.(status := status,
       startedAt := if status.Processing? then Some(now) else t.startedAt,
       completedAt := if status.Completed? || status.Failed? then Some(now) else t.completedAt)
  }

  function WithResult(t: TaskRecord, text: string, now: int): TaskRecord
  {
    t.(fullText := Some(text), status := Completed, completedAt := Some(now))
  }

  function WithError(t: TaskRecord, message: string, now: int): TaskRecord
  {
    t.(errorMessage := Some(message), retryCount := t.retryCount + 1, status := Failed, completedAt := Some(now))
  }

  function WithFileInfo(t: TaskRecord, s3Key: Option<string>, fileHash: Option<string>): TaskRecord
  {
    t.(s3Key := if s3Key.Some? then s3Key else t.s3Key, fileHash := if fileHash.Some? then fileHash else t.fileHash)
  }

  // ------------------------------------------------------------ pending order

  function PendingOnly(records: seq<TaskRecord>): seq<TaskRecord>
  {
    if records == [] then []
    else
      var last := records[|records| - 1];
      PendingOnly(records[..|records| - 1]) + if last.status.Pending? then [last] else []
  }

  // VIP tasks first, then the oldest.
  function PendingKey(t: TaskRecord, now: int): SortKey
  {
    (if t.vip then 0.0 else 1.0, (if t.createdAt.Some? then t.createdAt.value else now) as real)
  }

  function PendingTasks(records: seq<TaskRecord>, limit: nat, now: int): seq<TaskRecord>
  {
    var sorted := Sort(PendingOnly(records), t => PendingKey(t, now));
    if limit < |sorted| then sorted[..limit] else sorted
  }

  predicate VipBefore(tasks: seq<TaskRecord>, i: nat, j: nat)
    requires i < j < |tasks|
  {
    tasks[j].vip ==> tasks[i].vip
  }

  // VIP tasks before all others.
  predicate VipFirst(tasks: seq<TaskRecord>)
  {
    forall i: nat, j: nat :: i < j < |tasks| ==> VipBefore(tasks, i, j)
  }

  lemma {:induction false} PendingOnlyMembers(records: seq<TaskRecord>)
    ensures forall t :: t in PendingOnly(records) <==> t in records && t.status.Pending?
  {
    if records != [] {
      PendingOnlyMembers(records[..|records| - 1]);
      assert records == records[..|records| - 1] + [records[|records| - 1]];
    }
  }

  // The older of two equally urgent tasks; a missing time counts as now.
  predicate Sooner(a: TaskRecord, b: TaskRecord, now: int)
  {
    var at := if a.createdAt.Some? then a.createdAt.value else now;
    var bt := if b.createdAt.Some? then b.createdAt.value else now;
    if a.vip == b.vip then at <= bt else a.vip
  }

  // VIP first, then the oldest; a limit cuts off the end of that list.
  lemma PendingTasksSooner(records: seq<TaskRecord>, limit: nat, now: int)
    ensures var r, all := PendingTasks(records, limit, now), PendingTasks(records, |records|, now);
            && r <= all && |r| == (if limit < |all| then limit else |all|)
            && |all| == |PendingOnly(records)|
            && forall i: nat, j: nat :: i < j < |all| ==> Sooner(all[i], all[j], now)
  {
    var pending, key := PendingOnly(records), t => PendingKey(t, now);
    var all := Sort(pending, key);
    PendingOnlyFewer(records);
    SortIsStable(pending, key);
    forall i: nat, j: nat | i < j < |all|
      ensures Sooner(all[i], all[j], now)
    {
      assert SortedAt(all, key, i, j);
    }
  }

  lemma {:induction false} PendingOnlyFewer(records: seq<TaskRecord>)
    ensures |PendingOnly(records)| <= |records|
  {
    if records != [] {
      PendingOnlyFewer(records[..|records| - 1]);
    }
  }

  // The repository's answer: the pending tasks, VIP first and oldest first, ties
  // in the order of creation, cut off at the limit.
  lemma PendingTasksOrder(records: seq<TaskRecord>, limit: nat, now: int)
    ensures var r, key := PendingTasks(records, limit, now), t => PendingKey(t, now);
            && Sorted(r, key) && VipFirst(r)
            && (forall t :: t in r ==> t in records && t.status.Pending?)
            && (|PendingOnly(records)| <= limit ==>
                  && multiset(r) == multiset(PendingOnly(records))
                  && forall k :: Class(r, key, k) == Class(PendingOnly(records), key, k))
  {
    var pending, key := PendingOnly(records), t => PendingKey(t, now);
    var sorted, r := Sort(pending, key), PendingTasks(records, limit, now);
    SortIsStable(pending, key);
    SortPermutes(pending, key);
    PendingOnlyMembers(records);
    forall i: nat, j: nat | i < j < |r|
      ensures SortedAt(r, key, i, j) && VipBefore(r, i, j)
    {
      assert SortedAt(sorted, key, i, j);
    }
    forall t | t in r
      ensures t in records && t.status.Pending?
    {
      assert t in multiset(sorted);
      assert t in pending;
    }
  }

  predicate OtherId(records: seq<TaskRecord>, i: nat, j: nat)
    requires i < j < |records|
  {
    records[i].id != records[j].id
  }

  predicate DistinctIds(records: seq<TaskRecord>)
  {
    forall i: nat, j: nat :: i < j < |records| ==> OtherId(records, i, j)
  }

  lemma DistinctFront(records: seq<TaskRecord>, k: nat)
    requires DistinctIds(records) && k <= |records|
    ensures DistinctIds(records[..k])
    ensures k < |records| ==> forall t :: t in records[..k] ==> t.id != records[k].id
  {
    var front := records[..k];
    forall i: nat, j: nat | i < j < |front|
      ensures OtherId(front, i, j)
    {
      assert OtherId(records, i, j);
    }
    if k < |records| {
      forall t | t in front
        ensures t.id != records[k].id
      {
        var i: nat :| i < k && records[i] == t;
        assert OtherId(records, i, k);
      }
    }
  }

  lemma DistinctSnoc(records: seq<TaskRecord>, t: TaskRecord)
    requires DistinctIds(records) && forall r :: r in records ==> r.id != t.id
    ensures DistinctIds(records + [t])
  {
    var all := records + [t];
    forall i: nat, j: nat | i < j < |all|
      ensures OtherId(all, i, j)
    {
      if j < |records| {
        assert OtherId(records, i, j);
      } else {
        assert records[i] in records;
      }
    }
  }

  lemma {:induction false} PendingOnlyDistinct(records: seq<TaskRecord>)
    requires DistinctIds(records)
    ensures DistinctIds(PendingOnly(records))
  {
    if records != [] {
      var n := |records| - 1;
      DistinctFront(records, n);
      PendingOnlyDistinct(records[..n]);
      PendingOnlyMembers(records[..n]);
      if records[n].status.Pending? {
        DistinctSnoc(PendingOnly(records[..n]), records[n]);
      } else {
        assert PendingOnly(records) == PendingOnly(records[..n]);
      }
    }
  }

  lemma {:induction false} InsertDistinct(sorted: seq<TaskRecord>, t: TaskRecord, key: TaskRecord -> SortKey)
    requires DistinctIds(sorted) && forall r :: r in sorted ==> r.id != t.id
    ensures DistinctIds(Insert(sorted, t, key))
    ensures forall r :: r in Insert(sorted, t, key) <==> r in sorted || r == t
  {
    var n := |sorted| - 1;
    if sorted == [] || KeyLe(key(sorted[n]), key(t)) {
      DistinctSnoc(sorted, t);
    } else {
      DistinctFront(sorted, n);
      assert sorted == sorted[..n] + [sorted[n]];
      InsertDistinct(sorted[..n], t, key);
      DistinctSnoc(Insert(sorted[..n], t, key), sorted[n]);
    }
  }

  lemma {:induction false} SortDistinct(records: seq<TaskRecord>, key: TaskRecord -> SortKey)
    requires DistinctIds(records)
    ensures DistinctIds(Sort(records, key))
    ensures forall r :: r in Sort(records, key) <==> r in records
  {
    if records != [] {
      var n := |records| - 1;
      DistinctFront(records, n);
      assert records == records[..n] + [records[n]];
      SortDistinct(records[..n], key);
      InsertDistinct(Sort(records[..n], key), records[n], key);
    }
  }

  lemma PendingTasksDistinct(records: seq<TaskRecord>, limit: nat, now: int)
    requires DistinctIds(records)
    ensures DistinctIds(PendingTasks(records, limit, now))
  {
    PendingOnlyDistinct(records);
    SortDistinct(PendingOnly(records), t => PendingKey(t, now));
    var sorted := Sort(PendingOnly(records), t => PendingKey(t, now));
    DistinctFront(sorted, if limit < |sorted| then limit else |sorted|);
    assert sorted[..|sorted|] == sorted;
  }

  // ---------------------------------------------------------- stale recovery

  predicate Stale(t: TaskRecord, cutoff: int)
  {
    t.status.Processing? && t.startedAt.Some? && t.startedAt.value <= cutoff
  }

  function Unstuck(t: TaskRecord, cutoff: int): TaskRecord
  {
    if Stale(t, cutoff) then t.(status := Pending) else t
  }

  function Listed(ids: seq<string>, tasks: map<string, TaskRecord>): seq<TaskRecord>
    requires forall id :: id in ids ==> id in tasks
  {
    if ids == [] then [] else Listed(ids[..|ids| - 1], tasks) + [tasks[ids[|ids| - 1]]]
  }

  function CountStale(records: seq<TaskRecord>, cutoff: int): nat
  {
    if records == [] then 0
    else CountStale(records[..|records| - 1], cutoff) + if Stale(records[|records| - 1], cutoff) then 1 else 0
  }

  lemma ListedStep(ids: seq<string>, tasks: map<string, TaskRecord>, i: nat)
    requires i < |ids| && forall id :: id in ids ==> id in tasks
    ensures Listed(ids[..i + 1], tasks) == Listed(ids[..i], tasks) + [tasks[ids[i]]]
    ensures PendingOnly(Listed(ids[..i + 1], tasks))
         == PendingOnly(Listed(ids[..i], tasks)) + if tasks[ids[i]].status.Pending? then [tasks[ids[i]]] else []
    ensures forall c :: CountStale(Listed(ids[..i + 1], tasks), c)
                     == CountStale(Listed(ids[..i], tasks), c) + if Stale(tasks[ids[i]], c) then 1 else 0
  {
    assert ids[..i + 1][..i] == ids[..i];
    var front := Listed(ids[..i], tasks);
    assert (front + [tasks[ids[i]]])[..|front|] == front;
  }

  function Cutoff(timeoutSeconds: int, now: int): int
  {
    now - if timeoutSeconds < 0 then 0 else timeoutSeconds
  }

  // The repository after the listed tasks have been looked at.
  function UnstuckAll(tasks: map<string, TaskRecord>, ids: seq<string>, cutoff: int): map<string, TaskRecord>
  {
    map id | id in tasks :: if id in ids then Unstuck(tasks[id], cutoff) else tasks[id]
  }

  lemma UnstuckStep(tasks: map<string, TaskRecord>, ids: seq<string>, i: nat, cutoff: int)
    requires i < |ids| && ids[i] in tasks && ids[i] !in ids[..i]
    ensures var t := UnstuckAll(tasks, ids[..i], cutoff);
            && t[ids[i]] == tasks[ids[i]]
            && UnstuckAll(tasks, ids[..i + 1], cutoff)
            == if Stale(tasks[ids[i]], cutoff) then t[ids[i] := tasks[ids[i]].(status := Pending)] else t
  {
    assert ids[..i + 1] == ids[..i] + [ids[i]];
  }

  predicate OtherString(ids: seq<string>, i: nat, j: nat)
    requires i < j < |ids|
  {
    ids[i] != ids[j]
  }

  predicate DistinctStrings(ids: seq<string>)
  {
    forall i: nat, j: nat :: i < j < |ids| ==> OtherString(ids, i, j)
  }

  lemma NotSeenBefore(ids: seq<string>, i: nat)
    requires DistinctStrings(ids) && i < |ids|
    ensures ids[i] !in ids[..i]
  {
    forall id | id in ids[..i]
      ensures id != ids[i]
    {
      var k: nat :| k < i && ids[k] == id;
      assert OtherString(ids, k, i);
    }
  }

  lemma AppendDistinct(ids: seq<string>, id: string)
    requires DistinctStrings(ids) && id !in ids
    ensures DistinctStrings(ids + [id])
  {
    var all := ids + [id];
    forall i: nat, j: nat | i < j < |all|
      ensures OtherString(all, i, j)
    {
      if j < |ids| {
        assert OtherString(ids, i, j);
      }
    }
  }

  // Records listed under distinct ids have distinct ids themselves.
  lemma {:induction false} ListedDistinct(ids: seq<string>, tasks: map<string, TaskRecord>)
    requires DistinctStrings(ids) && (forall id :: id in ids ==> id in tasks && tasks[id].id == id)
    ensures DistinctIds(Listed(ids, tasks))
    ensures forall t :: t in Listed(ids, tasks) ==> t.id in ids
  {
    if ids != [] {
      var n := |ids| - 1;
      var front := ids[..n];
      forall i: nat, j: nat | i < j < n
        ensures OtherString(front, i, j)
      {
        assert OtherString(ids, i, j);
      }
      ListedDistinct(front, tasks);
      NotSeenBefore(ids, n);
      DistinctSnoc(Listed(front, tasks), tasks[ids[n]]);
    }
  }

  // Processing for at least the timeout.
  predicate TimedOut(t: TaskRecord, timeoutSeconds: int, now: int)
  {
    && t.status.Processing? && t.startedAt.Some?
    && now - t.startedAt.value >= 0 && now - t.startedAt.value >= timeoutSeconds
  }

  ghost function TimedOutIds(tasks: map<string, TaskRecord>, timeoutSeconds: int, now: int): set<string>
  {
    set id | id in tasks && TimedOut(tasks[id], timeoutSeconds, now)
  }

  ghost function TimedOutAmong(ids: seq<string>, tasks: map<string, TaskRecord>, timeoutSeconds: int, now: int)
    : set<string>
    requires forall id :: id in ids ==> id in tasks
  {
    set id | id in ids && TimedOut(tasks[id], timeoutSeconds, now)
  }

  lemma StaleIff(t: TaskRecord, timeoutSeconds: int, now: int)
    ensures Stale(t, Cutoff(timeoutSeconds, now)) <==> TimedOut(t, timeoutSeconds, now)
  {
  }

  lemma AmongFront(ids: seq<string>, tasks: map<string, TaskRecord>, timeoutSeconds: int, now: int)
    requires ids != [] && DistinctStrings(ids) && forall id :: id in ids ==> id in tasks
    ensures var n := |ids| - 1;
            |TimedOutAmong(ids, tasks, timeoutSeconds, now)|
            == |TimedOutAmong(ids[..n], tasks, timeoutSeconds, now)|
             + if TimedOut(tasks[ids[n]], timeoutSeconds, now) then 1 else 0
  {
    var n := |ids| - 1;
    var front := TimedOutAmong(ids[..n], tasks, timeoutSeconds, now);
    NotSeenBefore(ids, n);
    assert ids == ids[..n] + [ids[n]];
    if TimedOut(tasks[ids[n]], timeoutSeconds, now) {
      assert TimedOutAmong(ids, tasks, timeoutSeconds, now) == front + {ids[n]};
    } else {
      assert TimedOutAmong(ids, tasks, timeoutSeconds, now) == front;
    }
  }

  lemma {:induction false} CountAmong(ids: seq<string>, tasks: map<string, TaskRecord>, timeoutSeconds: int, now: int)
    requires DistinctStrings(ids) && forall id :: id in ids ==> id in tasks
    ensures CountStale(Listed(ids, tasks), Cutoff(timeoutSeconds, now))
         == |TimedOutAmong(ids, tasks, timeoutSeconds, now)|
  {
    if ids != [] {
      var n := |ids| - 1;
      FrontStrings(ids);
      CountAmong(ids[..n], tasks, timeoutSeconds, now);
      ListedStep(ids, tasks, n);
      assert ids[..n + 1] == ids;
      AmongFront(ids, tasks, timeoutSeconds, now);
      StaleIff(tasks[ids[n]], timeoutSeconds, now);
    }
  }

  lemma FrontStrings(ids: seq<string>)
    requires ids != [] && DistinctStrings(ids)
    ensures DistinctStrings(ids[..|ids| - 1])
  {
    var front := ids[..|ids| - 1];
    forall i: nat, j: nat | i < j < |front|
      ensures OtherString(front, i, j)
    {
      assert OtherString(ids, i, j);
    }
  }

  // The tasks that have timed out become pending, all others stay as they are.
  ghost predicate OnlyTimedOut(before: map<string, TaskRecord>, after: map<string, TaskRecord>,
                               timeoutSeconds: int, now: int)
  {
    && before.Keys == after.Keys
    && forall id :: id in before ==>
         after[id] == if TimedOut(before[id], timeoutSeconds, now) then before[id].(status := Pending) else before[id]
  }

  lemma RecoversTimedOut(ids: seq<string>, tasks: map<string, TaskRecord>, timeoutSeconds: int, now: int)
    requires DistinctStrings(ids) && forall id :: id in ids <==> id in tasks
    ensures OnlyTimedOut(tasks, UnstuckAll(tasks, ids, Cutoff(timeoutSeconds, now)), timeoutSeconds, now)
    ensures CountStale(Listed(ids, tasks), Cutoff(timeoutSeconds, now))
         == |TimedOutIds(tasks, timeoutSeconds, now)|
  {
    CountAmong(ids, tasks, timeoutSeconds, now);
    assert TimedOutAmong(ids, tasks, timeoutSeconds, now) == TimedOutIds(tasks, timeoutSeconds, now);
    var after := UnstuckAll(tasks, ids, Cutoff(timeoutSeconds, now));
    forall id | id in tasks
      ensures after[id]
           == if TimedOut(tasks[id], timeoutSeconds, now) then tasks[id].(status := Pending) else tasks[id]
    {
      StaleIff(tasks[id], timeoutSeconds, now);
    }
  }

  // A task marked as processing is recovered once the timeout has passed.
  lemma ProcessingTimesOut(t: TaskRecord, started: int, timeoutSeconds: int, now: int)
    requires timeoutSeconds >= 0
    ensures TimedOut(WithStatus(t, Processing, started), timeoutSeconds, now) <==> now >= started + timeoutSeconds
  {
  }

  class MemoryTaskRepository {
    var ids: seq<string>
    var tasks: map<string, TaskRecord>

    ghost predicate Valid()
      reads this
    {
      && (forall id :: id in ids <==> id in tasks)
      && DistinctStrings(ids)
      && (forall id :: id in tasks ==> tasks[id].id == id)
    }

    constructor ()
      ensures Valid() && ids == [] && tasks == map[]
    {
      ids, tasks := [], map[];
    }

    method CreateTask(taskId: string, vip: bool, source: Option<string>, s3Key: Option<string>,
                      fileHash: Option<string>, now: int) returns (task: TaskRecord)
      requires Valid()
      modifies this
      ensures Valid() && task == NewTask(taskId, vip, source, s3Key, fileHash, now)
      ensures task.id == taskId && task.vip == vip && task.status.Pending? && !task.isDeleted
      ensures task.createdAt == Some(now) && task.startedAt == None && task.completedAt == None
      ensures task.sourceTaskId == source && task.s3Key == s3Key && task.fileHash == fileHash
      ensures tasks == old(tasks)[taskId := task]
      ensures ids == if taskId in old(tasks) then old(ids) else old(ids) + [taskId]
    {
      task := NewTask(taskId, vip, source, s3Key, fileHash, now);
      if taskId !in tasks {
        AppendDistinct(ids, taskId);
        ids := ids + [taskId];
      }
      tasks := tasks[taskId := task];
    }

    method GetPendingTasks(limit: nat, now: int) returns (r: seq<TaskRecord>)
      requires Valid()
      ensures r == PendingTasks(Listed(ids, tasks), limit, now)
    {
      var pending: seq<TaskRecord> := [];
      for i := 0 to |ids|
        invariant pending == PendingOnly(Listed(ids[..i], tasks))
      {
        ListedStep(ids, tasks, i);
        var task := tasks[ids[i]];
        if task.status.Pending? {
          pending := pending + [task];
        }
      }
      assert ids[..|ids|] == ids;
      r := Sort(pending, t => PendingKey(t, now));
      if limit < |r| {
        r := r[..limit];
      }
    }

    // Processing tasks that started too long ago become pending again.
    method RecoverStaleProcessing(timeoutSeconds: int, now: int) returns (recovered: nat)
      requires Valid()
      modifies this`tasks
      ensures Valid()
      ensures tasks == UnstuckAll(old(tasks), ids, Cutoff(timeoutSeconds, now))
      ensures recovered == CountStale(Listed(ids, old(tasks)), Cutoff(timeoutSeconds, now))
      ensures OnlyTimedOut(old(tasks), tasks, timeoutSeconds, now)
      ensures recovered == |TimedOutIds(old(tasks), timeoutSeconds, now)|
    {
      RecoversTimedOut(ids, tasks, timeoutSeconds, now);
      recovered := RecoverUntil(Cutoff(timeoutSeconds, now));
    }

    // Its loop.
    method RecoverUntil(cutoff: int) returns (recovered: nat)
      requires Valid()
      modifies this`tasks
      ensures Valid()
      ensures tasks == UnstuckAll(old(tasks), ids, cutoff)
      ensures recovered == CountStale(Listed(ids, old(tasks)), cutoff)
    {
      ghost var before := tasks;
      recovered := 0;
      assert ids[..0] == [];
      for i := 0 to |ids|
        invariant tasks == UnstuckAll(before, ids[..i], cutoff)
        invariant recovered == CountStale(Listed(ids[..i], before), cutoff)
      {
        ListedStep(ids, before, i);
        NotSeenBefore(ids, i);
        UnstuckStep(before, ids, i, cutoff);
        var task := tasks[ids[i]];
        if task.status.Processing? && task.startedAt.Some? && task.startedAt.value <= cutoff {
          tasks := tasks[ids[i] := task.(status := Pending)];
          recovered := recovered + 1;
        }
      }
      assert ids[..|ids|] == ids;
    }
  }
}
