// The objects behind the task queue.  Each method is one section of code
// between two awaits and takes exactly one step of the state machine.

module TaskRuntime {
  import opened Arithmetic
  import opened TaskQueue
  import opened TaskQueueSafety
  import opened TaskDispatch
  import opened Wrappers
  import TaskRepository

  class TaskExecutionRegistry {
    var queued: set<Key>
    var inflight: set<Key>

    constructor ()
      ensures queued == {} && inflight == {}
    {
      queued, inflight := {}, {};
    }

    predicate IsTracked(key: Key)
      reads this
    {
      key in queued || key in inflight
    }

    method TryEnqueue(key: Key) returns (accepted: bool)
      modifies this`queued
      ensures accepted == !old(IsTracked(key))
      ensures queued == if accepted then old(queued) + {key} else old(queued)
    {
      if IsTracked(key) {
        return false;
      }
      queued := queued + {key};
      return true;
    }

    method TryBeginExternal(key: Key) returns (accepted: bool)
      modifies this`inflight
      ensures accepted == !old(IsTracked(key))
      ensures inflight == if accepted then old(inflight) + {key} else old(inflight)
    {
      if IsTracked(key) {
        return false;
      }
      inflight := inflight + {key};
      return true;
    }

    method BeginQueued(key: Key)
      modifies this
      ensures queued == old(queued) - {key} && inflight == old(inflight) + {key}
    {
      queued := queued - {key};
      inflight := inflight + {key};
    }

    method Finish(key: Key)
      modifies this`inflight
      ensures inflight == old(inflight) - {key}
    {
      inflight := inflight - {key};
    }

    method Clear()
      modifies this
      ensures queued == {} && inflight == {}
    {
      queued, inflight := {}, {};
    }
  }

  class QueueWorkerRuntime {
    const registry: TaskExecutionRegistry
    var queue: seq<Entry>
    var counter: nat
    var workers: seq<Worker>
    var running: bool
    ghost var stopping: bool
    ghost var cancelled: bool
    ghost var batches: map<nat, Key>
    ghost var taken: seq<Entry>

    ghost function View(): State
      reads this, registry
    {
      State(queue, counter, registry.queued, registry.inflight, workers, batches,
            running, stopping, cancelled, taken)
    }

    ghost predicate Valid()
      reads this, registry
    {
      Inv(View())
    }

    constructor ()
      ensures fresh(registry) && View() == Init && Valid()
    {
      registry := new TaskExecutionRegistry();
      queue, counter, workers, running := [], 0, [], false;
      stopping, cancelled, batches, taken := false, false, map[], [];
      new;
      InitInv();
    }

    method Start(workerCount: int)
      modifies this`running, this`workers
      ensures View() == if old(running) then old(View())
                        else old(View()).(running := true,
                                          workers := old(workers) + Idlers(Max(workerCount, 1)))
      ensures !old(running) ==> running && |workers| == |old(workers)| + Max(workerCount, 1)
    {
      if running {
        return;
      }
      running := true;
      for index := 0 to Max(workerCount, 1)
        invariant running && workers == old(workers) + Idlers(index)
      {
        workers := workers + [Waiting];
      }
    }

    method Enqueue(submission: Submission) returns (accepted: bool)
      modifies this`queue, this`counter, registry`queued
      ensures accepted == !Tracked(old(View()), submission.key)
      ensures View() == EnqueueStep(old(View()), submission)
      ensures accepted ==>
        && queue == old(queue) + [Job(if submission.vip then 0 else 1, old(counter), submission.key)]
        && counter == old(counter) + 1 && submission.key in registry.queued
    {
      accepted := registry.TryEnqueue(submission.key);
      if !accepted {
        return false;
      }
      queue := queue + [Job(QueuePriority(submission.vip), counter, submission.key)];
      counter := counter + 1;
    }

    // A worker takes the smallest entry; a sentinel ends it.
    method WorkerTake(w: nat)
      requires Valid() && Enabled(View(), Get(w))
      modifies this`queue, this`workers, this`taken, registry
      ensures Valid() && View() == Step(old(View()), Get(w))
    {
      StepInv(View(), Get(w));
      var f := Front(queue);
      var e := queue[f];
      queue, taken := Remove(queue, f), taken + [e];
      match e
      case Sentinel(_) =>
        workers := workers[w := Exited];
      case Job(_, _, key) =>
        registry.BeginQueued(key);
        workers := workers[w := Processing(key)];
    }

    // The finally block, after process_task() returned, failed or was cancelled.
    method WorkerFinish(w: nat, cancel: bool)
      requires Valid() && w < |workers| && workers[w].Processing? && (cancel ==> cancelled)
      modifies this`workers, registry`inflight
      ensures Valid() && View() == Step(old(View()), if cancel then Cancelled(w) else Done(w))
    {
      StepInv(View(), if cancel then Cancelled(w) else Done(w));
      registry.Finish(workers[w].key);
      workers := workers[w := if cancel then Exited else Waiting];
    }

    // stop(), up to the wait for the workers.
    method StopPost()
      requires Valid() && Enabled(View(), Stop)
      modifies this`running, this`stopping, this`queue, this`counter
      ensures Valid() && View() == Step(old(View()), Stop)
    {
      StepInv(View(), Stop);
      if !running && workers == [] {
        return;
      }
      running, stopping := false, true;
      for i := 0 to |workers|
        invariant !running && stopping && counter == old(counter) + i
        invariant queue == old(queue) + Sentinels(old(counter), i)
      {
        queue := queue + [Sentinel(counter)];
        counter := counter + 1;
      }
    }

    // stop(), after every worker has ended.
    method StopClear()
      requires Valid() && Enabled(View(), StopFinish)
      modifies this, registry
      ensures View() == Step(old(View()), StopFinish)
      ensures Valid() <==> old(batches) == map[]
    {
      StopFinishIff(View());
      workers := [];
      queue := [];
      registry.Clear();
      stopping, cancelled := false, false;
    }

    // A batch is the second owner of task keys.
    method BatchTake(b: nat, taskId: string) returns (accepted: bool)
      requires Valid() && b !in batches
      modifies this`batches, registry`inflight
      ensures accepted == !Tracked(old(View()), Key(Offline, taskId))
      ensures Valid() && View() == Step(old(View()), BatchBegin(b, Key(Offline, taskId)))
      ensures accepted ==>
        batches == old(batches)[b := Key(Offline, taskId)] && Key(Offline, taskId) in registry.inflight
      ensures !accepted ==> batches == old(batches)
    {
      var key := Key(Offline, taskId);
      StepInv(View(), BatchBegin(b, key));
      accepted := registry.TryBeginExternal(key);
      if accepted {
        batches := batches[b := key];
      }
    }

    method BatchRelease(b: nat, taskId: string)
      requires Valid() && b in batches && batches[b] == Key(Offline, taskId)
      modifies this`batches, registry`inflight
      ensures Valid() && View() == Step(old(View()), BatchEnd(b))
      ensures batches == old(batches) - {b} && !Tracked(View(), Key(Offline, taskId))
    {
      StepInv(View(), BatchEnd(b));
      registry.Finish(Key(Offline, taskId));
      batches := batches - {b};
    }
  }

  // The facade: submissions only while the runtime is running, recovery before
  // the workers start.
  class OfflineTaskQueue {
    const runtime: QueueWorkerRuntime
    const enabled: bool
    const maxConcurrent: int
    const offlineService: bool
    const speakerService: bool

    ghost predicate Valid()
      reads this, runtime, runtime.registry
    {
      runtime.Valid()
    }

    constructor (enabled: bool, maxConcurrent: int, offlineService: bool, speakerService: bool)
      ensures Valid() && fresh(runtime) && fresh(runtime.registry) && runtime.View() == Init
      ensures this.enabled == enabled && this.maxConcurrent == maxConcurrent
      ensures this.offlineService == offlineService && this.speakerService == speakerService
    {
      this.enabled, this.maxConcurrent := enabled, maxConcurrent;
      this.offlineService, this.speakerService := offlineService, speakerService;
      runtime := new QueueWorkerRuntime();
    }

    predicate Supports(kind: Kind)
    {
      match kind
      case Offline => offlineService
      case Speaker => speakerService
    }

    predicate CanAccept(kind: Kind)
      reads runtime
    {
      enabled && runtime.running && Supports(kind)
    }

    // Returns false where the source raises TaskSubmissionUnavailableError.
    method Enqueue(submission: Submission) returns (available: bool)
      requires Valid()
      modifies runtime`queue, runtime`counter, runtime.registry`queued
      ensures Valid()
      ensures available == (enabled && old(runtime.running)
                            && if submission.key.kind.Offline? then offlineService else speakerService)
      ensures runtime.View() == if available then Step(old(runtime.View()), Action.Enqueue(submission))
                                else old(runtime.View())
    {
      available := CanAccept(submission.key.kind);
      if available {
        StepInv(runtime.View(), Action.Enqueue(submission));
        var accepted := runtime.Enqueue(submission);
      }
    }

    method RecoverPendingTasks(tasks: seq<TaskRepository.TaskRecord>, kind: Kind)
      modifies runtime`queue, runtime`counter, runtime.registry`queued
      ensures runtime.View() == Recover(old(runtime.View()), Submissions(tasks, kind))
    {
      ghost var all := Submissions(tasks, kind);
      for i := 0 to |tasks|
        invariant runtime.View() == Recover(old(runtime.View()), all[..i])
      {
        assert all[..i + 1][..i] == all[..i];
        var accepted := runtime.Enqueue(Submission(Key(kind, tasks[i].id), tasks[i].vip));
      }
      assert all[..|all|] == all;
    }

    // Recovery and start are one step: nothing runs in between.
    method Start(offline: seq<TaskRepository.TaskRecord>, speaker: seq<TaskRepository.TaskRecord>)
      requires Valid() && !runtime.stopping
      modifies runtime, runtime.registry`queued
      ensures Valid()
      ensures runtime.View() ==
        if !enabled || old(runtime.running) || !(offlineService || speakerService) then old(runtime.View())
        else Step(old(runtime.View()),
                  Action.Start(Recoverable(offline, speaker), maxConcurrent))
    {
      if !enabled || runtime.running || !(Supports(Offline) || Supports(Speaker)) {
        return;
      }
      ghost var before := runtime.View();
      StepInv(before, Action.Start(Recoverable(offline, speaker), maxConcurrent));
      RecoverAppend(before, if offlineService then Submissions(offline, Offline) else [],
                    if speakerService then Submissions(speaker, Speaker) else []);
      if Supports(Offline) {
        RecoverPendingTasks(offline, Offline);
      }
      if Supports(Speaker) {
        RecoverPendingTasks(speaker, Speaker);
      }
      runtime.Start(maxConcurrent);
    }

    ghost function Recoverable(offline: seq<TaskRepository.TaskRecord>, speaker: seq<TaskRepository.TaskRecord>)
      : seq<Submission>
    {
      (if offlineService then Submissions(offline, Offline) else [])
      + if speakerService then Submissions(speaker, Speaker) else []
    }
  }

  // How one task of a batch goes: its lookup, then its processing.
  datatype Answer = LookupRaised | Missing | Returned(ok: bool) | Raised

  datatype BatchResult = BatchResult(total: nat, completed: nat, failed: nat)

  function CountTrue(results: seq<bool>): (n: nat)
    ensures n <= |results|
  {
    if results == [] then 0
    else CountTrue(results[..|results| - 1]) + if results[|results| - 1] then 1 else 0
  }

  class ImmediateBatchProcessor {
    const enabled: bool
    const runtime: QueueWorkerRuntime

    constructor (enabled: bool, runtime: QueueWorkerRuntime)
      ensures this.enabled == enabled && this.runtime == runtime
    {
      this.enabled, this.runtime := enabled, runtime;
    }

    // An await of the batch: callers learn nothing about what workers,
    // submissions and other batches did meanwhile.
    method Await(b: nat)
      requires runtime.Valid()
      modifies runtime, runtime.registry
      ensures runtime.Valid()
      ensures b in runtime.batches <==> b in old(runtime.batches)
      ensures b in runtime.batches ==> runtime.batches[b] == old(runtime.batches[b])
    {
    }

    // `accepted` says whether the batch became the owner of the task, which it
    // does unless the task is tracked when it is looked at.
    method ProcessOne(b: nat, taskId: string, answer: Answer)
      returns (result: bool, accepted: bool, ghost seen: State)
      requires runtime.Valid() && b !in runtime.batches
      modifies runtime, runtime.registry
      ensures runtime.Valid() && b !in runtime.batches
      ensures result == (accepted && answer == Returned(true))
      ensures accepted <==>
        !answer.LookupRaised? && !answer.Missing? && !Tracked(seen, Key(Offline, taskId))
      ensures Inv(seen) && b !in seen.batches
    {
      accepted, seen := false, runtime.View();
      Await(b);  // task_repository.get_task
      if answer.LookupRaised? || answer.Missing? {
        return false, false, seen;
      }
      seen := runtime.View();
      accepted := runtime.BatchTake(b, taskId);
      if !accepted {
        return false, false, seen;
      }
      Await(b);  // task_service.process_task
      result := answer == Returned(true);
      runtime.BatchRelease(b, taskId);
    }

    // Every requested task counts once, as completed or as failed.
    method Process(b: nat, requested: seq<string>, answers: seq<Answer>)
      returns (summary: Option<BatchResult>, results: seq<bool>, accepted: seq<bool>, ghost seen: seq<State>)
      requires runtime.Valid() && b !in runtime.batches && |answers| == |requested|
      modifies runtime, runtime.registry
      ensures runtime.Valid() && b !in runtime.batches
      ensures summary.None? <==> !enabled
      ensures enabled ==>
        && |results| == |accepted| == |seen| == |requested|
        && (forall i :: 0 <= i < |results| ==> results[i] == (accepted[i] && answers[i] == Returned(true)))
        && (forall i :: 0 <= i < |results| ==> OwnedIff(accepted[i], answers[i], seen[i], requested[i]))
        && summary == Some(BatchResult(|requested|, multiset(results)[true], multiset(results)[false]))
    {
      results, accepted, seen := [], [], [];
      if !enabled {
        return None, [], [], [];  // RuntimeError
      }
      for i := 0 to |requested|
        invariant runtime.Valid() && b !in runtime.batches && |results| == |accepted| == |seen| == i
        invariant forall k :: 0 <= k < i ==> results[k] == (accepted[k] && answers[k] == Returned(true))
        invariant forall k :: 0 <= k < i ==> OwnedIff(accepted[k], answers[k], seen[k], requested[k])
      {
        ghost var now;
        var result, mine;
        result, mine, now := ProcessOne(b, requested[i], answers[i]);
        results, accepted, seen := results + [result], accepted + [mine], seen + [now];
      }
      CountTrueIs(results);
      summary := Some(BatchResult(|requested|, CountTrue(results), |requested| - CountTrue(results)));
    }

    // A batch owns a task that exists exactly if nobody tracks it.
    predicate OwnedIff(accepted: bool, answer: Answer, seen: State, taskId: string)
    {
      accepted <==> !answer.LookupRaised? && !answer.Missing? && !Tracked(seen, Key(Offline, taskId))
    }
  }

  lemma {:induction false} CountTrueIs(results: seq<bool>)
    ensures CountTrue(results) == multiset(results)[true]
    ensures |results| - CountTrue(results) == multiset(results)[false]
  {
    if results != [] {
      var n := |results| - 1;
      CountTrueIs(results[..n]);
      assert results == results[..n] + [results[n]];
    }
  }

  lemma {:induction false} RecoverAppend(s: State, a: seq<Submission>, b: seq<Submission>)
    ensures Recover(s, a + b) == Recover(Recover(s, a), b)
  {
    if b == [] {
      assert a + b == a;
    } else {
      assert (a + b)[..|a + b| - 1] == a + b[..|b| - 1];
      RecoverAppend(s, a, b[..|b| - 1]);
    }
  }
}
