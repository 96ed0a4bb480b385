// The task queue as a state machine: N workers, immediate batches and the stop
// sentinels share one priority queue and one registry of task keys.
//
// Code between two awaits is one step.  start() is synchronous and therefore
// one step together with the recovery it begins with.

module TaskQueue {
  import opened Arithmetic

  datatype Kind = Offline | Speaker

  datatype Key = Key(kind: Kind, id: string)

  datatype Submission = Submission(key: Key, vip: bool)

  // Queue entries in the order they were put; `order` is the unique counter.
  datatype Entry = Job(priority: int, order: nat, key: Key) | Sentinel(order: nat)

  datatype Worker = Waiting | Processing(key: Key) | Exited

  datatype State = State(
    queue: seq<Entry>,
    counter: nat,
    queued: set<Key>,         // the registry
    inflight: set<Key>,
    workers: seq<Worker>,
    batches: map<nat, Key>,   // the key each running batch holds at the moment
    running: bool,
    stopping: bool,
    cancelled: bool,          // the shutdown timed out and cancelled the workers
    taken: seq<Entry>)        // everything dequeued so far

  datatype Action =
    | Start(recovered: seq<Submission>, workerCount: int)
    | Enqueue(submission: Submission)
    | Get(worker: nat)
    | Done(worker: nat)
    | Cancelled(worker: nat)
    | BatchBegin(batch: nat, key: Key)
    | BatchEnd(batch: nat)
    | Stop
    | Timeout
    | StopFinish

  const Init := State([], 0, {}, {}, [], map[], false, false, false, [])

  function QueuePriority(vip: bool): int { if vip then 0 else 1 }

  function PriorityOf(e: Entry): int { if e.Sentinel? then -1 else e.priority }

  predicate Before(a: Entry, b: Entry)
  {
    PriorityOf(a) < PriorityOf(b) || (PriorityOf(a) == PriorityOf(b) && a.order < b.order)
  }

  // Position of the smallest entry.
  function Front(queue: seq<Entry>): (f: nat)
    requires queue != []
    ensures f < |queue|
  {
    var n := |queue| - 1;
    if n == 0 then 0
    else
      var f := Front(queue[..n]);
      if Before(queue[n], queue[f]) then n else f
  }

  function Remove<T>(xs: seq<T>, i: nat): seq<T>
    requires i < |xs|
  {
    xs[..i] + xs[i + 1..]
  }

  function Tracked(s: State, key: Key): bool { key in s.queued || key in s.inflight }

  // ------------------------------------------------------------------- steps

  function EnqueueStep(s: State, submission: Submission): State
  {
    if Tracked(s, submission.key) then s
    else s.(queued := s.queued + {submission.key}, counter := s.counter + 1,
            queue := s.queue + [Job(QueuePriority(submission.vip), s.counter, submission.key)])
  }

  function Recover(s: State, recovered: seq<Submission>): State
  {
    if recovered == [] then s
    else EnqueueStep(Recover(s, recovered[..|recovered| - 1]), recovered[|recovered| - 1])
  }

  function Idlers(n: nat): seq<Worker> { seq(n, i => Waiting) }

  function StartStep(s: State, recovered: seq<Submission>, workerCount: int): State
  {
    var r := Recover(s, recovered);
    r.(running := true, workers := r.workers + Idlers(Max(workerCount, 1)))
  }

  function GetStep(s: State, w: nat): State
    requires s.queue != [] && w < |s.workers|
  {
    var e := s.queue[Front(s.queue)];
    var s' := s.(queue := Remove(s.queue, Front(s.queue)), taken := s.taken + [e]);
    match e
    case Sentinel(_) => s'.(workers := s.workers[w := Exited])
    case Job(_, _, key) =>
      s'.(workers := s.workers[w := Processing(key)], queued := s.queued - {key}, inflight := s.inflight + {key})
  }

  function ReleaseStep(s: State, w: nat, next: Worker): State
    requires w < |s.workers|
  {
    s.(workers := s.workers[w := next],
       inflight := if s.workers[w].Processing? then s.inflight - {s.workers[w].key} else s.inflight)
  }

  function BatchBeginStep(s: State, b: nat, key: Key): State
  {
    if Tracked(s, key) then s else s.(inflight := s.inflight + {key}, batches := s.batches[b := key])
  }

  function BatchEndStep(s: State, b: nat): State
    requires b in s.batches
  {
    s.(inflight := s.inflight - {s.batches[b]}, batches := s.batches - {b})
  }

  function Sentinels(from: nat, n: nat): seq<Entry> { seq(n, i requires i >= 0 => Sentinel(from + i)) }

  function StopStep(s: State): State
  {
    if !s.running && s.workers == [] then s
    else s.(running := false, stopping := true, counter := s.counter + |s.workers|,
            queue := s.queue + Sentinels(s.counter, |s.workers|))
  }

  function StopFinishStep(s: State): State
  {
    s.(workers := [], queue := [], queued := {}, inflight := {}, stopping := false, cancelled := false)
  }

  // The source's own guards, and two of its callers': start() and stop() are
  // not called while a stop() is under way.
  predicate Enabled(s: State, a: Action)
  {
    match a
    case Start(_, _) => !s.running && !s.stopping
    case Enqueue(_) => s.running
    case Get(w) => w < |s.workers| && s.workers[w].Waiting? && s.queue != []
    case Done(w) => w < |s.workers| && s.workers[w].Processing?
    case Cancelled(w) => s.cancelled && w < |s.workers| && !s.workers[w].Exited?
    case BatchBegin(b, key) => b !in s.batches && key.kind == Offline
    case BatchEnd(b) => b in s.batches
    case Stop => !s.stopping
    case Timeout => s.stopping && !s.cancelled
    case StopFinish => s.stopping && forall w :: 0 <= w < |s.workers| ==> s.workers[w].Exited?
  }

  function Step(s: State, a: Action): State
    requires Enabled(s, a)
  {
    match a
    case Start(recovered, workerCount) => StartStep(s, recovered, workerCount)
    case Enqueue(submission) => EnqueueStep(s, submission)
    case Get(w) => GetStep(s, w)
    case Done(w) => ReleaseStep(s, w, Waiting)
    case Cancelled(w) => ReleaseStep(s, w, Exited)
    case BatchBegin(b, key) => BatchBeginStep(s, b, key)
    case BatchEnd(b) => BatchEndStep(s, b)
    case Stop => StopStep(s)
    case Timeout => s.(cancelled := true)
    case StopFinish => StopFinishStep(s)
  }

  // s reaches t by the actions of a run.
  ghost predicate IsRun(s: State, run: seq<Action>, t: State)
    decreases |run|
  {
    if run == [] then s == t
    else Enabled(s, run[0]) && IsRun(Step(s, run[0]), run[1..], t)
  }
}
