// Main results about the task queue: one owner per key, and the stop protocol.

module TaskQueueResults {
  import opened TaskQueue
  import opened TaskQueueSafety

  // A run in which no stop() ends under a running batch.
  ghost predicate IsCalmRun(s: State, run: seq<Action>, t: State)
    decreases |run|
  {
    if run == [] then s == t
    else Enabled(s, run[0]) && Calm(s, run[0]) && IsCalmRun(Step(s, run[0]), run[1..], t)
  }

  lemma {:induction false} RunInv(s: State, run: seq<Action>, t: State)
    requires Inv(s) && IsCalmRun(s, run, t)
    ensures Inv(t)
    decreases |run|
  {
    if run != [] {
      StepInv(s, run[0]);
      RunInv(Step(s, run[0]), run[1..], t);
    }
  }

  // -------------------------------------------------------------- one owner

  datatype Owner = ByWorker(worker: nat) | ByBatch(batch: nat) | ByQueue(position: nat)

  // An owner processes a key, or will process it once it is dequeued.
  predicate Owns(s: State, o: Owner, key: Key)
  {
    match o
    case ByWorker(w) => w < |s.workers| && s.workers[w] == Processing(key)
    case ByBatch(b) => b in s.batches && s.batches[b] == key
    case ByQueue(i) => i < |s.queue| && s.queue[i].Job? && s.queue[i].key == key
  }

  lemma OwnsTracked(s: State, o: Owner, key: Key)
    requires Inv(s) && Owns(s, o, key)
    ensures if o.ByQueue? then key in s.queued else key in s.inflight
  {
    match o
    case ByWorker(w) => assert key in Held(s.workers);
    case ByBatch(b) => assert key in s.batches.Values;
    case ByQueue(i) => assert key in JobKeys(s.queue);
  }

  lemma DifferentKeys(s: State, o: Owner, p: Owner, k: Key, l: Key)
    requires Inv(s) && Owns(s, o, k) && Owns(s, p, l) && o != p
    ensures k != l
  {
    OwnsTracked(s, o, k);
    OwnsTracked(s, p, l);
    match (o, p)
    case (ByWorker(v), ByWorker(w)) =>
      assert if v < w then OtherKeys(s.workers, v, w) else OtherKeys(s.workers, w, v);
    case (ByBatch(b), ByBatch(c)) => assert OtherBatches(s.batches, b, c);
    case (ByQueue(i), ByQueue(j)) => assert if i < j then InOrder(s.queue, i, j) else InOrder(s.queue, j, i);
    case (ByWorker(w), ByBatch(b)) => assert BatchApart(s.workers, s.batches, w, b);
    case (ByBatch(b), ByWorker(w)) => assert BatchApart(s.workers, s.batches, w, b);
    case (ByQueue(_), ByWorker(_)) =>
    case (ByQueue(_), ByBatch(_)) =>
    case (ByWorker(_), ByQueue(_)) =>
    case (ByBatch(_), ByQueue(_)) =>
  }

  // In every reachable state a key has at most one owner, and the registry
  // tracks exactly the owned keys.
  lemma OneOwner(run: seq<Action>, t: State, key: Key)
    requires IsCalmRun(Init, run, t)
    ensures forall o, p :: Owns(t, o, key) && Owns(t, p, key) ==> o == p
    ensures Tracked(t, key) <==> exists o :: Owns(t, o, key)
  {
    InitInv();
    RunInv(Init, run, t);
    forall o, p | o != p && Owns(t, o, key)
      ensures !Owns(t, p, key)
    {
      if Owns(t, p, key) {
        DifferentKeys(t, o, p, key, key);
        assert false;
      }
    }
    forall o | Owns(t, o, key)
      ensures Tracked(t, key)
    {
      OwnsTracked(t, o, key);
    }
    if key in t.queued {
      var i: nat :| i < |t.queue| && t.queue[i].Job? && t.queue[i].key == key;
      assert Owns(t, ByQueue(i), key);
    } else if key in Held(t.workers) {
      var w: nat :| w < |t.workers| && t.workers[w].Processing? && t.workers[w].key == key;
      assert Owns(t, ByWorker(w), key);
    } else if key in t.inflight {
      var b :| b in t.batches && t.batches[b] == key;
      assert Owns(t, ByBatch(b), key);
    }
  }

  lemma Launch(s: State)
    requires s.workers == []
    ensures StartStep(s, [], 1) == s.(running := true, workers := [Waiting])
  {
    assert [] + Idlers(1) == [Waiting];
  }

  lemma TakeOnly(s: State, e: Entry)
    requires s.queue == [e]
    ensures Front(s.queue) == 0 && Remove(s.queue, 0) == []
  {
  }

  lemma OneStep(s: State, a: Action, run: seq<Action>, t: State)
    requires Enabled(s, a) && IsRun(Step(s, a), run, t)
    ensures IsRun(s, [a] + run, t)
  {
    assert ([a] + run)[1..] == run;
  }

  // A stop() under a running batch makes the registry forget its key.
  lemma StopForgets(key: Key, run: seq<Action>, t: State)
    requires key.kind == Offline
    requires IsRun(State([], 1, {}, {}, [], map[0 := key], false, false, false, [Sentinel(0)]), run, t)
    ensures IsRun(Init, [Start([], 1)] + ([BatchBegin(0, key)] + ([Stop] + ([Get(0)] + ([StopFinish] + run)))), t)
  {
    var s1 := Init.(running := true, workers := [Waiting]);
    var s2 := s1.(inflight := {key}, batches := map[0 := key]);
    var s3 := s2.(running := false, stopping := true, counter := 1, queue := [Sentinel(0)]);
    var s4 := s3.(queue := [], taken := [Sentinel(0)], workers := [Exited]);
    OneStep(s4, StopFinish, run, t);
    TakeOnly(s3, Sentinel(0));
    assert GetStep(s3, 0) == s4 by { assert [] + [Sentinel(0)] == [Sentinel(0)]; }
    OneStep(s3, Get(0), [StopFinish] + run, t);
    assert Sentinels(0, 1) == [Sentinel(0)];
    OneStep(s2, Stop, [Get(0)] + ([StopFinish] + run), t);
    OneStep(s1, BatchBegin(0, key), [Stop] + ([Get(0)] + ([StopFinish] + run)), t);
    Launch(Init);
    OneStep(Init, Start([], 1), [BatchBegin(0, key)] + ([Stop] + ([Get(0)] + ([StopFinish] + run))), t);
  }

  // Over a whole run entries of one class leave the queue in the order in which
  // they entered it, whatever was enqueued in between.
  lemma DequeuedInOrder(run: seq<Action>, t: State, i: nat, j: nat)
    requires IsCalmRun(Init, run, t)
    requires i < j < |t.taken| && PriorityOf(t.taken[i]) == PriorityOf(t.taken[j])
    ensures t.taken[i].order < t.taken[j].order
    ensures forall k :: 0 <= k < |t.queue| && PriorityOf(t.queue[k]) == PriorityOf(t.taken[j]) ==>
              t.taken[j].order < t.queue[k].order
  {
    InitInv();
    RunInv(Init, run, t);
    assert TakenInOrder(t.taken, i, j);
    forall k: nat | k < |t.queue| && PriorityOf(t.queue[k]) == PriorityOf(t.taken[j])
      ensures t.taken[j].order < t.queue[k].order
    {
      assert TakenFirst(t.taken, t.queue, j, k);
    }
  }

  // Why the condition is needed: after a restart a worker takes the key again,
  // and two owners process it at once.
  lemma StopUnderBatchBreaksOwnership(key: Key) returns (run: seq<Action>, t: State)
    requires key.kind == Offline
    ensures IsRun(Init, run, t)
    ensures Owns(t, ByWorker(0), key) && Owns(t, ByBatch(0), key)
  {
    var e := Job(1, 1, key);
    var s5 := State([], 1, {}, {}, [], map[0 := key], false, false, false, [Sentinel(0)]);
    var s6 := s5.(running := true, workers := [Waiting]);
    var s7 := s6.(queued := {key}, counter := 2, queue := [e]);
    TakeOnly(s7, e);
    t := s7.(queue := [], taken := [Sentinel(0), e], workers := [Processing(key)], queued := {}, inflight := {key});
    assert GetStep(s7, 0) == t;
    OneStep(s7, Get(0), [], t);
    OneStep(s6, Enqueue(Submission(key, false)), [Get(0)] + [], t);
    Launch(s5);
    run := [Start([], 1)] + ([Enqueue(Submission(key, false))] + ([Get(0)] + []));
    OneStep(s5, Start([], 1), [Enqueue(Submission(key, false))] + ([Get(0)] + []), t);
    StopForgets(key, run, t);
    run := [Start([], 1)] + ([BatchBegin(0, key)] + ([Stop] + ([Get(0)] + ([StopFinish] + run))));
  }

  // -------------------------------------------------------------- shutdown

  // Once the sentinels are posted every dequeue yields one.
  lemma StoppingGetsSentinel(s: State, w: nat)
    requires Inv(s) && s.stopping && Enabled(s, Get(w))
    ensures s.queue[Front(s.queue)].Sentinel? && GetStep(s, w).workers[w].Exited?
  {
    LiveCount(s.workers);
    NoneOrOnePosted(s.queue);
    var i: nat :| i < |s.queue| && s.queue[i].Sentinel?;
    var f := Front(s.queue);
    if i != f {
      FrontIsFirst(s, i);
      assert EntryAt(s.queue, f, s.counter);
    }
  }

  // What happens between the sentinels and the end of stop(): no worker begins
  // a task, the queued tasks stay, only sentinels are dequeued, and without a
  // timeout each of them lets exactly one worker exit.
  predicate Quieter(s: State, t: State)
  {
    && t.stopping && |t.workers| == |s.workers|
    && Held(t.workers) <= Held(s.workers) && JobKeys(t.queue) == JobKeys(s.queue)
    && s.taken <= t.taken && (forall i :: |s.taken| <= i < |t.taken| ==> t.taken[i].Sentinel?)
    && |t.taken| - |s.taken| <= Live(s.workers) - Live(t.workers)
    && (!t.cancelled ==> !s.cancelled && |t.taken| - |s.taken| == Live(s.workers) - Live(t.workers))
  }

  lemma GetQuieter(s: State, w: nat)
    requires Inv(s) && s.stopping && Enabled(s, Get(w))
    ensures Quieter(s, GetStep(s, w))
  {
    StoppingGetsSentinel(s, w);
    KeysRemove(s.queue, s.counter, Front(s.queue));
    HeldRelease(s.workers, w, Exited);
    LiveUpdate(s.workers, w, Exited);
  }

  lemma StepQuieter(s: State, a: Action)
    requires Inv(s) && s.stopping && Enabled(s, a) && !a.StopFinish?
    ensures Quieter(s, Step(s, a))
  {
    match a
    case Get(w) => GetQuieter(s, w);
    case Done(w) =>
      HeldRelease(s.workers, w, Waiting);
      LiveUpdate(s.workers, w, Waiting);
    case Cancelled(w) =>
      HeldRelease(s.workers, w, Exited);
      LiveUpdate(s.workers, w, Exited);
    case Start(_, _) =>
    case Enqueue(_) =>
    case BatchBegin(_, _) =>
    case BatchEnd(_) =>
    case Stop =>
    case Timeout =>
  }

  lemma {:induction false} RunQuieter(s: State, run: seq<Action>, t: State)
    requires Inv(s) && s.stopping && IsCalmRun(s, run, t) && StopFinish !in run
    ensures Inv(t) && Quieter(s, t)
    decreases |run|
  {
    if run != [] {
      StepInv(s, run[0]);
      StepQuieter(s, run[0]);
      RunQuieter(Step(s, run[0]), run[1..], t);
    }
  }

  // From the call of stop() to its end: as many sentinels are dequeued as
  // there are workers, nothing else, and none is left over.
  lemma ShutdownExact(s: State, run: seq<Action>, t: State)
    requires Inv(s) && s.running && Enabled(s, Stop)
    requires IsCalmRun(StopStep(s), run, t) && StopFinish !in run && Enabled(t, StopFinish)
    ensures JobKeys(t.queue) == JobKeys(s.queue)
    ensures s.taken <= t.taken && forall i :: |s.taken| <= i < |t.taken| ==> t.taken[i].Sentinel?
    ensures |t.taken| <= |s.taken| + |s.workers|
    ensures !t.cancelled ==> |t.taken| == |s.taken| + |s.workers| && Posted(t.queue) == 0
  {
    StopInv(s);
    RunQuieter(StopStep(s), run, t);
    LiveCount(t.workers);
    QueueSentinels(s.queue, s.counter, |s.workers|);
  }

  function Work(workers: seq<Worker>): nat
  {
    if workers == [] then 0
    else
      var last := workers[|workers| - 1];
      Work(workers[..|workers| - 1]) + if last.Processing? then 2 else if last.Waiting? then 1 else 0
  }

  lemma {:induction false} WorkUpdate(workers: seq<Worker>, w: nat, next: Worker)
    requires w < |workers|
    ensures Work(workers[w := next]) - Work(workers) == Work([next]) - Work([workers[w]])
  {
    var n := |workers| - 1;
    assert [next][..0] == [] && [workers[w]][..0] == [];
    if w < n {
      assert workers[w := next][..n] == workers[..n][w := next];
      WorkUpdate(workers[..n], w, next);
    } else {
      assert workers[w := next][..n] == workers[..n];
    }
  }

  // The shutdown cannot get stuck: until every worker has exited some worker
  // can move, each such move uses up work, and nothing else adds any.
  lemma ShutdownProgress(s: State) returns (a: Action)
    requires Inv(s) && s.stopping && !Enabled(s, StopFinish)
    ensures Enabled(s, a) && (a.Get? || a.Done?) && Work(Step(s, a).workers) < Work(s.workers)
  {
    var w: nat :| w < |s.workers| && !s.workers[w].Exited?;
    LiveCount(s.workers);
    NoneOrOnePosted(s.queue);
    assert [Waiting][..0] == [] && [Exited][..0] == [] && [s.workers[w]][..0] == [];
    if s.workers[w].Waiting? {
      a := Get(w);
      StoppingGetsSentinel(s, w);
      WorkUpdate(s.workers, w, Exited);
    } else {
      a := Done(w);
      WorkUpdate(s.workers, w, Waiting);
    }
  }

  lemma ShutdownAddsNoWork(s: State, a: Action)
    requires Inv(s) && s.stopping && Enabled(s, a) && !a.StopFinish?
    ensures Work(Step(s, a).workers) <= Work(s.workers)
    ensures a.Get? || a.Done? || a.Cancelled? ==> Work(Step(s, a).workers) < Work(s.workers)
  {
    match a
    case Get(w) =>
      StoppingGetsSentinel(s, w);
      WorkUpdate(s.workers, w, Exited);
      assert [Waiting][..0] == [] && [Exited][..0] == [];
    case Done(w) =>
      WorkUpdate(s.workers, w, Waiting);
      assert [Waiting][..0] == [] && [s.workers[w]][..0] == [];
    case Cancelled(w) =>
      WorkUpdate(s.workers, w, Exited);
      assert [s.workers[w]][..0] == [] && [Exited][..0] == [];
    case Start(_, _) =>
    case Enqueue(_) =>
    case BatchBegin(_, _) =>
    case BatchEnd(_) =>
    case Stop =>
    case Timeout =>
  }
}
