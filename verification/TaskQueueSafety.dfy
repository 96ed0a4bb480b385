// What every run of the task queue keeps: exclusive ownership of task keys,
// the stop protocol, and first-in first-out dispatch inside each class.

module TaskQueueSafety {
  import opened Arithmetic
  import opened TaskQueue

  // ------------------------------------------------------------- collections

  function JobKeys(queue: seq<Entry>): set<Key>
  {
    set i | 0 <= i < |queue| && queue[i].Job? :: queue[i].key
  }

  function Held(workers: seq<Worker>): set<Key>
  {
    set w | 0 <= w < |workers| && workers[w].Processing? :: workers[w].key
  }

  function Posted(queue: seq<Entry>): nat
  {
    if queue == [] then 0 else Posted(queue[..|queue| - 1]) + if queue[|queue| - 1].Sentinel? then 1 else 0
  }

  function Live(workers: seq<Worker>): nat
  {
    if workers == [] then 0 else Live(workers[..|workers| - 1]) + if workers[|workers| - 1].Exited? then 0 else 1
  }

  predicate InOrder(queue: seq<Entry>, i: nat, j: nat)
    requires i < j < |queue|
  {
    queue[i].order < queue[j].order && (queue[i].Job? && queue[j].Job? ==> queue[i].key != queue[j].key)
  }

  predicate EntryAt(queue: seq<Entry>, i: nat, counter: nat)
    requires i < |queue|
  {
    queue[i].order < counter && (queue[i].Job? ==> 0 <= queue[i].priority <= 1)
  }

  // Entries in counter order, each key at most once.
  predicate QueueOk(queue: seq<Entry>, counter: nat)
  {
    && (forall i: nat :: i < |queue| ==> EntryAt(queue, i, counter))
    && (forall i: nat, j: nat :: i < j < |queue| ==> InOrder(queue, i, j))
  }

  predicate OtherKeys(workers: seq<Worker>, v: nat, w: nat)
    requires v < w < |workers|
  {
    workers[v].Processing? && workers[w].Processing? ==> workers[v].key != workers[w].key
  }

  predicate OtherBatches(batches: map<nat, Key>, b: nat, c: nat)
    requires b in batches && c in batches
  {
    b != c ==> batches[b] != batches[c]
  }

  predicate BatchApart(workers: seq<Worker>, batches: map<nat, Key>, w: nat, b: nat)
    requires w < |workers| && b in batches
  {
    workers[w].Processing? ==> workers[w].key != batches[b]
  }

  // No key has two owners.
  predicate Exclusive(workers: seq<Worker>, batches: map<nat, Key>)
  {
    && (forall v: nat, w: nat :: v < w < |workers| ==> OtherKeys(workers, v, w))
    && (forall b: nat, c: nat :: b in batches && c in batches ==> OtherBatches(batches, b, c))
    && (forall w: nat, b: nat :: w < |workers| && b in batches ==> BatchApart(workers, batches, w, b))
  }

  // The registry is exact: its queued part is the queue's keys, its in-flight
  // part the keys held by workers and batches, and the two are disjoint.
  predicate Ownership(s: State)
  {
    && s.queued == JobKeys(s.queue)
    && s.inflight == Held(s.workers) + s.batches.Values
    && s.queued !! s.inflight
    && Exclusive(s.workers, s.batches)
  }

  predicate StopOk(s: State)
  {
    if s.stopping then
      && !s.running && Posted(s.queue) >= Live(s.workers)
      && (!s.cancelled ==> Posted(s.queue) == Live(s.workers))
    else
      && !s.cancelled && Posted(s.queue) == 0 && Live(s.workers) == |s.workers|
      && (!s.running ==> s.workers == [] && s.queue == [])
  }

  predicate SameClass(a: Entry, b: Entry) { PriorityOf(a) == PriorityOf(b) }

  predicate TakenInOrder(taken: seq<Entry>, i: nat, j: nat)
    requires i < j < |taken|
  {
    SameClass(taken[i], taken[j]) ==> taken[i].order < taken[j].order
  }

  predicate TakenFirst(taken: seq<Entry>, queue: seq<Entry>, i: nat, j: nat)
    requires i < |taken| && j < |queue|
  {
    SameClass(taken[i], queue[j]) ==> taken[i].order < queue[j].order
  }

  // Inside each class entries leave the queue in the order they entered it.
  predicate Fifo(s: State)
  {
    && (forall i: nat :: i < |s.taken| ==> s.taken[i].order < s.counter)
    && (forall i: nat, j: nat :: i < j < |s.taken| ==> TakenInOrder(s.taken, i, j))
    && (forall i: nat, j: nat :: i < |s.taken| && j < |s.queue| ==> TakenFirst(s.taken, s.queue, i, j))
  }

  predicate Core(s: State)
  {
    QueueOk(s.queue, s.counter) && Ownership(s) && Fifo(s)
  }

  predicate Inv(s: State)
  {
    Core(s) && StopOk(s)
  }

  lemma InitInv()
    ensures Inv(Init)
  {
    assert JobKeys(Init.queue) == {} && Held(Init.workers) == {} && Init.batches.Values == {};
  }

  // -------------------------------------------------------------- the minimum

  lemma {:induction false} FrontIsMinimum(queue: seq<Entry>, j: nat)
    requires queue != [] && j < |queue|
    requires forall a: nat, b: nat :: a < b < |queue| ==> queue[a].order < queue[b].order
    ensures j != Front(queue) ==> Before(queue[Front(queue)], queue[j])
  {
    var n := |queue| - 1;
    if n > 0 {
      var f := Front(queue[..n]);
      if j < n {
        FrontIsMinimum(queue[..n], j);
      }
    }
  }

  lemma FrontIsFirst(s: State, j: nat)
    requires QueueOk(s.queue, s.counter) && j < |s.queue| && j != Front(s.queue)
    ensures Before(s.queue[Front(s.queue)], s.queue[j])
  {
    forall a: nat, b: nat | a < b < |s.queue|
      ensures s.queue[a].order < s.queue[b].order
    {
      assert InOrder(s.queue, a, b);
    }
    FrontIsMinimum(s.queue, j);
  }

  // ------------------------------------------------------------------- counts

  lemma {:induction false} PostedAppend(a: seq<Entry>, b: seq<Entry>)
    ensures Posted(a + b) == Posted(a) + Posted(b)
  {
    if b == [] {
      assert a + b == a;
    } else {
      assert (a + b)[..|a + b| - 1] == a + b[..|b| - 1];
      PostedAppend(a, b[..|b| - 1]);
    }
  }

  lemma PostedOne(e: Entry)
    ensures Posted([e]) == if e.Sentinel? then 1 else 0
  {
    assert [e][..0] == [];
  }

  lemma {:induction false} PostedRemove(queue: seq<Entry>, i: nat)
    requires i < |queue|
    ensures Posted(Remove(queue, i)) == Posted(queue) - if queue[i].Sentinel? then 1 else 0
  {
    var n := |queue| - 1;
    if i == n {
      assert Remove(queue, i) == queue[..n];
    } else {
      assert Remove(queue, i)[..n - 1] == Remove(queue[..n], i);
      PostedRemove(queue[..n], i);
    }
  }

  lemma {:induction false} PostedSentinels(from: nat, n: nat)
    ensures Posted(Sentinels(from, n)) == n
  {
    if n > 0 {
      assert Sentinels(from, n)[..n - 1] == Sentinels(from, n - 1);
      PostedSentinels(from, n - 1);
    }
  }

  lemma {:induction false} NoneOrOnePosted(queue: seq<Entry>)
    ensures Posted(queue) > 0 <==> exists i :: 0 <= i < |queue| && queue[i].Sentinel?
  {
    if queue != [] {
      var n := |queue| - 1;
      NoneOrOnePosted(queue[..n]);
      assert forall i :: 0 <= i < n ==> queue[..n][i] == queue[i];
    }
  }

  lemma {:induction false} LiveUpdate(workers: seq<Worker>, w: nat, next: Worker)
    requires w < |workers|
    ensures Live(workers[w := next])
         == Live(workers) - (if workers[w].Exited? then 0 else 1) + (if next.Exited? then 0 else 1)
  {
    var n := |workers| - 1;
    if w < n {
      assert workers[w := next][..n] == workers[..n][w := next];
      LiveUpdate(workers[..n], w, next);
    } else {
      assert workers[w := next][..n] == workers[..n];
    }
  }

  lemma {:induction false} LiveIdlers(n: nat)
    ensures Live(Idlers(n)) == n
  {
    if n > 0 {
      assert Idlers(n)[..n - 1] == Idlers(n - 1);
      LiveIdlers(n - 1);
    }
  }

  lemma {:induction false} LiveCount(workers: seq<Worker>)
    ensures Live(workers) <= |workers|
    ensures Live(workers) > 0 <==> exists w :: 0 <= w < |workers| && !workers[w].Exited?
  {
    if workers != [] {
      var n := |workers| - 1;
      LiveCount(workers[..n]);
      assert forall w :: 0 <= w < n ==> workers[..n][w] == workers[w];
    }
  }

  // --------------------------------------------------------- keys and holders

  lemma KeysAppend(queue: seq<Entry>, e: Entry)
    ensures JobKeys(queue + [e]) == JobKeys(queue) + if e.Job? then {e.key} else {}
  {
    var all := queue + [e];
    forall k | k in JobKeys(queue)
      ensures k in JobKeys(all)
    {
      var i :| 0 <= i < |queue| && queue[i].Job? && queue[i].key == k;
      assert all[i] == queue[i];
    }
    assert all[|queue|] == e;
  }

  lemma KeysRemove(queue: seq<Entry>, counter: nat, i: nat)
    requires QueueOk(queue, counter) && i < |queue|
    ensures JobKeys(Remove(queue, i)) == JobKeys(queue) - if queue[i].Job? then {queue[i].key} else {}
  {
    var rest := Remove(queue, i);
    forall k | k in JobKeys(queue) && (queue[i].Job? ==> k != queue[i].key)
      ensures k in JobKeys(rest)
    {
      var j :| 0 <= j < |queue| && queue[j].Job? && queue[j].key == k;
      assert rest[if j < i then j else j - 1] == queue[j];
    }
    forall k | k in JobKeys(rest)
      ensures k in JobKeys(queue) && (queue[i].Job? ==> k != queue[i].key)
    {
      var j: nat :| j < |rest| && rest[j].Job? && rest[j].key == k;
      if j < i {
        assert rest[j] == queue[j] && InOrder(queue, j, i);
      } else {
        assert rest[j] == queue[j + 1] && InOrder(queue, i, j + 1);
      }
    }
  }

  lemma HeldTake(workers: seq<Worker>, w: nat, key: Key)
    requires w < |workers| && !workers[w].Processing?
    ensures Held(workers[w := Processing(key)]) == Held(workers) + {key}
  {
    var now := workers[w := Processing(key)];
    forall k | k in Held(workers)
      ensures k in Held(now)
    {
      var v :| 0 <= v < |workers| && workers[v].Processing? && workers[v].key == k;
      assert now[v] == workers[v];
    }
    assert now[w] == Processing(key);
  }

  lemma HeldRelease(workers: seq<Worker>, w: nat, next: Worker)
    requires w < |workers| && !next.Processing?
    requires forall v: nat, u: nat :: v < u < |workers| ==> OtherKeys(workers, v, u)
    ensures Held(workers[w := next]) == Held(workers) - if workers[w].Processing? then {workers[w].key} else {}
  {
    var now := workers[w := next];
    forall k | k in Held(workers) && (workers[w].Processing? ==> k != workers[w].key)
      ensures k in Held(now)
    {
      var v :| 0 <= v < |workers| && workers[v].Processing? && workers[v].key == k;
      assert now[v] == workers[v];
    }
    forall k | k in Held(now)
      ensures k in Held(workers) && (workers[w].Processing? ==> k != workers[w].key)
    {
      var v: nat :| v < |now| && now[v].Processing? && now[v].key == k;
      assert now[v] == workers[v] && v != w;
      if v < w {
        assert OtherKeys(workers, v, w);
      } else {
        assert OtherKeys(workers, w, v);
      }
    }
  }

  // A worker that takes a key nobody holds.
  lemma TakeExclusive(workers: seq<Worker>, batches: map<nat, Key>, w: nat, key: Key)
    requires Exclusive(workers, batches) && w < |workers|
    requires key !in Held(workers) && key !in batches.Values
    ensures Exclusive(workers[w := Processing(key)], batches)
  {
    var now := workers[w := Processing(key)];
    forall v: nat, u: nat | v < u < |now|
      ensures OtherKeys(now, v, u)
    {
      assert OtherKeys(workers, v, u);
      assert workers[v].Processing? ==> workers[v].key in Held(workers);
      assert workers[u].Processing? ==> workers[u].key in Held(workers);
    }
    forall v: nat, b: nat | v < |now| && b in batches
      ensures BatchApart(now, batches, v, b)
    {
      assert BatchApart(workers, batches, v, b);
      assert batches[b] in batches.Values;
    }
  }

  lemma ReleaseExclusive(workers: seq<Worker>, batches: map<nat, Key>, w: nat, next: Worker)
    requires Exclusive(workers, batches) && w < |workers| && !next.Processing?
    ensures Exclusive(workers[w := next], batches)
  {
    var now := workers[w := next];
    forall v: nat, u: nat | v < u < |now|
      ensures OtherKeys(now, v, u)
    {
      assert OtherKeys(workers, v, u);
    }
    forall v: nat, b: nat | v < |now| && b in batches
      ensures BatchApart(now, batches, v, b)
    {
      assert BatchApart(workers, batches, v, b);
    }
  }

  lemma BatchTake(workers: seq<Worker>, batches: map<nat, Key>, b: nat, key: Key)
    requires Exclusive(workers, batches) && b !in batches
    requires key !in Held(workers) && key !in batches.Values
    ensures Exclusive(workers, batches[b := key]) && batches[b := key].Values == batches.Values + {key}
  {
    var now := batches[b := key];
    forall c: nat, d: nat | c in now && d in now
      ensures OtherBatches(now, c, d)
    {
      assert c in batches && d in batches ==> OtherBatches(batches, c, d);
      assert c in batches ==> batches[c] in batches.Values;
      assert d in batches ==> batches[d] in batches.Values;
    }
    forall v: nat, c: nat | v < |workers| && c in now
      ensures BatchApart(workers, now, v, c)
    {
      assert c in batches ==> BatchApart(workers, batches, v, c);
      assert workers[v].Processing? ==> workers[v].key in Held(workers);
    }
    assert now[b] == key && forall c :: c in batches ==> now[c] == batches[c];
  }

  lemma BatchRelease(workers: seq<Worker>, batches: map<nat, Key>, b: nat)
    requires Exclusive(workers, batches) && b in batches
    ensures Exclusive(workers, batches - {b}) && (batches - {b}).Values == batches.Values - {batches[b]}
    ensures batches[b] !in Held(workers)
  {
    var now := batches - {b};
    forall c: nat, d: nat | c in now && d in now
      ensures OtherBatches(now, c, d)
    {
      assert OtherBatches(batches, c, d);
    }
    forall v: nat, c: nat | v < |workers| && c in now
      ensures BatchApart(workers, now, v, c)
    {
      assert BatchApart(workers, batches, v, c);
    }
    forall k | k in now.Values
      ensures k in batches.Values && k != batches[b]
    {
      var c :| c in now && now[c] == k;
      assert OtherBatches(batches, b, c);
    }
    forall k | k in batches.Values && k != batches[b]
      ensures k in now.Values
    {
      var c :| c in batches && batches[c] == k;
      assert c in now && now[c] == k;
    }
    forall k | k in Held(workers)
      ensures k != batches[b]
    {
      var v: nat :| v < |workers| && workers[v].Processing? && workers[v].key == k;
      assert BatchApart(workers, batches, v, b);
    }
  }

  // -------------------------------------------------------------- the queue

  lemma QueueAppend(queue: seq<Entry>, counter: nat, e: Entry)
    requires QueueOk(queue, counter) && e.order == counter
    requires e.Job? ==> 0 <= e.priority <= 1 && e.key !in JobKeys(queue)
    ensures QueueOk(queue + [e], counter + 1)
  {
    var all, next := queue + [e], counter + 1;
    forall i: nat | i < |all|
      ensures EntryAt(all, i, next)
    {
      assert i < |queue| ==> EntryAt(queue, i, counter);
    }
    forall i: nat, j: nat | i < j < |all|
      ensures InOrder(all, i, j)
    {
      assert EntryAt(queue, i, counter);
      if j < |queue| {
        assert InOrder(queue, i, j);
      } else if queue[i].Job? {
        assert queue[i].key in JobKeys(queue);
      }
    }
  }

  lemma {:induction false} QueueSentinels(queue: seq<Entry>, counter: nat, n: nat)
    requires QueueOk(queue, counter)
    ensures QueueOk(queue + Sentinels(counter, n), counter + n)
    ensures JobKeys(queue + Sentinels(counter, n)) == JobKeys(queue)
  {
    if n == 0 {
      assert queue + Sentinels(counter, n) == queue;
    } else {
      QueueSentinels(queue, counter, n - 1);
      var e := Sentinel(counter + n - 1);
      assert queue + Sentinels(counter, n) == queue + Sentinels(counter, n - 1) + [e];
      QueueAppend(queue + Sentinels(counter, n - 1), counter + n - 1, e);
      KeysAppend(queue + Sentinels(counter, n - 1), e);
    }
  }

  lemma QueueRemove(queue: seq<Entry>, counter: nat, i: nat)
    requires QueueOk(queue, counter) && i < |queue|
    ensures QueueOk(Remove(queue, i), counter)
  {
    var rest := Remove(queue, i);
    forall j: nat | j < |rest|
      ensures EntryAt(rest, j, counter)
    {
      assert EntryAt(queue, if j < i then j else j + 1, counter);
    }
    forall j: nat, k: nat | j < k < |rest|
      ensures InOrder(rest, j, k)
    {
      assert InOrder(queue, if j < i then j else j + 1, if k < i then k else k + 1);
    }
  }

  // Entries put later do not disturb the dispatch order.
  lemma FifoGrow(s: State, t: State)
    requires Fifo(s) && t.taken == s.taken && t.counter >= s.counter && |t.queue| >= |s.queue|
    requires forall j :: 0 <= j < |s.queue| ==> t.queue[j] == s.queue[j]
    requires forall j :: |s.queue| <= j < |t.queue| ==> t.queue[j].order >= s.counter
    ensures Fifo(t)
  {
    forall i: nat, j: nat | i < j < |t.taken|
      ensures TakenInOrder(t.taken, i, j)
    {
      assert TakenInOrder(s.taken, i, j);
    }
    forall i: nat, j: nat | i < |t.taken| && j < |t.queue|
      ensures TakenFirst(t.taken, t.queue, i, j)
    {
      if j < |s.queue| {
        assert TakenFirst(s.taken, s.queue, i, j);
      }
    }
  }

  lemma FifoTake(s: State, t: State)
    requires QueueOk(s.queue, s.counter) && Fifo(s) && s.queue != []
    requires t.queue == Remove(s.queue, Front(s.queue)) && t.taken == s.taken + [s.queue[Front(s.queue)]]
    requires t.counter == s.counter
    ensures Fifo(t)
  {
    var f := Front(s.queue);
    assert EntryAt(s.queue, f, s.counter);
    forall i: nat, j: nat | i < j < |t.taken|
      ensures TakenInOrder(t.taken, i, j)
    {
      if j < |s.taken| {
        assert TakenInOrder(s.taken, i, j);
      } else {
        assert TakenFirst(s.taken, s.queue, i, f);
      }
    }
    forall i: nat, j: nat | i < |t.taken| && j < |t.queue|
      ensures TakenFirst(t.taken, t.queue, i, j)
    {
      var k := if j < f then j else j + 1;
      assert t.queue[j] == s.queue[k];
      if i < |s.taken| {
        assert TakenFirst(s.taken, s.queue, i, k);
      } else {
        FrontIsFirst(s, k);
      }
    }
  }

  // ------------------------------------------------------------ preservation

  lemma EnqueueCore(s: State, submission: Submission)
    requires Core(s)
    ensures Core(EnqueueStep(s, submission))
    ensures Posted(EnqueueStep(s, submission).queue) == Posted(s.queue)
  {
    if !Tracked(s, submission.key) {
      var e := Job(QueuePriority(submission.vip), s.counter, submission.key);
      QueueAppend(s.queue, s.counter, e);
      KeysAppend(s.queue, e);
      PostedAppend(s.queue, [e]);
      PostedOne(e);
      FifoGrow(s, EnqueueStep(s, submission));
    }
  }

  lemma {:induction false} RecoverCore(s: State, recovered: seq<Submission>)
    requires Core(s)
    ensures var t := Recover(s, recovered);
            && Core(t) && Posted(t.queue) == Posted(s.queue)
            && t.workers == s.workers && t.stopping == s.stopping && t.cancelled == s.cancelled
  {
    if recovered != [] {
      var n := |recovered| - 1;
      RecoverCore(s, recovered[..n]);
      EnqueueCore(Recover(s, recovered[..n]), recovered[n]);
    }
  }

  // Fresh workers hold nothing.
  lemma LaunchCore(s: State, n: nat)
    requires Core(s) && s.workers == []
    ensures Core(s.(running := true, workers := s.workers + Idlers(n)))
  {
    var t := s.(running := true, workers := s.workers + Idlers(n));
    assert Held(t.workers) == {} == Held(s.workers);
    FifoGrow(s, t);
  }

  lemma StartInv(s: State, recovered: seq<Submission>, workerCount: int)
    requires Inv(s) && Enabled(s, Start(recovered, workerCount))
    ensures Inv(StartStep(s, recovered, workerCount))
  {
    RecoverCore(s, recovered);
    LiveIdlers(Max(workerCount, 1));
    LaunchCore(Recover(s, recovered), Max(workerCount, 1));
    assert [] + Idlers(Max(workerCount, 1)) == Idlers(Max(workerCount, 1));
  }

  lemma GetInv(s: State, w: nat)
    requires Inv(s) && Enabled(s, Get(w))
    ensures Inv(GetStep(s, w))
  {
    var f, t := Front(s.queue), GetStep(s, w);
    QueueRemove(s.queue, s.counter, f);
    PostedRemove(s.queue, f);
    FifoTake(s, t);
    LiveUpdate(s.workers, w, t.workers[w]);
    NoneOrOnePosted(s.queue);
    GetOwnership(s, w);
  }

  lemma GetOwnership(s: State, w: nat)
    requires Core(s) && Enabled(s, Get(w))
    ensures Ownership(GetStep(s, w))
  {
    var f := Front(s.queue);
    KeysRemove(s.queue, s.counter, f);
    match s.queue[f]
    case Sentinel(_) =>
      HeldRelease(s.workers, w, Exited);
      ReleaseExclusive(s.workers, s.batches, w, Exited);
    case Job(_, _, key) =>
      assert key in JobKeys(s.queue);
      HeldTake(s.workers, w, key);
      TakeExclusive(s.workers, s.batches, w, key);
  }

  lemma ReleaseInv(s: State, w: nat, next: Worker)
    requires Inv(s) && w < |s.workers| && (s.workers[w].Processing? || next.Exited?)
    requires next.Waiting? || (next.Exited? && s.cancelled)
    ensures Inv(ReleaseStep(s, w, next))
  {
    HeldRelease(s.workers, w, next);
    ReleaseExclusive(s.workers, s.batches, w, next);
    LiveUpdate(s.workers, w, next);
    FifoGrow(s, ReleaseStep(s, w, next));
    if s.workers[w].Processing? {
      KeyNotInBatches(s, w);
    }
  }

  lemma KeyNotInBatches(s: State, w: nat)
    requires Exclusive(s.workers, s.batches) && w < |s.workers| && s.workers[w].Processing?
    ensures s.workers[w].key !in s.batches.Values
  {
    forall k | k in s.batches.Values
      ensures k != s.workers[w].key
    {
      var b :| b in s.batches && s.batches[b] == k;
      assert BatchApart(s.workers, s.batches, w, b);
    }
  }

  lemma BatchBeginInv(s: State, b: nat, key: Key)
    requires Inv(s) && Enabled(s, BatchBegin(b, key))
    ensures Inv(BatchBeginStep(s, b, key))
  {
    if !Tracked(s, key) {
      BatchTake(s.workers, s.batches, b, key);
      FifoGrow(s, BatchBeginStep(s, b, key));
    }
  }

  lemma BatchEndInv(s: State, b: nat)
    requires Inv(s) && Enabled(s, BatchEnd(b))
    ensures Inv(BatchEndStep(s, b))
  {
    BatchRelease(s.workers, s.batches, b);
    FifoGrow(s, BatchEndStep(s, b));
  }

  lemma StopInv(s: State)
    requires Inv(s) && Enabled(s, Stop)
    ensures Inv(StopStep(s))
  {
    if s.running || s.workers != [] {
      QueueSentinels(s.queue, s.counter, |s.workers|);
      PostedAppend(s.queue, Sentinels(s.counter, |s.workers|));
      PostedSentinels(s.counter, |s.workers|);
      FifoGrow(s, StopStep(s));
    }
  }

  // The end of stop() forgets every key, including those a batch still holds:
  // ownership survives exactly when no batch is in flight.
  lemma StopFinishIff(s: State)
    requires Inv(s) && Enabled(s, StopFinish)
    ensures Inv(StopFinishStep(s)) <==> s.batches == map[]
  {
    var t := StopFinishStep(s);
    FifoGrowEmpty(s, t);
    if s.batches == map[] {
      assert s.batches.Values == {};
    } else {
      var b :| b in s.batches;
      assert s.batches[b] in t.batches.Values;
    }
  }

  lemma FifoGrowEmpty(s: State, t: State)
    requires Fifo(s) && t.taken == s.taken && t.counter == s.counter && t.queue == []
    ensures Fifo(t)
  {
    forall i: nat, j: nat | i < j < |t.taken|
      ensures TakenInOrder(t.taken, i, j)
    {
      assert TakenInOrder(s.taken, i, j);
    }
  }

  // A step that does not end a stop() under a running batch.
  predicate Calm(s: State, a: Action) { a.StopFinish? ==> s.batches == map[] }

  lemma StepInv(s: State, a: Action)
    requires Inv(s) && Enabled(s, a) && Calm(s, a)
    ensures Inv(Step(s, a))
  {
    match a
    case Start(recovered, workerCount) => StartInv(s, recovered, workerCount);
    case Enqueue(submission) => EnqueueCore(s, submission);
    case Get(w) => GetInv(s, w);
    case Done(w) => ReleaseInv(s, w, Waiting);
    case Cancelled(w) => ReleaseInv(s, w, Exited);
    case BatchBegin(b, key) => BatchBeginInv(s, b, key);
    case BatchEnd(b) => BatchEndInv(s, b);
    case Stop => StopInv(s);
    case Timeout => FifoGrow(s, Step(s, a));
    case StopFinish => StopFinishIff(s);
  }
}
