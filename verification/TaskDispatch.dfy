// In which order the task queue hands out its entries.

module TaskDispatch {
  import opened Wrappers
  import opened TaskQueue
  import opened TaskQueueSafety
  import opened TaskQueueResults
  import TaskRepository

  // Dequeuing until nothing is left.
  function Dispatch(queue: seq<Entry>): seq<Entry>
    decreases |queue|
  {
    if queue == [] then []
    else
      var f := Front(queue);
      [queue[f]] + Dispatch(Remove(queue, f))
  }

  function OfPriority(queue: seq<Entry>, p: int): seq<Entry>
  {
    if queue == [] then []
    else
      var last := queue[|queue| - 1];
      OfPriority(queue[..|queue| - 1], p) + if PriorityOf(last) == p then [last] else []
  }

  // Sentinels, VIP jobs, other jobs, each group in the order of arrival.
  function Grouped(queue: seq<Entry>): seq<Entry>
  {
    OfPriority(queue, -1) + OfPriority(queue, 0) + OfPriority(queue, 1)
  }

  lemma {:induction false} OfPriorityAppend(a: seq<Entry>, b: seq<Entry>, p: int)
    ensures OfPriority(a + b, p) == OfPriority(a, p) + OfPriority(b, p)
  {
    if b == [] {
      assert a + b == a;
    } else {
      var n := |b| - 1;
      assert (a + b)[..|a + b| - 1] == a + b[..n];
      OfPriorityAppend(a, b[..n], p);
    }
  }

  lemma {:induction false} NoneOfPriority(queue: seq<Entry>, p: int)
    requires forall i :: 0 <= i < |queue| ==> PriorityOf(queue[i]) != p
    ensures OfPriority(queue, p) == []
  {
    if queue != [] {
      NoneOfPriority(queue[..|queue| - 1], p);
    }
  }

  lemma OfPrioritySplit(a: seq<Entry>, e: Entry, b: seq<Entry>, p: int)
    ensures OfPriority(a + [e] + b, p)
         == OfPriority(a, p) + (if PriorityOf(e) == p then [e] else []) + OfPriority(b, p)
  {
    OfPriorityAppend(a + [e], b, p);
    assert (a + [e])[..|a|] == a;
  }

  lemma NoneBeforeFront(queue: seq<Entry>, counter: nat)
    requires QueueOk(queue, counter) && queue != []
    ensures OfPriority(queue[..Front(queue)], PriorityOf(queue[Front(queue)])) == []
  {
    var f := Front(queue);
    forall i | 0 <= i < f
      ensures PriorityOf(queue[..f][i]) != PriorityOf(queue[f])
    {
      FrontBefore(queue, counter, i);
      assert InOrder(queue, i, f);
    }
    NoneOfPriority(queue[..f], PriorityOf(queue[f]));
  }

  lemma NoneBelowFront(queue: seq<Entry>, counter: nat, p: int)
    requires QueueOk(queue, counter) && queue != [] && p < PriorityOf(queue[Front(queue)])
    ensures OfPriority(queue, p) == []
  {
    forall i | 0 <= i < |queue|
      ensures PriorityOf(queue[i]) != p
    {
      if i != Front(queue) {
        FrontBefore(queue, counter, i);
      }
    }
    NoneOfPriority(queue, p);
  }

  // Taking the smallest entry takes the head of its group.
  lemma RemoveOfPriority(queue: seq<Entry>, counter: nat, p: int)
    requires QueueOk(queue, counter) && queue != []
    ensures var e, rest := queue[Front(queue)], Remove(queue, Front(queue));
            OfPriority(queue, p) == (if PriorityOf(e) == p then [e] else []) + OfPriority(rest, p)
  {
    var f := Front(queue);
    var a, e, b := queue[..f], queue[f], queue[f + 1..];
    assert queue == a + [e] + b;
    OfPrioritySplit(a, e, b, p);
    OfPriorityAppend(a, b, p);
    NoneBeforeFront(queue, counter);
  }

  lemma FrontBefore(queue: seq<Entry>, counter: nat, j: nat)
    requires QueueOk(queue, counter) && j < |queue| && j != Front(queue)
    ensures Before(queue[Front(queue)], queue[j])
  {
    FrontIsFirst(Init.(queue := queue, counter := counter), j);
  }

  lemma JoinGroups<T>(e: T, p: int, x: seq<T>, y: seq<T>, z: seq<T>, a: seq<T>, b: seq<T>, c: seq<T>)
    requires -1 <= p <= 1
    requires x == (if p == -1 then [e] else []) + a && y == (if p == 0 then [e] else []) + b
    requires z == (if p == 1 then [e] else []) + c
    requires (-1 < p ==> x == []) && (0 < p ==> y == [])
    ensures x + y + z == [e] + (a + b + c)
  {
  }

  lemma GroupedStep(queue: seq<Entry>, counter: nat)
    requires QueueOk(queue, counter) && queue != []
    ensures Grouped(queue) == [queue[Front(queue)]] + Grouped(Remove(queue, Front(queue)))
  {
    var e, rest := queue[Front(queue)], Remove(queue, Front(queue));
    RemoveOfPriority(queue, counter, -1);
    RemoveOfPriority(queue, counter, 0);
    RemoveOfPriority(queue, counter, 1);
    assert EntryAt(queue, Front(queue), counter);
    if PriorityOf(e) > -1 {
      NoneBelowFront(queue, counter, -1);
    }
    if PriorityOf(e) > 0 {
      NoneBelowFront(queue, counter, 0);
    }
    JoinGroups(e, PriorityOf(e), OfPriority(queue, -1), OfPriority(queue, 0), OfPriority(queue, 1),
               OfPriority(rest, -1), OfPriority(rest, 0), OfPriority(rest, 1));
  }

  // Dequeuing is a stable partition by priority: a job that is not VIP waits
  // for every VIP job, and each class is served in the order of arrival.
  lemma {:induction false} DispatchIsGrouped(queue: seq<Entry>, counter: nat)
    requires QueueOk(queue, counter)
    ensures Dispatch(queue) == Grouped(queue)
    decreases |queue|
  {
    if queue != [] {
      QueueRemove(queue, counter, Front(queue));
      DispatchIsGrouped(Remove(queue, Front(queue)), counter);
      GroupedStep(queue, counter);
    }
  }

  // A job that is not VIP is dequeued only when no VIP job is queued.
  lemma NonVipOnlyWithoutVip(s: State, w: nat)
    requires Inv(s) && Enabled(s, Get(w)) && PriorityOf(s.queue[Front(s.queue)]) == QueuePriority(false)
    ensures forall i :: 0 <= i < |s.queue| ==> PriorityOf(s.queue[i]) == QueuePriority(false)
  {
    forall i | 0 <= i < |s.queue|
      ensures PriorityOf(s.queue[i]) == QueuePriority(false)
    {
      assert EntryAt(s.queue, i, s.counter);
      if i != Front(s.queue) {
        FrontIsFirst(s, i);
      }
    }
  }

  // --------------------------------------------------------------- whole runs

  // The entries put before the counter reached a bound.
  function Older(entries: seq<Entry>, bound: nat): seq<Entry>
  {
    if entries == [] then []
    else
      var last := entries[|entries| - 1];
      var front := Older(entries[..|entries| - 1], bound);
      if last.order < bound then front + [last] else front
  }

  lemma {:induction false} OlderConcat(a: seq<Entry>, b: seq<Entry>, bound: nat)
    ensures Older(a + b, bound) == Older(a, bound) + Older(b, bound)
  {
    if b == [] {
      assert a + b == a;
    } else {
      assert (a + b)[..|a + b| - 1] == a + b[..|b| - 1];
      OlderConcat(a, b[..|b| - 1], bound);
    }
  }

  lemma {:induction false} OlderAll(entries: seq<Entry>, bound: nat)
    requires forall e :: e in entries ==> e.order < bound
    ensures Older(entries, bound) == entries
  {
    if entries != [] {
      OlderAll(entries[..|entries| - 1], bound);
    }
  }

  lemma {:induction false} OlderKeeps(entries: seq<Entry>, bound: nat, e: Entry)
    requires e in entries && e.order < bound
    ensures e in Older(entries, bound)
  {
    if e in entries[..|entries| - 1] {
      OlderKeeps(entries[..|entries| - 1], bound, e);
    }
  }

  lemma {:induction false} NoneOlder(entries: seq<Entry>, bound: nat, p: int)
    requires forall e :: e in entries ==> e.order >= bound
    ensures Older(OfPriority(entries, p), bound) == []
  {
    if entries != [] {
      var n := |entries| - 1;
      NoneOlder(entries[..n], bound, p);
      assert [entries[n]][..0] == [];
      OlderConcat(OfPriority(entries[..n], p), if PriorityOf(entries[n]) == p then [entries[n]] else [], bound);
    }
  }

  lemma OlderGroups(queue: seq<Entry>, bound: nat)
    ensures Older(Grouped(queue), bound)
         == Older(OfPriority(queue, -1), bound) + Older(OfPriority(queue, 0), bound)
          + Older(OfPriority(queue, 1), bound)
  {
    OlderConcat(OfPriority(queue, -1) + OfPriority(queue, 0), OfPriority(queue, 1), bound);
    OlderConcat(OfPriority(queue, -1), OfPriority(queue, 0), bound);
  }

  lemma OlderOfPriority(queue: seq<Entry>, more: seq<Entry>, bound: nat, p: int)
    requires forall e :: e in more ==> e.order >= bound
    ensures Older(OfPriority(queue + more, p), bound) == Older(OfPriority(queue, p), bound)
  {
    OfPriorityAppend(queue, more, p);
    OlderConcat(OfPriority(queue, p), OfPriority(more, p), bound);
    NoneOlder(more, bound, p);
  }

  // Later arrivals do not change the order among the older entries.
  lemma LaterArrivals(queue: seq<Entry>, more: seq<Entry>, counter: nat, later: nat, bound: nat)
    requires QueueOk(queue, counter) && QueueOk(queue + more, later)
    requires forall e :: e in more ==> e.order >= bound
    ensures Older(Dispatch(queue + more), bound) == Older(Dispatch(queue), bound)
  {
    DispatchIsGrouped(queue, counter);
    DispatchIsGrouped(queue + more, later);
    OlderOfPriority(queue, more, bound, -1);
    OlderOfPriority(queue, more, bound, 0);
    OlderOfPriority(queue, more, bound, 1);
    OlderGroups(queue, bound);
    OlderGroups(queue + more, bound);
  }

  lemma {:induction false} RecoverArrivals(s: State, recovered: seq<Submission>) returns (more: seq<Entry>)
    ensures Recover(s, recovered).queue == s.queue + more && Recover(s, recovered).taken == s.taken
    ensures Recover(s, recovered).counter >= s.counter
    ensures forall e :: e in more ==> e.order >= s.counter
  {
    more := [];
    if recovered != [] {
      more := RecoverArrivals(s, recovered[..|recovered| - 1]);
      var r := Recover(s, recovered[..|recovered| - 1]);
      var last := recovered[|recovered| - 1];
      if !Tracked(r, last.key) {
        more := more + [Job(QueuePriority(last.vip), r.counter, last.key)];
      }
    }
  }

  // What a step puts into the queue; only a dequeue and the end of a stop take
  // anything out.
  lemma Arrivals(s: State, a: Action) returns (more: seq<Entry>)
    requires Enabled(s, a) && !a.Get? && !a.StopFinish?
    ensures Step(s, a).queue == s.queue + more && Step(s, a).taken == s.taken
    ensures Step(s, a).counter >= s.counter
    ensures forall e :: e in more ==> e.order >= s.counter
  {
    more := [];
    match a
    case Start(recovered, _) => more := RecoverArrivals(s, recovered);
    case Enqueue(submission) =>
      if !Tracked(s, submission.key) {
        more := [Job(QueuePriority(submission.vip), s.counter, submission.key)];
      }
    case Stop =>
      if s.running || s.workers != [] {
        more := Sentinels(s.counter, |s.workers|);
      }
    case Done(_) | Cancelled(_) | BatchBegin(_, _) | BatchEnd(_) | Timeout =>
  }

  // From s to t the older entries leave the queue in the order in which they
  // would be drained at s; with `kept` none of them is lost.
  predicate Drains(s: State, t: State, bound: nat, kept: bool)
  {
    && s.taken <= t.taken && bound <= t.counter
    && var all, now := Older(Dispatch(s.queue), bound),
                       Older(t.taken[|s.taken|..], bound) + Older(Dispatch(t.queue), bound);
       now <= all && (kept ==> now == all)
  }

  lemma StepDrains(s: State, a: Action, bound: nat)
    requires Inv(s) && Enabled(s, a) && Calm(s, a) && bound <= s.counter
    ensures Drains(s, Step(s, a), bound, !a.StopFinish?)
  {
    if a.Get? {
      GetDrains(s, a.worker, bound);
    } else if a.StopFinish? {
      assert s.taken[|s.taken|..] == [];
    } else {
      var more := Arrivals(s, a);
      StepInv(s, a);
      ArrivalDrains(s, Step(s, a), more, bound);
    }
  }

  lemma ArrivalDrains(s: State, t: State, more: seq<Entry>, bound: nat)
    requires QueueOk(s.queue, s.counter) && QueueOk(t.queue, t.counter) && bound <= s.counter <= t.counter
    requires t.queue == s.queue + more && t.taken == s.taken && forall e :: e in more ==> e.order >= s.counter
    ensures Drains(s, t, bound, true)
  {
    assert t.taken[|s.taken|..] == [];
    LaterArrivals(s.queue, more, s.counter, t.counter, bound);
  }

  lemma GetDrains(s: State, w: nat, bound: nat)
    requires Enabled(s, Get(w)) && bound <= s.counter
    ensures Drains(s, GetStep(s, w), bound, true)
  {
    var e, t := s.queue[Front(s.queue)], GetStep(s, w);
    assert t.taken[|s.taken|..] == [e];
    OlderConcat([e], Dispatch(t.queue), bound);
  }

  lemma JoinParts<T>(a: seq<T>, x: seq<T>, all: seq<T>, b: seq<T>, y: seq<T>)
    requires a + x <= all && b + y <= x
    ensures a + b + y <= all && (a + x == all && b + y == x ==> a + b + y == all)
  {
    assert a + b + y == a + (b + y);
  }

  lemma DrainsTwice(s: State, u: State, t: State, bound: nat, first: bool, second: bool)
    requires Drains(s, u, bound, first) && Drains(u, t, bound, second)
    ensures Drains(s, t, bound, first && second)
  {
    var a, b := u.taken[|s.taken|..], t.taken[|u.taken|..];
    assert t.taken[|s.taken|..] == a + b;
    OlderConcat(a, b, bound);
    JoinParts(Older(a, bound), Older(Dispatch(u.queue), bound), Older(Dispatch(s.queue), bound),
              Older(b, bound), Older(Dispatch(t.queue), bound));
  }

  // Whatever is enqueued, processed or shut down meanwhile, the entries older
  // than a bound leave the queue exactly as if it were drained on the spot;
  // until a stop() ends none of them is lost.
  lemma {:induction false} DequeuedAsDispatched(s: State, run: seq<Action>, t: State, bound: nat)
    requires Inv(s) && IsCalmRun(s, run, t) && bound <= s.counter
    ensures Drains(s, t, bound, StopFinish !in run)
    decreases |run|
  {
    if run == [] {
      assert t.taken[|s.taken|..] == [];
    } else {
      StepInv(s, run[0]);
      StepDrains(s, run[0], bound);
      DequeuedAsDispatched(Step(s, run[0]), run[1..], t, bound);
      DrainsTwice(s, Step(s, run[0]), t, bound, !run[0].StopFinish?, StopFinish !in run[1..]);
    }
  }

  // No entry is dequeued twice.
  lemma TakenOnce(t: State, i: nat, j: nat)
    requires Fifo(t) && i < j < |t.taken|
    ensures t.taken[i] != t.taken[j]
  {
    assert TakenInOrder(t.taken, i, j);
  }

  lemma LostAtStop(s: State, run: seq<Action>, t: State, j: nat)
    requires Inv(s) && s.queue == [] && IsCalmRun(s, run, t) && |s.taken| <= j < |t.taken|
    ensures t.taken[j].order >= s.counter
  {
    DequeuedAsDispatched(s, run, t, s.counter);
    assert t.taken[j] == t.taken[|s.taken|..][j - |s.taken|];
    if t.taken[j].order < s.counter {
      OlderKeeps(t.taken[|s.taken|..], s.counter, t.taken[j]);
    }
  }

  lemma StillQueued(s: State, a: Action, x: Entry)
    requires Enabled(s, a) && !a.StopFinish? && x in s.queue
    requires a.Get? ==> x != s.queue[Front(s.queue)]
    ensures x in Step(s, a).queue
  {
    if a.Get? {
      var f := Front(s.queue);
      var k :| 0 <= k < |s.queue| && s.queue[k] == x;
      assert Remove(s.queue, f)[if k < f then k else k - 1] == x;
    } else {
      var more := Arrivals(s, a);
    }
  }

  // The first entry dequeued comes before every other queued one.
  lemma FirstTaken(s: State, w: nat, t: State, j: nat)
    requires Inv(s) && Enabled(s, Get(w)) && Inv(t) && GetStep(s, w).taken <= t.taken
    requires |s.taken| < j < |t.taken| && t.taken[j] in s.queue
    ensures Before(t.taken[|s.taken|], t.taken[j]) && t.taken[j] != s.queue[Front(s.queue)]
  {
    var k: nat :| k < |s.queue| && s.queue[k] == t.taken[j];
    assert GetStep(s, w).taken[|s.taken|] == t.taken[|s.taken|];
    TakenOnce(t, |s.taken|, j);
    FrontIsFirst(s, k);
  }

  lemma NotLost(s: State, a: Action, run: seq<Action>, t: State, j: nat)
    requires Inv(s) && Enabled(s, a) && Calm(s, a) && IsCalmRun(Step(s, a), run, t)
    requires |s.taken| <= j < |t.taken| && t.taken[j] in s.queue
    ensures !a.StopFinish?
  {
    if a.StopFinish? {
      var k: nat :| k < |s.queue| && s.queue[k] == t.taken[j];
      assert EntryAt(s.queue, k, s.counter);
      StepInv(s, a);
      LostAtStop(Step(s, a), run, t, j);
    }
  }

  // What one step of a run means for an entry that is queued and taken later.
  lemma Overtaken(s: State, a: Action, run: seq<Action>, t: State, j: nat)
    requires Inv(s) && Enabled(s, a) && Calm(s, a) && IsCalmRun(Step(s, a), run, t)
    requires |s.taken| < j < |t.taken| && t.taken[j] in s.queue
    ensures Inv(Step(s, a)) && t.taken[j] in Step(s, a).queue
    ensures |Step(s, a).taken| == |s.taken| + if a.Get? then 1 else 0
    ensures a.Get? ==> Before(t.taken[|s.taken|], t.taken[j])
  {
    StepInv(s, a);
    RunInv(Step(s, a), run, t);
    DequeuedAsDispatched(Step(s, a), run, t, 0);
    NotLost(s, a, run, t, j);
    StepTakes(s, a);
    if a.Get? {
      FirstTaken(s, a.worker, t, j);
    }
    StillQueued(s, a, t.taken[j]);
  }

  // An entry overtakes a queued one only if it comes before it, by priority or
  // else by counter, however much later it was put.
  lemma {:induction false} OvertakersComeBefore(s: State, run: seq<Action>, t: State, i: nat, j: nat)
    requires Inv(s) && IsCalmRun(s, run, t)
    requires |s.taken| <= i < j < |t.taken| && t.taken[j] in s.queue
    ensures Before(t.taken[i], t.taken[j])
    decreases |run|
  {
    if run != [] {
      Overtaken(s, run[0], run[1..], t, j);
      if i >= |Step(s, run[0]).taken| {
        OvertakersComeBefore(Step(s, run[0]), run[1..], t, i, j);
      }
    }
  }

  lemma StepTakes(s: State, a: Action)
    requires Enabled(s, a)
    ensures |Step(s, a).taken| == |s.taken| + if a.Get? then 1 else 0
  {
    if !a.Get? && !a.StopFinish? {
      var more := Arrivals(s, a);
    }
  }

  // -------------------------------------------------------------- recovery

  // The queue after recovering tasks none of which is tracked yet.
  function Entries(recovered: seq<Submission>, counter: nat): seq<Entry>
  {
    if recovered == [] then []
    else
      var n := |recovered| - 1;
      Entries(recovered[..n], counter) + [Job(QueuePriority(recovered[n].vip), counter + n, recovered[n].key)]
  }

  predicate DistinctAt(recovered: seq<Submission>, i: nat, j: nat)
    requires i < j < |recovered|
  {
    recovered[i].key != recovered[j].key
  }

  predicate DistinctKeys(recovered: seq<Submission>)
  {
    forall i: nat, j: nat :: i < j < |recovered| ==> DistinctAt(recovered, i, j)
  }

  function KeySet(recovered: seq<Submission>): set<Key>
  {
    set i | 0 <= i < |recovered| :: recovered[i].key
  }

  lemma FrontDistinct(recovered: seq<Submission>)
    requires recovered != [] && DistinctKeys(recovered)
    ensures DistinctKeys(recovered[..|recovered| - 1])
  {
    var front := recovered[..|recovered| - 1];
    forall i: nat, j: nat | i < j < |front|
      ensures DistinctAt(front, i, j)
    {
      assert DistinctAt(recovered, i, j);
    }
  }

  lemma {:induction false} RecoverEntries(s: State, recovered: seq<Submission>)
    requires s.queue == [] && s.queued == {} && DistinctKeys(recovered) && KeySet(recovered) !! s.inflight
    ensures var r := Recover(s, recovered);
            && r.queue == Entries(recovered, s.counter) && r.counter == s.counter + |recovered|
            && r.queued == KeySet(recovered) && r.inflight == s.inflight
  {
    if recovered == [] {
      assert KeySet(recovered) == {};
    } else {
      var n := |recovered| - 1;
      var front := recovered[..n];
      FrontDistinct(recovered);
      forall k | k in KeySet(front)
        ensures k in KeySet(recovered) && k != recovered[n].key
      {
        var i: nat :| i < n && front[i].key == k;
        assert DistinctAt(recovered, i, n) && recovered[i] == front[i];
      }
      RecoverEntries(s, front);
      assert recovered[n].key in KeySet(recovered);
      forall k | k in KeySet(recovered) && k != recovered[n].key
        ensures k in KeySet(front)
      {
        var i :| 0 <= i < |recovered| && recovered[i].key == k;
        assert front[i] == recovered[i];
      }
      assert KeySet(recovered) == KeySet(front) + {recovered[n].key};
    }
  }

  function Keys(queue: seq<Entry>, kind: Kind): seq<Key>
  {
    if queue == [] then []
    else
      var last := queue[|queue| - 1];
      var front := Keys(queue[..|queue| - 1], kind);
      if last.Job? && last.key.kind == kind then front + [last.key] else front
  }

  lemma {:induction false} KeysConcat(a: seq<Entry>, b: seq<Entry>, kind: Kind)
    ensures Keys(a + b, kind) == Keys(a, kind) + Keys(b, kind)
  {
    if b == [] {
      assert a + b == a;
    } else {
      assert (a + b)[..|a + b| - 1] == a + b[..|b| - 1];
      KeysConcat(a, b[..|b| - 1], kind);
    }
  }

  predicate VipOrder(recovered: seq<Submission>, kind: Kind, i: nat, j: nat)
    requires i < j < |recovered|
  {
    recovered[i].key.kind == kind && recovered[j].key.kind == kind && recovered[j].vip ==> recovered[i].vip
  }

  // Within one kind, VIP tasks come first.
  predicate VipsLead(recovered: seq<Submission>, kind: Kind)
  {
    forall i: nat, j: nat :: i < j < |recovered| ==> VipOrder(recovered, kind, i, j)
  }

  function KeysOf(recovered: seq<Submission>, kind: Kind): seq<Key>
  {
    if recovered == [] then []
    else
      var last := recovered[|recovered| - 1];
      KeysOf(recovered[..|recovered| - 1], kind) + if last.key.kind == kind then [last.key] else []
  }

  // The recovered keys of one kind that go into one priority class.
  function ClassKeys(recovered: seq<Submission>, kind: Kind, vip: bool): seq<Key>
  {
    if recovered == [] then []
    else
      var last := recovered[|recovered| - 1];
      var mine := last.vip == vip && last.key.kind == kind;
      ClassKeys(recovered[..|recovered| - 1], kind, vip) + if mine then [last.key] else []
  }

  lemma {:induction false} NoOthersBeforeVip(recovered: seq<Submission>, kind: Kind)
    requires forall i :: 0 <= i < |recovered| && recovered[i].key.kind == kind ==> recovered[i].vip
    ensures ClassKeys(recovered, kind, false) == []
  {
    if recovered != [] {
      NoOthersBeforeVip(recovered[..|recovered| - 1], kind);
    }
  }

  lemma OneMore(recovered: seq<Submission>, counter: nat, kind: Kind, p: int)
    requires recovered != []
    ensures var n := |recovered| - 1;
            var mine := QueuePriority(recovered[n].vip) == p && recovered[n].key.kind == kind;
            Keys(OfPriority(Entries(recovered, counter), p), kind)
            == Keys(OfPriority(Entries(recovered[..n], counter), p), kind) + if mine then [recovered[n].key] else []
  {
    var n := |recovered| - 1;
    var front := Entries(recovered[..n], counter);
    var e := Job(QueuePriority(recovered[n].vip), counter + n, recovered[n].key);
    assert (front + [e])[..|front|] == front;
    var group := OfPriority(front, p);
    assert (group + [e])[..|group|] == group && group + [] == group;
  }

  lemma {:induction false} EntriesClass(recovered: seq<Submission>, counter: nat, kind: Kind, vip: bool)
    ensures Keys(OfPriority(Entries(recovered, counter), QueuePriority(vip)), kind) == ClassKeys(recovered, kind, vip)
  {
    if recovered != [] {
      EntriesClass(recovered[..|recovered| - 1], counter, kind, vip);
      OneMore(recovered, counter, kind, QueuePriority(vip));
    }
  }

  lemma FrontVips(recovered: seq<Submission>, kind: Kind)
    requires recovered != [] && VipsLead(recovered, kind)
    ensures VipsLead(recovered[..|recovered| - 1], kind)
  {
    var front := recovered[..|recovered| - 1];
    forall i: nat, j: nat | i < j < |front|
      ensures VipOrder(front, kind, i, j)
    {
      assert VipOrder(recovered, kind, i, j);
    }
  }

  lemma {:induction false} ClassesJoin(recovered: seq<Submission>, kind: Kind)
    requires VipsLead(recovered, kind)
    ensures ClassKeys(recovered, kind, true) + ClassKeys(recovered, kind, false) == KeysOf(recovered, kind)
  {
    if recovered != [] {
      var n := |recovered| - 1;
      var front, last := recovered[..n], recovered[n];
      FrontVips(recovered, kind);
      ClassesJoin(front, kind);
      if last.key.kind == kind && last.vip {
        forall i | 0 <= i < n && front[i].key.kind == kind
          ensures front[i].vip
        {
          assert VipOrder(recovered, kind, i, n);
        }
        NoOthersBeforeVip(front, kind);
      }
    }
  }

  lemma {:induction false} NoSentinels(recovered: seq<Submission>, counter: nat)
    ensures OfPriority(Entries(recovered, counter), -1) == []
  {
    if recovered != [] {
      var n := |recovered| - 1;
      NoSentinels(recovered[..n], counter);
      var front := Entries(recovered[..n], counter);
      assert Entries(recovered, counter)[..|front|] == front;
    }
  }

  lemma DispatchOfEntries(recovered: seq<Submission>, counter: nat, later: nat, kind: Kind)
    requires QueueOk(Entries(recovered, counter), later) && VipsLead(recovered, kind)
    ensures Keys(Dispatch(Entries(recovered, counter)), kind) == KeysOf(recovered, kind)
  {
    var queue := Entries(recovered, counter);
    var vips, others := OfPriority(queue, 0), OfPriority(queue, 1);
    DispatchIsGrouped(queue, later);
    NoSentinels(recovered, counter);
    assert Dispatch(queue) == vips + others;
    KeysConcat(vips, others, kind);
    EntriesClass(recovered, counter, kind, true);
    EntriesClass(recovered, counter, kind, false);
    ClassesJoin(recovered, kind);
  }

  // The recovered tasks that no batch is processing; the others are skipped.
  function Free(recovered: seq<Submission>, held: set<Key>): seq<Submission>
  {
    if recovered == [] then []
    else
      var last := recovered[|recovered| - 1];
      var front := Free(recovered[..|recovered| - 1], held);
      if last.key in held then front else front + [last]
  }

  lemma {:induction false} FreeIsPart(recovered: seq<Submission>, held: set<Key>)
    ensures KeySet(Free(recovered, held)) !! held
    ensures forall x :: x in Free(recovered, held) ==> x in recovered
  {
    if recovered != [] {
      var front := recovered[..|recovered| - 1];
      FreeIsPart(front, held);
      forall i | 0 <= i < |Free(recovered, held)|
        ensures Free(recovered, held)[i].key !in held
      {
        if i < |Free(front, held)| {
          assert Free(front, held)[i].key in KeySet(Free(front, held));
        }
      }
    }
  }

  lemma {:induction false} FreeKeepsOrder(recovered: seq<Submission>, held: set<Key>, kind: Kind)
    requires DistinctKeys(recovered) && VipsLead(recovered, kind)
    ensures DistinctKeys(Free(recovered, held)) && VipsLead(Free(recovered, held), kind)
  {
    if recovered != [] {
      var n := |recovered| - 1;
      var front := recovered[..n];
      FrontDistinct(recovered);
      FrontVips(recovered, kind);
      FreeKeepsOrder(front, held, kind);
      FreeIsPart(front, held);
      var free := Free(front, held);
      forall i: nat | i < |free|
        ensures free[i].key != recovered[n].key && LastVip(free[i], recovered[n], kind)
      {
        assert free[i] in front;
        var k: nat :| k < n && front[k] == free[i];
        assert DistinctAt(recovered, k, n) && VipOrder(recovered, kind, k, n);
      }
      OneMoreFree(free, recovered[n], kind);
    }
  }

  predicate LastVip(x: Submission, last: Submission, kind: Kind)
  {
    x.key.kind == kind && last.key.kind == kind && last.vip ==> x.vip
  }

  lemma OneMoreFree(free: seq<Submission>, last: Submission, kind: Kind)
    requires DistinctKeys(free) && VipsLead(free, kind)
    requires forall i: nat :: i < |free| ==> free[i].key != last.key && LastVip(free[i], last, kind)
    ensures DistinctKeys(free + [last]) && VipsLead(free + [last], kind)
  {
    var all := free + [last];
    forall i: nat, j: nat | i < j < |all|
      ensures DistinctAt(all, i, j) && VipOrder(all, kind, i, j)
    {
      if j < |free| {
        assert DistinctAt(free, i, j) && VipOrder(free, kind, i, j);
      }
    }
  }

  lemma {:induction false} RecoverFree(s: State, recovered: seq<Submission>)
    ensures Recover(s, recovered) == Recover(s, Free(recovered, s.inflight))
    ensures Recover(s, recovered).inflight == s.inflight
  {
    if recovered != [] {
      var n := |recovered| - 1;
      RecoverFree(s, recovered[..n]);
      var free := Free(recovered[..n], s.inflight);
      assert (free + [recovered[n]])[..|free|] == free;
    }
  }

  lemma StartDispatch(s: State, recovered: seq<Submission>, workerCount: int, kind: Kind)
    requires Inv(s) && Enabled(s, Start(recovered, workerCount))
    requires DistinctKeys(recovered) && VipsLead(recovered, kind)
    ensures Keys(Dispatch(StartStep(s, recovered, workerCount).queue), kind)
         == KeysOf(Free(recovered, s.inflight), kind)
  {
    var free := Free(recovered, s.inflight);
    RecoverFree(s, recovered);
    FreeIsPart(recovered, s.inflight);
    FreeKeepsOrder(recovered, s.inflight, kind);
    RecoverEntries(s, free);
    RecoverCore(s, free);
    DispatchOfEntries(free, s.counter, Recover(s, free).counter, kind);
  }

  lemma OlderDispatch(queue: seq<Entry>, counter: nat)
    requires QueueOk(queue, counter)
    ensures Older(Dispatch(queue), counter) == Dispatch(queue)
    decreases |queue|
  {
    if queue != [] {
      var f := Front(queue);
      assert EntryAt(queue, f, counter);
      QueueRemove(queue, counter, f);
      OlderDispatch(Remove(queue, f), counter);
      OlderConcat([queue[f]], Dispatch(Remove(queue, f)), counter);
      assert [queue[f]][..0] == [];
    }
  }

  // Keys of one kind among the recovered tasks that have been dequeued since...
  function RecoveredTaken(s: State, t: State, bound: nat, kind: Kind): seq<Key>
    requires |s.taken| <= |t.taken|
  {
    Keys(Older(t.taken[|s.taken|..], bound), kind)
  }

  // ...and among those still queued, in the order in which they will be.
  function RecoveredLeft(t: State, bound: nat, kind: Kind): seq<Key>
  {
    Keys(Older(Dispatch(t.queue), bound), kind)
  }

  // Over every run after a start the recovered tasks of one kind are dequeued in
  // exactly the order in which recovery enqueued them, whatever else arrives.
  lemma RecoveredInOrder(s: State, recovered: seq<Submission>, workerCount: int, run: seq<Action>, t: State, kind: Kind)
    requires Inv(s) && Enabled(s, Start(recovered, workerCount))
    requires DistinctKeys(recovered) && VipsLead(recovered, kind)
    requires IsCalmRun(StartStep(s, recovered, workerCount), run, t)
    ensures |s.taken| <= |t.taken|
    ensures var bound := StartStep(s, recovered, workerCount).counter;
            && RecoveredTaken(s, t, bound, kind) <= KeysOf(Free(recovered, s.inflight), kind)
            && (StopFinish !in run ==>
                  RecoveredTaken(s, t, bound, kind) + RecoveredLeft(t, bound, kind)
                  == KeysOf(Free(recovered, s.inflight), kind))
  {
    var started := StartStep(s, recovered, workerCount);
    StepInv(s, Start(recovered, workerCount));
    var more := RecoverArrivals(s, recovered);
    StartDispatch(s, recovered, workerCount, kind);
    OlderDispatch(started.queue, started.counter);
    DequeuedAsDispatched(started, run, t, started.counter);
    KeysPrefix(Older(t.taken[|s.taken|..], started.counter), Older(Dispatch(t.queue), started.counter),
               Dispatch(started.queue), kind);
  }

  lemma KeysPrefix(a: seq<Entry>, b: seq<Entry>, all: seq<Entry>, kind: Kind)
    requires a + b <= all
    ensures Keys(a, kind) <= Keys(all, kind)
    ensures a + b == all ==> Keys(a, kind) + Keys(b, kind) == Keys(all, kind)
  {
    KeysConcat(a, b, kind);
    KeysPart(a, all[|a|..], all, kind);
  }

  lemma KeysPart(a: seq<Entry>, rest: seq<Entry>, all: seq<Entry>, kind: Kind)
    requires all == a + rest
    ensures Keys(a, kind) <= Keys(all, kind)
  {
    KeysConcat(a, rest, kind);
  }

  // What recovery enqueues: the pending tasks of each repository in turn.
  function Submissions(tasks: seq<TaskRepository.TaskRecord>, kind: Kind): (r: seq<Submission>)
    ensures |r| == |tasks|
    ensures forall i :: 0 <= i < |r| ==>
              r[i].vip == tasks[i].vip && r[i].key.kind == kind && r[i].key.id == tasks[i].id
  {
    seq(|tasks|, i requires 0 <= i < |tasks| => Submission(Key(kind, tasks[i].id), tasks[i].vip))
  }

  lemma RepositoryVipsLead(offline: seq<TaskRepository.TaskRecord>, speaker: seq<TaskRepository.TaskRecord>, kind: Kind)
    requires TaskRepository.VipFirst(offline) && TaskRepository.VipFirst(speaker)
    ensures VipsLead(Submissions(offline, Offline) + Submissions(speaker, Speaker), kind)
  {
    var all, n := Submissions(offline, Offline) + Submissions(speaker, Speaker), |offline|;
    forall i: nat, j: nat | i < j < |all|
      ensures VipOrder(all, kind, i, j)
    {
      if j < n {
        assert TaskRepository.VipBefore(offline, i, j);
      } else if i >= n {
        assert TaskRepository.VipBefore(speaker, i - n, j - n);
      }
    }
  }

  function TaskKeys(tasks: seq<TaskRepository.TaskRecord>, kind: Kind): seq<Key>
  {
    seq(|tasks|, i requires 0 <= i < |tasks| => Key(kind, tasks[i].id))
  }

  lemma {:induction false} KeysOfKind(tasks: seq<TaskRepository.TaskRecord>, kind: Kind, other: Kind)
    ensures KeysOf(Submissions(tasks, kind), other) == if kind == other then TaskKeys(tasks, kind) else []
  {
    if tasks != [] {
      var n := |tasks| - 1;
      assert Submissions(tasks, kind)[..n] == Submissions(tasks[..n], kind);
      KeysOfKind(tasks[..n], kind, other);
    }
  }

  lemma {:induction false} KeysOfAppend(a: seq<Submission>, b: seq<Submission>, kind: Kind)
    ensures KeysOf(a + b, kind) == KeysOf(a, kind) + KeysOf(b, kind)
  {
    if b == [] {
      assert a + b == a;
    } else {
      assert (a + b)[..|a + b| - 1] == a + b[..|b| - 1];
      KeysOfAppend(a, b[..|b| - 1], kind);
    }
  }

  // The keys that nobody holds.
  function Unheld(keys: seq<Key>, held: set<Key>): seq<Key>
  {
    if keys == [] then []
    else
      var last := keys[|keys| - 1];
      var front := Unheld(keys[..|keys| - 1], held);
      if last in held then front else front + [last]
  }

  lemma {:induction false} FreeKeys(recovered: seq<Submission>, held: set<Key>, kind: Kind)
    ensures KeysOf(Free(recovered, held), kind) == Unheld(KeysOf(recovered, kind), held)
  {
    if recovered != [] {
      var n := |recovered| - 1;
      FreeKeys(recovered[..n], held, kind);
      var free, keys := Free(recovered[..n], held), KeysOf(recovered[..n], kind);
      assert (free + [recovered[n]])[..|free|] == free;
      assert (keys + [recovered[n].key])[..|keys|] == keys && keys + [] == keys;
      assert KeysOf(free, kind) + [] == KeysOf(free, kind);
    }
  }

  lemma StartOrder(first: seq<TaskRepository.TaskRecord>, second: seq<TaskRepository.TaskRecord>, held: set<Key>,
                   kind: Kind)
    ensures KeysOf(Free(Submissions(first, Offline) + Submissions(second, Speaker), held), kind)
         == Unheld(TaskKeys(if kind.Offline? then first else second, kind), held)
  {
    var a, b := Submissions(first, Offline), Submissions(second, Speaker);
    FreeKeys(a + b, held, kind);
    KeysOfAppend(a, b, kind);
    KeysOfKind(first, Offline, kind);
    KeysOfKind(second, Speaker, kind);
    assert KeysOf(a + b, kind) == TaskKeys(if kind.Offline? then first else second, kind);
  }

  lemma SubmissionsDistinct(first: seq<TaskRepository.TaskRecord>, second: seq<TaskRepository.TaskRecord>)
    requires TaskRepository.DistinctIds(first) && TaskRepository.DistinctIds(second)
    ensures DistinctKeys(Submissions(first, Offline) + Submissions(second, Speaker))
  {
    var all, n := Submissions(first, Offline) + Submissions(second, Speaker), |first|;
    forall i: nat, j: nat | i < j < |all|
      ensures DistinctAt(all, i, j)
    {
      if j < n {
        assert TaskRepository.OtherId(first, i, j);
      } else if i >= n {
        assert TaskRepository.OtherId(second, i - n, j - n);
      }
    }
  }

  // What a start recovers from the two repositories.
  function Pending(offline: seq<TaskRepository.TaskRecord>, speaker: seq<TaskRepository.TaskRecord>,
                   limit: nat, now: int): seq<Submission>
  {
    Submissions(TaskRepository.PendingTasks(offline, limit, now), Offline)
    + Submissions(TaskRepository.PendingTasks(speaker, limit, now), Speaker)
  }

  // The whole chain: over every run after a start, the pending tasks of two
  // repositories that no batch is processing are dequeued, kind by kind, in the
  // order in which their repository returned them, whatever else arrives.
  lemma StartDispatchesInRepositoryOrder(s: State, offline: seq<TaskRepository.TaskRecord>,
                                         speaker: seq<TaskRepository.TaskRecord>, limit: nat, now: int,
                                         workerCount: int, run: seq<Action>, t: State, kind: Kind)
    requires Inv(s) && Enabled(s, Start(Pending(offline, speaker, limit, now), workerCount))
    requires TaskRepository.DistinctIds(offline) && TaskRepository.DistinctIds(speaker)
    requires IsCalmRun(StartStep(s, Pending(offline, speaker, limit, now), workerCount), run, t)
    ensures |s.taken| <= |t.taken|
    ensures var bound := StartStep(s, Pending(offline, speaker, limit, now), workerCount).counter;
            var records := TaskRepository.PendingTasks(if kind.Offline? then offline else speaker, limit, now);
            var keys := Unheld(TaskKeys(records, kind), s.inflight);
            && RecoveredTaken(s, t, bound, kind) <= keys
            && (StopFinish !in run ==> RecoveredTaken(s, t, bound, kind) + RecoveredLeft(t, bound, kind) == keys)
  {
    var first := TaskRepository.PendingTasks(offline, limit, now);
    var second := TaskRepository.PendingTasks(speaker, limit, now);
    TaskRepository.PendingTasksOrder(offline, limit, now);
    TaskRepository.PendingTasksOrder(speaker, limit, now);
    TaskRepository.PendingTasksDistinct(offline, limit, now);
    TaskRepository.PendingTasksDistinct(speaker, limit, now);
    SubmissionsDistinct(first, second);
    RepositoryVipsLead(first, second, kind);
    RecoveredInOrder(s, Pending(offline, speaker, limit, now), workerCount, run, t, kind);
    StartOrder(first, second, s.inflight, kind);
  }
}
