// Whole-run safety of the stream protocol: what may appear on the socket, and
// what STOP waits for.

module StreamSafety {
  import opened StreamProtocol

  // The sequential protocol a client may rely on, as an automaton over the
  // socket log.  `last` is the newest generation announced so far.
  datatype Phase =
    | Quiescent(last: nat)
    | Open(last: nat)
    | Finished(last: nat)
    | Violated

  function PhaseStep(p: Phase, e: Event): Phase
  {
    if p.Violated? then p else
    match e
    case Started(g) => if g > p.last then Open(g) else Violated
    case Stopped => Quiescent(p.last)
    case Payload(g) => if p == Open(g) then p else Violated
    case Final(g) => if p == Open(g) then Finished(g) else Violated
    case _ => p
  }

  function PhaseOf(log: seq<Event>): Phase
  {
    if log == [] then Quiescent(0) else PhaseStep(PhaseOf(log[..|log| - 1]), log[|log| - 1])
  }

  lemma PhaseAppend(log: seq<Event>, e: Event)
    ensures PhaseOf(log + [e]) == PhaseStep(PhaseOf(log), e)
  {
    assert (log + [e])[..|log|] == log;
  }

  // ------------------------------------------------------------- invariant

  // The receiver still has `e` to put on the socket.
  predicate Unsent(r: Receiver, e: Event)
  {
    r.Sending? && r.event == e && !r.stage.Emitted?
  }

  predicate PlainNotice(e: Event)
  {
    e.Ready? || e.InactiveSession? || e.Backpressure? || e.UnknownCommand?
  }

  // The receiver has passed the STOP barrier and not yet finished STOP.
  predicate PastBarrier(r: Receiver)
  {
    r.StopWait? || r.StopFinish? || (r.Sending? && (r.event.Final? || r.event.Stopped?))
  }

  // START has begun but `started` is not yet on the socket.
  predicate Starting(r: Receiver)
  {
    r.StartWait? || (r.Sending? && r.event.Started? && !r.stage.Emitted?)
  }

  predicate ReceiverOk(s: State)
  {
    var r := s.receiver;
    && (r.StartWait? ==> r.target == s.generation)
    && (r.StopFinish? ==> s.active)
    && (r.Sending? ==>
          || (PlainNotice(r.event) && !r.thenStopped)
          || (r.event == Started(s.generation) && !r.thenStopped && s.active)
          || (r.event == Stopped && !r.thenStopped && !s.active)
          || (r.event == Final(s.generation) && r.thenStopped && !s.active))
    && (r.Closed? <==> s.stopWorker)
    && (PastBarrier(r) ==> s.unfinished == 0)
  }

  predicate LocksOk(s: State)
  {
    && (s.sessionLock == HeldByReceiver <==> s.receiver.StopFinish?)
    && (s.sessionLock == HeldByWorker <==>
          s.worker.Adding? || s.worker.Decoding? || (s.worker.Posting? && s.worker.event.Payload?))
    && (s.sendLock == HeldByReceiver <==> s.receiver.Sending? && !s.receiver.stage.Waiting?)
    && (s.sendLock == HeldByWorker <==> s.worker.Posting? && !s.worker.stage.Waiting?)
  }

  predicate CountOk(s: State)
  {
    s.unfinished == |s.queue| + if HasChunk(s.worker) then 1 else 0
  }

  // A chunk of the current session exists only while that session is announced.
  predicate ChunksOk(s: State)
  {
    && |s.queue| <= s.capacity
    && (HasChunk(s.worker) ==> s.worker.chunk.generation <= s.generation)
    && (!s.stopWorker ==>
          && (forall i :: 0 <= i < |s.queue| ==> s.queue[i].generation == s.generation)
          && (Starting(s.receiver) ==> s.queue == [])
          && (HasChunk(s.worker) && s.worker.chunk.generation == s.generation ==> !Starting(s.receiver)))
    && (s.worker.Posting? ==>
          s.worker.event == Failure || s.worker.event == Payload(s.worker.chunk.generation))
  }

  predicate PhaseOk(s: State)
  {
    PhaseFits(s, PhaseOf(s.log))
  }

  // How the phase of the log goes with the rest of the state.
  predicate PhaseFits(s: State, p: Phase)
  {
    && !p.Violated?
    && p.last <= s.generation
    && (Starting(s.receiver) ==> p.last < s.generation)
    // while a session is active and announced, the log is open for it
    && (s.active && !Starting(s.receiver) && !s.stopWorker ==> p == Open(s.generation))
    && (Unsent(s.receiver, Final(s.generation)) ==> p == Open(s.generation))
    // a payload about to be written belongs to the announced session
    && (s.worker.Posting? && s.worker.event.Payload? && !s.stopWorker ==>
          && p == Open(s.worker.chunk.generation)
          && (s.worker.chunk.generation == s.generation || s.receiver.StartWait?))
  }

  // The chunk the worker has taken but not yet handed to the session.
  function Taken(s: State): seq<Bytes>
  {
    if s.worker.Locking? && s.worker.chunk.generation == s.generation then [s.worker.chunk.data] else []
  }

  function Datas(q: seq<Chunk>): seq<Bytes>
  {
    seq(|q|, i requires 0 <= i < |q| => q[i].data)
  }

  predicate FeedOk(s: State)
  {
    && (!s.stopWorker && !s.receiver.StartWait? ==> s.fed + Taken(s) + Datas(s.queue) == s.accepted)
    && (s.receiver.StartWait? ==> s.accepted == [])
    && (!s.stopWorker && !s.active ==>
          s.queue == [] && (HasChunk(s.worker) ==> s.worker.chunk.generation < s.generation))
  }

  predicate OffLogOk(s: State)
  {
    ReceiverOk(s) && LocksOk(s) && CountOk(s) && ChunksOk(s)
  }

  predicate ControlOk(s: State)
  {
    OffLogOk(s) && PhaseOk(s)
  }

  predicate Inv(s: State)
  {
    ControlOk(s) && FeedOk(s)
  }

  lemma InitInv(capacity: nat)
    ensures Inv(Init(capacity))
  {
  }

  lemma StopControl(s: State, a: ReceiverAction)
    requires Inv(s) && ReceiverEnabled(s, a)
    requires a.Stop? || a.StopJoined? || a.StopEnter? || a.StopFinished?
    ensures ControlOk(ReceiverStep(s, a))
  {
  }

  lemma StartControl(s: State, a: ReceiverAction)
    requires Inv(s) && ReceiverEnabled(s, a) && (a.Start? || a.StartEnter?)
    ensures ControlOk(ReceiverStep(s, a))
  {
  }

  lemma SendControl(s: State, a: ReceiverAction)
    requires Inv(s) && ReceiverEnabled(s, a)
    requires a.Acquire? || a.Emit? || a.Release?
    ensures ControlOk(ReceiverStep(s, a))
  {
    match a
    case Acquire =>
    case Emit => ReceiverEmitControl(s);
    case Release => ReceiverReleaseControl(s);
  }

  lemma ReceiverEmitControl(s: State)
    requires ControlOk(s) && ReceiverAt(s, Holding)
    ensures ControlOk(ReceiverEmitStep(s))
  {
    PhaseAppend(s.log, s.receiver.event);
    ReceiverEmits(s, PhaseOf(s.log));
  }

  lemma ReceiverEmits(s: State, p: Phase)
    requires OffLogOk(s) && PhaseFits(s, p) && ReceiverAt(s, Holding)
    ensures OffLogOk(ReceiverEmitStep(s)) && PhaseFits(ReceiverEmitStep(s), PhaseStep(p, s.receiver.event))
  {
  }

  lemma ReceiverReleaseControl(s: State)
    requires ControlOk(s) && ReceiverAt(s, Emitted)
    ensures ControlOk(ReceiverReleaseStep(s))
  {
  }

  lemma ReceiverControl(s: State, a: ReceiverAction)
    requires Inv(s) && ReceiverEnabled(s, a)
    ensures ControlOk(ReceiverStep(s, a))
  {
    match a
    case Stop | StopJoined | StopEnter | StopFinished(_) => StopControl(s, a);
    case Acquire | Emit | Release => SendControl(s, a);
    case Start | StartEnter => StartControl(s, a);
    case Audio(data, notify) => AudioControl(s, data, notify);
    case Unknown =>
    case Close => CloseControl(s);
  }

  lemma AudioControl(s: State, data: Bytes, notify: bool)
    requires ControlOk(s) && s.receiver.Idle?
    ensures ControlOk(AudioStep(s, data, notify))
  {
  }

  lemma CloseControl(s: State)
    requires ControlOk(s) && !s.receiver.Closed?
    ensures ControlOk(CloseStep(s))
  {
  }

  lemma PostingControl(s: State, a: WorkerAction)
    requires Inv(s) && WorkerEnabled(s, a)
    requires a.AcquireSend? || a.EmitSend? || a.ReleaseSend? || a.SendFailed? || a.Cancelled?
    ensures ControlOk(WorkerStep(s, a))
  {
    match a
    case EmitSend => EmitControl(s);
    case SendFailed => SendFailedControl(s);
    case Cancelled => CancelledControl(s);
    case AcquireSend | ReleaseSend =>
  }

  lemma EmitControl(s: State)
    requires ControlOk(s) && WorkerAt(s, Holding)
    ensures ControlOk(WorkerEmitStep(s))
  {
    PhaseAppend(s.log, s.worker.event);
    WorkerEmits(s, PhaseOf(s.log));
  }

  // What the worker puts on the socket does not change the phase.
  lemma WorkerEmits(s: State, p: Phase)
    requires OffLogOk(s) && PhaseFits(s, p) && WorkerAt(s, Holding)
    ensures OffLogOk(WorkerEmitStep(s)) && PhaseFits(WorkerEmitStep(s), p) && PhaseStep(p, s.worker.event) == p
  {
  }

  lemma SendFailedControl(s: State)
    requires ControlOk(s) && !s.stopWorker && s.worker.Posting?
    ensures ControlOk(WorkerSendFailedStep(s))
  {
  }

  lemma CancelledControl(s: State)
    requires ControlOk(s) && s.stopWorker && !s.worker.Dead?
    ensures ControlOk(WorkerCancelledStep(s))
  {
  }

  lemma GetControl(s: State)
    requires ControlOk(s) && !s.stopWorker && s.worker.Polling? && s.queue != []
    ensures ControlOk(WorkerGetStep(s))
  {
  }

  lemma EnterControl(s: State)
    requires ControlOk(s) && !s.stopWorker && s.worker.Locking? && s.sessionLock.Free?
    ensures ControlOk(WorkerEnterStep(s))
  {
  }

  lemma RecheckControl(s: State)
    requires Inv(s) && !s.stopWorker && s.worker.Rechecking? && s.sessionLock.Free?
    ensures ControlOk(WorkerRecheckStep(s))
  {
  }

  lemma AddedControl(s: State, outcome: AddOutcome)
    requires ControlOk(s) && !s.stopWorker && s.worker.Adding?
    ensures ControlOk(WorkerAddedStep(s, outcome))
  {
    WaitControl(s, Rechecking(s.worker.chunk));
    WaitControl(s, Posting(s.worker.chunk, Failure, Waiting));
    DoneControl(s);
    DecodeControl(s);
  }

  // The worker holds the session lock on behalf of its chunk.
  predicate InSession(s: State)
  {
    ControlOk(s) && !s.stopWorker && (s.worker.Adding? || s.worker.Decoding?)
  }

  // The worker gives up the session lock, to wait for a lock again...
  lemma WaitControl(s: State, w: Worker)
    requires InSession(s)
    requires w == Rechecking(s.worker.chunk) || w == Posting(s.worker.chunk, Failure, Waiting)
    ensures ControlOk(s.(sessionLock := Free, worker := w))
  {
  }

  // ...or done with its chunk...
  lemma DoneControl(s: State)
    requires InSession(s)
    ensures ControlOk(TaskDone(s.(sessionLock := Free)))
  {
  }

  // ...or keeps it.
  lemma DecodeControl(s: State)
    requires InSession(s)
    ensures ControlOk(s.(worker := Decoding(s.worker.chunk)))
  {
  }

  lemma DecodedControl(s: State, outcome: DecodeOutcome)
    requires ControlOk(s) && !s.stopWorker && s.worker.Decoding?
    ensures ControlOk(WorkerDecodedStep(s, outcome))
  {
    WaitControl(s, Rechecking(s.worker.chunk));
    WaitControl(s, Posting(s.worker.chunk, Failure, Waiting));
    DoneControl(s);
  }

  // A step that touches neither the queue, the session's audio nor the chunk
  // the worker is about to hand over.
  lemma QuietFeed(s: State, t: State)
    requires FeedOk(s)
    requires t.fed == s.fed && t.queue == s.queue && t.accepted == s.accepted && Taken(t) == Taken(s)
    requires t.generation == s.generation && t.stopWorker == s.stopWorker && t.active == s.active
    requires HasChunk(t.worker) ==> HasChunk(s.worker) && t.worker.chunk == s.worker.chunk
    requires t.receiver.StartWait? <==> s.receiver.StartWait?
    ensures FeedOk(t)
  {
  }

  lemma AudioFeed(s: State, data: Bytes, notify: bool)
    requires Inv(s) && s.receiver.Idle?
    ensures FeedOk(AudioStep(s, data, notify))
  {
    var t := AudioStep(s, data, notify);
    if t.queue != s.queue {
      assert Datas(t.queue) == Datas(s.queue) + [data];
    }
  }

  lemma GetFeed(s: State)
    requires Inv(s) && WorkerEnabled(s, Get)
    ensures FeedOk(WorkerGetStep(s))
  {
    assert Datas(s.queue) == [s.queue[0].data] + Datas(s.queue[1..]);
    assert s.fed + Taken(s) + Datas(s.queue) == s.fed + [s.queue[0].data] + Datas(s.queue[1..]);
  }

  lemma EnterFeed(s: State)
    requires Inv(s) && WorkerEnabled(s, Enter)
    ensures FeedOk(WorkerEnterStep(s))
  {
    var t := WorkerEnterStep(s);
    if t.worker.Adding? {
      assert t.fed == s.fed + Taken(s);
      assert t.fed + Taken(t) + Datas(t.queue) == s.fed + Taken(s) + Datas(s.queue);
    } else {
      QuietFeed(s, t);
    }
  }

  lemma ReceiverFeed(s: State, a: ReceiverAction)
    requires Inv(s) && ReceiverEnabled(s, a)
    ensures FeedOk(ReceiverStep(s, a))
  {
    match a
    case Audio(data, notify) => AudioFeed(s, data, notify);
    case Start | StartEnter | StopFinished(_) | Close =>
    case _ => QuietFeed(s, ReceiverStep(s, a));
  }

  lemma PostingFeed(s: State, a: WorkerAction)
    requires Inv(s) && WorkerEnabled(s, a)
    requires a.AcquireSend? || a.EmitSend? || a.ReleaseSend? || a.SendFailed?
    ensures FeedOk(WorkerStep(s, a))
  {
    QuietFeed(s, WorkerStep(s, a));
  }

  lemma AddedFeed(s: State, outcome: AddOutcome)
    requires InSession(s) && FeedOk(s) && s.worker.Adding?
    ensures FeedOk(WorkerAddedStep(s, outcome))
  {
    QuietFeed(s, WorkerAddedStep(s, outcome));
  }

  lemma DecodedFeed(s: State, outcome: DecodeOutcome)
    requires InSession(s) && FeedOk(s) && s.worker.Decoding?
    ensures FeedOk(WorkerDecodedStep(s, outcome))
  {
    QuietFeed(s, WorkerDecodedStep(s, outcome));
  }

  lemma RecheckFeed(s: State)
    requires FeedOk(s) && s.worker.Rechecking?
    ensures FeedOk(WorkerRecheckStep(s))
  {
    QuietFeed(s, WorkerRecheckStep(s));
  }

  lemma CancelledFeed(s: State)
    requires FeedOk(s) && s.stopWorker
    ensures FeedOk(WorkerCancelledStep(s))
  {
  }

  lemma WorkerFeed(s: State, a: WorkerAction)
    requires Inv(s) && WorkerEnabled(s, a)
    ensures FeedOk(WorkerStep(s, a))
  {
    match a
    case Get => GetFeed(s);
    case Enter => EnterFeed(s);
    case Cancelled => CancelledFeed(s);
    case Added(outcome) => AddedFeed(s, outcome);
    case Decoded(outcome) => DecodedFeed(s, outcome);
    case Recheck => RecheckFeed(s);
    case _ => PostingFeed(s, a);
  }

  lemma WorkerControl(s: State, a: WorkerAction)
    requires Inv(s) && WorkerEnabled(s, a)
    ensures ControlOk(WorkerStep(s, a))
  {
    match a
    case Get => GetControl(s);
    case Enter => EnterControl(s);
    case Recheck => RecheckControl(s);
    case Added(outcome) => AddedControl(s, outcome);
    case Decoded(outcome) => DecodedControl(s, outcome);
    case _ => PostingControl(s, a);
  }

  lemma StepInv(s: State, a: Action)
    requires Inv(s) && Enabled(s, a)
    ensures Inv(Step(s, a))
  {
    match a
    case ByReceiver(r) => ReceiverControl(s, r); ReceiverFeed(s, r);
    case ByWorker(w) => WorkerControl(s, w); WorkerFeed(s, w);
  }

  lemma ReachesInv(s: State, t: State)
    requires Inv(s) && Reaches(s, t)
    ensures Inv(t)
  {
    var a :| Enabled(s, a) && t == Step(s, a);
    StepInv(s, a);
  }

  lemma {:induction false} RunInv(run: seq<State>, capacity: nat, i: nat)
    requires IsRun(run, capacity) && i < |run|
    ensures Inv(run[i])
  {
    if i == 0 {
      InitInv(capacity);
    } else {
      RunInv(run, capacity, i - 1);
      ReachesInv(run[i - 1], run[i]);
    }
  }

  // ---------------------------------------------------------- what it means

  predicate Recognition(e: Event)
  {
    e.Payload? || e.Final?
  }

  predicate Control(e: Event)
  {
    e.Started? || e.Stopped? || e.Final?
  }

  // The newest control message before position i announces the session that
  // the message at i belongs to.
  ghost predicate Announced(log: seq<Event>, i: nat)
    requires i < |log| && Recognition(log[i])
  {
    exists j: nat :: j < i && log[j] == Started(log[i].generation) && NoControl(log, j + 1, i)
  }

  ghost predicate NoControl(log: seq<Event>, lo: nat, hi: nat)
    requires lo <= hi <= |log|
  {
    forall k :: lo <= k < hi ==> !Control(log[k])
  }

  ghost predicate LogSafe(log: seq<Event>)
  {
    && (forall i: nat :: i < |log| && Recognition(log[i]) ==> Announced(log, i))
    && (forall i: nat, j: nat :: i < j < |log| && log[i].Started? && Recognition(log[j])
          ==> log[i].generation <= log[j].generation)
    && (forall i: nat, j: nat :: i < j < |log| && log[i].Started? && log[j].Started?
          ==> log[i].generation < log[j].generation)
  }

  lemma {:induction false} PhasePrefix(log: seq<Event>, i: nat)
    requires i <= |log| && !PhaseOf(log).Violated?
    ensures !PhaseOf(log[..i]).Violated? && PhaseOf(log[..i]).last <= PhaseOf(log).last
  {
    if i < |log| {
      var front := log[..|log| - 1];
      PhasePrefix(front, i);
      assert front[..i] == log[..i];
    } else {
      assert log[..i] == log;
    }
  }

  // An open log has announced its session and sent no control message since.
  lemma {:induction false} OpenSince(log: seq<Event>) returns (j: nat)
    requires PhaseOf(log).Open?
    ensures j < |log| && log[j] == Started(PhaseOf(log).last) && NoControl(log, j + 1, |log|)
  {
    var front, e := log[..|log| - 1], log[|log| - 1];
    if e.Started? {
      j := |log| - 1;
    } else {
      j := OpenSince(front);
      assert NoControl(front, j + 1, |front|);
      assert forall k :: j + 1 <= k < |front| ==> log[k] == front[k];
    }
  }

  lemma PhaseAt(log: seq<Event>, i: nat)
    requires i < |log| && !PhaseOf(log).Violated?
    ensures !PhaseOf(log[..i]).Violated? && !PhaseOf(log[..i + 1]).Violated?
    ensures PhaseOf(log[..i + 1]) == PhaseStep(PhaseOf(log[..i]), log[i])
    ensures PhaseOf(log[..i]).last <= PhaseOf(log[..i + 1]).last <= PhaseOf(log).last
  {
    PhasePrefix(log, i);
    PhasePrefix(log, i + 1);
    assert log[..i + 1] == log[..i] + [log[i]];
    PhaseAppend(log[..i], log[i]);
  }

  lemma RecognitionAnnounced(log: seq<Event>, i: nat)
    requires !PhaseOf(log).Violated? && i < |log| && Recognition(log[i])
    ensures Announced(log, i)
  {
    PhaseAt(log, i);
    var j := OpenSince(log[..i]);
    assert forall k :: j + 1 <= k < i ==> log[k] == log[..i][k];
    assert NoControl(log, j + 1, i);
  }

  lemma GenerationsGrow(log: seq<Event>, i: nat, j: nat)
    requires !PhaseOf(log).Violated? && i < j < |log|
    requires log[i].Started? && (Recognition(log[j]) || log[j].Started?)
    ensures log[i].generation <= log[j].generation
    ensures log[j].Started? ==> log[i].generation < log[j].generation
  {
    PhaseAt(log, i);
    PhaseAt(log, j);
    PhasePrefix(log[..j], i + 1);
    assert log[..j][..i + 1] == log[..i + 1];
  }

  lemma AcceptedLogIsSafe(log: seq<Event>)
    requires !PhaseOf(log).Violated?
    ensures LogSafe(log)
  {
    forall i: nat | i < |log| && Recognition(log[i])
      ensures Announced(log, i)
    {
      RecognitionAnnounced(log, i);
    }
    forall i: nat, j: nat | i < j < |log| && log[i].Started? && (Recognition(log[j]) || log[j].Started?)
      ensures log[i].generation <= log[j].generation
      ensures log[j].Started? ==> log[i].generation < log[j].generation
    {
      GenerationsGrow(log, i, j);
    }
  }

  // ------------------------------------------------------------ main results

  // In every interleaving, at every moment.
  lemma StreamIsSafe(run: seq<State>, capacity: nat, n: nat)
    requires IsRun(run, capacity) && n < |run|
    ensures LogSafe(run[n].log)
  {
    RunInv(run, capacity, n);
    AcceptedLogIsSafe(run[n].log);
  }

  // The unfinished count is exact, so task_done never underflows.
  lemma UnfinishedIsExact(run: seq<State>, capacity: nat, n: nat)
    requires IsRun(run, capacity) && n < |run|
    ensures run[n].unfinished == |run[n].queue| + if HasChunk(run[n].worker) then 1 else 0
    ensures |run[n].queue| <= run[n].capacity
  {
    RunInv(run, capacity, n);
  }

  // Once STOP has passed the barrier, nothing is queued or in flight and the
  // session has been given exactly the accepted chunks, once each, in order.
  lemma StopIsABarrier(run: seq<State>, capacity: nat, n: nat)
    requires IsRun(run, capacity) && n < |run| && PastBarrier(run[n].receiver)
    ensures run[n].queue == [] && !HasChunk(run[n].worker)
    ensures run[n].fed == run[n].accepted
  {
    RunInv(run, capacity, n);
    var s := run[n];
    assert Datas(s.queue) == [];
    assert s.fed + Taken(s) + Datas(s.queue) == s.fed;
  }

  // ---------------------------------------------------------------- progress

  // Steps the program takes on its own, without a new client message.
  predicate Internal(a: Action)
  {
    match a
    case ByReceiver(r) => !(r.Start? || r.Stop? || r.Audio? || r.Unknown? || r.Close?)
    case ByWorker(_) => true
  }

  function StageRank(stage: SendStage): nat
  {
    match stage case Waiting => 3 case Holding => 2 case Emitted => 1
  }

  function WorkerRank(w: Worker): nat
  {
    match w
    case Dead => 0
    case Polling => 1
    case Posting(_, event, stage) => 1 + StageRank(stage) + if event.Payload? then 3 else 0
    case Rechecking(_) => 8
    case Decoding(_) => 9
    case Adding(_) => 10
    case Locking(_) => 11
  }

  function ReceiverRank(r: Receiver): nat
  {
    match r
    case Idle | Closed => 0
    case Sending(_, thenStopped, stage) => StageRank(stage) + if thenStopped then 3 else 0
    case StartWait(_) => 4
    case StopFinish => 7
    case StopWait => 8
    case StopJoin => 9
  }

  function Rank(s: State): nat
  {
    11 * |s.queue| + WorkerRank(s.worker) + ReceiverRank(s.receiver)
  }

  lemma TakeDecreases(s: State, a: WorkerAction)
    requires WorkerEnabled(s, a) && (a.Get? || a.Enter? || a.Recheck?)
    ensures Rank(WorkerStep(s, a)) < Rank(s)
  {
  }

  lemma SessionDecreases(s: State, a: WorkerAction)
    requires WorkerEnabled(s, a) && (a.Added? || a.Decoded?)
    ensures Rank(WorkerStep(s, a)) < Rank(s)
  {
  }

  lemma PostingDecreases(s: State, a: WorkerAction)
    requires ChunksOk(s) && WorkerEnabled(s, a)
    requires a.AcquireSend? || a.EmitSend? || a.ReleaseSend? || a.SendFailed? || a.Cancelled?
    ensures Rank(WorkerStep(s, a)) < Rank(s)
  {
  }

  lemma WorkerStepDecreases(s: State, a: WorkerAction)
    requires Inv(s) && WorkerEnabled(s, a)
    ensures Rank(WorkerStep(s, a)) < Rank(s)
  {
    match a
    case Get | Enter | Recheck => TakeDecreases(s, a);
    case Added(_) | Decoded(_) => SessionDecreases(s, a);
    case AcquireSend | EmitSend | ReleaseSend | SendFailed | Cancelled => PostingDecreases(s, a);
  }

  lemma ReceiverStepDecreases(s: State, a: ReceiverAction)
    requires ReceiverOk(s) && ReceiverEnabled(s, a) && Internal(ByReceiver(a))
    ensures Rank(ReceiverStep(s, a)) < Rank(s)
  {
  }

  // Every internal step makes progress, so only finitely many follow any state.
  lemma InternalStepDecreases(s: State, a: Action)
    requires Inv(s) && Enabled(s, a) && Internal(a)
    ensures Rank(Step(s, a)) < Rank(s)
  {
    match a
    case ByReceiver(r) => ReceiverStepDecreases(s, r);
    case ByWorker(w) => WorkerStepDecreases(s, w);
  }

  predicate Settled(s: State)
  {
    s.receiver.Idle? && s.worker.Polling? && s.queue == []
  }

  // Internal steps in which nothing fails and nothing is cancelled.
  predicate Orderly(a: Action)
  {
    Internal(a) && match a
      case ByReceiver(_) => true
      case ByWorker(w) =>
        && !w.SendFailed? && !w.Cancelled?
        && (w.Added? ==> !w.added.AddRaised?) && (w.Decoded? ==> !w.decoded.DecodeRaised?)
  }

  function ReceiverTurn(r: Receiver): ReceiverAction
  {
    match r
    case StartWait(_) => StartEnter
    case StopJoin => StopJoined
    case StopWait => StopEnter
    case StopFinish => StopFinished(true)
    case Sending(_, _, stage) => (match stage case Waiting => Acquire case Holding => Emit case Emitted => Release)
    case Idle | Closed => Unknown
  }

  function WorkerTurn(w: Worker): WorkerAction
  {
    match w
    case Polling | Dead => Get
    case Locking(_) => Enter
    case Adding(_) => Added(Quiet(false))
    case Decoding(_) => Decoded(PartialText(false))
    case Rechecking(_) => Recheck
    case Posting(_, _, stage) =>
      (match stage case Waiting => AcquireSend case Holding => EmitSend case Emitted => ReleaseSend)
  }

  // Neither lock is ever waited for in a circle: with a live worker some step
  // other than a failure is possible until all accepted work is done and the
  // receiver waits for the next message.
  lemma NoDeadlock(s: State)
    requires Inv(s) && !s.stopWorker && !s.worker.Dead? && !Settled(s)
    ensures exists a :: Orderly(a) && Enabled(s, a)
  {
    var w, r := ByWorker(WorkerTurn(s.worker)), ByReceiver(ReceiverTurn(s.receiver));
    assert Orderly(w);
    if !Enabled(s, w) {
      assert Orderly(r) && Enabled(s, r);
    }
  }

  // Without a failure STOP hangs in exactly one situation: the worker has died
  // (an error event could not be written) with chunks still queued.
  lemma StopHangsIff(s: State)
    requires Inv(s) && s.receiver.StopJoin?
    ensures (forall a :: Orderly(a) ==> !Enabled(s, a)) <==> (s.worker.Dead? && s.queue != [])
  {
    if !s.worker.Dead? {
      NoDeadlock(s);
    } else if s.queue == [] {
      assert Enabled(s, ByReceiver(StopJoined)) && Orderly(ByReceiver(StopJoined));
    }
  }
}
