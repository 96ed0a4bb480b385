// What a run of the stream protocol puts on the socket: every request gets its
// answer, every chunk what its recognition yields, and all audio offered to an
// active session with room is accepted.

module StreamAnswers {
  import opened StreamProtocol
  import opened StreamSafety

  // s reaches t by the actions of a run.
  ghost predicate Follows(s: State, run: seq<Action>, t: State)
    decreases |run|
  {
    if run == [] then s == t else Enabled(s, run[0]) && Follows(Step(s, run[0]), run[1..], t)
  }

  predicate FromWorker(e: Event) { e.Payload? || e.Failure? }

  // The messages of the receiver...
  function Replies(log: seq<Event>): seq<Event>
  {
    if log == [] then []
    else
      var front, last := Replies(log[..|log| - 1]), log[|log| - 1];
      if FromWorker(last) then front else front + [last]
  }

  // ...and those of the worker.
  function Posts(log: seq<Event>): seq<Event>
  {
    if log == [] then []
    else
      var front, last := Posts(log[..|log| - 1]), log[|log| - 1];
      if FromWorker(last) then front + [last] else front
  }

  lemma LogAppend(log: seq<Event>, e: Event)
    ensures Replies(log + [e]) == if FromWorker(e) then Replies(log) else Replies(log) + [e]
    ensures Posts(log + [e]) == if FromWorker(e) then Posts(log) + [e] else Posts(log)
  {
    assert (log + [e])[..|log|] == log;
  }

  // ---------------------------------------------------------- the receiver

  function StopReply(final: bool, generation: nat): seq<Event>
  {
    if final then [Final(generation), Stopped] else [Stopped]
  }

  // What the receiver still has to say before it takes the next request, if
  // finish() will leave text or not.
  function Due(s: State, hasFinal: bool): seq<Event>
  {
    match s.receiver
    case Idle | Closed => []
    case StartWait(_) => [Started(s.generation)]
    case StopJoin | StopWait => StopReply(s.active && hasFinal, s.generation)
    case StopFinish => StopReply(hasFinal, s.generation)
    case Sending(event, thenStopped, stage) =>
      (if stage.Emitted? then [] else [event]) + if thenStopped then [Stopped] else []
  }

  // Between two requests the program takes its own steps.
  predicate Between(a: Action, hasFinal: bool)
  {
    Internal(a) && (a.ByReceiver? && a.receiver.StopFinished? ==> a.receiver.hasFinal == hasFinal)
  }

  predicate AllBetween(run: seq<Action>, hasFinal: bool)
  {
    forall a :: a in run ==> Between(a, hasFinal)
  }

  // Only the two emitting steps write to the log.
  lemma ReceiverLog(s: State, a: ReceiverAction)
    requires ReceiverEnabled(s, a)
    ensures ReceiverStep(s, a).log == if a.Emit? then s.log + [s.receiver.event] else s.log
    ensures ReceiverStep(s, a).worker == s.worker
  {
  }

  lemma WorkerLog(s: State, a: WorkerAction)
    requires WorkerEnabled(s, a)
    ensures WorkerStep(s, a).log == if a.EmitSend? then s.log + [s.worker.event] else s.log
    ensures var t := WorkerStep(s, a);
            t.receiver == s.receiver && t.generation == s.generation && t.active == s.active
  {
  }

  lemma ReceiverDue(s: State, a: ReceiverAction, hasFinal: bool)
    requires ReceiverOk(s) && ReceiverEnabled(s, a) && Between(ByReceiver(a), hasFinal) && !a.Emit?
    ensures Due(ReceiverStep(s, a), hasFinal) == Due(s, hasFinal)
  {
  }

  lemma EmitDue(s: State, hasFinal: bool)
    requires ReceiverAt(s, Holding)
    ensures Due(s, hasFinal) == [s.receiver.event] + Due(ReceiverEmitStep(s), hasFinal)
  {
  }

  lemma ReceiverReplies(s: State, a: ReceiverAction, hasFinal: bool)
    requires ReceiverOk(s) && ReceiverEnabled(s, a) && Between(ByReceiver(a), hasFinal)
    ensures var t := ReceiverStep(s, a);
            Replies(t.log) + Due(t, hasFinal) == Replies(s.log) + Due(s, hasFinal)
  {
    ReceiverLog(s, a);
    if a.Emit? {
      var e, t := s.receiver.event, ReceiverStep(s, a);
      LogAppend(s.log, e);
      EmitDue(s, hasFinal);
      assert Replies(t.log) == Replies(s.log) + [e] && Due(s, hasFinal) == [e] + Due(t, hasFinal);
      Regroup(Replies(s.log), [e], Due(t, hasFinal));
    } else {
      ReceiverDue(s, a, hasFinal);
    }
  }

  lemma Regroup<T>(x: seq<T>, y: seq<T>, z: seq<T>)
    ensures x + y + z == x + (y + z)
  {
  }

  lemma WorkerReplies(s: State, a: WorkerAction, hasFinal: bool)
    requires ChunksOk(s) && WorkerEnabled(s, a)
    ensures var t := WorkerStep(s, a);
            Replies(t.log) == Replies(s.log) && Due(t, hasFinal) == Due(s, hasFinal)
  {
    WorkerLog(s, a);
    if a.EmitSend? {
      LogAppend(s.log, s.worker.event);
    }
  }

  lemma {:induction false} RunReplies(s: State, run: seq<Action>, t: State, hasFinal: bool)
    requires Inv(s) && Follows(s, run, t) && AllBetween(run, hasFinal)
    ensures Replies(t.log) + Due(t, hasFinal) == Replies(s.log) + Due(s, hasFinal)
    decreases |run|
  {
    if run != [] {
      StepInv(s, run[0]);
      match run[0] {
        case ByReceiver(r) => ReceiverReplies(s, r, hasFinal);
        case ByWorker(w) => WorkerReplies(s, w, hasFinal);
      }
      assert Between(run[0], hasFinal);
      RunReplies(Step(s, run[0]), run[1..], t, hasFinal);
    }
  }

  predicate IsRequest(a: ReceiverAction) { a.Start? || a.Stop? || a.Audio? || a.Unknown? }

  // The answer to a request.
  function Answer(s: State, a: ReceiverAction, hasFinal: bool): seq<Event>
    requires IsRequest(a)
  {
    match a
    case Start => [Started(s.generation + 1)]
    case Stop => StopReply(s.active && hasFinal, s.generation)
    case Audio(_, notify) =>
      if !s.active then [InactiveSession]
      else if |s.queue| >= s.capacity && notify then [Backpressure]
      else []
    case Unknown => [UnknownCommand]
  }

  // Whatever the worker does meanwhile, by the time the receiver takes the next
  // request it has sent exactly the answer to the last one.
  lemma EveryRequestIsAnswered(s: State, a: ReceiverAction, run: seq<Action>, t: State, hasFinal: bool)
    requires Inv(s) && s.receiver.Idle? && IsRequest(a)
    requires Follows(Step(s, ByReceiver(a)), run, t) && AllBetween(run, hasFinal) && t.receiver.Idle?
    ensures Replies(t.log) == Replies(s.log) + Answer(s, a, hasFinal)
  {
    var u := Step(s, ByReceiver(a));
    StepInv(s, ByReceiver(a));
    RunReplies(u, run, t, hasFinal);
    AnswerIsDue(s, a, hasFinal);
    assert Replies(t.log) + [] == Replies(t.log);
  }

  lemma AnswerIsDue(s: State, a: ReceiverAction, hasFinal: bool)
    requires s.receiver.Idle? && IsRequest(a)
    ensures Due(ReceiverStep(s, a), hasFinal) == Answer(s, a, hasFinal)
    ensures ReceiverStep(s, a).log == s.log
  {
  }

  // In particular the final result: when finish() leaves text, the final event
  // and then the stop message follow; when it does not, the stop message alone.
  lemma StopDeliversFinal(s: State, run: seq<Action>, t: State, hasFinal: bool)
    requires Inv(s) && s.receiver.StopFinish?
    requires Follows(Step(s, ByReceiver(StopFinished(hasFinal))), run, t)
    requires AllBetween(run, hasFinal) && t.receiver.Idle?
    ensures Replies(t.log) == Replies(s.log) + if hasFinal then [Final(s.generation), Stopped] else [Stopped]
  {
    var u := Step(s, ByReceiver(StopFinished(hasFinal)));
    StepInv(s, ByReceiver(StopFinished(hasFinal)));
    RunReplies(u, run, t, hasFinal);
    ReceiverReplies(s, StopFinished(hasFinal), hasFinal);
    assert Replies(t.log) + [] == Replies(t.log);
  }

  // ------------------------------------------------------------ the worker

  // How one chunk fares: whether its session is still current when it enters,
  // after add_audio and when its text is sent, and what the session makes of it.
  datatype Fate = Fate(entered: bool, add: AddOutcome, kept: bool, decode: DecodeOutcome, current: bool)

  function Sent(text: bool, f: Fate, generation: nat): seq<Event>
  {
    if text && f.current then [Payload(generation)] else []
  }

  function AfterDecode(f: Fate, generation: nat): seq<Event>
  {
    match f.decode
    case DecodeRaised => [Failure]
    case PartialText(text) => Sent(text, f, generation)
  }

  function AfterAdd(f: Fate, generation: nat): seq<Event>
  {
    match f.add
    case AddRaised => [Failure]
    case Locked(text) => if f.kept then Sent(text, f, generation) else []
    case Quiet(decode) => if f.kept && decode then AfterDecode(f, generation) else []
  }

  // What a chunk of this fate is worth on the socket.
  function Worth(f: Fate, generation: nat): seq<Event>
  {
    if f.entered then AfterAdd(f, generation) else []
  }

  // What the worker still has to say about its chunk.
  function Owed(w: Worker, f: Fate): seq<Event>
  {
    match w
    case Polling | Dead => []
    case Locking(chunk) => Worth(f, chunk.generation)
    case Adding(chunk) => AfterAdd(f, chunk.generation)
    case Decoding(chunk) => AfterDecode(f, chunk.generation)
    case Rechecking(chunk) => Sent(true, f, chunk.generation)
    case Posting(_, event, stage) => if stage.Emitted? then [] else [event]
  }

  predicate IsCurrent(s: State)
  {
    HasChunk(s.worker) && s.worker.chunk.generation == s.generation
  }

  // A step that agrees with the fate of the chunk in hand; no send fails and the
  // worker is not cancelled.
  predicate Meets(s: State, a: Action, f: Fate)
  {
    a.ByWorker? ==>
      match a.worker
      case Get | SendFailed | Cancelled => false
      case Enter => f.entered == (IsCurrent(s) && s.active)
      case Added(outcome) => outcome == f.add && f.kept == IsCurrent(s)
      case Decoded(outcome) => outcome == f.decode
      case Recheck => f.current == IsCurrent(s)
      case AcquireSend | EmitSend | ReleaseSend => true
  }

  ghost predicate AllMeet(s: State, run: seq<Action>, f: Fate)
    decreases |run|
  {
    run != [] ==> Enabled(s, run[0]) && Meets(s, run[0], f) && AllMeet(Step(s, run[0]), run[1..], f)
  }

  lemma SessionOwed(s: State, a: WorkerAction, f: Fate)
    requires WorkerEnabled(s, a) && Meets(s, ByWorker(a), f)
    requires a.Enter? || a.Added? || a.Decoded? || a.Recheck?
    ensures Owed(WorkerStep(s, a).worker, f) == Owed(s.worker, f)
  {
  }

  lemma SendOwed(s: State, a: WorkerAction, f: Fate)
    requires WorkerEnabled(s, a) && (a.AcquireSend? || a.ReleaseSend?)
    ensures Owed(WorkerStep(s, a).worker, f) == Owed(s.worker, f)
  {
  }

  lemma WorkerPosts(s: State, a: WorkerAction, f: Fate)
    requires ChunksOk(s) && WorkerEnabled(s, a) && Meets(s, ByWorker(a), f)
    ensures var t := WorkerStep(s, a);
            Posts(t.log) + Owed(t.worker, f) == Posts(s.log) + Owed(s.worker, f)
  {
    WorkerLog(s, a);
    match a
    case EmitSend =>
      LogAppend(s.log, s.worker.event);
      assert Owed(WorkerStep(s, a).worker, f) == [] && Owed(s.worker, f) == [s.worker.event];
    case AcquireSend | ReleaseSend => SendOwed(s, a, f);
    case Enter | Added(_) | Decoded(_) | Recheck => SessionOwed(s, a, f);
  }

  lemma ReceiverPosts(s: State, a: ReceiverAction)
    requires ReceiverOk(s) && ReceiverEnabled(s, a)
    ensures Posts(ReceiverStep(s, a).log) == Posts(s.log) && ReceiverStep(s, a).worker == s.worker
  {
    ReceiverLog(s, a);
    if a.Emit? {
      LogAppend(s.log, s.receiver.event);
    }
  }

  lemma {:induction false} RunPosts(s: State, run: seq<Action>, t: State, f: Fate)
    requires Inv(s) && Follows(s, run, t) && AllMeet(s, run, f)
    ensures Posts(t.log) + Owed(t.worker, f) == Posts(s.log) + Owed(s.worker, f)
    decreases |run|
  {
    if run != [] {
      StepInv(s, run[0]);
      match run[0] {
        case ByReceiver(r) => ReceiverPosts(s, r);
        case ByWorker(w) => WorkerPosts(s, w, f);
      }
      RunPosts(Step(s, run[0]), run[1..], t, f);
    }
  }

  // Whatever the receiver does meanwhile, by the time the worker is done with a
  // chunk it has posted exactly what the chunk is worth.
  lemma EveryChunkIsAnswered(s: State, run: seq<Action>, t: State, f: Fate)
    requires Inv(s) && Enabled(s, ByWorker(Get))
    requires Follows(Step(s, ByWorker(Get)), run, t) && AllMeet(Step(s, ByWorker(Get)), run, f)
    requires t.worker.Polling?
    ensures Posts(t.log) == Posts(s.log) + Worth(f, s.queue[0].generation)
  {
    StepInv(s, ByWorker(Get));
    RunPosts(Step(s, ByWorker(Get)), run, t, f);
    assert Posts(t.log) + [] == Posts(t.log);
  }

  // Text of a session that is still current is posted exactly once.
  lemma TextIsPosted(s: State, run: seq<Action>, t: State, f: Fate)
    requires Inv(s) && Enabled(s, ByWorker(Get))
    requires Follows(Step(s, ByWorker(Get)), run, t) && AllMeet(Step(s, ByWorker(Get)), run, f)
    requires t.worker.Polling? && f.entered && f.kept && f.current
    requires f.add == Locked(true) || (f.add == Quiet(true) && f.decode == PartialText(true))
    ensures Posts(t.log) == Posts(s.log) + [Payload(s.queue[0].generation)]
  {
    EveryChunkIsAnswered(s, run, t, f);
  }

  // A message that cannot be sent is reported by an error event, once.
  lemma FailedSendIsReported(s: State, run: seq<Action>, t: State, f: Fate)
    requires Inv(s) && Enabled(s, ByWorker(SendFailed)) && s.worker.event.Payload?
    requires Follows(Step(s, ByWorker(SendFailed)), run, t) && AllMeet(Step(s, ByWorker(SendFailed)), run, f)
    requires t.worker.Polling?
    ensures Posts(t.log) == Posts(s.log) + [Failure]
  {
    StepInv(s, ByWorker(SendFailed));
    RunPosts(Step(s, ByWorker(SendFailed)), run, t, f);
    assert Posts(t.log) + [] == Posts(t.log);
  }

  // ------------------------------------------------------- accepted audio

  // The audio that the client has offered to an active session with room since
  // the last START of a run, after what was accepted before the run.
  ghost function Offered(s: State, run: seq<Action>, before: seq<Bytes>): seq<Bytes>
    decreases |run|
  {
    if run == [] || !Enabled(s, run[0]) then before
    else
      var now := match run[0]
        case ByReceiver(Start) => []
        case ByReceiver(Audio(data, _)) => if s.active && |s.queue| < s.capacity then before + [data] else before
        case _ => before;
      Offered(Step(s, run[0]), run[1..], now)
  }

  lemma {:induction false} AcceptedIsOffered(s: State, run: seq<Action>, t: State)
    requires Follows(s, run, t)
    ensures t.accepted == Offered(s, run, s.accepted)
    decreases |run|
  {
    if run != [] {
      AcceptedIsOffered(Step(s, run[0]), run[1..], t);
    }
  }

  lemma {:induction false} FollowsInv(s: State, run: seq<Action>, t: State)
    requires Inv(s) && Follows(s, run, t)
    ensures Inv(t)
    decreases |run|
  {
    if run != [] {
      StepInv(s, run[0]);
      FollowsInv(Step(s, run[0]), run[1..], t);
    }
  }

  // Past the barrier of STOP the session has been given exactly the audio that
  // the client offered since START while there was room, once each, in order.
  lemma OfferedIsFed(capacity: nat, run: seq<Action>, t: State)
    requires Follows(Init(capacity), run, t) && PastBarrier(t.receiver)
    ensures t.fed == Offered(Init(capacity), run, [])
  {
    InitInv(capacity);
    FollowsInv(Init(capacity), run, t);
    AcceptedIsOffered(Init(capacity), run, t);
    assert Datas(t.queue) == [];
    assert t.fed + Taken(t) + Datas(t.queue) == t.fed;
  }

  // After close() nothing is sent and nothing is fed any more.
  lemma {:induction false} ClosedIsSilent(s: State, run: seq<Action>, t: State)
    requires Inv(s) && s.receiver.Closed? && Follows(s, run, t)
    ensures t.log == s.log && t.fed == s.fed && t.receiver.Closed?
    decreases |run|
  {
    if run != [] {
      StepInv(s, run[0]);
      ClosedIsSilent(Step(s, run[0]), run[1..], t);
    }
  }
}
