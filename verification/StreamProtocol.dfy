// One ONLINE recognition stream as a state machine.
//
// Two tasks share a runtime: the receiver (START, STOP, audio, close) and the
// recognition worker.  Code between two awaits is one step; every await is a
// point where the other task may run.  The asyncio locks are explicit, so the
// step relation covers every interleaving of the two tasks.

module StreamProtocol {

  newtype Byte = b: int | 0 <= b < 256
  type Bytes = seq<Byte>

  // Messages written to the socket.  The generation is not part of the wire
  // format: it records which session the message belongs to.
  datatype Event =
    | Ready
    | Started(generation: nat)
    | Stopped
    | Payload(generation: nat)
    | Final(generation: nat)
    | Failure
    | InactiveSession
    | Backpressure
    | UnknownCommand

  datatype Chunk = Chunk(generation: nat, data: Bytes)

  datatype Lock = Free | HeldByReceiver | HeldByWorker

  datatype SendStage = Waiting | Holding | Emitted

  datatype Receiver =
    | Idle
    | StartWait(target: nat)  // start_session waits for the session lock
    | StopJoin                // stop_session waits for the queue to drain
    | StopWait                // stop_session waits for the session lock
    | StopFinish              // inside session.finish(), session lock held
    | Sending(event: Event, thenStopped: bool, stage: SendStage)
    | Closed

  datatype Worker =
    | Polling
    | Locking(chunk: Chunk)     // _process_audio waits for the session lock
    | Adding(chunk: Chunk)      // inside session.add_audio(), session lock held
    | Decoding(chunk: Chunk)    // inside session.decode_partial(), session lock held
    | Rechecking(chunk: Chunk)  // _send_if_current waits for the session lock
    | Posting(chunk: Chunk, event: Event, stage: SendStage)
    | Dead

  datatype State = State(
    generation: nat,
    capacity: nat,
    queue: seq<Chunk>,
    unfinished: int,
    active: bool,
    fed: seq<Bytes>,       // chunks given to session.add_audio since the last reset
    accepted: seq<Bytes>,  // chunks put on the queue since the last START
    sessionLock: Lock,
    sendLock: Lock,
    stopWorker: bool,
    receiver: Receiver,
    worker: Worker,
    log: seq<Event>)

  // How a section of the worker that runs model code ends.
  datatype AddOutcome = AddRaised | Locked(hasText: bool) | Quiet(decode: bool)
  datatype DecodeOutcome = DecodeRaised | PartialText(hasText: bool)

  // A label per atomic section; its arguments are the choices made by the
  // client, the clock and the models.
  datatype ReceiverAction =
    | Start
    | StartEnter
    | Stop
    | StopJoined
    | StopEnter
    | StopFinished(hasFinal: bool)
    | Audio(data: Bytes, notify: bool)
    | Unknown
    | Close
    | Acquire
    | Emit
    | Release

  datatype WorkerAction =
    | Get
    | Enter
    | Added(added: AddOutcome)
    | Decoded(decoded: DecodeOutcome)
    | Recheck
    | AcquireSend
    | EmitSend
    | ReleaseSend
    | SendFailed
    | Cancelled

  datatype Action = ByReceiver(receiver: ReceiverAction) | ByWorker(worker: WorkerAction)

  function Init(capacity: nat): State
  {
    State(0, capacity, [], 0, false, [], [], Free, Free, false, Sending(Ready, false, Waiting), Polling, [])
  }

  // ---------------------------------------------------------------- receiver

  function StartStep(s: State): State
  {
    s.(generation := s.generation + 1, queue := [], unfinished := s.unfinished - |s.queue|,
       accepted := [], receiver := StartWait(s.generation + 1))
  }

  function StartEnterStep(s: State): State
    requires s.receiver.StartWait?
  {
    if s.receiver.target != s.generation then s.(receiver := Idle)
    else s.(active := true, fed := [], receiver := Sending(Started(s.generation), false, Waiting))
  }

  function StopEnterStep(s: State): State
  {
    if s.active then s.(sessionLock := HeldByReceiver, receiver := StopFinish)
    else s.(receiver := Sending(Stopped, false, Waiting))
  }

  function StopFinishedStep(s: State, hasFinal: bool): State
  {
    s.(active := false, sessionLock := Free,
       receiver := if hasFinal then Sending(Final(s.generation), true, Waiting) else Sending(Stopped, false, Waiting))
  }

  function AudioStep(s: State, data: Bytes, notify: bool): State
  {
    if !s.active then s.(receiver := Sending(InactiveSession, false, Waiting))
    else if |s.queue| < s.capacity then
      s.(queue := s.queue + [Chunk(s.generation, data)], unfinished := s.unfinished + 1,
         accepted := s.accepted + [data])
    else if notify then s.(receiver := Sending(Backpressure, false, Waiting))
    else s
  }

  // Closing gives up whatever the receiver holds and cancels the worker.
  function CloseStep(s: State): State
  {
    s.(generation := s.generation + 1, stopWorker := true, receiver := Closed,
       sessionLock := if s.sessionLock == HeldByReceiver then Free else s.sessionLock,
       sendLock := if s.sendLock == HeldByReceiver then Free else s.sendLock)
  }

  function ReceiverEmitStep(s: State): State
    requires s.receiver.Sending?
  {
    s.(log := s.log + [s.receiver.event], receiver := s.receiver.(stage := Emitted))
  }

  function ReceiverReleaseStep(s: State): State
    requires s.receiver.Sending?
  {
    s.(sendLock := Free, receiver := if s.receiver.thenStopped then Sending(Stopped, false, Waiting) else Idle)
  }

  // ------------------------------------------------------------------ worker

  function TaskDone(s: State): State
  {
    s.(unfinished := s.unfinished - 1, worker := Polling)
  }

  function WorkerGetStep(s: State): State
    requires s.queue != []
  {
    s.(queue := s.queue[1..], worker := Locking(s.queue[0]))
  }

  function WorkerEnterStep(s: State): State
    requires s.worker.Locking?
  {
    var chunk := s.worker.chunk;
    if chunk.generation != s.generation || !s.active then TaskDone(s)
    else s.(sessionLock := HeldByWorker, fed := s.fed + [chunk.data], worker := Adding(chunk))
  }

  function WorkerAddedStep(s: State, outcome: AddOutcome): State
    requires s.worker.Adding?
  {
    var chunk := s.worker.chunk;
    var free := s.(sessionLock := Free);
    if outcome.AddRaised? then free.(worker := Posting(chunk, Failure, Waiting))
    else if chunk.generation != s.generation then TaskDone(free)
    else if outcome.Locked? then
      if outcome.hasText then free.(worker := Rechecking(chunk)) else TaskDone(free)
    else if !outcome.decode then TaskDone(free)
    else s.(worker := Decoding(chunk))
  }

  function WorkerDecodedStep(s: State, outcome: DecodeOutcome): State
    requires s.worker.Decoding?
  {
    var chunk := s.worker.chunk;
    var free := s.(sessionLock := Free);
    if outcome.DecodeRaised? then free.(worker := Posting(chunk, Failure, Waiting))
    else if outcome.hasText then free.(worker := Rechecking(chunk))
    else TaskDone(free)
  }

  function WorkerRecheckStep(s: State): State
    requires s.worker.Rechecking?
  {
    var chunk := s.worker.chunk;
    if chunk.generation != s.generation then TaskDone(s)
    else s.(sessionLock := HeldByWorker, worker := Posting(chunk, Payload(chunk.generation), Waiting))
  }

  function WorkerEmitStep(s: State): State
    requires s.worker.Posting?
  {
    s.(log := s.log + [s.worker.event], worker := s.worker.(stage := Emitted))
  }

  function WorkerReleaseStep(s: State): State
    requires s.worker.Posting?
  {
    TaskDone(s.(sendLock := Free, sessionLock := if s.worker.event.Payload? then Free else s.sessionLock))
  }

  // A payload that cannot be written is reported as an error; an error that
  // cannot be written ends the worker.
  function WorkerSendFailedStep(s: State): State
    requires s.worker.Posting?
  {
    var send := if s.worker.stage.Waiting? then s.sendLock else Free;
    if s.worker.event.Payload? then
      s.(sendLock := send, sessionLock := Free, worker := Posting(s.worker.chunk, Failure, Waiting))
    else s.(sendLock := send, unfinished := s.unfinished - 1, worker := Dead)
  }

  predicate HasChunk(w: Worker)
  {
    !w.Polling? && !w.Dead?
  }

  function WorkerCancelledStep(s: State): State
  {
    s.(worker := Dead,
       unfinished := if HasChunk(s.worker) then s.unfinished - 1 else s.unfinished,
       sessionLock := if s.sessionLock == HeldByWorker then Free else s.sessionLock,
       sendLock := if s.sendLock == HeldByWorker then Free else s.sendLock)
  }

  // ----------------------------------------------------------- step relation

  predicate ReceiverAt(s: State, stage: SendStage)
  {
    s.receiver.Sending? && s.receiver.stage == stage
  }

  predicate WorkerAt(s: State, stage: SendStage)
  {
    !s.stopWorker && s.worker.Posting? && s.worker.stage == stage
  }

  predicate ReceiverEnabled(s: State, a: ReceiverAction)
  {
    match a
    case Start | Stop | Audio(_, _) | Unknown => s.receiver.Idle?
    case StartEnter => s.receiver.StartWait? && s.sessionLock.Free?
    case StopJoined => s.receiver.StopJoin? && s.unfinished == 0
    case StopEnter => s.receiver.StopWait? && s.sessionLock.Free?
    case StopFinished(_) => s.receiver.StopFinish?
    case Close => !s.receiver.Closed?
    case Acquire => ReceiverAt(s, Waiting) && s.sendLock.Free?
    case Emit => ReceiverAt(s, Holding)
    case Release => ReceiverAt(s, Emitted)
  }

  predicate WorkerEnabled(s: State, a: WorkerAction)
  {
    match a
    case Get => !s.stopWorker && s.worker.Polling? && s.queue != []
    case Enter => !s.stopWorker && s.worker.Locking? && s.sessionLock.Free?
    case Added(_) => !s.stopWorker && s.worker.Adding?
    case Decoded(_) => !s.stopWorker && s.worker.Decoding?
    case Recheck => !s.stopWorker && s.worker.Rechecking? && s.sessionLock.Free?
    case AcquireSend => WorkerAt(s, Waiting) && s.sendLock.Free?
    case EmitSend => WorkerAt(s, Holding)
    case ReleaseSend => WorkerAt(s, Emitted)
    case SendFailed => !s.stopWorker && s.worker.Posting?
    case Cancelled => s.stopWorker && !s.worker.Dead?
  }

  function ReceiverStep(s: State, a: ReceiverAction): State
    requires ReceiverEnabled(s, a)
  {
    match a
    case Start => StartStep(s)
    case StartEnter => StartEnterStep(s)
    case Stop => s.(receiver := StopJoin)
    case StopJoined => s.(receiver := StopWait)
    case StopEnter => StopEnterStep(s)
    case StopFinished(hasFinal) => StopFinishedStep(s, hasFinal)
    case Audio(data, notify) => AudioStep(s, data, notify)
    case Unknown => s.(receiver := Sending(UnknownCommand, false, Waiting))
    case Close => CloseStep(s)
    case Acquire => s.(sendLock := HeldByReceiver, receiver := s.receiver.(stage := Holding))
    case Emit => ReceiverEmitStep(s)
    case Release => ReceiverReleaseStep(s)
  }

  function WorkerStep(s: State, a: WorkerAction): State
    requires WorkerEnabled(s, a)
  {
    match a
    case Get => WorkerGetStep(s)
    case Enter => WorkerEnterStep(s)
    case Added(outcome) => WorkerAddedStep(s, outcome)
    case Decoded(outcome) => WorkerDecodedStep(s, outcome)
    case Recheck => WorkerRecheckStep(s)
    case AcquireSend => s.(sendLock := HeldByWorker, worker := s.worker.(stage := Holding))
    case EmitSend => WorkerEmitStep(s)
    case ReleaseSend => WorkerReleaseStep(s)
    case SendFailed => WorkerSendFailedStep(s)
    case Cancelled => WorkerCancelledStep(s)
  }

  predicate Enabled(s: State, a: Action)
  {
    match a
    case ByReceiver(r) => ReceiverEnabled(s, r)
    case ByWorker(w) => WorkerEnabled(s, w)
  }

  function Step(s: State, a: Action): State
    requires Enabled(s, a)
  {
    match a
    case ByReceiver(r) => ReceiverStep(s, r)
    case ByWorker(w) => WorkerStep(s, w)
  }

  // A run: the states visited from the initial one by enabled actions.
  ghost predicate IsRun(run: seq<State>, capacity: nat)
  {
    && run != []
    && run[0] == Init(capacity)
    && forall i :: 0 < i < |run| ==> Reaches(run[i - 1], run[i])
  }

  ghost predicate Reaches(s: State, t: State)
  {
    exists a :: Enabled(s, a) && t == Step(s, a)
  }
}
