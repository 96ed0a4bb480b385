// The runtime object itself: its methods are the code between two awaits of
// OnlineStreamRuntime, and each one takes exactly one step of the protocol.

module StreamRuntime {
  import opened StreamProtocol
  import StreamSafety

  class OnlineStreamRuntime {
    const capacity: nat
    var generation: nat
    var queue: seq<Chunk>
    var unfinished: int
    var active: bool
    var fed: seq<Bytes>
    ghost var accepted: seq<Bytes>
    var sessionLock: Lock
    var sendLock: Lock
    var stopWorker: bool
    var receiver: Receiver
    var worker: Worker
    ghost var log: seq<Event>

    ghost function View(): State
      reads this
    {
      State(generation, capacity, queue, unfinished, active, fed, accepted, sessionLock, sendLock,
            stopWorker, receiver, worker, log)
    }

    ghost predicate Valid()
      reads this
    {
      StreamSafety.Inv(View())
    }

    constructor (queueMaxChunks: int)
      ensures capacity == (if queueMaxChunks < 1 then 1 else queueMaxChunks)
      ensures View() == Init(capacity) && Valid()
    {
      capacity := if queueMaxChunks < 1 then 1 else queueMaxChunks;
      generation, queue, unfinished, active, fed, accepted := 0, [], 0, false, [], [];
      sessionLock, sendLock, stopWorker := Free, Free, false;
      receiver, worker, log := Sending(Ready, false, Waiting), Polling, [];
      new;
      StreamSafety.InitInv(capacity);
    }

    // ---------------------------------------------------------- start_session

    method DrainAudioQueue()
      modifies this`queue, this`unfinished
      ensures queue == [] && unfinished == old(unfinished) - |old(queue)|
    {
      while queue != []
        invariant unfinished - |queue| == old(unfinished) - |old(queue)|
        decreases |queue|
      {
        queue := queue[1..];
        unfinished := unfinished - 1;
      }
    }

    method StartSession()
      requires Valid() && ReceiverEnabled(View(), Start)
      modifies this
      ensures Valid() && View() == ReceiverStep(old(View()), Start)
    {
      StreamSafety.StepInv(View(), ByReceiver(Start));
      ghost var next := ReceiverStep(View(), Start);
      generation := generation + 1;
      var mine := generation;
      DrainAudioQueue();
      accepted := [];
      receiver := StartWait(mine);
      assert View() == next;
    }

    method StartCritical()
      requires Valid() && ReceiverEnabled(View(), StartEnter)
      modifies this
      ensures Valid() && View() == ReceiverStep(old(View()), StartEnter)
    {
      StreamSafety.StepInv(View(), ByReceiver(StartEnter));
      if receiver.target != generation {
        assert false;  // only the receiver itself moves the generation
      }
      active := false;  // session.reset()
      fed := [];
      active := true;
      receiver := Sending(Started(generation), false, Waiting);
    }

    // ----------------------------------------------------------- stop_session

    method StopCritical()
      requires Valid() && ReceiverEnabled(View(), StopEnter)
      modifies this
      ensures Valid() && View() == ReceiverStep(old(View()), StopEnter)
      ensures queue == [] && fed == accepted
    {
      StreamSafety.StepInv(View(), ByReceiver(StopEnter));
      assert StreamSafety.Datas(queue) == [];
      assert fed + StreamSafety.Taken(View()) + StreamSafety.Datas(queue) == fed;
      if active {
        sessionLock := HeldByReceiver;
        receiver := StopFinish;
      } else {
        receiver := Sending(Stopped, false, Waiting);
      }
    }

    method StopAfterFinish(candidateHasText: bool)
      requires Valid() && ReceiverEnabled(View(), StopFinished(candidateHasText))
      modifies this
      ensures Valid() && View() == ReceiverStep(old(View()), StopFinished(candidateHasText))
      ensures !active && sessionLock == Free
      ensures receiver == if candidateHasText then Sending(Final(generation), true, Waiting)
                          else Sending(Stopped, false, Waiting)
    {
      StreamSafety.StepInv(View(), ByReceiver(StopFinished(candidateHasText)));
      active := false;
      sessionLock := Free;
      if candidateHasText {
        receiver := Sending(Final(generation), true, Waiting);
      } else {
        receiver := Sending(Stopped, false, Waiting);
      }
    }

    // ---------------------------------------------------------- enqueue_audio

    method EnqueueAudio(data: Bytes, noticeDue: bool)
      requires Valid() && receiver.Idle?
      modifies this
      ensures Valid() && View() == ReceiverStep(old(View()), Audio(data, noticeDue))
      ensures |queue| <= capacity
      ensures old(active) && |old(queue)| < capacity ==>
        queue == old(queue) + [Chunk(generation, data)] && receiver == Idle
    {
      StreamSafety.StepInv(View(), ByReceiver(Audio(data, noticeDue)));
      ghost var next := ReceiverStep(View(), Audio(data, noticeDue));
      if !active {
        receiver := Sending(InactiveSession, false, Waiting);
        assert View() == next;
        return;
      }
      if |queue| < capacity {
        queue := queue + [Chunk(generation, data)];
        unfinished := unfinished + 1;
        accepted := accepted + [data];
      } else if noticeDue {
        receiver := Sending(Backpressure, false, Waiting);
      }
      assert View() == next;
    }

    // ------------------------------------------------------------------ close

    method Close()
      requires Valid() && !receiver.Closed?
      modifies this
      ensures Valid() && View() == ReceiverStep(old(View()), ReceiverAction.Close)
      ensures generation == old(generation) + 1 && stopWorker && receiver == Closed
    {
      StreamSafety.StepInv(View(), ByReceiver(ReceiverAction.Close));
      ghost var next := ReceiverStep(View(), ReceiverAction.Close);
      generation := generation + 1;
      stopWorker := true;
      if sessionLock == HeldByReceiver { sessionLock := Free; }
      if sendLock == HeldByReceiver { sendLock := Free; }
      receiver := Closed;
      assert View() == next;
    }

    // ------------------------------------------------------------- the worker

    method WorkerGet()
      requires Valid() && WorkerEnabled(View(), Get)
      modifies this
      ensures Valid() && View() == WorkerStep(old(View()), Get)
    {
      StreamSafety.StepInv(View(), ByWorker(Get));
      var chunk := queue[0];
      queue := queue[1..];
      worker := Locking(chunk);
    }

    method WorkerTaskDone()
      requires worker.Locking? || worker.Adding? || worker.Decoding? || worker.Rechecking? || worker.Posting?
      modifies this`unfinished, this`worker
      ensures unfinished == old(unfinished) - 1 && worker == Polling
    {
      unfinished := unfinished - 1;
      worker := Polling;
    }

    method ProcessAudioEnter()
      requires Valid() && WorkerEnabled(View(), Enter)
      modifies this
      ensures Valid() && View() == WorkerStep(old(View()), Enter)
    {
      StreamSafety.StepInv(View(), ByWorker(Enter));
      var chunk := worker.chunk;
      if chunk.generation != generation || !active {
        WorkerTaskDone();
      } else {
        sessionLock := HeldByWorker;
        fed := fed + [chunk.data];
        worker := Adding(chunk);
      }
    }

    // After add_audio: the generation is compared once more before any result
    // of this chunk is looked at.
    method ProcessAudioAdded(outcome: AddOutcome)
      requires Valid() && WorkerEnabled(View(), Added(outcome))
      modifies this
      ensures Valid() && View() == WorkerStep(old(View()), Added(outcome))
    {
      StreamSafety.StepInv(View(), ByWorker(Added(outcome)));
      ghost var next := WorkerStep(View(), Added(outcome));
      var chunk := worker.chunk;
      if outcome.AddRaised? {
        sessionLock := Free;
        worker := Posting(chunk, Failure, Waiting);
      } else if chunk.generation != generation {
        sessionLock := Free;
        WorkerTaskDone();
      } else if outcome.Quiet? && outcome.decode {
        worker := Decoding(chunk);
      } else {
        sessionLock := Free;
        if outcome.Locked? && outcome.hasText {
          worker := Rechecking(chunk);
        } else {
          WorkerTaskDone();
        }
      }
      assert View() == next;
    }

    method ProcessAudioDecoded(outcome: DecodeOutcome)
      requires Valid() && WorkerEnabled(View(), Decoded(outcome))
      modifies this
      ensures Valid() && View() == WorkerStep(old(View()), Decoded(outcome))
    {
      StreamSafety.StepInv(View(), ByWorker(Decoded(outcome)));
      var chunk := worker.chunk;
      sessionLock := Free;
      if outcome.DecodeRaised? {
        worker := Posting(chunk, Failure, Waiting);
      } else if outcome.hasText {
        worker := Rechecking(chunk);
      } else {
        WorkerTaskDone();
      }
    }

    method SendIfCurrentEnter()
      requires Valid() && WorkerEnabled(View(), Recheck)
      modifies this
      ensures Valid() && View() == WorkerStep(old(View()), Recheck)
    {
      StreamSafety.StepInv(View(), ByWorker(Recheck));
      var chunk := worker.chunk;
      if chunk.generation != generation {
        WorkerTaskDone();
      } else {
        sessionLock := HeldByWorker;
        worker := Posting(chunk, Payload(chunk.generation), Waiting);
      }
    }
  }
}
