// Submission, recognition and result hooks of one task, under every
// combination of failures and with interference by other tasks.

module TaskServices {
  import opened Wrappers
  import opened TaskRepository
  import opened TaskLifecycle

  class TaskServices {
    const hash: Bytes -> string
    var tasks: map<string, TaskRecord>
    var temp: map<string, Bytes>
    var archive: map<string, Bytes>
    var index: map<string, string>

    ghost function View(): World
      reads this
    {
      World(tasks, temp, archive, index)
    }

    // Holds between any two calls.
    ghost predicate Valid()
      reads this
    {
      Safe(View(), hash)
    }

    // The record names an archived file, and its hash is that of the audio.
    ghost predicate Backed(id: string, audio: Bytes)
      reads this
    {
      id in tasks && Filed(tasks[id]) && tasks[id].fileHash.value == hash(audio)
    }

    // The record names the file found at the lookup, or a new one.
    ghost predicate ArchivedAs(id: string, audio: Bytes, faults: Faults, seen: World)
      reads this
    {
      && Backed(id, audio) && Archives(faults, seen, hash(audio))
      && KeyFits(faults, seen, hash(audio), tasks[id].s3Key.value)
    }

    constructor (hash: Bytes -> string)
      ensures Valid() && this.hash == hash && View() == World(map[], map[], map[], map[])
    {
      this.hash := hash;
      tasks, temp, archive, index := map[], map[], map[], map[];
    }

    // Other tasks run: callers learn only what those leave alone.  While the
    // invariant holds for all tasks it goes on to; otherwise it goes on to hold
    // for all tasks but this one.
    method Await(id: string, ghost intact: bool)
      requires Sound(id) && (intact ==> Valid())
      modifies this
      ensures Sound(id) && (intact ==> Valid()) && Others(old(View()), View(), id)
    {
    }

    // The invariant, but for the audio of one task...
    ghost predicate Sound(id: string)
      reads this
    {
      SafeBut(View(), hash, id)
    }

    // ...and that audio.
    ghost predicate HasAudio(id: string)
      reads this
    {
      id in tasks ==> AudioAt(View(), id)
    }

    // ------------------------------------------------------------- repository

    method PutTask(task: TaskRecord, fault: Fault) returns (raised: bool)
      requires Sound(task.id) && ArchivedAt(View(), hash, task)
      modifies this`tasks
      ensures Sound(task.id) && (Valid() <==> HasAudio(task.id))
      ensures Mine(old(View()), View(), task.id) && raised == !fault.Done?
      ensures tasks == After(old(tasks), old(tasks)[task.id := task], fault)
    {
      SetTaskBut(View(), hash, task);
      if !fault.FailedBefore? {
        tasks := tasks[task.id := task];
      }
      SafeSplit(View(), hash, task.id);
      return !fault.Done?;
    }

    // update_status(task, "processing")
    method MarkTaskProcessing(id: string, now: int, fault: Fault) returns (raised: bool)
      requires Sound(id) && id in tasks
      modifies this`tasks
      ensures Sound(id) && (id in temp ==> Valid())
      ensures Mine(old(View()), View(), id) && raised == !fault.Done?
      ensures tasks == After(old(tasks), old(tasks)[id := WithStatus(old(tasks)[id], Processing, now)], fault)
      ensures !fault.FailedBefore? ==> tasks[id].status.Processing? && tasks[id].startedAt == Some(now)
    {
      assert tasks[id].id == id && ArchivedAt(View(), hash, tasks[id]);
      raised := PutTask(WithStatus(tasks[id], Processing, now), fault);
    }

    method RecordError(id: string, message: string, now: int, fault: Fault) returns (raised: bool, found: bool)
      requires Sound(id)
      modifies this`tasks
      ensures Sound(id) && (old(Valid()) ==> Valid())
      ensures Mine(old(View()), View(), id) && raised == !fault.Done? && found == (id in old(tasks))
      ensures tasks == if found
                       then After(old(tasks), old(tasks)[id := WithError(old(tasks)[id], message, now)], fault)
                       else old(tasks)
      ensures found && !fault.FailedBefore? ==>
        && tasks[id].status.Failed? && tasks[id].errorMessage == Some(message) && tasks[id].completedAt == Some(now)
        && tasks[id].retryCount == old(tasks)[id].retryCount + 1
    {
      found := id in tasks;
      if !found {
        return !fault.Done?, false;
      }
      SafeSplit(View(), hash, id);
      assert tasks[id].id == id && ArchivedAt(View(), hash, tasks[id]);
      raised := PutTask(WithError(tasks[id], message, now), fault);
    }

    method RecordFileInfo(id: string, stored: Stored, fault: Fault) returns (raised: bool)
      requires Valid() && id in tasks && InArchive(View(), hash, stored.s3Key, stored.fileHash)
      modifies this`tasks
      ensures Valid() && Mine(old(View()), View(), id) && raised == !fault.Done?
      ensures tasks == After(old(tasks),
        old(tasks)[id := WithFileInfo(old(tasks)[id], Some(stored.s3Key), Some(stored.fileHash))], fault)
    {
      SafeSplit(View(), hash, id);
      assert AudioAt(View(), id) && ArchivedAt(View(), hash, tasks[id]);
      raised := PutTask(WithFileInfo(tasks[id], Some(stored.s3Key), Some(stored.fileHash)), fault);
    }

    method SaveResult(id: string, text: string, now: int, fault: Fault) returns (raised: bool)
      requires Valid() && id in tasks && Filed(tasks[id])
      modifies this`tasks
      ensures Valid() && Mine(old(View()), View(), id) && raised == !fault.Done?
      ensures tasks == After(old(tasks), old(tasks)[id := WithResult(old(tasks)[id], text, now)], fault)
      ensures !fault.FailedBefore? ==>
        tasks[id].status.Completed? && tasks[id].fullText == Some(text) && tasks[id].completedAt == Some(now)
    {
      SafeSplit(View(), hash, id);
      assert AudioAt(View(), id) && ArchivedAt(View(), hash, tasks[id]);
      raised := PutTask(WithResult(tasks[id], text, now), fault);
    }

    // The speaker repository saves the archive key together with the result.
    method SaveSpeakerResult(id: string, stored: Stored, text: string, now: int, fault: Fault) returns (raised: bool)
      requires Valid() && id in tasks && InArchive(View(), hash, stored.s3Key, stored.fileHash)
      modifies this`tasks
      ensures Valid() && Mine(old(View()), View(), id) && raised == !fault.Done?
      ensures tasks == After(old(tasks), old(tasks)[id :=
        WithResult(WithFileInfo(old(tasks)[id], Some(stored.s3Key), Some(stored.fileHash)), text, now)], fault)
    {
      SafeSplit(View(), hash, id);
      assert AudioAt(View(), id) && ArchivedAt(View(), hash, tasks[id]);
      var filed := WithFileInfo(tasks[id], Some(stored.s3Key), Some(stored.fileHash));
      raised := PutTask(WithResult(filed, text, now), fault);
    }

    // ------------------------------------------------------------- temp files

    // Never raises, but may leave the audio behind.
    method CleanupTemp(id: string, keeps: bool)
      requires Sound(id)
      modifies this`temp
      ensures Sound(id) && (Valid() <==> HasAudio(id))
      ensures Mine(old(View()), View(), id) && temp == if keeps then old(temp) else old(temp) - {id}
    {
      DiscardBut(View(), hash, id);
      if !keeps {
        temp := temp - {id};
      }
      SafeSplit(View(), hash, id);
    }

    // Writing temp audio for a task that does not exist yet; a failed write may
    // leave anything behind.
    method WriteTemp(id: string, audio: Bytes, partial: Bytes, fault: Fault) returns (raised: bool)
      requires Valid() && id !in tasks
      modifies this`temp
      ensures Valid() && Mine(old(View()), View(), id) && raised == !fault.Done?
      ensures temp == After(old(temp), old(temp)[id := if raised then partial else audio], fault)
    {
      raised := !fault.Done?;
      TempSafe(View(), hash, id, if raised then partial else audio);
      if !fault.FailedBefore? {
        temp := temp[id := if raised then partial else audio];
      }
    }

    // -------------------------------------------------------------- submission

    // Uploading a new task.  The id is new and nobody else knows it.  The
    // invariant fails exactly if the create raised after it took effect and the
    // audio could be cleaned up.
    method SubmitUpload(id: string, vip: bool, upload: Bytes, now: int, faults: SubmitFaults) returns (accepted: bool)
      requires Valid() && id !in tasks && id !in temp
      modifies this
      ensures Grows(old(View()), View()) && Sound(id)
      ensures Valid() <==> !(faults.write.Done? && faults.create.FailedAfter? && !faults.keepsTemp)
      ensures accepted == SubmitSucceeds(faults)
      ensures accepted ==>
        && id in tasks && tasks[id] == NewTask(id, vip, None, None, None, now) && id in temp && temp[id] == upload
        && tasks[id].status.Pending? && tasks[id].vip == vip && tasks[id].createdAt == Some(now)
      ensures !accepted ==> GivenUp(id, if faults.write.Done? then faults.create else FailedBefore, faults)
    {
      SafeSplit(View(), hash, id);
      var raised := WriteTemp(id, upload, faults.partial, faults.write);
      Await(id, true);
      if raised {
        CompensateFailedSubmission(id, false, now, faults);
        return false;
      }
      accepted := CreateAndEnqueue(NewTask(id, vip, None, None, None, now), now, faults);
    }

    // What a failed submission leaves: nothing at all, or a task that is marked
    // as failed and has no audio any more.  If marking it fails too its audio
    // stays, so that a task that is still pending can be processed after all.
    // A create that raised after it took effect leaves a pending task without
    // audio.  Audio that cannot be cleaned up stays.
    ghost predicate GivenUp(id: string, create: Fault, faults: SubmitFaults)
      reads this
    {
      match create
      case FailedBefore => id !in tasks && (id in temp ==> faults.keepsTemp)
      case FailedAfter => id in tasks && tasks[id].status.Pending? && (id in temp <==> faults.keepsTemp)
      case Done =>
        && id in tasks && (id in temp <==> !faults.error.Done? || faults.keepsTemp)
        && if faults.error.FailedBefore? then tasks[id].status.Pending? else tasks[id].status.Failed?
    }

    // enqueue() raises when no consumer can accept the task.
    method CreateAndEnqueue(task: TaskRecord, now: int, faults: SubmitFaults) returns (accepted: bool)
      requires Valid() && task.id !in tasks && task.id in temp
      requires task.status.Pending? && ArchivedAt(View(), hash, task)
      modifies this
      ensures Grows(old(View()), View()) && Sound(task.id)
      ensures Valid() <==> !(faults.create.FailedAfter? && !faults.keepsTemp)
      ensures accepted == (faults.create.Done? && !faults.enqueueRaises)
      ensures accepted ==>
        task.id in tasks && tasks[task.id] == task && task.id in temp && temp[task.id] == old(temp)[task.id]
      ensures !accepted ==> GivenUp(task.id, faults.create, faults)
    {
      SafeSplit(View(), hash, task.id);
      var raised := PutTask(task, faults.create);
      Await(task.id, true);
      accepted := !raised && !faults.enqueueRaises;
      if !accepted {
        CompensateFailedSubmission(task.id, !raised, now, faults);
      }
    }

    // The audio goes with a task that is known to have been marked as failed, or
    // whose create raised; in the second case the invariant survives exactly if
    // there is no such task after all or its audio cannot be cleaned up.
    method CompensateFailedSubmission(id: string, taskCreated: bool, now: int, faults: SubmitFaults)
      requires Valid() && (id in tasks ==> tasks[id].status.Pending?)
      requires taskCreated ==> id in tasks
      modifies this
      ensures Grows(old(View()), View()) && Sound(id)
      ensures taskCreated ==> Valid() && GivenUp(id, Done, faults)
      ensures !taskCreated ==>
        && SameAt(old(tasks), tasks, id) && (if faults.keepsTemp then SameAt(old(temp), temp, id) else id !in temp)
        && (Valid() <==> id !in old(tasks) || faults.keepsTemp)
    {
      SafeSplit(View(), hash, id);
      var shouldCleanup := !taskCreated;
      if taskCreated {
        assert AudioAt(View(), id);
        var raised, found := RecordError(id, "Task submission failed before queue scheduling", now, faults.error);
        Await(id, true);
        if raised {
          return;
        }
        shouldCleanup := found;
      }
      if !shouldCleanup {
        return;
      }
      CleanupTemp(id, faults.keepsTemp);
      Await(id, taskCreated || id !in tasks || faults.keepsTemp);
      SafeSplit(View(), hash, id);
    }

    // A finished task with an archive key can be submitted again...
    ghost predicate Finished(sourceId: string)
      reads this
    {
      && sourceId in tasks && !tasks[sourceId].isDeleted && !Queued(tasks[sourceId]) && tasks[sourceId].s3Key.Some?
    }

    // ...if its audio is archived, not too large and what the task recorded.
    ghost predicate Restorable(sourceId: string, maxFileSize: nat)
      reads this
    {
      && Finished(sourceId) && tasks[sourceId].s3Key.value in archive
      && var audio := archive[tasks[sourceId].s3Key.value];
         |audio| <= maxFileSize && Verified(tasks[sourceId], audio)
    }

    // Submitting a finished task again from its archived audio, which is
    // verified against the recorded hash if there is one.
    method SubmitRestored(id: string, sourceId: string, vip: bool, maxFileSize: nat, now: int, faults: SubmitFaults)
      returns (accepted: bool)
      requires Valid() && id !in tasks && id !in temp
      modifies this
      ensures Grows(old(View()), View()) && Sound(id)
      ensures Valid() <==> !(id in tasks && faults.create.FailedAfter? && !faults.keepsTemp)
      // as far as the archive has the audio before the call
      ensures old(Finished(sourceId) ==> tasks[sourceId].s3Key.value in archive) ==>
        var restored := old(Restorable(sourceId, maxFileSize)) && RestoreSucceeds(faults);
        && (Valid() <==> !(restored && faults.create.FailedAfter? && !faults.keepsTemp))
        && (id in tasks <==> restored && !faults.create.FailedBefore?)
        && (accepted <==> restored && SubmitSucceeds(faults))
      ensures accepted ==>
        && old(Finished(sourceId)) && RestoreSucceeds(faults) && SubmitSucceeds(faults)
        && id in temp && |temp[id]| <= maxFileSize && Verified(old(tasks)[sourceId], temp[id])
        && id in tasks && tasks[id] == NewTask(id, vip, Some(sourceId), old(tasks)[sourceId].s3Key,
                                               Some(hash(temp[id])), now)
        && tasks[id].s3Key.value in archive && temp[id] == archive[tasks[id].s3Key.value]
      ensures !accepted && id !in tasks ==> (id in temp ==> faults.keepsTemp)
      ensures !accepted && id in tasks ==> GivenUp(id, faults.create, faults)
    {
      SafeSplit(View(), hash, id);
      accepted := false;
      if faults.loadRaises {
        return;
      }
      if sourceId !in tasks || tasks[sourceId].isDeleted {
        return;  // RerecognitionSourceNotFoundError
      }
      var source := tasks[sourceId];
      if Queued(source) || source.s3Key.None? {
        return;  // RerecognitionConflictError
      }
      Await(id, true);
      accepted := SubmitFrom(id, sourceId, source, vip, maxFileSize, now, faults);
    }

    // What follows the checks of the source.
    method SubmitFrom(id: string, sourceId: string, source: TaskRecord, vip: bool, maxFileSize: nat, now: int,
                      faults: SubmitFaults) returns (accepted: bool)
      requires Valid() && id !in tasks && id !in temp && source.s3Key.Some?
      modifies this
      ensures Grows(old(View()), View()) && Sound(id)
      ensures var key := source.s3Key.value;
              var restored := key in old(archive) && faults.write.Done? && !faults.hashRaises
                              && |old(archive)[key]| <= maxFileSize && Verified(source, old(archive)[key]);
              && (Valid() <==> !(restored && faults.create.FailedAfter? && !faults.keepsTemp))
              && (id in tasks <==> restored && !faults.create.FailedBefore?)
              && (accepted <==> restored && SubmitSucceeds(faults))
      ensures accepted ==>
        && id in temp && temp[id] == old(archive)[source.s3Key.value] && id in tasks
        && tasks[id] == NewTask(id, vip, Some(sourceId), source.s3Key, Some(hash(temp[id])), now)
      ensures !accepted && id !in tasks ==> (id in temp ==> faults.keepsTemp)
      ensures !accepted && id in tasks ==> GivenUp(id, faults.create, faults)
    {
      accepted := false;
      var restored := RestoreAndVerify(id, source, maxFileSize, faults);
      if !restored {
        return;
      }
      var task := NewTask(id, vip, Some(sourceId), source.s3Key, Some(hash(temp[id])), now);
      accepted := CreateAndEnqueue(task, now, faults);
    }

    // A recorded hash must match, whatever the case of its letters.
    predicate Verified(source: TaskRecord, audio: Bytes)
    {
      source.fileHash.Some? && source.fileHash.value != "" ==> Lower(hash(audio)) == Lower(source.fileHash.value)
    }

    // Any failure removes what was restored.
    method RestoreAndVerify(id: string, source: TaskRecord, maxFileSize: nat, faults: SubmitFaults) returns (ok: bool)
      requires Valid() && id !in tasks && id !in temp && source.s3Key.Some?
      modifies this
      ensures Valid() && Grows(old(View()), View()) && id !in tasks
      ensures var key := source.s3Key.value;
              ok <==> key in old(archive) && faults.write.Done? && !faults.hashRaises
                      && |old(archive)[key]| <= maxFileSize
                      && (source.fileHash.Some? && source.fileHash.value != "" ==>
                            Lower(hash(old(archive)[key])) == Lower(source.fileHash.value))
      ensures ok ==> id in temp && temp[id] == old(archive)[source.s3Key.value]
      ensures !ok && id in temp ==> faults.keepsTemp
    {
      var key := source.s3Key.value;
      var raised := true;
      if key in archive {
        raised := WriteTemp(id, archive[key], faults.partial, faults.write);
        Await(id, true);
      }
      ok := !raised && !faults.hashRaises && |temp[id]| <= maxFileSize && Verified(source, temp[id]);
      if !ok {
        CleanupTemp(id, faults.keepsTemp);
        Await(id, true);
      }
    }

    // ------------------------------------------------------------- postprocess

    // Archives the audio unless its content is archived already.  `seen` is what
    // the lookup sees.
    method HandleComplete(id: string, faults: Faults) returns (raised: bool, stored: Option<Stored>, ghost seen: World)
      requires Valid()
      modifies this
      ensures Valid() && Others(old(View()), View(), id) && Others(old(View()), seen, id)
      ensures id !in old(temp) ==> !raised && stored.None?
      ensures id in old(temp) ==>
        var fileHash := hash(old(temp)[id]);
        && (raised <==> stored.None?) && (raised <==> !Archives(faults, seen, fileHash))
        && (stored.Some? ==> stored.value.fileHash == fileHash && KeyFits(faults, seen, fileHash, stored.value.s3Key))
      ensures stored.Some? ==> InArchive(View(), hash, stored.value.s3Key, stored.value.fileHash)
    {
      raised, stored, seen := false, None, View();
      if id !in temp {
        return;
      }
      if faults.hashRaises {
        return true, None, seen;
      }
      var fileHash := hash(temp[id]);
      Await(id, true);
      seen := View();
      if !faults.lookupRaises && fileHash in index {  // a failed lookup counts as no match
        assert IndexAt(View(), hash, fileHash);
        stored := Some(Stored(index[fileHash], fileHash));
      } else {
        Await(id, true);
        raised, stored := StoreNewFile(id, fileHash, faults);
      }
      Await(id, true);
    }

    // The archive key is random, so it is new.  A failure to index the file is
    // only logged.
    method StoreNewFile(id: string, fileHash: string, faults: Faults) returns (raised: bool, stored: Option<Stored>)
      requires Valid() && id in temp && fileHash == hash(temp[id])
      modifies this
      ensures Valid() && Others(old(View()), View(), id)
      ensures raised == !faults.store.Done? && (raised <==> stored.None?)
      ensures stored.Some? ==>
        && stored.value.fileHash == fileHash && InArchive(View(), hash, stored.value.s3Key, fileHash)
        && stored.value.s3Key !in old(archive)
      ensures stored.Some? && !faults.indexRaises ==> fileHash in index && index[fileHash] == stored.value.s3Key
    {
      FreshKeyExists(archive.Keys);
      var key: string :| key !in archive.Keys;
      if !faults.store.FailedBefore? {
        StoreSafe(View(), hash, key, temp[id]);
        archive := archive[key := temp[id]];
      }
      if !faults.store.Done? {
        return true, None;
      }
      Await(id, true);
      if !faults.indexRaises {
        IndexSafe(View(), hash, fileHash, key);
        index := index[fileHash := key];
      }
      return false, Some(Stored(key, fileHash));
    }

    // ------------------------------------------------------------------- hooks

    // on_success of one hook; `backup` says whether the context has a key.
    method OnSuccess(hook: Hook, id: string, backup: bool, text: string, now: int, faults: Faults)
      returns (raised: bool, backedUp: bool, ghost seen: World)
      requires Valid() && id in tasks
      requires hook.AudioBackup? ==> id in temp
      requires hook.Persistence? ==> Filed(tasks[id])
      requires hook.TempCleanup? && backup ==> tasks[id].status.Completed?
      modifies this
      ensures Valid() && id in tasks && (!hook.AudioBackup? ==> backedUp == backup)
      ensures hook.AudioBackup? ==>
        && SameAt(old(temp), temp, id) && Others(old(View()), seen, id)
        && (raised <==> !Archives(faults, seen, hash(old(temp)[id])) || !faults.fileInfo.Done?)
        && (!raised ==> backedUp && ArchivedAs(id, old(temp)[id], faults, seen))
      ensures hook.TextFile? ==>
        SameAt(old(temp), temp, id) && tasks[id] == old(tasks)[id] && raised == faults.textRaises
      ensures hook.Persistence? ==>
        && SameAt(old(temp), temp, id) && raised == !faults.save.Done?
        && tasks[id] == After(old(tasks)[id], WithResult(old(tasks)[id], text, now), faults.save)
      ensures hook.TempCleanup? ==>
        && !raised && tasks[id] == old(tasks)[id]
        && (if backup && !faults.keepsTemp then id !in temp else SameAt(old(temp), temp, id))
    {
      raised, backedUp, seen := false, backup, View();
      match hook
      case AudioBackup =>
        var stored;
        raised, stored, seen := HandleComplete(id, faults);
        if stored.Some? {
          backedUp := true;
          raised := RecordFileInfo(id, stored.value, faults.fileInfo);
        }
      case TextFile =>
        raised := faults.textRaises;
      case Persistence =>
        raised := SaveResult(id, text, now, faults.save);
      case TempCleanup =>
        if backup {
          CleanupTemp(id, faults.keepsTemp);
        }
      Await(id, true);
    }

    // SequentialHookExecutor.run in the success phase: a critical hook that
    // fails ends the run.
    method HandleSuccess(id: string, text: string, now: int, faults: Faults) returns (raised: bool, ghost seen: World)
      requires Valid() && id in tasks && id in temp
      modifies this
      ensures Valid() && id in tasks && Others(old(View()), seen, id)
      ensures raised <==> !(Archives(faults, seen, hash(old(temp)[id])) && faults.fileInfo.Done?
                            && !faults.textRaises && faults.save.Done?)
      ensures !raised ==> tasks[id].status.Completed? && tasks[id].fullText == Some(text)
      ensures Archives(faults, seen, hash(old(temp)[id])) && faults.fileInfo.Done? ==>
        ArchivedAs(id, old(temp)[id], faults, seen)
      ensures if raised || faults.keepsTemp then SameAt(old(temp), temp, id) else id !in temp
    {
      var backup := false;
      var i := 0;
      seen := View();
      ghost var before, audio := View(), temp[id];
      while i < |Hooks|
        invariant Valid() && id in tasks && 0 <= i <= 4
        invariant i < 4 ==> SameAt(old(temp), temp, id)
        invariant Others(before, seen, id) && (i == 0 ==> View() == before)
        invariant i >= 1 ==> backup && ArchivedAs(id, audio, faults, seen) && faults.fileInfo.Done?
        invariant i >= 2 ==> !faults.textRaises
        invariant i >= 3 ==> faults.save.Done? && tasks[id].status.Completed? && tasks[id].fullText == Some(text)
        invariant i == 4 ==> if faults.keepsTemp then SameAt(old(temp), temp, id) else id !in temp
      {
        ghost var looked;
        raised, backup, looked := OnSuccess(Hooks[i], id, backup, text, now, faults);
        if Hooks[i].AudioBackup? {
          seen := looked;
        }
        if raised && Critical(Hooks[i]) {
          return true, seen;
        }
        i := i + 1;
      }
      return false, seen;
    }

    // The failure phase never raises: only the persistence hook does anything,
    // and its failure is swallowed.
    method HandleFailure(id: string, message: string, now: int, fault: Fault, ghost intact: bool)
      requires Sound(id) && (intact ==> Valid()) && id in tasks
      modifies this
      ensures Sound(id) && (intact ==> Valid()) && id in tasks && SameAt(old(temp), temp, id)
      ensures tasks[id] == After(old(tasks)[id], WithError(old(tasks)[id], message, now), fault)
    {
      for i := 0 to |Hooks|
        invariant Sound(id) && (intact ==> Valid()) && id in tasks && SameAt(old(temp), temp, id)
        invariant tasks[id] == if i <= 2 then old(tasks)[id]
                               else After(old(tasks)[id], WithError(old(tasks)[id], message, now), fault)
      {
        if Hooks[i].Persistence? {
          var raised, found := RecordError(id, message, now, fault);
        }
        Await(id, intact);
      }
    }

    // -------------------------------------------------------------- processing

    // An OFFLINE task.  `text` is what the recognition yields, if it succeeds.
    // Its temp audio goes only once the task is completed and archived.  A lookup
    // of the task that raises is left to the caller.
    method ProcessOffline(id: string, text: Option<string>, now: int, faults: Faults)
      returns (done: bool, ghost seen: World)
      requires Valid()
      modifies this
      ensures faults.loadRaises ==> !done && View() == old(View())
      ensures Valid() <==> !(id in old(tasks) && id !in old(temp) && !faults.loadRaises
                             && !faults.mark.FailedBefore? && faults.error.FailedBefore?)
      ensures done <==>
        && id in old(tasks) && id in old(temp) && text.Some?
        && !faults.loadRaises && faults.mark.Done? && !faults.hotwordsRaise
        && Archives(faults, seen, hash(old(temp)[id])) && faults.fileInfo.Done?
        && !faults.textRaises && faults.save.Done?
      ensures done ==>
        && (id in temp <==> faults.keepsTemp)
        && id in tasks && tasks[id].status.Completed? && tasks[id].fullText == text
        && Grows(old(View()), seen) && ArchivedAs(id, old(temp)[id], faults, seen)
      ensures !done ==> SameAt(old(temp), temp, id)
      ensures !done && id in old(tasks) && !faults.loadRaises && !faults.error.FailedBefore? ==>
        id in tasks && tasks[id].status.Failed?
    {
      seen := View();
      if faults.loadRaises {
        return false, seen;
      }
      if id !in tasks {
        return false, seen;
      }
      if id !in temp {
        ProcessWithoutAudio(id, now, faults);
        return false, seen;
      }
      var raised := MarkTaskProcessing(id, now, faults.mark);
      Await(id, true);
      if !raised && !faults.hotwordsRaise && text.Some? {
        raised, seen := HandleSuccess(id, text.value, now, faults);
        if !raised {
          return true, seen;
        }
      }
      HandleFailure(id, "task failed", now, faults.error, true);
      return false, seen;
    }

    // A task that is not waiting for its audio any more, named by a batch: it is
    // marked as processing before the audio is missed.
    method ProcessWithoutAudio(id: string, now: int, faults: Faults)
      requires Valid() && id in tasks && id !in temp
      modifies this
      ensures Sound(id) && id in tasks && id !in temp
      ensures Valid() <==> faults.mark.FailedBefore? || !faults.error.FailedBefore?
      ensures var task := old(tasks)[id];
              var marked := After(task, WithStatus(task, Processing, now), faults.mark);
              tasks[id] == After(marked, WithError(marked, "task failed", now), faults.error)
    {
      SafeSplit(View(), hash, id);
      var raised := MarkTaskProcessing(id, now, faults.mark);
      Await(id, false);
      HandleFailure(id, "task failed", now, faults.error, false);
      SafeSplit(View(), hash, id);
    }

    // What follows a successful diarisation: archive, save, clean up.
    method StoreSpeakerResult(id: string, text: string, now: int, faults: Faults)
      returns (raised: bool, ghost seen: World)
      requires Valid() && id in tasks && id in temp
      modifies this
      ensures Valid() && id in tasks && Others(old(View()), seen, id)
      ensures raised <==> !(Archives(faults, seen, hash(old(temp)[id])) && faults.save.Done?)
      ensures !raised ==>
        && tasks[id].status.Completed? && tasks[id].fullText == Some(text)
        && ArchivedAs(id, old(temp)[id], faults, seen)
      ensures if raised || faults.keepsTemp then SameAt(old(temp), temp, id) else id !in temp
    {
      var stored;
      raised, stored, seen := HandleComplete(id, faults);
      if raised {
        return;
      }
      raised := SaveSpeakerResult(id, stored.value, text, now, faults.save);
      Await(id, true);
      if !raised {
        CleanupTemp(id, faults.keepsTemp);
        Await(id, true);
      }
    }

    // A speaker task.  Its audio is checked before it is marked as processing.
    method ProcessSpeaker(id: string, result: Option<string>, now: int, faults: Faults)
      returns (done: bool, ghost seen: World)
      requires Valid()
      modifies this
      ensures Valid() && (faults.loadRaises ==> !done && View() == old(View()))
      ensures done <==>
        && id in old(tasks) && id in old(temp) && result.Some? && !faults.loadRaises && faults.mark.Done?
        && Archives(faults, seen, hash(old(temp)[id])) && faults.save.Done?
      ensures done ==>
        && (id in temp <==> faults.keepsTemp)
        && id in tasks && tasks[id].status.Completed? && tasks[id].fullText == result
        && Grows(old(View()), seen) && ArchivedAs(id, old(temp)[id], faults, seen)
      ensures !done ==> SameAt(old(temp), temp, id)
      ensures !done && id in old(tasks) && !faults.loadRaises && !faults.error.FailedBefore? ==>
        id in tasks && tasks[id].status.Failed?
    {
      seen := View();
      if faults.loadRaises {
        return false, seen;
      }
      if id !in tasks {
        return false, seen;
      }
      if id in temp {
        var raised := MarkTaskProcessing(id, now, faults.mark);
        Await(id, true);
        if !raised && result.Some? {
          raised, seen := StoreSpeakerResult(id, result.value, now, faults);
          if !raised {
            return true, seen;
          }
        }
      }
      var again, found := RecordError(id, "task failed", now, faults.error);
      Await(id, true);
      return false, seen;
    }
  }
}
