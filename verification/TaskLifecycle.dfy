// The life of a task: submission, compensation, processing, result hooks and
// cleanup, with a failure possible at every call that leaves the process.
//
// A call may fail before or after it took effect.  Between two calls of one
// task any number of steps of other tasks may happen.

module TaskLifecycle {
  import opened Wrappers
  import opened TaskRepository

  type Bytes = seq<bv8>

  // Where the state of all tasks is kept.
  datatype World = World(
    tasks: map<string, TaskRecord>,
    temp: map<string, Bytes>,      // temp audio by task
    archive: map<string, Bytes>,   // archived audio by archive key
    index: map<string, string>)    // archive key by content hash

  datatype Stored = Stored(s3Key: string, fileHash: string)

  predicate Queued(t: TaskRecord) { t.status.Pending? || t.status.Processing? }

  predicate Filed(t: TaskRecord) { t.s3Key.Some? && t.fileHash.Some? }

  predicate InArchive(w: World, hash: Bytes -> string, key: string, fileHash: string)
  {
    key in w.archive && hash(w.archive[key]) == fileHash
  }

  // A task still to be processed has its audio.
  predicate AudioAt(w: World, id: string)
    requires id in w.tasks
  {
    w.tasks[id].id == id && (Queued(w.tasks[id]) ==> id in w.temp)
  }

  // A completed task has an archive key, and a recorded hash is the hash of the
  // bytes under that key.
  predicate ArchivedAt(w: World, hash: Bytes -> string, t: TaskRecord)
  {
    && (t.status.Completed? ==> Filed(t))
    && (Filed(t) ==> InArchive(w, hash, t.s3Key.value, t.fileHash.value))
  }

  predicate IndexAt(w: World, hash: Bytes -> string, h: string)
    requires h in w.index
  {
    InArchive(w, hash, w.index[h], h)
  }

  predicate Safe(w: World, hash: Bytes -> string)
  {
    && (forall id :: id in w.tasks ==> AudioAt(w, id) && ArchivedAt(w, hash, w.tasks[id]))
    && (forall h :: h in w.index ==> IndexAt(w, hash, h))
  }

  // The same but for the audio of one task.
  predicate SafeBut(w: World, hash: Bytes -> string, id: string)
  {
    && (forall other :: other in w.tasks ==>
          && w.tasks[other].id == other && ArchivedAt(w, hash, w.tasks[other])
          && (other != id ==> AudioAt(w, other)))
    && (forall h :: h in w.index ==> IndexAt(w, hash, h))
  }

  lemma SafeSplit(w: World, hash: Bytes -> string, id: string)
    ensures Safe(w, hash) <==> SafeBut(w, hash, id) && (id in w.tasks ==> AudioAt(w, id))
  {
    if SafeBut(w, hash, id) && (id in w.tasks ==> AudioAt(w, id)) {
      forall other | other in w.tasks
        ensures AudioAt(w, other) && ArchivedAt(w, hash, w.tasks[other])
      {
      }
    }
  }

  predicate SameAt<V(==)>(a: map<string, V>, b: map<string, V>, id: string)
  {
    (id in a <==> id in b) && (id in a && id in b ==> a[id] == b[id])
  }

  predicate Untouched(w: World, w': World, id: string)
  {
    SameAt(w.tasks, w'.tasks, id) && SameAt(w.temp, w'.temp, id)
  }

  // The archive only grows.
  predicate Grows(w: World, w': World)
  {
    forall key :: key in w.archive ==> key in w'.archive && w'.archive[key] == w.archive[key]
  }

  // A step on behalf of one task, as seen from all the others...
  ghost predicate Mine(w: World, w': World, id: string)
  {
    Grows(w, w') && forall other :: other != id ==> Untouched(w, w', other)
  }

  // ...and steps of the others, as seen from that task.
  predicate Others(w: World, w': World, id: string)
  {
    Grows(w, w') && Untouched(w, w', id)
  }

  lemma MineIsOthers(w: World, w': World, mine: string, id: string)
    requires Mine(w, w', mine) && mine != id
    ensures Others(w, w', id)
  {
  }

  // ------------------------------------------------------------------ effects

  function SetTask(w: World, t: TaskRecord): World { w.(tasks := w.tasks[t.id := t]) }

  function Discard(w: World, id: string): World { w.(temp := w.temp - {id}) }

  lemma SetTaskBut(w: World, hash: Bytes -> string, t: TaskRecord)
    requires SafeBut(w, hash, t.id) && ArchivedAt(w, hash, t)
    ensures SafeBut(SetTask(w, t), hash, t.id)
  {
    var w' := SetTask(w, t);
    forall other | other in w'.tasks
      ensures w'.tasks[other].id == other && ArchivedAt(w', hash, w'.tasks[other])
      ensures other != t.id ==> AudioAt(w', other)
    {
      if other != t.id {
        assert AudioAt(w, other) && ArchivedAt(w, hash, w.tasks[other]);
      }
    }
    forall h | h in w'.index
      ensures IndexAt(w', hash, h)
    {
      assert IndexAt(w, hash, h);
    }
  }

  lemma DiscardBut(w: World, hash: Bytes -> string, id: string)
    requires SafeBut(w, hash, id)
    ensures SafeBut(Discard(w, id), hash, id)
  {
    var w' := Discard(w, id);
    forall other | other in w'.tasks
      ensures w'.tasks[other].id == other && ArchivedAt(w', hash, w'.tasks[other])
      ensures other != id ==> AudioAt(w', other)
    {
      assert other != id ==> AudioAt(w, other);
      assert ArchivedAt(w, hash, w.tasks[other]);
    }
    forall h | h in w'.index
      ensures IndexAt(w', hash, h)
    {
      assert IndexAt(w, hash, h);
    }
  }

  lemma SetTaskSafe(w: World, hash: Bytes -> string, t: TaskRecord)
    requires Safe(w, hash)
    ensures Safe(SetTask(w, t), hash) <==> (Queued(t) ==> t.id in w.temp) && ArchivedAt(w, hash, t)
  {
    var w' := SetTask(w, t);
    assert t.id in w'.tasks && w'.tasks[t.id] == t;
    forall id | id in w'.tasks && id != t.id
      ensures AudioAt(w', id) && ArchivedAt(w', hash, w'.tasks[id])
    {
      assert AudioAt(w, id) && ArchivedAt(w, hash, w.tasks[id]);
    }
    forall h | h in w'.index
      ensures IndexAt(w', hash, h)
    {
      assert IndexAt(w, hash, h);
    }
    assert ArchivedAt(w', hash, t) == ArchivedAt(w, hash, t);
    assert AudioAt(w', t.id) == (Queued(t) ==> t.id in w.temp);
  }

  // Starting to process a task is harmless exactly when its audio is there: a
  // batch that names a task already cleaned up breaks the invariant.
  lemma ProcessingNeedsAudio(w: World, hash: Bytes -> string, id: string, now: int)
    requires Safe(w, hash) && id in w.tasks
    ensures Safe(SetTask(w, WithStatus(w.tasks[id], Processing, now)), hash) <==> id in w.temp
  {
    assert ArchivedAt(w, hash, w.tasks[id]) && AudioAt(w, id);
    SetTaskSafe(w, hash, WithStatus(w.tasks[id], Processing, now));
  }

  const FailedTask := NewTask("1", false, None, None, None, 0).(status := Failed)

  // A task that failed and has been cleaned up, processed again by a batch.
  lemma ProcessingAgainBreaksSafety(w: World, hash: Bytes -> string, now: int)
    requires w == World(map["1" := FailedTask], map[], map[], map[])
    ensures Safe(w, hash) && !Safe(SetTask(w, WithStatus(FailedTask, Processing, now)), hash)
  {
    assert w.tasks["1"] == FailedTask;
    ProcessingNeedsAudio(w, hash, "1", now);
  }

  // Temp audio may go exactly when its task is not waiting for it.
  lemma DiscardSafe(w: World, hash: Bytes -> string, id: string)
    requires Safe(w, hash)
    ensures Safe(Discard(w, id), hash) <==> (id in w.tasks ==> !Queued(w.tasks[id]))
  {
    var w' := Discard(w, id);
    forall other | other in w'.tasks
      ensures ArchivedAt(w', hash, w'.tasks[other]) && (other != id ==> AudioAt(w', other))
    {
      assert AudioAt(w, other) && ArchivedAt(w, hash, w.tasks[other]);
    }
    forall h | h in w'.index
      ensures IndexAt(w', hash, h)
    {
      assert IndexAt(w, hash, h);
    }
    assert id in w.tasks ==> AudioAt(w, id) && (AudioAt(w', id) <==> !Queued(w.tasks[id]));
  }

  // Compensation after a create_task() that raised cleans the audio up; that is
  // safe exactly when the create did not take effect after all.
  lemma LostCreate(w: World, hash: Bytes -> string, t: TaskRecord, took: bool)
    requires Safe(w, hash) && t.id !in w.tasks && t.id in w.temp && t.status.Pending? && ArchivedAt(w, hash, t)
    ensures Safe(Discard(if took then SetTask(w, t) else w, t.id), hash) <==> !took
  {
    SetTaskSafe(w, hash, t);
    DiscardSafe(if took then SetTask(w, t) else w, hash, t.id);
  }

  lemma StoreSafe(w: World, hash: Bytes -> string, key: string, bytes: Bytes)
    requires Safe(w, hash) && key !in w.archive
    ensures Safe(w.(archive := w.archive[key := bytes]), hash)
  {
    var w' := w.(archive := w.archive[key := bytes]);
    forall id | id in w'.tasks
      ensures AudioAt(w', id) && ArchivedAt(w', hash, w'.tasks[id])
    {
      assert AudioAt(w, id) && ArchivedAt(w, hash, w.tasks[id]);
    }
    forall h | h in w'.index
      ensures IndexAt(w', hash, h)
    {
      assert IndexAt(w, hash, h);
    }
  }

  lemma IndexSafe(w: World, hash: Bytes -> string, h: string, key: string)
    requires Safe(w, hash) && InArchive(w, hash, key, h)
    ensures Safe(w.(index := w.index[h := key]), hash)
  {
    var w' := w.(index := w.index[h := key]);
    forall id | id in w'.tasks
      ensures AudioAt(w', id) && ArchivedAt(w', hash, w'.tasks[id])
    {
      assert AudioAt(w, id) && ArchivedAt(w, hash, w.tasks[id]);
    }
    forall g | g in w'.index
      ensures IndexAt(w', hash, g)
    {
      assert g in w.index ==> IndexAt(w, hash, g);
    }
  }

  lemma TempSafe(w: World, hash: Bytes -> string, id: string, bytes: Bytes)
    requires Safe(w, hash)
    ensures Safe(w.(temp := w.temp[id := bytes]), hash)
  {
    var w' := w.(temp := w.temp[id := bytes]);
    forall other | other in w'.tasks
      ensures AudioAt(w', other) && ArchivedAt(w', hash, w'.tasks[other])
    {
      assert AudioAt(w, other) && ArchivedAt(w, hash, w.tasks[other]);
    }
    forall h | h in w'.index
      ensures IndexAt(w', hash, h)
    {
      assert IndexAt(w, hash, h);
    }
  }

  // How a call ends: it may also fail after it took effect.
  datatype Fault = Done | FailedBefore | FailedAfter

  function After<T>(before: T, after: T, fault: Fault): T
  {
    if fault.FailedBefore? then before else after
  }

  // Everything that may go wrong while a task is processed...
  datatype Faults = Faults(
    loadRaises: bool,
    mark: Fault,
    hotwordsRaise: bool,
    hashRaises: bool,
    lookupRaises: bool,
    store: Fault,
    indexRaises: bool,
    fileInfo: Fault,
    textRaises: bool,
    save: Fault,
    keepsTemp: bool,   // cleaning up leaves the audio behind
    error: Fault)

  // ...and while it is submitted.
  datatype SubmitFaults = SubmitFaults(
    loadRaises: bool,
    write: Fault,
    partial: Bytes,
    hashRaises: bool,
    create: Fault,
    enqueueRaises: bool,
    keepsTemp: bool,
    error: Fault)

  // The lookup finds the audio archived already.
  predicate Reused(f: Faults, seen: World, fileHash: string) { !f.lookupRaises && fileHash in seen.index }

  // Archiving succeeds: reusing a file does not depend on the archive.
  predicate Archives(f: Faults, seen: World, fileHash: string)
  {
    !f.hashRaises && (Reused(f, seen, fileHash) || f.store.Done?)
  }

  // The archive key a task gets: the one found, or a new one.
  predicate KeyFits(f: Faults, seen: World, fileHash: string, key: string)
  {
    if Reused(f, seen, fileHash) then key == seen.index[fileHash] else key !in seen.archive
  }

  predicate SubmitSucceeds(f: SubmitFaults) { f.write.Done? && f.create.Done? && !f.enqueueRaises }

  predicate RestoreSucceeds(f: SubmitFaults) { !f.loadRaises && f.write.Done? && !f.hashRaises }

  datatype Hook = AudioBackup | TextFile | Persistence | TempCleanup

  predicate Critical(hook: Hook) { !hook.TempCleanup? }

  const Hooks := [AudioBackup, TextFile, Persistence, TempCleanup]

  // str.lower() of hexadecimal digits.
  function Lower(text: string): string
  {
    seq(|text|, i requires 0 <= i < |text| =>
      if 'A' <= text[i] <= 'Z' then ((text[i] as int) + 32) as char else text[i])
  }

  predicate SameLetter(a: char, b: char)
  {
    a == b || ('A' <= a <= 'Z' && b as int == a as int + 32) || ('A' <= b <= 'Z' && a as int == b as int + 32)
  }

  // Two texts agree in lower case exactly when they agree but for the case of
  // their letters.
  lemma LowerIgnoresCase(a: string, b: string)
    ensures Lower(a) == Lower(b) <==> |a| == |b| && forall i :: 0 <= i < |a| ==> SameLetter(a[i], b[i])
  {
    if Lower(a) == Lower(b) {
      assert |Lower(a)| == |Lower(b)|;
      forall i | 0 <= i < |a|
        ensures SameLetter(a[i], b[i])
      {
        assert Lower(a)[i] == Lower(b)[i];
      }
    }
  }

  ghost function MaxLength(keys: set<string>): (n: nat)
    ensures forall key :: key in keys ==> |key| <= n
  {
    if keys == {} then 0
    else
      var key :| key in keys;
      var n := MaxLength(keys - {key});
      if |key| > n then |key| else n
  }

  lemma FreshKeyExists(keys: set<string>)
    ensures exists key: string :: key !in keys
  {
    var key := seq(MaxLength(keys) + 1, i => 'k');
    assert |key| > MaxLength(keys);
    assert key !in keys;
  }
}
