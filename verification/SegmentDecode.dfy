// Parallel decoding of speech segments: a pool of models shared by threads,
// and the recombination of the decodes in whatever order they complete.

module SegmentDecode {
  import opened Arithmetic
  import opened Wrappers
  import opened SegmentPolicy
  import opened TextAlignment

  // ------------------------------------------------------------ model pool

  // A job has not begun, holds a model, or is over.
  datatype Job = Waiting | Using(model: nat) | Over

  datatype Pool = Pool(free: seq<nat>, jobs: seq<Job>)

  // Skip: the segment has no audio.  Take and Give: the calls around the model;
  // the model is given back whether or not it raised.  Submit: another segment,
  // of this or of another recording.
  datatype Action = Submit | Skip(job: nat) | Take(job: nat) | Give(job: nat)

  predicate Enabled(s: Pool, a: Action)
  {
    match a
    case Submit => true
    case Skip(i) => i < |s.jobs| && s.jobs[i].Waiting?
    case Take(i) => i < |s.jobs| && s.jobs[i].Waiting? && s.free != []
    case Give(i) => i < |s.jobs| && s.jobs[i].Using?
  }

  function Step(s: Pool, a: Action): Pool
    requires Enabled(s, a)
  {
    match a
    case Submit => s.(jobs := s.jobs + [Waiting])
    case Skip(i) => s.(jobs := s.jobs[i := Over])
    case Take(i) => Pool(s.free[1..], s.jobs[i := Using(s.free[0])])
    case Give(i) => Pool(s.free + [s.jobs[i].model], s.jobs[i := Over])
  }

  ghost predicate IsRun(s: Pool, run: seq<Action>, t: Pool)
    decreases |run|
  {
    if run == [] then s == t else Enabled(s, run[0]) && IsRun(Step(s, run[0]), run[1..], t)
  }

  // How many jobs use a model.
  function Uses(jobs: seq<Job>, m: nat): nat
  {
    if jobs == [] then 0
    else Uses(jobs[..|jobs| - 1], m) + UsesOne(jobs[|jobs| - 1], m)
  }

  function UsesOne(j: Job, m: nat): nat { if j == Using(m) then 1 else 0 }

  // How often a model occurs, in the pool or in use.
  function Occurs(s: Pool, m: nat): nat { multiset(s.free)[m] + Uses(s.jobs, m) }

  lemma {:induction false} UsesUpdate(jobs: seq<Job>, i: nat, next: Job, m: nat)
    requires i < |jobs|
    ensures Uses(jobs[i := next], m) + UsesOne(jobs[i], m) == Uses(jobs, m) + UsesOne(next, m)
  {
    var n := |jobs| - 1;
    if i < n {
      assert jobs[i := next][..n] == jobs[..n][i := next];
      UsesUpdate(jobs[..n], i, next, m);
    } else {
      assert jobs[i := next][..n] == jobs[..n];
    }
  }

  lemma StepKeepsModels(s: Pool, a: Action, m: nat)
    requires Enabled(s, a)
    ensures Occurs(Step(s, a), m) == Occurs(s, m)
  {
    match a
    case Submit => assert (s.jobs + [Waiting])[..|s.jobs|] == s.jobs;
    case Skip(i) => UsesUpdate(s.jobs, i, Over, m);
    case Take(i) =>
      UsesUpdate(s.jobs, i, Using(s.free[0]), m);
      assert s.free == [s.free[0]] + s.free[1..];
    case Give(i) => UsesUpdate(s.jobs, i, Over, m);
  }

  // The models in the pool and in use are the same multiset for ever.
  lemma {:induction false} RunKeepsModels(s: Pool, run: seq<Action>, t: Pool, m: nat)
    requires IsRun(s, run, t)
    ensures Occurs(t, m) == Occurs(s, m)
    decreases |run|
  {
    if run != [] {
      StepKeepsModels(s, run[0], m);
      RunKeepsModels(Step(s, run[0]), run[1..], t, m);
    }
  }

  lemma {:induction false} UsesAtLeast(jobs: seq<Job>, i: nat)
    requires i < |jobs| && jobs[i].Using?
    ensures Uses(jobs, jobs[i].model) >= 1
  {
    if i < |jobs| - 1 {
      UsesAtLeast(jobs[..|jobs| - 1], i);
    }
  }

  lemma {:induction false} UsesTwice(jobs: seq<Job>, i: nat, j: nat)
    requires i < j < |jobs| && jobs[i].Using? && jobs[i] == jobs[j]
    ensures Uses(jobs, jobs[i].model) >= 2
  {
    var n := |jobs| - 1;
    if j < n {
      UsesTwice(jobs[..n], i, j);
    } else {
      UsesAtLeast(jobs[..n], i);
    }
  }

  // From a pool of distinct models: in every reachable state no model is in use
  // twice, none is both in use and in the pool, and none is lost.
  lemma NoModelUsedTwice(models: seq<nat>, run: seq<Action>, t: Pool)
    requires forall m :: m in models ==> multiset(models)[m] == 1
    requires IsRun(Pool(models, []), run, t)
    ensures forall i: nat, j: nat :: i < j < |t.jobs| && t.jobs[i].Using? ==> t.jobs[i] != t.jobs[j]
    ensures forall i: nat :: i < |t.jobs| && t.jobs[i].Using? ==>
              t.jobs[i].model in models && t.jobs[i].model !in t.free
    ensures forall m :: m in models ==> multiset(t.free)[m] + Uses(t.jobs, m) == 1
  {
    forall m: nat
      ensures Occurs(t, m) == multiset(models)[m] <= 1
    {
      RunKeepsModels(Pool(models, []), run, t, m);
      assert m !in models ==> m !in multiset(models);
    }
    forall i: nat, j: nat | i < j < |t.jobs| && t.jobs[i].Using?
      ensures t.jobs[i] != t.jobs[j]
    {
      assert Occurs(t, t.jobs[i].model) <= 1;
      if t.jobs[i] == t.jobs[j] {
        UsesTwice(t.jobs, i, j);
        assert false;
      }
    }
    forall i: nat | i < |t.jobs| && t.jobs[i].Using?
      ensures t.jobs[i].model in models && t.jobs[i].model !in t.free
    {
      UsesAtLeast(t.jobs, i);
      assert Occurs(t, t.jobs[i].model) == multiset(models)[t.jobs[i].model];
      assert t.jobs[i].model !in multiset(t.free);
    }
    forall m | m in models
      ensures multiset(t.free)[m] + Uses(t.jobs, m) == 1
    {
      assert Occurs(t, m) == multiset(models)[m];
    }
  }

  lemma {:induction false} SomeoneUses(jobs: seq<Job>, m: nat) returns (i: nat)
    requires Uses(jobs, m) > 0
    ensures i < |jobs| && jobs[i] == Using(m)
  {
    var n := |jobs| - 1;
    if jobs[n] == Using(m) {
      i := n;
    } else {
      i := SomeoneUses(jobs[..n], m);
    }
  }

  // With at least one model nobody waits for ever: a waiting job can begin or
  // some job can give its model back.
  lemma PoolProgress(models: seq<nat>, run: seq<Action>, t: Pool, i: nat) returns (a: Action)
    requires models != [] && IsRun(Pool(models, []), run, t) && i < |t.jobs| && t.jobs[i].Waiting?
    ensures Enabled(t, a) && (a == Take(i) || a.Give?)
  {
    RunKeepsModels(Pool(models, []), run, t, models[0]);
    if t.free != [] {
      a := Take(i);
    } else {
      assert models[0] in multiset(models);
      var j := SomeoneUses(t.jobs, models[0]);
      a := Give(j);
    }
  }

  // ---------------------------------------------------------- recombination

  datatype Payload = Payload(text: string, start: int, end: int, stamps: seq<Stamp>)

  datatype Decode = Decode(index: nat, text: string, stamps: seq<Stamp>, payload: Payload)

  datatype Combined = Combined(text: string, stamps: seq<Stamp>, payloads: seq<Payload>)

  // The decode that wrote a slot last.
  function Latest(decodes: seq<Decode>, k: nat): Option<Decode>
  {
    if decodes == [] then None
    else
      var last := decodes[|decodes| - 1];
      if last.index == k then Some(last) else Latest(decodes[..|decodes| - 1], k)
  }

  // The first n slots in index order.
  function Slots(decodes: seq<Decode>, n: nat): Combined
  {
    if n == 0 then Combined("", [], [])
    else
      var c, d := Slots(decodes, n - 1), Latest(decodes, n - 1);
      if d.None? then c
      else Combined(c.text + d.value.text, c.stamps + d.value.stamps, c.payloads + [d.value.payload])
  }

  method CombineAsrSegmentDecodes(decodes: seq<Decode>, segmentCount: nat) returns (combined: Combined)
    requires forall d :: d in decodes ==> d.index < segmentCount
    ensures combined == Slots(decodes, segmentCount)
  {
    var textParts := new string[segmentCount](i => "");
    var stampParts := new seq<Stamp>[segmentCount](i => []);
    var payloadParts := new Option<Payload>[segmentCount](i => None);
    for i := 0 to |decodes|
      invariant forall k: nat :: k < segmentCount ==>
                  Written(decodes[..i], k, textParts[k], stampParts[k], payloadParts[k])
    {
      assert decodes[..i + 1][..i] == decodes[..i];
      var d := decodes[i];
      assert d in decodes;
      textParts[d.index], stampParts[d.index], payloadParts[d.index] := d.text, d.stamps, Some(d.payload);
      forall k: nat | k < segmentCount
        ensures Written(decodes[..i + 1], k, textParts[k], stampParts[k], payloadParts[k])
      {
        assert k != d.index ==> Written(decodes[..i], k, textParts[k], stampParts[k], payloadParts[k]);
      }
    }
    assert decodes[..|decodes|] == decodes;
    var text, stamps, payloads := "", [], [];
    for k := 0 to segmentCount
      invariant Combined(text, stamps, payloads) == Slots(decodes, k)
      invariant forall j: nat :: j < segmentCount ==> Written(decodes, j, textParts[j], stampParts[j], payloadParts[j])
    {
      assert Written(decodes, k, textParts[k], stampParts[k], payloadParts[k]);
      text, stamps := text + textParts[k], stamps + stampParts[k];
      if payloadParts[k].Some? {
        payloads := payloads + [payloadParts[k].value];
      }
    }
    combined := Combined(text, stamps, payloads);
  }

  // What a slot holds.
  predicate Written(decodes: seq<Decode>, k: nat, text: string, stamps: seq<Stamp>, payload: Option<Payload>)
  {
    match Latest(decodes, k)
    case None => text == "" && stamps == [] && payload == None
    case Some(d) => text == d.text && stamps == d.stamps && payload == Some(d.payload)
  }

  // ------------------------------------------------------------- confluence

  // What each segment decodes to; a decode that raises ends the whole call.
  datatype Outcome = Decoded(text: string, stamps: seq<Stamp>, payload: Payload) | Raised

  // The decodes in the order of completion, unless one raised.
  function Gather(outcomes: seq<Outcome>, order: seq<nat>): Option<seq<Decode>>
    requires forall k :: k in order ==> k < |outcomes|
  {
    if order == [] then Some([])
    else
      var n := |order| - 1;
      assert order[n] in order && forall k :: k in order[..n] ==> k in order;
      var front, o := Gather(outcomes, order[..n]), outcomes[order[n]];
      if front.None? || o.Raised? then None
      else Some(front.value + [Decode(order[n], o.text, o.stamps, o.payload)])
  }

  // The result for the first n segments, in index order.
  function Expected(outcomes: seq<Outcome>, n: nat): Combined
    requires n <= |outcomes|
  {
    if n == 0 then Combined("", [], [])
    else
      var c, o := Expected(outcomes, n - 1), outcomes[n - 1];
      if o.Raised? then c else Combined(c.text + o.text, c.stamps + o.stamps, c.payloads + [o.payload])
  }

  predicate IsCompletionOrder(order: seq<nat>, n: nat)
  {
    (forall k :: k in order ==> k < n) && (forall k: nat :: k < n ==> k in order)
  }

  predicate Delivered(outcomes: seq<Outcome>, decodes: seq<Decode>, k: nat)
    requires k < |outcomes|
  {
    var o := outcomes[k];
    o.Decoded? && Latest(decodes, k) == Some(Decode(k, o.text, o.stamps, o.payload))
  }

  lemma {:induction false} GatherMembers(outcomes: seq<Outcome>, order: seq<nat>)
    requires forall k :: k in order ==> k < |outcomes|
    ensures Gather(outcomes, order).None? <==> exists k :: k in order && outcomes[k].Raised?
    ensures Gather(outcomes, order).Some? ==>
      forall d :: d in Gather(outcomes, order).value ==> d.index in order
    ensures Gather(outcomes, order).Some? ==>
      forall k :: k in order ==> Delivered(outcomes, Gather(outcomes, order).value, k)
  {
    if order != [] {
      var n := |order| - 1;
      assert order == order[..n] + [order[n]];
      assert order[n] in order && forall k :: k in order[..n] ==> k in order;
      GatherMembers(outcomes, order[..n]);
      var all := Gather(outcomes, order);
      if all.Some? {
        assert all.value[..|all.value| - 1] == Gather(outcomes, order[..n]).value;
      }
    }
  }

  lemma {:induction false} SlotsAsExpected(outcomes: seq<Outcome>, decodes: seq<Decode>, n: nat)
    requires n <= |outcomes|
    requires forall k: nat :: k < n ==> Delivered(outcomes, decodes, k)
    ensures Slots(decodes, n) == Expected(outcomes, n)
  {
    if n > 0 {
      SlotsAsExpected(outcomes, decodes, n - 1);
      assert Delivered(outcomes, decodes, n - 1);
    }
  }

  // In whatever order the segments complete the call raises, or returns the
  // same text, timestamps and payloads: those of all segments in index order.
  lemma DecodeIsConfluent(outcomes: seq<Outcome>, order: seq<nat>)
    requires IsCompletionOrder(order, |outcomes|)
    ensures match Gather(outcomes, order)
            case None => exists k :: 0 <= k < |outcomes| && outcomes[k].Raised?
            case Some(decodes) =>
              && (forall k :: 0 <= k < |outcomes| ==> outcomes[k].Decoded?)
              && (forall d :: d in decodes ==> d.index < |outcomes|)
              && Slots(decodes, |outcomes|) == Expected(outcomes, |outcomes|)
  {
    GatherMembers(outcomes, order);
    match Gather(outcomes, order)
    case None =>
    case Some(decodes) => SlotsAsExpected(outcomes, decodes, |outcomes|);
  }

  // Each segment's part stands right behind those of the segments before it.
  lemma {:induction false} SegmentInPlace(outcomes: seq<Outcome>, n: nat, k: nat)
    requires k < n <= |outcomes| && outcomes[k].Decoded?
    ensures var before, all, o := Expected(outcomes, k), Expected(outcomes, n), outcomes[k];
            && before.text + o.text <= all.text && before.stamps + o.stamps <= all.stamps
            && before.payloads + [o.payload] <= all.payloads
  {
    if k < n - 1 {
      SegmentInPlace(outcomes, n - 1, k);
      ExpectedGrows(outcomes, n);
    }
  }

  lemma ExpectedGrows(outcomes: seq<Outcome>, n: nat)
    requires 0 < n <= |outcomes|
    ensures var before, all := Expected(outcomes, n - 1), Expected(outcomes, n);
            before.text <= all.text && before.stamps <= all.stamps && before.payloads <= all.payloads
  {
  }

  // -------------------------------------------------- audio of one segment

  // Bounds of the padded slice, and the offset its timestamps are shifted by.
  function SliceBounds(total: nat, startMs: int, endMs: int, paddingMs: nat, sampleRate: nat): (int, int, int)
    requires sampleRate > 0
  {
    var paddedStart := Max(startMs - paddingMs, 0);
    var paddedEnd := Min(total * 1000 / sampleRate, endMs + paddingMs);
    (ToSample(paddedStart, sampleRate), ToSample(paddedEnd, sampleRate), paddedStart)
  }

  // The slice lies inside the audio and covers the unpadded segment as far as
  // there is audio.  Its offset lies at or after its first sample and before the
  // next one.
  lemma SliceCoversSegment(total: nat, startMs: nat, endMs: nat, paddingMs: nat, sampleRate: nat)
    requires sampleRate > 0 && startMs <= endMs
    ensures var (from, to, offset) := SliceBounds(total, startMs, endMs, paddingMs, sampleRate);
            && 0 <= from <= ToSample(startMs, sampleRate) && to <= total
            && ToSample(Min(total * 1000 / sampleRate, endMs), sampleRate) <= to
            && 0 <= offset <= startMs && from * 1000 <= offset * sampleRate < (from + 1) * 1000
            && offset == Max(startMs - paddingMs, 0)
            && to * 1000 <= Min(total * 1000 / sampleRate, endMs + paddingMs) * sampleRate < (to + 1) * 1000
  {
    var duration := total * 1000 / sampleRate;
    var paddedStart := Max(startMs - paddingMs, 0);
    DurationFits(total, sampleRate);
    ToSampleMonotone(paddedStart, startMs, sampleRate);
    ToSampleMonotone(Min(duration, endMs), Min(duration, endMs + paddingMs), sampleRate);
    ToSampleMonotone(Min(duration, endMs + paddingMs), duration, sampleRate);
    ToSampleTruncates(paddedStart, sampleRate);
    ToSampleTruncates(Min(duration, endMs + paddingMs), sampleRate);
  }
}
