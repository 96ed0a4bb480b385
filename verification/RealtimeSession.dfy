// The ONNX realtime session: a trimmed audio buffer with three cursors, a queue
// of pending speech segments and the sentences locked so far.
//
// The VAD and the recognition model are parameters of each call.  The VAD is
// held to the contract of SegmentMerging; the model may answer anything.

module RealtimeSession {
  import opened Arithmetic
  import opened AudioBuffer
  import opened SegmentPolicy
  import opened Wrappers
  import opened SegmentMerging
  import opened WordTimeline

  // What one VAD feed reports: raw intervals and the start of open speech.
  datatype VadReply = VadReply(segments: seq<Segment>, active: Option<int>)

  // What the final model makes of a segment.  `kept` says whether any text is
  // left after repeated phrases and overlaps have been removed.
  datatype Transcript = Silence | Speech(items: seq<Item>, tokens: seq<string>, kept: bool)

  type Model<!T(!new)> = (Segment, seq<T>) -> Transcript

  function ToMs(samples: nat, sampleRate: nat): nat
    requires sampleRate > 0
  {
    samples * 1000 / sampleRate
  }

  // The last whole millisecond the samples reach.
  lemma ToMsIsFloor(samples: nat, sampleRate: nat)
    requires sampleRate > 0
    ensures ToMs(samples, sampleRate) * sampleRate <= samples * 1000 < (ToMs(samples, sampleRate) + 1) * sampleRate
  {
  }

  // Intervals that end after they start; the others are dropped.
  function Normalise(segments: seq<Segment>): seq<Segment>
  {
    if segments == [] then []
    else
      var front, s := Normalise(segments[..|segments| - 1]), segments[|segments| - 1];
      if s.end <= s.start then front else front + [s]
  }

  // Everything the VAD said in one call.
  function Reported(replies: seq<VadReply>): seq<Segment>
  {
    if replies == [] then []
    else Reported(replies[..|replies| - 1]) + replies[|replies| - 1].segments
  }

  function LastActive(replies: seq<VadReply>, before: Option<int>): Option<int>
  {
    if replies == [] then before else replies[|replies| - 1].active
  }

  // The VAD is heard reply by reply, and empty intervals are all that is dropped.
  lemma ReportedOne(r: VadReply)
    ensures Reported([r]) == r.segments
  {
    assert [r][..0] == [];
  }

  lemma {:induction false} ReportedAppend(a: seq<VadReply>, b: seq<VadReply>)
    ensures Reported(a + b) == Reported(a) + Reported(b)
  {
    if b == [] {
      assert a + b == a;
    } else {
      assert (a + b)[..|a + b| - 1] == a + b[..|b| - 1];
      ReportedAppend(a, b[..|b| - 1]);
    }
  }

  lemma {:induction false} NormaliseAppend(a: seq<Segment>, b: seq<Segment>)
    ensures Normalise(a + b) == Normalise(a) + Normalise(b)
  {
    if b == [] {
      assert a + b == a;
    } else {
      assert (a + b)[..|a + b| - 1] == a + b[..|b| - 1];
      NormaliseAppend(a, b[..|b| - 1]);
    }
  }

  lemma NormaliseOne(s: Segment)
    ensures Normalise([s]) == if s.start < s.end then [s] else []
  {
    assert [s][..0] == [];
  }

  // Where the buffer may begin when the i-th segment is decoded.
  predicate KeptAt(p: Policy, finalised: seq<Segment>, kept: seq<nat>, i: nat)
    requires i < |kept| == |finalised|
  {
    if i == 0 then kept[i] == 0 else kept[i] <= ToSample(finalised[i - 1].end, p.sampleRate)
  }

  // The unpadded window of every decoded segment was still in the buffer; so
  // was its padded window, unless the segment before ends less than the
  // padding away.
  lemma DecodedWindowWasKept(p: Policy, finalised: seq<Segment>, kept: seq<nat>, i: nat)
    requires Ordered(finalised) && (finalised != [] ==> finalised[0].start >= 0)
    requires i < |kept| == |finalised| && KeptAt(p, finalised, kept, i)
    ensures kept[i] <= ToSample(finalised[i].start, p.sampleRate)
    ensures (i == 0 || finalised[i].start - finalised[i - 1].end >= p.prePaddingMs)
         ==> kept[i] <= DecodeStart(p, finalised[i].start)
  {
    if i == 0 {
      ToSampleMonotone(0, finalised[0].start, p.sampleRate);
    } else {
      var before, s := finalised[i - 1], finalised[i];
      assert 0 <= before.end by {
        assert Proper(finalised, 0) && Proper(finalised, i - 1);
        if i > 1 {
          assert Precedes(finalised, 0, i - 1);
        }
      }
      assert Precedes(finalised, i - 1, i);
      ToSampleMonotone(before.end, s.start, p.sampleRate);
      if s.start - before.end >= p.prePaddingMs {
        ToSampleMonotone(before.end, s.start - p.prePaddingMs, p.sampleRate);
      }
    }
  }

  // With a merge gap at least as long as the padding, only a segment that
  // follows one cut at the maximum length can lose padding.
  lemma PaddingIsKept(p: Policy, lagMs: nat, t: Track, kept: seq<nat>, i: nat)
    requires MergeInv(p, lagMs, t) && i < |kept| == |t.finalised| && KeptAt(p, t.finalised, kept, i)
    requires p.prePaddingMs + lagMs <= EffectiveGap(p)
    requires i == 0 || Duration(t.finalised[i - 1]) < p.maxFinalMs
    ensures kept[i] <= DecodeStart(p, t.finalised[i].start)
  {
    var f := t.finalised;
    MergeListOk(p, lagMs, t);
    PendingOrdered(t);
    ListNonnegative(t);
    assert f[0] == t.All()[0];
    if i > 0 {
      assert ApartAt(p, lagMs, t.All(), i - 1);
    }
    DecodedWindowWasKept(p, f, kept, i);
  }

  predicate KeptAll(p: Policy, finalised: seq<Segment>, kept: seq<nat>)
  {
    |kept| == |finalised| && forall i: nat :: i < |kept| ==> KeptAt(p, finalised, kept, i)
  }

  lemma KeptAppend(p: Policy, finalised: seq<Segment>, kept: seq<nat>, startSample: nat, s: Segment)
    requires KeptAll(p, finalised, kept) && startSample <= ToSample(LastEnd(finalised), p.sampleRate)
    requires 0 <= LastEnd(finalised) <= s.start < s.end
    ensures KeptAll(p, finalised + [s], kept + [startSample])
    ensures startSample <= ToSample(s.end, p.sampleRate)
  {
    ToSampleMonotone(LastEnd(finalised), s.end, p.sampleRate);
    forall i: nat | i < |kept| + 1
      ensures KeptAt(p, finalised + [s], kept + [startSample], i)
    {
      if i < |kept| {
        assert KeptAt(p, finalised, kept, i);
      }
    }
  }

  // ------------------------------------------------------- the final decode

  function FrameOf(p: Policy, s: Segment, total: nat): Frame
    requires p.sampleRate > 0
  {
    Frame(s.start, s.end, Max(s.start - p.prePaddingMs, 0),
          Min(ToMs(total, p.sampleRate), s.end + p.postPaddingMs))
  }

  // The part of the padded window of a segment that is still in the buffer.
  function DecodeAudio<T>(p: Policy, s: Segment, history: seq<T>, startSample: nat): seq<T>
    requires p.sampleRate > 0 && startSample <= |history|
  {
    var end := Min(ToSample(FrameOf(p, s, |history|).paddedEnd, p.sampleRate), |history|);
    Window(history, startSample, DecodeStart(p, s.start), end)
  }

  // The answer for a segment; less than a tenth of a second is not decoded.
  function Decode<T(!new)>(p: Policy, s: Segment, history: seq<T>, startSample: nat, model: Model<T>): Transcript
    requires p.sampleRate > 0 && startSample <= |history|
  {
    var segmentAudio := DecodeAudio(p, s, history, startSample);
    if |segmentAudio| < p.sampleRate / 10 then Silence else model(s, segmentAudio)
  }

  // As long as the buffer has not lost the start of a segment, and the segment
  // ends within the audio received, the model hears all of it.
  lemma DecodeHearsSegment<T>(p: Policy, s: Segment, history: seq<T>, startSample: nat)
    requires p.sampleRate > 0 && 0 <= s.start <= s.end <= ToMs(|history|, p.sampleRate)
    requires startSample <= |history| && startSample <= ToSample(s.start, p.sampleRate)
    ensures HearsAll(p, s, history, DecodeAudio(p, s, history, startSample), Max(startSample, DecodeStart(p, s.start)))
  {
    DecodeBounds(p, s, |history|);
    PartOfWindow(history, startSample, DecodeStart(p, s.start),
                 Min(ToSample(FrameOf(p, s, |history|).paddedEnd, p.sampleRate), |history|),
                 ToSample(s.start, p.sampleRate), ToSample(s.end, p.sampleRate));
  }

  // The padded window contains the segment.
  lemma DecodeBounds(p: Policy, s: Segment, total: nat)
    requires p.sampleRate > 0 && 0 <= s.start <= s.end <= ToMs(total, p.sampleRate)
    ensures DecodeStart(p, s.start) <= ToSample(s.start, p.sampleRate) <= ToSample(s.end, p.sampleRate)
         <= Min(ToSample(FrameOf(p, s, total).paddedEnd, p.sampleRate), total)
  {
    ToSampleMonotone(Max(s.start - p.prePaddingMs, 0), s.start, p.sampleRate);
    ToSampleMonotone(s.start, s.end, p.sampleRate);
    ToSampleMonotone(s.end, FrameOf(p, s, total).paddedEnd, p.sampleRate);
    ToSampleMonotone(s.end, ToMs(total, p.sampleRate), p.sampleRate);
    DurationFits(total, p.sampleRate);
  }

  // Audio that begins at the sample `first` contains all samples of a segment.
  predicate HearsAll<T(==)>(p: Policy, s: Segment, history: seq<T>, audio: seq<T>, first: nat)
  {
    var from, to := ToSample(s.start, p.sampleRate), ToSample(s.end, p.sampleRate);
    first <= from <= to <= first + |audio| && to <= |history| && audio[from - first..to - first] == history[from..to]
  }

  // The sentence a segment contributes, if its text is kept.
  function SentenceOf<T(!new)>(p: Policy, s: Segment, history: seq<T>, startSample: nat, model: Model<T>)
    : Option<Sentence>
    requires p.sampleRate > 0 && startSample <= |history|
  {
    var answer := Decode(p, s, history, startSample, model);
    if answer.Speech? && answer.kept then
      Some(Sentence(s.start, s.end, GlobalTimestamps(answer.items, answer.tokens, FrameOf(p, s, |history|))))
    else None
  }

  ghost predicate Monotone<T(!new)>(model: Model<T>)
  {
    forall s, w :: model(s, w).Speech? ==> ItemsNondecreasing(model(s, w).items)
  }

  function Heard(said: Option<Sentence>): seq<Sentence>
  {
    if said.Some? then [said.value] else []
  }

  function Spoken(said: seq<Option<Sentence>>): seq<Sentence>
  {
    if said == [] then [] else Spoken(said[..|said| - 1]) + Heard(said[|said| - 1])
  }

  predicate SaidAt(finalised: seq<Segment>, said: seq<Option<Sentence>>, i: nat)
    requires i < |said| == |finalised|
  {
    said[i].Some? ==> said[i].value.start == finalised[i].start && said[i].value.end == finalised[i].end
  }

  // The locked sentences are what the finalised segments said, in their order
  // and with their bounds.
  predicate Voiced(finalised: seq<Segment>, said: seq<Option<Sentence>>, locked: seq<Sentence>)
  {
    && |said| == |finalised|
    && (forall i: nat :: i < |said| ==> SaidAt(finalised, said, i))
    && locked == Spoken(said)
  }

  // When and by which model a segment was decoded: the samples received so far.
  datatype Hearing<!T(!new)> = Hearing(total: nat, model: Model<T>)

  // The i-th finalised segment had been received in full when it was decoded, and
  // what it said is the answer of the model for the audio retained then.
  ghost predicate HeardAt<T(!new)>(p: Policy, finalised: seq<Segment>, kept: seq<nat>, said: seq<Option<Sentence>>,
                                   history: seq<T>, heard: seq<Hearing<T>>, i: nat)
    requires p.sampleRate > 0 && i < |heard| == |said| == |kept| == |finalised|
  {
    var total := heard[i].total;
    && kept[i] <= total <= |history| && finalised[i].end <= ToMs(total, p.sampleRate)
    && said[i] == SentenceOf(p, finalised[i], history[..total], kept[i], heard[i].model)
  }

  ghost predicate HeardAll<T(!new)>(p: Policy, finalised: seq<Segment>, kept: seq<nat>, said: seq<Option<Sentence>>,
                                    history: seq<T>, heard: seq<Hearing<T>>)
  {
    && p.sampleRate > 0 && |heard| == |said| == |kept| == |finalised|
    && forall i: nat :: i < |heard| ==> HeardAt(p, finalised, kept, said, history, heard, i)
  }

  lemma HeardAppend<T(!new)>(p: Policy, finalised: seq<Segment>, kept: seq<nat>, said: seq<Option<Sentence>>,
                             history: seq<T>, heard: seq<Hearing<T>>, s: Segment, startSample: nat, model: Model<T>)
    requires HeardAll(p, finalised, kept, said, history, heard)
    requires startSample <= |history| && s.end <= ToMs(|history|, p.sampleRate)
    ensures HeardAll(p, finalised + [s], kept + [startSample],
                     said + [SentenceOf(p, s, history, startSample, model)], history,
                     heard + [Hearing(|history|, model)])
  {
    var f, k, h := finalised + [s], kept + [startSample], heard + [Hearing(|history|, model)];
    var all := said + [SentenceOf(p, s, history, startSample, model)];
    assert history[..|history|] == history;
    forall i: nat | i < |h|
      ensures HeardAt(p, f, k, all, history, h, i)
    {
      if i < |heard| {
        assert HeardAt(p, finalised, kept, said, history, heard, i);
      }
    }
  }

  // More audio does not change what was heard.
  lemma HeardLater<T(!new)>(p: Policy, finalised: seq<Segment>, kept: seq<nat>, said: seq<Option<Sentence>>,
                            history: seq<T>, heard: seq<Hearing<T>>, more: seq<T>)
    requires HeardAll(p, finalised, kept, said, history, heard)
    ensures HeardAll(p, finalised, kept, said, history + more, heard)
  {
    forall i: nat | i < |heard|
      ensures HeardAt(p, finalised, kept, said, history + more, heard, i)
    {
      assert HeardAt(p, finalised, kept, said, history, heard, i);
      assert (history + more)[..heard[i].total] == history[..heard[i].total];
    }
  }

  // The audio given to the model for a finalised segment contained all of it.
  lemma FinalisedIsHeard<T(!new)>(p: Policy, finalised: seq<Segment>, kept: seq<nat>, said: seq<Option<Sentence>>,
                                  history: seq<T>, heard: seq<Hearing<T>>, i: nat)
    requires Ordered(finalised) && (finalised != [] ==> finalised[0].start >= 0)
    requires KeptAll(p, finalised, kept) && HeardAll(p, finalised, kept, said, history, heard) && i < |finalised|
    ensures kept[i] <= heard[i].total <= |history|
    ensures var s, past := finalised[i], history[..heard[i].total];
            && HearsAll(p, s, history, DecodeAudio(p, s, past, kept[i]), Max(kept[i], DecodeStart(p, s.start)))
            && said[i] == SentenceOf(p, s, past, kept[i], heard[i].model)
  {
    var s := finalised[i];
    assert KeptAt(p, finalised, kept, i) && HeardAt(p, finalised, kept, said, history, heard, i);
    var past := history[..heard[i].total];
    DecodedWindowWasKept(p, finalised, kept, i);
    assert Proper(finalised, i) && (i > 0 ==> Proper(finalised, 0) && Precedes(finalised, 0, i));
    DecodeHearsSegment(p, s, past, kept[i]);
    var from, to := ToSample(s.start, p.sampleRate), ToSample(s.end, p.sampleRate);
    assert past[from..to] == history[from..to];
  }

  lemma VoicedAppend(finalised: seq<Segment>, said: seq<Option<Sentence>>, locked: seq<Sentence>,
                     s: Segment, news: Option<Sentence>)
    requires Voiced(finalised, said, locked)
    requires news.Some? ==> news.value.start == s.start && news.value.end == s.end
    ensures Voiced(finalised + [s], said + [news], locked + Heard(news))
  {
    assert (said + [news])[..|said|] == said;
    forall i: nat | i < |said| + 1
      ensures SaidAt(finalised + [s], said + [news], i)
    {
      if i < |said| {
        assert SaidAt(finalised, said, i);
      }
    }
  }

  // A sentence fits behind everything locked before its segment.
  lemma LockedByAppend<T(!new)>(locked: seq<Sentence>, bound: int, monotone: bool,
                                p: Policy, s: Segment, history: seq<T>, startSample: nat, model: Model<T>)
    requires LockedBy(locked, bound, monotone) && bound <= s.start <= s.end
    requires p.sampleRate > 0 && startSample <= |history| && (monotone ==> Monotone(model))
    ensures LockedBy(locked + Heard(SentenceOf(p, s, history, startSample, model)), s.end, monotone)
  {
    var answer, news := Decode(p, s, history, startSample, model), SentenceOf(p, s, history, startSample, model);
    if news.Some? {
      TimestampsFitSentence(answer.items, answer.tokens, FrameOf(p, s, |history|));
      LockedLater(locked, bound, s.start, monotone);
      LockedAppend(locked, s.start, monotone, news.value);
    } else {
      LockedLater(locked, bound, s.end, monotone);
      assert locked + Heard(news) == locked;
    }
  }

  // The sentence of the next finalised segment goes with what was locked before.
  lemma SentenceAppend<T(!new)>(finalised: seq<Segment>, said: seq<Option<Sentence>>, locked: seq<Sentence>,
                                monotone: bool, p: Policy, s: Segment, history: seq<T>, startSample: nat,
                                model: Model<T>)
    requires Voiced(finalised, said, locked) && LockedBy(locked, LastEnd(finalised), monotone)
    requires LastEnd(finalised) <= s.start <= s.end
    requires p.sampleRate > 0 && startSample <= |history| && (monotone ==> Monotone(model))
    ensures var news := SentenceOf(p, s, history, startSample, model);
            && Voiced(finalised + [s], said + [news], locked + Heard(news))
            && LockedBy(locked + Heard(news), s.end, monotone)
  {
    LockedByAppend(locked, LastEnd(finalised), monotone, p, s, history, startSample, model);
    VoicedAppend(finalised, said, locked, s, SentenceOf(p, s, history, startSample, model));
  }

  class OnlineOnnxRealtimeSession<T(!new)> {
    const policy: Policy
    const vadChunkSamples: nat
    const firstDecodeSamples: nat
    const chunkSamples: nat
    ghost const lagMs: nat
    ghost const modelIsMonotone: bool

    const audio: ChunkedAudioBuffer<T>
    var vadFedSamples: nat
    var lastStreamSamples: nat
    var firstDecodeDone: bool
    var pending: seq<Segment>
    var vadActive: Option<int>
    var locked: seq<Sentence>
    var emittedLockedCount: nat
    var partialStartMs: int

    ghost var track: Track        // the merging state and all confirmed intervals
    ghost var vadInput: seq<T>    // samples fed to the VAD, in order
    ghost var kept: seq<nat>      // where the buffer began when each segment was decoded
    ghost var said: seq<Option<Sentence>>  // what each finalised segment contributed
    ghost var heard: seq<Hearing<T>>       // and the decode that said it
    ghost var emitted: seq<Sentence>

    // The buffer and its cursors.
    ghost predicate CursorsOk()
      reads this, audio
    {
      && audio.Valid()
      && audio.startSample <= vadFedSamples <= audio.totalSamples
      && audio.startSample <= lastStreamSamples <= audio.totalSamples
      && vadInput == audio.history[..vadFedSamples]
    }

    // What has been finalised, and how much of the buffer that released.
    ghost predicate SegmentsOk()
      reads this, audio
    {
      && ListOk(track)
      && track.pending == pending
      && KeptAll(policy, track.finalised, kept)
      && audio.startSample <= ToSample(LastEnd(track.finalised), policy.sampleRate)
      && partialStartMs == LastEnd(track.finalised)
    }

    // What has been finalised was heard; all that is pending has been received.
    ghost predicate HeardOk()
      reads this, audio
    {
      && HeardAll(policy, track.finalised, kept, said, audio.history, heard)
      && InTime(track, ToMs(|audio.history|, policy.sampleRate))
    }

    // The sentences locked so far follow the finalised segments.
    ghost predicate SentencesOk()
      reads this
    {
      && LockedBy(locked, LastEnd(track.finalised), modelIsMonotone)
      && Voiced(track.finalised, said, locked)
      && EmissionOk()
    }

    ghost predicate EmissionOk()
      reads this
    {
      emittedLockedCount <= |locked| && emitted == locked[..emittedLockedCount]
    }

    ghost predicate Valid()
      reads this, audio
    {
      && ValidPolicy(policy) && vadChunkSamples >= 1
      && CursorsOk() && SegmentsOk() && SentencesOk() && HeardOk()
      && audio.totalSamples - vadFedSamples < vadChunkSamples
      && TrackInv(policy, lagMs, track)
      && track.active == vadActive
      && track.clockMs == ToMs(audio.totalSamples, policy.sampleRate)
    }

    ghost predicate ModelOk(model: Model<T>)
    {
      modelIsMonotone ==> Monotone(model)
    }

    constructor (policy: Policy, firstDecodeMs: nat, chunkMs: nat, ghost lagMs: nat, ghost modelIsMonotone: bool)
      requires ValidPolicy(policy)
      ensures Valid() && fresh(audio) && audio.history == [] && track == EmptyTrack && locked == []
      ensures this.policy == policy && this.lagMs == lagMs && this.modelIsMonotone == modelIsMonotone
      ensures vadChunkSamples == Max(policy.sampleRate / 10, 1)
      ensures firstDecodeSamples == ToSample(firstDecodeMs, policy.sampleRate)
      ensures chunkSamples == ToSample(chunkMs, policy.sampleRate)
    {
      this.policy := policy;
      this.vadChunkSamples := Max(policy.sampleRate * 100 / 1000, 1);
      this.firstDecodeSamples := policy.sampleRate * firstDecodeMs / 1000;
      this.chunkSamples := policy.sampleRate * chunkMs / 1000;
      this.lagMs, this.modelIsMonotone := lagMs, modelIsMonotone;
      audio := new ChunkedAudioBuffer<T>();
      vadFedSamples, lastStreamSamples, firstDecodeDone := 0, 0, false;
      pending, vadActive, locked, emittedLockedCount, partialStartMs := [], None, [], 0, 0;
      track, vadInput, kept, said, heard, emitted := EmptyTrack, [], [], [], [], [];
      new;
      EmptyTrackInv(policy, lagMs);
    }

    // ------------------------------------------------------------------- trim

    // Releases audio in front of everything still needed.  One trim takes at
    // most one sample from the padded window of a pending segment, none when
    // the sample rate is a whole number of samples per millisecond, and none
    // from the window of open speech.
    method TrimAudioBuffer()
      requires CursorsOk() && (forall s :: s in pending ==> s.start >= 0)
      modifies audio
      ensures CursorsOk() && audio.history == old(audio.history)
      ensures old(audio.startSample) <= audio.startSample
      ensures TrimSafe(policy, TrimPoint(policy, lastStreamSamples, vadFedSamples, pending, vadActive),
                       lastStreamSamples, vadFedSamples, pending, vadActive)
      ensures audio.startSample == Max(old(audio.startSample),
                TrimPoint(policy, lastStreamSamples, vadFedSamples, pending, vadActive))
    {
      var keepFrom := TrimPoint(policy, lastStreamSamples, vadFedSamples, pending, vadActive);
      TrimPointIsSafe(policy, lastStreamSamples, vadFedSamples, pending, vadActive);
      audio.DropBefore(keepFrom);
    }

    // --------------------------------------------------------------- finalise

    method DecodeFinalSegment(s: Segment, model: Model<T>) returns (answer: Transcript, words: seq<Word>)
      requires ValidPolicy(policy) && audio.Valid() && 0 <= s.start <= s.end
      ensures answer == Decode(policy, s, audio.history, audio.startSample, model)
      ensures var from := Max(ToSample(Max(s.start - policy.prePaddingMs, 0), policy.sampleRate), audio.startSample);
              var until := Min(ToMs(|audio.history|, policy.sampleRate), s.end + policy.postPaddingMs);
              var to := Min(ToSample(until, policy.sampleRate), |audio.history|);
              var heard := if from < to then audio.history[from..to] else [];
              answer == if |heard| < policy.sampleRate / 10 then Silence else model(s, heard)
      ensures answer.Speech? ==>
        words == GlobalTimestamps(answer.items, answer.tokens, FrameOf(policy, s, |audio.history|))
             == GlobalTimestamps(answer.items, answer.tokens,
                  Frame(s.start, s.end, Max(s.start - policy.prePaddingMs, 0),
                        Min(ToMs(|audio.history|, policy.sampleRate), s.end + policy.postPaddingMs)))
    {
      answer, words := Silence, [];
      var paddedStart := Max(s.start - policy.prePaddingMs, 0);
      var paddedEnd := Min(ToMs(audio.totalSamples, policy.sampleRate), s.end + policy.postPaddingMs);
      var startSample := ToSample(paddedStart, policy.sampleRate);
      ToSampleMonotone(0, paddedStart, policy.sampleRate);
      var endSample := Min(ToSample(paddedEnd, policy.sampleRate), audio.totalSamples);
      var segmentAudio := audio.Slice(startSample, endSample);
      if |segmentAudio| < policy.sampleRate / 10 {
        return;
      }
      answer := model(s, segmentAudio);
      if answer.Speech? {
        words := ExtractGlobalTimestamps(answer.items, answer.tokens, Frame(s.start, s.end, paddedStart, paddedEnd));
      }
    }

    // Decodes a segment and appends its sentence if any text is kept.
    method LockSentence(s: Segment, model: Model<T>) returns (hasText: bool)
      requires ValidPolicy(policy) && audio.Valid() && 0 <= s.start <= s.end
      modifies this`locked
      ensures hasText == Decode(policy, s, audio.history, audio.startSample, model).Speech?
      ensures locked == old(locked) + Heard(SentenceOf(policy, s, audio.history, audio.startSample, model))
      ensures var answer := Decode(policy, s, audio.history, audio.startSample, model);
              if answer.Speech? && answer.kept
              then locked == old(locked) + [Sentence(s.start, s.end,
                     GlobalTimestamps(answer.items, answer.tokens, FrameOf(policy, s, |audio.history|)))]
              else locked == old(locked)
    {
      var answer, words := DecodeFinalSegment(s, model);
      hasText := answer.Speech?;
      if hasText && answer.kept {
        locked := locked + [Sentence(s.start, s.end, words)];
      }
    }

    ghost predicate LoopOk()
      reads this, audio
    {
      ValidPolicy(policy) && CursorsOk() && SegmentsOk() && SentencesOk() && HeardOk()
    }

    // The streaming cursor jumps to the end of the finalised segment, possibly
    // backwards, and the buffer is trimmed.
    method AdvancePast(endMs: int)
      requires ValidPolicy(policy) && CursorsOk() && 0 <= endMs
      requires audio.startSample <= ToSample(endMs, policy.sampleRate)
      requires ListOk(track) && track.pending == pending
      modifies this`lastStreamSamples, this`partialStartMs, this`firstDecodeDone, audio
      ensures CursorsOk() && audio.history == old(audio.history)
      ensures lastStreamSamples == Min(ToSample(endMs, policy.sampleRate), audio.totalSamples)
      ensures partialStartMs == endMs && !firstDecodeDone
      ensures audio.startSample == Max(old(audio.startSample),
                TrimPoint(policy, lastStreamSamples, vadFedSamples, pending, vadActive))
      ensures audio.startSample <= ToSample(endMs, policy.sampleRate)
    {
      lastStreamSamples := Min(ToSample(endMs, policy.sampleRate), audio.totalSamples);
      partialStartMs := endMs;
      firstDecodeDone := false;
      PendingNonnegative();
      TrimAudioBuffer();
    }

    // The segment taken from the queue joins the finalised part.
    method FinalizePendingSegment(s: Segment, model: Model<T>) returns (hasText: bool)
      requires ValidPolicy(policy) && CursorsOk() && SentencesOk() && ModelOk(model)
      requires ListOk(track) && track.pending == [s] + pending
      requires KeptAll(policy, track.finalised, kept) && HeardOk()
      requires audio.startSample <= ToSample(LastEnd(track.finalised), policy.sampleRate)
      modifies this`lastStreamSamples, this`firstDecodeDone, this`locked, this`partialStartMs,
               this`track, this`kept, this`said, this`heard, audio
      ensures LoopOk() && track == MoveFront(old(track), 1) && audio.history == old(audio.history)
      ensures said == old(said) + [SentenceOf(policy, s, audio.history, old(audio.startSample), model)]
      ensures kept == old(kept) + [old(audio.startSample)]
      ensures heard == old(heard) + [Hearing(|audio.history|, model)]
      ensures hasText == Decode(policy, s, audio.history, old(audio.startSample), model).Speech?
    {
      hasText := LockFinal(s, model);
      MoveOn(s.end);
    }

    // The cursors follow what has just been finalised.
    method MoveOn(endMs: int)
      requires ValidPolicy(policy) && CursorsOk() && SentencesOk() && HeardOk()
      requires ListOk(track) && track.pending == pending && KeptAll(policy, track.finalised, kept)
      requires LastEnd(track.finalised) == endMs >= 0 && audio.startSample <= ToSample(endMs, policy.sampleRate)
      modifies this`lastStreamSamples, this`partialStartMs, this`firstDecodeDone, audio
      ensures LoopOk() && audio.history == old(audio.history)
    {
      AdvancePast(endMs);
    }

    // The part of the finalisation that happens before the cursors move.
    method LockFinal(s: Segment, model: Model<T>) returns (hasText: bool)
      requires ValidPolicy(policy) && audio.Valid() && SentencesOk() && ModelOk(model)
      requires ListOk(track) && track.pending == [s] + pending
      requires KeptAll(policy, track.finalised, kept) && HeardOk()
      requires audio.startSample <= ToSample(LastEnd(track.finalised), policy.sampleRate)
      modifies this`locked, this`track, this`kept, this`said, this`heard
      ensures SentencesOk() && ListOk(track) && track == MoveFront(old(track), 1)
      ensures track.pending == pending && LastEnd(track.finalised) == s.end >= 0
      ensures KeptAll(policy, track.finalised, kept) && audio.startSample <= ToSample(s.end, policy.sampleRate)
      ensures HeardOk() && kept == old(kept) + [audio.startSample]
      ensures said == old(said) + [SentenceOf(policy, s, audio.history, audio.startSample, model)]
      ensures heard == old(heard) + [Hearing(|audio.history|, model)]
      ensures hasText == Decode(policy, s, audio.history, audio.startSample, model).Speech?
    {
      FrontSegment(s);
      SentenceAppend(track.finalised, said, locked, modelIsMonotone, policy, s,
                     audio.history, audio.startSample, model);
      hasText := LockSentence(s, model);
      NoteFinal(s, model);
    }

    // The front segment is recorded as finalised, with the decode of it.
    ghost method NoteFinal(s: Segment, model: Model<T>)
      requires ValidPolicy(policy) && audio.Valid()
      requires ListOk(track) && track.pending == [s] + pending
      requires KeptAll(policy, track.finalised, kept) && HeardOk()
      requires audio.startSample <= ToSample(LastEnd(track.finalised), policy.sampleRate)
      requires LockedBy(locked, s.end, modelIsMonotone) && EmissionOk()
      requires Voiced(track.finalised + [s],
                      said + [SentenceOf(policy, s, audio.history, audio.startSample, model)], locked)
      modifies this`track, this`kept, this`said, this`heard
      ensures SentencesOk() && ListOk(track) && track == MoveFront(old(track), 1)
      ensures track.pending == pending && LastEnd(track.finalised) == s.end >= 0
      ensures KeptAll(policy, track.finalised, kept) && audio.startSample <= ToSample(s.end, policy.sampleRate)
      ensures HeardOk() && kept == old(kept) + [audio.startSample]
      ensures said == old(said) + [SentenceOf(policy, s, audio.history, audio.startSample, model)]
      ensures heard == old(heard) + [Hearing(|audio.history|, model)]
    {
      FrontSegment(s);
      KeptAppend(policy, track.finalised, kept, audio.startSample, s);
      HeardAppend(policy, track.finalised, kept, said, audio.history, heard, s, audio.startSample, model);
      said := said + [SentenceOf(policy, s, audio.history, audio.startSample, model)];
      kept, heard := kept + [audio.startSample], heard + [Hearing(|audio.history|, model)];
      track := MoveFront(track, 1);
    }

    // The front segment leaves the queue.
    method FlushFront(model: Model<T>) returns (hasText: bool)
      requires LoopOk() && ModelOk(model) && pending != []
      modifies this`pending, this`lastStreamSamples, this`firstDecodeDone, this`locked, this`partialStartMs,
               this`track, this`kept, this`said, this`heard, audio
      ensures LoopOk() && track == MoveFront(old(track), 1) && audio.history == old(audio.history)
      ensures old(said) <= said
    {
      var s := pending[0];
      assert pending == [s] + pending[1..];
      pending := pending[1..];
      hasText := FinalizePendingSegment(s, model);
    }

    lemma FrontSegment(s: Segment)
      requires ListOk(track) && track.pending == [s] + pending
      ensures 0 <= LastEnd(track.finalised) <= s.start < s.end
      ensures MoveFront(track, 1).finalised == track.finalised + [s]
      ensures LastEnd(MoveFront(track, 1).finalised) == s.end
      ensures MoveFront(track, 1).pending == pending
      ensures ListOk(MoveFront(track, 1)) && s.end <= LastEnd(track.pending)
      ensures LastEnd(pending) <= Max(LastEnd(track.pending), 0)
    {
      ListNonnegative(track);
      var last := |track.pending| - 1;
      assert track.pending[0] == s == track.All()[|track.finalised|];
      assert Proper(track.pending, last) && (last > 0 ==> Precedes(track.pending, 0, last));
      MoveFrontListOk(track, 1);
    }

    // Every segment finalised so far was heard in full, and said what the model
    // made of the audio that was retained.
    lemma EverySegmentIsHeard(i: nat)
      requires Valid() && i < |track.finalised|
      ensures |said| == |kept| == |heard| == |track.finalised| && kept[i] <= heard[i].total <= |audio.history|
      ensures var s, past := track.finalised[i], audio.history[..heard[i].total];
              && HearsAll(policy, s, audio.history, DecodeAudio(policy, s, past, kept[i]),
                          Max(kept[i], DecodeStart(policy, s.start)))
              && said[i] == SentenceOf(policy, s, past, kept[i], heard[i].model)
    {
      ListNonnegative(track);
      assert track.finalised[0] == track.All()[0];
      FinalisedIsHeard(policy, track.finalised, kept, said, audio.history, heard, i);
    }

    lemma PendingNonnegative()
      requires ListOk(track) && track.pending == pending
      ensures forall s :: s in pending ==> s.start >= 0
    {
      ListNonnegative(track);
      assert forall i :: 0 <= i < |pending| ==> pending[i] == track.All()[|track.finalised| + i];
    }

    // ------------------------------------------------------- pending segments

    method FlushPendingFinalSegments(force: bool, model: Model<T>) returns (lockedAny: bool)
      requires LoopOk() && ModelOk(model) && track.active == vadActive
      requires track.clockMs == ToMs(audio.totalSamples, policy.sampleRate)
      modifies this`pending, this`lastStreamSamples, this`firstDecodeDone, this`locked, this`partialStartMs,
               this`track, this`kept, this`said, this`heard, audio
      ensures LoopOk() && track == Flush(policy, old(track), force)
      ensures audio.history == old(audio.history) && old(said) <= said
      ensures force ==> pending == []
      ensures !force ==> NothingDue(policy, pending, ToMs(audio.totalSamples, policy.sampleRate), vadActive)
    {
      FlushOutcome(policy, track, force);
      lockedAny := FlushFromFront(force, model);
    }

    // Its loop.
    method FlushFromFront(force: bool, model: Model<T>) returns (lockedAny: bool)
      requires LoopOk() && ModelOk(model) && track.active == vadActive
      requires track.clockMs == ToMs(audio.totalSamples, policy.sampleRate)
      modifies this`pending, this`lastStreamSamples, this`firstDecodeDone, this`locked, this`partialStartMs,
               this`track, this`kept, this`said, this`heard, audio
      ensures LoopOk() && track == Flush(policy, old(track), force)
      ensures audio.history == old(audio.history) && old(said) <= said
    {
      lockedAny := false;
      ghost var before, k := track, 0;
      assert MoveFront(before, 0) == before;
      while pending != []
        invariant LoopOk() && audio.history == old(audio.history) && old(said) <= said
        invariant InFlush(policy, before, force, track, k)
        decreases |pending|
      {
        var segment := pending[0];
        if !ShouldFlush(policy, segment, force, ToMs(audio.totalSamples, policy.sampleRate), vadActive) {
          break;
        }
        FlushLoop(policy, before, force, track, k);
        var hasText := FlushFront(model);
        lockedAny := hasText || lockedAny;
        k := k + 1;
      }
      FlushLoop(policy, before, force, track, k);
    }

    method EnqueuePendingFinalSegment(startMs: int, endMs: int)
      requires startMs < endMs
      modifies this`pending
      ensures pending == Enqueue(old(pending), Segment(startMs, endMs), EffectiveGap(policy))
      ensures var n := |old(pending)| - 1;
              if n >= 0 && startMs - old(pending)[n].end <= policy.mergeGapMs + policy.postPaddingMs
              then pending == old(pending)[n := Segment(Min(old(pending)[n].start, startMs),
                                                        Max(old(pending)[n].end, endMs))]
              else pending == old(pending) + [Segment(startMs, endMs)]
    {
      if pending == [] {
        pending := [Segment(startMs, endMs)];
        return;
      }
      var n := |pending| - 1;
      var current := pending[n];
      if startMs - current.end <= EffectiveGap(policy) {
        pending := pending[n := Segment(Min(current.start, startMs), Max(current.end, endMs))];
      } else {
        pending := pending + [Segment(startMs, endMs)];
      }
    }

    // The intervals of one report enter the queue; empty ones are skipped.
    method EnqueueConfirmed(segments: seq<Segment>)
      modifies this`pending
      ensures pending == EnqueueAll(old(pending), Normalise(segments), EffectiveGap(policy))
    {
      for i := 0 to |segments|
        invariant pending == EnqueueAll(old(pending), Normalise(segments[..i]), EffectiveGap(policy))
      {
        NormaliseStep(segments, i);
        var s := segments[i];
        if s.end > s.start {
          EnqueueAllAppend(old(pending), Normalise(segments[..i]), s, EffectiveGap(policy));
          EnqueuePendingFinalSegment(s.start, s.end);
        }
      }
      assert segments[..|segments|] == segments;
    }

    // The report reaches the queue and the track.
    method AcceptReport(segments: seq<Segment>)
      requires LoopOk()
      requires Acceptable(policy, track, Normalise(segments), ToMs(audio.totalSamples, policy.sampleRate))
      modifies this`pending, this`track
      ensures LoopOk()
      ensures track == Report(AcceptAll(policy, old(track), Normalise(segments)),
                              ToMs(audio.totalSamples, policy.sampleRate), vadActive)
    {
      ghost var clock := ToMs(audio.totalSamples, policy.sampleRate);
      AcceptedReport(policy, track, Normalise(segments), clock, vadActive);
      EnqueueConfirmed(segments);
      NoteReport(Report(AcceptAll(policy, track, Normalise(segments)), clock, vadActive));
    }

    // The track follows the queue; what has been finalised stays.
    ghost method NoteReport(next: Track)
      requires ValidPolicy(policy) && CursorsOk() && SentencesOk()
      requires HeardAll(policy, track.finalised, kept, said, audio.history, heard)
      requires InTime(next, ToMs(|audio.history|, policy.sampleRate))
      requires ListOk(next) && next.pending == pending && next.finalised == track.finalised
      requires KeptAll(policy, track.finalised, kept) && partialStartMs == LastEnd(track.finalised)
      requires audio.startSample <= ToSample(LastEnd(track.finalised), policy.sampleRate)
      modifies this`track
      ensures LoopOk() && track == next
    {
      track := next;
    }

    method FlushReadyPendingSegments(model: Model<T>) returns (lockedAny: bool)
      requires LoopOk() && ModelOk(model) && track.active == vadActive
      requires track.clockMs == ToMs(audio.totalSamples, policy.sampleRate)
      modifies this`pending, this`lastStreamSamples, this`firstDecodeDone, this`locked, this`partialStartMs,
               this`track, this`kept, this`said, this`heard, audio
      ensures LoopOk() && track == Flush(policy, old(track), false)
      ensures audio.history == old(audio.history) && old(said) <= said
    {
      lockedAny := false;
      var clock := ToMs(audio.totalSamples, policy.sampleRate);
      if pending == [] || !ShouldFlush(policy, pending[0], false, clock, vadActive) {
        assert MoveFront(track, 0) == track;
        return;
      }
      lockedAny := FlushPendingFinalSegments(false, model);
    }

    method LockConfirmedSegments(segments: seq<Segment>, model: Model<T>) returns (lockedAny: bool)
      requires LoopOk() && ModelOk(model)
      requires Acceptable(policy, track, Normalise(segments), ToMs(audio.totalSamples, policy.sampleRate))
      modifies this`pending, this`lastStreamSamples, this`firstDecodeDone, this`locked, this`partialStartMs,
               this`track, this`kept, this`said, this`heard, audio
      ensures LoopOk() && audio.history == old(audio.history) && old(said) <= said
      ensures track == Lock(policy, old(track), Normalise(segments),
                            ToMs(audio.totalSamples, policy.sampleRate), vadActive)
    {
      lockedAny := AcceptAndFlush(segments, model,
        Lock(policy, track, Normalise(segments), ToMs(audio.totalSamples, policy.sampleRate), vadActive));
    }

    method AcceptAndFlush(segments: seq<Segment>, model: Model<T>, ghost next: Track) returns (lockedAny: bool)
      requires LoopOk() && ModelOk(model)
      requires Acceptable(policy, track, Normalise(segments), ToMs(audio.totalSamples, policy.sampleRate))
      requires next == Flush(policy, Report(AcceptAll(policy, track, Normalise(segments)),
                                            ToMs(audio.totalSamples, policy.sampleRate), vadActive), false)
      modifies this`pending, this`lastStreamSamples, this`firstDecodeDone, this`locked, this`partialStartMs,
               this`track, this`kept, this`said, this`heard, audio
      ensures LoopOk() && audio.history == old(audio.history) && old(said) <= said
      ensures track == next
    {
      AcceptReport(segments);
      lockedAny := FlushReadyPendingSegments(model);
    }

    // --------------------------------------------------------------- add_audio

    // Feeds every whole chunk; the VAD hears each sample once and in order.
    method FeedChunks(replies: seq<VadReply>) returns (confirmed: seq<Segment>)
      requires vadChunkSamples >= 1 && CursorsOk()
      requires WholeChunks(audio.totalSamples - vadFedSamples, vadChunkSamples, |replies|)
      modifies this`vadFedSamples, this`vadActive, this`vadInput
      ensures CursorsOk() && audio.totalSamples - vadFedSamples < vadChunkSamples
      ensures confirmed == Reported(replies) && vadActive == LastActive(replies, old(vadActive))
      ensures vadActive == if replies == [] then old(vadActive) else replies[|replies| - 1].active
    {
      confirmed := [];
      var k := 0;
      while audio.totalSamples - vadFedSamples >= vadChunkSamples
        invariant CursorsOk() && k <= |replies|
        invariant WholeChunks(audio.totalSamples - vadFedSamples, vadChunkSamples, |replies| - k)
        invariant confirmed == Reported(replies[..k]) && vadActive == LastActive(replies[..k], old(vadActive))
        decreases |replies| - k
      {
        ChunkDue(audio.totalSamples - vadFedSamples, vadChunkSamples, |replies| - k);
        var chunkEnd := vadFedSamples + vadChunkSamples;
        var vadChunk := audio.Slice(vadFedSamples, chunkEnd);
        assert vadInput + vadChunk == audio.history[..chunkEnd];
        vadInput := vadInput + vadChunk;  // self.vad.feed(vad_chunk)
        assert replies[..k + 1][..k] == replies[..k];
        vadActive := replies[k].active;
        confirmed := confirmed + replies[k].segments;
        vadFedSamples := chunkEnd;
        k := k + 1;
      }
      NoChunkDue(audio.totalSamples - vadFedSamples, vadChunkSamples, |replies| - k);
      assert replies[..k] == replies;
    }

    // With fewer samples than a VAD chunk nothing is fed and the call only
    // flushes what has become ready.
    method AddAudio(samples: seq<T>, replies: seq<VadReply>, model: Model<T>) returns (lockedAny: bool)
      requires Valid() && ModelOk(model)
      requires WholeChunks(audio.totalSamples + |samples| - vadFedSamples, vadChunkSamples, |replies|)
      requires VadStep(track, lagMs, Normalise(Reported(replies)),
                       ToMs(audio.totalSamples + |samples|, policy.sampleRate), LastActive(replies, vadActive))
      modifies this`vadFedSamples, this`vadActive, this`vadInput, this`pending, this`lastStreamSamples,
               this`firstDecodeDone, this`locked, this`partialStartMs, this`track, this`kept, this`said,
               this`heard, audio
      ensures Valid() && audio.history == old(audio.history) + samples && old(said) <= said
      ensures samples == [] ==> track == old(track)
      ensures samples != [] ==> NothingDue(policy, pending, ToMs(audio.totalSamples, policy.sampleRate), vadActive)
      ensures samples != [] ==>
        track == Lock(policy, old(track), Normalise(Reported(replies)),
                      ToMs(audio.totalSamples, policy.sampleRate), LastActive(replies, old(vadActive)))
    {
      if samples == [] {
        return false;
      }
      ghost var total, segments := audio.totalSamples + |samples|, Normalise(Reported(replies));
      ghost var accepted, next := ReportIsSound(policy, lagMs, track, segments, ToMs(total, policy.sampleRate),
                                                LastActive(replies, vadActive));
      var confirmed := ReceiveSamples(samples, replies);
      assert audio.totalSamples == total;
      lockedAny := LockReport(confirmed, model, accepted, next);
    }

    // Locking a report that keeps the invariant of the track.
    method LockReport(confirmed: seq<Segment>, model: Model<T>, ghost accepted: Track, ghost next: Track)
      returns (lockedAny: bool)
      requires LoopOk() && ModelOk(model) && audio.totalSamples - vadFedSamples < vadChunkSamples
      requires accepted == AcceptAll(policy, track, Normalise(confirmed)) && ListOk(accepted)
      requires InTime(accepted, ToMs(audio.totalSamples, policy.sampleRate))
      requires next == Lock(policy, track, Normalise(confirmed),
                            ToMs(audio.totalSamples, policy.sampleRate), vadActive)
      requires TrackInv(policy, lagMs, next)
      modifies this`pending, this`lastStreamSamples, this`firstDecodeDone, this`locked, this`partialStartMs,
               this`track, this`kept, this`said, this`heard, audio
      ensures Valid() && audio.history == old(audio.history) && old(said) <= said
      ensures track == next
    {
      lockedAny := LockConfirmedSegments(confirmed, model);
    }

    method ReceiveSamples(samples: seq<T>, replies: seq<VadReply>) returns (confirmed: seq<Segment>)
      requires LoopOk() && vadChunkSamples >= 1
      requires WholeChunks(audio.totalSamples + |samples| - vadFedSamples, vadChunkSamples, |replies|)
      modifies this`vadFedSamples, this`vadActive, this`vadInput, audio
      ensures LoopOk() && audio.totalSamples - vadFedSamples < vadChunkSamples
      ensures audio.history == old(audio.history) + samples
      ensures audio.totalSamples == old(audio.totalSamples) + |samples|
      ensures confirmed == Reported(replies) && vadActive == LastActive(replies, old(vadActive))
    {
      HeardLater(policy, track.finalised, kept, said, audio.history, heard, samples);
      LaterMs(|audio.history|, |samples|, policy.sampleRate);
      audio.Append(samples);
      confirmed := FeedChunks(replies);
    }

    // ---------------------------------------------------------- decode_partial

    // Streaming recognition of the next stretch of audio, if there is enough.
    method DecodePartial(hasText: bool) returns (fed: seq<T>)
      requires Valid()
      modifies this`lastStreamSamples, this`firstDecodeDone
      ensures Valid()
      ensures var threshold := if old(firstDecodeDone) then chunkSamples else firstDecodeSamples;
              if old(lastStreamSamples) + threshold <= audio.totalSamples
              then fed == audio.history[old(lastStreamSamples)..old(lastStreamSamples) + threshold]
                   && lastStreamSamples == old(lastStreamSamples) + threshold
                   && firstDecodeDone == (old(firstDecodeDone) || hasText)
              else fed == [] && lastStreamSamples == old(lastStreamSamples)
                   && firstDecodeDone == old(firstDecodeDone)
    {
      fed := StreamNext(if firstDecodeDone then chunkSamples else firstDecodeSamples, hasText);
    }

    method StreamNext(threshold: nat, hasText: bool) returns (fed: seq<T>)
      requires CursorsOk()
      modifies this`lastStreamSamples, this`firstDecodeDone
      ensures CursorsOk()
      ensures if old(lastStreamSamples) + threshold <= audio.totalSamples
              then fed == audio.history[old(lastStreamSamples)..old(lastStreamSamples) + threshold]
                   && lastStreamSamples == old(lastStreamSamples) + threshold
                   && firstDecodeDone == (old(firstDecodeDone) || hasText)
              else fed == [] && lastStreamSamples == old(lastStreamSamples)
                   && firstDecodeDone == old(firstDecodeDone)
    {
      var chunkEnd := Min(lastStreamSamples + threshold, audio.totalSamples);
      var newAudio := audio.Slice(lastStreamSamples, chunkEnd);
      if |newAudio| < threshold {
        return [];
      }
      fed := newAudio;
      if hasText {
        firstDecodeDone := true;
      }
      lastStreamSamples := chunkEnd;
    }

    // ---------------------------------------------------------------- emission

    // Each locked sentence is handed out exactly once, in order.
    method ConsumeLockedSentences() returns (news: seq<Sentence>)
      requires EmissionOk()
      modifies this`emittedLockedCount, this`emitted
      ensures EmissionOk() && emitted == locked && old(emitted) + news == locked
    {
      news := locked[emittedLockedCount..];
      emittedLockedCount := |locked|;
      emitted := emitted + news;
    }

    // ------------------------------------------------------------------ finish

    // Without any sentence from the VAD the rest of the audio is decoded once.
    method ForceLockTail(model: Model<T>)
      requires ValidPolicy(policy) && audio.Valid() && 0 <= partialStartMs
      modifies this`locked
      ensures locked == old(locked) + TailOf(policy, partialStartMs, audio.history, audio.startSample, model)
      ensures var durationMs := ToMs(audio.totalSamples, policy.sampleRate);
              if durationMs <= partialStartMs then locked == old(locked)
              else locked == old(locked) + Heard(SentenceOf(policy, Segment(partialStartMs, durationMs),
                                                            audio.history, audio.startSample, model))
    {
      var durationMs := ToMs(audio.totalSamples, policy.sampleRate);
      var startMs := Min(partialStartMs, durationMs);
      if durationMs <= startMs {
        return;
      }
      var hasText := LockSentence(Segment(startMs, durationMs), model);
    }

    method LockTailIfSilent(lockedCountBefore: nat, model: Model<T>)
      requires LoopOk() && ModelOk(model)
      modifies this`locked
      ensures locked == Spoken(said)
        + if |Spoken(said)| == lockedCountBefore
          then TailOf(policy, LastEnd(track.finalised), audio.history, audio.startSample, model) else []
      ensures SentencesOrdered(locked) && (modelIsMonotone ==> Nondecreasing(AllWords(locked))) && EmissionOk()
    {
      ListNonnegative(track);
      TailFits(locked, LastEnd(track.finalised), modelIsMonotone, policy, audio.history, audio.startSample, model);
      if |locked| == lockedCountBefore {
        ForceLockTail(model);
      }
    }

    // The VAD hears the rest of the audio, then an empty final feed.
    method FeedRemaining(replies: seq<VadReply>) returns (confirmed: seq<Segment>)
      requires CursorsOk() && |replies| == (if vadFedSamples < audio.totalSamples then 2 else 1)
      modifies this`vadFedSamples, this`vadActive, this`vadInput
      ensures CursorsOk() && vadFedSamples == audio.totalSamples && vadInput == audio.history
      ensures confirmed == Reported(replies) && vadActive == LastActive(replies, old(vadActive))
    {
      var remaining := audio.Slice(vadFedSamples, audio.totalSamples);
      assert vadInput + remaining == audio.history[..audio.totalSamples] == audio.history;
      confirmed := [];
      var last := replies[|replies| - 1];
      assert replies[..|replies|] == replies;
      if |remaining| > 0 {
        vadInput := vadInput + remaining;  // self.vad.feed(remaining, True)
        confirmed := replies[0].segments;
        vadFedSamples := audio.totalSamples;
        assert replies[..1][..0] == [] && Reported(replies[..1]) == [] + replies[0].segments;
      }
      confirmed := confirmed + last.segments;
      vadActive := last.active;
    }

    // Speech still open is closed at the end of the audio.
    method CloseOpenSpeech(model: Model<T>)
      requires LoopOk() && ModelOk(model) && OpenTailOk(policy, track)
      requires track.active == vadActive && track.clockMs == ToMs(audio.totalSamples, policy.sampleRate)
      modifies this`pending, this`lastStreamSamples, this`firstDecodeDone, this`locked, this`partialStartMs,
               this`track, this`kept, this`said, this`heard, this`vadActive, audio
      ensures LoopOk() && audio.history == old(audio.history) && old(said) <= said
      ensures track == Report(CloseOpen(policy, old(track)), old(track).clockMs, None) && vadActive == None
    {
      ghost var before := track;
      if vadActive.Some? {
        LockOpenTail(model);
      }
      ForgetOpenSpeech(before.clockMs);
    }

    method LockOpenTail(model: Model<T>)
      requires LoopOk() && ModelOk(model) && OpenTailOk(policy, track)
      requires track.active == vadActive && vadActive.Some?
      requires track.clockMs == ToMs(audio.totalSamples, policy.sampleRate)
      modifies this`pending, this`lastStreamSamples, this`firstDecodeDone, this`locked, this`partialStartMs,
               this`track, this`kept, this`said, this`heard, audio
      ensures LoopOk() && audio.history == old(audio.history) && old(said) <= said
      ensures track == CloseOpen(policy, old(track))
    {
      var tail := [Segment(vadActive.value, ToMs(audio.totalSamples, policy.sampleRate))];
      CloseOpenAccepts(policy, track, tail);
      var lockedAny := LockConfirmedSegments(tail, model);
    }

    method ForgetOpenSpeech(ghost clockMs: int)
      requires LoopOk()
      modifies this`vadActive, this`track
      ensures LoopOk() && track == Report(old(track), clockMs, None) && vadActive == None
    {
      assert Report(track, clockMs, None).All() == track.All();
      vadActive := None;
      NoteReport(Report(track, clockMs, None));
    }

    // finish(), up to the last report of the VAD.
    method FinishVad(replies: seq<VadReply>, model: Model<T>)
      requires Valid() && ModelOk(model)
      requires |replies| == (if vadFedSamples < audio.totalSamples then 2 else 1)
      requires VadStep(track, lagMs, Normalise(Reported(replies)),
                       ToMs(audio.totalSamples, policy.sampleRate), LastActive(replies, vadActive))
      modifies this`vadFedSamples, this`vadActive, this`vadInput, this`pending, this`lastStreamSamples,
               this`firstDecodeDone, this`locked, this`partialStartMs, this`track, this`kept, this`said,
               this`heard, audio
      ensures Valid() && audio.history == old(audio.history) && old(said) <= said
      ensures vadInput == audio.history
      ensures track == Lock(policy, old(track), Normalise(Reported(replies)),
                            ToMs(audio.totalSamples, policy.sampleRate), LastActive(replies, old(vadActive)))
    {
      ghost var segments, clock := Normalise(Reported(replies)), ToMs(audio.totalSamples, policy.sampleRate);
      ghost var accepted, next := ReportIsSound(policy, lagMs, track, segments, clock, LastActive(replies, vadActive));
      var confirmed := HearRest(replies);
      var lockedAny := LockReport(confirmed, model, accepted, next);
    }

    method HearRest(replies: seq<VadReply>) returns (confirmed: seq<Segment>)
      requires LoopOk() && |replies| == (if vadFedSamples < audio.totalSamples then 2 else 1)
      modifies this`vadFedSamples, this`vadActive, this`vadInput
      ensures LoopOk() && vadFedSamples == audio.totalSamples && vadInput == audio.history
      ensures confirmed == Reported(replies) && vadActive == LastActive(replies, old(vadActive))
    {
      confirmed := FeedRemaining(replies);
    }

    // The rest of the queue is flushed, whatever its age.
    method FlushAtFinish(model: Model<T>)
      requires LoopOk() && ModelOk(model) && OpenTailOk(policy, track)
      requires track.active == vadActive && track.clockMs == ToMs(audio.totalSamples, policy.sampleRate)
      modifies this`pending, this`lastStreamSamples, this`firstDecodeDone, this`locked, this`partialStartMs,
               this`track, this`kept, this`said, this`heard, this`vadActive, audio
      ensures LoopOk() && audio.history == old(audio.history) && old(said) <= said
      ensures track == SegmentMerging.Finish(policy, old(track)) && track.pending == []
    {
      FlushAll(policy, Report(CloseOpen(policy, track), track.clockMs, None));
      CloseOpenSpeech(model);
      var lockedAny := FlushPendingFinalSegments(true, model);
    }

    // finish(), from the close of open speech on.
    method FinishSentences(lockedCountBefore: nat, model: Model<T>)
      requires LoopOk() && ModelOk(model) && OpenTailOk(policy, track)
      requires track.active == vadActive && track.clockMs == ToMs(audio.totalSamples, policy.sampleRate)
      modifies this`pending, this`lastStreamSamples, this`firstDecodeDone, this`locked, this`partialStartMs,
               this`track, this`kept, this`said, this`heard, this`vadActive, audio
      ensures track == SegmentMerging.Finish(policy, old(track)) && pending == track.pending == []
      ensures KeptAll(policy, track.finalised, kept) && old(said) <= said
      ensures HeardAll(policy, track.finalised, kept, said, audio.history, heard)
      ensures audio.Valid() && audio.history == old(audio.history)
      ensures locked == Spoken(said)
        + if |Spoken(said)| == lockedCountBefore
          then TailOf(policy, LastEnd(track.finalised), audio.history, audio.startSample, model) else []
      ensures SentencesOrdered(locked) && (modelIsMonotone ==> Nondecreasing(AllWords(locked))) && EmissionOk()
      ensures partialStartMs == 0
    {
      FlushAtFinish(model);
      EndSentences(lockedCountBefore, model);
    }

    // Once the queue is flushed only the sentences and the partial text change.
    method EndSentences(lockedCountBefore: nat, model: Model<T>)
      requires LoopOk() && ModelOk(model)
      modifies this`locked, this`partialStartMs
      ensures KeptAll(policy, track.finalised, kept)
      ensures HeardAll(policy, track.finalised, kept, said, audio.history, heard)
      ensures locked == Spoken(said)
        + if |Spoken(said)| == lockedCountBefore
          then TailOf(policy, LastEnd(track.finalised), audio.history, audio.startSample, model) else []
      ensures SentencesOrdered(locked) && (modelIsMonotone ==> Nondecreasing(AllWords(locked))) && EmissionOk()
      ensures partialStartMs == 0
    {
      LockTailIfSilent(lockedCountBefore, model);
      partialStartMs := 0;
    }

    method Finish(replies: seq<VadReply>, model: Model<T>)
      requires Valid() && ModelOk(model)
      requires |replies| == (if vadFedSamples < audio.totalSamples then 2 else 1)
      requires VadStep(track, lagMs, Normalise(Reported(replies)),
                       ToMs(audio.totalSamples, policy.sampleRate), LastActive(replies, vadActive))
      modifies this`vadFedSamples, this`vadActive, this`vadInput, this`pending, this`lastStreamSamples,
               this`firstDecodeDone, this`locked, this`partialStartMs, this`track, this`kept, this`said,
               this`heard, audio
      ensures track == SegmentMerging.Finish(policy,
                         Lock(policy, old(track), Normalise(Reported(replies)),
                              old(ToMs(audio.totalSamples, policy.sampleRate)), LastActive(replies, old(vadActive))))
      ensures pending == track.pending == [] && KeptAll(policy, track.finalised, kept)
      ensures HeardAll(policy, track.finalised, kept, said, audio.history, heard) && old(said) <= said
      ensures audio.history == old(audio.history) && vadInput == audio.history
      ensures audio.Valid()
      ensures locked == Spoken(said)
        + if |Spoken(said)| == |old(locked)|
          then TailOf(policy, LastEnd(track.finalised), audio.history, audio.startSample, model) else []
      ensures SentencesOrdered(locked) && (modelIsMonotone ==> Nondecreasing(AllWords(locked))) && EmissionOk()
      ensures partialStartMs == 0
    {
      var lockedCountBefore := |locked|;
      FinishVad(replies, model);
      OpenTailAccepted(policy, lagMs, track);
      FinishSentences(lockedCountBefore, model);
    }
  }

  // What the forced decode of the rest of the audio contributes.
  function TailOf<T(!new)>(p: Policy, partialStartMs: int, history: seq<T>, startSample: nat, model: Model<T>)
    : seq<Sentence>
    requires p.sampleRate > 0 && startSample <= |history|
  {
    var durationMs := ToMs(|history|, p.sampleRate);
    if durationMs <= partialStartMs then []
    else Heard(SentenceOf(p, Segment(partialStartMs, durationMs), history, startSample, model))
  }

  lemma TailFits<T(!new)>(locked: seq<Sentence>, bound: int, monotone: bool,
                          p: Policy, history: seq<T>, startSample: nat, model: Model<T>)
    requires LockedBy(locked, bound, monotone)
    requires p.sampleRate > 0 && startSample <= |history| && (monotone ==> Monotone(model))
    ensures SentencesOrdered(locked) && (monotone ==> Nondecreasing(AllWords(locked)))
    ensures var all := locked + TailOf(p, bound, history, startSample, model);
            SentencesOrdered(all) && (monotone ==> Nondecreasing(AllWords(all)))
  {
    var durationMs := ToMs(|history|, p.sampleRate);
    var all := locked + TailOf(p, bound, history, startSample, model);
    var end := if durationMs <= bound then bound else durationMs;
    if durationMs > bound {
      LockedByAppend(locked, bound, monotone, p, Segment(bound, durationMs), history, startSample, model);
    } else {
      assert all == locked;
    }
    if monotone {
      SessionWordsNondecreasing(locked, bound);
      SessionWordsNondecreasing(all, end);
    }
  }

  // Nothing that is pending ends later than this.
  predicate InTime(t: Track, ms: int)
  {
    LastEnd(t.pending) <= ms
  }

  predicate Acceptable(p: Policy, t: Track, segments: seq<Segment>, ms: int)
  {
    ListOk(AcceptAll(p, t, segments)) && InTime(AcceptAll(p, t, segments), ms)
  }

  lemma LaterMs(total: nat, more: nat, sampleRate: nat)
    requires sampleRate > 0
    ensures ToMs(total, sampleRate) <= ToMs(total + more, sampleRate)
  {
    var before, after := ToMs(total, sampleRate), ToMs(total + more, sampleRate);
    if after + 1 <= before {
      MulOrder(after + 1, before, sampleRate);
    }
  }

  predicate OpenTailOk(p: Policy, t: Track)
  {
    Acceptable(p, t, OpenTail(t), t.clockMs)
  }

  lemma OpenTailAccepted(p: Policy, lagMs: nat, t: Track)
    requires TrackInv(p, lagMs, t)
    ensures OpenTailOk(p, t)
  {
    NonnegativeEnd(t);
    AcceptAllInv(p, lagMs, t, OpenTail(t));
    AcceptAllFields(p, t, OpenTail(t));
    MergeListOk(p, lagMs, AcceptAll(p, t, OpenTail(t)));
  }

  lemma CloseOpenAccepts(p: Policy, t: Track, tail: seq<Segment>)
    requires OpenTailOk(p, t) && t.active.Some? && tail == [Segment(t.active.value, t.clockMs)]
    ensures Acceptable(p, t, Normalise(tail), t.clockMs)
    ensures CloseOpen(p, t) == Lock(p, t, Normalise(tail), t.clockMs, t.active)
  {
    assert tail[..0] == [];
    assert Normalise(tail) == OpenTail(t);
  }

  lemma AcceptedReport(p: Policy, t: Track, segments: seq<Segment>, clockMs: int, active: Option<int>)
    requires Acceptable(p, t, segments, clockMs)
    ensures var t' := Report(AcceptAll(p, t, segments), clockMs, active);
            && ListOk(t') && InTime(t', clockMs) && t'.finalised == t.finalised
            && t'.pending == EnqueueAll(t.pending, segments, EffectiveGap(p))
  {
    AcceptAllPending(p, t, segments);
    AcceptAllFields(p, t, segments);
    assert Report(AcceptAll(p, t, segments), clockMs, active).All() == AcceptAll(p, t, segments).All();
  }

  // A report that meets the contract can be accepted and locked.
  lemma ReportIsSound(p: Policy, lagMs: nat, t: Track, segments: seq<Segment>, clockMs: int, active: Option<int>)
    returns (accepted: Track, next: Track)
    requires TrackInv(p, lagMs, t) && VadStep(t, lagMs, segments, clockMs, active)
    ensures accepted == AcceptAll(p, t, segments) && ListOk(accepted) && InTime(accepted, clockMs)
    ensures next == Lock(p, t, segments, clockMs, active) && TrackInv(p, lagMs, next)
    ensures NothingDue(p, next.pending, clockMs, active)
  {
    accepted, next := AcceptAll(p, t, segments), Lock(p, t, segments, clockMs, active);
    NonnegativeEnd(t);
    AcceptAllInv(p, lagMs, t, segments);
    AcceptAllFields(p, t, segments);
    MergeListOk(p, lagMs, accepted);
    LockInv(p, lagMs, t, segments, clockMs, active);
    LockFlushesDue(p, lagMs, t, segments, clockMs, active);
  }

  // n whole chunks of a size fit into the samples left, and no more.
  predicate WholeChunks(left: int, size: nat, n: int)
  {
    0 <= n && n * size <= left < n * size + size
  }

  lemma ChunkDue(left: int, size: nat, n: int)
    requires WholeChunks(left, size, n) && left >= size
    ensures n >= 1 && WholeChunks(left - size, size, n - 1)
  {
    assert (n - 1) * size == n * size - size;
  }

  lemma NoChunkDue(left: int, size: nat, n: int)
    requires WholeChunks(left, size, n) && left < size
    ensures n == 0
  {
  }

  // A forced flush leaves nothing, any other only what must wait.
  lemma FlushOutcome(p: Policy, t: Track, force: bool)
    requires ListOk(t) && InTime(t, t.clockMs)
    ensures var rest := Flush(p, t, force).pending;
            if force then rest == [] else NothingDue(p, rest, t.clockMs, t.active)
  {
    ListNonnegative(t);
    FlushTakesDue(p, t);
    FlushAll(p, t);
  }

  // The state of the flush loop after k segments.
  predicate InFlush(p: Policy, before: Track, force: bool, t: Track, k: nat)
  {
    k <= FlushCount(p, before.pending, force, before.clockMs, before.active) && t == MoveFront(before, k)
  }

  lemma FlushLoop(p: Policy, before: Track, force: bool, t: Track, k: nat)
    requires InFlush(p, before, force, t, k)
    ensures if t.pending != [] && ShouldFlush(p, t.pending[0], force, t.clockMs, t.active)
            then InFlush(p, before, force, MoveFront(t, 1), k + 1)
            else t == Flush(p, before, force)
  {
    if k < |before.pending| {
      FlushCountSpec(p, before.pending, force, before.clockMs, before.active, k);
      assert before.pending[k..][..1] == [before.pending[k]] && before.pending[k..][1..] == before.pending[k + 1..];
      assert before.pending[..k + 1] == before.pending[..k] + [before.pending[k]];
    }
  }

  lemma NormaliseStep(segments: seq<Segment>, i: nat)
    requires i < |segments|
    ensures Normalise(segments[..i + 1])
         == if segments[i].end <= segments[i].start then Normalise(segments[..i])
            else Normalise(segments[..i]) + [segments[i]]
  {
    assert segments[..i + 1][..i] == segments[..i];
  }
}
