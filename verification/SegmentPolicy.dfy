// Pure policy of a realtime session: when a pending speech segment is final,
// and how much audio must be kept.

module SegmentPolicy {
  import opened Arithmetic
  import opened Wrappers

  datatype Segment = Segment(start: int, end: int)

  datatype Policy = Policy(
    sampleRate: nat,
    prePaddingMs: nat,
    postPaddingMs: nat,
    mergeGapMs: nat,
    minFinalMs: nat,
    maxFinalMs: nat)

  ghost predicate ValidPolicy(p: Policy)
  {
    p.sampleRate > 0 && 1 <= p.minFinalMs <= p.maxFinalMs
  }

  // The bounds the session's constructor imposes on its settings.
  function MakePolicy(sampleRate: nat, prePaddingMs: nat, postPaddingMs: nat,
                      mergeGapMs: int, minFinalMs: int, maxFinalMs: int): (p: Policy)
    requires sampleRate > 0
    ensures ValidPolicy(p) && p.sampleRate == sampleRate
    ensures p.prePaddingMs == prePaddingMs && p.postPaddingMs == postPaddingMs
    ensures p.mergeGapMs >= mergeGapMs && (p.mergeGapMs == mergeGapMs || p.mergeGapMs == 0)
    ensures p.minFinalMs >= minFinalMs && (p.minFinalMs == minFinalMs || p.minFinalMs == 1)
    ensures p.maxFinalMs >= maxFinalMs && (p.maxFinalMs == maxFinalMs || p.maxFinalMs == p.minFinalMs)
  {
    var minimum := Max(minFinalMs, 1);
    Policy(sampleRate, prePaddingMs, postPaddingMs, Max(mergeGapMs, 0), minimum, Max(maxFinalMs, minimum))
  }

  function Duration(s: Segment): nat { Max(s.end - s.start, 0) }

  function EffectiveGap(p: Policy): nat { p.mergeGapMs + p.postPaddingMs }

  function RequiredTailGap(durationMs: nat, minFinalMs: nat, gapMs: nat): nat
  {
    if durationMs >= minFinalMs then gapMs else Max(minFinalMs - durationMs, gapMs)
  }

  predicate ShouldFlush(p: Policy, s: Segment, force: bool, clockMs: int, active: Option<int>)
  {
    if force then true
    else if Duration(s) >= p.maxFinalMs then true
    else if active.Some? && active.value - s.end <= EffectiveGap(p) then false
    else if Max(clockMs - s.end, 0) < RequiredTailGap(Duration(s), p.minFinalMs, EffectiveGap(p)) then false
    else Duration(s) > 0
  }

  // A segment stays pending while speech may still be merged into it, or until
  // its minimum time has passed, unless it has the maximum length.
  predicate MustWait(p: Policy, s: Segment, clockMs: int, active: Option<int>)
  {
    && s.end - s.start < p.maxFinalMs
    && (|| (active.Some? && active.value - s.end <= p.mergeGapMs + p.postPaddingMs)
        || clockMs - s.end < p.mergeGapMs + p.postPaddingMs
        || clockMs - s.start < p.minFinalMs)
  }

  // Whatever is pending must wait.
  predicate NothingDue(p: Policy, pending: seq<Segment>, clockMs: int, active: Option<int>)
  {
    pending != [] ==> MustWait(p, pending[0], clockMs, active)
  }

  // Received in full, a segment is flushed exactly when it need not wait.
  lemma FlushIffDue(p: Policy, s: Segment, clockMs: int, active: Option<int>)
    requires s.start < s.end <= clockMs
    ensures ShouldFlush(p, s, false, clockMs, active) <==> !MustWait(p, s, clockMs, active)
  {
  }

  // int(ms * sample_rate / 1000), which truncates toward zero.
  function ToSample(ms: int, sampleRate: nat): int
  {
    if ms >= 0 then ms * sampleRate / 1000 else -(-ms * sampleRate / 1000)
  }

  function PendingStart(p: Policy, s: Segment): nat
  {
    Max(ToSample(s.start, p.sampleRate) - ToSample(p.prePaddingMs, p.sampleRate), 0)
  }

  function EarliestPending(p: Policy, pending: seq<Segment>, bound: int): int
  {
    if pending == [] then bound
    else EarliestPending(p, pending[1..], Min(bound, PendingStart(p, pending[0])))
  }

  // First sample that must stay in the buffer.
  function TrimPoint(p: Policy, lastStream: nat, vadFed: nat, pending: seq<Segment>, active: Option<int>): nat
  {
    var keep := EarliestPending(p, pending, Min(lastStream, vadFed));
    var kept := if active.Some?
                then Min(keep, Max(ToSample(active.value - p.prePaddingMs, p.sampleRate), 0))
                else keep;
    Max(kept, 0)
  }

  // First sample handed to the final model for a segment.
  function DecodeStart(p: Policy, startMs: int): nat
  {
    Max(ToSample(Max(startMs - p.prePaddingMs, 0), p.sampleRate), 0)
  }

  // ------------------------------------------------------- sample arithmetic

  lemma DivMonotone(x: nat, y: nat)
    requires x <= y
    ensures x / 1000 <= y / 1000
  {
  }

  lemma ToSampleTruncates(ms: int, sampleRate: nat)
    ensures var sample := ToSample(ms, sampleRate);
            if ms >= 0 then sample >= 0 && sample * 1000 <= ms * sampleRate < (sample + 1) * 1000
            else sample <= 0 && (sample - 1) * 1000 < ms * sampleRate <= sample * 1000
  {
    assert ms >= 0 ==> ms * sampleRate >= 0;
    assert ms < 0 ==> -ms * sampleRate >= 0 && -(-ms * sampleRate) == ms * sampleRate;
  }

  lemma ToSampleMonotone(a: int, b: int, sampleRate: nat)
    requires 0 <= a <= b
    ensures 0 <= ToSample(a, sampleRate) <= ToSample(b, sampleRate)
  {
    assert 0 <= a * sampleRate <= b * sampleRate;
    DivMonotone(a * sampleRate, b * sampleRate);
  }

  // The length of the audio in whole milliseconds does not exceed the audio.
  lemma DurationFits(total: nat, sampleRate: nat)
    requires sampleRate > 0
    ensures ToSample(total * 1000 / sampleRate, sampleRate) <= total
  {
    var ms := total * 1000 / sampleRate;
    assert ms * sampleRate <= total * 1000;
    DivMonotone(ms * sampleRate, total * 1000);
  }

  lemma MulOrder(a: nat, b: nat, c: nat)
    requires a <= b
    ensures a * c <= b * c && (b - a) * c == b * c - a * c
  {
  }

  lemma WholeSamples(ms: nat, sampleRate: nat)
    requires sampleRate % 1000 == 0
    ensures (ms * sampleRate) % 1000 == 0
  {
    assert ms * sampleRate == 1000 * (ms * (sampleRate / 1000));
  }

  // Splitting a floor over a difference is off by one exactly when the
  // fractional part of the subtrahend is the larger one.
  lemma FloorDifference(x: nat, y: nat)
    requires y <= x
    ensures Max(x / 1000 - y / 1000, 0) - (x - y) / 1000 == if x % 1000 < y % 1000 then 1 else 0
  {
  }

  lemma EarliestPendingBound(p: Policy, pending: seq<Segment>, bound: int)
    ensures EarliestPending(p, pending, bound) <= bound
    ensures forall i :: 0 <= i < |pending| ==> EarliestPending(p, pending, bound) <= PendingStart(p, pending[i])
  {
    if pending != [] {
      EarliestPendingBound(p, pending[1..], Min(bound, PendingStart(p, pending[0])));
      assert forall i :: 0 < i < |pending| ==> pending[i] == pending[1..][i - 1];
    }
  }

  // One trim cuts at most one sample from the padded window of a pending
  // segment, and exactly says when it can: never when the rate is a whole
  // number of samples per millisecond.
  lemma PendingTrimError(p: Policy, s: Segment)
    requires s.start >= 0
    ensures PendingStart(p, s) - DecodeStart(p, s.start)
         == (if s.start > p.prePaddingMs
                && (s.start * p.sampleRate) % 1000 < (p.prePaddingMs * p.sampleRate) % 1000 then 1 else 0)
    ensures p.sampleRate % 1000 == 0 ==> PendingStart(p, s) == DecodeStart(p, s.start)
  {
    var x, y := s.start * p.sampleRate, p.prePaddingMs * p.sampleRate;
    if s.start > p.prePaddingMs {
      MulOrder(p.prePaddingMs, s.start, p.sampleRate);
      FloorDifference(x, y);
      assert DecodeStart(p, s.start) == (x - y) / 1000;
    } else {
      MulOrder(s.start, p.prePaddingMs, p.sampleRate);
      DivMonotone(x, y);
      assert DecodeStart(p, s.start) == 0;
    }
    if p.sampleRate % 1000 == 0 {
      WholeSamples(s.start, p.sampleRate);
      WholeSamples(p.prePaddingMs, p.sampleRate);
    }
  }

  // At 22050 samples a second, with a padding of 350 ms, trimming for a segment
  // that begins after one second takes the first sample of its padded window.
  lemma TrimTakesASample(p: Policy, s: Segment, streamed: nat)
    requires p.sampleRate == 22050 && p.prePaddingMs == 350 && s.start == 1000 && streamed >= 22050
    ensures TrimPoint(p, streamed, streamed, [s], None) == DecodeStart(p, s.start) + 1
  {
    PendingTrimError(p, s);
    assert s.start * p.sampleRate == 22050000 && p.prePaddingMs * p.sampleRate == 7717500;
    assert PendingStart(p, s) == 14333;
    assert [s][1..] == [];
    assert EarliestPending(p, [s], streamed) == EarliestPending(p, [], 14333) == 14333;
  }

  // What one trim point leaves in the buffer.
  ghost predicate TrimSafe(p: Policy, keepFrom: int, lastStream: nat, vadFed: nat,
                           pending: seq<Segment>, active: Option<int>)
  {
    && keepFrom <= lastStream && keepFrom <= vadFed
    && (forall s :: s in pending ==> keepFrom <= DecodeStart(p, s.start) + 1)
    && (p.sampleRate % 1000 == 0 ==> forall s :: s in pending ==> keepFrom <= DecodeStart(p, s.start))
    && (active.Some? ==> keepFrom <= DecodeStart(p, active.value))
  }

  lemma PendingKept(p: Policy, s: Segment)
    requires s.start >= 0
    ensures PendingStart(p, s) <= DecodeStart(p, s.start) + 1
    ensures p.sampleRate % 1000 == 0 ==> PendingStart(p, s) <= DecodeStart(p, s.start)
  {
    PendingTrimError(p, s);
  }

  lemma ActiveKept(p: Policy, startMs: int)
    ensures Max(ToSample(startMs - p.prePaddingMs, p.sampleRate), 0) <= DecodeStart(p, startMs)
  {
    var ms := startMs - p.prePaddingMs;
    if ms < 0 {
      assert -ms * p.sampleRate >= 0;
    }
  }

  lemma TrimPointBelow(p: Policy, lastStream: nat, vadFed: nat, pending: seq<Segment>, active: Option<int>)
    ensures var keepFrom := TrimPoint(p, lastStream, vadFed, pending, active);
            && keepFrom <= lastStream && keepFrom <= vadFed
            && (forall i :: 0 <= i < |pending| ==> keepFrom <= PendingStart(p, pending[i]))
            && (active.Some? ==> keepFrom <= Max(ToSample(active.value - p.prePaddingMs, p.sampleRate), 0))
  {
    EarliestPendingBound(p, pending, Min(lastStream, vadFed));
  }

  // Nor is anything kept without need: the trim point is the greatest such bound.
  lemma TrimPointIsGreatest(p: Policy, lastStream: nat, vadFed: nat, pending: seq<Segment>, active: Option<int>,
                            bound: nat)
    requires bound <= lastStream && bound <= vadFed
    requires forall i :: 0 <= i < |pending| ==>
               bound <= Max(ToSample(pending[i].start, p.sampleRate) - ToSample(p.prePaddingMs, p.sampleRate), 0)
    requires active.Some? ==> bound <= Max(ToSample(active.value - p.prePaddingMs, p.sampleRate), 0)
    ensures bound <= TrimPoint(p, lastStream, vadFed, pending, active)
  {
    EarliestIsGreatest(p, pending, Min(lastStream, vadFed), bound);
  }

  lemma {:induction false} EarliestIsGreatest(p: Policy, pending: seq<Segment>, least: int, bound: nat)
    requires bound <= least && forall i :: 0 <= i < |pending| ==> bound <= PendingStart(p, pending[i])
    ensures bound <= EarliestPending(p, pending, least)
  {
    if pending != [] {
      assert bound <= PendingStart(p, pending[0]);
      forall i | 0 <= i < |pending| - 1
        ensures bound <= PendingStart(p, pending[1..][i])
      {
        assert pending[1..][i] == pending[i + 1];
      }
      EarliestIsGreatest(p, pending[1..], Min(least, PendingStart(p, pending[0])), bound);
    }
  }

  lemma TrimPointIsSafe(p: Policy, lastStream: nat, vadFed: nat, pending: seq<Segment>, active: Option<int>)
    requires forall s :: s in pending ==> s.start >= 0
    ensures TrimSafe(p, TrimPoint(p, lastStream, vadFed, pending, active), lastStream, vadFed, pending, active)
  {
    var keepFrom := TrimPoint(p, lastStream, vadFed, pending, active);
    TrimPointBelow(p, lastStream, vadFed, pending, active);
    forall s | s in pending
      ensures keepFrom <= DecodeStart(p, s.start) + 1
      ensures p.sampleRate % 1000 == 0 ==> keepFrom <= DecodeStart(p, s.start)
    {
      var i :| 0 <= i < |pending| && pending[i] == s;
      PendingKept(p, s);
    }
    if active.Some? {
      ActiveKept(p, active.value);
    }
  }
}
