// How confirmed VAD intervals become final segments: a queue of pending
// segments that merge across small gaps and are flushed from the front.
//
// The VAD is an adversary bound only by the contract `VadStep`.

module SegmentMerging {
  import opened Arithmetic
  import opened SegmentPolicy
  import opened Wrappers

  function Enqueue(pending: seq<Segment>, s: Segment, gap: int): (r: seq<Segment>)
    ensures |pending| <= |r| <= |pending| + 1 && r != []
  {
    if pending == [] then [s]
    else
      var n := |pending| - 1;
      var last := pending[n];
      if s.start - last.end <= gap then
        pending[n := Segment(Min(last.start, s.start), Max(last.end, s.end))]
      else pending + [s]
  }

  function EnqueueAll(pending: seq<Segment>, segments: seq<Segment>, gap: int): seq<Segment>
  {
    if segments == [] then pending
    else Enqueue(EnqueueAll(pending, segments[..|segments| - 1], gap), segments[|segments| - 1], gap)
  }

  // Merging a complete list of intervals in one pass.
  function Batch(segments: seq<Segment>, gap: int): seq<Segment>
  {
    EnqueueAll([], segments, gap)
  }

  // Number of segments the flush loop takes from the front.
  function FlushCount(p: Policy, pending: seq<Segment>, force: bool, clockMs: int, active: Option<int>): (k: nat)
    ensures k <= |pending|
  {
    if pending == [] || !ShouldFlush(p, pending[0], force, clockMs, active) then 0
    else 1 + FlushCount(p, pending[1..], force, clockMs, active)
  }

  // It is the length of the longest prefix ready to flush.
  lemma {:induction false} FlushCountSpec(p: Policy, pending: seq<Segment>, force: bool, clockMs: int,
                                          active: Option<int>, i: nat)
    requires i < |pending|
    ensures var k := FlushCount(p, pending, force, clockMs, active);
            && (i < k ==> ShouldFlush(p, pending[i], force, clockMs, active))
            && (i == k ==> !ShouldFlush(p, pending[i], force, clockMs, active))
  {
    if i > 0 {
      FlushCountSpec(p, pending[1..], force, clockMs, active, i - 1);
    }
  }

  // The merging state of a session, with everything the VAD has confirmed.
  datatype Track = Track(
    finalised: seq<Segment>,
    pending: seq<Segment>,
    confirmed: seq<Segment>,
    cover: seq<nat>,  // which segment of the list each confirmed interval went into
    clockMs: int,
    active: Option<int>)
  {
    function All(): seq<Segment> { finalised + pending }
  }

  const EmptyTrack := Track([], [], [], [], 0, None)

  function LastEnd(segments: seq<Segment>): int
  {
    if segments == [] then 0 else segments[|segments| - 1].end
  }

  function Accept(p: Policy, t: Track, s: Segment): Track
  {
    var pending := Enqueue(t.pending, s, EffectiveGap(p));
    t.(pending := pending, confirmed := t.confirmed + [s], cover := t.cover + [|t.finalised| + |pending| - 1])
  }

  function AcceptAll(p: Policy, t: Track, segments: seq<Segment>): Track
  {
    if segments == [] then t
    else Accept(p, AcceptAll(p, t, segments[..|segments| - 1]), segments[|segments| - 1])
  }

  function Report(t: Track, clockMs: int, active: Option<int>): Track
  {
    t.(clockMs := clockMs, active := active)
  }

  // The flush loop after k segments.
  function MoveFront(t: Track, k: nat): Track
    requires k <= |t.pending|
  {
    t.(finalised := t.finalised + t.pending[..k], pending := t.pending[k..])
  }

  function Flush(p: Policy, t: Track, force: bool): Track
  {
    MoveFront(t, FlushCount(p, t.pending, force, t.clockMs, t.active))
  }

  // _lock_confirmed_segments after the VAD has reported.
  function Lock(p: Policy, t: Track, segments: seq<Segment>, clockMs: int, active: Option<int>): Track
  {
    Flush(p, Report(AcceptAll(p, t, segments), clockMs, active), false)
  }

  // The tail of finish(): close speech that is still open, then flush all.
  function Finish(p: Policy, t: Track): Track
  {
    var closed := CloseOpen(p, t);
    Flush(p, Report(closed, closed.clockMs, None), true)
  }

  // ------------------------------------------------------------ VAD contract

  predicate Proper(segments: seq<Segment>, i: nat)
    requires i < |segments|
  {
    segments[i].start < segments[i].end
  }

  predicate Precedes(segments: seq<Segment>, i: nat, j: nat)
    requires i < j < |segments|
  {
    segments[i].end <= segments[j].start
  }

  // Nonempty, in order and disjoint.
  predicate Ordered(segments: seq<Segment>)
  {
    && (forall i: nat :: i < |segments| ==> Proper(segments, i))
    && (forall i: nat, j: nat :: i < j < |segments| ==> Precedes(segments, i, j))
  }

  lemma OrderedSub(segments: seq<Segment>, lo: nat, hi: nat)
    requires Ordered(segments) && lo <= hi <= |segments|
    ensures Ordered(segments[lo..hi])
  {
    var sub := segments[lo..hi];
    forall i: nat | i < |sub|
      ensures Proper(sub, i)
    {
      assert Proper(segments, lo + i);
    }
    forall i: nat, j: nat | i < j < |sub|
      ensures Precedes(sub, i, j)
    {
      assert Precedes(segments, lo + i, lo + j);
    }
  }

  // Speech confirmed or opened from now on starts at the reported active start
  // or after the audio seen so far, up to a lag; before the first confirmed
  // interval it may start anywhere.
  predicate Fresh(t: Track, lagMs: nat, startMs: int)
  {
    t.active == Some(startMs) || startMs > t.clockMs - lagMs || t.confirmed == []
  }

  // What one report of the VAD may say: nonempty, ordered, disjoint intervals
  // after everything confirmed before, ending within the audio seen so far.
  predicate VadStep(t: Track, lagMs: nat, segments: seq<Segment>, clockMs: int, active: Option<int>)
  {
    && clockMs >= t.clockMs
    && Ordered(segments)
    && (forall i :: 0 <= i < |segments| ==>
          LastEnd(t.confirmed) <= segments[i].start && segments[i].end <= clockMs && Fresh(t, lagMs, segments[i].start))
    && (active.Some? ==>
          LastEnd(t.confirmed + segments) <= active.value && Fresh(t, lagMs, active.value))
  }

  // --------------------------------------------------------------- invariant

  predicate Inside(s: Segment, outer: Segment)
  {
    outer.start <= s.start && s.end <= outer.end
  }

  // The list partitions the confirmed intervals into consecutive blocks: each
  // interval lies inside the segment of its block, a segment spans its block
  // exactly, and inside a block the gaps are small.
  predicate Conserves(p: Policy, all: seq<Segment>, confirmed: seq<Segment>, cover: seq<nat>)
  {
    && |cover| == |confirmed|
    && (forall c: nat :: c < |cover| ==> InBlock(all, confirmed, cover, c))
    && (cover == [] <==> all == [])
    && (cover != [] ==>
          && cover[0] == 0 && confirmed[0].start == all[0].start
          && cover[|cover| - 1] == |all| - 1 && confirmed[|cover| - 1].end == all[|all| - 1].end)
    && (forall c: nat :: 0 < c < |cover| ==> Adjacent(p, all, confirmed, cover, c))
  }

  predicate InBlock(all: seq<Segment>, confirmed: seq<Segment>, cover: seq<nat>, c: nat)
    requires c < |cover| == |confirmed|
  {
    cover[c] < |all| && Inside(confirmed[c], all[cover[c]])
  }

  predicate Adjacent(p: Policy, all: seq<Segment>, confirmed: seq<Segment>, cover: seq<nat>, c: nat)
    requires 0 < c < |cover| == |confirmed|
  {
    || SameBlock(p, all, confirmed, cover, c)
    || (cover[c - 1] < |all| && cover[c] < |all| && NextBlock(all, confirmed, cover, c))
  }

  predicate SameBlock(p: Policy, all: seq<Segment>, confirmed: seq<Segment>, cover: seq<nat>, c: nat)
    requires 0 < c < |cover| == |confirmed|
  {
    cover[c] == cover[c - 1] && confirmed[c].start - confirmed[c - 1].end <= EffectiveGap(p)
  }

  predicate NextBlock(all: seq<Segment>, confirmed: seq<Segment>, cover: seq<nat>, c: nat)
    requires 0 < c < |cover| == |confirmed| && cover[c] < |all| && cover[c - 1] < |all|
  {
    && cover[c] == cover[c - 1] + 1
    && confirmed[c - 1].end == all[cover[c - 1]].end
    && confirmed[c].start == all[cover[c]].start
  }

  // Consecutive segments farther apart than the gap.
  predicate WideAt(segments: seq<Segment>, i: nat, gap: int)
    requires i + 1 < |segments|
  {
    segments[i + 1].start - segments[i].end > gap
  }

  predicate AllApart(segments: seq<Segment>, gap: int)
  {
    forall i: nat :: i + 1 < |segments| ==> WideAt(segments, i, gap)
  }

  // A boundary that batch merging would also have made, up to the lag, unless
  // the segment was cut at the maximum length.
  predicate ApartAt(p: Policy, lagMs: nat, segments: seq<Segment>, i: nat)
    requires i + 1 < |segments|
  {
    WideAt(segments, i, EffectiveGap(p) - lagMs) || Duration(segments[i]) >= p.maxFinalMs
  }

  predicate Boundaries(p: Policy, lagMs: nat, segments: seq<Segment>)
  {
    forall i: nat :: i + 1 < |segments| ==> ApartAt(p, lagMs, segments, i)
  }

  // A start that may still come is far from the last finalised segment.
  predicate Distant(p: Policy, lagMs: nat, t: Track)
  {
    t.pending == [] && t.finalised != [] && Duration(t.finalised[|t.finalised| - 1]) < p.maxFinalMs ==>
      var end := t.finalised[|t.finalised| - 1].end;
      && t.clockMs - end >= EffectiveGap(p)
      && (t.active.Some? ==> t.active.value - end > EffectiveGap(p) - lagMs)
  }

  // The part of the invariant that does not depend on what the VAD reports:
  // about the whole list, and about its pending tail.
  predicate ListInv(p: Policy, lagMs: nat, all: seq<Segment>, confirmed: seq<Segment>, cover: seq<nat>)
  {
    && Ordered(confirmed)
    && Ordered(all)
    && LastEnd(all) == LastEnd(confirmed)
    && (confirmed != [] ==> confirmed[0].start >= 0)
    && Conserves(p, all, confirmed, cover)
    && Boundaries(p, lagMs, all)
    && (AllApart(all, EffectiveGap(p)) ==> all == Batch(confirmed, EffectiveGap(p)))
  }

  predicate MergeInv(p: Policy, lagMs: nat, t: Track)
  {
    ListInv(p, lagMs, t.All(), t.confirmed, t.cover) && AllApart(t.pending, EffectiveGap(p))
  }

  predicate TrackInv(p: Policy, lagMs: nat, t: Track)
  {
    && MergeInv(p, lagMs, t)
    && LastEnd(t.confirmed) <= t.clockMs
    && (t.active.Some? ==> LastEnd(t.confirmed) <= t.active.value)
    && Distant(p, lagMs, t)
  }

  lemma EmptyTrackInv(p: Policy, lagMs: nat)
    ensures TrackInv(p, lagMs, EmptyTrack)
  {
  }

  lemma EnqueueAllAppend(pending: seq<Segment>, segments: seq<Segment>, s: Segment, gap: int)
    ensures EnqueueAll(pending, segments + [s], gap) == Enqueue(EnqueueAll(pending, segments, gap), s, gap)
  {
    assert (segments + [s])[..|segments|] == segments;
  }

  // Extending the last segment keeps the partition.
  lemma ExtendConserves(p: Policy, all: seq<Segment>, confirmed: seq<Segment>, cover: seq<nat>, s: Segment)
    requires all != [] && Conserves(p, all, confirmed, cover)
    requires LastEnd(all) == LastEnd(confirmed) <= s.start < s.end
    requires all[|all| - 1].start < LastEnd(all) && s.start - LastEnd(all) <= EffectiveGap(p)
    ensures var n := |all| - 1;
            Conserves(p, all[n := Segment(all[n].start, s.end)], confirmed + [s], cover + [n])
  {
    var n := |all| - 1;
    var all', confirmed', cover' := all[n := Segment(all[n].start, s.end)], confirmed + [s], cover + [n];
    forall c: nat | c < |cover'|
      ensures InBlock(all', confirmed', cover', c)
    {
      if c < |cover| {
        assert InBlock(all, confirmed, cover, c);
      }
    }
    forall c: nat | 0 < c < |cover'|
      ensures Adjacent(p, all', confirmed', cover', c)
    {
      if c < |cover| {
        assert Adjacent(p, all, confirmed, cover, c);
        assert InBlock(all, confirmed, cover, c);
      } else {
        assert SameBlock(p, all', confirmed', cover', c);
      }
    }
  }

  // So does opening a new one.
  lemma AppendConserves(p: Policy, all: seq<Segment>, confirmed: seq<Segment>, cover: seq<nat>, s: Segment)
    requires Conserves(p, all, confirmed, cover)
    ensures Conserves(p, all + [s], confirmed + [s], cover + [|all|])
  {
    var all', confirmed', cover' := all + [s], confirmed + [s], cover + [|all|];
    forall c: nat | c < |cover'|
      ensures InBlock(all', confirmed', cover', c)
    {
      if c < |cover| {
        assert InBlock(all, confirmed, cover, c);
      }
    }
    forall c: nat | 0 < c < |cover'|
      ensures Adjacent(p, all', confirmed', cover', c)
    {
      if c < |cover| {
        assert Adjacent(p, all, confirmed, cover, c);
      } else {
        assert NextBlock(all', confirmed', cover', c);
      }
    }
  }

  // A list that ends before s stays ordered with s appended to it or with its
  // last segment extended to the end of s.
  lemma GrowOrdered(segments: seq<Segment>, s: Segment)
    requires Ordered(segments) && LastEnd(segments) <= s.start < s.end
    ensures Ordered(segments + [s])
    ensures segments != [] ==>
      segments[|segments| - 1].start < LastEnd(segments)
      && Ordered(segments[|segments| - 1 := Segment(segments[|segments| - 1].start, s.end)])
  {
    var grown, n := segments + [s], |segments| - 1;
    LastIsLargest(segments);
    forall i: nat | i < |grown|
      ensures Proper(grown, i)
    {
      if i < |segments| {
        assert Proper(segments, i);
      }
    }
    forall i: nat, j: nat | i < j < |grown|
      ensures Precedes(grown, i, j)
    {
      if j < |segments| {
        assert Precedes(segments, i, j);
      }
    }
    if segments != [] {
      var extended := segments[n := Segment(segments[n].start, s.end)];
      forall i: nat | i < |extended|
        ensures Proper(extended, i)
      {
        assert Proper(segments, i);
      }
      forall i: nat, j: nat | i < j < |extended|
        ensures Precedes(extended, i, j)
      {
        assert Precedes(segments, i, j);
      }
      assert Proper(segments, n);
    }
  }

  lemma LastIsLargest(segments: seq<Segment>)
    requires Ordered(segments)
    ensures forall i :: 0 <= i < |segments| ==> segments[i].end <= LastEnd(segments)
  {
    forall i | 0 <= i < |segments|
      ensures segments[i].end <= LastEnd(segments)
    {
      if i < |segments| - 1 {
        assert Precedes(segments, i, |segments| - 1);
        assert Proper(segments, |segments| - 1);
      }
    }
  }

  // What accepting one interval does to the list and to batch merging.
  lemma AcceptShape(p: Policy, t: Track, s: Segment)
    requires Ordered(t.All()) && LastEnd(t.All()) <= s.start < s.end
    ensures var all, all', n := t.All(), Accept(p, t, s).All(), |t.All()| - 1;
            if t.pending != [] && s.start - LastEnd(all) <= EffectiveGap(p)
            then all' == all[n := Segment(all[n].start, s.end)] && |Accept(p, t, s).pending| == |t.pending|
            else all' == all + [s] && Accept(p, t, s).pending == t.pending + [s]
    ensures Accept(p, t, s).cover == t.cover + [|Accept(p, t, s).All()| - 1]
  {
    if t.pending != [] {
      assert t.All()[|t.All()| - 1] == t.pending[|t.pending| - 1];
      assert Proper(t.All(), |t.All()| - 1);
    }
  }

  // A list extended by one interval at its end, either way.
  lemma GrowBoundaries(p: Policy, lagMs: nat, all: seq<Segment>, all': seq<Segment>, s: Segment)
    requires Boundaries(p, lagMs, all) && s.start < s.end
    requires all' == all + [s] || (all != [] && all' == all[|all| - 1 := Segment(all[|all| - 1].start, s.end)])
    requires |all'| > |all| > 0 ==> ApartAt(p, lagMs, all', |all| - 1)
    ensures Boundaries(p, lagMs, all')
    ensures forall gap :: AllApart(all', gap) ==> AllApart(all, gap)
  {
    forall i: nat | i + 1 < |all'|
      ensures ApartAt(p, lagMs, all', i)
    {
      if i + 1 < |all| {
        assert ApartAt(p, lagMs, all, i);
      }
    }
    forall gap, i: nat | AllApart(all', gap) && i + 1 < |all|
      ensures WideAt(all, i, gap)
    {
      assert WideAt(all', i, gap);
    }
  }

  lemma GrowPending(pending: seq<Segment>, s: Segment, gap: int)
    requires AllApart(pending, gap) && Ordered(pending) && s.start < s.end
    requires pending != [] ==> LastEnd(pending) <= s.start
    ensures AllApart(Enqueue(pending, s, gap), gap)
  {
    var grown := Enqueue(pending, s, gap);
    if pending != [] {
      assert Proper(pending, |pending| - 1);
    }
    forall i: nat | i + 1 < |grown|
      ensures WideAt(grown, i, gap)
    {
      if i + 1 < |pending| {
        assert WideAt(pending, i, gap);
      }
    }
  }

  lemma AcceptBoundaries(p: Policy, lagMs: nat, t: Track, s: Segment)
    requires MergeInv(p, lagMs, t) && LastEnd(t.All()) <= s.start < s.end
    requires t.pending == [] && t.finalised != [] ==> ApartAt(p, lagMs, t.finalised + [s], |t.finalised| - 1)
    ensures var t' := Accept(p, t, s);
            && Boundaries(p, lagMs, t'.All()) && AllApart(t'.pending, EffectiveGap(p))
            && (AllApart(t'.All(), EffectiveGap(p)) ==> AllApart(t.All(), EffectiveGap(p)))
  {
    AcceptShape(p, t, s);
    var all, all', n := t.All(), Accept(p, t, s).All(), |t.pending| - 1;
    assert t.finalised + [] == t.finalised;
    if t.pending != [] {
      assert all[|all| - 1] == t.pending[n];
    }
    GrowBoundaries(p, lagMs, all, all', s);
    PendingOrdered(t);
    GrowPending(t.pending, s, EffectiveGap(p));
  }

  lemma PendingOrdered(t: Track)
    requires Ordered(t.All())
    ensures Ordered(t.finalised) && Ordered(t.pending)
    ensures t.pending != [] ==> LastEnd(t.pending) == LastEnd(t.All())
  {
    OrderedSub(t.All(), 0, |t.finalised|);
    OrderedSub(t.All(), |t.finalised|, |t.All()|);
    assert t.All()[0..|t.finalised|] == t.finalised;
    assert t.All()[|t.finalised|..|t.All()|] == t.pending;
  }

  lemma AcceptBatch(p: Policy, t: Track, s: Segment)
    requires Ordered(t.All()) && LastEnd(t.All()) <= s.start < s.end
    requires t.All() == Batch(t.confirmed, EffectiveGap(p))
    requires AllApart(Accept(p, t, s).All(), EffectiveGap(p))
    ensures Accept(p, t, s).All() == Batch(Accept(p, t, s).confirmed, EffectiveGap(p))
  {
    AcceptShape(p, t, s);
    EnqueueAllAppend([], t.confirmed, s, EffectiveGap(p));
    var all, all' := t.All(), Accept(p, t, s).All();
    if |all'| == |all| + 1 && all != [] {
      assert WideAt(all', |all| - 1, EffectiveGap(p));
    }
  }

  lemma AcceptConserves(p: Policy, t: Track, s: Segment)
    requires Ordered(t.confirmed) && Ordered(t.All()) && Conserves(p, t.All(), t.confirmed, t.cover)
    requires LastEnd(t.All()) == LastEnd(t.confirmed) <= s.start < s.end
    ensures var t' := Accept(p, t, s);
            && Ordered(t'.confirmed) && Ordered(t'.All())
            && Conserves(p, t'.All(), t'.confirmed, t'.cover)
            && LastEnd(t'.All()) == LastEnd(t'.confirmed) == s.end
  {
    AcceptShape(p, t, s);
    GrowOrdered(t.confirmed, s);
    GrowOrdered(t.All(), s);
    if t.pending != [] && s.start - LastEnd(t.All()) <= EffectiveGap(p) {
      ExtendConserves(p, t.All(), t.confirmed, t.cover, s);
    } else {
      AppendConserves(p, t.All(), t.confirmed, t.cover, s);
    }
  }

  // Accepting one interval: it merges with the last pending segment or follows
  // the whole list.
  lemma AcceptInv(p: Policy, lagMs: nat, t: Track, s: Segment)
    requires MergeInv(p, lagMs, t)
    requires s.start < s.end && 0 <= s.start && LastEnd(t.confirmed) <= s.start
    requires t.pending == [] && t.finalised != [] ==> ApartAt(p, lagMs, t.finalised + [s], |t.finalised| - 1)
    ensures MergeInv(p, lagMs, Accept(p, t, s))
    ensures Accept(p, t, s).pending != []
  {
    AcceptConserves(p, t, s);
    AcceptBoundaries(p, lagMs, t, s);
    if AllApart(Accept(p, t, s).All(), EffectiveGap(p)) {
      AcceptBatch(p, t, s);
    }
  }

  // Fresh speech is apart from a segment finalised by policy.
  lemma FreshIsApart(p: Policy, lagMs: nat, t: Track, s: Segment)
    requires Distant(p, lagMs, t) && Fresh(t, lagMs, s.start)
    requires t.pending == [] && t.finalised != [] && t.confirmed != []
    ensures ApartAt(p, lagMs, t.finalised + [s], |t.finalised| - 1)
  {
  }

  lemma LastEndAppend(xs: seq<Segment>, s: Segment)
    ensures LastEnd(xs + [s]) == s.end
  {
  }

  lemma FrontOrdered(segments: seq<Segment>)
    requires Ordered(segments) && segments != []
    ensures Ordered(segments[..|segments| - 1])
    ensures |segments| > 1 ==> LastEnd(segments[..|segments| - 1]) <= segments[|segments| - 1].start
    ensures segments[|segments| - 1].start < segments[|segments| - 1].end
  {
    var n := |segments| - 1;
    OrderedSub(segments, 0, n);
    assert Proper(segments, n);
    if n > 0 {
      assert Precedes(segments, n - 1, n);
    }
  }

  lemma {:induction false} AcceptAllFields(p: Policy, t: Track, segments: seq<Segment>)
    ensures var t' := AcceptAll(p, t, segments);
            && t'.finalised == t.finalised && t'.confirmed == t.confirmed + segments
            && t'.clockMs == t.clockMs && t'.active == t.active
            && (segments != [] ==> t'.pending != [])
            && LastEnd(t'.confirmed) == (if segments == [] then LastEnd(t.confirmed) else LastEnd(segments))
  {
    if segments == [] {
      assert t.confirmed + segments == t.confirmed;
    } else {
      var n := |segments| - 1;
      AcceptAllFields(p, t, segments[..n]);
      assert (t.confirmed + segments[..n]) + [segments[n]] == t.confirmed + segments;
      LastEndAppend(t.confirmed + segments[..n], segments[n]);
    }
  }

  // Accepting a whole report.  Only its first interval can meet a finalised
  // segment, and the contract keeps it apart.
  lemma {:induction false} AcceptAllInv(p: Policy, lagMs: nat, t: Track, segments: seq<Segment>)
    requires MergeInv(p, lagMs, t) && Distant(p, lagMs, t) && 0 <= LastEnd(t.confirmed)
    requires Ordered(segments)
    requires forall i :: 0 <= i < |segments| ==>
               LastEnd(t.confirmed) <= segments[i].start && Fresh(t, lagMs, segments[i].start)
    ensures MergeInv(p, lagMs, AcceptAll(p, t, segments))
  {
    if segments != [] {
      var n := |segments| - 1;
      var front, s := segments[..n], segments[n];
      FrontOrdered(segments);
      AcceptAllInv(p, lagMs, t, front);
      AcceptAllFields(p, t, front);
      if front == [] && t.pending == [] && t.finalised != [] {
        assert t.All() != [];
        FreshIsApart(p, lagMs, t, s);
      }
      var t1 := AcceptAll(p, t, front);
      assert LastEnd(t1.confirmed) <= s.start;
      AcceptInv(p, lagMs, t1, s);
    }
  }

  // The invariant looks only at the list, the history and the pending tail.
  lemma SameListInv(p: Policy, lagMs: nat, t: Track, t': Track)
    requires MergeInv(p, lagMs, t)
    requires t'.All() == t.All() && t'.confirmed == t.confirmed && t'.cover == t.cover
    requires AllApart(t'.pending, EffectiveGap(p))
    ensures MergeInv(p, lagMs, t')
  {
  }

  lemma SuffixApart(segments: seq<Segment>, k: nat, gap: int)
    requires AllApart(segments, gap) && k <= |segments|
    ensures AllApart(segments[k..], gap)
  {
    forall i: nat | i + 1 < |segments[k..]|
      ensures WideAt(segments[k..], i, gap)
    {
      assert WideAt(segments, k + i, gap);
    }
  }

  lemma MoveFrontInv(p: Policy, lagMs: nat, t: Track, k: nat)
    requires MergeInv(p, lagMs, t) && k <= |t.pending|
    ensures MergeInv(p, lagMs, MoveFront(t, k)) && MoveFront(t, k).All() == t.All()
  {
    assert t.pending == t.pending[..k] + t.pending[k..];
    assert MoveFront(t, k).All() == t.All();
    SuffixApart(t.pending, k, EffectiveGap(p));
    SameListInv(p, lagMs, t, MoveFront(t, k));
  }

  lemma FlushMergeInv(p: Policy, lagMs: nat, t: Track, force: bool)
    requires MergeInv(p, lagMs, t)
    ensures MergeInv(p, lagMs, Flush(p, t, force))
    ensures Flush(p, t, force).All() == t.All()
  {
    MoveFrontInv(p, lagMs, t, FlushCount(p, t.pending, force, t.clockMs, t.active));
  }

  // A segment flushed by policy is far from any speech still to come.
  lemma FlushDistant(p: Policy, lagMs: nat, t: Track)
    requires t.pending == [] ==> Distant(p, lagMs, t)
    requires forall i :: 0 <= i < |t.pending| ==> t.pending[i].end <= t.clockMs
    ensures Distant(p, lagMs, Flush(p, t, false))
  {
    var k := FlushCount(p, t.pending, false, t.clockMs, t.active);
    if k > 0 {
      FlushCountSpec(p, t.pending, false, t.clockMs, t.active, k - 1);
      assert (t.finalised + t.pending[..k])[|t.finalised| + k - 1] == t.pending[k - 1];
    }
  }

  lemma BelowLast(t: Track, clockMs: int)
    requires Ordered(t.All()) && LastEnd(t.All()) <= clockMs
    ensures forall i :: 0 <= i < |t.pending| ==> t.pending[i].end <= clockMs
  {
    LastIsLargest(t.All());
    assert forall i :: 0 <= i < |t.pending| ==> t.pending[i] == t.All()[|t.finalised| + i];
  }

  lemma NonnegativeEnd(t: Track)
    requires Ordered(t.confirmed) && (t.confirmed != [] ==> t.confirmed[0].start >= 0)
    ensures 0 <= LastEnd(t.confirmed)
  {
    if t.confirmed != [] {
      assert Proper(t.confirmed, 0);
      LastIsLargest(t.confirmed);
    }
  }

  lemma ReportInv(p: Policy, lagMs: nat, t: Track, segments: seq<Segment>, clockMs: int, active: Option<int>)
    requires TrackInv(p, lagMs, t) && VadStep(t, lagMs, segments, clockMs, active)
    ensures MergeInv(p, lagMs, Report(AcceptAll(p, t, segments), clockMs, active))
  {
    NonnegativeEnd(t);
    AcceptAllInv(p, lagMs, t, segments);
    var accepted := AcceptAll(p, t, segments);
    SameListInv(p, lagMs, accepted, Report(accepted, clockMs, active));
  }

  lemma ReportDistant(p: Policy, lagMs: nat, t: Track, clockMs: int, active: Option<int>)
    requires Distant(p, lagMs, t) && t.clockMs <= clockMs && (active.Some? ==> Fresh(t, lagMs, active.value))
    requires t.confirmed == [] ==> t.finalised == []
    ensures Distant(p, lagMs, Report(t, clockMs, active))
  {
  }

  // The clock and the open speech stay after everything confirmed.
  lemma LockClock(p: Policy, lagMs: nat, t: Track, segments: seq<Segment>, clockMs: int, active: Option<int>)
    requires LastEnd(t.confirmed) <= t.clockMs && VadStep(t, lagMs, segments, clockMs, active)
    ensures var t' := Lock(p, t, segments, clockMs, active);
            && t'.confirmed == t.confirmed + segments && LastEnd(t'.confirmed) <= t'.clockMs
            && (t'.active.Some? ==> LastEnd(t'.confirmed) <= t'.active.value)
  {
    AcceptAllFields(p, t, segments);
  }

  lemma LockDistant(p: Policy, lagMs: nat, t: Track, segments: seq<Segment>, clockMs: int, active: Option<int>)
    requires Distant(p, lagMs, t) && VadStep(t, lagMs, segments, clockMs, active)
    requires t.confirmed == [] ==> t.finalised == []
    requires forall s :: s in AcceptAll(p, t, segments).pending ==> s.end <= clockMs
    ensures Distant(p, lagMs, Lock(p, t, segments, clockMs, active))
  {
    AcceptAllFields(p, t, segments);
    if segments == [] {
      ReportDistant(p, lagMs, t, clockMs, active);
    }
    FlushDistant(p, lagMs, Report(AcceptAll(p, t, segments), clockMs, active));
  }

  lemma LockInv(p: Policy, lagMs: nat, t: Track, segments: seq<Segment>, clockMs: int, active: Option<int>)
    requires TrackInv(p, lagMs, t) && VadStep(t, lagMs, segments, clockMs, active)
    ensures TrackInv(p, lagMs, Lock(p, t, segments, clockMs, active))
    ensures Lock(p, t, segments, clockMs, active).confirmed == t.confirmed + segments
  {
    ReportInv(p, lagMs, t, segments, clockMs, active);
    var t' := Report(AcceptAll(p, t, segments), clockMs, active);
    FlushMergeInv(p, lagMs, t', false);
    LockClock(p, lagMs, t, segments, clockMs, active);
    BelowLast(t', clockMs);
    assert t.finalised != [] ==> t.All() != [];
    LockDistant(p, lagMs, t, segments, clockMs, active);
  }

  // An unforced flush takes segments that need not wait, up to the first that
  // must.
  lemma FlushTakesDue(p: Policy, t: Track)
    requires Ordered(t.pending) && LastEnd(t.pending) <= t.clockMs
    ensures var t' := Flush(p, t, false);
            && t.finalised <= t'.finalised
            && NothingDue(p, t'.pending, t.clockMs, t.active)
            && forall i :: |t.finalised| <= i < |t'.finalised| ==>
                 !MustWait(p, t'.finalised[i], t.clockMs, t.active)
  {
    var t' := Flush(p, t, false);
    var k, f := FlushCount(p, t.pending, false, t.clockMs, t.active), |t.finalised|;
    forall i: nat | i < |t.pending| && i <= k
      ensures MustWait(p, t.pending[i], t.clockMs, t.active) <==> i == k
    {
      FlushCountSpec(p, t.pending, false, t.clockMs, t.active, i);
      var last := |t.pending| - 1;
      assert Proper(t.pending, i) && Proper(t.pending, last) && (i < last ==> Precedes(t.pending, i, last));
      FlushIffDue(p, t.pending[i], t.clockMs, t.active);
    }
    forall i | f <= i < |t'.finalised|
      ensures !MustWait(p, t'.finalised[i], t.clockMs, t.active)
    {
      assert t'.finalised[i] == t.pending[i - f];
    }
  }

  // After every report the front of the queue must wait, and what the report
  // finalised need not.
  lemma LockFlushesDue(p: Policy, lagMs: nat, t: Track, segments: seq<Segment>, clockMs: int, active: Option<int>)
    requires TrackInv(p, lagMs, t) && VadStep(t, lagMs, segments, clockMs, active)
    ensures var t' := Lock(p, t, segments, clockMs, active);
            && t.finalised <= t'.finalised
            && NothingDue(p, t'.pending, clockMs, active)
            && forall i :: |t.finalised| <= i < |t'.finalised| ==> !MustWait(p, t'.finalised[i], clockMs, active)
  {
    var u := Report(AcceptAll(p, t, segments), clockMs, active);
    ReportInv(p, lagMs, t, segments, clockMs, active);
    AcceptAllFields(p, t, segments);
    PendingOrdered(u);
    if u.pending != [] {
      assert u.All()[|u.All()| - 1] == u.pending[|u.pending| - 1];
    } else {
      NonnegativeEnd(t);
    }
    FlushTakesDue(p, u);
  }

  // Over whole runs: a segment is pending only as long as it must.
  lemma RunFlushesDue(p: Policy, lagMs: nat, calls: seq<Call>)
    requires Contract(p, lagMs, calls) && calls != []
    ensures var t, before, call := Run(p, calls), Run(p, calls[..|calls| - 1]), calls[|calls| - 1];
            && before.finalised <= t.finalised
            && NothingDue(p, t.pending, call.clockMs, call.active)
            && forall i :: |before.finalised| <= i < |t.finalised| ==>
                 !MustWait(p, t.finalised[i], call.clockMs, call.active)
  {
    var front, call := calls[..|calls| - 1], calls[|calls| - 1];
    RunInv(p, lagMs, front);
    LockFlushesDue(p, lagMs, Run(p, front), call.segments, call.clockMs, call.active);
  }

  // Speech still open at finish() is confirmed up to the end of the audio.
  function OpenTail(t: Track): seq<Segment>
  {
    if t.active.Some? && t.active.value < t.clockMs then [Segment(t.active.value, t.clockMs)] else []
  }

  function CloseOpen(p: Policy, t: Track): Track
  {
    if t.active.Some? then Lock(p, t, OpenTail(t), t.clockMs, t.active) else t
  }

  lemma CloseOpenInv(p: Policy, lagMs: nat, t: Track)
    requires TrackInv(p, lagMs, t)
    ensures MergeInv(p, lagMs, CloseOpen(p, t)) && CloseOpen(p, t).confirmed == t.confirmed + OpenTail(t)
    ensures CloseOpen(p, t).All() == AcceptAll(p, t, OpenTail(t)).All()
  {
    var tail := OpenTail(t);
    NonnegativeEnd(t);
    AcceptAllInv(p, lagMs, t, tail);
    AcceptAllFields(p, t, tail);
    var accepted := AcceptAll(p, t, tail);
    SameListInv(p, lagMs, accepted, Report(accepted, t.clockMs, t.active));
    FlushMergeInv(p, lagMs, Report(accepted, t.clockMs, t.active), false);
  }

  lemma FlushAll(p: Policy, t: Track)
    ensures Flush(p, t, true).pending == []
  {
    var k := FlushCount(p, t.pending, true, t.clockMs, t.active);
    if k < |t.pending| {
      FlushCountSpec(p, t.pending, true, t.clockMs, t.active, k);
    }
  }

  // finish(): nothing stays pending and nothing is lost.
  lemma FinishInv(p: Policy, lagMs: nat, t: Track)
    requires TrackInv(p, lagMs, t)
    ensures MergeInv(p, lagMs, Finish(p, t)) && Finish(p, t).pending == []
    ensures Finish(p, t).confirmed == t.confirmed + OpenTail(t)
    ensures Finish(p, t).confirmed == t.confirmed
      + if t.active.Some? && t.active.value < t.clockMs then [Segment(t.active.value, t.clockMs)] else []
    ensures Finish(p, t).finalised == AcceptAll(p, t, OpenTail(t)).All()
  {
    CloseOpenInv(p, lagMs, t);
    var closed := CloseOpen(p, t);
    var quiet := Report(closed, closed.clockMs, None);
    SameListInv(p, lagMs, closed, quiet);
    FlushMergeInv(p, lagMs, quiet, true);
    FlushAll(p, quiet);
    assert Finish(p, t).finalised == Finish(p, t).All();
  }

  // ------------------------------------------------- steps of the loops

  lemma {:induction false} AcceptAllPending(p: Policy, t: Track, segments: seq<Segment>)
    ensures AcceptAll(p, t, segments).pending == EnqueueAll(t.pending, segments, EffectiveGap(p))
  {
    if segments != [] {
      AcceptAllPending(p, t, segments[..|segments| - 1]);
    }
  }

  // What the flush loop needs of the list, flushed or not.
  predicate ListOk(t: Track)
  {
    Ordered(t.All()) && (t.All() != [] ==> t.All()[0].start >= 0)
  }

  lemma MergeListOk(p: Policy, lagMs: nat, t: Track)
    requires MergeInv(p, lagMs, t)
    ensures ListOk(t)
  {
  }

  lemma MoveFrontListOk(t: Track, k: nat)
    requires ListOk(t) && k <= |t.pending|
    ensures ListOk(MoveFront(t, k)) && MoveFront(t, k).All() == t.All()
  {
    assert t.pending == t.pending[..k] + t.pending[k..];
    assert MoveFront(t, k).All() == t.All();
  }

  // Everything in the list is nonempty and begins at or after time zero.
  lemma ListNonnegative(t: Track)
    requires ListOk(t)
    ensures forall i :: 0 <= i < |t.All()| ==> 0 <= t.All()[i].start < t.All()[i].end
    ensures Ordered(t.finalised) && Ordered(t.pending)
    ensures 0 <= LastEnd(t.finalised)
    ensures t.pending != [] ==> LastEnd(t.finalised) <= t.pending[0].start
  {
    var all, f := t.All(), |t.finalised|;
    PendingOrdered(t);
    forall i | 0 <= i < |all|
      ensures 0 <= all[i].start < all[i].end
    {
      assert Proper(all, i);
      if i > 0 {
        assert Proper(all, 0) && Precedes(all, 0, i);
      }
    }
    if t.finalised != [] {
      assert all[f - 1] == t.finalised[f - 1];
      assert t.pending != [] ==> Precedes(all, f - 1, f);
    }
  }

  // -------------------------------------------------------------- whole runs

  // One call of _lock_confirmed_segments with what the VAD reported before it.
  datatype Call = Call(segments: seq<Segment>, clockMs: int, active: Option<int>)

  function Run(p: Policy, calls: seq<Call>): Track
  {
    if calls == [] then EmptyTrack
    else
      var last := calls[|calls| - 1];
      Lock(p, Run(p, calls[..|calls| - 1]), last.segments, last.clockMs, last.active)
  }

  predicate Contract(p: Policy, lagMs: nat, calls: seq<Call>)
  {
    calls == [] ||
    var last := calls[|calls| - 1];
    && Contract(p, lagMs, calls[..|calls| - 1])
    && VadStep(Run(p, calls[..|calls| - 1]), lagMs, last.segments, last.clockMs, last.active)
  }

  lemma {:induction false} RunInv(p: Policy, lagMs: nat, calls: seq<Call>)
    requires Contract(p, lagMs, calls)
    ensures TrackInv(p, lagMs, Run(p, calls))
  {
    if calls == [] {
      EmptyTrackInv(p, lagMs);
    } else {
      var front, last := calls[..|calls| - 1], calls[|calls| - 1];
      RunInv(p, lagMs, front);
      LockInv(p, lagMs, Run(p, front), last.segments, last.clockMs, last.active);
    }
  }

  // ------------------------------------------------------------ main results

  // Every confirmed interval lies inside exactly one segment of the list.
  lemma InExactlyOneSegment(p: Policy, lagMs: nat, t: Track, c: nat)
    requires MergeInv(p, lagMs, t) && c < |t.confirmed|
    ensures t.cover[c] < |t.All()| && Inside(t.confirmed[c], t.All()[t.cover[c]])
    ensures forall i :: 0 <= i < |t.All()| && Inside(t.confirmed[c], t.All()[i]) ==> i == t.cover[c]
  {
    var all, j := t.All(), t.cover[c];
    assert InBlock(all, t.confirmed, t.cover, c) && Proper(t.confirmed, c);
    forall i | 0 <= i < |all| && i != j
      ensures !Inside(t.confirmed[c], all[i])
    {
      assert Inside(t.confirmed[c], all[j]);
      if i < j {
        assert Precedes(all, i, j);
      } else {
        assert Precedes(all, j, i);
      }
    }
  }

  // After finish() every interval is in a finalised segment.
  lemma FinishedRunConserves(p: Policy, lagMs: nat, calls: seq<Call>)
    requires Contract(p, lagMs, calls)
    ensures var t := Finish(p, Run(p, calls));
            && t.pending == [] && Ordered(t.finalised)
            && Conserves(p, t.finalised, t.confirmed, t.cover)
            && Boundaries(p, lagMs, t.finalised)
  {
    RunInv(p, lagMs, calls);
    FinishInv(p, lagMs, Run(p, calls));
    var t := Finish(p, Run(p, calls));
    assert t.All() == t.finalised;
  }

  lemma {:induction false} BatchShape(segments: seq<Segment>, gap: int)
    requires Ordered(segments)
    ensures Ordered(Batch(segments, gap)) && AllApart(Batch(segments, gap), gap)
    ensures LastEnd(Batch(segments, gap)) == LastEnd(segments)
    ensures Batch(segments, gap) == [] <==> segments == []
  {
    if segments != [] {
      var n := |segments| - 1;
      var front, s := segments[..n], segments[n];
      FrontOrdered(segments);
      BatchShape(front, gap);
      var merged := Batch(front, gap);
      if front != [] {
        GrowPending(merged, s, gap);
        GrowOrdered(merged, s);
      } else {
        assert Batch(segments, gap) == [s];
      }
    }
  }

  lemma BatchIffApart(p: Policy, lagMs: nat, t: Track)
    requires MergeInv(p, lagMs, t)
    ensures t.All() == Batch(t.confirmed, EffectiveGap(p)) <==> AllApart(t.All(), EffectiveGap(p))
  {
    BatchShape(t.confirmed, EffectiveGap(p));
  }

  // A report that should have been merged into a segment already finalised: the
  // queue is empty, and the first interval is within the merge gap of that segment.
  predicate Rejoins(p: Policy, t: Track, segments: seq<Segment>)
  {
    t.pending == [] && t.finalised != [] && segments != []
    && segments[0].start - LastEnd(t.finalised) <= EffectiveGap(p)
  }

  lemma AppendApart(all: seq<Segment>, s: Segment, gap: int)
    ensures AllApart(all + [s], gap) <==> AllApart(all, gap) && (all == [] || s.start - LastEnd(all) > gap)
  {
    var more, n := all + [s], |all|;
    forall i: nat | i + 1 < n
      ensures WideAt(all, i, gap) <==> WideAt(more, i, gap)
    {
    }
    if AllApart(more, gap) {
      forall i: nat | i + 1 < n
        ensures WideAt(all, i, gap)
      {
        assert WideAt(more, i, gap);
      }
      assert n > 0 ==> WideAt(more, n - 1, gap);
    }
  }

  lemma ExtendApart(all: seq<Segment>, endMs: int, gap: int)
    requires all != []
    ensures var n := |all| - 1;
            AllApart(all[n := Segment(all[n].start, endMs)], gap) <==> AllApart(all, gap)
  {
    var n := |all| - 1;
    var longer := all[n := Segment(all[n].start, endMs)];
    if AllApart(longer, gap) {
      forall i: nat | i + 1 < |all|
        ensures WideAt(all, i, gap)
      {
        assert WideAt(longer, i, gap);
      }
    } else {
      var i: nat :| i + 1 < |all| && !WideAt(longer, i, gap);
      assert !WideAt(all, i, gap);
    }
  }

  lemma AcceptApart(p: Policy, t: Track, s: Segment)
    requires Ordered(t.All()) && LastEnd(t.All()) <= s.start < s.end
    ensures AllApart(Accept(p, t, s).All(), EffectiveGap(p))
       <==> AllApart(t.All(), EffectiveGap(p)) && !Rejoins(p, t, [s])
  {
    AcceptShape(p, t, s);
    if t.pending == [] {
      assert t.All() == t.finalised;
    }
    if t.pending != [] && s.start - LastEnd(t.All()) <= EffectiveGap(p) {
      ExtendApart(t.All(), s.end, EffectiveGap(p));
    } else {
      AppendApart(t.All(), s, EffectiveGap(p));
    }
  }

  // Within a report only the first interval can rejoin a finalised segment.
  lemma {:induction false} AcceptAllApart(p: Policy, lagMs: nat, t: Track, segments: seq<Segment>)
    requires MergeInv(p, lagMs, t) && Distant(p, lagMs, t) && 0 <= LastEnd(t.confirmed)
    requires Ordered(segments)
    requires forall i :: 0 <= i < |segments| ==>
               LastEnd(t.confirmed) <= segments[i].start && Fresh(t, lagMs, segments[i].start)
    ensures AllApart(AcceptAll(p, t, segments).All(), EffectiveGap(p))
       <==> AllApart(t.All(), EffectiveGap(p)) && !Rejoins(p, t, segments)
  {
    if segments != [] {
      var n := |segments| - 1;
      var front, s := segments[..n], segments[n];
      FrontOrdered(segments);
      AcceptAllApart(p, lagMs, t, front);
      AcceptAllInv(p, lagMs, t, front);
      AcceptAllFields(p, t, front);
      AcceptApart(p, AcceptAll(p, t, front), s);
    }
  }

  lemma LockApart(p: Policy, lagMs: nat, t: Track, segments: seq<Segment>, clockMs: int, active: Option<int>)
    requires TrackInv(p, lagMs, t) && VadStep(t, lagMs, segments, clockMs, active)
    ensures AllApart(Lock(p, t, segments, clockMs, active).All(), EffectiveGap(p))
       <==> AllApart(t.All(), EffectiveGap(p)) && !Rejoins(p, t, segments)
  {
    NonnegativeEnd(t);
    AcceptAllApart(p, lagMs, t, segments);
    ReportInv(p, lagMs, t, segments, clockMs, active);
    FlushMergeInv(p, lagMs, Report(AcceptAll(p, t, segments), clockMs, active), false);
  }

  predicate CallRejoins(p: Policy, calls: seq<Call>, k: nat)
    requires k < |calls|
  {
    Rejoins(p, Run(p, calls[..k]), calls[k].segments)
  }

  predicate NoCallRejoins(p: Policy, calls: seq<Call>)
  {
    forall k: nat :: k < |calls| ==> !CallRejoins(p, calls, k)
  }

  lemma NoCallRejoinsSnoc(p: Policy, calls: seq<Call>)
    requires calls != []
    ensures var n := |calls| - 1;
            NoCallRejoins(p, calls)
            <==> NoCallRejoins(p, calls[..n]) && !Rejoins(p, Run(p, calls[..n]), calls[n].segments)
  {
    var n := |calls| - 1;
    var front := calls[..n];
    forall k: nat | k < n
      ensures CallRejoins(p, front, k) <==> CallRejoins(p, calls, k)
    {
      assert front[..k] == calls[..k];
    }
    if NoCallRejoins(p, calls) {
      assert !CallRejoins(p, calls, n);
      forall k: nat | k < n
        ensures !CallRejoins(p, front, k)
      {
        assert !CallRejoins(p, calls, k);
      }
    } else {
      var k: nat :| k < |calls| && CallRejoins(p, calls, k);
      assert k < n ==> CallRejoins(p, front, k);
    }
  }

  lemma {:induction false} RunApartIff(p: Policy, lagMs: nat, calls: seq<Call>)
    requires Contract(p, lagMs, calls)
    ensures AllApart(Run(p, calls).All(), EffectiveGap(p)) <==> NoCallRejoins(p, calls)
  {
    if calls != [] {
      var front, last := calls[..|calls| - 1], calls[|calls| - 1];
      RunApartIff(p, lagMs, front);
      RunInv(p, lagMs, front);
      LockApart(p, lagMs, Run(p, front), last.segments, last.clockMs, last.active);
      NoCallRejoinsSnoc(p, calls);
    }
  }

  // For every lag, incremental merging agrees with merging the whole list in one
  // pass exactly when no call finds the queue empty and its first interval
  // within the merge gap of the last finalised segment.
  lemma IncrementalIsBatchIff(p: Policy, lagMs: nat, calls: seq<Call>)
    requires Contract(p, lagMs, calls)
    ensures Run(p, calls).All() == Batch(Run(p, calls).confirmed, EffectiveGap(p)) <==> NoCallRejoins(p, calls)
  {
    RunInv(p, lagMs, calls);
    RunApartIff(p, lagMs, calls);
    BatchIffApart(p, lagMs, Run(p, calls));
  }

  // The same after finish(), which confirms open speech as one more report.
  lemma FinishIsBatchIff(p: Policy, lagMs: nat, calls: seq<Call>)
    requires Contract(p, lagMs, calls)
    ensures var t := Run(p, calls);
            Finish(p, t).finalised == Batch(Finish(p, t).confirmed, EffectiveGap(p))
            <==> NoCallRejoins(p, calls) && !Rejoins(p, t, OpenTail(t))
  {
    RunInv(p, lagMs, calls);
    RunApartIff(p, lagMs, calls);
    FinishApart(p, lagMs, Run(p, calls));
  }

  lemma FinishApart(p: Policy, lagMs: nat, t: Track)
    requires TrackInv(p, lagMs, t)
    ensures Finish(p, t).finalised == Batch(Finish(p, t).confirmed, EffectiveGap(p))
       <==> AllApart(t.All(), EffectiveGap(p)) && !Rejoins(p, t, OpenTail(t))
  {
    NonnegativeEnd(t);
    AcceptAllApart(p, lagMs, t, OpenTail(t));
    FinishInv(p, lagMs, t);
    assert Finish(p, t).All() == Finish(p, t).finalised;
    BatchIffApart(p, lagMs, Finish(p, t));
  }

  // Without lag, and as long as no segment has been cut at the maximum length,
  // a run agrees with batch merging at every moment.
  lemma IncrementalIsBatch(p: Policy, calls: seq<Call>)
    requires Contract(p, 0, calls)
    requires forall i :: 0 <= i < |Run(p, calls).finalised| ==> Duration(Run(p, calls).finalised[i]) < p.maxFinalMs
    ensures Run(p, calls).All() == Batch(Run(p, calls).confirmed, EffectiveGap(p))
  {
    RunInv(p, 0, calls);
    FinalisedApart(p, Run(p, calls));
    BatchIffApart(p, 0, Run(p, calls));
  }

  lemma FinalisedApart(p: Policy, t: Track)
    requires MergeInv(p, 0, t)
    requires forall i :: 0 <= i < |t.finalised| ==> Duration(t.finalised[i]) < p.maxFinalMs
    ensures AllApart(t.All(), EffectiveGap(p))
  {
    var all, f := t.All(), |t.finalised|;
    forall i: nat | i + 1 < |all|
      ensures WideAt(all, i, EffectiveGap(p))
    {
      assert ApartAt(p, 0, all, i);
      if i >= f {
        assert WideAt(t.pending, i - f, EffectiveGap(p));
      }
    }
  }

  predicate ShortAt(p: Policy, segments: seq<Segment>, i: nat)
    requires i < |segments|
  {
    Duration(segments[i]) < p.maxFinalMs
  }

  // No segment with a successor was cut at the maximum length.
  predicate NoneMaximal(p: Policy, segments: seq<Segment>)
  {
    forall i: nat :: i + 1 < |segments| ==> ShortAt(p, segments, i)
  }

  lemma ShortAreApart(p: Policy, segments: seq<Segment>)
    requires Boundaries(p, 0, segments)
    requires NoneMaximal(p, segments)
    ensures AllApart(segments, EffectiveGap(p))
  {
    forall i: nat | i + 1 < |segments|
      ensures WideAt(segments, i, EffectiveGap(p))
    {
      assert ApartAt(p, 0, segments, i) && ShortAt(p, segments, i);
    }
  }

  // So after finish() the finalised segments are those of one pass over
  // everything the VAD confirmed.
  lemma FinishedIsBatch(p: Policy, calls: seq<Call>)
    requires Contract(p, 0, calls) && NoneMaximal(p, Finish(p, Run(p, calls)).finalised)
    ensures var t := Finish(p, Run(p, calls));
            t.pending == [] && t.finalised == Batch(t.confirmed, EffectiveGap(p))
  {
    RunInv(p, 0, calls);
    FinishInv(p, 0, Run(p, calls));
    var t := Finish(p, Run(p, calls));
    assert t.All() == t.finalised;
    ShortAreApart(p, t.finalised);
    BatchIffApart(p, 0, t);
  }

  // A lag of one millisecond is enough to break the agreement: speech that
  // starts at the very end of the audio seen so far is split off although the
  // gap does not exceed the merge gap.
  const Defaults := Policy(16000, 350, 800, 1200, 2500, 12000)
  const Early := Segment(0, 3000)
  const Late := Segment(5000, 6000)
  const EarlyCall := Call([Early], 5000, None)
  const LateCall := Call([Late], 6000, None)

  lemma AcceptOne(p: Policy, t: Track, s: Segment)
    ensures AcceptAll(p, t, [s]) == Accept(p, t, s)
  {
    assert [s][..0] == [];
  }

  lemma FlushOne(p: Policy, t: Track, s: Segment)
    requires t.pending == [s] && ShouldFlush(p, s, false, t.clockMs, t.active)
    ensures Flush(p, t, false) == t.(finalised := t.finalised + [s], pending := [])
  {
    assert [s][1..] == [] && [s][..1] == [s];
  }

  lemma RunAppend(p: Policy, lagMs: nat, calls: seq<Call>, call: Call)
    ensures Run(p, calls + [call]) == Lock(p, Run(p, calls), call.segments, call.clockMs, call.active)
    ensures Contract(p, lagMs, calls + [call])
       <==> Contract(p, lagMs, calls) && VadStep(Run(p, calls), lagMs, call.segments, call.clockMs, call.active)
  {
    assert (calls + [call])[..|calls|] == calls;
  }

  lemma LockEarly()
    ensures VadStep(EmptyTrack, 1, [Early], 5000, None)
    ensures Lock(Defaults, EmptyTrack, [Early], 5000, None) == Track([Early], [], [Early], [0], 5000, None)
  {
    AcceptOne(Defaults, EmptyTrack, Early);
    FlushOne(Defaults, Track([], [Early], [Early], [0], 5000, None), Early);
  }

  lemma LagFirstCall(calls: seq<Call>)
    requires calls == [EarlyCall]
    ensures Contract(Defaults, 1, calls)
    ensures Run(Defaults, calls) == Track([Early], [], [Early], [0], 5000, None)
  {
    assert calls == [] + [EarlyCall];
    RunAppend(Defaults, 1, [], EarlyCall);
    LockEarly();
  }

  lemma LockLate(t: Track)
    requires t == Track([Early], [], [Early], [0], 5000, None)
    ensures VadStep(t, 1, [Late], 6000, None)
    ensures Lock(Defaults, t, [Late], 6000, None) == Track([Early], [Late], [Early, Late], [0, 1], 6000, None)
  {
    AcceptOne(Defaults, t, Late);
    assert !ShouldFlush(Defaults, Late, false, 6000, None);
  }

  lemma LagSecondCall(calls: seq<Call>)
    requires calls == [EarlyCall, LateCall]
    ensures Contract(Defaults, 1, calls)
    ensures Run(Defaults, calls) == Track([Early], [Late], [Early, Late], [0, 1], 6000, None)
  {
    assert calls == calls[..1] + [LateCall];
    LagFirstCall(calls[..1]);
    RunAppend(Defaults, 1, calls[..1], LateCall);
    LockLate(Run(Defaults, calls[..1]));
  }

  lemma LagBatch()
    ensures Batch([Early, Late], 2000) == [Segment(0, 6000)]
  {
    EnqueueAllAppend([], [], Early, 2000);
    assert [] + [Early] == [Early];
    EnqueueAllAppend([], [Early], Late, 2000);
    assert [Early] + [Late] == [Early, Late];
  }

  lemma LagSplitsWhatBatchMerges(calls: seq<Call>)
    requires calls == [EarlyCall, LateCall]
    ensures Contract(Defaults, 1, calls)
    ensures Run(Defaults, calls).All() == [Early, Late]
    ensures Batch(Run(Defaults, calls).confirmed, EffectiveGap(Defaults)) == [Segment(0, 6000)]
  {
    LagSecondCall(calls);
    LagBatch();
  }
}
