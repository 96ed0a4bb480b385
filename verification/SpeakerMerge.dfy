// Giving timed tokens to speakers and merging them into sentences.

module SpeakerMerge {
  import opened Arithmetic
  import opened Wrappers
  import opened StableSort
  import opened TextAlignment

  datatype SpeakerSegment = SpeakerSegment(start: real, end: real, speaker: int)

  datatype Sentence = Sentence(text: string, start: int, end: int, speaker: int, details: Option<seq<Stamp>>)

  function Distance(a: real, b: real): (d: real)
    ensures d >= 0.0 && (d == a - b || d == b - a)
  {
    if a < b then b - a else a - b
  }

  // int(x), which truncates toward zero.
  function Truncated(x: real): (i: int)
    ensures x >= 0.0 ==> 0.0 <= i as real <= x < i as real + 1.0
    ensures x < 0.0 ==> i as real - 1.0 < x <= i as real <= 0.0
  {
    if x >= 0.0 then x.Floor else -(-x).Floor
  }

  // Speaker segments and tokens are taken in the order of their starts, then of
  // their ends.
  predicate SegmentFirst(a: SpeakerSegment, b: SpeakerSegment)
  {
    a.start < b.start || (a.start == b.start && a.end <= b.end)
  }

  lemma SegmentsInOrder(segments: seq<SpeakerSegment>)
    ensures var ordered := Sort(segments, SegmentKey);
            && multiset(ordered) == multiset(segments)
            && forall i: nat, j: nat :: i < j < |ordered| ==> SegmentFirst(ordered[i], ordered[j])
  {
    SortIsStable(segments, SegmentKey);
    SortPermutes(segments, SegmentKey);
    var ordered := Sort(segments, SegmentKey);
    forall i: nat, j: nat | i < j < |ordered|
      ensures SegmentFirst(ordered[i], ordered[j])
    {
      assert SortedAt(ordered, SegmentKey, i, j);
    }
  }

  predicate TokenFirst(a: Token, b: Token)
  {
    a.start < b.start || (a.start == b.start && a.end <= b.end)
  }

  lemma TokensInOrder(units: seq<Token>)
    ensures var ordered := Sort(units, TokenKey);
            && multiset(ordered) == multiset(units)
            && forall i: nat, j: nat :: i < j < |ordered| ==> TokenFirst(ordered[i], ordered[j])
  {
    SortIsStable(units, TokenKey);
    SortPermutes(units, TokenKey);
    var ordered := Sort(units, TokenKey);
    forall i: nat, j: nat | i < j < |ordered|
      ensures TokenFirst(ordered[i], ordered[j])
    {
      assert SortedAt(ordered, TokenKey, i, j);
    }
  }

  // ----------------------------------------------------- the best speaker

  function Overlap(start: int, end: int, s: SpeakerSegment): real
  {
    MinReal(end as real, s.end) - MaxReal(start as real, s.start)
  }

  // A moment of both ranges.
  predicate Common(start: int, end: int, s: SpeakerSegment, t: real)
  {
    start as real <= t <= end as real && s.start <= t <= s.end
  }

  // The overlap is the time from the first to the last moment in common.
  lemma OverlapIsCommon(start: int, end: int, s: SpeakerSegment, first: real, last: real)
    requires Common(start, end, s, first) && Common(start, end, s, last)
    requires forall t: real :: Common(start, end, s, t) ==> first <= t <= last
    ensures Overlap(start, end, s) == last - first
  {
    assert Common(start, end, s, MaxReal(start as real, s.start));
    assert Common(start, end, s, MinReal(end as real, s.end));
  }

  // Without such a moment it is not positive.
  lemma NoOverlap(start: int, end: int, s: SpeakerSegment)
    requires start <= end && s.start <= s.end && forall t: real :: !Common(start, end, s, t)
    ensures Overlap(start, end, s) <= 0.0
  {
    assert !Common(start, end, s, MaxReal(start as real, s.start));
  }

  function FromMidpoint(start: int, end: int, s: SpeakerSegment): real
  {
    var midpoint := (start + end) as real / 2.0;
    MinReal(Distance(midpoint, s.start), Distance(midpoint, s.end))
  }

  datatype Best = Best(overlap: real, index: Option<nat>)

  function BestOf(start: int, end: int, segments: seq<SpeakerSegment>): Best
  {
    if segments == [] then Best(-1.0, None)
    else
      var n := |segments| - 1;
      var b := BestOf(start, end, segments[..n]);
      if Overlap(start, end, segments[n]) > b.overlap then Best(Overlap(start, end, segments[n]), Some(n)) else b
  }

  function Nearest(start: int, end: int, segments: seq<SpeakerSegment>): (i: nat)
    requires segments != []
    ensures i < |segments|
  {
    var n := |segments| - 1;
    if n == 0 then 0
    else
      var i := Nearest(start, end, segments[..n]);
      if FromMidpoint(start, end, segments[n]) < FromMidpoint(start, end, segments[i]) then n else i
  }

  lemma {:induction false} BestInRange(start: int, end: int, segments: seq<SpeakerSegment>)
    ensures var b := BestOf(start, end, segments);
            b.index.Some? ==> b.index.value < |segments|
  {
    if segments != [] {
      BestInRange(start, end, segments[..|segments| - 1]);
    }
  }

  function SpeakerFor(start: int, end: int, segments: seq<SpeakerSegment>): int
  {
    BestInRange(start, end, segments);
    var b := BestOf(start, end, segments);
    if b.index.Some? && b.overlap > 0.0 then segments[b.index.value].speaker
    else if segments != [] then segments[Nearest(start, end, segments)].speaker
    else 0
  }

  method SpeakerForTimeRange(start: int, end: int, segments: seq<SpeakerSegment>) returns (speaker: int)
    ensures speaker == SpeakerFor(start, end, segments)
  {
    var best: Option<nat> := None;
    var bestOverlap := -1.0;
    for i := 0 to |segments|
      invariant Best(bestOverlap, best) == BestOf(start, end, segments[..i])
      invariant best.Some? ==> best.value < i
    {
      assert segments[..i + 1][..i] == segments[..i];
      var overlap := Overlap(start, end, segments[i]);
      if overlap > bestOverlap {
        bestOverlap := overlap;
        best := Some(i);
      }
    }
    assert segments[..|segments|] == segments;
    if best.Some? && bestOverlap > 0.0 {
      return segments[best.value].speaker;
    }
    if segments != [] {
      return segments[Nearest(start, end, segments)].speaker;
    }
    return 0;
  }

  // The first segment with the largest overlap.
  predicate OverlapsMost(start: int, end: int, segments: seq<SpeakerSegment>, i: nat)
  {
    && i < |segments|
    && forall j :: 0 <= j < |segments| ==>
         && Overlap(start, end, segments[j]) <= Overlap(start, end, segments[i])
         && (j < i ==> Overlap(start, end, segments[j]) < Overlap(start, end, segments[i]))
  }

  // The first segment with an endpoint closest to the middle of the range.
  predicate IsNearest(start: int, end: int, segments: seq<SpeakerSegment>, i: nat)
  {
    && i < |segments|
    && forall j :: 0 <= j < |segments| ==>
         && FromMidpoint(start, end, segments[i]) <= FromMidpoint(start, end, segments[j])
         && (j < i ==> FromMidpoint(start, end, segments[i]) < FromMidpoint(start, end, segments[j]))
  }

  lemma {:induction false} BestOverlapsMost(start: int, end: int, segments: seq<SpeakerSegment>)
    ensures var b := BestOf(start, end, segments);
            match b.index
            case Some(i) =>
              OverlapsMost(start, end, segments, i) && b.overlap == Overlap(start, end, segments[i]) > -1.0
            case None =>
              b.overlap == -1.0 && forall j :: 0 <= j < |segments| ==> Overlap(start, end, segments[j]) <= -1.0
  {
    if segments != [] {
      BestOverlapsMost(start, end, segments[..|segments| - 1]);
    }
  }

  lemma {:induction false} NearestIsNearest(start: int, end: int, segments: seq<SpeakerSegment>)
    requires segments != []
    ensures IsNearest(start, end, segments, Nearest(start, end, segments))
  {
    if |segments| > 1 {
      NearestIsNearest(start, end, segments[..|segments| - 1]);
    }
  }

  // Who speaks: the segment of largest overlap if any overlaps, else the one
  // with the nearest endpoint, else speaker 0.
  ghost predicate IsBestSpeaker(start: int, end: int, segments: seq<SpeakerSegment>, speaker: int)
  {
    if exists j :: 0 <= j < |segments| && Overlap(start, end, segments[j]) > 0.0 then
      exists i: nat :: OverlapsMost(start, end, segments, i) && speaker == segments[i].speaker
    else if segments != [] then
      exists i: nat :: IsNearest(start, end, segments, i) && speaker == segments[i].speaker
    else speaker == 0
  }

  lemma SpeakerForIsBest(start: int, end: int, segments: seq<SpeakerSegment>)
    ensures IsBestSpeaker(start, end, segments, SpeakerFor(start, end, segments))
  {
    BestOverlapsMost(start, end, segments);
    if segments != [] {
      NearestIsNearest(start, end, segments);
    }
  }

  // ------------------------------------------------- the boundary correction

  function SegmentKey(s: SpeakerSegment): SortKey { (s.start, s.end) }

  // A change of speaker strictly inside the range, at position k or later.
  function BoundaryFrom(start: int, end: int, ordered: seq<SpeakerSegment>, k: nat): Option<int>
    requires 1 <= k
    decreases |ordered| - k
  {
    if k >= |ordered| then None
    else if ordered[k - 1].speaker != ordered[k].speaker && start < Truncated(ordered[k].start) < end then
      Some(ordered[k].speaker)
    else BoundaryFrom(start, end, ordered, k + 1)
  }

  function Boundary(start: int, end: int, segments: seq<SpeakerSegment>): Option<int>
  {
    if end - start <= 0 || end - start > 250 then None
    else BoundaryFrom(start, end, Sort(segments, SegmentKey), 1)
  }

  function SpeakerOf(start: int, end: int, segments: seq<SpeakerSegment>): int
  {
    var boundary := Boundary(start, end, segments);
    if boundary.Some? then boundary.value else SpeakerFor(start, end, segments)
  }

  method SpeakerForShortBoundaryToken(start: int, end: int, segments: seq<SpeakerSegment>)
    returns (speaker: Option<int>)
    ensures speaker == Boundary(start, end, segments)
  {
    var duration := end - start;
    if duration <= 0 || duration > 250 {
      return None;
    }
    var ordered := Sort(segments, SegmentKey);
    var k := 1;
    while k < |ordered|
      invariant 1 <= k && BoundaryFrom(start, end, ordered, 1) == BoundaryFrom(start, end, ordered, k)
    {
      var previous, current := ordered[k - 1], ordered[k];
      if previous.speaker != current.speaker {
        var boundary := Truncated(current.start);
        if start < boundary < end {
          return Some(current.speaker);
        }
      }
      k := k + 1;
    }
    return None;
  }

  // The speaker behind the first change inside a short token, else the best one.
  method SpeakerForTimeRangeWithBoundary(start: int, end: int, segments: seq<SpeakerSegment>) returns (speaker: int)
    ensures speaker == SpeakerOf(start, end, segments)
    ensures forall k: nat :: 0 < end - start <= 250 && FirstChange(start, end, Sort(segments, SegmentKey), k) ==>
              speaker == Sort(segments, SegmentKey)[k].speaker
    ensures !(0 < end - start <= 250 && Changes(start, end, Sort(segments, SegmentKey))) ==>
      IsBestSpeaker(start, end, segments, speaker)
  {
    SpeakerOfIsRight(start, end, segments);
    var boundary := SpeakerForShortBoundaryToken(start, end, segments);
    if boundary.Some? {
      return boundary.value;
    }
    speaker := SpeakerForTimeRange(start, end, segments);
  }

  lemma SpeakerOfIsRight(start: int, end: int, segments: seq<SpeakerSegment>)
    ensures forall k: nat :: 0 < end - start <= 250 && FirstChange(start, end, Sort(segments, SegmentKey), k) ==>
              SpeakerOf(start, end, segments) == Sort(segments, SegmentKey)[k].speaker
    ensures !(0 < end - start <= 250 && Changes(start, end, Sort(segments, SegmentKey))) ==>
      IsBestSpeaker(start, end, segments, SpeakerOf(start, end, segments))
  {
    var ordered := Sort(segments, SegmentKey);
    SpeakerForIsBest(start, end, segments);
    BoundaryIff(start, end, segments);
    forall k: nat | 0 < end - start <= 250 && FirstChange(start, end, ordered, k)
      ensures SpeakerOf(start, end, segments) == ordered[k].speaker
    {
      BoundaryIsFirst(start, end, ordered, k);
    }
  }

  lemma BoundaryIsFirst(start: int, end: int, ordered: seq<SpeakerSegment>, k: nat)
    requires FirstChange(start, end, ordered, k)
    ensures BoundaryFrom(start, end, ordered, 1) == Some(ordered[k].speaker)
  {
    BoundaryFromIff(start, end, ordered, 1);
    assert ChangesAt(start, end, ordered, k);
    var j: nat :| FirstChangeFrom(start, end, ordered, 1, j)
                  && BoundaryFrom(start, end, ordered, 1).value == ordered[j].speaker;
    assert !(j < k) && !(k < j);
  }

  // The correction applies exactly to tokens of 1 to 250 ms with a change of
  // speaker strictly inside.
  lemma BoundaryIff(start: int, end: int, segments: seq<SpeakerSegment>)
    ensures Boundary(start, end, segments).Some?
       <==> 0 < end - start <= 250 && Changes(start, end, Sort(segments, SegmentKey))
  {
    ChangesIff(start, end, Sort(segments, SegmentKey));
  }

  ghost predicate Changes(start: int, end: int, ordered: seq<SpeakerSegment>)
  {
    exists k: nat :: ChangesAt(start, end, ordered, k)
  }

  lemma ChangesIff(start: int, end: int, ordered: seq<SpeakerSegment>)
    ensures BoundaryFrom(start, end, ordered, 1).Some? <==> Changes(start, end, ordered)
  {
    BoundaryFromIff(start, end, ordered, 1);
  }

  predicate ChangesAt(start: int, end: int, ordered: seq<SpeakerSegment>, k: nat)
  {
    && 1 <= k < |ordered| && ordered[k - 1].speaker != ordered[k].speaker
    && start < Truncated(ordered[k].start) < end
  }

  // The first change at position k or later.
  predicate FirstChangeFrom(start: int, end: int, ordered: seq<SpeakerSegment>, k: nat, j: nat)
  {
    k <= j && ChangesAt(start, end, ordered, j) && forall i: nat :: k <= i < j ==> !ChangesAt(start, end, ordered, i)
  }

  predicate FirstChange(start: int, end: int, ordered: seq<SpeakerSegment>, j: nat)
  {
    FirstChangeFrom(start, end, ordered, 0, j)
  }

  lemma {:induction false} BoundaryFromIff(start: int, end: int, ordered: seq<SpeakerSegment>, k: nat)
    requires 1 <= k
    ensures match BoundaryFrom(start, end, ordered, k)
            case Some(speaker) =>
              exists j: nat :: FirstChangeFrom(start, end, ordered, k, j) && speaker == ordered[j].speaker
            case None => forall j: nat :: k <= j ==> !ChangesAt(start, end, ordered, j)
    decreases |ordered| - k
  {
    if k < |ordered| {
      if ordered[k - 1].speaker != ordered[k].speaker && start < Truncated(ordered[k].start) < end {
        assert FirstChangeFrom(start, end, ordered, k, k);
      } else {
        BoundaryFromIff(start, end, ordered, k + 1);
        assert !ChangesAt(start, end, ordered, k);
        if BoundaryFrom(start, end, ordered, k + 1).Some? {
          var j: nat :| FirstChangeFrom(start, end, ordered, k + 1, j)
                        && BoundaryFrom(start, end, ordered, k + 1).value == ordered[j].speaker;
          assert FirstChangeFrom(start, end, ordered, k, j);
        }
      }
    }
  }

  // ------------------------------------------------------------- the merge

  function TokenKey(t: Token): SortKey { (t.start as real, t.end as real) }

  // Who speaks a token, as a function of the token alone.
  function SpeakerBy(segments: seq<SpeakerSegment>): Token -> int { (t: Token) => SpeakerOf(t.start, t.end, segments) }

  // Lists are joined; otherwise `existing or incoming`.
  function MergeDetails(existing: Option<seq<Stamp>>, incoming: Option<seq<Stamp>>): Option<seq<Stamp>>
  {
    if existing.Some? && incoming.Some? then Some(existing.value + incoming.value)
    else if existing.Some? && existing.value != [] then existing
    else incoming
  }

  function Opened(t: Token, speaker: int): Sentence
  {
    Sentence(t.text, t.start, t.end, speaker, t.details)
  }

  function Extended(s: Sentence, t: Token): Sentence
  {
    s.(text := s.text + t.text, end := t.end, details := MergeDetails(s.details, t.details))
  }

  // One sentence per run of units with the same speaker.
  function Collapse(units: seq<Token>, speaker: Token -> int): (r: seq<Sentence>)
    ensures r == [] <==> units == []
  {
    if units == [] then []
    else
      var n := |units| - 1;
      var front := Collapse(units[..n], speaker);
      if front != [] && front[|front| - 1].speaker == speaker(units[n]) then
        front[|front| - 1 := Extended(front[|front| - 1], units[n])]
      else front + [Opened(units[n], speaker(units[n]))]
  }

  function NonBlank(sentences: seq<Sentence>): seq<Sentence>
  {
    if sentences == [] then []
    else
      var last := sentences[|sentences| - 1];
      NonBlank(sentences[..|sentences| - 1]) + if Blank(last.text) then [] else [last]
  }

  function Merge(units: seq<Token>, segments: seq<SpeakerSegment>): seq<Sentence>
  {
    NonBlank(Collapse(Sort(units, TokenKey), SpeakerBy(segments)))
  }

  lemma NonBlankSnoc(sentences: seq<Sentence>, s: Sentence)
    ensures NonBlank(sentences + [s]) == NonBlank(sentences) + if Blank(s.text) then [] else [s]
  {
    assert (sentences + [s])[..|sentences|] == sentences;
  }

  // One more unit extends the sentence that is open, or opens the next one.
  lemma CollapseOne(units: seq<Token>, speaker: Token -> int, i: nat, closed: seq<Sentence>, open: Option<Sentence>)
    requires i < |units| && (open.None? ==> closed == [])
    requires Collapse(units[..i], speaker) == if open.None? then [] else closed + [open.value]
    ensures Collapse(units[..i + 1], speaker) ==
      if open.Some? && open.value.speaker == speaker(units[i]) then closed + [Extended(open.value, units[i])]
      else Collapse(units[..i], speaker) + [Opened(units[i], speaker(units[i]))]
  {
    assert units[..i + 1][..i] == units[..i];
    if open.Some? {
      assert (closed + [open.value])[|closed| := Extended(open.value, units[i])]
          == closed + [Extended(open.value, units[i])];
    }
  }

  // The source's loop: `current` is the open sentence.
  method MergeTimedUnitsBySpeaker(units: seq<Token>, segments: seq<SpeakerSegment>) returns (merged: seq<Sentence>)
    ensures merged == Merge(units, segments)
  {
    merged := [];
    var current: Option<Sentence> := None;
    var ordered := Sort(units, TokenKey);
    ghost var closed: seq<Sentence> := [];
    for i := 0 to |ordered|
      invariant Collapse(ordered[..i], SpeakerBy(segments)) == if current.None? then [] else closed + [current.value]
      invariant merged == NonBlank(closed) && (current.None? ==> closed == [])
    {
      CollapseOne(ordered, SpeakerBy(segments), i, closed, current);
      var unit := ordered[i];
      var speaker := SpeakerForTimeRangeWithBoundary(unit.start, unit.end, segments);
      if current.Some? && current.value.speaker == speaker {
        current := Some(Extended(current.value, unit));
      } else {
        if current.Some? {
          NonBlankSnoc(closed, current.value);
          closed := closed + [current.value];
          merged := merged + if Blank(current.value.text) then [] else [current.value];
        }
        current := Some(Opened(unit, speaker));
      }
    }
    assert ordered[..|ordered|] == ordered;
    if current.Some? {
      NonBlankSnoc(closed, current.value);
      merged := merged + if Blank(current.value.text) then [] else [current.value];
    }
  }

  // -------------------------------------------------------- maximal runs

  // The units cut wherever the speaker changes.
  function Runs(units: seq<Token>, speaker: Token -> int): (r: seq<seq<Token>>)
    ensures r == [] <==> units == []
  {
    if units == [] then []
    else
      var n := |units| - 1;
      var front := Runs(units[..n], speaker);
      if n > 0 && speaker(units[n - 1]) == speaker(units[n]) then
        front[|front| - 1 := front[|front| - 1] + [units[n]]]
      else front + [[units[n]]]
  }

  predicate RunAt(runs: seq<seq<Token>>, speaker: Token -> int, i: nat)
    requires i < |runs|
  {
    runs[i] != [] && forall k :: 0 <= k < |runs[i]| ==> speaker(runs[i][k]) == speaker(runs[i][0])
  }

  predicate ChangeAt(runs: seq<seq<Token>>, speaker: Token -> int, i: nat)
    requires i + 1 < |runs|
  {
    runs[i] != [] && runs[i + 1] != [] && speaker(runs[i][0]) != speaker(runs[i + 1][0])
  }

  // Nonempty, one speaker each, and another one next to it.
  predicate Maximal(runs: seq<seq<Token>>, speaker: Token -> int)
  {
    && (forall i: nat :: i < |runs| ==> RunAt(runs, speaker, i))
    && (forall i: nat :: i + 1 < |runs| ==> ChangeAt(runs, speaker, i))
  }

  function Joined(runs: seq<seq<Token>>): seq<Token>
  {
    if runs == [] then [] else Joined(runs[..|runs| - 1]) + runs[|runs| - 1]
  }

  lemma JoinedLast(runs: seq<seq<Token>>, run: seq<Token>)
    ensures Joined(runs + [run]) == Joined(runs) + run
  {
    assert (runs + [run])[..|runs|] == runs;
  }

  lemma ExtendRun(front: seq<seq<Token>>, run: seq<Token>, speaker: Token -> int, t: Token)
    requires Maximal(front + [run], speaker) && run != [] && speaker(run[0]) == speaker(t)
    ensures Maximal(front + [run + [t]], speaker)
  {
    var runs, longer := front + [run], front + [run + [t]];
    assert RunAt(runs, speaker, |front|);
    forall i: nat | i < |longer|
      ensures RunAt(longer, speaker, i)
    {
      assert RunAt(runs, speaker, i);
    }
    forall i: nat | i + 1 < |longer|
      ensures ChangeAt(longer, speaker, i)
    {
      assert ChangeAt(runs, speaker, i);
    }
  }

  lemma NewRun(runs: seq<seq<Token>>, speaker: Token -> int, t: Token)
    requires Maximal(runs, speaker)
    requires runs != [] ==> runs[|runs| - 1] != [] && speaker(runs[|runs| - 1][0]) != speaker(t)
    ensures Maximal(runs + [[t]], speaker)
  {
    var more := runs + [[t]];
    forall i: nat | i < |more|
      ensures RunAt(more, speaker, i)
    {
      assert i < |runs| ==> RunAt(runs, speaker, i);
    }
    forall i: nat | i + 1 < |more|
      ensures ChangeAt(more, speaker, i)
    {
      assert i + 1 < |runs| ==> ChangeAt(runs, speaker, i);
    }
  }

  // The runs are maximal, and together they are the units.
  lemma {:induction false} RunsAreMaximal(units: seq<Token>, speaker: Token -> int)
    ensures Maximal(Runs(units, speaker), speaker) && Joined(Runs(units, speaker)) == units
    ensures units != [] ==>
      var last := Runs(units, speaker)[|Runs(units, speaker)| - 1];
      last != [] && speaker(last[0]) == speaker(units[|units| - 1])
  {
    if units != [] {
      var n := |units| - 1;
      var front := Runs(units[..n], speaker);
      RunsAreMaximal(units[..n], speaker);
      assert units == units[..n] + [units[n]];
      assert n > 0 ==> units[..n][n - 1] == units[n - 1];
      if n > 0 && speaker(units[n - 1]) == speaker(units[n]) {
        ExtendLastRun(front, speaker, units[n]);
      } else {
        NewRun(front, speaker, units[n]);
        JoinedLast(front, [units[n]]);
      }
    }
  }

  lemma ExtendLastRun(runs: seq<seq<Token>>, speaker: Token -> int, t: Token)
    requires Maximal(runs, speaker) && runs != []
    requires var last := runs[|runs| - 1]; last != [] && speaker(last[0]) == speaker(t)
    ensures var m := |runs| - 1;
            var longer := runs[m := runs[m] + [t]];
            Maximal(longer, speaker) && Joined(longer) == Joined(runs) + [t]
  {
    var m := |runs| - 1;
    var front, run := runs[..m], runs[m];
    assert runs == front + [run] && runs[m := run + [t]] == front + [run + [t]];
    ExtendRun(front, run, speaker, t);
    JoinedLast(front, run);
    JoinedLast(front, run + [t]);
  }

  function Listed(details: Option<seq<Stamp>>): seq<Stamp> { if details.Some? then details.value else [] }

  function JoinedDetails(units: seq<Token>): seq<Stamp>
  {
    if units == [] then [] else JoinedDetails(units[..|units| - 1]) + Listed(units[|units| - 1].details)
  }

  // A sentence tells a whole run: its text, its bounds, its speaker and all its
  // timestamp details in order.
  predicate Tells(s: Sentence, run: seq<Token>, speaker: Token -> int)
  {
    && run != [] && s.text == TokenText(run)
    && s.start == run[0].start && s.end == run[|run| - 1].end && s.speaker == speaker(run[0])
    && Listed(s.details) == JoinedDetails(run)
  }

  predicate TellsAt(sentences: seq<Sentence>, runs: seq<seq<Token>>, speaker: Token -> int, i: nat)
    requires i < |sentences| == |runs|
  {
    Tells(sentences[i], runs[i], speaker)
  }

  lemma TellsOne(t: Token, speaker: Token -> int)
    ensures Tells(Opened(t, speaker(t)), [t], speaker)
  {
    assert [t][..0] == [];
  }

  lemma TellsMore(s: Sentence, run: seq<Token>, t: Token, speaker: Token -> int)
    requires Tells(s, run, speaker)
    ensures Tells(Extended(s, t), run + [t], speaker)
  {
    assert (run + [t])[..|run|] == run;
    assert Listed(MergeDetails(s.details, t.details)) == Listed(s.details) + Listed(t.details);
  }

  predicate AllTell(sentences: seq<Sentence>, runs: seq<seq<Token>>, speaker: Token -> int)
  {
    |sentences| == |runs| && forall i: nat :: i < |sentences| ==> TellsAt(sentences, runs, speaker, i)
  }

  // The sentences are the maximal runs, one for one.
  lemma {:induction false} CollapseTellsRuns(units: seq<Token>, speaker: Token -> int)
    ensures AllTell(Collapse(units, speaker), Runs(units, speaker), speaker)
  {
    if units != [] {
      var n := |units| - 1;
      var t, front, runs := units[n], Collapse(units[..n], speaker), Runs(units[..n], speaker);
      var m := |front| - 1;
      CollapseTellsRuns(units[..n], speaker);
      RunsAreMaximal(units[..n], speaker);
      if n > 0 && speaker(units[n - 1]) == speaker(t) {
        assert TellsAt(front, runs, speaker, m);
        TellsMore(front[m], runs[m], t, speaker);
        AllTellMore(front, runs, speaker, t);
      } else {
        assert n > 0 ==> TellsAt(front, runs, speaker, m);
        TellsOne(t, speaker);
        AllTellNew(front, runs, speaker, t);
      }
    }
  }

  lemma AllTellMore(front: seq<Sentence>, runs: seq<seq<Token>>, speaker: Token -> int, t: Token)
    requires AllTell(front, runs, speaker) && front != []
    requires Tells(Extended(front[|front| - 1], t), runs[|runs| - 1] + [t], speaker)
    ensures var m := |front| - 1;
            AllTell(front[m := Extended(front[m], t)], runs[m := runs[m] + [t]], speaker)
  {
    var m := |front| - 1;
    var now, longer := front[m := Extended(front[m], t)], runs[m := runs[m] + [t]];
    forall i: nat | i < |now|
      ensures TellsAt(now, longer, speaker, i)
    {
      assert TellsAt(front, runs, speaker, i);
    }
  }

  lemma AllTellNew(front: seq<Sentence>, runs: seq<seq<Token>>, speaker: Token -> int, t: Token)
    requires AllTell(front, runs, speaker) && Tells(Opened(t, speaker(t)), [t], speaker)
    ensures AllTell(front + [Opened(t, speaker(t))], runs + [[t]], speaker)
  {
    var now, longer := front + [Opened(t, speaker(t))], runs + [[t]];
    forall i: nat | i < |now|
      ensures TellsAt(now, longer, speaker, i)
    {
      if i < |front| {
        assert TellsAt(front, runs, speaker, i);
      }
    }
  }

  // ------------------------------------------------------ blank sentences

  predicate SpeakersDiffer(sentences: seq<Sentence>, i: nat)
    requires i + 1 < |sentences|
  {
    sentences[i].speaker != sentences[i + 1].speaker
  }

  predicate Alternates(sentences: seq<Sentence>)
  {
    forall i: nat :: i + 1 < |sentences| ==> SpeakersDiffer(sentences, i)
  }

  lemma CollapseAlternates(units: seq<Token>, speaker: Token -> int)
    ensures Alternates(Collapse(units, speaker))
  {
    CollapseTellsRuns(units, speaker);
    RunsAreMaximal(units, speaker);
    var sentences, runs := Collapse(units, speaker), Runs(units, speaker);
    forall i: nat | i + 1 < |sentences|
      ensures SpeakersDiffer(sentences, i)
    {
      assert TellsAt(sentences, runs, speaker, i) && TellsAt(sentences, runs, speaker, i + 1);
      assert ChangeAt(runs, speaker, i);
    }
  }

  lemma {:induction false} NonBlankOfSpoken(sentences: seq<Sentence>)
    requires forall i :: 0 <= i < |sentences| ==> !Blank(sentences[i].text)
    ensures NonBlank(sentences) == sentences
  {
    if sentences != [] {
      var n := |sentences| - 1;
      NonBlankOfSpoken(sentences[..n]);
      assert !Blank(sentences[n].text) && sentences == sentences[..n] + [sentences[n]];
    }
  }

  lemma {:induction false} CollapseSpoken(units: seq<Token>, speaker: Token -> int)
    requires forall t :: t in units ==> !Blank(t.text)
    ensures forall i :: 0 <= i < |Collapse(units, speaker)| ==> !Blank(Collapse(units, speaker)[i].text)
  {
    if units != [] {
      var n := |units| - 1;
      var t, front := units[n], Collapse(units[..n], speaker);
      CollapseSpoken(units[..n], speaker);
      assert t in units;
      if front != [] {
        var text := front[|front| - 1].text;
        var i: nat :| i < |text| && !IsSpace(text[i]);
        assert (text + t.text)[i] == text[i];
      }
    }
  }

  // Units that all say something are merged into exactly the maximal runs of
  // their stable order, and neighbours have different speakers.
  lemma MergeOfSpokenUnits(units: seq<Token>, segments: seq<SpeakerSegment>)
    requires forall t :: t in units ==> !Blank(t.text)
    ensures var ordered, speaker := Sort(units, TokenKey), SpeakerBy(segments);
            && Merge(units, segments) == Collapse(ordered, speaker)
            && AllTell(Merge(units, segments), Runs(ordered, speaker), speaker)
            && Alternates(Merge(units, segments))
  {
    var ordered, speaker := Sort(units, TokenKey), SpeakerBy(segments);
    SortPermutes(units, TokenKey);
    assert forall t :: t in ordered ==> t in multiset(units);
    CollapseSpoken(ordered, speaker);
    NonBlankOfSpoken(Collapse(ordered, speaker));
    CollapseTellsRuns(ordered, speaker);
    CollapseAlternates(ordered, speaker);
  }

  // Two sentences of one speaker that only blank sentences keep apart.
  predicate Clashes(sentences: seq<Sentence>, i: nat, j: nat)
    requires i < j < |sentences|
  {
    && !Blank(sentences[i].text) && !Blank(sentences[j].text) && sentences[i].speaker == sentences[j].speaker
    && forall k: nat :: i < k < j ==> BlankAt(sentences, k)
  }

  predicate BlankAt(sentences: seq<Sentence>, k: nat)
    requires k < |sentences|
  {
    Blank(sentences[k].text)
  }

  predicate ClashFree(sentences: seq<Sentence>)
  {
    forall i: nat, j: nat :: i < j < |sentences| ==> !Clashes(sentences, i, j)
  }

  // The last sentence that is not dropped.
  lemma {:induction false} LastSpoken(sentences: seq<Sentence>) returns (i: nat)
    requires NonBlank(sentences) != []
    ensures i < |sentences| && !Blank(sentences[i].text)
    ensures NonBlank(sentences)[|NonBlank(sentences)| - 1] == sentences[i]
    ensures forall k: nat :: i < k < |sentences| ==> BlankAt(sentences, k)
  {
    var n := |sentences| - 1;
    if Blank(sentences[n].text) {
      i := LastSpoken(sentences[..n]);
      forall k: nat | i < k < |sentences|
        ensures BlankAt(sentences, k)
      {
        assert k < n ==> BlankAt(sentences[..n], k);
      }
    } else {
      i := n;
    }
  }

  lemma {:induction false} NoneSpoken(sentences: seq<Sentence>)
    requires NonBlank(sentences) == []
    ensures forall k: nat :: k < |sentences| ==> BlankAt(sentences, k)
  {
    if sentences != [] {
      var n := |sentences| - 1;
      NoneSpoken(sentences[..n]);
      forall k: nat | k < |sentences|
        ensures BlankAt(sentences, k)
      {
        assert k < n ==> BlankAt(sentences[..n], k);
      }
    }
  }

  lemma ClashPrefix(front: seq<Sentence>, all: seq<Sentence>, i: nat, j: nat)
    requires front <= all && i < j < |front|
    ensures Clashes(front, i, j) <==> Clashes(all, i, j)
  {
    forall k: nat | i < k < j
      ensures BlankAt(front, k) <==> BlankAt(all, k)
    {
    }
  }

  // Behind a last spoken sentence a new one clashes with that one or with none.
  lemma ClashWithLast(front: seq<Sentence>, s: Sentence, m: nat, i: nat)
    requires m < |front| && !Blank(front[m].text) && forall k: nat :: m < k < |front| ==> BlankAt(front, k)
    requires i < |front|
    ensures Clashes(front + [s], i, |front|) <==> i == m && !Blank(s.text) && front[m].speaker == s.speaker
  {
    var all := front + [s];
    if i < m {
      assert !BlankAt(all, m);
    } else if i > m {
      assert BlankAt(front, i);
    } else {
      forall k: nat | m < k < |front|
        ensures BlankAt(all, k)
      {
        assert BlankAt(front, k);
      }
    }
  }

  // A sentence may follow the spoken ones if it is blank or has another speaker.
  predicate MayFollow(spoken: seq<Sentence>, s: Sentence)
  {
    spoken == [] || spoken[|spoken| - 1].speaker != s.speaker
  }

  lemma ClashFreeSnoc(front: seq<Sentence>, s: Sentence)
    ensures ClashFree(front + [s]) <==> ClashFree(front) && (Blank(s.text) || MayFollow(NonBlank(front), s))
  {
    var all, n := front + [s], |front|;
    forall i: nat, j: nat | i < j < n
      ensures Clashes(front, i, j) <==> Clashes(all, i, j)
    {
      ClashPrefix(front, all, i, j);
    }
    if NonBlank(front) == [] {
      NoneSpoken(front);
      forall i: nat | i < n
        ensures !Clashes(all, i, n)
      {
        assert BlankAt(front, i);
      }
    } else {
      var m := LastSpoken(front);
      forall i: nat | i < n
        ensures Clashes(all, i, n) <==> i == m && !Blank(s.text) && front[m].speaker == s.speaker
      {
        ClashWithLast(front, s, m, i);
      }
      assert Clashes(all, m, n) <==> !Blank(s.text) && front[m].speaker == s.speaker;
    }
    NoClashSplit(front, s);
  }

  lemma NoClashSplit(front: seq<Sentence>, s: Sentence)
    requires forall i: nat, j: nat :: i < j < |front| ==> (Clashes(front, i, j) <==> Clashes(front + [s], i, j))
    ensures ClashFree(front + [s]) <==>
      ClashFree(front) && forall i: nat :: i < |front| ==> !Clashes(front + [s], i, |front|)
  {
    var all := front + [s];
    if ClashFree(all) {
      forall i: nat, j: nat | i < j < |front|
        ensures !Clashes(front, i, j)
      {
        assert !Clashes(all, i, j);
      }
    }
  }

  lemma AlternatesSnoc(sentences: seq<Sentence>, s: Sentence)
    ensures Alternates(sentences + [s]) <==> Alternates(sentences) && MayFollow(sentences, s)
  {
    var all, n := sentences + [s], |sentences|;
    if Alternates(all) {
      forall i: nat | i + 1 < n
        ensures SpeakersDiffer(sentences, i)
      {
        assert SpeakersDiffer(all, i);
      }
      assert n > 0 ==> SpeakersDiffer(all, n - 1);
    } else {
      var i: nat :| i + 1 < |all| && !SpeakersDiffer(all, i);
      assert i + 1 < n ==> !SpeakersDiffer(sentences, i);
    }
  }

  lemma {:induction false} NonBlankAlternatesIff(sentences: seq<Sentence>)
    ensures Alternates(NonBlank(sentences)) <==> ClashFree(sentences)
  {
    if sentences != [] {
      var n := |sentences| - 1;
      var front, s := sentences[..n], sentences[n];
      NonBlankAlternatesIff(front);
      assert sentences == front + [s];
      ClashFreeSnoc(front, s);
      if Blank(s.text) {
        assert NonBlank(sentences) == NonBlank(front);
      } else {
        AlternatesSnoc(NonBlank(front), s);
      }
    }
  }

  // Two runs of one speaker that say something, with only blank ones between.
  predicate RunsClash(runs: seq<seq<Token>>, speaker: Token -> int, i: nat, j: nat)
    requires i < j < |runs|
  {
    && runs[i] != [] && runs[j] != [] && speaker(runs[i][0]) == speaker(runs[j][0])
    && !Blank(TokenText(runs[i])) && !Blank(TokenText(runs[j]))
    && forall k: nat :: i < k < j ==> BlankRun(runs, k)
  }

  predicate BlankRun(runs: seq<seq<Token>>, k: nat)
    requires k < |runs|
  {
    Blank(TokenText(runs[k]))
  }

  predicate RunsClashFree(runs: seq<seq<Token>>, speaker: Token -> int)
  {
    forall i: nat, j: nat :: i < j < |runs| ==> !RunsClash(runs, speaker, i, j)
  }

  lemma ClashIsRunsClash(sentences: seq<Sentence>, runs: seq<seq<Token>>, speaker: Token -> int, i: nat, j: nat)
    requires AllTell(sentences, runs, speaker) && i < j < |sentences|
    ensures Clashes(sentences, i, j) <==> RunsClash(runs, speaker, i, j)
  {
    assert TellsAt(sentences, runs, speaker, i) && TellsAt(sentences, runs, speaker, j);
    forall k: nat | i < k < j
      ensures BlankAt(sentences, k) <==> BlankRun(runs, k)
    {
      assert TellsAt(sentences, runs, speaker, k);
    }
  }

  // For all units, blank ones too: neighbouring sentences have different
  // speakers exactly when no two runs of one speaker are kept apart by nothing
  // but blank runs.
  lemma MergeAlternatesIff(units: seq<Token>, segments: seq<SpeakerSegment>)
    ensures Alternates(Merge(units, segments))
      <==> RunsClashFree(Runs(Sort(units, TokenKey), SpeakerBy(segments)), SpeakerBy(segments))
  {
    var ordered, speaker := Sort(units, TokenKey), SpeakerBy(segments);
    var sentences, runs := Collapse(ordered, speaker), Runs(ordered, speaker);
    CollapseTellsRuns(ordered, speaker);
    NonBlankAlternatesIff(sentences);
    if ClashFree(sentences) {
      forall i: nat, j: nat | i < j < |runs|
        ensures !RunsClash(runs, speaker, i, j)
      {
        assert !Clashes(sentences, i, j);
        ClashIsRunsClash(sentences, runs, speaker, i, j);
      }
    } else {
      var i: nat, j: nat :| i < j < |sentences| && Clashes(sentences, i, j);
      ClashIsRunsClash(sentences, runs, speaker, i, j);
      assert RunsClash(runs, speaker, i, j);
    }
  }

  // A segment that overlaps while no other does.
  lemma OnlyOverlap(start: int, end: int, segments: seq<SpeakerSegment>, i: nat)
    requires OverlapsMost(start, end, segments, i) && Overlap(start, end, segments[i]) > 0.0
    requires Boundary(start, end, segments).None?
    ensures SpeakerOf(start, end, segments) == segments[i].speaker
  {
    BestOverlapsMost(start, end, segments);
  }

  const ThreeSpeakers := [SpeakerSegment(0.0, 1000.0, 1), SpeakerSegment(1000.0, 2000.0, 2),
                          SpeakerSegment(2000.0, 3000.0, 1)]
  const BlankBetween := [Token("a", 0, 1000, None), Token(" ", 1000, 2000, None), Token("b", 2000, 3000, None)]

  lemma ThreeSpeak(units: seq<Token>, segments: seq<SpeakerSegment>)
    requires units == BlankBetween && segments == ThreeSpeakers
    ensures SpeakerBy(segments)(units[0]) == 1 && SpeakerBy(segments)(units[1]) == 2
         && SpeakerBy(segments)(units[2]) == 1
  {
    OnlyOverlap(0, 1000, segments, 0);
    OnlyOverlap(1000, 2000, segments, 1);
    OnlyOverlap(2000, 3000, segments, 2);
  }

  lemma ThreeSorted(units: seq<Token>)
    requires units == BlankBetween
    ensures Sort(units, TokenKey) == units
  {
    forall i: nat, j: nat | i < j < |units|
      ensures SortedAt(units, TokenKey, i, j)
    {
      assert i == 0 || i == 1;
    }
    SortOfSorted(units, TokenKey);
  }

  lemma ThreeRuns(units: seq<Token>, speaker: Token -> int)
    requires |units| == 3 && speaker(units[0]) != speaker(units[1]) && speaker(units[1]) != speaker(units[2])
    ensures Runs(units, speaker) == [[units[0]], [units[1]], [units[2]]]
  {
    assert units[..2][..1] == [units[0]] && [units[0]][..0] == [];
    assert Runs(units[..2], speaker) == [[units[0]], [units[1]]];
  }

  lemma ThreeClash(runs: seq<seq<Token>>, speaker: Token -> int, a: Token, x: Token, b: Token)
    requires runs == [[a], [x], [b]] && speaker(a) == speaker(b)
    requires a.text == "a" && x.text == " " && b.text == "b"
    ensures !RunsClashFree(runs, speaker)
  {
    assert [a][..0] == [] && [x][..0] == [] && [b][..0] == [];
    assert TokenText(runs[0])[0] == 'a' && TokenText(runs[2])[0] == 'b';
    assert BlankRun(runs, 1);
    assert RunsClash(runs, speaker, 0, 2);
  }

  // An input of the code that fails: the blank unit in the middle is dropped, and
  // its neighbours end up side by side with the same speaker.
  lemma BlankUnitHidesAChange(units: seq<Token>, segments: seq<SpeakerSegment>)
    requires units == BlankBetween && segments == ThreeSpeakers
    ensures !Alternates(Merge(units, segments))
  {
    ThreeSorted(units);
    ThreeSpeak(units, segments);
    ThreeRuns(units, SpeakerBy(segments));
    ThreeClash(Runs(units, SpeakerBy(segments)), SpeakerBy(segments), units[0], units[1], units[2]);
    MergeAlternatesIff(units, segments);
  }

  // --------------------------------------------------- text of the sentences

  function SentenceText(sentences: seq<Sentence>): string
  {
    if sentences == [] then "" else SentenceText(sentences[..|sentences| - 1]) + sentences[|sentences| - 1].text
  }

  lemma {:induction false} CollapseKeepsText(units: seq<Token>, speaker: Token -> int)
    ensures SentenceText(Collapse(units, speaker)) == TokenText(units)
  {
    if units != [] {
      var n := |units| - 1;
      CollapseKeepsText(units[..n], speaker);
      OneMoreText(Collapse(units[..n], speaker), units[n], speaker(units[n]));
    }
  }

  // Extending the last sentence and opening another one add the same text.
  lemma OneMoreText(front: seq<Sentence>, unit: Token, speaker: int)
    ensures front != [] ==>
      var n := |front| - 1;
      SentenceText(front[n := Extended(front[n], unit)]) == SentenceText(front) + unit.text
    ensures SentenceText(front + [Opened(unit, speaker)]) == SentenceText(front) + unit.text
  {
    if front != [] {
      var n := |front| - 1;
      assert front[n := Extended(front[n], unit)][..n] == front[..n];
    }
    assert (front + [Opened(unit, speaker)])[..|front|] == front;
  }

  // build_speaker_aligned_text
  method BuildSpeakerAlignedText(text: string, stamps: seq<Stamp>, segments: seq<SpeakerSegment>)
    returns (sentences: seq<Sentence>)
    ensures sentences == Merge(Align(text, stamps, false), segments)
  {
    var timedTokens := AlignTextToTimestamps(text, stamps, false);
    if timedTokens == [] {
      return [];
    }
    sentences := MergeTimedUnitsBySpeaker(timedTokens, segments);
  }

  predicate InOrder(stamps: seq<Stamp>, i: nat, j: nat)
    requires i < j < |stamps|
  {
    stamps[i].Stamp? && stamps[j].Stamp? ==>
      KeyLe((stamps[i].start as real, stamps[i].end as real), (stamps[j].start as real, stamps[j].end as real))
  }

  predicate StampsOrdered(stamps: seq<Stamp>)
  {
    forall i: nat, j: nat :: i < j < |stamps| ==> InOrder(stamps, i, j)
  }

  // Whatever the speakers, the sentences spell the tokens in their stable time
  // order, and neighbours have different speakers.
  lemma AlignedTextIsSortedTokens(text: string, stamps: seq<Stamp>, segments: seq<SpeakerSegment>)
    ensures var tokens := Align(text, stamps, false);
            && SentenceText(Merge(tokens, segments)) == TokenText(Sort(tokens, TokenKey))
            && Alternates(Merge(tokens, segments))
  {
    var tokens := Align(text, stamps, false);
    AlignTokens(text, stamps, false);
    forall t | t in tokens
      ensures !Blank(t.text)
    {
      var k: nat :| k < |tokens| && tokens[k] == t;
      assert TokenAt(tokens, stamps, false, k);
    }
    MergeOfSpokenUnits(tokens, segments);
    CollapseKeepsText(Sort(tokens, TokenKey), SpeakerBy(segments));
  }

  // Offline text preservation: with full timestamps in time order the sentences
  // give back the text exactly, unless the text has no unit or there is no
  // timestamp at all.
  lemma SpeakerAlignmentPreservesText(text: string, stamps: seq<Stamp>, segments: seq<SpeakerSegment>)
    requires AllFull(stamps, |stamps|) && StampsOrdered(stamps)
    ensures SentenceText(Merge(Align(text, stamps, false), segments)) == text
       <==> text == "" || (CountUnits(Pieces(text)) > 0 && stamps != [])
  {
    var tokens := Align(text, stamps, false);
    AlignedTextIsSortedTokens(text, stamps, segments);
    AlignPreservesTextIff(text, stamps, false);
    OrderedTokensStay(text, stamps);
  }

  // Timestamps in time order leave nothing to sort.
  lemma OrderedTokensStay(text: string, stamps: seq<Stamp>)
    requires AllFull(stamps, |stamps|) && StampsOrdered(stamps)
    ensures Sort(Align(text, stamps, false), TokenKey) == Align(text, stamps, false)
  {
    var tokens := Align(text, stamps, false);
    AlignTokens(text, stamps, false);
    forall i: nat, j: nat | i < j < |tokens|
      ensures SortedAt(tokens, TokenKey, i, j)
    {
      assert InOrder(stamps, i, j) && TokenAt(tokens, stamps, false, i) && TokenAt(tokens, stamps, false, j);
    }
    SortOfSorted(tokens, TokenKey);
  }
}
