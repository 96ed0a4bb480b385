// The chunked audio buffer of a realtime session: absolute sample offsets over
// a list of chunks whose consumed front is discarded.

module AudioBuffer {
  import opened Arithmetic

  function Flatten<T>(chunks: seq<seq<T>>): seq<T>
  {
    if chunks == [] then [] else chunks[0] + Flatten(chunks[1..])
  }

  lemma {:induction false} FlattenAppend<T>(xs: seq<seq<T>>, ys: seq<seq<T>>)
    ensures Flatten(xs + ys) == Flatten(xs) + Flatten(ys)
  {
    if xs == [] {
      assert xs + ys == ys;
    } else {
      assert (xs + ys)[1..] == xs[1..] + ys;
      FlattenAppend(xs[1..], ys);
    }
  }

  lemma FlattenOne<T>(x: seq<T>)
    ensures Flatten([x]) == x
  {
    assert Flatten([x][1..]) == [];
  }

  // The part of a sequence between two offsets, clipped to [lo, |s|).
  function Window<T>(s: seq<T>, lo: nat, start: int, end: int): (w: seq<T>)
    requires lo <= |s|
  {
    var from, to := Max(start, lo), Min(end, |s|);
    if to <= from then [] else s[from..to]
  }

  // The chunk a scan has reached holds the next samples of the history.
  lemma FrontChunk<T>(chunks: seq<seq<T>>, history: seq<T>, i: nat, current: nat)
    requires i < |chunks| && current <= |history|
    requires Flatten(chunks[i..]) == history[current..]
    ensures current + |chunks[i]| <= |history|
    ensures history[current..current + |chunks[i]|] == chunks[i]
    ensures Flatten(chunks[i + 1..]) == history[current + |chunks[i]|..]
  {
    var rest := Flatten(chunks[i + 1..]);
    assert chunks[i..][1..] == chunks[i + 1..];
    assert history[current..] == chunks[i] + rest;
    assert |history[current..]| == |chunks[i]| + |rest|;
    assert history[current..current + |chunks[i]|] == history[current..][..|chunks[i]|];
    assert history[current + |chunks[i]|..] == history[current..][|chunks[i]|..];
  }

  lemma SliceOfSlice<T>(s: seq<T>, lo: nat, hi: nat, a: nat, b: nat)
    requires lo <= hi <= |s| && a <= b <= hi - lo
    ensures s[lo..hi][a..b] == s[lo + a..lo + b]
  {
    var inner, outer := s[lo..hi][a..b], s[lo + a..lo + b];
    assert |inner| == |outer|;
    forall k | 0 <= k < |inner|
      ensures inner[k] == outer[k]
    {
      assert inner[k] == s[lo..hi][a + k] == s[lo + a + k];
    }
  }

  lemma PartOfWindow<T>(s: seq<T>, lo: nat, start: int, end: int, from: nat, to: nat)
    requires lo <= |s| && Max(lo, start) <= from <= to <= end <= |s|
    ensures var w, first := Window(s, lo, start, end), Max(lo, start);
            to <= first + |w| && w[from - first..to - first] == s[from..to]
  {
    var first := Max(lo, start);
    if first < end {
      SliceOfSlice(s, first, end, from - first, to - first);
    }
  }

  lemma SliceJoin<T>(s: seq<T>, a: nat, b: nat, c: nat)
    requires a <= b <= c <= |s|
    ensures s[a..b] + s[b..c] == s[a..c]
  {
  }

  // One step of a scan extends the collected window by the overlap of a chunk.
  lemma ExtendWindow<T>(history: seq<T>, from: nat, to: nat, current: nat, chunk: seq<T>)
    requires from < to <= |history| && current < to && current + |chunk| <= |history|
    requires history[current..current + |chunk|] == chunk
    requires current + |chunk| > from
    ensures 0 <= Max(from - current, 0) <= Min(to - current, |chunk|) <= |chunk|
    ensures (if current <= from then [] else history[from..Min(to, current)])
            + chunk[Max(from - current, 0)..Min(to - current, |chunk|)]
            == history[from..Min(to, current + |chunk|)]
  {
    var a, b := Max(from - current, 0), Min(to - current, |chunk|);
    SliceOfSlice(history, current, current + |chunk|, a, b);
    if current > from {
      SliceJoin(history, from, current, current + b);
    }
  }

  // One step of a drop keeps what of a chunk lies behind the target.
  lemma KeepChunk<T>(newChunks: seq<seq<T>>, history: seq<T>, target: nat, current: nat, chunk: seq<T>)
    requires chunk != [] && current + |chunk| <= |history| && target < current + |chunk|
    requires history[current..current + |chunk|] == chunk
    requires if current <= target then newChunks == [] else Flatten(newChunks) == history[target..current]
    ensures var tail := chunk[Max(target - current, 0)..];
            tail != [] && Flatten(newChunks + [tail]) == history[target..current + |chunk|]
  {
    var end := current + |chunk|;
    var tail := chunk[Max(target - current, 0)..];
    FlattenOne(tail);
    FlattenAppend(newChunks, [tail]);
    SliceOfSlice(history, current, end, Max(target - current, 0), |chunk|);
    if current <= target {
      assert Flatten(newChunks) + tail == tail == history[target..end];
    } else {
      assert tail == history[current..end];
      SliceJoin(history, target, current, end);
    }
  }

  class ChunkedAudioBuffer<T> {
    var startSample: nat
    var totalSamples: nat
    var chunks: seq<seq<T>>
    ghost var history: seq<T>  // every sample appended since the last reset

    ghost predicate Valid()
      reads this
    {
      && startSample <= totalSamples == |history|
      && Flatten(chunks) == history[startSample..]
      && forall i :: 0 <= i < |chunks| ==> chunks[i] != []
    }

    constructor ()
      ensures Valid() && history == [] && startSample == 0
    {
      startSample, totalSamples, chunks, history := 0, 0, [], [];
    }

    method Reset()
      modifies this
      ensures Valid() && history == [] && startSample == 0
    {
      startSample, totalSamples, chunks, history := 0, 0, [], [];
    }

    method Replace(audio: seq<T>)
      modifies this
      ensures Valid() && history == audio && startSample == 0
    {
      startSample := 0;
      totalSamples := |audio|;
      chunks := if |audio| > 0 then [audio] else [];
      history := audio;
      FlattenOne(audio);
    }

    method Append(audio: seq<T>)
      requires Valid()
      modifies this
      ensures Valid() && history == old(history) + audio && startSample == old(startSample)
    {
      if |audio| > 0 {
        FlattenOne(audio);
        FlattenAppend(chunks, [audio]);
        chunks := chunks + [audio];
        totalSamples := totalSamples + |audio|;
      }
      history := history + audio;
    }

    // Returns the retained samples of [start, end), whatever the chunking.
    method Slice(start: int, end: int) returns (audio: seq<T>)
      requires Valid()
      ensures audio == Window(history, startSample, start, end)
    {
      var from, to := Max(start, startSample), Min(end, totalSamples);
      audio := [];
      if to <= from || chunks == [] {
        return;
      }
      var current: nat := startSample;
      var i := 0;
      while i < |chunks|
        invariant 0 <= i <= |chunks| && current <= |history|
        invariant Flatten(chunks[i..]) == history[current..]
        invariant audio == if current <= from then [] else history[from..Min(to, current)]
      {
        var chunk := chunks[i];
        var chunkEnd := current + |chunk|;
        FrontChunk(chunks, history, i, current);
        if chunkEnd <= from {
          current := chunkEnd;
          i := i + 1;
          continue;
        }
        if current >= to {
          break;
        }
        ExtendWindow(history, from, to, current, chunk);
        audio := audio + chunk[Max(from - current, 0)..Min(to - current, |chunk|)];
        current := chunkEnd;
        i := i + 1;
      }
    }

    // Forgets samples before the offset; the rest keeps its absolute position.
    method DropBefore(sampleIndex: int)
      requires Valid()
      modifies this`startSample, this`chunks
      ensures Valid() && startSample == Max(old(startSample), Min(sampleIndex, totalSamples))
    {
      var target := Max(startSample, Min(sampleIndex, totalSamples));
      if target <= startSample || chunks == [] {
        return;
      }
      var newChunks := [];
      var current: nat := startSample;
      var i := 0;
      while i < |chunks|
        invariant unchanged(this)
        invariant 0 <= i <= |chunks| && current <= |history|
        invariant Flatten(chunks[i..]) == history[current..]
        invariant forall k :: 0 <= k < |newChunks| ==> newChunks[k] != []
        invariant if current <= target then newChunks == [] else Flatten(newChunks) == history[target..current]
      {
        var chunk := chunks[i];
        var chunkEnd := current + |chunk|;
        FrontChunk(chunks, history, i, current);
        if chunkEnd <= target {
          current := chunkEnd;
          i := i + 1;
          continue;
        }
        KeepChunk(newChunks, history, target, current, chunk);
        if target > current {
          chunk := chunk[target - current..];
        }
        newChunks := newChunks + [chunk];
        current := chunkEnd;
        i := i + 1;
      }
      chunks := newChunks;
      startSample := target;
    }
  }
}
