// Word timestamps of a final result, mapped from model-local to session time.

module WordTimeline {
  import opened Arithmetic

  // One entry of the model's timestamp payload, times already rounded to
  // milliseconds.
  datatype Item =
    | Pair(start: int, end: int)
    | Tagged(token: string, start: int, end: int)
    | Malformed

  datatype Word = Word(token: string, start: int, end: int)

  datatype Frame = Frame(start: int, end: int, paddedStart: int, paddedEnd: int)

  function Clamp(x: int, lo: int, hi: int): int { Max(lo, Min(x, hi)) }

  function TokenAt(tokens: seq<string>, i: nat): string
  {
    if i < |tokens| then tokens[i] else ""
  }

  // The words one payload item contributes; a malformed item is skipped.
  function WordsOf(item: Item, fallback: string): seq<Word>
  {
    match item
    case Pair(start, end) => [Word(fallback, start, end)]
    case Tagged(token, start, end) => [Word(if token != "" then token else fallback, start, end)]
    case Malformed => []
  }

  function Normalised(items: seq<Item>, tokens: seq<string>): seq<Word>
  {
    if items == [] then []
    else
      var n := |items| - 1;
      Normalised(items[..n], tokens) + WordsOf(items[n], TokenAt(tokens, n))
  }

  function MaxObserved(words: seq<Word>): int
  {
    if words == [] then 0
    else
      var last := words[|words| - 1];
      Max(Max(MaxObserved(words[..|words| - 1]), last.start), last.end)
  }

  function Offset(words: seq<Word>, f: Frame): int
  {
    if MaxObserved(words) <= Max(0, f.paddedEnd - f.paddedStart) + 1000 then f.paddedStart else 0
  }

  function Place(w: Word, offset: int, f: Frame): Word
  {
    var start := Clamp(w.start + offset, f.start, f.end);
    var end := Clamp(w.end + offset, f.start, f.end);
    Word(w.token, start, Max(start, end))
  }

  function PlaceAll(words: seq<Word>, offset: int, f: Frame): (placed: seq<Word>)
    ensures |placed| == |words|
    ensures forall i :: 0 <= i < |words| ==> placed[i] == Place(words[i], offset, f)
  {
    if words == [] then []
    else PlaceAll(words[..|words| - 1], offset, f) + [Place(words[|words| - 1], offset, f)]
  }

  function GlobalTimestamps(items: seq<Item>, tokens: seq<string>, f: Frame): seq<Word>
  {
    var words := Normalised(items, tokens);
    PlaceAll(words, Offset(words, f), f)
  }

  lemma NormalisedStep(items: seq<Item>, tokens: seq<string>, i: nat)
    requires i < |items|
    ensures Normalised(items[..i + 1], tokens) == Normalised(items[..i], tokens) + WordsOf(items[i], TokenAt(tokens, i))
  {
    assert items[..i + 1][..i] == items[..i];
  }

  lemma MaxObservedStep(words: seq<Word>, w: Word)
    ensures MaxObserved(words + [w]) == Max(Max(MaxObserved(words), w.start), w.end)
  {
    assert (words + [w])[..|words|] == words;
  }

  lemma PlaceStep(words: seq<Word>, i: nat, offset: int, f: Frame)
    requires i < |words|
    ensures PlaceAll(words[..i + 1], offset, f) == PlaceAll(words[..i], offset, f) + [Place(words[i], offset, f)]
  {
    assert words[..i + 1][..i] == words[..i];
  }

  // The first pass keeps the well-formed items and the largest time among them.
  method NormaliseItems(items: seq<Item>, tokens: seq<string>) returns (normalised: seq<Word>, maxObserved: int)
    ensures normalised == Normalised(items, tokens) && maxObserved == MaxObserved(normalised)
  {
    normalised, maxObserved := [], 0;
    for i := 0 to |items|
      invariant normalised == Normalised(items[..i], tokens)
      invariant maxObserved == MaxObserved(normalised)
    {
      NormalisedStep(items, tokens, i);
      var item, token := items[i], TokenAt(tokens, i);
      if !item.Malformed? {
        if item.Tagged? && item.token != "" {
          token := item.token;
        }
        MaxObservedStep(normalised, Word(token, item.start, item.end));
        maxObserved := Max(Max(maxObserved, item.start), item.end);
        normalised := normalised + [Word(token, item.start, item.end)];
      }
    }
    assert items[..|items|] == items;
  }

  // The second pass shifts and clamps.
  method PlaceWords(normalised: seq<Word>, shouldOffset: bool, f: Frame) returns (placed: seq<Word>)
    ensures placed == PlaceAll(normalised, if shouldOffset then f.paddedStart else 0, f)
  {
    placed := [];
    ghost var offset := if shouldOffset then f.paddedStart else 0;
    for j := 0 to |normalised|
      invariant placed == PlaceAll(normalised[..j], offset, f)
    {
      PlaceStep(normalised, j, offset, f);
      var start, end := normalised[j].start, normalised[j].end;
      if shouldOffset {
        start, end := start + f.paddedStart, end + f.paddedStart;
      }
      start := Clamp(start, f.start, f.end);
      end := Clamp(end, f.start, f.end);
      if end < start {
        end := start;
      }
      assert Word(normalised[j].token, start, end) == Place(normalised[j], offset, f);
      placed := placed + [Word(normalised[j].token, start, end)];
    }
    assert normalised[..|normalised|] == normalised;
  }

  // The decision to offset needs the maximum over all words.
  method ExtractGlobalTimestamps(items: seq<Item>, tokens: seq<string>, f: Frame) returns (placed: seq<Word>)
    ensures placed == GlobalTimestamps(items, tokens, f)
  {
    var normalised, maxObserved := NormaliseItems(items, tokens);
    var shouldOffset := maxObserved <= Max(0, f.paddedEnd - f.paddedStart) + 1000;
    placed := PlaceWords(normalised, shouldOffset, f);
  }

  // ------------------------------------------------- where every item goes

  // How many items are well formed.
  function Formed(items: seq<Item>): nat
  {
    if items == [] then 0
    else Formed(items[..|items| - 1]) + if items[|items| - 1].Malformed? then 0 else 1
  }

  // The token of an item is its own, unless that is empty or missing.
  function TokenOf(items: seq<Item>, tokens: seq<string>, i: nat): string
    requires i < |items|
  {
    if items[i].Tagged? && items[i].token != "" then items[i].token
    else if i < |tokens| then tokens[i] else ""
  }

  lemma {:induction false} ItemIsNormalised(items: seq<Item>, tokens: seq<string>, i: nat)
    requires i < |items| && !items[i].Malformed?
    ensures |Normalised(items, tokens)| == Formed(items) && Formed(items[..i]) < Formed(items)
    ensures Normalised(items, tokens)[Formed(items[..i])]
         == Word(TokenOf(items, tokens, i), items[i].start, items[i].end)
  {
    var n := |items| - 1;
    NormalisedLength(items[..n], tokens);
    if i < n {
      assert items[..n][..i] == items[..i];
      ItemIsNormalised(items[..n], tokens, i);
    }
  }

  lemma {:induction false} NormalisedLength(items: seq<Item>, tokens: seq<string>)
    ensures |Normalised(items, tokens)| == Formed(items)
  {
    if items != [] {
      NormalisedLength(items[..|items| - 1], tokens);
    }
  }

  predicate AtMost(items: seq<Item>, bound: int)
  {
    forall i :: 0 <= i < |items| && !items[i].Malformed? ==> items[i].start <= bound && items[i].end <= bound
  }

  lemma AtMostFront(items: seq<Item>, bound: int)
    requires items != []
    ensures var front, item := items[..|items| - 1], items[|items| - 1];
            AtMost(items, bound)
            <==> AtMost(front, bound) && (!item.Malformed? ==> item.start <= bound && item.end <= bound)
  {
    var n := |items| - 1;
    assert forall i :: 0 <= i < n ==> items[..n][i] == items[i];
  }

  lemma ObservedFront(items: seq<Item>, tokens: seq<string>)
    requires items != []
    ensures var n := |items| - 1;
            var before := MaxObserved(Normalised(items[..n], tokens));
            MaxObserved(Normalised(items, tokens))
            == if items[n].Malformed? then before else Max(Max(before, items[n].start), items[n].end)
  {
    var n := |items| - 1;
    var front := Normalised(items[..n], tokens);
    match items[n]
    case Malformed => assert front + [] == front;
    case Pair(_, _) => MaxObservedStep(front, WordsOf(items[n], TokenAt(tokens, n))[0]);
    case Tagged(_, _, _) => MaxObservedStep(front, WordsOf(items[n], TokenAt(tokens, n))[0]);
  }

  lemma MaxAtMost(a: int, b: int, c: int, bound: int)
    ensures Max(Max(a, b), c) <= bound <==> a <= bound && b <= bound && c <= bound
  {
  }

  lemma {:induction false} ObservedIff(items: seq<Item>, tokens: seq<string>, bound: nat)
    ensures MaxObserved(Normalised(items, tokens)) <= bound <==> AtMost(items, bound)
  {
    if items != [] {
      var front, item := items[..|items| - 1], items[|items| - 1];
      ObservedIff(front, tokens, bound);
      AtMostFront(items, bound);
      ObservedFront(items, tokens);
      if !item.Malformed? {
        MaxAtMost(MaxObserved(Normalised(front, tokens)), item.start, item.end, bound);
      }
    }
  }

  // Where a time of the model ends up: shifted by the start of the padded audio
  // if all times fit into it, and never outside the sentence.
  function Placed(time: int, items: seq<Item>, f: Frame): int
  {
    var offset := if AtMost(items, Max(0, f.paddedEnd - f.paddedStart) + 1000) then f.paddedStart else 0;
    Max(f.start, Min(time + offset, f.end))
  }

  // Every well-formed item becomes one word, in order, with its own token and
  // times; the others are skipped.
  lemma EveryItemIsPlaced(items: seq<Item>, tokens: seq<string>, f: Frame, i: nat)
    requires i < |items| && !items[i].Malformed?
    ensures var words := GlobalTimestamps(items, tokens, f);
            && |words| == Formed(items) && Formed(items[..i]) < |words|
            && words[Formed(items[..i])]
               == Word(TokenOf(items, tokens, i), Placed(items[i].start, items, f),
                       Max(Placed(items[i].start, items, f), Placed(items[i].end, items, f)))
  {
    ItemIsNormalised(items, tokens, i);
    ObservedIff(items, tokens, Max(0, f.paddedEnd - f.paddedStart) + 1000);
  }

  // ---------------------------------------------------------------- timeline

  predicate Nondecreasing(words: seq<Word>)
  {
    forall i, j :: 0 <= i < j < |words| ==> words[i].start <= words[j].start && words[i].end <= words[j].end
  }

  predicate Within(words: seq<Word>, start: int, end: int)
  {
    forall i :: 0 <= i < |words| ==> start <= words[i].start <= words[i].end <= end
  }

  // The model's own times never go back within one segment.
  predicate ItemsNondecreasing(items: seq<Item>)
  {
    forall i, j :: 0 <= i < j < |items| && !items[i].Malformed? && !items[j].Malformed? ==>
      items[i].start <= items[j].start && items[i].end <= items[j].end
  }

  predicate FromItem(w: Word, item: Item)
  {
    !item.Malformed? && w.start == item.start && w.end == item.end
  }

  lemma {:induction false} NormalisedFromItems(items: seq<Item>, tokens: seq<string>, k: nat) returns (i: nat)
    requires k < |Normalised(items, tokens)|
    ensures i < |items| && FromItem(Normalised(items, tokens)[k], items[i])
  {
    var n := |items| - 1;
    if k < |Normalised(items[..n], tokens)| {
      i := NormalisedFromItems(items[..n], tokens, k);
    } else {
      i := n;
    }
  }

  lemma {:induction false} NormalisedNondecreasing(items: seq<Item>, tokens: seq<string>)
    requires ItemsNondecreasing(items)
    ensures Nondecreasing(Normalised(items, tokens))
  {
    if items != [] {
      var n := |items| - 1;
      var front, all := Normalised(items[..n], tokens), Normalised(items, tokens);
      NormalisedNondecreasing(items[..n], tokens);
      forall i, j | 0 <= i < j < |all|
        ensures all[i].start <= all[j].start && all[i].end <= all[j].end
      {
        assert all[i] == front[i];
        if j < |front| {
          assert all[j] == front[j];
        } else {
          var source := NormalisedFromItems(items[..n], tokens, i);
          assert items[..n][source] == items[source];
        }
      }
    }
  }

  // Whatever the model says, every word lies inside its sentence, and the
  // order of the model's times survives offset and clamping.
  lemma TimestampsFitSentence(items: seq<Item>, tokens: seq<string>, f: Frame)
    requires f.start <= f.end
    ensures Within(GlobalTimestamps(items, tokens, f), f.start, f.end)
    ensures ItemsNondecreasing(items) ==> Nondecreasing(GlobalTimestamps(items, tokens, f))
  {
    if ItemsNondecreasing(items) {
      NormalisedNondecreasing(items, tokens);
    }
  }

  // ------------------------------------------------- sentences of a session

  datatype Sentence = Sentence(start: int, end: int, words: seq<Word>)

  predicate SentenceOk(s: Sentence)
  {
    s.start <= s.end && Within(s.words, s.start, s.end)
  }

  predicate SentenceAt(sentences: seq<Sentence>, i: nat)
    requires i < |sentences|
  {
    SentenceOk(sentences[i])
  }

  predicate SentencesApart(sentences: seq<Sentence>, i: nat, j: nat)
    requires i < j < |sentences|
  {
    sentences[i].end <= sentences[j].start
  }

  // Each sentence starts at or after the end of every earlier one and contains
  // its words.
  predicate SentencesOrdered(sentences: seq<Sentence>)
  {
    && (forall i: nat :: i < |sentences| ==> SentenceAt(sentences, i))
    && (forall i: nat, j: nat :: i < j < |sentences| ==> SentencesApart(sentences, i, j))
  }

  predicate EndsBy(sentences: seq<Sentence>, i: nat, bound: int)
    requires i < |sentences|
  {
    sentences[i].end <= bound
  }

  predicate MonotoneAt(sentences: seq<Sentence>, i: nat)
    requires i < |sentences|
  {
    Nondecreasing(sentences[i].words)
  }

  // Ordered sentences that end by a bound, with ordered words if asked for.
  predicate LockedBy(sentences: seq<Sentence>, bound: int, monotone: bool)
  {
    && SentencesOrdered(sentences)
    && (forall i: nat :: i < |sentences| ==> EndsBy(sentences, i, bound))
    && (monotone ==> forall i: nat :: i < |sentences| ==> MonotoneAt(sentences, i))
  }

  lemma LockedLater(sentences: seq<Sentence>, bound: int, later: int, monotone: bool)
    requires LockedBy(sentences, bound, monotone) && bound <= later
    ensures LockedBy(sentences, later, monotone)
  {
    forall i: nat | i < |sentences|
      ensures EndsBy(sentences, i, later)
    {
      assert EndsBy(sentences, i, bound);
    }
  }

  lemma LockedAppend(sentences: seq<Sentence>, bound: int, monotone: bool, s: Sentence)
    requires LockedBy(sentences, bound, monotone) && bound <= s.start && SentenceOk(s)
    requires monotone ==> Nondecreasing(s.words)
    ensures LockedBy(sentences + [s], s.end, monotone)
  {
    var grown, n := sentences + [s], |sentences|;
    forall i: nat | i < |grown|
      ensures SentenceAt(grown, i) && EndsBy(grown, i, s.end) && (monotone ==> MonotoneAt(grown, i))
    {
      if i < n {
        assert SentenceAt(sentences, i) && EndsBy(sentences, i, bound);
        assert monotone ==> MonotoneAt(sentences, i);
      }
    }
    forall i: nat, j: nat | i < j < |grown|
      ensures SentencesApart(grown, i, j)
    {
      assert EndsBy(sentences, i, bound);
      if j < n {
        assert SentencesApart(sentences, i, j);
      }
    }
  }

  lemma LockedFront(sentences: seq<Sentence>, bound: int, monotone: bool)
    requires sentences != [] && LockedBy(sentences, bound, monotone)
    ensures LockedBy(sentences[..|sentences| - 1], sentences[|sentences| - 1].start, monotone)
  {
    var n := |sentences| - 1;
    var front := sentences[..n];
    forall i: nat | i < n
      ensures SentenceAt(front, i) && EndsBy(front, i, sentences[n].start) && (monotone ==> MonotoneAt(front, i))
    {
      assert SentenceAt(sentences, i) && SentencesApart(sentences, i, n);
      assert monotone ==> MonotoneAt(sentences, i);
    }
    forall i: nat, j: nat | i < j < n
      ensures SentencesApart(front, i, j)
    {
      assert SentencesApart(sentences, i, j);
    }
  }

  function AllWords(sentences: seq<Sentence>): seq<Word>
  {
    if sentences == [] then []
    else AllWords(sentences[..|sentences| - 1]) + sentences[|sentences| - 1].words
  }

  predicate WordsEndBy(words: seq<Word>, bound: int)
  {
    forall k :: 0 <= k < |words| ==> words[k].start <= bound && words[k].end <= bound
  }

  lemma JoinNondecreasing(before: seq<Word>, after: seq<Word>, bound: int)
    requires Nondecreasing(before) && WordsEndBy(before, bound)
    requires Nondecreasing(after) && forall k :: 0 <= k < |after| ==> bound <= after[k].start && bound <= after[k].end
    ensures Nondecreasing(before + after)
  {
  }

  // Over a whole session the word times never go back.
  lemma {:induction false} SessionWordsNondecreasing(sentences: seq<Sentence>, bound: int)
    requires LockedBy(sentences, bound, true)
    ensures Nondecreasing(AllWords(sentences)) && WordsEndBy(AllWords(sentences), bound)
  {
    if sentences != [] {
      var n := |sentences| - 1;
      LockedFront(sentences, bound, true);
      SessionWordsNondecreasing(sentences[..n], sentences[n].start);
      assert SentenceAt(sentences, n) && MonotoneAt(sentences, n) && EndsBy(sentences, n, bound);
      JoinNondecreasing(AllWords(sentences[..n]), sentences[n].words, sentences[n].start);
    }
  }
}
