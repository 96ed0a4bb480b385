// Splitting long text for the punctuation model and joining the answers.

module Punctuation {
  import opened Arithmetic
  import opened Wrappers
  import opened TextAlignment

  const SoftBreaks := "了的呢啊呀吗吧嘛么着儿啦喽"
  const Terminals := "。！？!?"

  // re.sub(r"\s+", "", text)
  function Compact(text: string): (r: string)
    ensures forall c :: c in r ==> !IsSpace(c)
  {
    if text == "" then ""
    else
      var front, last := Compact(text[..|text| - 1]), text[|text| - 1];
      if IsSpace(last) then front else front + [last]
  }

  // White space goes; every other character stays, in its order.
  lemma {:induction false} CompactAppend(a: string, b: string)
    ensures Compact(a + b) == Compact(a) + Compact(b)
  {
    if b == "" {
      assert a + b == a;
    } else {
      assert (a + b)[..|a + b| - 1] == a + b[..|b| - 1];
      CompactAppend(a, b[..|b| - 1]);
    }
  }

  lemma CompactOne(c: char)
    ensures Compact([c]) == if IsSpace(c) then "" else [c]
  {
    assert [c][..0] == "";
  }

  lemma {:induction false} CompactDense(text: string)
    requires forall c :: c in text ==> !IsSpace(c)
    ensures Compact(text) == text
  {
    if text != "" {
      var n := |text| - 1;
      assert text == text[..n] + [text[n]];
      CompactDense(text[..n]);
    }
  }

  predicate SoftAt(text: string, end: int)
  {
    1 <= end <= |text| && text[end - 1] in SoftBreaks
  }

  // The last soft break in (low, from], if any.
  function LastSoft(text: string, low: int, from: int): Option<int>
    decreases from - low
  {
    if from <= low then None
    else if SoftAt(text, from) then Some(from)
    else LastSoft(text, low, from - 1)
  }

  // Where a part that begins at `start` ends.
  function PartEnd(text: string, start: nat, maxChars: nat): (end: nat)
    requires start < |text| && maxChars >= 1
    ensures start < end <= Min(start + maxChars, |text|)
  {
    var hard := Min(start + maxChars, |text|);
    if hard == |text| then hard
    else
      LastSoftRange(text, Max(start + 30, hard - 24), hard);
      var soft := LastSoft(text, Max(start + 30, hard - 24), hard);
      if soft.Some? then soft.value else hard
  }

  // Unless the text ends first, a part ends at the last soft break of the window
  // in front of its limit, or at the limit if there is none.
  predicate EndsPart(text: string, start: nat, end: nat, maxChars: nat)
  {
    var hard := start + maxChars;
    var low := Max(start + 30, hard - 24);
    if hard >= |text| then end == |text|
    else if low < end && SoftAt(text, end) then end <= hard && NoSoft(text, end, hard)
    else end == hard && NoSoft(text, low, hard)
  }

  predicate NoSoft(text: string, low: int, high: int)
  {
    forall k :: low < k <= high ==> !SoftAt(text, k)
  }

  lemma PartEndsRight(text: string, start: nat, maxChars: nat)
    requires start < |text| && maxChars >= 1
    ensures EndsPart(text, start, PartEnd(text, start, maxChars), maxChars)
  {
    LastSoftRange(text, Max(start + 30, start + maxChars - 24), start + maxChars);
  }

  lemma {:induction false} LastSoftRange(text: string, low: int, from: int)
    ensures match LastSoft(text, low, from)
            case Some(end) => low < end <= from && SoftAt(text, end) && forall k :: end < k <= from ==> !SoftAt(text, k)
            case None => forall k :: low < k <= from ==> !SoftAt(text, k)
    decreases from - low
  {
    if from > low && !SoftAt(text, from) {
      LastSoftRange(text, low, from - 1);
    }
  }

  function PartsFrom(text: string, start: nat, maxChars: nat): seq<string>
    requires start <= |text| && maxChars >= 1
    decreases |text| - start
  {
    if start == |text| then []
    else
      var end := PartEnd(text, start, maxChars);
      [text[start..end]] + PartsFrom(text, end, maxChars)
  }

  function Parts(text: string, maxChars: nat): seq<string>
    requires maxChars >= 1
  {
    var compact := Compact(text);
    if |compact| <= maxChars then [compact] else PartsFrom(compact, 0, maxChars)
  }

  // The end of one part: the hard limit, or the last soft break not too far
  // in front of it.
  method FindEnd(compact: string, start: nat, maxChars: nat) returns (end: nat)
    requires start < |compact| && maxChars >= 1
    ensures end == PartEnd(compact, start, maxChars) && EndsPart(compact, start, end, maxChars)
  {
    PartEndsRight(compact, start, maxChars);
    end := Min(start + maxChars, |compact|);
    if end < |compact| {
      var hard, low := end, Max(start + 30, end - 24);
      var index := end;
      while index > low
        invariant end == hard && index <= hard && LastSoft(compact, low, hard) == LastSoft(compact, low, index)
      {
        if compact[index - 1] in SoftBreaks {
          end := index;
          break;
        }
        index := index - 1;
      }
    }
  }

  method SplitTextForPunc(text: string, maxChars: nat) returns (parts: seq<string>)
    requires maxChars >= 1
    ensures parts == Parts(text, maxChars)
  {
    var compact := Compact(text);
    if |compact| <= maxChars {
      return [compact];
    }
    parts := [];
    var start: nat := 0;
    ghost var all := PartsFrom(compact, 0, maxChars);
    while start < |compact|
      invariant start <= |compact| && all == parts + PartsFrom(compact, start, maxChars)
      decreases |compact| - start
    {
      var end := FindEnd(compact, start, maxChars);
      assert parts + ([compact[start..end]] + PartsFrom(compact, end, maxChars))
          == parts + [compact[start..end]] + PartsFrom(compact, end, maxChars);
      parts := parts + [compact[start..end]];
      start := end;
    }
    assert parts + [] == parts;
  }

  // ----------------------------------------------------------- properties

  function Concat(parts: seq<string>): string
  {
    if parts == [] then "" else parts[0] + Concat(parts[1..])
  }

  // A soft break is at least 31 characters into a part and at most 23 before
  // the limit.
  function LeastPart(maxChars: nat): nat
  {
    Min(maxChars, Max(31, maxChars - 23))
  }

  predicate PartOk(parts: seq<string>, i: nat, maxChars: nat)
    requires i < |parts|
  {
    1 <= |parts[i]| <= maxChars && (i + 1 < |parts| ==> |parts[i]| >= LeastPart(maxChars))
  }

  lemma {:induction false} PartsFromOk(text: string, start: nat, maxChars: nat)
    requires start <= |text| && maxChars >= 1
    ensures Concat(PartsFrom(text, start, maxChars)) == text[start..]
    ensures forall i: nat :: i < |PartsFrom(text, start, maxChars)| ==>
              PartOk(PartsFrom(text, start, maxChars), i, maxChars)
    decreases |text| - start
  {
    if start < |text| {
      var end, parts := PartEnd(text, start, maxChars), PartsFrom(text, start, maxChars);
      var hard := Min(start + maxChars, |text|);
      LastSoftRange(text, Max(start + 30, hard - 24), hard);
      PartsFromOk(text, end, maxChars);
      assert text[start..] == text[start..end] + text[end..];
      forall i: nat | i < |parts|
        ensures PartOk(parts, i, maxChars)
      {
        if i > 0 {
          assert PartOk(PartsFrom(text, end, maxChars), i - 1, maxChars);
        }
      }
    }
  }

  // The parts give back the text without its white space, none is longer than
  // allowed, and all but the last are reasonably long.
  lemma SplitIsExact(text: string, maxChars: nat)
    requires maxChars >= 1
    ensures var parts := Parts(text, maxChars);
            && Concat(parts) == Compact(text)
            && (forall i :: 0 <= i < |parts| ==> |parts[i]| <= maxChars)
            && (Compact(text) != "" ==> forall i :: 0 <= i < |parts| ==> parts[i] != "")
            && (forall i :: 0 <= i < |parts| - 1 ==> |parts[i]| >= LeastPart(maxChars))
  {
    var compact := Compact(text);
    if |compact| <= maxChars {
      assert Concat([compact]) == compact + Concat([compact][1..]);
    } else {
      PartsFromOk(compact, 0, maxChars);
      var parts := PartsFrom(compact, 0, maxChars);
      forall i | 0 <= i < |parts|
        ensures 1 <= |parts[i]| <= maxChars && (i < |parts| - 1 ==> |parts[i]| >= LeastPart(maxChars))
      {
        assert PartOk(parts, i, maxChars);
      }
    }
  }

  lemma {:induction false} ConcatLength(parts: seq<string>, least: nat)
    requires parts != [] && forall i :: 0 <= i < |parts| ==> |parts[i]| >= 1
    requires forall i :: 0 <= i < |parts| - 1 ==> |parts[i]| >= least
    ensures |Concat(parts)| >= (|parts| - 1) * least + 1
  {
    if |parts| > 1 {
      assert forall i :: 0 <= i < |parts[1..]| ==> parts[1..][i] == parts[i + 1];
      ConcatLength(parts[1..], least);
      assert (|parts| - 1) * least == (|parts| - 2) * least + least;
    }
  }

  lemma {:induction false} PartsFromEndRight(text: string, start: nat, maxChars: nat, i: nat, at: nat)
    requires start <= |text| && maxChars >= 1 && i < |PartsFrom(text, start, maxChars)|
    requires at == start + |Concat(PartsFrom(text, start, maxChars)[..i])|
    ensures EndsPart(text, at, at + |PartsFrom(text, start, maxChars)[i]|, maxChars)
    decreases i
  {
    var end, parts := PartEnd(text, start, maxChars), PartsFrom(text, start, maxChars);
    if i == 0 {
      PartEndsRight(text, start, maxChars);
    } else {
      var rest := PartsFrom(text, end, maxChars);
      FrontOfCons(parts[0], rest, i);
      ConcatCons(parts[0], rest[..i - 1]);
      PartsFromEndRight(text, end, maxChars, i - 1, at);
    }
  }

  lemma ConcatCons(part: string, rest: seq<string>)
    ensures |Concat([part] + rest)| == |part| + |Concat(rest)|
  {
    assert ([part] + rest)[1..] == rest;
  }

  // Where the text is cut.
  lemma PartsEndRight(text: string, maxChars: nat, i: nat, at: nat)
    requires maxChars >= 1 && i < |Parts(text, maxChars)| && at == |Concat(Parts(text, maxChars)[..i])|
    ensures EndsPart(Compact(text), at, at + |Parts(text, maxChars)[i]|, maxChars)
  {
    var compact, parts := Compact(text), Parts(text, maxChars);
    if |compact| > maxChars {
      assert parts == PartsFrom(compact, 0, maxChars);
      PartsFromEndRight(compact, 0, maxChars, i, at);
    } else {
      assert parts == [compact] && i == 0;
      assert parts[..0] == [];
    }
  }

  // With the limit of 80 the model gets few parts: all but the last have at
  // least 57 characters, so there are at most n / 57 of them, rounded up.
  lemma SplitAt80(text: string)
    requires Compact(text) != ""
    ensures forall i :: 0 <= i < |Parts(text, 80)| - 1 ==> |Parts(text, 80)[i]| >= 57
    ensures |Parts(text, 80)| <= (|Compact(text)| + 56) / 57
  {
    SplitIsExact(text, 80);
    ConcatLength(Parts(text, 80), 57);
  }

  // ----------------------------------------------------------------- joining

  function StripLeft(text: string): string
  {
    if text != "" && IsSpace(text[0]) then StripLeft(text[1..]) else text
  }

  function StripRight(text: string): string
  {
    if text != "" && IsSpace(text[|text| - 1]) then StripRight(text[..|text| - 1]) else text
  }

  function Strip(text: string): string { StripRight(StripLeft(text)) }

  function Closed(text: string): string
  {
    if text != "" && text[|text| - 1] !in Terminals then text + "。" else text
  }

  function Cleaned(parts: seq<string>): string
  {
    if parts == [] then "" else Strip(parts[0]) + Cleaned(parts[1..])
  }

  // _join_punctuated_parts: empty parts contribute nothing.
  function JoinPunctuatedParts(parts: seq<string>): string { Closed(Cleaned(parts)) }

  function FallbackPunctuation(text: string): string { Closed(Compact(text)) }

  predicate AllSpace(text: string) { forall i :: 0 <= i < |text| ==> IsSpace(text[i]) }

  lemma {:induction false} StripLeftTrims(text: string) returns (from: nat)
    ensures from <= |text| && StripLeft(text) == text[from..] && AllSpace(text[..from])
    ensures from < |text| ==> !IsSpace(text[from])
  {
    if text != "" && IsSpace(text[0]) {
      var rest := StripLeftTrims(text[1..]);
      from := rest + 1;
      assert text[1..][rest..] == text[from..] && text[..from] == [text[0]] + text[1..][..rest];
    } else {
      from := 0;
    }
  }

  lemma {:induction false} StripRightTrims(text: string) returns (to: nat)
    ensures to <= |text| && StripRight(text) == text[..to] && AllSpace(text[to..])
    ensures to > 0 ==> !IsSpace(text[to - 1])
  {
    var n := |text| - 1;
    if text != "" && IsSpace(text[n]) {
      to := StripRightTrims(text[..n]);
      assert text[..n][..to] == text[..to] && text[to..] == text[..n][to..] + [text[n]];
    } else {
      to := |text|;
    }
  }

  // Stripping cuts off exactly the white space at both ends.
  lemma StripTrims(text: string) returns (from: nat, to: nat)
    ensures from <= to <= |text| && Strip(text) == text[from..to]
    ensures AllSpace(text[..from]) && AllSpace(text[to..])
    ensures from < to ==> !IsSpace(text[from]) && !IsSpace(text[to - 1])
  {
    from := StripLeftTrims(text);
    var length := StripRightTrims(text[from..]);
    to := from + length;
    assert text[from..][..length] == text[from..to] && text[from..][length..] == text[to..];
  }

  lemma StripOfDense(text: string)
    requires forall c :: c in text ==> !IsSpace(c)
    ensures Strip(text) == text
  {
  }

  lemma {:induction false} CleanedOfDense(parts: seq<string>)
    requires forall i :: 0 <= i < |parts| ==> forall c :: c in parts[i] ==> !IsSpace(c)
    ensures Cleaned(parts) == Concat(parts)
  {
    if parts != [] {
      StripOfDense(parts[0]);
      CleanedOfDense(parts[1..]);
    }
  }

  lemma {:induction false} ConcatHolds(parts: seq<string>, i: nat)
    requires i < |parts|
    ensures forall c :: c in parts[i] ==> c in Concat(parts)
  {
    if i > 0 {
      ConcatHolds(parts[1..], i - 1);
    }
  }

  // The stripped parts are joined one behind the other.
  lemma {:induction false} CleanedAppend(a: seq<string>, b: seq<string>)
    ensures Cleaned(a + b) == Cleaned(a) + Cleaned(b)
  {
    if a == [] {
      assert a + b == b;
    } else {
      assert (a + b)[1..] == a[1..] + b;
      CleanedAppend(a[1..], b);
    }
  }

  // When the model leaves every part as it is, splitting and joining amount to
  // the heuristic used without a model.
  lemma SplitThenJoinIsFallback(text: string, maxChars: nat)
    requires maxChars >= 1
    ensures JoinPunctuatedParts(Parts(text, maxChars)) == FallbackPunctuation(text)
  {
    var parts := Parts(text, maxChars);
    SplitIsExact(text, maxChars);
    forall i: nat | i < |parts|
      ensures forall c :: c in parts[i] ==> !IsSpace(c)
    {
      ConcatHolds(parts, i);
    }
    CleanedOfDense(parts);
  }

  // Whatever the model says, a joined text that is not empty ends a sentence.
  lemma JoinEndsSentence(parts: seq<string>)
    ensures var joined := JoinPunctuatedParts(parts);
            && (joined != "" ==> joined[|joined| - 1] in Terminals)
            && (joined == Cleaned(parts) || joined == Cleaned(parts) + "。")
            && (Cleaned(parts) == "" || Cleaned(parts)[|Cleaned(parts)| - 1] in Terminals ==> joined == Cleaned(parts))
  {
    var cleaned := Cleaned(parts);
    assert Terminals[0] == '。';
    if cleaned != "" && cleaned[|cleaned| - 1] !in Terminals {
      assert (cleaned + "。")[|cleaned|] == '。';
    }
  }

  // A sentence mark is added where there is none, and only there.
  lemma FallbackTwice(text: string)
    ensures FallbackPunctuation(FallbackPunctuation(text)) == FallbackPunctuation(text)
    ensures Compact(text) != "" && Compact(text)[|Compact(text)| - 1] in Terminals ==>
              FallbackPunctuation(text) == Compact(text)
  {
    var once := FallbackPunctuation(text);
    assert Terminals[0] == '。' && !IsSpace('。');
    CompactDense(once);
  }

  // What the model makes of one part.
  datatype Answer = Text(text: string) | Raised

  function Punctuated(part: string, answer: Answer): string
  {
    match answer
    case Raised => FallbackPunctuation(part)
    case Text(text) => if text != "" then text else part
  }

  function AllPunctuated(parts: seq<string>, model: string -> Answer): seq<string>
  {
    if parts == [] then []
    else
      var last := parts[|parts| - 1];
      AllPunctuated(parts[..|parts| - 1], model) + [Punctuated(last, model(last))]
  }

  // Each part is what the model makes of it, the part itself if that is nothing,
  // and the heuristic's if the model fails.
  lemma {:induction false} PunctuatedAt(parts: seq<string>, model: string -> Answer, i: nat)
    requires i < |parts|
    ensures |AllPunctuated(parts, model)| == |parts|
    ensures AllPunctuated(parts, model)[i]
         == match model(parts[i])
            case Raised => FallbackPunctuation(parts[i])
            case Text(text) => if text == "" then parts[i] else text
  {
    var n := |parts| - 1;
    PunctuatedLength(parts[..n], model);
    if i < n {
      PunctuatedAt(parts[..n], model, i);
    }
  }

  lemma {:induction false} PunctuatedLength(parts: seq<string>, model: string -> Answer)
    ensures |AllPunctuated(parts, model)| == |parts|
  {
    if parts != [] {
      PunctuatedLength(parts[..|parts| - 1], model);
    }
  }

  // The branch for long texts: every part is punctuated on its own, and a part
  // the model fails on falls back to the heuristic.
  method GenerateLong(text: string, model: string -> Answer) returns (joined: string)
    ensures joined == JoinPunctuatedParts(AllPunctuated(Parts(text, 80), model))
    ensures joined != "" ==> joined[|joined| - 1] in Terminals
  {
    var parts := SplitTextForPunc(text, 80);
    var punctuated := [];
    for i := 0 to |parts|
      invariant punctuated == AllPunctuated(parts[..i], model)
    {
      assert parts[..i + 1][..i] == parts[..i];
      punctuated := punctuated + [Punctuated(parts[i], model(parts[i]))];
    }
    assert parts[..|parts|] == parts;
    joined := JoinPunctuatedParts(punctuated);
    JoinEndsSentence(punctuated);
  }
}
