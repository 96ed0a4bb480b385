// Aligning recognised text with its timestamps: the text is cut into words,
// single characters and separators, and every unit takes the next timestamp.

module TextAlignment {
  import opened Arithmetic
  import opened Wrappers

  // Characters for which str.isspace() holds.
  predicate IsSpace(c: char)
  {
    || '\t' <= c <= '\r' || '\U{1C}' <= c <= ' ' || c == '\U{85}' || c == '\U{A0}' || c == '\U{1680}'
    || '\U{2000}' <= c <= '\U{200A}' || c == '\U{2028}' || c == '\U{2029}' || c == '\U{202F}'
    || c == '\U{205F}' || c == '\U{3000}'
  }

  // The punctuation marks listed by the source; the two adjacent literals there
  // contribute the apostrophe but no double quote.
  const Marks := ['\U{3002}', '\U{FF01}', '\U{FF1F}', '!', '?', '\U{FF0C}', ',', '\U{3001}', '\U{FF1A}', ':',
                  '\U{FF1B}', ';', '\U{FF08}', '\U{FF09}', '(', ')', '\U{3010}', '\U{3011}', '[', ']',
                  '\U{300A}', '\U{300B}', '<', '>', '\'', '\U{2026}']

  predicate IsSeparator(c: char) { IsSpace(c) || c in Marks }

  predicate IsWordChar(c: char)
  {
    'a' <= c <= 'z' || 'A' <= c <= 'Z' || '0' <= c <= '9' || c == '\'' || c == '-'
  }

  datatype Piece = Separator(c: char) | Unit(text: string)

  // A timestamp item with all three fields, or one that is too short.
  datatype Stamp = Stamp(text: string, start: int, end: int) | Short

  datatype Token = Token(text: string, start: int, end: int, details: Option<seq<Stamp>>)

  function WordEnd(text: string, from: nat): (end: nat)
    requires from <= |text|
    ensures from <= end <= |text|
    decreases |text| - from
  {
    if from < |text| && IsWordChar(text[from]) then WordEnd(text, from + 1) else from
  }

  // Where the piece at the front of the text ends.
  function PieceEnd(text: string): (end: nat)
    requires text != ""
    ensures 1 <= end <= |text|
  {
    if !IsSeparator(text[0]) && IsWordChar(text[0]) then WordEnd(text, 1) else 1
  }

  function FirstPiece(text: string): Piece
    requires text != ""
  {
    if IsSeparator(text[0]) then Separator(text[0]) else Unit(text[..PieceEnd(text)])
  }

  function Pieces(text: string): seq<Piece>
  {
    if text == "" then [] else [FirstPiece(text)] + Pieces(text[PieceEnd(text)..])
  }

  function PieceText(p: Piece): string { if p.Separator? then [p.c] else p.text }

  function Spelled(pieces: seq<Piece>): string
  {
    if pieces == [] then "" else Spelled(pieces[..|pieces| - 1]) + PieceText(pieces[|pieces| - 1])
  }

  function CountUnits(pieces: seq<Piece>): nat
  {
    if pieces == [] then 0
    else CountUnits(pieces[..|pieces| - 1]) + if pieces[|pieces| - 1].Unit? then 1 else 0
  }

  // ------------------------------------------------------------- one piece

  // The tokens so far, the next timestamp and the separators waiting for the
  // first token.
  datatype Progress = Progress(tokens: seq<Token>, next: nat, prefix: string)

  function ExtendLast(tokens: seq<Token>, more: string): seq<Token>
    requires tokens != []
  {
    var last := tokens[|tokens| - 1];
    tokens[|tokens| - 1 := last.(text := last.text + more)]
  }

  function Feed(a: Progress, p: Piece, stamps: seq<Stamp>, detail: bool): Progress
  {
    match p
    case Separator(c) =>
      if a.tokens != [] then a.(tokens := ExtendLast(a.tokens, [c])) else a.(prefix := a.prefix + [c])
    case Unit(unit) =>
      if a.next >= |stamps| then
        if a.tokens != [] then a.(tokens := ExtendLast(a.tokens, unit)) else a
      else
        match stamps[a.next]
        case Short => a.(next := a.next + 1)
        case Stamp(_, start, end) =>
          var token := Token(a.prefix + unit, start, end, if detail then Some([stamps[a.next]]) else None);
          Progress(a.tokens + [token], a.next + 1, "")
  }

  function FeedAll(pieces: seq<Piece>, stamps: seq<Stamp>, detail: bool): Progress
  {
    if pieces == [] then Progress([], 0, "")
    else Feed(FeedAll(pieces[..|pieces| - 1], stamps, detail), pieces[|pieces| - 1], stamps, detail)
  }

  function Align(text: string, stamps: seq<Stamp>, detail: bool): seq<Token>
  {
    var a := FeedAll(Pieces(text), stamps, detail);
    if a.prefix != "" && a.tokens != [] then ExtendLast(a.tokens, a.prefix) else a.tokens
  }

  lemma FeedNext(done: seq<Piece>, p: Piece, stamps: seq<Stamp>, detail: bool)
    ensures FeedAll(done + [p], stamps, detail) == Feed(FeedAll(done, stamps, detail), p, stamps, detail)
  {
    assert (done + [p])[..|done|] == done;
  }

  lemma WordEndShift(text: string, at: nat, from: nat)
    requires at <= from <= |text|
    ensures WordEnd(text[at..], from - at) == WordEnd(text, from) - at
    decreases |text| - from
  {
    if from < |text| && IsWordChar(text[from]) {
      WordEndShift(text, at, from + 1);
    }
  }

  // The piece at a position, and what is left behind it.
  lemma PieceAt(text: string, index: nat, rest: string, next: nat)
    requires index < |text| && rest == text[index..] && next == index + PieceEnd(rest)
    ensures Pieces(rest) == [FirstPiece(rest)] + Pieces(text[next..])
    ensures FirstPiece(rest) == if IsSeparator(text[index]) then Separator(text[index]) else Unit(text[index..next])
  {
    assert rest[next - index..] == text[next..];
    assert rest[..next - index] == text[index..next];
  }

  lemma PieceEndAt(text: string, index: nat)
    requires index < |text|
    ensures index + PieceEnd(text[index..])
         == if !IsSeparator(text[index]) && IsWordChar(text[index]) then WordEnd(text, index + 1) else index + 1
  {
    assert text[index..][0] == text[index];
    WordEndShift(text, index, index + 1);
  }

  // The pieces in front of a position.
  predicate CutAt(text: string, done: seq<Piece>, index: nat)
  {
    index <= |text| && Pieces(text) == done + Pieces(text[index..])
  }

  lemma CutSeparator(text: string, done: seq<Piece>, index: nat)
    requires CutAt(text, done, index) && index < |text| && IsSeparator(text[index])
    ensures CutAt(text, done + [Separator(text[index])], index + 1)
  {
    PieceEndAt(text, index);
    PieceAt(text, index, text[index..], index + 1);
    CutStep(text, done, index, Separator(text[index]), index + 1);
  }

  lemma CutUnit(text: string, done: seq<Piece>, index: nat, next: nat)
    requires CutAt(text, done, index) && NextPiece(text, index, next)
    ensures CutAt(text, done + [Unit(text[index..next])], next)
  {
    UnitAt(text, index, next);
    CutStep(text, done, index, Unit(text[index..next]), next);
  }

  lemma UnitAt(text: string, index: nat, next: nat)
    requires NextPiece(text, index, next)
    ensures Pieces(text[index..]) == [Unit(text[index..next])] + Pieces(text[next..])
  {
    PieceAt(text, index, text[index..], next);
  }

  lemma CutStep(text: string, done: seq<Piece>, index: nat, p: Piece, next: nat)
    requires CutAt(text, done, index) && next <= |text| && Pieces(text[index..]) == [p] + Pieces(text[next..])
    ensures CutAt(text, done + [p], next)
  {
    assert done + ([p] + Pieces(text[next..])) == done + [p] + Pieces(text[next..]);
  }

  predicate AllWordChars(text: string, from: nat, to: nat)
    requires from <= to <= |text|
  {
    forall i :: from <= i < to ==> IsWordChar(text[i])
  }

  // A maximal run of word characters, or a single other character.
  predicate IsUnit(text: string, from: nat, to: nat)
  {
    && from < to <= |text| && !IsSeparator(text[from])
    && if IsWordChar(text[from]) then AllWordChars(text, from, to) && (to < |text| ==> !IsWordChar(text[to]))
       else to == from + 1
  }

  lemma {:induction false} WordEndIsMaximal(text: string, from: nat)
    requires from <= |text|
    ensures AllWordChars(text, from, WordEnd(text, from))
    ensures WordEnd(text, from) < |text| ==> !IsWordChar(text[WordEnd(text, from)])
    decreases |text| - from
  {
    if from < |text| && IsWordChar(text[from]) {
      WordEndIsMaximal(text, from + 1);
    }
  }

  // What a piece is, in terms of the characters of the text.
  predicate CutsAt(text: string, at: nat, p: Piece)
  {
    match p
    case Separator(c) => at < |text| && text[at] == c && IsSeparator(c)
    case Unit(unit) => at + |unit| <= |text| && unit == text[at..at + |unit|] && IsUnit(text, at, at + |unit|)
  }

  lemma FirstPieceCuts(text: string)
    requires text != ""
    ensures CutsAt(text, 0, FirstPiece(text))
  {
    if !IsSeparator(text[0]) && IsWordChar(text[0]) {
      WordEndIsMaximal(text, 1);
    }
  }

  lemma CutsBehind(text: string, end: nat, at: nat, place: nat, p: Piece)
    requires end <= |text| && place == end + at && CutsAt(text[end..], at, p)
    ensures CutsAt(text, place, p)
  {
    var rest := text[end..];
    assert forall i :: 0 <= i < |rest| ==> rest[i] == text[end + i];
    if p.Unit? {
      var to := at + |p.text|;
      assert rest[at..to] == text[end + at..end + to];
      if IsWordChar(rest[at]) {
        forall i | end + at <= i < end + to
          ensures IsWordChar(text[i])
        {
          assert IsWordChar(rest[i - end]);
        }
      }
    }
  }

  lemma FrontOfCons<T>(x: T, rest: seq<T>, i: nat)
    requires 0 < i <= |rest|
    ensures ([x] + rest)[..i] == [x] + rest[..i - 1] && ([x] + rest)[i] == rest[i - 1]
  {
  }

  lemma CutsLater(text: string, end: nat, p: Piece, front: seq<Piece>, next: Piece)
    requires |PieceText(p)| == end <= |text|
    requires CutsAt(text[end..], |Spelled(front)|, next)
    ensures CutsAt(text, |Spelled([p] + front)|, next)
  {
    SpelledLength(p, front);
    CutsBehind(text, end, |Spelled(front)|, |Spelled([p] + front)|, next);
  }

  lemma SpelledLength(p: Piece, front: seq<Piece>)
    ensures |Spelled([p] + front)| == |PieceText(p)| + |Spelled(front)|
  {
    SpelledCons(p, front);
  }

  // The pieces are the separators and the units of the text, one behind the other.
  lemma {:induction false} PiecesAreMaximal(text: string, i: nat)
    requires i < |Pieces(text)|
    ensures CutsAt(text, |Spelled(Pieces(text)[..i])|, Pieces(text)[i])
  {
    if i == 0 {
      FirstPieceCuts(text);
    } else {
      var end, p := PieceEnd(text), FirstPiece(text);
      var rest := Pieces(text[end..]);
      PiecesAreMaximal(text[end..], i - 1);
      FirstPieceText(text);
      CutsLater(text, end, p, rest[..i - 1], rest[i - 1]);
      FrontOfCons(p, rest, i);
    }
  }

  // A unit lies between two positions.
  predicate NextPiece(text: string, index: nat, next: nat)
  {
    index < next <= |text| && !IsSeparator(text[index]) && next == index + PieceEnd(text[index..])
  }

  // A run of word characters, or a single other character.
  method NextUnit(text: string, index: nat) returns (unit: string, nextIndex: nat)
    requires index < |text| && !IsSeparator(text[index])
    ensures NextPiece(text, index, nextIndex) && unit == text[index..nextIndex]
    ensures IsUnit(text, index, nextIndex)
  {
    PieceEndAt(text, index);
    WordEndIsMaximal(text, index + 1);
    nextIndex := index + 1;
    if IsWordChar(text[index]) {
      while nextIndex < |text| && IsWordChar(text[nextIndex])
        invariant index < nextIndex <= |text| && WordEnd(text, nextIndex) == WordEnd(text, index + 1)
      {
        nextIndex := nextIndex + 1;
      }
    }
    unit := text[index..nextIndex];
  }

  // What the loop body does with a unit.
  method FeedUnit(a: Progress, unit: string, stamps: seq<Stamp>, detail: bool) returns (b: Progress)
    ensures b == Feed(a, Unit(unit), stamps, detail)
  {
    if a.next >= |stamps| {
      return if a.tokens != [] then a.(tokens := ExtendLast(a.tokens, unit)) else a;
    }
    var item := stamps[a.next];
    if item.Short? {
      return a.(next := a.next + 1);
    }
    var token := Token(a.prefix + unit, item.start, item.end, if detail then Some([item]) else None);
    return Progress(a.tokens + [token], a.next + 1, "");
  }

  // The aligner itself.
  method AlignTextToTimestamps(text: string, stamps: seq<Stamp>, detail: bool) returns (tokens: seq<Token>)
    ensures tokens == Align(text, stamps, detail)
  {
    var a := Progress([], 0, "");
    var index := 0;
    ghost var done: seq<Piece> := [];
    assert text[0..] == text;
    while index < |text|
      invariant 0 <= index <= |text| && CutAt(text, done, index)
      invariant a == FeedAll(done, stamps, detail)
      decreases |text| - index
    {
      if IsSeparator(text[index]) {
        CutSeparator(text, done, index);
        FeedNext(done, Separator(text[index]), stamps, detail);
        done := done + [Separator(text[index])];
        if a.tokens != [] {
          a := a.(tokens := ExtendLast(a.tokens, [text[index]]));
        } else {
          a := a.(prefix := a.prefix + [text[index]]);
        }
        index := index + 1;
      } else {
        var unit, next := NextUnit(text, index);
        CutUnit(text, done, index, next);
        FeedNext(done, Unit(unit), stamps, detail);
        done := done + [Unit(unit)];
        a := FeedUnit(a, unit, stamps, detail);
        index := next;
      }
    }
    CutAll(text, done);
    tokens := if a.prefix != "" && a.tokens != [] then ExtendLast(a.tokens, a.prefix) else a.tokens;
  }

  lemma CutAll(text: string, done: seq<Piece>)
    requires CutAt(text, done, |text|)
    ensures done == Pieces(text)
  {
    assert done + Pieces(text[|text|..]) == done;
  }

  // --------------------------------------------------------- preservation

  function TokenText(tokens: seq<Token>): string
  {
    if tokens == [] then "" else TokenText(tokens[..|tokens| - 1]) + tokens[|tokens| - 1].text
  }

  lemma TokenTextSnoc(tokens: seq<Token>, t: Token)
    ensures TokenText(tokens + [t]) == TokenText(tokens) + t.text
  {
    assert (tokens + [t])[..|tokens|] == tokens;
  }

  lemma TokenTextExtend(tokens: seq<Token>, more: string)
    requires tokens != []
    ensures TokenText(ExtendLast(tokens, more)) == TokenText(tokens) + more
  {
    assert ExtendLast(tokens, more)[..|tokens| - 1] == tokens[..|tokens| - 1];
  }

  lemma {:induction false} SpelledAppend(a: seq<Piece>, b: seq<Piece>)
    ensures Spelled(a + b) == Spelled(a) + Spelled(b)
  {
    if b == [] {
      assert a + b == a;
    } else {
      assert (a + b)[..|a + b| - 1] == a + b[..|b| - 1];
      SpelledAppend(a, b[..|b| - 1]);
    }
  }

  lemma SpelledCons(p: Piece, rest: seq<Piece>)
    ensures Spelled([p] + rest) == PieceText(p) + Spelled(rest)
  {
    SpelledAppend([p], rest);
    assert [p][..0] == [];
  }

  lemma SpelledRest(text: string, end: nat, p: Piece, rest: seq<Piece>)
    requires end <= |text| && PieceText(p) == text[..end] && Spelled(rest) == text[end..]
    ensures Spelled([p] + rest) == text
  {
    SpelledCons(p, rest);
    assert text == text[..end] + text[end..];
  }

  lemma FirstPieceText(text: string)
    requires text != ""
    ensures PieceText(FirstPiece(text)) == text[..PieceEnd(text)]
  {
  }

  // Cutting a text into pieces loses nothing.
  lemma {:induction false} PiecesSpellText(text: string)
    ensures Spelled(Pieces(text)) == text
  {
    if text != "" {
      PiecesSpellText(text[PieceEnd(text)..]);
      FirstPieceText(text);
      SpelledRest(text, PieceEnd(text), FirstPiece(text), Pieces(text[PieceEnd(text)..]));
    }
  }

  // No unit is empty.
  lemma {:induction false} UnitsNonempty(text: string)
    ensures forall p :: p in Pieces(text) && p.Unit? ==> p.text != "" && !IsSeparator(p.text[0])
  {
    if text != "" {
      UnitsNonempty(text[PieceEnd(text)..]);
    }
  }

  predicate AllFull(stamps: seq<Stamp>, n: nat)
    requires n <= |stamps|
  {
    forall i :: 0 <= i < n ==> stamps[i].Stamp?
  }

  // What the tokens and the waiting prefix spell after some pieces: everything,
  // exactly as long as no unit met a short timestamp or found no timestamp at
  // all.
  predicate SpellsAll(pieces: seq<Piece>, stamps: seq<Stamp>, a: Progress)
  {
    && a.next == Min(CountUnits(pieces), |stamps|)
    && (a.tokens != [] ==> a.prefix == "")
    && |TokenText(a.tokens) + a.prefix| <= |Spelled(pieces)|
    && (TokenText(a.tokens) + a.prefix == Spelled(pieces)
        <==> AllFull(stamps, a.next) && (CountUnits(pieces) > 0 ==> stamps != []))
    && (a.tokens == [] <==> forall i :: 0 <= i < a.next ==> stamps[i].Short?)
  }

  // A unit that meets a timestamp becomes a token behind what waits for one.
  lemma TokenTextPut(a: Progress, unit: string, s: Stamp, details: Option<seq<Stamp>>)
    requires s.Stamp?
    ensures TokenText(a.tokens + [Token(a.prefix + unit, s.start, s.end, details)]) + ""
         == TokenText(a.tokens) + a.prefix + unit
  {
    TokenTextSnoc(a.tokens, Token(a.prefix + unit, s.start, s.end, details));
    Regroup(TokenText(a.tokens), a.prefix, unit);
  }

  // A step keeps the piece, appended to what is spelled so far, unless it drops
  // it for want of a timestamp.
  predicate Appends(a: Progress, b: Progress, p: Piece, stamps: seq<Stamp>)
  {
    var drops := p.Unit? && if a.next >= |stamps| then a.tokens == [] else stamps[a.next].Short?;
    && (b.tokens != [] ==> b.prefix == "")
    && b.next == a.next + (if p.Unit? && a.next < |stamps| then 1 else 0)
    && TokenText(b.tokens) + b.prefix
       == TokenText(a.tokens) + a.prefix + (if drops then "" else PieceText(p))
    && (b.tokens == [] <==> a.tokens == [] && !(p.Unit? && a.next < |stamps| && stamps[a.next].Stamp?))
  }

  lemma FeedKeeps(a: Progress, p: Piece, stamps: seq<Stamp>, detail: bool)
    requires a.tokens != [] ==> a.prefix == ""
    ensures Appends(a, Feed(a, p, stamps, detail), p, stamps)
  {
    match p
    case Separator(c) => KeepsSeparator(a, c, stamps, detail);
    case Unit(unit) => KeepsUnit(a, unit, stamps, detail);
  }

  lemma KeepsSeparator(a: Progress, c: char, stamps: seq<Stamp>, detail: bool)
    requires a.tokens != [] ==> a.prefix == ""
    ensures Appends(a, Feed(a, Separator(c), stamps, detail), Separator(c), stamps)
  {
    if a.tokens != [] {
      TokenTextExtend(a.tokens, [c]);
    } else {
      Regroup(TokenText(a.tokens), a.prefix, [c]);
    }
  }

  lemma KeepsUnit(a: Progress, unit: string, stamps: seq<Stamp>, detail: bool)
    requires a.tokens != [] ==> a.prefix == ""
    ensures Appends(a, Feed(a, Unit(unit), stamps, detail), Unit(unit), stamps)
  {
    if a.next >= |stamps| {
      if a.tokens != [] {
        TokenTextExtend(a.tokens, unit);
      }
    } else if stamps[a.next].Stamp? {
      TokenTextPut(a, unit, stamps[a.next], if detail then Some([stamps[a.next]]) else None);
    }
  }

  lemma Regroup(x: string, y: string, z: string)
    ensures x + (y + z) == x + y + z && x + y + z + "" == x + y + z
  {
  }

  lemma {:induction false} FeedAllSpells(pieces: seq<Piece>, stamps: seq<Stamp>, detail: bool)
    requires forall p :: p in pieces && p.Unit? ==> p.text != ""
    ensures SpellsAll(pieces, stamps, FeedAll(pieces, stamps, detail))
  {
    if pieces != [] {
      var n := |pieces| - 1;
      var a, p := FeedAll(pieces[..n], stamps, detail), pieces[n];
      FeedAllSpells(pieces[..n], stamps, detail);
      FeedKeeps(a, p, stamps, detail);
      assert Spelled(pieces) == Spelled(pieces[..n]) + PieceText(p);
      SpellsStep(pieces, stamps, a, Feed(a, p, stamps, detail));
    }
  }

  // Strings that agree up to a piece agree with it; shorter ones never catch up.
  lemma AppendAgree(x: string, y: string, p: string)
    requires |x| <= |y|
    ensures x + p == y + p <==> x == y
    ensures p != "" ==> x != y + p
  {
    if x + p == y + p {
      assert |x| == |y| && x == (x + p)[..|x|] && y == (y + p)[..|y|];
    }
  }

  lemma SpellsStep(pieces: seq<Piece>, stamps: seq<Stamp>, a: Progress, b: Progress)
    requires pieces != []
    requires SpellsAll(pieces[..|pieces| - 1], stamps, a) && PieceText(pieces[|pieces| - 1]) != ""
    requires Appends(a, b, pieces[|pieces| - 1], stamps)
    ensures SpellsAll(pieces, stamps, b)
  {
    var n := |pieces| - 1;
    var p := pieces[n];
    AppendAgree(TokenText(a.tokens) + a.prefix, Spelled(pieces[..n]), PieceText(p));
    if p.Unit? && a.next < |stamps| {
      assert AllFull(stamps, b.next) <==> AllFull(stamps, a.next) && stamps[a.next].Stamp?;
      assert CountUnits(pieces) > 0 && stamps != [];
    } else if p.Unit? {
      assert a.next == |stamps| == b.next;
      if a.tokens == [] && stamps != [] {
        assert stamps[0].Short?;
      }
    }
  }

  // The tokens spell the text exactly when there is nothing to spell, or there
  // is a unit and a timestamp and no unit meets a timestamp that is too short.
  lemma AlignPreservesTextIff(text: string, stamps: seq<Stamp>, detail: bool)
    ensures TokenText(Align(text, stamps, detail)) == text
         <==> text == "" || (CountUnits(Pieces(text)) > 0 && stamps != []
                             && AllFull(stamps, Min(CountUnits(Pieces(text)), |stamps|)))
  {
    var pieces := Pieces(text);
    var a := FeedAll(pieces, stamps, detail);
    PiecesSpellText(text);
    UnitsNonempty(text);
    FeedAllSpells(pieces, stamps, detail);
    if a.tokens == [] {
      assert TokenText(a.tokens) == "";
      assert a.next > 0 ==> stamps[0].Short?;
    } else {
      assert TokenText(a.tokens) + "" == TokenText(a.tokens);
      assert a.next > 0;
    }
  }

  // A separator without any unit gets no token to carry it...
  lemma LoneSeparatorIsLost(text: string, stamps: seq<Stamp>)
    requires text == "!"
    ensures TokenText(Align(text, stamps, false)) != text
  {
    AlignPreservesTextIff(text, stamps, false);
    assert text[1..] == "" && Pieces(text) == [Separator('!')];
    assert Pieces(text)[..0] == [];
  }

  // ...and a unit that meets a timestamp that is too short gets none either.
  lemma ShortStampLosesUnit(text: string, stamps: seq<Stamp>)
    requires text == "a" && stamps == [Short]
    ensures TokenText(Align(text, stamps, false)) != text
  {
    AlignPreservesTextIff(text, stamps, false);
    assert stamps[0].Short?;
  }

  // --------------------------------------------------------------- tokens

  // str.strip() leaves nothing.
  predicate Blank(text: string)
  {
    forall i :: 0 <= i < |text| ==> IsSpace(text[i])
  }

  predicate TokenAt(tokens: seq<Token>, stamps: seq<Stamp>, detail: bool, k: nat)
    requires k < |tokens|
  {
    && !Blank(tokens[k].text)
    && (k < |stamps| && AllFull(stamps, k + 1) ==>
          && tokens[k].start == stamps[k].start && tokens[k].end == stamps[k].end
          && tokens[k].details == if detail then Some([stamps[k]]) else None)
  }

  // Every full timestamp used so far has its token.
  predicate Counted(a: Progress, stamps: seq<Stamp>)
  {
    && a.next <= |stamps| && |a.tokens| <= a.next
    && forall m: nat :: m <= a.next && AllFull(stamps, m) ==> |a.tokens| >= m
  }

  lemma NotBlank(text: string, i: nat)
    requires i < |text| && !IsSpace(text[i])
    ensures forall before, after :: !Blank(before + text + after)
  {
    forall before: string, after: string
      ensures !Blank(before + text + after)
    {
      assert (before + text + after)[|before| + i] == text[i];
    }
  }

  lemma {:induction false} FeedAllTokens(pieces: seq<Piece>, stamps: seq<Stamp>, detail: bool)
    requires forall p :: p in pieces && p.Unit? ==> p.text != "" && !IsSeparator(p.text[0])
    ensures var a := FeedAll(pieces, stamps, detail);
            && Counted(a, stamps)
            && forall k: nat :: k < |a.tokens| ==> TokenAt(a.tokens, stamps, detail, k)
  {
    if pieces != [] {
      var n := |pieces| - 1;
      FeedAllTokens(pieces[..n], stamps, detail);
      FeedTokens(FeedAll(pieces[..n], stamps, detail), pieces[n], stamps, detail);
    }
  }

  lemma ExtendedToken(tokens: seq<Token>, stamps: seq<Stamp>, detail: bool, more: string)
    requires tokens != [] && forall k: nat :: k < |tokens| ==> TokenAt(tokens, stamps, detail, k)
    ensures forall k: nat :: k < |tokens| ==> TokenAt(ExtendLast(tokens, more), stamps, detail, k)
  {
    var grown, n := ExtendLast(tokens, more), |tokens| - 1;
    forall k: nat | k < |tokens|
      ensures TokenAt(grown, stamps, detail, k)
    {
      assert TokenAt(tokens, stamps, detail, k);
      if k == n {
        var i: nat :| i < |tokens[n].text| && !IsSpace(tokens[n].text[i]);
        assert grown[n].text[i] == tokens[n].text[i];
      }
    }
  }

  lemma FeedTokens(a: Progress, p: Piece, stamps: seq<Stamp>, detail: bool)
    requires p.Unit? ==> p.text != "" && !IsSeparator(p.text[0])
    requires Counted(a, stamps)
    requires forall k: nat :: k < |a.tokens| ==> TokenAt(a.tokens, stamps, detail, k)
    ensures var b := Feed(a, p, stamps, detail);
            && Counted(b, stamps)
            && forall k: nat :: k < |b.tokens| ==> TokenAt(b.tokens, stamps, detail, k)
  {
    if a.tokens != [] {
      ExtendedToken(a.tokens, stamps, detail, PieceText(p));
    }
    if p.Unit? && a.next < |stamps| {
      assert AllFull(stamps, a.next + 1) ==> AllFull(stamps, a.next) && stamps[a.next].Stamp?;
    }
    if p.Unit? && a.next < |stamps| && stamps[a.next].Stamp? {
      var b := Feed(a, p, stamps, detail);
      forall k: nat | k < |b.tokens|
        ensures TokenAt(b.tokens, stamps, detail, k)
      {
        if k < |a.tokens| {
          assert TokenAt(a.tokens, stamps, detail, k);
        } else {
          NotBlank(p.text, 0);
          assert b.tokens[k].text == a.prefix + p.text + "";
          assert AllFull(stamps, k + 1) ==> a.next == k;
        }
      }
    }
  }

  // Every token says something, and as long as no timestamp is too short the
  // k-th token stands for the k-th unit and the k-th timestamp.
  lemma AlignTokens(text: string, stamps: seq<Stamp>, detail: bool)
    ensures var tokens, n := Align(text, stamps, detail), Min(CountUnits(Pieces(text)), |stamps|);
            && (forall k: nat :: k < |tokens| ==> TokenAt(tokens, stamps, detail, k))
            && |tokens| <= n && (AllFull(stamps, n) ==> |tokens| == n)
  {
    UnitsNonempty(text);
    FeedAllSpells(Pieces(text), stamps, detail);
    FeedAllTokens(Pieces(text), stamps, detail);
  }

  // A step leaves all tokens but the last as they are.
  lemma FeedKeepsFront(a: Progress, p: Piece, stamps: seq<Stamp>, detail: bool, k: nat)
    requires k < |a.tokens|
    ensures var b := Feed(a, p, stamps, detail);
            k < |b.tokens| && b.tokens[..k] == a.tokens[..k]
  {
  }

  lemma NewToken(a: Progress, unit: string, stamps: seq<Stamp>, detail: bool)
    requires a.next < |stamps| && stamps[a.next].Stamp?
    ensures var b := Feed(a, Unit(unit), stamps, detail);
            |b.tokens| == |a.tokens| + 1 && b.tokens[..|a.tokens|] == a.tokens
  {
  }

  // As long as every unit had a full timestamp, there is one token for each, and
  // together they spell everything.
  lemma AllSpelledSoFar(pieces: seq<Piece>, stamps: seq<Stamp>, detail: bool)
    requires forall p :: p in pieces && p.Unit? ==> p.text != "" && !IsSeparator(p.text[0])
    requires 0 < CountUnits(pieces) <= |stamps| && AllFull(stamps, CountUnits(pieces))
    ensures var a := FeedAll(pieces, stamps, detail);
            && a.next == |a.tokens| == CountUnits(pieces) && TokenText(a.tokens) == Spelled(pieces)
  {
    var a := FeedAll(pieces, stamps, detail);
    FeedAllSpells(pieces, stamps, detail);
    FeedAllTokens(pieces, stamps, detail);
    assert stamps[0].Stamp?;
    assert TokenText(a.tokens) + "" == TokenText(a.tokens);
  }

  // What was fed later leaves those tokens as they are, too.
  lemma {:induction false} FeedAllKeepsFront(pieces: seq<Piece>, stamps: seq<Stamp>, detail: bool, m: nat, k: nat)
    requires m <= |pieces| && k < |FeedAll(pieces[..m], stamps, detail).tokens|
    ensures var before, after := FeedAll(pieces[..m], stamps, detail).tokens, FeedAll(pieces, stamps, detail).tokens;
            k < |after| && after[..k] == before[..k]
    decreases |pieces|
  {
    var n := |pieces| - 1;
    if m > n {
      assert pieces[..m] == pieces;
    } else {
      assert pieces[..n][..m] == pieces[..m];
      FeedAllKeepsFront(pieces[..n], stamps, detail, m, k);
      FeedKeepsFront(FeedAll(pieces[..n], stamps, detail), pieces[n], stamps, detail, k);
    }
  }

  lemma UnitAddsToken(pieces: seq<Piece>, stamps: seq<Stamp>, detail: bool, i: nat)
    requires i < |pieces| && pieces[i].Unit?
    requires var next := FeedAll(pieces[..i], stamps, detail).next; next < |stamps| && stamps[next].Stamp?
    ensures var before, after := FeedAll(pieces[..i], stamps, detail).tokens,
                                 FeedAll(pieces[..i + 1], stamps, detail).tokens;
            |after| == |before| + 1 && after[..|before|] == before
  {
    var a := FeedAll(pieces[..i], stamps, detail);
    assert pieces[..i + 1] == pieces[..i] + [pieces[i]];
    FeedNext(pieces[..i], pieces[i], stamps, detail);
    NewToken(a, pieces[i].text, stamps, detail);
  }

  lemma FeedAllStarts(pieces: seq<Piece>, stamps: seq<Stamp>, detail: bool, i: nat)
    requires forall p :: p in pieces && p.Unit? ==> p.text != "" && !IsSeparator(p.text[0])
    requires i < |pieces| && pieces[i].Unit?
    requires var k := CountUnits(pieces[..i]);
             0 < k < |stamps| && AllFull(stamps, k + 1)
    ensures var k, a := CountUnits(pieces[..i]), FeedAll(pieces, stamps, detail);
            k < |a.tokens| && TokenText(a.tokens[..k]) == Spelled(pieces[..i])
  {
    AllSpelledSoFar(pieces[..i], stamps, detail);
    UnitAddsToken(pieces, stamps, detail, i);
    FeedAllKeepsFront(pieces, stamps, detail, i + 1, CountUnits(pieces[..i]));
  }

  // Which part of the text a token covers: each but the first begins where its
  // unit begins, and so ends where the next one begins.
  lemma TokensBeginAtUnits(text: string, stamps: seq<Stamp>, detail: bool, i: nat)
    requires i < |Pieces(text)| && Pieces(text)[i].Unit?
    requires var k := CountUnits(Pieces(text)[..i]);
             0 < k < |stamps| && AllFull(stamps, k + 1)
    ensures var k, tokens := CountUnits(Pieces(text)[..i]), Align(text, stamps, detail);
            k < |tokens| && TokenText(tokens[..k]) == Spelled(Pieces(text)[..i])
  {
    UnitsNonempty(text);
    FeedAllStarts(Pieces(text), stamps, detail, i);
    FeedAllSpells(Pieces(text), stamps, detail);
  }

  // ------------------------------------------- with timestamps too short

  // The pieces but for the units that meet a timestamp that is too short.
  function Kept(pieces: seq<Piece>, stamps: seq<Stamp>): string
  {
    if pieces == [] then ""
    else
      var front, p := pieces[..|pieces| - 1], pieces[|pieces| - 1];
      var k := CountUnits(front);
      if p.Unit? && k < |stamps| && stamps[k].Short? then Kept(front, stamps) else Kept(front, stamps) + PieceText(p)
  }

  lemma {:induction false} FeedAllKept(pieces: seq<Piece>, stamps: seq<Stamp>, detail: bool)
    requires forall p :: p in pieces && p.Unit? ==> p.text != ""
    ensures var a := FeedAll(pieces, stamps, detail);
            a.tokens != [] || CountUnits(pieces) <= |stamps| ==> TokenText(a.tokens) + a.prefix == Kept(pieces, stamps)
  {
    if pieces != [] {
      var n := |pieces| - 1;
      var a := FeedAll(pieces[..n], stamps, detail);
      FeedAllKept(pieces[..n], stamps, detail);
      FeedAllSpells(pieces[..n], stamps, detail);
      FeedKeeps(a, pieces[n], stamps, detail);
    }
  }

  // If there is any token at all, the tokens spell the text but for exactly the
  // units that meet a timestamp that is too short.
  lemma AlignedTextIsKept(text: string, stamps: seq<Stamp>, detail: bool)
    requires Align(text, stamps, detail) != []
    ensures TokenText(Align(text, stamps, detail)) == Kept(Pieces(text), stamps)
  {
    var pieces := Pieces(text);
    var a := FeedAll(pieces, stamps, detail);
    UnitsNonempty(text);
    FeedAllKept(pieces, stamps, detail);
    FeedAllSpells(pieces, stamps, detail);
    assert TokenText(a.tokens) + "" == TokenText(a.tokens);
  }

  function FullOnes(stamps: seq<Stamp>): seq<Stamp>
  {
    if stamps == [] then []
    else
      var front, last := FullOnes(stamps[..|stamps| - 1]), stamps[|stamps| - 1];
      if last.Stamp? then front + [last] else front
  }

  predicate Takes(tokens: seq<Token>, stamps: seq<Stamp>, j: nat)
    requires j < |tokens| == |stamps|
  {
    stamps[j].Stamp? && tokens[j].start == stamps[j].start && tokens[j].end == stamps[j].end
  }

  predicate TakeAll(tokens: seq<Token>, stamps: seq<Stamp>)
  {
    |tokens| == |stamps| && forall j: nat :: j < |tokens| ==> Takes(tokens, stamps, j)
  }

  lemma TakeLonger(tokens: seq<Token>, stamps: seq<Stamp>, more: string)
    requires tokens != [] && TakeAll(tokens, stamps)
    ensures TakeAll(ExtendLast(tokens, more), stamps)
  {
    forall j: nat | j < |tokens|
      ensures Takes(ExtendLast(tokens, more), stamps, j)
    {
      assert Takes(tokens, stamps, j);
    }
  }

  lemma TakeOneMore(tokens: seq<Token>, stamps: seq<Stamp>, t: Token, s: Stamp)
    requires TakeAll(tokens, stamps) && s.Stamp? && t.start == s.start && t.end == s.end
    ensures TakeAll(tokens + [t], stamps + [s])
  {
    forall j: nat | j < |tokens| + 1
      ensures Takes(tokens + [t], stamps + [s], j)
    {
      if j < |tokens| {
        assert Takes(tokens, stamps, j);
      }
    }
  }

  lemma FeedTakes(a: Progress, p: Piece, stamps: seq<Stamp>, detail: bool)
    requires a.next <= |stamps| && TakeAll(a.tokens, FullOnes(stamps[..a.next]))
    ensures var b := Feed(a, p, stamps, detail);
            b.next <= |stamps| && TakeAll(b.tokens, FullOnes(stamps[..b.next]))
  {
    if a.tokens != [] {
      TakeLonger(a.tokens, FullOnes(stamps[..a.next]), PieceText(p));
    }
    if p.Unit? && a.next < |stamps| {
      var s := stamps[a.next];
      assert stamps[..a.next + 1][..a.next] == stamps[..a.next];
      if s.Stamp? {
        var token := Token(a.prefix + p.text, s.start, s.end, if detail then Some([s]) else None);
        TakeOneMore(a.tokens, FullOnes(stamps[..a.next]), token, s);
      }
    }
  }

  lemma {:induction false} FeedAllTakes(pieces: seq<Piece>, stamps: seq<Stamp>, detail: bool)
    ensures var a := FeedAll(pieces, stamps, detail);
            a.next <= |stamps| && TakeAll(a.tokens, FullOnes(stamps[..a.next]))
  {
    if pieces != [] {
      var n := |pieces| - 1;
      FeedAllTakes(pieces[..n], stamps, detail);
      FeedTakes(FeedAll(pieces[..n], stamps, detail), pieces[n], stamps, detail);
    }
  }

  // The tokens take the full timestamps that any unit meets, one each and in
  // order.
  lemma TokensTakeFullStamps(text: string, stamps: seq<Stamp>, detail: bool)
    ensures TakeAll(Align(text, stamps, detail),
                    FullOnes(stamps[..Min(CountUnits(Pieces(text)), |stamps|)]))
  {
    var a := FeedAll(Pieces(text), stamps, detail);
    UnitsNonempty(text);
    FeedAllSpells(Pieces(text), stamps, detail);
    FeedAllTakes(Pieces(text), stamps, detail);
    if a.tokens != [] {
      TakeLonger(a.tokens, FullOnes(stamps[..a.next]), a.prefix);
    }
  }
}
