/**
  Rich text shown with list prefixes. The model text and the display text are byte strings; the projection
  maps offsets between them line by line and cuts the display into spans.
*/
module Projections {
  import opened Wrappers
  import opened Utf

  datatype BlockKind = Paragraph | Heading1 | Heading2 | Heading3 | Bulleted | Numbered | Quote

  datatype Style = Style(bold: bool, italic: bool, code: bool)

  const PLAIN := Style(false, false, false)

  datatype Range = Range(lo: nat, hi: nat)

  datatype StyleRun = StyleRun(range: Range, style: Style)

  datatype RichText = RichText(text: seq<byte>, kinds: seq<BlockKind>, runs: seq<StyleRun>,
                               selection: Range, marked: Option<Range>)

  datatype Line = Line(modelStart: nat, modelEnd: nat, contentStart: nat, displayEnd: nat)

  datatype Span = Span(display: Range, model: Option<Range>, style: Style)

  datatype DisplayProjection = DisplayProjection(text: seq<byte>, lines: seq<Line>, spans: seq<Span>)

  const NEWLINE: byte := 10

  // ---- Logical lines ----

  function LinesFrom(text: seq<byte>, start: nat, i: nat): (ls: seq<Range>)
    requires start <= i <= |text|
    ensures ls != [] && ls[0].lo == start && ls[|ls| - 1].hi == |text|
    ensures forall k :: 0 <= k < |ls| ==> ls[k].lo <= ls[k].hi <= |text|
    decreases |text| - i
  {
    if i == |text| then [Range(start, i)]
    else if text[i] == NEWLINE then [Range(start, i)] + LinesFrom(text, i + 1, i + 1)
    else LinesFrom(text, start, i + 1)
  }

  function Lines(text: seq<byte>): seq<Range> { LinesFrom(text, 0, 0) }

  function Newlines(text: seq<byte>, o: nat): nat
    requires o <= |text|
  {
    if o == 0 then 0 else Newlines(text, o - 1) + if text[o - 1] == NEWLINE then 1 else 0
  }

  ghost predicate Unbroken(text: seq<byte>, r: Range) {
    r.lo <= r.hi <= |text| && forall o :: r.lo <= o < r.hi ==> text[o] != NEWLINE
  }

  /** Lines follow one another across single newlines, and hold none themselves. */
  ghost predicate LineChain(text: seq<byte>, ls: seq<Range>) {
    ls != [] ==>
      && Unbroken(text, ls[0])
      && (|ls| > 1 ==> ls[0].hi < |text| && text[ls[0].hi] == NEWLINE && ls[1].lo == ls[0].hi + 1)
      && LineChain(text, ls[1..])
  }

  lemma {:induction false} LinesSplitAtNewlines(text: seq<byte>, start: nat, i: nat)
    requires start <= i <= |text| && Unbroken(text, Range(start, i))
    ensures LineChain(text, LinesFrom(text, start, i))
    ensures |LinesFrom(text, start, i)| == 1 + Newlines(text, |text|) - Newlines(text, i)
    decreases |text| - i
  {
    if i < |text| {
      if text[i] == NEWLINE {
        LinesSplitAtNewlines(text, i + 1, i + 1);
        assert LinesFrom(text, start, i)[1..] == LinesFrom(text, i + 1, i + 1);
      } else {
        LinesSplitAtNewlines(text, start, i + 1);
      }
    }
  }

  lemma {:induction false} ChainAt(text: seq<byte>, ls: seq<Range>, k: nat)
    requires LineChain(text, ls) && k < |ls|
    ensures Unbroken(text, ls[k])
    ensures k > 0 ==> ls[k].lo == ls[k - 1].hi + 1 && text[ls[k].lo - 1] == NEWLINE
  {
    if k == 1 {
      ChainAt(text, ls[1..], 0);
    } else if k > 1 {
      ChainAt(text, ls[1..], k - 1);
    }
  }

  /** What the lines of a text are: newline-free stretches, each one past the end of the one before. */
  lemma LineAt(text: seq<byte>, k: nat)
    requires k < |Lines(text)|
    ensures Unbroken(text, Lines(text)[k])
    ensures k > 0 ==> Lines(text)[k].lo == Lines(text)[k - 1].hi + 1 && text[Lines(text)[k].lo - 1] == NEWLINE
  {
    LinesSplitAtNewlines(text, 0, 0);
    ChainAt(text, Lines(text), k);
  }

  predicate Valid(b: RichText) {
    && |b.kinds| == |Lines(b.text)|
    && Tiles(b.runs, 0, |b.text|)
    && b.selection.lo <= b.selection.hi
  }

  // ---- Style runs ----

  /** Normalised runs cover `lo..hi` end to end, none of them empty. */
  predicate Tiles(runs: seq<StyleRun>, lo: nat, hi: nat) {
    if runs == [] then lo == hi
    else runs[0].range.lo == lo < runs[0].range.hi <= hi && Tiles(runs[1..], runs[0].range.hi, hi)
  }

  function StyleAt(runs: seq<StyleRun>, o: nat): Style {
    if runs == [] then PLAIN
    else if runs[0].range.hi <= o then StyleAt(runs[1..], o)
    else if runs[0].range.lo <= o then runs[0].style
    else PLAIN
  }

  function Max(a: nat, b: nat): nat { if a < b then b else a }

  function Min(a: nat, b: nat): nat { if a < b then a else b }

  /** The parts of the runs inside `lo..hi`. */
  function Overlaps(runs: seq<StyleRun>, lo: nat, hi: nat): seq<StyleRun> {
    if runs == [] then []
    else
      var r := Range(Max(runs[0].range.lo, lo), Min(runs[0].range.hi, hi));
      (if r.lo < r.hi then [StyleRun(r, runs[0].style)] else []) + Overlaps(runs[1..], lo, hi)
  }

  lemma {:induction false} OverlapsTile(runs: seq<StyleRun>, a: nat, b: nat, lo: nat, hi: nat)
    requires Tiles(runs, a, b) && lo <= hi <= b
    ensures Tiles(Overlaps(runs, lo, hi), Min(Max(a, lo), hi), hi)
  {
    if runs != [] {
      OverlapsTile(runs[1..], runs[0].range.hi, b, lo, hi);
      var r := Range(Max(runs[0].range.lo, lo), Min(runs[0].range.hi, hi));
      if r.lo < r.hi {
        assert Overlaps(runs, lo, hi)[1..] == Overlaps(runs[1..], lo, hi);
      } else {
        assert Overlaps(runs, lo, hi) == Overlaps(runs[1..], lo, hi);
      }
    }
  }

  /** Each part keeps the style its bytes had. */
  lemma {:induction false} OverlapsKeepStyle(runs: seq<StyleRun>, a: nat, b: nat, lo: nat, hi: nat, k: nat, o: nat)
    requires Tiles(runs, a, b) && lo <= hi <= b && k < |Overlaps(runs, lo, hi)|
    requires Overlaps(runs, lo, hi)[k].range.lo <= o < Overlaps(runs, lo, hi)[k].range.hi
    ensures Overlaps(runs, lo, hi)[k].style == StyleAt(runs, o)
    ensures a <= o && lo <= o < hi
  {
    var r := Range(Max(runs[0].range.lo, lo), Min(runs[0].range.hi, hi));
    var first := if r.lo < r.hi then 1 else 0;
    if first <= k {
      OverlapsKeepStyle(runs[1..], runs[0].range.hi, b, lo, hi, k - first, o);
    }
  }

  // ---- List prefixes ----

  function Digits(n: nat): (d: seq<byte>)
    ensures |d| >= 1
  {
    if n < 10 then [48 + n] else Digits(n / 10) + [48 + n % 10]
  }

  /** The number written with decimal digits. */
  function Numeral(d: seq<byte>): int { if d == [] then 0 else 10 * Numeral(d[..|d| - 1]) + Above(d[|d| - 1], 48) }

  /** The digits of a number, without leading zeros. */
  lemma {:induction false} DigitsSpell(n: nat)
    ensures Numeral(Digits(n)) == n && forall i :: 0 <= i < |Digits(n)| ==> 48 <= Digits(n)[i] <= 57
    ensures |Digits(n)| > 1 ==> Digits(n)[0] != 48
    ensures n > 0 ==> Digits(n)[0] != 48
  {
    if n < 10 {
      assert [48 + n][..0] == [];
    } else {
      DigitsSpell(n / 10);
      assert Digits(n)[..|Digits(n)| - 1] == Digits(n / 10);
    }
  }

  /** Position of a numbered line in its block of numbered lines; zero for other lines. */
  function BlockNumber(kinds: seq<BlockKind>, i: nat): nat
    requires i < |kinds|
  {
    if kinds[i] != Numbered then 0 else 1 + if i == 0 then 0 else BlockNumber(kinds, i - 1)
  }

  /** The number counts back to the first line of the maximal numbered block. */
  lemma {:induction false} BlockNumberCounts(kinds: seq<BlockKind>, i: nat)
    requires i < |kinds|
    ensures var n := BlockNumber(kinds, i);
            && n <= i + 1
            && (forall j :: i - n < j <= i ==> kinds[j] == Numbered)
            && (n <= i ==> kinds[i - n] != Numbered)
  {
    if kinds[i] == Numbered && i > 0 {
      BlockNumberCounts(kinds, i - 1);
    }
  }

  function Prefix(kind: BlockKind, number: nat): seq<byte> {
    match kind
    case Bulleted => [0xE2, 0x80, 0xA2, 32]
    case Numbered => Digits(number) + [46, 32]
    case Quote => [0xE2, 0x80, 0xBA, 32]
    case _ => []
  }

  /** A bullet, the number and a full stop, or a single quotation mark, each before a space. */
  lemma PrefixSpells(kind: BlockKind, number: nat)
    ensures Prefix(kind, number) ==
            match kind
            case Bulleted => Encode("\U{2022} ")
            case Numbered => Digits(number) + Encode(". ")
            case Quote => Encode("\U{203A} ")
            case _ => []
  {
    hide Digits;
    EncodePair('\U{2022}', ' ');
    EncodePair('\U{203A}', ' ');
    EncodePair('.', ' ');
  }

  lemma EncodePair(c: char, d: char)
    ensures Encode([c, d]) == EncodeScalar(c) + EncodeScalar(d)
  {
    assert [c, d][1..] == [d] && [d][1..] == [];
  }

  // ---- What the projection of the first `n` lines is ----

  function LinePrefix(b: RichText, i: nat): seq<byte>
    requires Valid(b) && i < |Lines(b.text)|
  {
    Prefix(b.kinds[i], BlockNumber(b.kinds, i))
  }

  function Lead(b: RichText, i: nat): seq<byte> { if i > 0 then [NEWLINE] else [] }

  function DisplayText(b: RichText, n: nat): seq<byte>
    requires Valid(b) && n <= |Lines(b.text)|
  {
    if n == 0 then []
    else
      var line := Lines(b.text)[n - 1];
      DisplayText(b, n - 1) + Lead(b, n - 1) + LinePrefix(b, n - 1) + b.text[line.lo..line.hi]
  }

  function ContentStart(b: RichText, i: nat): nat
    requires Valid(b) && i < |Lines(b.text)|
  {
    |DisplayText(b, i)| + |Lead(b, i)| + |LinePrefix(b, i)|
  }

  function LineOf(b: RichText, i: nat): Line
    requires Valid(b) && i < |Lines(b.text)|
  {
    var line := Lines(b.text)[i];
    Line(line.lo, line.hi, ContentStart(b, i), |DisplayText(b, i + 1)|)
  }

  function Shifted(parts: seq<StyleRun>, from: nat, to: nat): (spans: seq<Span>)
    requires forall k :: 0 <= k < |parts| ==> from <= parts[k].range.lo <= parts[k].range.hi
    ensures |spans| == |parts|
  {
    seq(|parts|, k requires 0 <= k < |parts| =>
      Span(Range(to + (parts[k].range.lo - from), to + (parts[k].range.hi - from)),
           Some(parts[k].range), parts[k].style))
  }

  lemma {:induction false} TilesBounds(runs: seq<StyleRun>, lo: nat, hi: nat)
    requires Tiles(runs, lo, hi)
    ensures lo <= hi
    ensures forall k :: 0 <= k < |runs| ==> lo <= runs[k].range.lo < runs[k].range.hi <= hi
  {
    if runs != [] {
      TilesBounds(runs[1..], runs[0].range.hi, hi);
      forall k | 0 <= k < |runs| ensures lo <= runs[k].range.lo < runs[k].range.hi <= hi {
        if k > 0 {
          assert runs[k] == runs[1..][k - 1];
        }
      }
    }
  }

  lemma LineOverlapsTile(b: RichText, i: nat)
    requires Valid(b) && i < |Lines(b.text)|
    ensures var line := Lines(b.text)[i];
            && Tiles(Overlaps(b.runs, line.lo, line.hi), line.lo, line.hi)
            && (forall k :: 0 <= k < |Overlaps(b.runs, line.lo, line.hi)| ==>
                  line.lo <= Overlaps(b.runs, line.lo, line.hi)[k].range.lo
                          <= Overlaps(b.runs, line.lo, line.hi)[k].range.hi)
  {
    var line := Lines(b.text)[i];
    OverlapsTile(b.runs, 0, |b.text|, line.lo, line.hi);
    TilesBounds(Overlaps(b.runs, line.lo, line.hi), line.lo, line.hi);
  }

  function Content(b: RichText, i: nat, to: nat): seq<Span>
    requires Valid(b) && i < |Lines(b.text)|
  {
    LineOverlapsTile(b, i);
    var line := Lines(b.text)[i];
    Shifted(Overlaps(b.runs, line.lo, line.hi), line.lo, to)
  }

  function LeadSpans(b: RichText, i: nat, at: nat): seq<Span>
    requires Valid(b) && i < |Lines(b.text)|
  {
    LineAt(b.text, i);
    if i == 0 then []
    else
      var newline := Lines(b.text)[i].lo - 1;
      [Span(Range(at, at + 1), Some(Range(newline, newline + 1)), StyleAt(b.runs, newline))]
  }

  function PrefixSpans(b: RichText, i: nat, at: nat): seq<Span>
    requires Valid(b) && i < |Lines(b.text)|
  {
    if LinePrefix(b, i) == [] then [] else [Span(Range(at, at + |LinePrefix(b, i)|), None, PLAIN)]
  }

  /** The newline before a line, its prefix, and its styled content. */
  function LineSpans(b: RichText, i: nat): seq<Span>
    requires Valid(b) && i < |Lines(b.text)|
  {
    var start := |DisplayText(b, i)|;
    LeadSpans(b, i, start) + PrefixSpans(b, i, start + |Lead(b, i)|) + Content(b, i, ContentStart(b, i))
  }

  function Spans(b: RichText, n: nat): seq<Span>
    requires Valid(b) && n <= |Lines(b.text)|
  {
    if n == 0 then [] else Spans(b, n - 1) + LineSpans(b, n - 1)
  }

  function LinesOf(b: RichText, n: nat): (ls: seq<Line>)
    requires Valid(b) && n <= |Lines(b.text)|
    ensures |ls| == n
  {
    seq(n, i requires 0 <= i < n => LineOf(b, i))
  }

  lemma OneMoreLine(b: RichText, i: nat)
    requires Valid(b) && i < |Lines(b.text)|
    ensures var line := Lines(b.text)[i];
            && line.lo <= line.hi <= |b.text|
            && DisplayText(b, i + 1) == DisplayText(b, i) + Lead(b, i) + LinePrefix(b, i) + b.text[line.lo..line.hi]
    ensures Spans(b, i + 1) == Spans(b, i) + LineSpans(b, i)
    ensures LinesOf(b, i + 1) == LinesOf(b, i) + [LineOf(b, i)]
    ensures LineOf(b, i).displayEnd == LineOf(b, i).contentStart + (LineOf(b, i).modelEnd - LineOf(b, i).modelStart)
  {
    hide LinesFrom, Overlaps, Tiles, Digits;
  }

  /** Builds text, lines and spans in one pass, carrying the running number of the current block. */
  method New(b: RichText) returns (p: DisplayProjection)
    requires Valid(b)
    ensures p == DisplayProjection(DisplayText(b, |b.kinds|), LinesOf(b, |b.kinds|), Spans(b, |b.kinds|))
  {
    hide LinesFrom, Overlaps, Tiles, StyleAt, Digits, Shifted, DisplayText, Spans, LinesOf, BlockNumber, Prefix;
    var ranges := Lines(b.text);
    var text, lines, spans := [], [], [];
    var number := 0;
    NoLines(b);
    for i := 0 to |ranges|
      invariant text == DisplayText(b, i)
      invariant lines == LinesOf(b, i)
      invariant spans == Spans(b, i)
      invariant number == if i == 0 then 0 else BlockNumber(b.kinds, i - 1)
    {
      var line := ranges[i];
      LineAt(b.text, i);
      LineOverlapsTile(b, i);
      OneMoreLine(b, i);
      CountOneMore(b.kinds, i);
      ghost var start := |text|;
      if i > 0 {
        spans := spans + [Span(Range(|text|, |text| + 1), Some(Range(line.lo - 1, line.lo)),
                               StyleAt(b.runs, line.lo - 1))];
        text := text + [NEWLINE];
      }
      assert spans == Spans(b, i) + LeadSpans(b, i, start) && text == DisplayText(b, i) + Lead(b, i);
      number := if b.kinds[i] == Numbered then number + 1 else 0;
      var prefix := Prefix(b.kinds[i], number);
      assert prefix == LinePrefix(b, i);
      if prefix != [] {
        spans := spans + [Span(Range(|text|, |text| + |prefix|), None, PLAIN)];
      }
      text := text + prefix;
      assert spans == Spans(b, i) + (LeadSpans(b, i, start) + PrefixSpans(b, i, start + |Lead(b, i)|));
      var contentStart := |text|;
      spans := spans + Shifted(Overlaps(b.runs, line.lo, line.hi), line.lo, contentStart);
      text := text + b.text[line.lo..line.hi];
      lines := lines + [Line(line.lo, line.hi, contentStart, |text|)];
    }
    p := DisplayProjection(text, lines, spans);
  }

  lemma NoLines(b: RichText)
    requires Valid(b)
    ensures DisplayText(b, 0) == [] && LinesOf(b, 0) == [] && Spans(b, 0) == []
  {
  }

  lemma CountOneMore(kinds: seq<BlockKind>, i: nat)
    requires i < |kinds|
    ensures BlockNumber(kinds, i) ==
            if kinds[i] == Numbered then (if i == 0 then 0 else BlockNumber(kinds, i - 1)) + 1 else 0
  {
  }

  // ---- The two offset maps ----

  /** Model ranges one newline apart, display ranges in order with room for a newline and a prefix between. */
  predicate Linked(ls: seq<Line>) {
    && ls != []
    && ls[0].modelStart <= ls[0].modelEnd
    && ls[0].displayEnd == ls[0].contentStart + (ls[0].modelEnd - ls[0].modelStart)
    && (|ls| > 1 ==>
          && ls[1].modelStart == ls[0].modelEnd + 1
          && ls[0].displayEnd < ls[1].contentStart
          && Linked(ls[1..]))
  }

  lemma {:induction false} LinesAreLinkedFrom(b: RichText, i: nat)
    requires Valid(b) && i < |b.kinds|
    ensures Linked(LinesOf(b, |b.kinds|)[i..])
    decreases |b.kinds| - i
  {
    hide LinesFrom, BlockNumber, Prefix, DisplayText;
    OneMoreLine(b, i);
    if i + 1 < |b.kinds| {
      LineAt(b.text, i + 1);
      LinesAreLinkedFrom(b, i + 1);
      assert LinesOf(b, |b.kinds|)[i..][1..] == LinesOf(b, |b.kinds|)[i + 1..];
    }
  }

  lemma LinesAreLinked(b: RichText)
    requires Valid(b)
    ensures Linked(LinesOf(b, |b.kinds|)) && LinesOf(b, |b.kinds|)[0].modelStart == 0
    ensures Last(LinesOf(b, |b.kinds|)).displayEnd == |DisplayText(b, |b.kinds|)|
    ensures Last(LinesOf(b, |b.kinds|)).modelEnd == |b.text|
  {
    hide Linked, DisplayText, BlockNumber, Prefix;
    LinesAreLinkedFrom(b, 0);
    var ls := LinesOf(b, |b.kinds|);
    assert ls[0..] == ls;
  }

  function ToDisplay(ls: seq<Line>, m: nat): nat
    requires ls != []
  {
    if |ls| == 1 || m <= ls[0].modelEnd
    then ls[0].contentStart + (if m < ls[0].modelStart then 0 else m - ls[0].modelStart)
    else ToDisplay(ls[1..], m)
  }

  function ToModel(ls: seq<Line>, d: nat): nat
    requires ls != []
  {
    if |ls| == 1 || d <= ls[0].displayEnd
    then if d <= ls[0].contentStart then ls[0].modelStart else ls[0].modelStart + (d - ls[0].contentStart)
    else ToModel(ls[1..], d)
  }

  function Last(ls: seq<Line>): Line
    requires ls != []
  {
    ls[|ls| - 1]
  }

  lemma {:induction false} LastIsWithinReach(ls: seq<Line>)
    requires Linked(ls)
    ensures ls[0].modelEnd <= Last(ls).modelEnd && ls[0].displayEnd <= Last(ls).displayEnd
  {
    if |ls| > 1 {
      LastIsWithinReach(ls[1..]);
    }
  }

  lemma {:induction false} MapBounds(ls: seq<Line>, m: nat, d: nat)
    requires Linked(ls)
    ensures m <= Last(ls).modelEnd ==> ls[0].contentStart <= ToDisplay(ls, m) <= Last(ls).displayEnd
    ensures d <= Last(ls).displayEnd ==> ls[0].modelStart <= ToModel(ls, d) <= Last(ls).modelEnd
  {
    LastIsWithinReach(ls);
    if |ls| > 1 {
      MapBounds(ls[1..], m, d);
    }
  }

  /** The maps are adjoint: no display offset skips past the place a model offset is shown. */
  lemma {:induction false} MapsAreAdjoint(ls: seq<Line>, m: nat, d: nat)
    requires Linked(ls) && ls[0].modelStart <= m <= Last(ls).modelEnd && d <= Last(ls).displayEnd
    ensures ToModel(ls, d) <= m <==> d <= ToDisplay(ls, m)
  {
    if |ls| > 1 {
      MapBounds(ls[1..], m, d);
      if ls[0].modelEnd < m && ls[0].displayEnd < d {
        MapsAreAdjoint(ls[1..], m, d);
      }
    }
  }

  /** `d` lies inside a list prefix: past the newline that ends the text `before`, short of the content. */
  predicate InPrefix(ls: seq<Line>, before: int, d: nat) {
    ls != [] && (before < d < ls[0].contentStart || InPrefix(ls[1..], ls[0].displayEnd, d))
  }

  lemma {:induction false} PrefixesAreAhead(ls: seq<Line>, before: int, d: nat)
    requires Linked(ls) && d <= before < ls[0].contentStart
    ensures !InPrefix(ls, before, d)
  {
    if |ls| > 1 {
      PrefixesAreAhead(ls[1..], ls[0].displayEnd, d);
    }
  }

  lemma {:induction false} RoundTrips(ls: seq<Line>, before: int, m: nat, d: nat)
    requires Linked(ls) && before < d <= Last(ls).displayEnd && before < ls[0].contentStart
    requires ls[0].modelStart <= m <= Last(ls).modelEnd
    ensures ToModel(ls, ToDisplay(ls, m)) == m
    ensures d <= ToDisplay(ls, ToModel(ls, d))
    ensures d == ToDisplay(ls, ToModel(ls, d)) <==> !InPrefix(ls, before, d)
  {
    if |ls| > 1 {
      var rest, end := ls[1..], ls[0].displayEnd;
      LastIsWithinReach(rest);
      MapBounds(rest, m, d);
      RoundTrips(rest, end, if m <= ls[0].modelEnd then rest[0].modelStart else m,
                 if d <= end then rest[0].contentStart else d);
      if d <= end {
        PrefixesAreAhead(rest, end, d);
      }
    }
  }

  predicate Projected(b: RichText, p: DisplayProjection) {
    Valid(b) && p == DisplayProjection(DisplayText(b, |b.kinds|), LinesOf(b, |b.kinds|), Spans(b, |b.kinds|))
  }

  lemma ProjectedIsLinked(b: RichText, p: DisplayProjection)
    requires Projected(b, p)
    ensures Linked(p.lines) && p.lines[0].modelStart == 0
    ensures Last(p.lines).displayEnd == |p.text| && Last(p.lines).modelEnd == |b.text|
    ensures forall m: nat :: m <= |b.text| ==> ToDisplay(p.lines, m) <= |p.text|
    ensures forall d: nat :: d <= |p.text| ==> ToModel(p.lines, d) <= |b.text|
  {
    LinesAreLinked(b);
    hide LinesOf, DisplayText, Spans, Linked, Valid, ToDisplay, ToModel;
    forall m: nat | m <= |b.text| ensures ToDisplay(p.lines, m) <= |p.text| { MapBounds(p.lines, m, 0); }
    forall d: nat | d <= |p.text| ensures ToModel(p.lines, d) <= |b.text| { MapBounds(p.lines, 0, d); }
  }

  /** One line of a lookup: the offset belongs here, or the search goes on with the lines after. */
  lemma LookupStep(ls: seq<Line>, i: nat, m: nat, d: nat)
    requires i < |ls| && Linked(ls[i..])
    ensures ls[i].modelStart <= ls[i].modelEnd
    ensures ls[i].displayEnd == ls[i].contentStart + (ls[i].modelEnd - ls[i].modelStart)
    ensures m <= ls[i].modelEnd ==>
              ToDisplay(ls[i..], m) == ls[i].contentStart + if m < ls[i].modelStart then 0 else m - ls[i].modelStart
    ensures d <= ls[i].displayEnd ==>
              ToModel(ls[i..], d) ==
              ls[i].modelStart + if d <= ls[i].contentStart then 0 else d - ls[i].contentStart
    ensures i + 1 < |ls| ==> Linked(ls[i + 1..])
    ensures i + 1 < |ls| && ls[i].modelEnd < m ==> ToDisplay(ls[i..], m) == ToDisplay(ls[i + 1..], m)
    ensures i + 1 < |ls| && ls[i].displayEnd < d ==> ToModel(ls[i..], d) == ToModel(ls[i + 1..], d)
  {
    assert ls[i..][1..] == ls[i + 1..];
  }

  /** Finds the line of a model offset; offsets past the end count as the end. */
  method DisplayForModel(p: DisplayProjection, ghost b: RichText, model: nat) returns (d: nat)
    requires Projected(b, p)
    ensures d == ToDisplay(p.lines, Min(model, |b.text|)) && d <= |p.text|
  {
    ProjectedIsLinked(b, p);
    var m := Min(model, Last(p.lines).modelEnd);
    assert p.lines[0..] == p.lines && m <= |b.text| && m == Min(model, |b.text|);
    hide *;
    for i := 0 to |p.lines|
      invariant i < |p.lines| ==> Linked(p.lines[i..]) && ToDisplay(p.lines[i..], m) == ToDisplay(p.lines, m)
      invariant i == |p.lines| ==> ToDisplay(p.lines, m) == |p.text|
    {
      var line := p.lines[i];
      LookupStep(p.lines, i, m, 0);
      if m <= line.modelEnd {
        return line.contentStart + if m < line.modelStart then 0 else m - line.modelStart;
      }
    }
    d := |p.text|;
  }

  /** Finds the line of a display offset; inside a prefix it answers the start of the line. */
  method ModelForDisplay(p: DisplayProjection, ghost b: RichText, display: nat) returns (m: nat)
    requires Projected(b, p)
    ensures m == ToModel(p.lines, Min(display, |p.text|)) && m <= |b.text|
  {
    ProjectedIsLinked(b, p);
    var d, end := Min(display, |p.text|), Last(p.lines).modelEnd;
    assert p.lines[0..] == p.lines && d <= |p.text|;
    hide *;
    for i := 0 to |p.lines|
      invariant i < |p.lines| ==> Linked(p.lines[i..]) && ToModel(p.lines[i..], d) == ToModel(p.lines, d)
      invariant i == |p.lines| ==> ToModel(p.lines, d) == end
    {
      var line := p.lines[i];
      LookupStep(p.lines, i, 0, d);
      if d <= line.displayEnd {
        if d <= line.contentStart {
          return line.modelStart;
        }
        m := line.modelStart + d - line.contentStart;
        return if m < line.modelEnd then m else line.modelEnd;
      }
    }
    m := end;
  }

  /** The Galois connection of the two lookups, for every offset however large. */
  lemma OffsetsFormGaloisConnection(b: RichText, p: DisplayProjection, model: nat, display: nat)
    requires Projected(b, p)
    ensures var m, d := Min(model, |b.text|), Min(display, |p.text|);
            && (ToModel(p.lines, d) <= model <==> d <= ToDisplay(p.lines, m))
            && ToModel(p.lines, ToDisplay(p.lines, m)) == m
            && d <= ToDisplay(p.lines, ToModel(p.lines, d))
            && (d == ToDisplay(p.lines, ToModel(p.lines, d)) <==> !InPrefix(p.lines, -1, d))
  {
    var m, d := Min(model, |b.text|), Min(display, |p.text|);
    ProjectedIsLinked(b, p);
    hide Projected;
    MapBounds(p.lines, m, d);
    MapsAreAdjoint(p.lines, m, d);
    RoundTrips(p.lines, -1, m, d);
  }

  lemma OffsetMapsAreMonotone(b: RichText, p: DisplayProjection, m: nat, n: nat, d: nat, e: nat)
    requires Projected(b, p) && m <= n <= |b.text| && d <= e <= |p.text|
    ensures ToDisplay(p.lines, m) <= ToDisplay(p.lines, n)
    ensures ToModel(p.lines, d) <= ToModel(p.lines, e)
  {
    ProjectedIsLinked(b, p);
    hide Projected;
    MapBounds(p.lines, m, e);
    RoundTrips(p.lines, -1, m, e);
    MapsAreAdjoint(p.lines, n, ToDisplay(p.lines, m));
    MapsAreAdjoint(p.lines, ToModel(p.lines, e), d);
  }
}
