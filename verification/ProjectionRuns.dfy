/** The spans of a projection tile both texts, and the text runs painted from them say what each byte looks like. */
module ProjectionRuns {
  import opened Wrappers
  import opened Utf
  import opened Projections

  // ---- Tiling ----

  /** Nonempty ranges, each starting where the one before stops, from `lo` to `hi`. */
  predicate Chain(rs: seq<Range>, lo: nat, hi: nat) {
    if rs == [] then lo == hi
    else rs[0].lo == lo < rs[0].hi <= hi && Chain(rs[1..], rs[0].hi, hi)
  }

  lemma {:induction false} ChainConcat(a: seq<Range>, b: seq<Range>, lo: nat, mid: nat, hi: nat)
    requires Chain(a, lo, mid) && Chain(b, mid, hi) && mid <= hi
    ensures Chain(a + b, lo, hi)
  {
    if a == [] {
      assert a + b == b;
    } else {
      assert (a + b)[1..] == a[1..] + b;
      ChainConcat(a[1..], b, a[0].hi, mid, hi);
    }
  }

  function Displays(spans: seq<Span>): seq<Range> {
    if spans == [] then [] else [spans[0].display] + Displays(spans[1..])
  }

  function Models(spans: seq<Span>): seq<Range> {
    if spans == [] then []
    else (if spans[0].model.Some? then [spans[0].model.value] else []) + Models(spans[1..])
  }

  lemma {:induction false} DisplaysConcat(a: seq<Span>, b: seq<Span>)
    ensures Displays(a + b) == Displays(a) + Displays(b)
  {
    if a == [] {
      assert a + b == b;
    } else {
      assert (a + b)[1..] == a[1..] + b;
      DisplaysConcat(a[1..], b);
    }
  }

  lemma {:induction false} ModelsConcat(a: seq<Span>, b: seq<Span>)
    ensures Models(a + b) == Models(a) + Models(b)
  {
    if a == [] {
      assert a + b == b;
    } else {
      assert (a + b)[1..] == a[1..] + b;
      ModelsConcat(a[1..], b);
      var first := if a[0].model.Some? then [a[0].model.value] else [];
      assert Models(a + b) == first + (Models(a[1..]) + Models(b));
      assert Models(a) == first + Models(a[1..]);
    }
  }

  lemma PartsConcat(a: seq<Span>, b: seq<Span>)
    ensures Displays(a + b) == Displays(a) + Displays(b)
    ensures Models(a + b) == Models(a) + Models(b)
  {
    DisplaysConcat(a, b);
    ModelsConcat(a, b);
  }

  lemma {:induction false} ShiftedTiles(parts: seq<StyleRun>, from: nat, to: nat, lo: nat, hi: nat)
    requires Tiles(parts, lo, hi) && from <= lo
    requires forall k :: 0 <= k < |parts| ==> from <= parts[k].range.lo <= parts[k].range.hi
    ensures Chain(Displays(Shifted(parts, from, to)), to + (lo - from), to + (hi - from))
    ensures Chain(Models(Shifted(parts, from, to)), lo, hi)
  {
    TilesBounds(parts, lo, hi);
    if parts != [] {
      ShiftedTiles(parts[1..], from, to, parts[0].range.hi, hi);
      assert Shifted(parts, from, to)[1..] == Shifted(parts[1..], from, to);
    }
  }

  function ModelBefore(b: RichText, i: nat): nat
    requires Valid(b) && i <= |b.kinds|
  {
    if i == 0 then 0 else Lines(b.text)[i - 1].hi
  }

  lemma LeadTiles(b: RichText, i: nat, at: nat)
    requires Valid(b) && i < |b.kinds|
    ensures Chain(Displays(LeadSpans(b, i, at)), at, at + |Lead(b, i)|)
    ensures Chain(Models(LeadSpans(b, i, at)), ModelBefore(b, i), Lines(b.text)[i].lo)
  {
    hide Lines, StyleAt, Tiles;
    LineAt(b.text, i);
    FirstLineStartsTheText(b);
    var lead := LeadSpans(b, i, at);
    assert i > 0 ==> lead[1..] == [];
  }

  lemma FirstLineStartsTheText(b: RichText)
    ensures Lines(b.text)[0].lo == 0
  {
  }

  lemma PrefixTiles(b: RichText, i: nat, at: nat)
    requires Valid(b) && i < |b.kinds|
    ensures Chain(Displays(PrefixSpans(b, i, at)), at, at + |LinePrefix(b, i)|)
    ensures Models(PrefixSpans(b, i, at)) == []
  {
    hide Lines, StyleAt, Tiles, LinePrefix;
    var prefix := PrefixSpans(b, i, at);
    assert prefix != [] ==> prefix[1..] == [];
  }

  lemma ContentTiles(b: RichText, i: nat, at: nat)
    requires Valid(b) && i < |b.kinds|
    ensures var line := Lines(b.text)[i];
            && line.lo <= line.hi
            && Chain(Displays(Content(b, i, at)), at, at + (line.hi - line.lo))
            && Chain(Models(Content(b, i, at)), line.lo, line.hi)
  {
    var line := Lines(b.text)[i];
    LineAt(b.text, i);
    LineOverlapsTile(b, i);
    hide Lines, StyleAt, Tiles, Overlaps, Shifted, Chain, Displays, Models;
    ShiftedTiles(Overlaps(b.runs, line.lo, line.hi), line.lo, at, line.lo, line.hi);
  }

  lemma LineTiles(b: RichText, i: nat)
    requires Valid(b) && i < |b.kinds|
    ensures |DisplayText(b, i)| <= |DisplayText(b, i + 1)| && ModelBefore(b, i) <= ModelBefore(b, i + 1)
    ensures Chain(Displays(LineSpans(b, i)), |DisplayText(b, i)|, |DisplayText(b, i + 1)|)
    ensures Chain(Models(LineSpans(b, i)), ModelBefore(b, i), ModelBefore(b, i + 1))
  {
    hide Lines, Overlaps, DisplayText, Shifted, Tiles, Chain, Displays, Models, LeadSpans, PrefixSpans, Content,
         LinePrefix, StyleAt;
    var line := Lines(b.text)[i];
    var start := |DisplayText(b, i)|;
    var middle, content := start + |Lead(b, i)|, ContentStart(b, i);
    var l, p, c := LeadSpans(b, i, start), PrefixSpans(b, i, middle), Content(b, i, content);
    LineAt(b.text, i);
    OneMoreLine(b, i);
    LeadTiles(b, i, start);
    PrefixTiles(b, i, middle);
    ContentTiles(b, i, content);
    PartsConcat(l, p);
    PartsConcat(l + p, c);
    ChainConcat(Displays(l), Displays(p), start, middle, content);
    ChainConcat(Displays(l) + Displays(p), Displays(c), start, content, |DisplayText(b, i + 1)|);
    assert Models(l) + [] == Models(l);
    ChainConcat(Models(l), Models(c), ModelBefore(b, i), line.lo, line.hi);
  }

  lemma {:induction false} SpansTileUpTo(b: RichText, n: nat)
    requires Valid(b) && n <= |b.kinds|
    ensures Chain(Displays(Spans(b, n)), 0, |DisplayText(b, n)|)
    ensures Chain(Models(Spans(b, n)), 0, ModelBefore(b, n))
  {
    hide Chain, Displays, Models, Spans, DisplayText, ModelBefore, Lines, Tiles;
    if n == 0 {
      NoSpansTile(b);
    } else {
      SpansTileUpTo(b, n - 1);
      SpansTileOneMore(b, n - 1);
    }
  }

  lemma NoSpansTile(b: RichText)
    requires Valid(b)
    ensures Chain(Displays(Spans(b, 0)), 0, |DisplayText(b, 0)|)
    ensures Chain(Models(Spans(b, 0)), 0, ModelBefore(b, 0))
  {
  }

  lemma SpansTileOneMore(b: RichText, i: nat)
    requires Valid(b) && i < |b.kinds|
    requires Chain(Displays(Spans(b, i)), 0, |DisplayText(b, i)|)
    requires Chain(Models(Spans(b, i)), 0, ModelBefore(b, i))
    ensures Chain(Displays(Spans(b, i + 1)), 0, |DisplayText(b, i + 1)|)
    ensures Chain(Models(Spans(b, i + 1)), 0, ModelBefore(b, i + 1))
  {
    hide Lines, LinesFrom, Tiles, DisplayText, LineSpans, Chain, Displays, Models, ModelBefore, Spans;
    OneMoreLine(b, i);
    LineTiles(b, i);
    PartsConcat(Spans(b, i), LineSpans(b, i));
    ChainConcat(Displays(Spans(b, i)), Displays(LineSpans(b, i)), 0, |DisplayText(b, i)|, |DisplayText(b, i + 1)|);
    ChainConcat(Models(Spans(b, i)), Models(LineSpans(b, i)), 0, ModelBefore(b, i), ModelBefore(b, i + 1));
  }

  /** Spans tile the display text; their model parts tile the whole model text. */
  lemma SpansTile(b: RichText, p: DisplayProjection)
    requires Projected(b, p)
    ensures Chain(Displays(p.spans), 0, |p.text|)
    ensures Chain(Models(p.spans), 0, |b.text|)
  {
    SpansTileUpTo(b, |b.kinds|);
  }

  // ---- Faithful spans ----

  /** The span shows the model bytes it names, in their own style, and crosses no newline; a prefix is plain. */
  ghost predicate Faithful(b: RichText, text: seq<byte>, s: Span) {
    && s.display.lo <= s.display.hi <= |text|
    && (s.model.None? ==> s.style == Style(false, false, false))
    && (s.model.Some? ==>
          var m := s.model.value;
          && m.lo < m.hi <= |b.text|
          && text[s.display.lo..s.display.hi] == b.text[m.lo..m.hi]
          && (forall o :: m.lo <= o < m.hi ==> s.style == StyleAt(b.runs, o))
          && (forall o :: m.lo <= o < m.hi - 1 ==> b.text[o] != NEWLINE))
  }

  lemma SliceOfSlice(text: seq<byte>, at: nat, source: seq<byte>, line: Range, m: Range)
    requires at <= |text| && line.lo <= m.lo <= m.hi <= line.hi <= |source|
    requires text[at..] == source[line.lo..line.hi]
    ensures text[at + (m.lo - line.lo)..at + (m.hi - line.lo)] == source[m.lo..m.hi]
  {
    var a := m.lo - line.lo;
    var x, y := text[at + a..at + (m.hi - line.lo)], source[m.lo..m.hi];
    forall k | 0 <= k < |x| ensures x[k] == y[k] {
      assert text[at..][a + k] == source[line.lo..line.hi][a + k];
    }
  }

  lemma PartIsFaithful(b: RichText, text: seq<byte>, line: Range, at: nat, k: nat)
    requires Tiles(b.runs, 0, |b.text|) && Unbroken(b.text, line)
    requires at <= |text| && text[at..] == b.text[line.lo..line.hi]
    requires k < |Overlaps(b.runs, line.lo, line.hi)|
    ensures var part := Overlaps(b.runs, line.lo, line.hi)[k];
            && line.lo <= part.range.lo < part.range.hi <= line.hi
            && Faithful(b, text, Span(Range(at + (part.range.lo - line.lo), at + (part.range.hi - line.lo)),
                                      Some(part.range), part.style))
  {
    OverlapsTile(b.runs, 0, |b.text|, line.lo, line.hi);
    hide StyleAt, Overlaps;
    var parts := Overlaps(b.runs, line.lo, line.hi);
    TilesBounds(parts, line.lo, line.hi);
    hide Tiles;
    var m := parts[k].range;
    forall o | m.lo <= o < m.hi ensures parts[k].style == StyleAt(b.runs, o) {
      OverlapsKeepStyle(b.runs, 0, |b.text|, line.lo, line.hi, k, o);
    }
    SliceOfSlice(text, at, b.text, line, m);
  }

  lemma ContentIsFaithful(b: RichText, i: nat, k: nat)
    requires Valid(b) && i < |b.kinds| && k < |Content(b, i, ContentStart(b, i))|
    ensures Faithful(b, DisplayText(b, i + 1), Content(b, i, ContentStart(b, i))[k])
  {
    hide Lines, LinesFrom, DisplayText, Tiles, StyleAt, Overlaps, LinePrefix, Lead, Faithful, Shifted, Content;
    LineAt(b.text, i);
    OneMoreLine(b, i);
    var line, at := Lines(b.text)[i], ContentStart(b, i);
    ContentPart(b, i, at, k);
    assert DisplayText(b, i + 1)[at..] == b.text[line.lo..line.hi];
    PartIsFaithful(b, DisplayText(b, i + 1), line, at, k);
  }

  lemma ContentPart(b: RichText, i: nat, at: nat, k: nat)
    requires Valid(b) && i < |b.kinds| && k < |Content(b, i, at)|
    ensures var line := Lines(b.text)[i];
            var parts := Overlaps(b.runs, line.lo, line.hi);
            && k < |parts| && line.lo <= parts[k].range.lo <= parts[k].range.hi
            && Content(b, i, at)[k] == Span(Range(at + (parts[k].range.lo - line.lo), at + (parts[k].range.hi - line.lo)),
                                            Some(parts[k].range), parts[k].style)
  {
    hide Lines, LinesFrom, Overlaps, Tiles, StyleAt;
    LineOverlapsTile(b, i);
  }

  lemma LineIsFaithful(b: RichText, i: nat, s: Span)
    requires Valid(b) && i < |b.kinds| && s in LineSpans(b, i)
    ensures Faithful(b, DisplayText(b, i + 1), s)
  {
    hide LinesFrom, DisplayText, Digits, Tiles, StyleAt, Overlaps, Shifted;
    var content := Content(b, i, ContentStart(b, i));
    LineAt(b.text, i);
    OneMoreLine(b, i);
    if s in content {
      var k :| 0 <= k < |content| && content[k] == s;
      ContentIsFaithful(b, i, k);
    } else if s in LeadSpans(b, i, |DisplayText(b, i)|) {
      var newline := Lines(b.text)[i].lo - 1;
      assert DisplayText(b, i + 1)[|DisplayText(b, i)|] == NEWLINE;
      assert b.text[newline..newline + 1] == [NEWLINE];
    }
  }

  lemma {:induction false} SpansAreFaithful(b: RichText, n: nat, s: Span)
    requires Valid(b) && n <= |b.kinds| && s in Spans(b, n)
    ensures Faithful(b, DisplayText(b, n), s)
  {
    hide LinesFrom, DisplayText, LineSpans, StyleAt;
    OneMoreLine(b, n - 1);
    if s in Spans(b, n - 1) {
      SpansAreFaithful(b, n - 1, s);
      var shorter, longer := DisplayText(b, n - 1), DisplayText(b, n);
      assert shorter == longer[..|shorter|];
      assert shorter[s.display.lo..s.display.hi] == longer[s.display.lo..s.display.hi];
    } else {
      LineIsFaithful(b, n - 1, s);
    }
  }

  // ---- Text runs ----

  datatype Background = NoBackground | SelectionBackground | CodeBackground

  datatype Look = Look(mono: bool, bold: bool, italic: bool, background: Background, underlined: bool)

  datatype TextRun = TextRun(len: nat, look: Look)

  function LookOf(style: Style, block: BlockKind, selected: bool, marked: bool): Look {
    Look(style.code,
         style.bold || block.Heading1? || block.Heading2? || block.Heading3?,
         style.italic,
         if selected then SelectionBackground else if style.code then CodeBackground else NoBackground,
         marked)
  }

  predicate Within(r: Range, o: nat) { r.lo <= o < r.hi }

  /** How one model byte is painted. */
  function ByteLook(b: RichText, style: Style, o: nat): Look
    requires Valid(b) && o <= |b.text| && Newlines(b.text, o) < |b.kinds|
  {
    LookOf(style, b.kinds[Newlines(b.text, o)], Within(b.selection, o),
           b.marked.Some? && Within(b.marked.value, o))
  }

  /** A selected byte has the selection behind it, other code its own background; a marked one is underlined. */
  lemma BytesLookAsMarked(b: RichText, style: Style, o: nat)
    requires Valid(b) && o <= |b.text| && Newlines(b.text, o) < |b.kinds|
    ensures var look, kind := ByteLook(b, style, o), b.kinds[Newlines(b.text, o)];
            && (look.background.SelectionBackground? <==> b.selection.lo <= o < b.selection.hi)
            && (look.background.CodeBackground? <==> style.code && !look.background.SelectionBackground?)
            && (look.underlined <==> b.marked.Some? && b.marked.value.lo <= o < b.marked.value.hi)
            && (look.mono <==> style.code) && (look.italic <==> style.italic)
            && (look.bold <==> style.bold || kind in {Heading1, Heading2, Heading3})
  {
  }

  lemma LineOfByte(text: seq<byte>, o: nat)
    requires o <= |text|
    ensures Newlines(text, o) < |Lines(text)|
  {
    LinesSplitAtNewlines(text, 0, 0);
    NewlinesGrow(text, o, |text|);
  }

  lemma {:induction false} NewlinesGrow(text: seq<byte>, a: nat, b: nat)
    requires a <= b <= |text|
    ensures Newlines(text, a) <= Newlines(text, b)
    ensures (forall o :: a <= o < b ==> text[o] != NEWLINE) ==> Newlines(text, a) == Newlines(text, b)
    decreases b
  {
    if a < b {
      NewlinesGrow(text, a, b - 1);
    }
  }

  function Repeat(n: nat, look: Look): (r: seq<Look>)
    ensures |r| == n
  {
    seq(n, _ => look)
  }

  /** Run-length decoding: one look for every byte. */
  function Expand(runs: seq<TextRun>): seq<Look> {
    if runs == [] then [] else Expand(runs[..|runs| - 1]) + Repeat(runs[|runs| - 1].len, runs[|runs| - 1].look)
  }

  function PaintedBytes(b: RichText, style: Style, lo: nat, hi: nat): (r: seq<Look>)
    requires Valid(b) && lo <= hi <= |b.text|
    ensures |r| == hi - lo
  {
    seq(hi - lo, k requires 0 <= k < hi - lo => LineOfByte(b.text, lo + k); ByteLook(b, style, lo + k))
  }

  function PaintedSpan(b: RichText, s: Span): seq<Look>
    requires Valid(b) && s.display.lo <= s.display.hi
    requires s.model.Some? ==> s.model.value.lo <= s.model.value.hi <= |b.text|
  {
    if s.model.Some? then PaintedBytes(b, s.style, s.model.value.lo, s.model.value.hi)
    else Repeat(s.display.hi - s.display.lo, LookOf(s.style, Paragraph, false, false))
  }

  ghost predicate Paintable(b: RichText, s: Span) {
    && s.display.lo <= s.display.hi
    && (s.model.Some? ==>
          var m := s.model.value;
          && m.lo < m.hi <= |b.text| && m.hi - m.lo == s.display.hi - s.display.lo
          && (forall o :: m.lo <= o < m.hi - 1 ==> b.text[o] != NEWLINE))
  }

  ghost function Painted(b: RichText, spans: seq<Span>): seq<Look>
    requires Valid(b) && forall s :: s in spans ==> Paintable(b, s)
  {
    if spans == [] then []
    else
      var last := spans[|spans| - 1];
      assert Paintable(b, last);
      Painted(b, spans[..|spans| - 1]) + PaintedSpan(b, last)
  }

  /** Keeps a list of offsets sorted and free of repeats. */
  function Insert(x: nat, xs: seq<nat>): seq<nat> {
    if xs == [] || x < xs[0] then [x] + xs
    else if x == xs[0] then xs
    else [xs[0]] + Insert(x, xs[1..])
  }

  predicate Increasing(xs: seq<nat>) {
    forall i, j :: 0 <= i < j < |xs| ==> xs[i] < xs[j]
  }

  lemma {:induction false} InsertSorts(x: nat, xs: seq<nat>)
    requires Increasing(xs)
    ensures Increasing(Insert(x, xs))
    ensures forall y :: y in Insert(x, xs) <==> y == x || y in xs
  {
    if xs != [] && xs[0] < x {
      InsertSorts(x, xs[1..]);
      assert xs == [xs[0]] + xs[1..];
      assert forall i :: 0 < i < |Insert(x, xs)| ==> Insert(x, xs)[i] in Insert(x, xs[1..]);
    }
  }

  /** The offsets at which a span is cut: its ends and every selection or mark edge strictly inside. */
  method Boundaries(m: Range, selection: Range, marked: Option<Range>) returns (xs: seq<nat>)
    requires m.lo < m.hi
    ensures Increasing(xs) && |xs| >= 2 && xs[0] == m.lo && xs[|xs| - 1] == m.hi
    ensures forall e :: e in Edges(selection, marked) && m.lo < e < m.hi ==> e in xs
  {
    var edges := Edges(selection, marked);
    xs := [m.lo, m.hi];
    for i := 0 to |edges|
      invariant Increasing(xs) && m.lo in xs && m.hi in xs
      invariant forall x :: x in xs ==> m.lo <= x <= m.hi
      invariant forall j :: 0 <= j < i && m.lo < edges[j] < m.hi ==> edges[j] in xs
    {
      if m.lo < edges[i] < m.hi {
        InsertSorts(edges[i], xs);
        xs := Insert(edges[i], xs);
      }
    }
    assert xs[0] in xs && xs[|xs| - 1] in xs;
  }

  function Edges(selection: Range, marked: Option<Range>): seq<nat> {
    [selection.lo, selection.hi] + if marked.Some? then [marked.value.lo, marked.value.hi] else []
  }

  /** Between two cuts every byte is painted alike. */
  lemma PieceIsUniform(b: RichText, style: Style, m: Range, xs: seq<nat>, k: nat)
    requires Valid(b) && m.lo < m.hi <= |b.text|
    requires forall o :: m.lo <= o < m.hi - 1 ==> b.text[o] != NEWLINE
    requires Increasing(xs) && k + 1 < |xs| && xs[0] == m.lo && xs[|xs| - 1] == m.hi
    requires forall e :: e in Edges(b.selection, b.marked) && m.lo < e < m.hi ==> e in xs
    requires Newlines(b.text, xs[k]) < |b.kinds|
    ensures m.lo <= xs[k] < xs[k + 1] <= m.hi
    ensures PaintedBytes(b, style, xs[k], xs[k + 1]) ==
            Repeat(xs[k + 1] - xs[k],
                   LookOf(style, b.kinds[Newlines(b.text, xs[k])],
                          b.selection.lo < b.selection.hi && xs[k] < b.selection.hi && xs[k + 1] > b.selection.lo,
                          b.marked.Some? && xs[k] < b.marked.value.hi && xs[k + 1] > b.marked.value.lo))
  {
    hide LinesFrom, Tiles, Newlines, Valid;
    var edges := Edges(b.selection, b.marked);
    var block, selected, marked := b.kinds[Newlines(b.text, xs[k])], Within(b.selection, xs[k]),
                                   b.marked.Some? && Within(b.marked.value, xs[k]);
    NoEdgeBetween(xs, k, m, b.selection.lo, edges);
    NoEdgeBetween(xs, k, m, b.selection.hi, edges);
    if b.marked.Some? {
      assert edges[2] == b.marked.value.lo && edges[3] == b.marked.value.hi;
      NoEdgeBetween(xs, k, m, b.marked.value.lo, edges);
      NoEdgeBetween(xs, k, m, b.marked.value.hi, edges);
    }
    var bytes := PaintedBytes(b, style, xs[k], xs[k + 1]);
    forall i | 0 <= i < |bytes| ensures bytes[i] == LookOf(style, block, selected, marked) {
      LineOfByte(b.text, xs[k] + i);
      NewlinesGrow(b.text, xs[k], xs[k] + i);
      assert bytes[i] == ByteLook(b, style, xs[k] + i);
    }
  }

  lemma NoEdgeBetween(xs: seq<nat>, k: nat, m: Range, e: nat, edges: seq<nat>)
    requires Increasing(xs) && k + 1 < |xs| && xs[0] == m.lo && xs[|xs| - 1] == m.hi
    requires e in edges && forall e :: e in edges && m.lo < e < m.hi ==> e in xs
    ensures e <= xs[k] || xs[k + 1] <= e
  {
    if xs[k] < e < xs[k + 1] {
      var j :| 0 <= j < |xs| && xs[j] == e;
      assert false;
    }
  }

  lemma ExpandOneMore(runs: seq<TextRun>, run: TextRun)
    ensures Expand(runs + [run]) == Expand(runs) + Repeat(run.len, run.look)
  {
    assert (runs + [run])[..|runs|] == runs;
  }

  /** The runs of one span with model text. */
  method SpanRuns(b: RichText, s: Span) returns (runs: seq<TextRun>)
    requires Valid(b) && Paintable(b, s) && s.model.Some?
    ensures Expand(runs) == PaintedSpan(b, s)
  {
    hide LinesFrom, Tiles, Newlines, Expand;
    var m := s.model.value;
    var xs := Boundaries(m, b.selection, b.marked);
    runs := [];
    NothingExpands();
    for k := 0 to |xs| - 1
      invariant m.lo <= xs[k] <= m.hi
      invariant Expand(runs) == PaintedBytes(b, s.style, m.lo, xs[k])
    {
      var start, end := xs[k], xs[k + 1];
      assert m.lo <= start < end <= m.hi;
      LineOfByte(b.text, start);
      PieceIsUniform(b, s.style, m, xs, k);
      var selected := b.selection.lo < b.selection.hi && start < b.selection.hi && end > b.selection.lo;
      var marked := b.marked.Some? && start < b.marked.value.hi && end > b.marked.value.lo;
      var run := TextRun(end - start, LookOf(s.style, b.kinds[Newlines(b.text, start)], selected, marked));
      ExpandOneMore(runs, run);
      assert PaintedBytes(b, s.style, m.lo, end)
          == PaintedBytes(b, s.style, m.lo, start) + PaintedBytes(b, s.style, start, end);
      runs := runs + [run];
    }
  }

  lemma NothingExpands()
    ensures Expand([]) == []
  {
  }

  lemma {:induction false} ExpandConcat(a: seq<TextRun>, b: seq<TextRun>)
    ensures Expand(a + b) == Expand(a) + Expand(b)
  {
    if b == [] {
      assert a + b == a;
    } else {
      var n := |b| - 1;
      assert (a + b)[..|a + b| - 1] == a + b[..n];
      ExpandConcat(a, b[..n]);
    }
  }

  lemma SpansArePaintable(b: RichText, p: DisplayProjection)
    requires Projected(b, p)
    ensures forall s :: s in p.spans ==> Paintable(b, s)
  {
    forall s | s in p.spans ensures Paintable(b, s) {
      SpansAreFaithful(b, |b.kinds|, s);
      if s.model.Some? {
        assert |p.text[s.display.lo..s.display.hi]| == |b.text[s.model.value.lo..s.model.value.hi]|;
      }
    }
  }

  /** Cuts the spans into runs: decoded back, they give every byte of the display its own look. */
  method DisplayTextRuns(b: RichText, p: DisplayProjection) returns (runs: seq<TextRun>)
    requires Projected(b, p)
    ensures forall s :: s in p.spans ==> Paintable(b, s)
    ensures Expand(runs) == Painted(b, p.spans) && |Expand(runs)| == |p.text|
  {
    hide Lines, LinesFrom, Tiles, Expand, PaintedSpan, Spans, DisplayText, LinesOf, Chain, Displays, Models, Newlines,
         ByteLook, Paintable, Repeat;
    SpansArePaintable(b, p);
    SpansTile(b, p);
    PaintedLength(b, p.spans, 0, |p.text|);
    runs := [];
    NothingExpands();
    for i := 0 to |p.spans|
      invariant Expand(runs) == Painted(b, p.spans[..i])
    {
      var s := p.spans[i];
      assert p.spans[..i + 1][..i] == p.spans[..i];
      assert s in p.spans;
      if s.model.Some? {
        var more := SpanRuns(b, s);
        ExpandConcat(runs, more);
        runs := runs + more;
      } else {
        PrefixPaint(b, s);
        var run := TextRun(s.display.hi - s.display.lo, LookOf(s.style, Paragraph, false, false));
        ExpandOneMore(runs, run);
        runs := runs + [run];
      }
    }
    assert p.spans[..|p.spans|] == p.spans;
  }

  lemma PrefixPaint(b: RichText, s: Span)
    requires Valid(b) && Paintable(b, s) && s.model.None?
    ensures s.display.lo <= s.display.hi
    ensures PaintedSpan(b, s) == Repeat(s.display.hi - s.display.lo, LookOf(s.style, Paragraph, false, false))
  {
  }

  lemma {:induction false} ChainFront(rs: seq<Range>, lo: nat, hi: nat)
    requires Chain(rs, lo, hi) && rs != []
    ensures rs[|rs| - 1].hi == hi && lo <= rs[|rs| - 1].lo < hi && Chain(rs[..|rs| - 1], lo, rs[|rs| - 1].lo)
  {
    if |rs| > 1 {
      ChainFront(rs[1..], rs[0].hi, hi);
      assert rs[..|rs| - 1][1..] == rs[1..][..|rs| - 2];
    }
  }

  lemma {:induction false} PaintedLength(b: RichText, spans: seq<Span>, lo: nat, hi: nat)
    requires Valid(b) && forall s :: s in spans ==> Paintable(b, s)
    ensures Chain(Displays(spans), lo, hi) ==> |Painted(b, spans)| == hi - lo
  {
    if spans != [] && Chain(Displays(spans), lo, hi) {
      var n := |spans| - 1;
      var s := spans[n];
      assert spans == spans[..n] + [s];
      PartsConcat(spans[..n], [s]);
      assert Displays([s]) == [s.display];
      ChainFront(Displays(spans), lo, hi);
      assert Displays(spans)[..|Displays(spans)| - 1] == Displays(spans[..n]);
      PaintedLength(b, spans[..n], lo, s.display.lo);
      assert Paintable(b, s) && |PaintedSpan(b, s)| == s.display.hi - s.display.lo;
    }
  }
}
