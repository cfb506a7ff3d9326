/**
  The single-line text field. `Editing` is its meaning: an anchor and a cursor counted in scalars.
  `TextFields` is the program: UTF-8 byte ranges with a direction flag, edited in place.
*/
module Editing {
  import opened Wrappers
  import opened Utf

  const USIZE_MAX := 0xFFFF_FFFF_FFFF_FFFF

  datatype Span = Span(lo: nat, hi: nat)

  /** A selection runs from `anchor` to `cursor`, in either direction. */
  datatype Field = Field(text: string, anchor: nat, cursor: nat, marked: Option<Span>)

  datatype Rejection = TooLong(limitBytes: nat, attemptedBytes: nat)

  predicate SingleLine(s: string) {
    forall i :: 0 <= i < |s| ==> s[i] != '\n' && s[i] != '\r'
  }

  function ToSingleLine(s: string): (r: string)
    ensures |r| == |s| && SingleLine(r)
    ensures forall i :: 0 <= i < |s| ==> r[i] == if s[i] == '\n' || s[i] == '\r' then ' ' else s[i]
  {
    seq(|s|, i requires 0 <= i < |s| => if s[i] == '\n' || s[i] == '\r' then ' ' else s[i])
  }

  /** Line breaks are one byte each, as is the space put in their place. */
  lemma {:induction false} SingleLineKeepsBytes(s: string)
    ensures Width(Utf8, ToSingleLine(s)) == Width(Utf8, s)
  {
    if s != [] {
      assert ToSingleLine(s)[1..] == ToSingleLine(s[1..]);
      SingleLineKeepsBytes(s[1..]);
    }
  }

  predicate WellFormed(f: Field, maxBytes: nat) {
    && SingleLine(f.text)
    && Width(Utf8, f.text) <= maxBytes
    && Placed(f)
    && (f.marked.Some? ==> f.marked.value.lo <= f.marked.value.hi <= |f.text|)
  }

  predicate Placed(f: Field) {
    f.anchor <= |f.text| && f.cursor <= |f.text|
  }

  function Low(f: Field): nat { if f.anchor <= f.cursor then f.anchor else f.cursor }

  function High(f: Field): nat { if f.anchor <= f.cursor then f.cursor else f.anchor }

  function MoveTo(f: Field, k: nat): Field { f.(anchor := k, cursor := k) }

  function SelectTo(f: Field, k: nat): Field { f.(cursor := k) }

  function Spliced(f: Field, i: nat, j: nat, ins: string): string
    requires i <= j <= |f.text|
  {
    f.text[..i] + ToSingleLine(ins) + f.text[j..]
  }

  /** Bytes the text would have, capped the way the overflow check reports them. */
  function Attempted(f: Field, i: nat, j: nat, ins: string): nat
    requires i <= j <= |f.text|
  {
    var total := Width(Utf8, f.text[..i]) + Width(Utf8, f.text[j..]) + Width(Utf8, ins);
    if total > USIZE_MAX then USIZE_MAX else total
  }

  predicate Fits(f: Field, i: nat, j: nat, ins: string, maxBytes: nat)
    requires i <= j <= |f.text|
  {
    Width(Utf8, f.text[..i]) + Width(Utf8, f.text[j..]) + Width(Utf8, ins) <= maxBytes
  }

  /** Puts `ins` in place of scalars `i..j` and leaves the cursor after it. */
  function Replaced(f: Field, i: nat, j: nat, ins: string): Field
    requires i <= j <= |f.text|
  {
    Field(Spliced(f, i, j, ins), i + |ins|, i + |ins|, None)
  }

  function Replace(f: Field, i: nat, j: nat, ins: string, maxBytes: nat): Field
    requires i <= j <= |f.text|
  {
    if Fits(f, i, j, ins, maxBytes) then Replaced(f, i, j, ins) else f
  }

  /** One user action, with offsets already resolved to scalars. */
  datatype Edit =
    | Click(at: nat)
    | Drag(at: nat)
    | SelectAll
    | ReplaceRange(lo: nat, hi: nat, ins: string)
    | Backspace
    | Delete
    | Compose(lo: nat, hi: nat, ins: string, selected: Option<Span>)
    | Unmark

  predicate InRange(f: Field, e: Edit) {
    match e
    case Click(k) => k <= |f.text|
    case Drag(k) => k <= |f.text|
    case ReplaceRange(i, j, _) => i <= j <= |f.text|
    case Compose(i, j, ins, sel) =>
      i <= j <= |f.text| && (sel.Some? ==> sel.value.lo <= sel.value.hi <= |ins|)
    case _ => true
  }

  /** The selection backspace and delete act on. */
  function Grown(f: Field, target: nat): Field {
    if f.anchor == f.cursor then SelectTo(f, target) else f
  }

  function Before(f: Field): nat { if f.cursor == 0 then 0 else f.cursor - 1 }

  function After(f: Field): nat { if f.cursor < |f.text| then f.cursor + 1 else |f.text| }

  function Composed(f: Field, i: nat, j: nat, ins: string, selected: Option<Span>): Field
    requires i <= j <= |f.text|
  {
    var g := Replaced(f, i, j, ins);
    var m := g.(marked := if ins == [] then None else Some(Span(i, i + |ins|)));
    if selected.None? then m else m.(anchor := i + selected.value.lo, cursor := i + selected.value.hi)
  }

  function Apply(f: Field, e: Edit, maxBytes: nat): Field
    requires Placed(f) && InRange(f, e)
  {
    match e
    case Click(k) => MoveTo(f, k)
    case Drag(k) => SelectTo(f, k)
    case SelectAll => f.(anchor := 0, cursor := |f.text|)
    case ReplaceRange(i, j, ins) => Replace(f, i, j, ins, maxBytes)
    case Backspace => var g := Grown(f, Before(f)); Replace(g, Low(g), High(g), [], maxBytes)
    case Delete => var g := Grown(f, After(f)); Replace(g, Low(g), High(g), [], maxBytes)
    case Compose(i, j, ins, sel) => if Fits(f, i, j, ins, maxBytes) then Composed(f, i, j, ins, sel) else f
    case Unmark => f.(marked := None)
  }

  lemma SplicedText(f: Field, i: nat, j: nat, ins: string)
    requires i <= j <= |f.text|
    ensures Width(Utf8, Spliced(f, i, j, ins))
         == Width(Utf8, f.text[..i]) + Width(Utf8, f.text[j..]) + Width(Utf8, ins)
    ensures SingleLine(f.text) ==> SingleLine(Spliced(f, i, j, ins))
    ensures var t := Spliced(f, i, j, ins);
            && t[..i] == f.text[..i] && t[i..i + |ins|] == ToSingleLine(ins) && t[i + |ins|..] == f.text[j..]
            && Offset(Utf8, t, i + |ins|) == Offset(Utf8, f.text, i) + Width(Utf8, ins)
  {
    hide Width, Index;
    var placed, t := ToSingleLine(ins), Spliced(f, i, j, ins);
    SingleLineKeepsBytes(ins);
    assert t[..i + |ins|] == f.text[..i] + placed;
    WidthConcat(Utf8, f.text[..i], placed);
    WidthConcat(Utf8, f.text[..i] + placed, f.text[j..]);
  }

  lemma ReplaceKeeps(f: Field, i: nat, j: nat, ins: string, maxBytes: nat)
    requires WellFormed(f, maxBytes) && i <= j <= |f.text|
    ensures WellFormed(Replace(f, i, j, ins, maxBytes), maxBytes)
  {
    SplicedText(f, i, j, ins);
  }

  /** Every edit keeps one line, the byte limit and offsets inside the text. */
  lemma ApplyKeeps(f: Field, e: Edit, maxBytes: nat)
    requires WellFormed(f, maxBytes) && InRange(f, e)
    ensures WellFormed(Apply(f, e, maxBytes), maxBytes)
  {
    match e
    case ReplaceRange(i, j, ins) => ReplaceKeeps(f, i, j, ins, maxBytes);
    case Compose(i, j, ins, _) => ReplaceKeeps(f, i, j, ins, maxBytes);
    case Backspace => var g := Grown(f, Before(f)); ReplaceKeeps(g, Low(g), High(g), [], maxBytes);
    case Delete => var g := Grown(f, After(f)); ReplaceKeeps(g, Low(g), High(g), [], maxBytes);
    case Click(_) => {}
    case Drag(_) => {}
    case SelectAll => {}
    case Unmark => {}
  }

  /** A run is legal when every edit is in range of the text it meets. */
  predicate Legal(f: Field, es: seq<Edit>, maxBytes: nat)
    requires WellFormed(f, maxBytes)
    decreases |es|
  {
    es == [] || (InRange(f, es[0]) &&
                 WellFormed(Apply(f, es[0], maxBytes), maxBytes) &&
                 Legal(Apply(f, es[0], maxBytes), es[1..], maxBytes))
  }

  function Run(f: Field, es: seq<Edit>, maxBytes: nat): Field
    requires WellFormed(f, maxBytes) && Legal(f, es, maxBytes)
    decreases |es|
  {
    if es == [] then f else Run(Apply(f, es[0], maxBytes), es[1..], maxBytes)
  }

  lemma {:induction false} RunKeeps(f: Field, es: seq<Edit>, maxBytes: nat)
    requires WellFormed(f, maxBytes) && Legal(f, es, maxBytes)
    ensures WellFormed(Run(f, es, maxBytes), maxBytes)
    decreases |es|
  {
    if es != [] {
      ApplyKeeps(f, es[0], maxBytes);
      RunKeeps(Apply(f, es[0], maxBytes), es[1..], maxBytes);
    }
  }

  lemma RemovalFits(f: Field, i: nat, j: nat, maxBytes: nat)
    requires WellFormed(f, maxBytes) && i <= j <= |f.text|
    ensures Fits(f, i, j, [], maxBytes)
  {
    assert f.text == f.text[..i] + (f.text[i..j] + f.text[j..]);
    WidthConcat(Utf8, f.text[..i], f.text[i..j] + f.text[j..]);
    WidthConcat(Utf8, f.text[i..j], f.text[j..]);
  }

  /** With nothing selected, backspace and delete take out exactly one scalar, and are never refused. */
  lemma ErasesOneScalar(f: Field, maxBytes: nat)
    requires WellFormed(f, maxBytes) && f.anchor == f.cursor
    ensures Apply(f, Backspace, maxBytes).text ==
            if f.cursor == 0 then f.text else f.text[..f.cursor - 1] + f.text[f.cursor..]
    ensures Apply(f, Backspace, maxBytes).cursor == Before(f)
    ensures Apply(f, Delete, maxBytes).text ==
            if f.cursor == |f.text| then f.text else f.text[..f.cursor] + f.text[f.cursor + 1..]
    ensures Apply(f, Delete, maxBytes).cursor == f.cursor
  {
    hide WellFormed, Fits, Spliced, Width;
    GrownIsWellFormed(f, maxBytes);
    var back, forth := Grown(f, Before(f)), Grown(f, After(f));
    RemovalFits(back, Before(f), f.cursor, maxBytes);
    RemovalFits(forth, f.cursor, After(f), maxBytes);
    RemovedText(back, Before(f), f.cursor);
    RemovedText(forth, f.cursor, After(f));
    assert f.text[..f.cursor] + f.text[f.cursor..] == f.text;
  }

  lemma GrownIsWellFormed(f: Field, maxBytes: nat)
    requires WellFormed(f, maxBytes)
    ensures Placed(f) && WellFormed(Grown(f, Before(f)), maxBytes) && WellFormed(Grown(f, After(f)), maxBytes)
  {
  }

  lemma RemovedText(f: Field, i: nat, j: nat)
    requires i <= j <= |f.text|
    ensures Spliced(f, i, j, []) == f.text[..i] + f.text[j..]
  {
    assert ToSingleLine([]) == [];
  }

  /** Typing over the selection and then undoing the difference by one more replacement restores the text. */
  lemma ReplaceBack(f: Field, i: nat, j: nat, ins: string, maxBytes: nat)
    requires WellFormed(f, maxBytes) && i <= j <= |f.text| && Fits(f, i, j, ins, maxBytes)
    ensures var g := Replace(f, i, j, ins, maxBytes);
            i + |ins| <= |g.text| && Replace(g, i, i + |ins|, f.text[i..j], maxBytes).text == f.text
  {
    hide WellFormed, Spliced, Width, Offset, SingleLine;
    var g := Replaced(f, i, j, ins);
    SplicedText(f, i, j, ins);
    SplicedLength(f, i, j, ins);
    SplitText(f, i, j, maxBytes);
    RestoredText(f, g, i, j, i + |ins|);
  }

  lemma SplicedLength(f: Field, i: nat, j: nat, ins: string)
    requires i <= j <= |f.text|
    ensures |Spliced(f, i, j, ins)| == i + |ins| + (|f.text| - j)
  {
  }

  lemma SplitText(f: Field, i: nat, j: nat, maxBytes: nat)
    requires WellFormed(f, maxBytes) && i <= j <= |f.text|
    ensures Width(Utf8, f.text[..i]) + Width(Utf8, f.text[j..]) + Width(Utf8, f.text[i..j]) <= maxBytes
    ensures SingleLine(f.text)
  {
    hide Width;
    assert f.text == f.text[..i] + (f.text[i..j] + f.text[j..]);
    WidthConcat(Utf8, f.text[..i], f.text[i..j] + f.text[j..]);
    WidthConcat(Utf8, f.text[i..j], f.text[j..]);
  }

  lemma RestoredText(f: Field, g: Field, i: nat, j: nat, k: nat)
    requires i <= j <= |f.text| && SingleLine(f.text)
    requires i <= k <= |g.text| && g.text[..i] == f.text[..i] && g.text[k..] == f.text[j..]
    ensures Spliced(g, i, k, f.text[i..j]) == f.text
  {
    assert ToSingleLine(f.text[i..j]) == f.text[i..j];
    assert f.text == f.text[..i] + f.text[i..j] + f.text[j..];
  }
}

module TextFields {
  import opened Wrappers
  import opened Utf
  import opened Editing

  datatype Outcome = Changed(inserted: Span) | Rejected(rejection: Rejection)

  /** Number of the scalar before the one at `offset`; of the one after it. */
  function PreviousBoundary(text: string, offset: nat): nat {
    var i := Index(Utf8, text, offset);
    Offset(Utf8, text, if i == 0 then 0 else i - 1)
  }

  function NextBoundary(text: string, offset: nat): nat {
    var i := Index(Utf8, text, offset);
    Offset(Utf8, text, if i < |text| then i + 1 else |text|)
  }

  lemma NeighboursAreOneScalarAway(text: string, offset: nat)
    ensures var i := Index(Utf8, text, offset);
            && Index(Utf8, text, PreviousBoundary(text, offset)) == (if i == 0 then 0 else i - 1)
            && Index(Utf8, text, NextBoundary(text, offset)) == (if i < |text| then i + 1 else |text|)
  {
    var i := Index(Utf8, text, offset);
    IndexOfOffset(Utf8, text, if i == 0 then 0 else i - 1);
    IndexOfOffset(Utf8, text, if i < |text| then i + 1 else |text|);
  }

  /** Order of boundaries and order of their scalar numbers agree. */
  lemma BoundaryOrder(text: string, a: nat, b: nat)
    requires IsBoundary(Utf8, text, a) && IsBoundary(Utf8, text, b)
    ensures a <= b <==> Index(Utf8, text, a) <= Index(Utf8, text, b)
    ensures a == b <==> Index(Utf8, text, a) == Index(Utf8, text, b)
    ensures a <= Width(Utf8, text)
  {
    Galois(Utf8, text, b, Index(Utf8, text, a));
    FloorWithinText(Utf8, text, a);
  }

  /** The scalars a byte range stands for: both ends floored, and an end below the start raised to it. */
  function Resolve(text: string, range: Span): (s: Span)
    ensures s.lo <= s.hi <= |text|
  {
    IndexMonotone(Utf8, text, range.lo, if range.lo <= range.hi then range.hi else range.lo);
    Span(Index(Utf8, text, range.lo), Index(Utf8, text, if range.lo <= range.hi then range.hi else range.lo))
  }

  /** A byte range floored and ordered, and what removing it leaves. */
  lemma ResolvedRange(text: string, lo: nat, hi: nat)
    ensures var i, j := Index(Utf8, text, lo), Index(Utf8, text, if lo <= hi then hi else lo);
            var from, to := Floor(Utf8, text, lo), Floor(Utf8, text, hi);
            && i <= j
            && from == Offset(Utf8, text, i) && Index(Utf8, text, from) == i
            && (if to < from then from else to) == Offset(Utf8, text, j)
            && Index(Utf8, text, Offset(Utf8, text, j)) == j
            && from <= Offset(Utf8, text, j) <= Width(Utf8, text)
            && Width(Utf8, text) - (Offset(Utf8, text, j) - from)
               == Width(Utf8, text[..i]) + Width(Utf8, text[j..])
  {
    var i, j := Index(Utf8, text, lo), Index(Utf8, text, if lo <= hi then hi else lo);
    if lo <= hi {
      IndexMonotone(Utf8, text, lo, hi);
    } else {
      IndexMonotone(Utf8, text, hi, lo);
    }
    IndexOfOffset(Utf8, text, i);
    IndexOfOffset(Utf8, text, j);
    assert text == text[..j] + text[j..];
    WidthConcat(Utf8, text[..j], text[j..]);
  }

  class TextField {
    var text: string
    var start: nat
    var end: nat
    var reversed: bool
    var marked: Option<Span>
    const maxBytes: nat

    /** Text and marked range are in order; the selection is checked apart. */
    ghost predicate Sound()
      reads this
    {
      && SingleLine(text)
      && Width(Utf8, text) <= maxBytes <= USIZE_MAX
      && IsBoundary(Utf8, text, start) && IsBoundary(Utf8, text, end)
      && (marked.Some? ==>
            && marked.value.lo <= marked.value.hi
            && IsBoundary(Utf8, text, marked.value.lo) && IsBoundary(Utf8, text, marked.value.hi))
    }

    ghost predicate Valid()
      reads this
    {
      Sound() && start <= end && (reversed ==> start < end)
    }

    /** The field as anchor and cursor, counted in scalars. */
    ghost function Model(): Field
      reads this
    {
      var lo, hi := Index(Utf8, text, start), Index(Utf8, text, end);
      Field(text, if reversed then hi else lo, if reversed then lo else hi,
            if marked.None? then None
            else Some(Span(Index(Utf8, text, marked.value.lo), Index(Utf8, text, marked.value.hi))))
    }

    lemma ModelIsWellFormed()
      requires Valid()
      ensures WellFormed(Model(), maxBytes)
      ensures Model().cursor == Index(Utf8, text, Cursor())
      ensures Low(Model()) == Index(Utf8, text, start) && High(Model()) == Index(Utf8, text, end)
    {
      BoundaryOrder(text, start, end);
      if marked.Some? {
        BoundaryOrder(text, marked.value.lo, marked.value.hi);
      }
    }

    constructor (maxBytes: nat)
      requires maxBytes <= USIZE_MAX
      ensures Valid() && this.maxBytes == maxBytes
      ensures Model() == Field("", 0, 0, None)
    {
      text, start, end, reversed, marked := "", 0, 0, false, None;
      this.maxBytes := maxBytes;
    }

    function Cursor(): nat
      reads this
    {
      if reversed then start else end
    }

    method MoveTo(offset: nat)
      requires Sound()
      modifies this`start, this`end, this`reversed
      ensures Valid() && Model() == Editing.MoveTo(old(Model()), Index(Utf8, text, offset))
    {
      var at := FloorBoundary(text, offset);
      FloorIsGreatest(Utf8, text, offset, 0);
      IndexOfOffset(Utf8, text, Index(Utf8, text, offset));
      start, end := at, at;
      reversed := false;
    }

    /** The far end stays, the near end moves; crossing it turns the selection round. */
    method SelectTo(offset: nat)
      requires Valid()
      modifies this`start, this`end, this`reversed
      ensures Valid() && Model() == Editing.SelectTo(old(Model()), Index(Utf8, text, offset))
    {
      var at := FloorBoundary(text, offset);
      FloorIsGreatest(Utf8, text, offset, 0);
      IndexOfOffset(Utf8, text, Index(Utf8, text, offset));
      if reversed {
        start := at;
      } else {
        end := at;
      }
      if end < start {
        reversed := !reversed;
        start, end := end, start;
      }
      if start == end {
        reversed := false;
      }
    }

    /** Splices accepted text in and puts the cursor after it. */
    method Splice(from: nat, to: nat, ins: string) returns (inserted: Span)
      requires Sound()
      requires IsBoundary(Utf8, text, from) && IsBoundary(Utf8, text, to)
      requires Index(Utf8, text, from) <= Index(Utf8, text, to)
      requires Fits(Model(), Index(Utf8, text, from), Index(Utf8, text, to), ins, maxBytes)
      modifies this
      ensures Valid() && IsBoundary(Utf8, text, inserted.hi)
      ensures Model() == Replaced(old(Model()), old(Index(Utf8, text, from)), old(Index(Utf8, text, to)), ins)
      ensures inserted == Span(from, from + Width(Utf8, ins))
    {
      hide Width, Index;
      var i, j := Index(Utf8, text, from), Index(Utf8, text, to);
      var placed := ToSingleLine(ins);
      SplicedText(Model(), i, j, ins);
      SingleLineKeepsBytes(ins);
      var next := text[..i] + placed + text[j..];
      assert next == Spliced(Model(), i, j, ins);
      IndexOfOffset(Utf8, next, i + |ins|);
      text, marked := next, None;
      inserted := Span(from, from + Width(Utf8, placed));
      start, end := inserted.hi, inserted.hi;
      MoveTo(inserted.hi);
    }

    /** Replaces a byte range, floored and ordered first; refused beyond the byte limit. */
    method Replace(lo: nat, hi: nat, ins: string) returns (r: Outcome)
      requires Sound()
      modifies this
      ensures var s := Resolve(old(text), Span(lo, hi));
              if Fits(old(Model()), s.lo, s.hi, ins, maxBytes)
              then Valid() && Model() == Replaced(old(Model()), s.lo, s.hi, ins)
                   && r == Changed(Span(Offset(Utf8, old(text), s.lo), Offset(Utf8, old(text), s.lo) + Width(Utf8, ins)))
              else unchanged(this) && r == Rejected(TooLong(maxBytes, Attempted(old(Model()), s.lo, s.hi, ins)))
    {
      hide Width, Index;
      ResolvedRange(text, lo, hi);
      var from := FloorBoundary(text, lo);
      var to := FloorBoundary(text, hi);
      to := if to < from then from else to;
      var retained := Width(Utf8, text) - (to - from);
      var attempted := retained + Width(Utf8, ins);
      if attempted > USIZE_MAX {
        return Rejected(TooLong(maxBytes, USIZE_MAX));
      }
      if attempted > maxBytes {
        return Rejected(TooLong(maxBytes, attempted));
      }
      var inserted := Splice(from, to, ins);
      r := Changed(inserted);
    }

    method ReplaceSelection(ins: string) returns (r: Outcome)
      requires Valid()
      modifies this
      ensures Valid()
      ensures Model() == Editing.Replace(old(Model()), Low(old(Model())), High(old(Model())), ins, maxBytes)
      ensures r.Changed? <==> Fits(old(Model()), Low(old(Model())), High(old(Model())), ins, maxBytes)
      ensures r.Rejected? ==> unchanged(this)
    {
      ModelIsWellFormed();
      r := Replace(start, end, ins);
    }

    method Backspace() returns (r: Outcome)
      requires Valid()
      modifies this
      ensures Valid() && r.Changed?
      ensures Model() == Apply(old(Model()), Edit.Backspace, maxBytes)
    {
      hide Width, Index;
      ModelIsWellFormed();
      if start == end {
        NeighboursAreOneScalarAway(text, Cursor());
        SelectTo(PreviousBoundary(text, Cursor()));
      }
      ModelIsWellFormed();
      RemovalFits(Model(), Low(Model()), High(Model()), maxBytes);
      r := ReplaceSelection("");
    }

    method Delete() returns (r: Outcome)
      requires Valid()
      modifies this
      ensures Valid() && r.Changed?
      ensures Model() == Apply(old(Model()), Edit.Delete, maxBytes)
    {
      hide Width, Index;
      ModelIsWellFormed();
      if start == end {
        NeighboursAreOneScalarAway(text, Cursor());
        SelectTo(NextBoundary(text, Cursor()));
      }
      ModelIsWellFormed();
      RemovalFits(Model(), Low(Model()), High(Model()), maxBytes);
      r := ReplaceSelection("");
    }

    /** An arrow key leaves a selection at its edge, or else steps one scalar. */
    method Left()
      requires Valid()
      modifies this`start, this`end, this`reversed
      ensures Valid()
      ensures var f := old(Model());
              Model() == Editing.MoveTo(f, if f.anchor == f.cursor then Before(f) else Low(f))
    {
      ModelIsWellFormed();
      NeighboursAreOneScalarAway(text, Cursor());
      BoundaryOrder(text, start, end);
      MoveTo(if start == end then PreviousBoundary(text, Cursor()) else start);
    }

    method Right()
      requires Valid()
      modifies this`start, this`end, this`reversed
      ensures Valid()
      ensures var f := old(Model());
              Model() == Editing.MoveTo(f, if f.anchor == f.cursor then After(f) else High(f))
    {
      ModelIsWellFormed();
      NeighboursAreOneScalarAway(text, Cursor());
      BoundaryOrder(text, start, end);
      MoveTo(if start == end then NextBoundary(text, Cursor()) else end);
    }

    method SelectLeft()
      requires Valid()
      modifies this`start, this`end, this`reversed
      ensures Valid() && Model() == Editing.SelectTo(old(Model()), Before(old(Model())))
    {
      ModelIsWellFormed();
      NeighboursAreOneScalarAway(text, Cursor());
      SelectTo(PreviousBoundary(text, Cursor()));
    }

    method SelectRight()
      requires Valid()
      modifies this`start, this`end, this`reversed
      ensures Valid() && Model() == Editing.SelectTo(old(Model()), After(old(Model())))
    {
      ModelIsWellFormed();
      NeighboursAreOneScalarAway(text, Cursor());
      SelectTo(NextBoundary(text, Cursor()));
    }

    method SelectAll()
      requires Valid()
      modifies this`start, this`end, this`reversed
      ensures Valid() && Model() == Apply(old(Model()), Edit.SelectAll, maxBytes)
    {
      ModelIsWellFormed();
      IndexOfOffset(Utf8, text, 0);
      IndexOfOffset(Utf8, text, |text|);
      assert text[..0] == [] && text[..|text|] == text;
      start, end := 0, Width(Utf8, text);
      reversed := false;
    }

    /** The range an input method names, or the marked range, or the selection. */
    function InputRange(utf16: Option<Span>): Span
      reads this
    {
      if utf16.Some? then Span(FromUtf16(text, utf16.value.lo), FromUtf16(text, utf16.value.hi))
      else if marked.Some? then marked.value
      else Span(start, end)
    }

    /** The scalars that composition text replaces: those asked for, or else the marked ones, or else the selected ones. */
    ghost function Replaceable(utf16: Option<Span>): (s: Span)
      requires Valid()
      reads this
      ensures s.lo <= s.hi <= |text|
    {
      ModelIsWellFormed();
      if utf16.Some? then
        var lo, hi := Index(Utf16, text, utf16.value.lo), Index(Utf16, text, utf16.value.hi);
        Span(lo, if lo <= hi then hi else lo)
      else if Model().marked.Some? then Model().marked.value
      else Span(Low(Model()), High(Model()))
    }

    lemma InputRangeIsReplaceable(utf16: Option<Span>)
      requires Valid()
      ensures Resolve(text, InputRange(utf16)) == Replaceable(utf16)
    {
      ModelIsWellFormed();
      if utf16.Some? {
        var i, j := Index(Utf16, text, utf16.value.lo), Index(Utf16, text, utf16.value.hi);
        IndexOfOffset(Utf8, text, i);
        IndexOfOffset(Utf8, text, j);
        OffsetsOrdered(text, i, j);
      } else if marked.Some? {
        BoundaryOrder(text, marked.value.lo, marked.value.hi);
      } else {
        BoundaryOrder(text, start, end);
      }
    }

    /**
      Composition text from an input method. The selection it asks for inside the new text is
      taken as it comes: afterwards the field is valid exactly when the edit was refused, no selection
      was asked for, or its end is not below the scalar its start falls in.
    */
    method ReplaceAndMark(utf16: Option<Span>, ins: string, selected: Option<Span>) returns (r: Outcome)
      requires Valid()
      modifies this
      ensures var s := old(Replaceable(utf16));
              if Fits(old(Model()), s.lo, s.hi, ins, maxBytes)
              then r.Changed? && Sound() && !reversed
                   && Model() == Composed(old(Model()), s.lo, s.hi, ins, ScalarSpan(ins, selected))
                   && (start <= end <==> selected.None? || SelectionInOrder(ins, selected.value))
              else r.Rejected? && unchanged(this)
    {
      InputRangeIsReplaceable(utf16);
      var range := InputRange(utf16);
      r := ComposeAt(range, ins, selected);
    }

    method ComposeAt(range: Span, ins: string, selected: Option<Span>) returns (r: Outcome)
      requires Valid()
      modifies this
      ensures var s := Resolve(old(text), range);
              if Fits(old(Model()), s.lo, s.hi, ins, maxBytes)
              then r.Changed? && Sound() && !reversed
                   && Model() == Composed(old(Model()), s.lo, s.hi, ins, ScalarSpan(ins, selected))
                   && (start <= end <==> selected.None? || SelectionInOrder(ins, selected.value))
              else r.Rejected? && unchanged(this)
    {
      hide Width, Index;
      ghost var f := Model();
      ghost var s := Resolve(text, range);
      r := Replace(range.lo, range.hi, ins);
      if r.Changed? {
        SplicedText(f, s.lo, s.hi, ins);
        assert Offset(Utf8, text, s.lo) == Offset(Utf8, f.text, s.lo);
        assert Offset(Utf8, text, s.lo + |ins|) == r.inserted.hi;
        MarkInserted(r.inserted, s.lo, ins, selected);
      }
    }

    /** Marks freshly inserted text and places the selection an input method asked for inside it. */
    method MarkInserted(inserted: Span, ghost i: nat, ins: string, selected: Option<Span>)
      requires Valid()
      requires i + |ins| <= |text| && text[i..i + |ins|] == ToSingleLine(ins)
      requires inserted == Span(Offset(Utf8, text, i), Offset(Utf8, text, i + |ins|))
      requires Model() == Field(text, i + |ins|, i + |ins|, None)
      modifies this`start, this`end, this`reversed, this`marked
      ensures Sound() && !reversed
      ensures start <= end <==> selected.None? || SelectionInOrder(ins, selected.value)
      ensures Model().marked == if ins == [] then None else Some(Span(i, i + |ins|))
      ensures Model().anchor == i + if selected.None? then |ins| else Index(Utf16, ins, selected.value.lo)
      ensures Model().cursor == i + if selected.None? then |ins| else Index(Utf16, ins, selected.value.hi)
    {
      hide Width, Index;
      IndexOfOffset(Utf8, text, i);
      IndexOfOffset(Utf8, text, i + |ins|);
      OffsetMonotone(Utf8, text, i, i + |ins|);
      BoundaryOrder(text, start, end);
      if inserted.lo < inserted.hi {
        marked := Some(inserted);
      }
      if selected.Some? {
        SelectInserted(inserted, i, ins, selected.value);
      }
    }

    method SelectInserted(inserted: Span, ghost i: nat, ins: string, selected: Span)
      requires Sound() && !reversed
      requires i + |ins| <= |text| && text[i..i + |ins|] == ToSingleLine(ins)
      requires inserted == Span(Offset(Utf8, text, i), Offset(Utf8, text, i + |ins|))
      modifies this`start, this`end
      ensures Sound()
      ensures start <= end <==> SelectionInOrder(ins, selected)
      ensures Model().anchor == i + Index(Utf16, ins, selected.lo)
      ensures Model().cursor == i + Index(Utf16, ins, selected.hi)
    {
      hide Width, Index;
      IndexOfOffset(Utf8, text, i);
      IndexOfOffset(Utf8, text, i + |ins|);
      var placed := text[Index(Utf8, text, inserted.lo)..Index(Utf8, text, inserted.hi)];
      var lo := OffsetFromUtf16(placed, selected.lo);
      var hi := OffsetFromUtf16(placed, selected.hi);
      InsertedOffsets(text, i, ins, selected.lo);
      InsertedOffsets(text, i, ins, selected.hi);
      var from, to := inserted.lo + lo, inserted.lo + hi;
      assert Index(Utf8, text, from) == i + Index(Utf16, ins, selected.lo);
      assert Index(Utf8, text, to) == i + Index(Utf16, ins, selected.hi);
      OrderOfRequestedSelection(ins, selected);
      BoundaryOrder(text, from, to);
      start, end := from, to;
    }
  }

  lemma OffsetsOrdered(text: string, i: nat, j: nat)
    requires i <= |text| && j <= |text|
    ensures i <= j <==> Offset(Utf8, text, i) <= Offset(Utf8, text, j)
  {
    if i <= j {
      OffsetMonotone(Utf8, text, i, j);
    } else {
      OffsetMonotone(Utf8, text, j, i);
    }
  }

  /** The requested end reaches at least the start of the scalar that the requested start falls in. */
  predicate SelectionInOrder(ins: string, selected: Span) {
    Floor(Utf16, ins, selected.lo) <= selected.hi
  }

  function ScalarSpan(ins: string, selected: Option<Span>): Option<Span> {
    if selected.None? then None
    else Some(Span(Index(Utf16, ins, selected.value.lo), Index(Utf16, ins, selected.value.hi)))
  }

  lemma OrderOfRequestedSelection(ins: string, selected: Span)
    ensures SelectionInOrder(ins, selected) <==> Index(Utf16, ins, selected.lo) <= Index(Utf16, ins, selected.hi)
    ensures selected.lo <= selected.hi ==> SelectionInOrder(ins, selected)
  {
    Galois(Utf16, ins, selected.hi, Index(Utf16, ins, selected.lo));
    Galois(Utf16, ins, selected.lo, Index(Utf16, ins, selected.lo));
  }

  /** Turning line breaks into spaces moves no scalar in either measure. */
  lemma {:induction false} SingleLineKeepsIndex(e: Encoding, s: string, o: nat)
    ensures Index(e, ToSingleLine(s), o) == Index(e, s, o)
  {
    if s != [] && Units(e, s[0]) <= o {
      assert ToSingleLine(s)[1..] == ToSingleLine(s[1..]);
      SingleLineKeepsIndex(e, s[1..], o - Units(e, s[0]));
    }
  }

  lemma InsertedOffsets(text: string, i: nat, ins: string, u: nat)
    requires i + |ins| <= |text| && text[i..i + |ins|] == ToSingleLine(ins)
    ensures var o := Offset(Utf8, text, i) + FromUtf16(ToSingleLine(ins), u);
            IsBoundary(Utf8, text, o) && Index(Utf8, text, o) == i + Index(Utf16, ins, u)
  {
    hide Width, Index;
    SingleLineKeepsIndex(Utf16, ins, u);
    var k := Index(Utf16, ins, u);
    assert text[..i + k] == text[..i] + ToSingleLine(ins)[..k];
    WidthConcat(Utf8, text[..i], ToSingleLine(ins)[..k]);
    IndexOfOffset(Utf8, text, i + k);
  }

  /** A request that runs backwards, from the second letter to the first, leaves the selection backwards. */
  method ReversedCompositionEndsOutOfOrder() returns (f: TextField)
    ensures fresh(f) && f.Sound() && !f.Valid() && f.end < f.start
  {
    f := new TextField(16);
    assert Width(Utf8, "b") == 1 && "ab"[1..] == "b" && Width(Utf8, "ab") == 2;
    assert Index(Utf16, "b", 1) == 1 && "ab"[..2] == "ab" && Width(Utf16, "ab") == 2;
    assert !SelectionInOrder("ab", Span(2, 1));
    var r := f.ReplaceAndMark(None, "ab", Some(Span(2, 1)));
  }
}
