/** The flat document outline: depths repaired against a stack of ancestors, parents and ids assigned on the way. */
module Outlines {
  import opened Wrappers
  import opened Utf

  datatype Coordinate = NotFinite | Finite(value: real)

  datatype TocEntry = TocEntry(title: string, page: nat, depth: nat, y: Option<Coordinate>)

  datatype Limits = Limits(entries: nat, depth: nat, stringBytes: nat)

  datatype Entry = Entry(id: nat, parent: Option<nat>, depth: nat, title: string, page: nat, y: Option<real>)

  function Min(a: nat, b: nat): nat { if a < b then a else b }

  // ---- Titles and coordinates ----

  predicate IsSpace(c: char) {
    var v := c as int;
    || 0x9 <= v <= 0xD || v == 0x20 || v == 0x85 || v == 0xA0 || v == 0x1680 || 0x2000 <= v <= 0x200A
    || v == 0x2028 || v == 0x2029 || v == 0x202F || v == 0x205F || v == 0x3000
  }

  const WHITE_SPACE :=
    "\t\n\U{0B}\U{0C}\r \U{85}\U{A0}\U{1680}\U{2000}\U{2001}\U{2002}\U{2003}\U{2004}\U{2005}\U{2006}"
    + "\U{2007}\U{2008}\U{2009}\U{200A}\U{2028}\U{2029}\U{202F}\U{205F}\U{3000}"

  /** The 25 characters with the Unicode property White_Space. */
  lemma SpacesAre(c: char)
    ensures IsSpace(c) <==> c in WHITE_SPACE
  {
    var first := "\t\n\U{0B}\U{0C}\r \U{85}\U{A0}\U{1680}\U{2000}\U{2001}\U{2002}\U{2003}\U{2004}\U{2005}\U{2006}";
    var second := "\U{2007}\U{2008}\U{2009}\U{200A}\U{2028}\U{2029}\U{202F}\U{205F}\U{3000}";
    var v := c as int;
    assert c in first
      <==> 0x9 <= v <= 0xD || v == 0x20 || v == 0x85 || v == 0xA0 || v == 0x1680 || 0x2000 <= v <= 0x2006 by {
      if 0x9 <= v <= 0xD {
        assert first[v - 0x9] == c;
      } else if 0x2000 <= v <= 0x2006 {
        assert first[9 + v - 0x2000] == c;
      } else {
        assert first[5] as int == 0x20 && first[6] as int == 0x85 && first[7] as int == 0xA0 && first[8] as int == 0x1680;
      }
    }
    assert c in second
      <==> 0x2007 <= v <= 0x200A || v == 0x2028 || v == 0x2029 || v == 0x202F || v == 0x205F || v == 0x3000 by {
      if 0x2007 <= v <= 0x200A {
        assert second[v - 0x2007] == c;
      } else {
        assert second[4] as int == 0x2028 && second[5] as int == 0x2029 && second[6] as int == 0x202F;
        assert second[7] as int == 0x205F && second[8] as int == 0x3000;
      }
    }
  }

  function TrimStart(s: string): string {
    if s != [] && IsSpace(s[0]) then TrimStart(s[1..]) else s
  }

  function TrimEnd(s: string): string {
    if s != [] && IsSpace(s[|s| - 1]) then TrimEnd(s[..|s| - 1]) else s
  }

  /** The longest prefix of whole scalars within the byte limit. */
  function Bounded(s: string, bytes: nat): string { s[..Index(Utf8, s, bytes)] }

  function Title(e: TocEntry, limits: Limits): string { Bounded(TrimEnd(TrimStart(e.title)), limits.stringBytes) }

  function Fraction(y: Option<Coordinate>): Option<real> {
    match y
    case Some(Finite(v)) => Some(if v < 0.0 then 0.0 else if v > 1.0 then 1.0 else v)
    case _ => None
  }

  ghost predicate AllSpace(s: string) { forall i :: 0 <= i < |s| ==> IsSpace(s[i]) }

  /** `lo..hi` is the text without the space around it, and `t` as much of it as fits in whole scalars. */
  ghost predicate IsTitle(text: string, bytes: nat, t: string, lo: nat, hi: nat) {
    && lo <= hi <= |text| && AllSpace(text[..lo]) && AllSpace(text[hi..])
    && (lo < hi ==> !IsSpace(text[lo]) && !IsSpace(text[hi - 1]))
    && t <= text[lo..hi] && Width(Utf8, t) <= bytes
    && (|t| < hi - lo ==> Width(Utf8, text[lo..lo + |t| + 1]) > bytes)
  }

  lemma TitleMeans(e: TocEntry, limits: Limits) returns (lo: nat, hi: nat)
    ensures IsTitle(e.title, limits.stringBytes, Title(e, limits), lo, hi)
  {
    var text := e.title;
    lo := SpaceBefore(text);
    hi := SpaceAfter(text[lo..]);
    hi := lo + hi;
    var trimmed := TrimEnd(TrimStart(text));
    assert trimmed == text[lo..hi];
    assert text[lo..][hi - lo..] == text[hi..];
    if lo < hi {
      assert text[lo..][0] == text[lo] && text[lo..][hi - lo - 1] == text[hi - 1];
    }
    var k := Index(Utf8, trimmed, limits.stringBytes);
    Galois(Utf8, trimmed, limits.stringBytes, k);
    if k < |trimmed| {
      Galois(Utf8, trimmed, limits.stringBytes, k + 1);
      assert trimmed[..k + 1] == text[lo..lo + k + 1];
    }
  }

  lemma SpaceBefore(s: string) returns (lo: nat)
    ensures lo <= |s| && AllSpace(s[..lo]) && TrimStart(s) == s[lo..] && (lo < |s| ==> !IsSpace(s[lo]))
  {
    if s != [] && IsSpace(s[0]) {
      var rest := SpaceBefore(s[1..]);
      lo := rest + 1;
      assert s[..lo] == [s[0]] + s[1..][..rest] && s[lo..] == s[1..][rest..];
      assert lo < |s| ==> s[lo] == s[1..][rest];
    } else {
      lo := 0;
    }
  }

  lemma SpaceAfter(s: string) returns (hi: nat)
    ensures hi <= |s| && AllSpace(s[hi..]) && TrimEnd(s) == s[..hi] && (0 < hi ==> !IsSpace(s[hi - 1]))
    ensures s != [] && !IsSpace(s[0]) ==> 0 < hi
  {
    if s != [] && IsSpace(s[|s| - 1]) {
      var n := |s| - 1;
      hi := SpaceAfter(s[..n]);
      assert s[hi..] == s[..n][hi..] + [s[n]] && s[..hi] == s[..n][..hi];
    } else {
      hi := |s|;
      assert s[..hi] == s;
    }
  }

  ghost function Distance(a: real, b: real): real { if a < b then b - a else a - b }

  /** A finite coordinate becomes the fraction nearest to it; another is left out. */
  lemma FractionMeans(y: Option<Coordinate>)
    ensures Fraction(y).Some? <==> y.Some? && y.value.Finite?
    ensures Fraction(y).Some? ==>
              && 0.0 <= Fraction(y).value <= 1.0
              && forall f :: 0.0 <= f <= 1.0 ==>
                   Distance(y.value.value, Fraction(y).value) <= Distance(y.value.value, f)
  {
  }

  // ---- What is kept ----

  predicate Keeps(e: TocEntry, pages: nat, limits: Limits) {
    e.page < pages && Title(e, limits) != []
  }

  function Kept(toc: seq<TocEntry>, pages: nat, limits: Limits): seq<TocEntry> {
    if toc == [] then []
    else
      var n := |toc| - 1;
      Kept(toc[..n], pages, limits) + if Keeps(toc[n], pages, limits) then [toc[n]] else []
  }

  lemma KeptOneMore(toc: seq<TocEntry>, i: nat, pages: nat, limits: Limits)
    requires i < |toc|
    ensures Kept(toc[..i + 1], pages, limits)
         == if Keeps(toc[i], pages, limits) then Kept(toc[..i], pages, limits) + [toc[i]] else Kept(toc[..i], pages, limits)
  {
    assert toc[..i + 1][..i] == toc[..i];
  }

  lemma {:induction false} KeptLength(toc: seq<TocEntry>, pages: nat, limits: Limits)
    ensures |Kept(toc, pages, limits)| <= |toc|
    ensures |Kept(toc, pages, limits)| == |toc| <==> forall e :: e in toc ==> Keeps(e, pages, limits)
  {
    if toc != [] {
      var n := |toc| - 1;
      assert toc == toc[..n] + [toc[n]];
      KeptLength(toc[..n], pages, limits);
    }
  }

  // ---- The shape of the output ----

  /** Reads entries against a stack of ancestor ids; ids count up from `id`. */
  predicate Threaded(es: seq<Entry>, stack: seq<nat>, id: nat) {
    es != [] ==>
      && es[0].depth <= |stack|
      && es[0].id == id
      && es[0].parent == (if es[0].depth == 0 then None else Some(stack[es[0].depth - 1]))
      && Threaded(es[1..], stack[..es[0].depth] + [id], id + 1)
  }

  function StackAfter(es: seq<Entry>, stack: seq<nat>, id: nat): seq<nat>
    requires Threaded(es, stack, id)
  {
    if es == [] then stack else StackAfter(es[1..], stack[..es[0].depth] + [id], id + 1)
  }

  lemma {:induction false} ThreadedConcat(a: seq<Entry>, b: seq<Entry>, stack: seq<nat>, id: nat)
    requires Threaded(a, stack, id) && Threaded(b, StackAfter(a, stack, id), id + |a|)
    ensures Threaded(a + b, stack, id)
    ensures StackAfter(a + b, stack, id) == StackAfter(b, StackAfter(a, stack, id), id + |a|)
  {
    if a == [] {
      assert a + b == b;
    } else {
      assert (a + b)[1..] == a[1..] + b;
      ThreadedConcat(a[1..], b, stack[..a[0].depth] + [id], id + 1);
    }
  }

  /** Depth an entry ends up with: its own, capped by the limit and by one more than the entry before. */
  function DepthAfter(previous: seq<Entry>, e: TocEntry, limits: Limits): nat {
    Min(Min(e.depth, limits.depth), if previous == [] then 0 else previous[|previous| - 1].depth + 1)
  }

  /** The output entries are the kept input entries, in order, with their depths capped. */
  predicate Carries(es: seq<Entry>, kept: seq<TocEntry>, limits: Limits) {
    && |es| == |kept|
    && forall k :: 0 <= k < |es| ==>
         && es[k].depth == DepthAfter(es[..k], kept[k], limits)
         && es[k].title == Title(kept[k], limits)
         && es[k].page == kept[k].page && es[k].y == Fraction(kept[k].y)
  }

  method Build(toc: seq<TocEntry>, pages: nat, limits: Limits) returns (es: seq<Entry>, truncated: bool)
    ensures Threaded(es, [], 1)
    ensures Carries(es, Kept(toc[..Min(|toc|, limits.entries)], pages, limits), limits)
    ensures truncated <==> |es| < |toc|
  {
    hide Built, Threaded, StackAfter, Carries, Title, Kept, Fraction;
    truncated := |toc| > limits.entries;
    es := [];
    NothingThreaded(pages, limits);
    var ancestors: seq<nat> := [];
    var taken := toc[..Min(|toc|, limits.entries)];
    for i := 0 to |taken|
      invariant Built(es, ancestors, Kept(taken[..i], pages, limits), limits)
      invariant truncated <==> |toc| > limits.entries || |es| < i
      invariant |es| <= i
    {
      var entry := taken[i];
      var title := Title(entry, limits);
      KeptOneMore(taken, i, pages, limits);
      if entry.page >= pages || title == [] {
        truncated := true;
        continue;
      }
      var depth := Min(Min(entry.depth, limits.depth), |ancestors|);
      ghost var stack := ancestors;
      ancestors := ancestors[..depth];
      var parent := if depth == 0 then None else Some(ancestors[depth - 1]);
      var id := |es| + 1;
      var next := Entry(id, parent, depth, title, entry.page, Fraction(entry.y));
      BuiltOneMore(es, stack, Kept(taken[..i], pages, limits), next, entry, limits);
      es := es + [next];
      ancestors := ancestors + [id];
    }
    assert taken[..|taken|] == taken;
    BuiltIs(es, ancestors, Kept(taken, pages, limits), limits);
  }

  /** The entries so far carry what was kept so far, and the stack holds the ancestors of the next one. */
  ghost predicate Built(es: seq<Entry>, ancestors: seq<nat>, kept: seq<TocEntry>, limits: Limits) {
    && Threaded(es, [], 1) && ancestors == StackAfter(es, [], 1)
    && |ancestors| == (if es == [] then 0 else es[|es| - 1].depth + 1)
    && Carries(es, kept, limits)
  }

  lemma BuiltIs(es: seq<Entry>, ancestors: seq<nat>, kept: seq<TocEntry>, limits: Limits)
    requires Built(es, ancestors, kept, limits)
    ensures Threaded(es, [], 1) && Carries(es, kept, limits)
  {
  }

  lemma BuiltOneMore(es: seq<Entry>, ancestors: seq<nat>, kept: seq<TocEntry>, next: Entry, e: TocEntry, limits: Limits)
    requires Built(es, ancestors, kept, limits)
    requires next.id == |es| + 1 && next.depth == Min(Min(e.depth, limits.depth), |ancestors|)
    requires next.parent == if next.depth == 0 then None else Some(ancestors[..next.depth][next.depth - 1])
    requires next.title == Title(e, limits) && next.page == e.page && next.y == Fraction(e.y)
    ensures Built(es + [next], ancestors[..next.depth] + [next.id], kept + [e], limits)
  {
    hide Threaded, StackAfter, Carries, Title, Fraction;
    ThreadedOneMore(es, next);
    CarriesOneMore(es, next, kept, e, limits);
  }

  lemma NothingThreaded(pages: nat, limits: Limits)
    ensures Built([], [], [], limits) && Kept([], pages, limits) == []
  {
  }

  lemma ThreadedOneMore(es: seq<Entry>, next: Entry)
    requires Threaded(es, [], 1) && next.id == |es| + 1 && next.depth <= |StackAfter(es, [], 1)|
    requires next.parent == ParentAt(StackAfter(es, [], 1), next.depth)
    ensures Threaded(es + [next], [], 1)
    ensures StackAfter(es + [next], [], 1) == StackAfter(es, [], 1)[..next.depth] + [next.id]
  {
    var stack := StackAfter(es, [], 1);
    assert Threaded([next], stack, next.id);
    assert StackAfter([next], stack, next.id) == stack[..next.depth] + [next.id];
    ThreadedConcat(es, [next], [], 1);
  }

  lemma CarriesOneMore(es: seq<Entry>, next: Entry, kept: seq<TocEntry>, e: TocEntry, limits: Limits)
    requires Carries(es, kept, limits) && next.depth == DepthAfter(es, e, limits)
    requires next.title == Title(e, limits) && next.page == e.page && next.y == Fraction(e.y)
    ensures Carries(es + [next], kept + [e], limits)
  {
    forall k | 0 <= k < |es + [next]|
      ensures (es + [next])[k].depth == DepthAfter((es + [next])[..k], (kept + [e])[k], limits)
    {
      if k < |es| {
        assert (es + [next])[..k] == es[..k];
      } else {
        assert (es + [next])[..k] == es;
      }
    }
  }

  /** Every output depth is within the limit. */
  lemma DepthIsBounded(es: seq<Entry>, kept: seq<TocEntry>, limits: Limits, k: nat)
    requires Carries(es, kept, limits) && k < |es|
    ensures es[k].depth <= limits.depth && es[k].depth <= kept[k].depth
    ensures es[k].depth <= k
    decreases k
  {
    if k > 0 {
      DepthIsBounded(es, kept, limits, k - 1);
    }
  }

  /** An outline that is already well nested and within the limit keeps its depths. */
  lemma {:induction false} NestedKeepsDepths(es: seq<Entry>, kept: seq<TocEntry>, limits: Limits, k: nat)
    requires Carries(es, kept, limits) && k < |es|
    requires forall i :: 0 <= i < |kept| ==> kept[i].depth <= limits.depth
    requires kept[0].depth == 0 && forall i :: 0 < i < |kept| ==> kept[i].depth <= kept[i - 1].depth + 1
    ensures es[k].depth == kept[k].depth
  {
    if k > 0 {
      NestedKeepsDepths(es, kept, limits, k - 1);
    }
  }

  /** Every stacked id is a given entry's, one per depth, with nothing as shallow after it. */
  ghost predicate StackNames(es: seq<Entry>, stack: seq<nat>) {
    forall t :: 0 <= t < |stack| ==>
      && 1 <= stack[t] <= |es|
      && es[stack[t] - 1].depth == t
      && forall m :: stack[t] <= m < |es| ==> es[m].depth > t
  }

  /** Parent of entry `k`: the nearest earlier entry one level up, with nothing shallower or equal between. */
  ghost predicate NearestAbove(es: seq<Entry>, k: nat)
    requires k < |es|
  {
    match es[k].parent
    case None => es[k].depth == 0
    case Some(p) =>
      && 1 <= p <= k
      && es[p - 1].depth + 1 == es[k].depth
      && forall m :: p <= m < k ==> es[m].depth >= es[k].depth
  }

  /** The whole list in one: ids count from one and each parent is the nearest entry above. */
  lemma {:induction false} ThreadedIsPreorder(before: seq<Entry>, es: seq<Entry>, stack: seq<nat>)
    requires Threaded(es, stack, |before| + 1) && StackNames(before, stack)
    ensures forall k :: |before| <= k < |before + es| ==> (before + es)[k].id == k + 1 && NearestAbove(before + es, k)
    decreases |es|
  {
    if es != [] {
      var e := es[0];
      var next := stack[..e.depth] + [e.id];
      assert StackNames(before + [e], next);
      ThreadedIsPreorder(before + [e], es[1..], next);
      assert (before + [e]) + es[1..] == before + es;
      FirstIsNearest(before, es, stack);
    }
  }

  lemma FirstIsNearest(before: seq<Entry>, es: seq<Entry>, stack: seq<nat>)
    requires es != [] && Threaded(es, stack, |before| + 1) && StackNames(before, stack)
    ensures NearestAbove(before + es, |before|)
  {
    var e, all := es[0], before + es;
    assert all[|before|] == e;
    if e.depth > 0 {
      var p := stack[e.depth - 1];
      assert all[p - 1] == before[p - 1];
      forall m | p <= m < |before| ensures all[m].depth >= e.depth {
        assert all[m] == before[m];
      }
    }
  }

  lemma OutputIsPreorder(es: seq<Entry>)
    requires Threaded(es, [], 1)
    ensures forall k :: 0 <= k < |es| ==> es[k].id == k + 1 && NearestAbove(es, k)
  {
    ThreadedIsPreorder([], es, []);
    assert [] + es == es;
  }

  // ---- The forest ----

  datatype Node = Node(title: string, page: nat, y: Option<real>, children: seq<Node>)

  function Size(f: seq<Node>): nat {
    if f == [] then 0 else 1 + Size(f[0].children) + Size(f[1..])
  }

  /** Preorder listing of a forest; depth, parent and id follow from position alone. */
  function Flatten(f: seq<Node>, depth: nat, parent: Option<nat>, id: nat): (es: seq<Entry>)
    ensures |es| == Size(f)
  {
    if f == [] then []
    else
      var n := f[0];
      [Entry(id, parent, depth, n.title, n.page, n.y)]
      + Flatten(n.children, depth + 1, Some(id), id + 1)
      + Flatten(f[1..], depth, parent, id + 1 + Size(n.children))
  }

  datatype Parsed = Parsed(forest: seq<Node>, rest: seq<Entry>)

  /** Rebuilds the trees at one depth, reading depths only. */
  function Rebuild(es: seq<Entry>, depth: nat): (p: Parsed)
    ensures |p.rest| <= |es|
    decreases |es|
  {
    if es == [] || es[0].depth < depth then Parsed([], es)
    else
      var inner := Rebuild(es[1..], depth + 1);
      var outer := Rebuild(inner.rest, depth);
      Parsed([Node(es[0].title, es[0].page, es[0].y, inner.forest)] + outer.forest, outer.rest)
  }

  function ParentAt(stack: seq<nat>, depth: nat): Option<nat>
    requires depth <= |stack|
  {
    if depth == 0 then None else Some(stack[depth - 1])
  }

  /** The trees at one depth list as the entries read, and the entries left over thread on from `left`. */
  predicate Rebuilt(es: seq<Entry>, depth: nat, stack: seq<nat>, id: nat, left: seq<nat>)
    requires depth <= |stack|
  {
    var p := Rebuild(es, depth);
    && es == Flatten(p.forest, depth, ParentAt(stack, depth), id) + p.rest
    && (p.rest != [] ==> p.rest[0].depth < depth)
    && depth <= |left| && left[..depth] == stack[..depth]
    && Threaded(p.rest, left, id + Size(p.forest))
  }

  lemma {:induction false} RebuildInverts(es: seq<Entry>, depth: nat, stack: seq<nat>, id: nat) returns (left: seq<nat>)
    requires Threaded(es, stack, id) && depth <= |stack| && (es != [] ==> es[0].depth <= depth)
    ensures Rebuilt(es, depth, stack, id, left)
    decreases |es|, 1
  {
    if es == [] || es[0].depth < depth {
      left := stack;
    } else {
      left := RebuildFirst(es, depth, stack, id);
    }
  }

  lemma {:induction false} RebuildFirst(es: seq<Entry>, depth: nat, stack: seq<nat>, id: nat) returns (left: seq<nat>)
    requires Threaded(es, stack, id) && depth <= |stack| && es != [] && es[0].depth == depth
    ensures Rebuilt(es, depth, stack, id, left)
    decreases |es|, 0
  {
    hide Threaded, Rebuild, Flatten, Size, ParentAt;
    var inner := Rebuild(es[1..], depth + 1);
    FirstEntry(es, depth, stack, id);
    var middle := RebuildInverts(es[1..], depth + 1, stack[..depth] + [id], id + 1);
    SharedPrefix(stack, middle, depth, id);
    left := RebuildInverts(inner.rest, depth, middle, id + 1 + Size(inner.forest));
    JoinRebuilt(es, depth, stack, middle, left, id);
  }

  lemma JoinRebuilt(es: seq<Entry>, depth: nat, stack: seq<nat>, middle: seq<nat>, left: seq<nat>, id: nat)
    requires Threaded(es, stack, id) && depth <= |stack| && es != [] && es[0].depth == depth && depth < |middle|
    requires middle[..depth] == stack[..depth] && ParentAt(middle, depth) == ParentAt(stack, depth)
    requires Rebuilt(es[1..], depth + 1, stack[..depth] + [id], id + 1, middle)
    requires var inner := Rebuild(es[1..], depth + 1);
             Rebuilt(inner.rest, depth, middle, id + 1 + Size(inner.forest), left)
    ensures Rebuilt(es, depth, stack, id, left)
  {
    hide Threaded, Rebuild, Flatten, Size, ParentAt;
    var inner := Rebuild(es[1..], depth + 1);
    var outer := Rebuild(inner.rest, depth);
    FirstEntry(es, depth, stack, id);
    BelowNames(stack, depth, id);
    FlattenOne(es[0], inner.forest, outer.forest, depth, ParentAt(stack, depth), id);
    Regroup(es, Flatten(inner.forest, depth + 1, Some(id), id + 1),
            Flatten(outer.forest, depth, ParentAt(stack, depth), id + 1 + Size(inner.forest)), outer.rest);
  }

  lemma BelowNames(stack: seq<nat>, depth: nat, id: nat)
    requires depth <= |stack|
    ensures ParentAt(stack[..depth] + [id], depth + 1) == Some(id)
  {
  }

  lemma SharedPrefix(stack: seq<nat>, middle: seq<nat>, depth: nat, id: nat)
    requires depth <= |stack| && depth < |middle|
    requires middle[..depth + 1] == (stack[..depth] + [id])[..depth + 1]
    ensures middle[..depth] == stack[..depth] && ParentAt(middle, depth) == ParentAt(stack, depth)
  {
    assert middle[..depth] == middle[..depth + 1][..depth];
    if depth > 0 {
      assert middle[depth - 1] == middle[..depth][depth - 1] == stack[..depth][depth - 1];
    }
  }

  lemma Regroup(es: seq<Entry>, kids: seq<Entry>, siblings: seq<Entry>, rest: seq<Entry>)
    requires es != [] && es[1..] == kids + (siblings + rest)
    ensures es == [es[0]] + kids + siblings + rest
  {
    assert es == [es[0]] + es[1..];
  }

  lemma FirstEntry(es: seq<Entry>, depth: nat, stack: seq<nat>, id: nat)
    requires Threaded(es, stack, id) && depth <= |stack| && es != [] && es[0].depth == depth
    ensures var e, inner := es[0], Rebuild(es[1..], depth + 1);
            && e == Entry(id, ParentAt(stack, depth), depth, e.title, e.page, e.y)
            && Threaded(es[1..], stack[..depth] + [id], id + 1)
            && (|es| > 1 ==> es[1].depth <= depth + 1)
            && |inner.rest| < |es|
            && Rebuild(es, depth) == Parsed([Node(e.title, e.page, e.y, inner.forest)] + Rebuild(inner.rest, depth).forest,
                                            Rebuild(inner.rest, depth).rest)
  {
  }

  lemma FlattenOne(e: Entry, kids: seq<Node>, siblings: seq<Node>, depth: nat, parent: Option<nat>, id: nat)
    ensures var f := [Node(e.title, e.page, e.y, kids)] + siblings;
            && Size(f) == 1 + Size(kids) + Size(siblings)
            && Flatten(f, depth, parent, id) ==
               [Entry(id, parent, depth, e.title, e.page, e.y)] + Flatten(kids, depth + 1, Some(id), id + 1)
               + Flatten(siblings, depth, parent, id + 1 + Size(kids))
  {
    var f := [Node(e.title, e.page, e.y, kids)] + siblings;
    assert f[1..] == siblings;
  }

  /** Reading the list as a forest and listing the forest again changes nothing. */
  lemma RebuildThenFlatten(es: seq<Entry>)
    requires Threaded(es, [], 1)
    ensures Rebuild(es, 0).rest == []
    ensures Flatten(Rebuild(es, 0).forest, 0, None, 1) == es
  {
    var left := RebuildInverts(es, 0, [], 1);
    assert Flatten(Rebuild(es, 0).forest, 0, None, 1) + [] == Flatten(Rebuild(es, 0).forest, 0, None, 1);
  }
}
