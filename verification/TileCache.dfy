/**
  The cache of rendered page tiles: which tiles the view wants, which cached ones are obsolete, and the order in
  which tiles are given up when the cache is over its limits.
*/
module TileCaches {
  import opened Wrappers
  import opened MapSums

  /** A tile is a piece of a page drawn at one raster size. */
  datatype TileKey = TileKey(page: nat, raster: nat, column: nat, row: nat)

  datatype Tier = Visible | Prefetch

  datatype Demand = Demand(key: TileKey, tier: Tier)

  /** The pixels of a tile: of which document, under which appearance, and how many. */
  datatype Picture = Picture(generation: nat, appearance: nat, key: TileKey, width: nat, height: nat)

  datatype Tile = Tile(picture: Picture, byteLen: nat)

  datatype Limits = Limits(bytes: nat, tiles: nat)

  type Cache = map<TileKey, Tile>
  type Viewport = seq<Demand>

  // ---- What the view wants ----

  function VisibleKeys(v: Viewport): set<TileKey> { set d | d in v && d.tier.Visible? :: d.key }

  function VisibleOn(v: Viewport, page: nat): set<TileKey> { set k | k in VisibleKeys(v) && k.page == page }

  /** The raster size wanted for a page, as its first demand has it. */
  function RasterOf(v: Viewport, page: nat): Option<nat> {
    if v == [] then None
    else
      var n := |v| - 1;
      var r := RasterOf(v[..n], page);
      if r.Some? then r else if v[n].key.page == page then Some(v[n].key.raster) else None
  }

  /** A plan draws each page at one size. */
  ghost predicate OneRaster(v: Viewport) {
    forall d, e :: d in v && e in v && d.key.page == e.key.page ==> d.key.raster == e.key.raster
  }

  lemma {:induction false} RasterIsWanted(v: Viewport, d: Demand)
    requires OneRaster(v) && d in v
    ensures RasterOf(v, d.key.page) == Some(d.key.raster)
  {
    var n := |v| - 1;
    assert v == v[..n] + [v[n]];
    if d in v[..n] {
      RasterIsWanted(v[..n], d);
    } else if RasterOf(v[..n], d.key.page).Some? {
      var e := RasterComesFrom(v[..n], d.key.page);
      assert e in v;
    }
  }

  lemma {:induction false} RasterComesFrom(v: Viewport, page: nat) returns (e: Demand)
    requires RasterOf(v, page).Some?
    ensures e in v && e.key.page == page && RasterOf(v, page) == Some(e.key.raster)
  {
    var n := |v| - 1;
    if RasterOf(v[..n], page).Some? {
      e := RasterComesFrom(v[..n], page);
    } else {
      e := v[n];
    }
  }

  predicate WrongScale(v: Viewport, k: TileKey) {
    RasterOf(v, k.page).Some? && RasterOf(v, k.page).value != k.raster
  }

  /** A tile is of the wrong scale if its page is wanted at another size. */
  lemma WrongScaleMeans(v: Viewport, k: TileKey)
    requires OneRaster(v)
    ensures WrongScale(v, k) <==> exists d :: d in v && d.key.page == k.page && d.key.raster != k.raster
  {
    if RasterOf(v, k.page).Some? {
      var e := RasterComesFrom(v, k.page);
    }
    if d :| d in v && d.key.page == k.page && d.key.raster != k.raster {
      RasterIsWanted(v, d);
    }
  }

  /** A tile of an old scale is obsolete once every tile now visible of its page is there. */
  predicate Obsolete(cache: Cache, v: Viewport, k: TileKey) {
    WrongScale(v, k) && VisibleOn(v, k.page) != {} && VisibleOn(v, k.page) <= cache.Keys
  }

  lemma VisibleIsNotObsolete(cache: Cache, v: Viewport, k: TileKey)
    requires OneRaster(v) && k in VisibleKeys(v)
    ensures !WrongScale(v, k) && !Obsolete(cache, v, k)
  {
    var d :| d in v && d.tier.Visible? && d.key == k;
    RasterIsWanted(v, d);
  }

  // ---- What may be given up ----

  function Sizes(cache: Cache): map<TileKey, nat> { map k | k in cache :: cache[k].byteLen }

  ghost predicate Within(cache: Cache, limits: Limits) {
    |cache| <= limits.tiles && Sum(Sizes(cache)) <= limits.bytes
  }

  /** Tiles of the wrong scale go first, then the farthest. */
  predicate GoesBefore(v: Viewport, distance: TileKey -> nat, a: TileKey, b: TileKey) {
    if WrongScale(v, a) != WrongScale(v, b) then WrongScale(v, a) else distance(a) >= distance(b)
  }

  lemma GoesBeforeIsTotalOrder(v: Viewport, distance: TileKey -> nat, a: TileKey, b: TileKey, c: TileKey)
    ensures GoesBefore(v, distance, a, a)
    ensures GoesBefore(v, distance, a, b) || GoesBefore(v, distance, b, a)
    ensures GoesBefore(v, distance, a, b) && GoesBefore(v, distance, b, c) ==> GoesBefore(v, distance, a, c)
  {
  }

  /** `a` is of the wrong scale and `b` is not, or both are alike in that and `a` is at least as far away. */
  ghost predicate Expendable(v: Viewport, distance: TileKey -> nat, a: TileKey, b: TileKey) {
    (WrongScale(v, a) && !WrongScale(v, b)) || (WrongScale(v, a) == WrongScale(v, b) && distance(b) <= distance(a))
  }

  lemma ExpendableGoesBefore(v: Viewport, distance: TileKey -> nat, a: TileKey, b: TileKey)
    ensures GoesBefore(v, distance, a, b) <==> Expendable(v, distance, a, b)
  {
    hide WrongScale;
  }

  ghost predicate InOrder(v: Viewport, distance: TileKey -> nat, q: seq<TileKey>) {
    forall i, j :: 0 <= i < j < |q| ==> GoesBefore(v, distance, q[i], q[j])
  }

  function Members(q: seq<TileKey>): set<TileKey> { set k | k in q }

  ghost predicate Listing(q: seq<TileKey>, keys: set<TileKey>) {
    (forall i, j :: 0 <= i < j < |q| ==> q[i] != q[j]) && Members(q) == keys
  }

  /** What the cache may look like after eviction. */
  ghost predicate Evicted(before: Cache, after: Cache, v: Viewport, limits: Limits, distance: TileKey -> nat) {
    && after.Keys <= before.Keys && (forall k :: k in after ==> after[k] == before[k])
    // No visible tile is given up, and beyond the limits only visible tiles are kept.
    && (forall k :: k in before && k in VisibleKeys(v) ==> k in after)
    && (Within(after, limits) || after.Keys <= VisibleKeys(v))
    // Tiles go for being obsolete, or in order and only while over a limit.
    && (forall k :: k in before && Obsolete(before, v, k) ==> k !in after)
    && (forall k, l | k in before && k !in after && !Obsolete(before, v, k) && l in after && l !in VisibleKeys(v) ::
          Expendable(v, distance, k, l))
    && ((exists k :: k in before && k !in after && !Obsolete(before, v, k)) ==>
          exists last :: last in before && last !in after && !Obsolete(before, v, last)
                         && !Within(after[last := before[last]], limits))
  }

  // ---- Limits ----

  const MIB := 1024 * 1024
  const USIZE_MAX := 0xFFFF_FFFF_FFFF_FFFF

  datatype Activity = ForegroundInteractive | ForegroundVisible | ForegroundIdle | BackgroundWarm | BackgroundCold | Suspended

  function RetainedCacheLimit(base: nat, percent: nat): nat {
    var product := if base * percent <= USIZE_MAX then base * percent else USIZE_MAX;
    (product + 99) / 100
  }

  /** Trimming never raises a limit, and keeps the percentage rounded up as long as the product does not saturate. */
  lemma RetainedIsAShare(base: nat, percent: nat)
    requires percent <= 100
    ensures RetainedCacheLimit(base, percent) <= base
    ensures base * percent <= USIZE_MAX ==>
              100 * (RetainedCacheLimit(base, percent) - 1) < base * percent <= 100 * RetainedCacheLimit(base, percent)
  {
    assert base * percent <= base * 100;
  }

  function Clamp(n: nat, lo: nat, hi: nat): nat
    requires lo <= hi
  {
    if n < lo then lo else if n > hi then hi else n
  }

  function ActivityCap(activity: Activity): nat {
    match activity
    case ForegroundInteractive => 96 * MIB
    case ForegroundIdle => 48 * MIB
    case ForegroundVisible => 40 * MIB
    case BackgroundWarm => 32 * MIB
    case _ => 0
  }

  /** Each tile is charged twice, for its frame and for the copy in the atlas. */
  function ResourceCacheLimits(activity: Activity, gpuBytes: nat, cpuBytes: nat): (r: Limits)
    ensures activity.Suspended? || activity.BackgroundCold? ==> r == Limits(0, 0)
    ensures 2 * r.bytes <= gpuBytes && r.bytes <= ActivityCap(activity)
    ensures r.tiles == 0 <==> r.bytes == 0
    ensures r.tiles <= 128
  {
    if activity.Suspended? || activity.BackgroundCold? || (gpuBytes == 0 && cpuBytes == 0) then Limits(0, 0)
    else
      var bytes := if gpuBytes / 2 <= ActivityCap(activity) then gpuBytes / 2 else ActivityCap(activity);
      Limits(bytes, if bytes == 0 then 0 else Clamp(bytes / (4 * MIB), 2, 128))
  }

  /** An awake view gets as many bytes as half the graphics memory and the cap of its activity allow. */
  lemma BytesAreTheMost(activity: Activity, gpuBytes: nat, cpuBytes: nat, bytes: nat)
    requires !activity.Suspended? && !activity.BackgroundCold?
    ensures bytes <= ResourceCacheLimits(activity, gpuBytes, cpuBytes).bytes <==>
              2 * bytes <= gpuBytes && bytes <= ActivityCap(activity)
  {
  }

  /** The caps, in bytes. */
  lemma CapsAre()
    ensures ActivityCap(ForegroundInteractive) == 100_663_296 && ActivityCap(ForegroundIdle) == 50_331_648
    ensures ActivityCap(ForegroundVisible) == 41_943_040 && ActivityCap(BackgroundWarm) == 33_554_432
    ensures ActivityCap(BackgroundCold) == 0 && ActivityCap(Suspended) == 0
  {
  }

  /** One tile for every four mebibytes, but at least 2 and at most 128. */
  lemma TilesFollowBytes(activity: Activity, gpuBytes: nat, cpuBytes: nat)
    ensures var r := ResourceCacheLimits(activity, gpuBytes, cpuBytes);
            r.bytes > 0 ==>
              && 2 <= r.tiles <= 128
              && (r.tiles > 2 ==> r.tiles * 4_194_304 <= r.bytes)
              && (r.tiles < 128 ==> r.bytes < (r.tiles + 1) * 4_194_304)
  {
  }

  // ---- Sorting ----

  lemma Appended(q: seq<TileKey>, keys: set<TileKey>, v: Viewport, distance: TileKey -> nat, next: TileKey)
    requires Listing(q, keys) && InOrder(v, distance, q) && next !in keys
    requires forall k :: k in keys ==> GoesBefore(v, distance, k, next)
    ensures Listing(q + [next], keys + {next}) && InOrder(v, distance, q + [next])
  {
    hide GoesBefore;
    assert forall k :: k in q ==> k in Members(q);
    assert Members(q + [next]) == Members(q) + {next};
  }

  /** Lists the candidates in the order they go. */
  method SortCandidates(candidates: set<TileKey>, v: Viewport, distance: TileKey -> nat) returns (q: seq<TileKey>)
    ensures Listing(q, candidates) && InOrder(v, distance, q)
  {
    hide Listing, InOrder, GoesBefore;
    q := [];
    var rest := candidates;
    ghost var listed: set<TileKey> := {};
    NothingListed(v, distance);
    while rest != {}
      invariant Listing(q, listed) && InOrder(v, distance, q)
      invariant listed !! rest && listed + rest == candidates
      invariant forall k, l :: k in listed && l in rest ==> GoesBefore(v, distance, k, l)
      decreases |rest|
    {
      var next := First(rest, v, distance);
      Appended(q, listed, v, distance, next);
      q := q + [next];
      listed := listed + {next};
      rest := rest - {next};
    }
  }

  lemma NothingListed(v: Viewport, distance: TileKey -> nat)
    ensures Listing([], {}) && InOrder(v, distance, [])
  {
  }

  method First(keys: set<TileKey>, v: Viewport, distance: TileKey -> nat) returns (first: TileKey)
    requires keys != {}
    ensures first in keys && forall k :: k in keys ==> GoesBefore(v, distance, first, k)
  {
    hide GoesBefore;
    first :| first in keys;
    var rest := keys - {first};
    GoesBeforeIsTotalOrder(v, distance, first, first, first);
    while rest != {}
      invariant first in keys && rest <= keys
      invariant forall k :: k in keys && k !in rest ==> GoesBefore(v, distance, first, k)
      decreases |rest|
    {
      var k :| k in rest;
      rest := rest - {k};
      if !GoesBefore(v, distance, first, k) {
        forall l | l in keys && l !in rest ensures GoesBefore(v, distance, k, l) {
          GoesBeforeIsTotalOrder(v, distance, k, first, l);
          GoesBeforeIsTotalOrder(v, distance, k, k, k);
        }
        first := k;
      }
    }
  }

  // ---- Eviction ----

  function Removed(cache: Cache, q: seq<TileKey>): Cache { cache - Members(q) }

  lemma RemovedNext(cache: Cache, q: seq<TileKey>, i: nat)
    requires i < |q| && q[i] in cache && forall j, k :: 0 <= j < k < |q| ==> q[j] != q[k]
    ensures q[i] in Removed(cache, q[..i]) && Removed(cache, q[..i + 1]) == Removed(cache, q[..i]) - {q[i]}
    ensures Removed(cache, q[..i]) == Removed(cache, q[..i + 1])[q[i] := cache[q[i]]]
  {
    assert q[..i + 1] == q[..i] + [q[i]];
    assert Members(q[..i + 1]) == Members(q[..i]) + {q[i]};
  }

  lemma RemovedSize(cache: Cache, k: TileKey)
    requires k in cache
    ensures |cache - {k}| == |cache| - 1
    ensures Sizes(cache - {k}) == Sizes(cache) - {k} && cache[k].byteLen <= Sum(Sizes(cache))
    ensures Sum(Sizes(cache - {k})) == Sum(Sizes(cache)) - cache[k].byteLen
  {
    SumRemove(Sizes(cache), k);
    assert (cache - {k}).Keys == cache.Keys - {k};
  }

  /** Gives tiles up in order until the rest is within the limits or nothing may be given up any more. */
  method GiveUp(cache: Cache, q: seq<TileKey>, limits: Limits) returns (kept: Cache, n: nat)
    requires (forall k :: k in q ==> k in cache) && forall j, k :: 0 <= j < k < |q| ==> q[j] != q[k]
    ensures n <= |q| && kept == Removed(cache, q[..n])
    ensures Within(kept, limits) || n == |q|
    ensures n > 0 ==> !Within(Removed(cache, q[..n - 1]), limits)
  {
    hide *;
    kept := cache;
    n := 0;
    ghost var before := cache;
    var cachedBytes := SumValues(Sizes(cache));
    NothingRemoved(cache, q);
    while n < |q|
      invariant n <= |q| && kept == Removed(cache, q[..n]) && cachedBytes == Sum(Sizes(kept))
      invariant n > 0 ==> before == Removed(cache, q[..n - 1]) && !Within(before, limits)
    {
      IsWithin(kept, limits);
      if |kept| <= limits.tiles && cachedBytes <= limits.bytes {
        return;
      }
      before := kept;
      RemovedNext(cache, q, n);
      RemovedSize(kept, q[n]);
      var size := kept[q[n]].byteLen;
      cachedBytes := if size <= cachedBytes then cachedBytes - size else 0;
      kept := kept - {q[n]};
      n := n + 1;
    }
  }

  lemma IsWithin(cache: Cache, limits: Limits)
    ensures Within(cache, limits) <==> |cache| <= limits.tiles && Sum(Sizes(cache)) <= limits.bytes
  {
  }

  lemma NothingRemoved(cache: Cache, q: seq<TileKey>)
    ensures Removed(cache, q[..0]) == cache
  {
    assert Members(q[..0]) == {};
  }

  datatype Wanted = Wanted(raster: nat, visible: set<TileKey>)

  /** The raster and the visible tiles wanted on each page, gathered in one pass. */
  method DesiredByPage(v: Viewport) returns (desired: map<nat, Wanted>)
    ensures forall p :: p in desired <==> RasterOf(v, p).Some?
    ensures forall p :: p in desired ==> desired[p] == Wanted(RasterOf(v, p).value, VisibleOn(v, p))
  {
    desired := map[];
    for i := 0 to |v|
      invariant forall p :: p in desired <==> RasterOf(v[..i], p).Some?
      invariant forall p :: p in desired ==> desired[p] == Wanted(RasterOf(v[..i], p).value, VisibleOn(v[..i], p))
    {
      var page := v[i].key.page;
      var entry := if page in desired then desired[page] else Wanted(v[i].key.raster, {});
      if v[i].tier.Visible? {
        entry := entry.(visible := entry.visible + {v[i].key});
      }
      forall p
        ensures VisibleOn(v[..i + 1], p)
                == VisibleOn(v[..i], p) + (if p == page && v[i].tier.Visible? then {v[i].key} else {})
      {
        VisibleStep(v, i, p);
      }
      if RasterOf(v[..i], page).None? {
        NothingVisible(v[..i], page);
      }
      assert v[..i + 1][..i] == v[..i];
      desired := desired[page := entry];
    }
    assert v[..|v|] == v;
  }

  lemma VisibleStep(v: Viewport, i: nat, p: nat)
    requires i < |v|
    ensures VisibleOn(v[..i + 1], p)
            == VisibleOn(v[..i], p) + (if p == v[i].key.page && v[i].tier.Visible? then {v[i].key} else {})
  {
    assert v[..i + 1] == v[..i] + [v[i]];
    assert VisibleKeys(v[..i + 1]) == VisibleKeys(v[..i]) + (if v[i].tier.Visible? then {v[i].key} else {});
  }

  lemma {:induction false} NothingVisible(v: Viewport, page: nat)
    requires RasterOf(v, page).None?
    ensures VisibleOn(v, page) == {}
  {
    if v != [] {
      var n := |v| - 1;
      assert v[..n + 1] == v;
      VisibleStep(v, n, page);
      NothingVisible(v[..n], page);
    }
  }

  /** The obsolete tiles. */
  method ObsoleteTiles(cache: Cache, v: Viewport) returns (obsolete: set<TileKey>)
    ensures obsolete == set k | k in cache && Obsolete(cache, v, k)
  {
    var desired := DesiredByPage(v);
    var exactPages := set p | p in desired && desired[p].visible != {} && desired[p].visible <= cache.Keys;
    obsolete := set k | k in cache && k.page in exactPages && desired[k.page].raster != k.raster;
  }

  /** Drops obsolete tiles, then as many others as the limits demand, never a visible one. */
  method EvictDistantTiles(cache: Cache, v: Viewport, limits: Limits, distance: TileKey -> nat) returns (kept: Cache)
    requires OneRaster(v)
    ensures Evicted(cache, kept, v, limits, distance)
  {
    hide Obsolete, OneRaster, Within, InOrder, Listing, Removed, GoesBefore, Evicted;
    var obsolete := ObsoleteTiles(cache, v);
    var current := cache - obsolete;
    var protected := VisibleKeys(v);
    var candidates := current.Keys - protected;
    var q := SortCandidates(candidates, v, distance);
    ListingIsDistinct(q, candidates);
    var n;
    kept, n := GiveUp(current, q, limits);
    IsEvicted(cache, obsolete, q, n, v, limits, distance);
  }

  lemma ListingIsDistinct(q: seq<TileKey>, keys: set<TileKey>)
    requires Listing(q, keys)
    ensures forall j, k :: 0 <= j < k < |q| ==> q[j] != q[k]
    ensures forall k :: k in q <==> k in keys
  {
    assert forall k :: k in q <==> k in Members(q);
  }

  lemma IsEvicted(cache: Cache, obsolete: set<TileKey>, q: seq<TileKey>, n: nat, v: Viewport, limits: Limits,
                  distance: TileKey -> nat)
    requires OneRaster(v) && obsolete == (set k | k in cache && Obsolete(cache, v, k)) && n <= |q|
    requires Listing(q, (cache - obsolete).Keys - VisibleKeys(v)) && InOrder(v, distance, q)
    requires Within(Removed(cache - obsolete, q[..n]), limits) || n == |q|
    requires n > 0 ==> !Within(Removed(cache - obsolete, q[..n - 1]), limits)
    ensures Evicted(cache, Removed(cache - obsolete, q[..n]), v, limits, distance)
  {
    hide Obsolete, OneRaster, Within, GoesBefore, Expendable;
    var current, kept := cache - obsolete, Removed(cache - obsolete, q[..n]);
    ListingIsDistinct(q, current.Keys - VisibleKeys(v));
    forall k | k in cache && k in VisibleKeys(v) ensures k in kept {
      VisibleIsNotObsolete(cache, v, k);
    }
    assert n == |q| ==> q[..n] == q;
    forall k | k in kept && n == |q| ensures k in VisibleKeys(v) {
      assert k !in Members(q);
    }
    forall k, l | k in cache && k !in kept && k !in obsolete && l in kept && l !in VisibleKeys(v)
      ensures Expendable(v, distance, k, l)
    {
      ExpendableGoesBefore(v, distance, k, l);
      assert k in Members(q[..n]) && l !in Members(q[..n]);
      GivenUpFirst(q, n, v, distance, k, l);
    }
    if n > 0 {
      assert q[n - 1] in q && q[n - 1] in q[..n];
      RemovedNext(current, q, n - 1);
      assert q[n - 1] in Members(q[..n]);
    } else {
      assert Members(q[..n]) == {};
    }
  }

  lemma GivenUpFirst(q: seq<TileKey>, n: nat, v: Viewport, distance: TileKey -> nat, k: TileKey, l: TileKey)
    requires n <= |q| && InOrder(v, distance, q) && k in q[..n] && l in q && l !in q[..n]
    ensures GoesBefore(v, distance, k, l)
  {
    var i :| 0 <= i < n && q[i] == k;
    var j :| 0 <= j < |q| && q[j] == l;
    assert forall m :: 0 <= m < n ==> q[..n][m] == q[m] && q[m] in q[..n];
  }
}
