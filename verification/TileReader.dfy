/**
  How a reader asks the render worker for tiles and what it does with the answers. The worker is an environment: a
  new request replaces its queue, and anything it was doing may still answer late or never.
*/
module TileReaders {
  import opened Wrappers
  import opened MapSums
  import opened TileCaches

  datatype Job = Job(generation: nat, appearance: nat, key: TileKey)

  datatype Status = Empty | Loading | Ready | Error

  /** A drawn frame: its size, the size asked for, and the number of bytes delivered. */
  datatype Frame = Frame(width: nat, height: nat, wantedWidth: nat, wantedHeight: nat, bytes: nat)

  /** The moment of a step: the time, the tiles the layout plans if there is one, and how far tiles are away. */
  datatype Moment = Moment(now: nat, plan: Option<Viewport>, textChanged: bool, distance: TileKey -> nat)

  const ZOOM_RENDER_DEBOUNCE := 150
  const U32_MAX := 0xFFFF_FFFF

  /** The plan draws each page at one size. */
  ghost predicate PlansOneRaster(m: Moment) { m.plan.Some? ==> OneRaster(m.plan.value) }

  function ExpectedBytes(frame: Frame): Option<nat> {
    if frame.width * frame.height <= U32_MAX && frame.width * frame.height * 4 <= U32_MAX
    then Some(frame.width * frame.height * 4) else None
  }

  predicate Sized(frame: Frame) {
    ExpectedBytes(frame) == Some(frame.bytes) && frame.width == frame.wantedWidth && frame.height == frame.wantedHeight
  }

  datatype Allocation = Allocation(activity: Activity, gpuBytes: nat, cpuBytes: nat, workerSlots: nat)

  function LimitsOf(a: Allocation): Limits { ResourceCacheLimits(a.activity, a.gpuBytes, a.cpuBytes) }

  predicate Dormant(activity: Activity) { activity.Suspended? || activity.BackgroundCold? }

  function Planned(plan: Viewport, prefetch: bool): Viewport {
    if plan == [] then []
    else Planned(plan[..|plan| - 1], prefetch)
         + (if prefetch || plan[|plan| - 1].tier.Visible? then [plan[|plan| - 1]] else [])
  }

  lemma {:induction false} PlannedKeepsVisible(plan: Viewport, prefetch: bool)
    ensures forall d :: d in Planned(plan, prefetch) <==> d in plan && (prefetch || d.tier.Visible?)
    ensures VisibleKeys(Planned(plan, prefetch)) == VisibleKeys(plan)
  {
    if plan != [] {
      var n := |plan| - 1;
      PlannedKeepsVisible(plan[..n], prefetch);
      assert plan == plan[..n] + [plan[n]];
    }
  }

  /** The tiles of a viewport that are not cached. */
  function Missing(v: Viewport, cache: Cache): set<TileKey> { set d | d in v && d.key !in cache :: d.key }

  /** A tile is charged four bytes for each of its pixels. */
  ghost function TileOf(job: Job, frame: Frame): Tile {
    Tile(Picture(job.generation, job.appearance, job.key, frame.width, frame.height), 4 * (frame.width * frame.height))
  }

  class Worker {
    var queue: set<Job>
    /** Jobs that were superseded and may still answer. */
    var late: set<Job>
    /** Requests reach the worker. */
    var reachable: bool

    constructor ()
      ensures queue == {} && late == {}
    {
      queue, late, reachable := {}, {}, true;
    }

    method Reach(reachable: bool)
      modifies this`reachable
      ensures this.reachable == reachable
    {
      this.reachable := reachable;
    }

    method RenderViewport(generation: nat, appearance: nat, keys: set<TileKey>) returns (sent: bool)
      modifies this`queue, this`late
      ensures sent == reachable && late == old(late) + old(queue)
      ensures queue == if sent then set k | k in keys :: Job(generation, appearance, k) else {}
    {
      late := late + queue;
      queue := {};
      sent := reachable;
      if sent {
        queue := set k | k in keys :: Job(generation, appearance, k);
      }
    }

    /** The worker closes its document and drops its queue. */
    method Hibernate() returns (sent: bool)
      modifies this`queue, this`late
      ensures sent == reachable && late == old(late) + (if sent then old(queue) else {})
      ensures queue == if sent then {} else old(queue)
    {
      sent := reachable;
      if sent {
        late := late + queue;
        queue := {};
      }
    }

    /** An answer leaves the worker. */
    method Answer(job: Job, superseded: bool)
      requires job in (if superseded then late else queue)
      modifies this`queue, this`late
      ensures queue == (if superseded then old(queue) else old(queue) - {job})
      ensures late == (if superseded then old(late) - {job} else old(late))
    {
      if superseded {
        late := late - {job};
      } else {
        queue := queue - {job};
      }
    }
  }

  /** Every cached tile shows the document that is open, under the appearance in force, and is charged for its pixels. */
  ghost predicate Current(cache: Cache, generation: nat, appearance: nat) {
    forall k :: k in cache ==>
      && cache[k].picture.generation == generation && cache[k].picture.appearance == appearance
      && cache[k].picture.key == k && cache[k].byteLen == 4 * (cache[k].picture.width * cache[k].picture.height)
  }

  /** A sound frame: whole, of the size asked for, and within the addressable length. */
  ghost predicate Sound(frame: Frame) {
    && frame.width == frame.wantedWidth && frame.height == frame.wantedHeight
    && 4 * (frame.width * frame.height) == frame.bytes <= U32_MAX
  }

  lemma SizedIsSound(frame: Frame)
    ensures Sized(frame) <==> Sound(frame)
  {
  }

  /** Every visible tile is cached, awaited or reported failed. */
  ghost predicate NoneLost(v: Viewport, cache: Cache, pending: set<TileKey>, failed: set<TileKey>) {
    VisibleKeys(v) <= cache.Keys + pending + failed
  }

  /** What is awaited is still in the worker's queue, for this document and appearance. */
  ghost predicate Outstanding(pending: set<TileKey>, queue: set<Job>, generation: nat, appearance: nat) {
    forall k :: k in pending ==> Job(generation, appearance, k) in queue
  }

  class TileReader {
    const worker: Worker
    var status: Status
    var generation: nat
    var appearance: nat
    var rendered: Cache
    var pending: set<TileKey>
    var renderViewport: Viewport
    var debounceUntil: Option<nat>
    var zoomRevision: nat
    var allocation: Allocation
    var limits: Limits
    var allowPrefetch: bool
    var hibernated: bool
    var retentionPercent: nat
    var idleTrimmed: bool
    /** Tiles of the present request that were reported failed. */
    ghost var failed: set<TileKey>

    ghost predicate Valid()
      reads this, worker
    {
      && Current(rendered, generation, appearance)
      && (status.Ready? ==> NoneLost(renderViewport, rendered, pending, failed))
      && Outstanding(pending, worker.queue, generation, appearance)
      && OneRaster(renderViewport) && retentionPercent <= 100
      && limits == LimitsOf(allocation)
      && (Dormant(allocation.activity) ==> pending == {} && renderViewport == [] && rendered == map[])
    }

    constructor (retentionPercent: nat, allocation: Allocation)
      requires retentionPercent <= 100
      ensures Valid() && fresh(worker) && status.Empty? && rendered == map[] && pending == {} && renderViewport == []
      ensures allowPrefetch && !hibernated && !idleTrimmed && debounceUntil.None? && failed == {}
    {
      worker := new Worker();
      status, generation, appearance, rendered, pending, renderViewport := Empty, 0, 0, map[], {}, [];
      debounceUntil, zoomRevision, limits := None, 0, LimitsOf(allocation);
      this.allocation := allocation;
      allowPrefetch, hibernated, idleTrimmed := true, false, false;
      this.retentionPercent := retentionPercent;
      failed := {};
    }

    /** When the worker has nothing left to do, every visible tile is there or has failed. */
    lemma QuietMeansSettled()
      requires Valid() && status.Ready? && worker.queue == {}
      ensures pending == {} && VisibleKeys(renderViewport) <= rendered.Keys + failed
    {
      assert forall k :: k in pending ==> Job(generation, appearance, k) in worker.queue;
    }

    method MarkCacheActive()
      modifies this`idleTrimmed
      ensures idleTrimmed == (old(idleTrimmed) && retentionPercent >= 100)
    {
      if retentionPercent < 100 {
        idleTrimmed := false;
      }
    }

    function EffectiveLimits(): Limits
      reads this
    {
      if !idleTrimmed then limits
      else Limits(RetainedCacheLimit(limits.bytes, retentionPercent), RetainedCacheLimit(limits.tiles, retentionPercent))
    }

    /** The limits once the cache has been used again. */
    ghost function ActiveLimits(): Limits
      reads this
    {
      if idleTrimmed && retentionPercent >= 100
      then Limits(RetainedCacheLimit(limits.bytes, retentionPercent), RetainedCacheLimit(limits.tiles, retentionPercent))
      else limits
    }

    /** Whether demand may be sent now. */
    predicate Asks(now: nat)
      reads this
    {
      status.Ready? && !hibernated && !Dormant(allocation.activity) && !(debounceUntil.Some? && now < debounceUntil.value)
    }

    /** A demand is sent now: the planned tiles are others than those last asked for, or text is. */
    ghost predicate Demands(m: Moment)
      reads this
    {
      && Asks(m.now) && m.plan.Some?
      && (multiset(Planned(m.plan.value, allowPrefetch)) != multiset(renderViewport) || m.textChanged)
    }

    /** Sends the demand of the planned viewport if it differs from the one last sent. */
    method RequestVisibleTiles(m: Moment)
      requires Valid() && PlansOneRaster(m)
      modifies this`status, this`pending, this`renderViewport, this`debounceUntil, this`idleTrimmed, this`failed,
               worker`queue, worker`late
      ensures Valid()
      ensures status == if old(Demands(m)) && !worker.reachable then Error else old(status)
      ensures old(Asks(m.now)) && m.plan.Some? && status.Ready? ==>
                multiset(renderViewport) == multiset(Planned(m.plan.value, allowPrefetch))
                && VisibleKeys(renderViewport) == VisibleKeys(m.plan.value)
      ensures debounceUntil == if old(Asks(m.now)) then None else old(debounceUntil)
      ensures old(Demands(m)) && worker.reachable ==>
                && renderViewport == Planned(m.plan.value, allowPrefetch) && failed == {}
                && pending == Missing(renderViewport, rendered)
      ensures !old(Demands(m)) ==>
                renderViewport == old(renderViewport) && pending == old(pending) && failed == old(failed)
      ensures status == old(status) ==>
                pending == Missing(renderViewport, rendered)
                || (renderViewport == old(renderViewport) && pending == old(pending))
      ensures renderViewport != old(renderViewport) ==>
                && pending == Missing(renderViewport, rendered)
                && worker.queue == set k | k in pending :: Job(generation, appearance, k)
      ensures !old(Asks(m.now)) ==> renderViewport == old(renderViewport) && pending == old(pending) && status == old(status)
      ensures idleTrimmed == old(idleTrimmed) || idleTrimmed == (old(idleTrimmed) && retentionPercent >= 100)
    {
      hide Current, OneRaster, VisibleKeys, Missing, Planned, Outstanding, NoneLost, LimitsOf;
      NothingCached(generation, appearance, {});
      if !Asks(m.now) {
        return;
      }
      debounceUntil := None;
      if m.plan.None? {
        return;
      }
      var viewport := Planned(m.plan.value, allowPrefetch);
      PlannedIsOneRaster(m.plan.value, allowPrefetch);
      if multiset(viewport) != multiset(renderViewport) || m.textChanged {
        MarkCacheActive();
        var demand := Missing(viewport, rendered);
        MissingCoversVisible(viewport, rendered, {});
        DemandIsOutstanding(demand, generation, appearance);
        var sent := worker.RenderViewport(generation, appearance, demand);
        if sent {
          pending := demand;
          renderViewport := viewport;
          failed := {};
        } else {
          pending := {};
          status := Error;
        }
      } else {
        SameVisible(viewport, renderViewport);
      }
    }

    /** Gives up obsolete and surplus tiles. Nothing visible goes, so nothing is lost. */
    method EvictTiles(m: Moment)
      requires Valid0()
      modifies this`rendered
      ensures Valid() && Evicted(old(rendered), rendered, renderViewport, EffectiveLimits(), m.distance)
    {
      hide VisibleKeys, OneRaster, Obsolete, GoesBefore;
      rendered := EvictDistantTiles(rendered, renderViewport, EffectiveLimits(), m.distance);
      if Dormant(allocation.activity) {
        NothingFits(rendered, renderViewport, EffectiveLimits());
      }
    }

    /** Valid, except that a dormant reader may have just been given a tile. */
    ghost predicate Valid0()
      reads this, worker
    {
      && Current(rendered, generation, appearance)
      && (status.Ready? ==> NoneLost(renderViewport, rendered, pending, failed))
      && Outstanding(pending, worker.queue, generation, appearance)
      && OneRaster(renderViewport) && retentionPercent <= 100
      && limits == LimitsOf(allocation)
      && (Dormant(allocation.activity) ==> pending == {} && renderViewport == [])
    }

    /** A rendered tile arrives, perhaps for a request that was superseded, another document or another appearance. */
    method TileRendered(job: Job, superseded: bool, frame: Frame, m: Moment)
      requires Valid() && PlansOneRaster(m) && job in (if superseded then worker.late else worker.queue)
      modifies this`status, this`rendered, this`pending, this`renderViewport, this`debounceUntil, this`idleTrimmed,
               this`failed, worker`queue, worker`late
      ensures Valid()
      ensures job.generation != generation || job.appearance != appearance ==>
                rendered == old(rendered) && renderViewport == old(renderViewport) && status == old(status)
      ensures job.generation == generation && job.appearance == appearance ==>
                if !Sound(frame) then status.Error? && rendered == old(rendered)
                else
                  var next := old(rendered)[job.key := TileOf(job, frame)];
                  && (worker.reachable ==> status == old(status))
                  && (job.key in old(VisibleKeys(renderViewport)) ==> job.key in rendered)
                  && (forall k :: k in rendered ==> k in next && rendered[k] == next[k])
                  && Evicted(next, rendered, old(renderViewport), old(ActiveLimits()), m.distance)
    {
      hide VisibleKeys, OneRaster, Evicted;
      SizedIsSound(frame);
      worker.Answer(job, superseded);
      if job.generation != generation || job.appearance != appearance {
        return;
      }
      pending := pending - {job.key};
      MarkCacheActive();
      if !Sized(frame) {
        status := Error;
        return;
      }
      var tile := Tile(Picture(job.generation, job.appearance, job.key, frame.width, frame.height),
                       ExpectedBytes(frame).value);
      rendered := rendered[job.key := tile];
      ghost var before := rendered;
      EvictTiles(m);
      VisibleStay(before, rendered, renderViewport, EffectiveLimits(), m.distance);
      RequestVisibleTiles(m);
    }

    method TileFailed(job: Job, superseded: bool)
      requires Valid() && job in (if superseded then worker.late else worker.queue)
      modifies this`pending, this`failed, worker`queue, worker`late
      ensures Valid()
      ensures if job.generation == generation && job.appearance == appearance
              then pending == old(pending) - {job.key} && failed == old(failed) + {job.key}
              else pending == old(pending) && failed == old(failed)
    {
      hide VisibleKeys, OneRaster, Current;
      worker.Answer(job, superseded);
      if job.generation == generation && job.appearance == appearance {
        pending := pending - {job.key};
        failed := failed + {job.key};
      }
    }

    /** Forgets what was asked for, so that the next request asks for everything not cached. */
    method ForgetDemand()
      requires Valid()
      modifies this`pending, this`renderViewport, this`failed
      ensures Valid() && pending == {} && renderViewport == []
    {
      hide Current;
      pending, renderViewport, failed := {}, [], {};
    }

    method Resumed(answering: nat, m: Moment)
      requires Valid() && PlansOneRaster(m)
      modifies this`status, this`pending, this`renderViewport, this`debounceUntil, this`idleTrimmed, this`failed,
               worker`queue, worker`late
      ensures Valid()
      ensures answering != generation ==>
                renderViewport == old(renderViewport) && pending == old(pending) && status == old(status)
      ensures answering == generation && !status.Error? ==> pending == Missing(renderViewport, rendered)
      ensures worker.reachable ==> status == old(status)
      ensures answering == generation && old(Asks(m.now)) && m.plan.Some? && status.Ready? ==>
                VisibleKeys(renderViewport) == VisibleKeys(m.plan.value)
    {
      hide Current, NoneLost, Outstanding, OneRaster, VisibleKeys;
      NothingWanted();
      if answering == generation {
        ForgetDemand();
        RequestVisibleTiles(m);
      }
    }

    /**
      A new document is asked for: the old one's tiles and demand are gone before anything of the new one arrives. If
      the worker cannot be reached the reader ends in error, with nothing shown.
    */
    method BeginOpen(opens: bool)
      requires Valid()
      modifies this`status, this`generation, this`rendered, this`pending, this`renderViewport, this`debounceUntil,
               this`zoomRevision, this`failed
      ensures Valid() && generation == old(generation) + 1 && rendered == map[] && pending == {} && renderViewport == []
      ensures status == if opens then Loading else Error
      ensures zoomRevision == old(zoomRevision) + 1 && debounceUntil.None? && failed == {}
    {
      hide Current, NoneLost, Outstanding, OneRaster, LimitsOf, VisibleKeys;
      NothingWanted();
      NothingCached(generation + 1, appearance, worker.queue);
      pending, renderViewport, failed := {}, [], {};
      generation := generation + 1;
      rendered := map[];
      zoomRevision := zoomRevision + 1;
      debounceUntil := None;
      status := Loading;
      if !opens {
        status := Error;
      }
    }

    /** A document that has just opened asks for tiles at once. */
    ghost predicate Loads(m: Moment)
      reads this
    {
      && !hibernated && !Dormant(allocation.activity) && m.plan.Some?
      && (Planned(m.plan.value, allowPrefetch) != [] || m.textChanged)
    }

    method Opened(answering: nat, laidOut: bool, m: Moment)
      requires Valid() && PlansOneRaster(m)
      modifies this`status, this`rendered, this`pending, this`renderViewport, this`debounceUntil, this`idleTrimmed,
               this`failed, worker`queue, worker`late
      ensures Valid()
      ensures answering == generation ==> status == if laidOut && (Loads(m) ==> worker.reachable) then Ready else Error
      ensures if answering == generation then rendered == map[]
              else rendered == old(rendered) && renderViewport == old(renderViewport) && status == old(status)
      ensures answering == generation && m.plan.Some? && !hibernated && !Dormant(allocation.activity) && status.Ready? ==>
                VisibleKeys(renderViewport) == VisibleKeys(m.plan.value)
      ensures answering == generation && status.Ready? ==> pending == Missing(renderViewport, rendered)
    {
      hide OneRaster, VisibleKeys, Missing, Planned, Current, NoneLost, Outstanding, LimitsOf;
      NothingWanted();
      NothingCached(generation, appearance, worker.queue);
      if answering != generation {
        return;
      }
      rendered := map[];
      if !laidOut {
        status := Error;
        return;
      }
      pending, renderViewport, failed := {}, [], {};
      debounceUntil := None;
      status := Ready;
      if m.plan.Some? {
        EmptyViewport(Planned(m.plan.value, allowPrefetch));
      }
      RequestVisibleTiles(m);
    }

    /** The worker gave up. */
    method WorkerError(answering: Option<nat>)
      requires Valid()
      modifies this`status, this`pending, this`renderViewport, this`debounceUntil, this`failed
      ensures Valid()
      ensures if answering.None? || answering == Some(generation)
              then status.Error? && pending == {} && renderViewport == [] && failed == {} && debounceUntil.None?
              else status == old(status) && pending == old(pending) && renderViewport == old(renderViewport)
                   && failed == old(failed) && debounceUntil == old(debounceUntil)
    {
      hide Current;
      if answering.None? || answering == Some(generation) {
        pending, renderViewport, failed := {}, [], {};
        debounceUntil := None;
        status := Error;
      }
    }

    /** Another appearance makes every cached tile wrong. */
    method SynchronizeAppearance(next: nat, m: Moment)
      requires Valid() && PlansOneRaster(m)
      modifies this`status, this`appearance, this`rendered, this`pending, this`renderViewport, this`debounceUntil,
               this`idleTrimmed, this`failed,
               worker`queue, worker`late
      ensures Valid() && appearance == next
      ensures rendered == if next == old(appearance) then old(rendered) else map[]
      ensures next != old(appearance) && !status.Error? ==> pending == Missing(renderViewport, rendered)
      ensures worker.reachable ==> status == old(status)
    {
      hide OneRaster;
      NothingWanted();
      if next != appearance {
        pending, renderViewport, failed := {}, [], {};
        appearance := next;
        rendered := map[];
        RequestVisibleTiles(m);
      }
    }

    /** The first step of a zoom burst withdraws the demand; every step puts the next demand off. */
    method DeferRenderAfterZoom(now: nat)
      requires Valid()
      modifies this`status, this`pending, this`renderViewport, this`debounceUntil, this`zoomRevision, this`failed,
               worker`queue, worker`late
      ensures Valid() && rendered == old(rendered)
      ensures old(debounceUntil).None? ==> pending == {} && renderViewport == [] && worker.queue == {}
      ensures if old(debounceUntil).None? && debounceUntil.None? then status.Error?
              else debounceUntil == Some(now + 150) && status == old(status)
      ensures old(debounceUntil).None? && debounceUntil.None? <==> old(debounceUntil).None? && !worker.reachable
      ensures zoomRevision == old(zoomRevision) + (if debounceUntil.Some? then 1 else 0)
    {
      hide Current;
      if debounceUntil.None? {
        pending, renderViewport, failed := {}, [], {};
        var sent := worker.RenderViewport(generation, appearance, {});
        if !sent {
          status := Error;
          return;
        }
      }
      zoomRevision := zoomRevision + 1;
      debounceUntil := Some(now + ZOOM_RENDER_DEBOUNCE);
    }

    /** The timer of a zoom step rings; only that of the last step counts. */
    method ZoomTimer(revision: nat, m: Moment)
      requires Valid() && PlansOneRaster(m)
      modifies this`status, this`pending, this`renderViewport, this`debounceUntil, this`idleTrimmed, this`failed,
               worker`queue, worker`late
      ensures Valid()
      ensures revision != zoomRevision ==>
                renderViewport == old(renderViewport) && pending == old(pending) && debounceUntil == old(debounceUntil)
      ensures revision == zoomRevision ==> debounceUntil.None?
      ensures worker.reachable ==> status == old(status)
      ensures revision == zoomRevision && m.plan.Some? && !hibernated && !Dormant(allocation.activity) && status.Ready? ==>
                VisibleKeys(renderViewport) == VisibleKeys(m.plan.value)
    {
      hide Current, NoneLost, Outstanding, OneRaster, VisibleKeys;
      if revision == zoomRevision {
        debounceUntil := None;
        RequestVisibleTiles(m);
      }
    }

    /**
      New resources. A dormant reader keeps no tile and asks for none. Another one shrinks its cache to the new limits
      and then asks for what is visible and missing, prefetching only in the foreground; one whose worker had closed
      its document must resume it first.
    */
    method ApplyResourceAllocation(next: Allocation, resumes: bool, m: Moment)
      requires Valid() && PlansOneRaster(m)
      modifies this, worker
      ensures Valid() && allocation == next && generation == old(generation) && appearance == old(appearance)
      ensures Dormant(next.activity) ==> rendered == map[] && pending == {} && renderViewport == []
      ensures next != old(allocation) && Dormant(next.activity) && status.Ready? ==> worker.queue == {}
      ensures limits == LimitsOf(next)
      ensures next == old(allocation) ==> unchanged(this) && unchanged(worker)
      ensures next != old(allocation) ==>
                allowPrefetch
                == ((next.activity.ForegroundIdle? || next.activity.ForegroundInteractive?) && next.workerSlots > 0)
      ensures next != old(allocation) && !Dormant(next.activity) ==>
                if old(hibernated) && !resumes
                then status.Error? && hibernated && rendered == old(rendered) && pending == old(pending)
                else !hibernated && Woken(m)
    {
      hide OneRaster, Current, NoneLost, Outstanding, Evicted, Missing, Planned, VisibleKeys;
      if allocation == next {
        return;
      }
      allocation, limits := next, LimitsOf(next);
      MarkCacheActive();
      allowPrefetch := (next.activity.ForegroundIdle? || next.activity.ForegroundInteractive?) && next.workerSlots > 0;
      if Dormant(next.activity) {
        DropEverything();
      } else {
        Wake(resumes, m);
      }
    }

    /** The cache is evicted under the present limits, and the planned tiles that are missing from it are awaited. */
    twostate predicate Woken(m: Moment)
      reads this, worker
    {
      && (worker.reachable ==> status == old(status))
      && Evicted(old(rendered), rendered, old(renderViewport), EffectiveLimits(), m.distance)
      && (status == old(status) ==>
            pending == Missing(renderViewport, rendered)
            || (renderViewport == old(renderViewport) && pending == old(pending)))
      && (status.Ready? && !(old(debounceUntil).Some? && m.now < old(debounceUntil).value) && m.plan.Some? ==>
            && multiset(renderViewport) == multiset(Planned(m.plan.value, allowPrefetch))
            && VisibleKeys(renderViewport) == VisibleKeys(m.plan.value))
    }

    method DropEverything()
      requires Outstanding(pending, worker.queue, generation, appearance) && retentionPercent <= 100
      requires limits == LimitsOf(allocation)
      modifies this`rendered, this`pending, this`renderViewport, this`failed, worker`queue, worker`late
      ensures Valid() && rendered == map[] && pending == {} && renderViewport == []
      ensures status.Ready? ==> worker.queue == {}
    {
      pending, renderViewport, failed := {}, [], {};
      rendered := map[];
      if status.Ready? {
        var _ := worker.RenderViewport(generation, appearance, {});
      }
    }

    method Wake(resumes: bool, m: Moment)
      requires Valid0() && PlansOneRaster(m) && !Dormant(allocation.activity)
      modifies this`status, this`rendered, this`pending, this`renderViewport, this`debounceUntil, this`idleTrimmed,
               this`hibernated, this`failed, worker`queue, worker`late
      requires idleTrimmed ==> retentionPercent >= 100
      ensures Valid()
      ensures if old(hibernated) && !resumes
              then status.Error? && hibernated && rendered == old(rendered) && pending == old(pending)
              else !hibernated && Woken(m)
    {
      hide OneRaster, Evicted, Current, NoneLost, Outstanding, Missing, Planned, VisibleKeys;
      if hibernated {
        if !resumes {
          status := Error;
          return;
        }
        hibernated := false;
      }
      EvictTiles(m);
      RequestVisibleTiles(m);
    }

    /** After a while without resources the worker closes its document. */
    method HibernateTimer()
      requires Valid()
      modifies this`hibernated, worker
      ensures Valid() && (hibernated && !old(hibernated) ==> pending == {} && worker.queue == {})
      ensures hibernated == (old(hibernated) || (allocation.activity.Suspended? && worker.reachable))
    {
      hide Current, NoneLost, OneRaster;
      if !allocation.activity.Suspended? || hibernated {
        return;
      }
      hibernated := worker.Hibernate();
    }

    /** After a while without activity the cache shrinks, unless tiles are still awaited. */
    method IdleTrimTimer(m: Moment)
      requires Valid()
      modifies this`idleTrimmed, this`rendered
      ensures Valid()
      ensures pending != {} ==> rendered == old(rendered) && idleTrimmed == old(idleTrimmed)
      ensures pending == {} ==> idleTrimmed
      ensures pending == {} ==> Evicted(old(rendered), rendered, renderViewport, EffectiveLimits(), m.distance)
    {
      hide Current, NoneLost, OneRaster, Evicted;
      if pending != {} {
        return;
      }
      idleTrimmed := true;
      EvictTiles(m);
    }
  }

  /** Within its limits, a reader keeps no more than the limit of pixel bytes. */
  lemma LimitBoundsPixels(cache: Cache, generation: nat, appearance: nat, limits: Limits)
    requires Current(cache, generation, appearance) && Within(cache, limits)
    ensures Sum(map k | k in cache :: 4 * (cache[k].picture.width * cache[k].picture.height)) <= limits.bytes
  {
    assert Sizes(cache) == map k | k in cache :: 4 * (cache[k].picture.width * cache[k].picture.height);
  }

  lemma PlannedIsOneRaster(plan: Viewport, prefetch: bool)
    requires OneRaster(plan)
    ensures OneRaster(Planned(plan, prefetch)) && VisibleKeys(Planned(plan, prefetch)) == VisibleKeys(plan)
  {
    PlannedKeepsVisible(plan, prefetch);
  }

  lemma MissingCoversVisible(v: Viewport, cache: Cache, failed: set<TileKey>)
    ensures NoneLost(v, cache, Missing(v, cache), failed)
  {
  }

  lemma SameVisible(v: Viewport, w: Viewport)
    requires multiset(v) == multiset(w)
    ensures VisibleKeys(v) == VisibleKeys(w)
  {
    forall d ensures d in v <==> d in w {
      assert d in v <==> d in multiset(v);
      assert d in w <==> d in multiset(w);
    }
  }

  /** With nothing visible and no room, nothing is kept. */
  lemma NothingFits(cache: Cache, v: Viewport, limits: Limits)
    requires v == [] && limits == Limits(0, 0)
    requires Within(cache, limits) || cache.Keys <= VisibleKeys(v)
    ensures cache == map[]
  {
    assert VisibleKeys(v) == {};
  }

  lemma NothingCached(generation: nat, appearance: nat, queue: set<Job>)
    ensures Current(map[], generation, appearance) && Outstanding({}, queue, generation, appearance)
    ensures NoneLost([], map[], {}, {})
  {
  }

  lemma DemandIsOutstanding(keys: set<TileKey>, generation: nat, appearance: nat)
    ensures Outstanding(keys, set k | k in keys :: Job(generation, appearance, k), generation, appearance)
  {
  }

  lemma EmptyViewport(v: Viewport)
    ensures multiset(v) == multiset([]) <==> v == []
  {
    if v != [] {
      assert v[0] in multiset(v);
    }
  }

  lemma NothingWanted()
    ensures OneRaster([]) && VisibleKeys([]) == {}
    ensures forall cache :: Missing([], cache) == {}
  {
  }

  lemma VisibleStay(before: Cache, after: Cache, v: Viewport, limits: Limits, distance: TileKey -> nat)
    requires Evicted(before, after, v, limits, distance)
    ensures forall k :: k in before && k in VisibleKeys(v) ==> k in after
    ensures forall k :: k in after ==> k in before && after[k] == before[k]
  {
  }
}
