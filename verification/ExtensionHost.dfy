/**
  The part of the extension host a package manager can see: one lifecycle, one optional adapter and the
  recorded permission decisions per extension. What is not up to this model is left open: how each attempt to start
  an extension turns out, and which other active extensions lose a capability they require and are suspended.
*/
module ExtensionHosts {
  import opened Wrappers

  type Id = string
  type Permission = string

  datatype Lifecycle = Installed | Validated | Active | Suspended | Failed | Disabled | Unloading | Removed

  predicate TransitionAllowed(from: Lifecycle, to: Lifecycle) {
    match from
    case Installed => to.Validated? || to.Disabled? || to.Removed?
    case Validated => to.Active? || to.Disabled? || to.Failed? || to.Removed?
    case Active => to.Suspended? || to.Disabled? || to.Failed? || to.Unloading?
    case Suspended => to.Active? || to.Disabled? || to.Failed? || to.Unloading?
    case Failed => to.Disabled? || to.Validated? || to.Removed?
    case Disabled => to.Validated? || to.Removed?
    case Unloading => to.Disabled? || to.Removed?
    case Removed => false
  }

  datatype Decision = Granted | Denied | Undecided

  datatype Request = Request(permission: Permission, required: bool)

  /** `acceptable` says whether the manifest passes the host's validation, `licensed` whether its license is allowed. */
  datatype Manifest = Manifest(id: Id, version: string, publisher: string, native: bool, wasm: bool,
                               permissions: seq<Request>, acceptable: bool, licensed: bool)

  datatype Adapter = Adapter(extension: Id, code: string)

  datatype HostRecord = HostRecord(manifest: Manifest, state: Lifecycle)

  datatype HostError =
    | NotInstalled | AlreadyInstalled | PackageBusy | InvalidManifest | LicenseDenied
    | InvalidState(state: Lifecycle)
    | SafeMode | DependencyUnavailable | CapabilityUnavailable
    | PermissionDenied | PermissionsRequired(requests: seq<Request>)
    | AdapterUnavailable | ExtensionFailed

  datatype Obstacle = SafeModeIsOn | NoDependency | NoCapability

  function ErrorOf(o: Obstacle): HostError {
    match o
    case SafeModeIsOn => SafeMode
    case NoDependency => DependencyUnavailable
    case NoCapability => CapabilityUnavailable
  }

  /**
    How one attempt to start an extension turns out: what stands in its way before its permissions are looked at,
    whether its component starts, whether a worker then owes the first result, and whether an overflowing event queue
    gets it suspended.
  */
  datatype Fate = Fate(obstacle: Option<Obstacle>, starts: bool, owes: bool, overflows: bool)

  /** Attempts made so far, and the components whose workers owe a result. */
  datatype Work = Work(attempts: nat, owed: set<Id>)

  type Decisions = map<Permission, Decision>

  function Observed(ds: Decisions, p: Permission): Decision { if p in ds then ds[p] else Undecided }

  /** Between calls an extension is never halfway through a transition. */
  predicate Settled(s: Lifecycle) { s.Validated? || s.Active? || s.Suspended? || s.Failed? || s.Disabled? }

  /** Extensions other than `id` keep their state, except that active ones may have been suspended. */
  ghost predicate Demoted(before: map<Id, HostRecord>, after: map<Id, HostRecord>, id: Id) {
    && before.Keys == after.Keys
    && forall k :: k in before && k != id ==>
         && after[k].manifest == before[k].manifest
         && (after[k].state == before[k].state || (before[k].state.Active? && after[k].state.Suspended?))
  }

  lemma DemotedSelf(records: map<Id, HostRecord>, id: Id)
    ensures Demoted(records, records, id)
  {
  }

  lemma DemotedStep(before: map<Id, HostRecord>, after: map<Id, HostRecord>, k: Id, id: Id)
    requires Demoted(before, after, id) && k in before && k != id && before[k].state.Active?
    ensures Demoted(before, after[k := before[k].(state := Suspended)], id)
  {
  }

  lemma LaterDemoted(before: map<Id, HostRecord>, after: map<Id, HostRecord>, id: Id)
    ensures id in before && Demoted(before[id := before[id].(state := Validated)], after, id) ==> Demoted(before, after, id)
  {
  }

  /** Started by a host whose queue has room, an extension is active. */
  ghost predicate Started(s: Lifecycle, room: bool) { s.Active? || (!room && s.Suspended?) }

  lemma StaysDemoted(before: map<Id, HostRecord>, after: map<Id, HostRecord>, id: Id, s: Lifecycle)
    requires Demoted(before, after, id) && id in after && Settled(s)
    requires forall k :: k in after ==> Settled(after[k].state) && after[k].manifest.id == k
    ensures Demoted(before, after[id := after[id].(state := s)], id)
    ensures var next := after[id := after[id].(state := s)];
            forall k :: k in next ==> Settled(next[k].state) && next[k].manifest.id == k
  {
  }

  lemma DemotedIsSettled(before: map<Id, HostRecord>, after: map<Id, HostRecord>, id: Id)
    requires Demoted(before, after, id) && (id in before ==> id in after && after[id] == before[id])
    requires forall k :: k in before ==> Settled(before[k].state) && before[k].manifest.id == k
    ensures after.Keys == before.Keys
    ensures forall k :: k in after ==> Settled(after[k].state) && after[k].manifest.id == k
  {
  }

  /** The required permissions with a given decision. */
  function RequiredWith(rs: seq<Request>, ds: Decisions, d: Decision): seq<Request> {
    if rs == [] then []
    else (if rs[0].required && Observed(ds, rs[0].permission) == d then [rs[0]] else []) + RequiredWith(rs[1..], ds, d)
  }

  predicate AllRequiredGranted(rs: seq<Request>, ds: Decisions) {
    forall i :: 0 <= i < |rs| && rs[i].required ==> Observed(ds, rs[i].permission) == Granted
  }

  lemma {:induction false} NothingMissing(rs: seq<Request>, ds: Decisions)
    ensures RequiredWith(rs, ds, Denied) == [] && RequiredWith(rs, ds, Undecided) == [] <==> AllRequiredGranted(rs, ds)
  {
    if rs != [] {
      NothingMissing(rs[1..], ds);
      assert rs == [rs[0]] + rs[1..];
      if AllRequiredGranted(rs[1..], ds) && (rs[0].required ==> Observed(ds, rs[0].permission) == Granted) {
        assert forall i :: 0 < i < |rs| ==> rs[i] == rs[1..][i - 1];
      }
      if AllRequiredGranted(rs, ds) {
        assert rs[0].required ==> Observed(ds, rs[0].permission) == Granted;
        assert forall i :: 0 <= i < |rs[1..]| ==> rs[1..][i] == rs[i + 1];
      }
    }
  }

  /** An attempt succeeds if nothing stands in its way, everything required is granted, and the component starts. */
  ghost predicate Startable(m: Manifest, ds: Decisions, adapted: bool, fate: Fate) {
    fate.obstacle.None? && AllRequiredGranted(m.permissions, ds) && (m.wasm ==> adapted && fate.starts)
  }

  /** The state an extension is in when its attempt has succeeded. */
  ghost function Launched(room: bool, fate: Fate): Lifecycle { if !room && fate.overflows then Suspended else Active }

  predicate Stopped(s: Lifecycle) { s.Validated? || s.Disabled? || s.Failed? }

  class ExtensionHost {
    var records: map<Id, HostRecord>
    var adapters: map<Id, Adapter>
    var decisions: map<Id, Decisions>
    /** The event queue has room for everything the host sends before the next tick. */
    var room: bool
    const fates: nat -> Fate
    var work: Work

    ghost predicate Valid()
      reads this
    {
      forall k :: k in records ==> Settled(records[k].state) && records[k].manifest.id == k
    }

    constructor (fates: nat -> Fate)
      ensures Valid() && records == map[] && adapters == map[] && decisions == map[]
      ensures this.fates == fates && room && work == Work(0, {})
    {
      this.fates := fates;
      records, adapters, decisions, room, work := map[], map[], map[], true, Work(0, {});
    }

    /** The next attempt, if it is one to start `id`, succeeds. */
    ghost predicate Starts(id: Id)
      reads this
    {
      && id in records && Stopped(records[id].state)
      && Startable(records[id].manifest, DecisionsOf(id), id in adapters, fates(work.attempts))
    }

    /** The next attempt, if it is one to start `id`, gets as far as its component and fails there. */
    ghost predicate Breaks(id: Id)
      reads this
    {
      && id in records && Stopped(records[id].state) && fates(work.attempts).obstacle.None?
      && AllRequiredGranted(records[id].manifest.permissions, DecisionsOf(id))
      && records[id].manifest.wasm && !(id in adapters && fates(work.attempts).starts)
    }

    /** A worker owes a result for the running component of `id`. */
    predicate Owes(id: Id)
      reads this
    {
      && id in work.owed && id in records && records[id].manifest.wasm
      && (records[id].state.Active? || records[id].state.Suspended?)
    }

    function State(id: Id): Option<Lifecycle>
      reads this
    {
      if id in records then Some(records[id].state) else None
    }

    function AdapterOf(id: Id): Option<Adapter>
      reads this
    {
      if id in adapters then Some(adapters[id]) else None
    }

    function DecisionsOf(id: Id): Decisions
      reads this
    {
      if id in decisions then decisions[id] else map[]
    }

    method SetState(id: Id, to: Lifecycle)
      requires id in records && TransitionAllowed(records[id].state, to)
      modifies this`records
      ensures records == old(records)[id := old(records)[id].(state := to)]
    {
      records := records[id := records[id].(state := to)];
    }

    /** Suspends any active extensions whose required capability went away with `id`. */
    method ReconcileCapabilities(id: Id)
      requires Valid()
      modifies this`records
      ensures Valid() && Demoted(old(records), records, id)
      ensures id in records ==> records[id] == old(records)[id]
    {
      hide Demoted, Settled;
      var start := records;
      var rest := start.Keys;
      var next := start;
      DemotedSelf(start, id);
      while rest != {}
        invariant rest <= start.Keys && Demoted(start, next, id)
        invariant id in start ==> id in next && next[id] == start[id]
        decreases |rest|
      {
        var k :| k in rest;
        rest := rest - {k};
        var resolves: bool := *;
        if k != id && start[k].state.Active? && !resolves {
          DemotedStep(start, next, k, id);
          next := next[k := start[k].(state := Suspended)];
        }
      }
      DemotedIsSettled(start, next, id);
      records := next;
    }

    method Install(manifest: Manifest) returns (r: Option<HostError>)
      requires Valid()
      modifies this`records
      ensures Valid()
      ensures r == if !manifest.licensed then Some(LicenseDenied)
                   else if manifest.id in old(records) then Some(AlreadyInstalled)
                   else if !manifest.acceptable then Some(InvalidManifest)
                   else None
      ensures records == if r.None? then old(records)[manifest.id := HostRecord(manifest, Validated)] else old(records)
    {
      if !manifest.licensed {
        return Some(LicenseDenied);
      }
      if manifest.id in records {
        return Some(AlreadyInstalled);
      }
      if !manifest.acceptable {
        return Some(InvalidManifest);
      }
      records := records[manifest.id := HostRecord(manifest, Validated)];
      r := None;
    }

    /** Puts a validated package in place of an inactive one. */
    method ReplacePackage(manifest: Manifest) returns (r: Option<HostError>)
      requires Valid()
      modifies this`records
      ensures Valid()
      ensures r.None? <==>
                && manifest.acceptable
                && (manifest.id in old(records) ==>
                      !old(records)[manifest.id].state.Active? && !old(records)[manifest.id].state.Suspended?)
      ensures records == if r.None? then old(records)[manifest.id := HostRecord(manifest, Validated)] else old(records)
    {
      if manifest.id in records {
        var state := records[manifest.id].state;
        if state.Active? || state.Suspended? || state.Unloading? {
          return Some(PackageBusy);
        }
      }
      if !manifest.acceptable {
        return Some(InvalidManifest);
      }
      records := records[manifest.id := HostRecord(manifest, Validated)];
      r := None;
    }

    /** Brings an extension to the disabled state. */
    method Unload(id: Id) returns (r: Option<HostError>)
      requires Valid()
      modifies this`records
      ensures Valid() && Demoted(old(records), records, id)
      ensures r == if id in old(records) then None else Some(NotInstalled)
      ensures id in records ==> records[id] == old(records)[id].(state := Disabled)
      ensures r.Some? ==> records == old(records)
    {
      if id !in records {
        return Some(NotInstalled);
      }
      if records[id].state.Disabled? {
        return None;
      }
      if records[id].state.Active? || records[id].state.Suspended? {
        SetState(id, Unloading);
      }
      SetState(id, Disabled);
      ReconcileCapabilities(id);
      r := None;
    }

    /**
      Starts an extension. Safe mode, dependencies and capabilities may refuse it first; then its required
      permissions are checked; then its adapter may fail. Starting sends an event to every active extension; while
      the queue has room that changes nothing else, and only a full queue may get an extension suspended.
    */
    method Activate(id: Id) returns (r: Option<HostError>)
      requires Valid()
      modifies this`records, this`work
      ensures Valid() && Demoted(old(records), records, id) && work.attempts == old(work).attempts + 1
      ensures r.None? <==> old(Starts(id))
      ensures id !in old(records) ==> r == Some(NotInstalled) && records == old(records)
      ensures id in records ==> records[id].manifest == old(records)[id].manifest
      ensures id in old(records) && (old(records)[id].state.Active? || old(records)[id].state.Suspended?) ==>
                r.Some? && records == old(records)
      ensures r.None? ==>
                && records[id].state == Launched(room, fates(old(work).attempts))
                && (id in work.owed <==> fates(old(work).attempts).owes)
      ensures room && id in records ==> records == old(records)[id := records[id]]
      ensures r.Some? && r.value.PermissionsRequired? ==>
                r.value.requests == RequiredWith(records[id].manifest.permissions, DecisionsOf(id), Undecided)
                && records[id].state.Validated?
      ensures r.Some? && id in records && !old(records)[id].state.Active? && !old(records)[id].state.Suspended? ==>
                records[id].state == if old(Breaks(id)) then Failed else Validated
    {
      hide RequiredWith, AllRequiredGranted, Demoted, Launched;
      var fate := fates(work.attempts);
      work := work.(attempts := work.attempts + 1);
      DemotedSelf(records, id);
      if id !in records {
        return Some(NotInstalled);
      }
      var state := records[id].state;
      StaysDemoted(records, records, id, Validated);
      if state.Disabled? || state.Failed? {
        SetState(id, Validated);
      } else if !state.Validated? {
        return Some(InvalidState(state));
      }
      r := Attempt(id, fate);
      LaterDemoted(old(records), records, id);
    }

    /** An attempt to start a validated extension. */
    method Attempt(id: Id, fate: Fate) returns (r: Option<HostError>)
      requires Valid() && id in records && records[id].state.Validated?
      modifies this`records, this`work
      ensures Valid() && Demoted(old(records), records, id) && work.attempts == old(work).attempts
      ensures records[id].manifest == old(records)[id].manifest
      ensures r.None? <==> Startable(records[id].manifest, DecisionsOf(id), id in adapters, fate)
      ensures r.None? ==> records[id].state == Launched(room, fate) && (id in work.owed <==> fate.owes)
      ensures room ==> records == old(records)[id := records[id]]
      ensures r.Some? && r.value.PermissionsRequired? ==>
                r.value.requests == RequiredWith(records[id].manifest.permissions, DecisionsOf(id), Undecided)
                && records[id].state.Validated?
      ensures r.Some? ==>
                records[id].state == if fate.obstacle.None?
                                        && AllRequiredGranted(records[id].manifest.permissions, DecisionsOf(id))
                                     then Failed else Validated
    {
      hide RequiredWith, AllRequiredGranted, Demoted, Settled, Launched;
      DemotedSelf(records, id);
      if fate.obstacle.Some? {
        return Some(ErrorOf(fate.obstacle.value));
      }
      var requests := records[id].manifest.permissions;
      NothingMissing(requests, DecisionsOf(id));
      if RequiredWith(requests, DecisionsOf(id), Denied) != [] {
        return Some(PermissionDenied);
      }
      var undecided := RequiredWith(requests, DecisionsOf(id), Undecided);
      if undecided != [] {
        return Some(PermissionsRequired(undecided));
      }
      r := Launch(id, fate);
    }

    method Launch(id: Id, fate: Fate) returns (r: Option<HostError>)
      requires Valid() && id in records && records[id].state.Validated?
      modifies this`records, this`work
      ensures Valid() && Demoted(old(records), records, id) && work.attempts == old(work).attempts
      ensures records[id].manifest == old(records)[id].manifest
      ensures r.None? <==> (records[id].manifest.wasm ==> id in adapters && fate.starts)
      ensures r.None? ==> records[id].state == Launched(room, fate) && (id in work.owed <==> fate.owes)
      ensures room ==> records == old(records)[id := records[id]]
      ensures r.Some? ==> records[id].state.Failed? && (r.value.AdapterUnavailable? || r.value.ExtensionFailed?)
    {
      if records[id].manifest.wasm && id !in adapters {
        SetState(id, Failed);
        return Some(AdapterUnavailable);
      }
      if records[id].manifest.wasm && !fate.starts {
        SetState(id, Failed);
        return Some(ExtensionFailed);
      }
      SetState(id, Active);
      work := work.(owed := if fate.owes then work.owed + {id} else work.owed - {id});
      if !room {
        OverflowQueue(id, fate.overflows);
      }
      r := None;
    }

    /** An event that finds the queue full counts against its target, which may be suspended for it. */
    method OverflowQueue(id: Id, suspended: bool)
      requires Valid() && id in records && records[id].state.Active?
      modifies this`records
      ensures Valid() && Demoted(old(records), records, id)
      ensures records[id].manifest == old(records)[id].manifest
      ensures records[id].state == if suspended then Suspended else Active
    {
      hide Settled;
      ReconcileCapabilities(id);
      if suspended {
        ghost var reconciled := records;
        SetState(id, Suspended);
        StaysDemoted(old(records), reconciled, id, Suspended);
      }
    }

    method RemovePackage(id: Id) returns (r: Option<HostError>)
      requires Valid()
      modifies this`records, this`decisions
      ensures Valid()
      ensures r == if id in old(records) then None else Some(NotInstalled)
      ensures r.Some? ==> records == old(records) && decisions == old(decisions)
      ensures r.None? ==> id !in records && decisions == old(decisions) - {id}
      ensures r.None? ==> Demoted(old(records) - {id}, records, id)
    {
      r := Unload(id);
      if r.Some? {
        return;
      }
      decisions := decisions - {id};
      SetState(id, Removed);
      records := records - {id};
    }

    method SetPermissionDecision(id: Id, p: Permission, d: Decision)
      modifies this`decisions
      ensures decisions == old(decisions)[id := old(DecisionsOf(id))[p := d]]
    {
      decisions := decisions[id := DecisionsOf(id)[p := d]];
    }

    method ClearPermissionDecisions(id: Id)
      modifies this`decisions
      ensures decisions == old(decisions) - {id}
    {
      decisions := decisions - {id};
    }

    method RegisterAdapter(adapter: Adapter)
      modifies this`adapters
      ensures adapters == old(adapters)[adapter.extension := adapter]
    {
      adapters := adapters[adapter.extension := adapter];
    }

    method RemoveAdapter(id: Id)
      modifies this`adapters
      ensures adapters == old(adapters) - {id}
    {
      adapters := adapters - {id};
    }

    /** Work a background worker still owes for a running component; nothing is owed for one that does not run. */
    method PendingWork(id: Id) returns (n: nat)
      ensures n > 0 <==> Owes(id)
    {
      n := 0;
      if Owes(id) {
        n :| n > 0;
      }
    }

    /** Time passes: workers fail or finish, safe mode suspends or releases. */
    method Tick()
      requires Valid()
      modifies this`records, this`room, this`work
      ensures Valid() && Drifted(old(records), records) && work.attempts == old(work).attempts
    {
      room := *;
      var owed: set<Id> := *;
      work := work.(owed := owed);
      var rest := records.Keys;
      var next := records;
      while rest != {}
        invariant rest <= records.Keys && Drifted(records, next)
        decreases |rest|
      {
        var k :| k in rest;
        rest := rest - {k};
        var event: int := *;
        var state := records[k].state;
        if event == 1 && (state.Active? || state.Suspended?) {
          next := next[k := records[k].(state := Failed)];
        } else if event == 2 && state.Active? {
          next := next[k := records[k].(state := Suspended)];
        } else if event == 3 && state.Suspended? {
          next := next[k := records[k].(state := Active)];
        }
      }
      records := next;
    }
  }

  /** Only running extensions change, and only between running and failed. */
  ghost predicate Drifted(before: map<Id, HostRecord>, after: map<Id, HostRecord>) {
    && before.Keys == after.Keys
    && forall k :: k in before ==>
         && after[k].manifest == before[k].manifest
         && (after[k].state == before[k].state
             || ((before[k].state.Active? || before[k].state.Suspended?)
                 && (after[k].state.Active? || after[k].state.Suspended? || after[k].state.Failed?)))
  }
}
