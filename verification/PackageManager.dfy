/**
  Installation policy for extension packages: review, permission-gated upgrade, provisional upgrade and
  rollback. The manager keeps three maps beside the host and must never let them drift from it.
*/
module PackageManagers {
  import opened Wrappers
  import opened ExtensionHosts
  import opened MapSums

  const MAX_INSTALLED := 32
  const MAX_ACTIVE := 8
  const MAX_COMPONENT_BYTES := 64 * 1024 * 1024

  datatype Signer = Signer(keyId: string, identity: string)

  datatype Package = Package(manifest: Manifest, contentHash: string, signer: Option<Signer>, componentBytes: nat)

  datatype Managed = Managed(package: Package, adapter: Option<Adapter>)

  datatype PendingUpgrade = PendingUpgrade(candidate: Managed, resetAuthority: bool, toApprove: seq<Request>)

  datatype Decided = Decided(permission: Permission, decision: Decision)

  datatype ActivatingUpgrade = ActivatingUpgrade(previous: Managed, lifecycle: Lifecycle, snapshot: seq<Decided>)

  datatype Reason =
    | LimitReached | RemainsDisabled | Refused(error: HostError) | MorePermissions | RuntimeFailed | Suspension

  datatype Activation =
    | Running
    | Activating
    | AwaitingPermissions(requests: seq<Request>)
    | Inactive(reason: Reason)

  datatype Error =
    | Host(error: HostError)
    | ExternalNativeEntrypoint
    | UpgradeActivationFailed(reason: Reason)
    | UpgradeRollbackFailed(reason: Reason)
    | UpgradeWhileSuspended
    | PublisherMismatch
    | NotManaged
    | InstalledPackageLimit
    | CompiledComponentBytesLimit
    | StoredPermissionMismatch
    | OwnedByHost
    | CompilationFailed
    | PackageChangedAfterReview

  datatype Report = Report(extension: Id, version: string, activation: Activation)

  datatype Attempt = Attempt(activation: Activation, runtimeFailed: bool)

  function ManifestOf(m: Managed): Manifest { m.package.manifest }

  /** An attempt to start a package that has its own adapter succeeds. */
  ghost predicate Revives(m: Managed, ds: Decisions, fate: Fate) { Startable(ManifestOf(m), ds, m.adapter.Some?, fate) }

  /** The attempt succeeds, and leaves the package active or with a first result owed. */
  ghost predicate ComesUp(m: Managed, ds: Decisions, fate: Fate, room: bool) {
    Revives(m, ds, fate) && (Launched(room, fate).Active? || (ManifestOf(m).wasm && fate.owes))
  }

  function ReportOn(m: Managed, a: Activation): Report { Report(ManifestOf(m).id, ManifestOf(m).version, a) }

  /** A package ready to be installed under `id`: not native, and with an adapter exactly if it is a component. */
  predicate Prepared(m: Managed, id: Id) {
    && ManifestOf(m).id == id
    && !ManifestOf(m).native
    && (m.adapter.Some? <==> ManifestOf(m).wasm)
    && (m.adapter.Some? ==> m.adapter.value.extension == id)
  }

  /** Authority carries over only between packages verified to have the same signer. */
  predicate SignerContinuity(previous: Package, next: Package) {
    previous.signer.Some? && previous.signer == next.signer
  }

  // ---- Permission snapshots ----

  function Names(rs: seq<Request>): set<Permission> { set r | r in rs :: r.permission }

  function Required(rs: seq<Request>): seq<Request> {
    if rs == [] then [] else (if rs[0].required then [rs[0]] else []) + Required(rs[1..])
  }

  function PermissionsOf(c: seq<Decided>): set<Permission> { set d | d in c :: d.permission }

  /** The observed decision of each permission asked for, each taken once. */
  function Captured(ds: Decisions, rs: seq<Request>): seq<Decided> {
    if rs == [] then []
    else
      var n := |rs| - 1;
      var c := Captured(ds, rs[..n]);
      if rs[n].permission in PermissionsOf(c) then c else c + [Decided(rs[n].permission, Observed(ds, rs[n].permission))]
  }

  function Restored(c: seq<Decided>): Decisions {
    if c == [] then map[] else var n := |c| - 1; Restored(c[..n])[c[n].permission := c[n].decision]
  }

  lemma {:induction false} CapturedObserves(ds: Decisions, rs: seq<Request>)
    ensures PermissionsOf(Captured(ds, rs)) == Names(rs)
    ensures forall d :: d in Captured(ds, rs) ==> d.decision == Observed(ds, d.permission)
  {
    if rs != [] {
      var n := |rs| - 1;
      var c := Captured(ds, rs[..n]);
      CapturedObserves(ds, rs[..n]);
      assert rs == rs[..n] + [rs[n]];
      assert Names(rs) == Names(rs[..n]) + {rs[n].permission};
      var next := Decided(rs[n].permission, Observed(ds, rs[n].permission));
      assert PermissionsOf(c + [next]) == PermissionsOf(c) + {rs[n].permission};
    }
  }

  lemma {:induction false} RestoredObserves(c: seq<Decided>, ds: Decisions)
    requires forall d :: d in c ==> d.decision == Observed(ds, d.permission)
    ensures Restored(c).Keys == PermissionsOf(c)
    ensures forall p :: p in Restored(c) ==> Restored(c)[p] == Observed(ds, p)
  {
    if c != [] {
      var n := |c| - 1;
      assert c == c[..n] + [c[n]];
      RestoredObserves(c[..n], ds);
      assert PermissionsOf(c) == PermissionsOf(c[..n]) + {c[n].permission};
    }
  }

  /** Restoring a snapshot brings back every captured decision and leaves the rest undecided. */
  lemma SnapshotRestores(ds: Decisions, rs: seq<Request>)
    ensures var back := Restored(Captured(ds, rs));
            forall p :: Observed(back, p) == if p in Names(rs) then Observed(ds, p) else Undecided
  {
    CapturedObserves(ds, rs);
    RestoredObserves(Captured(ds, rs), ds);
  }

  lemma SnapshotAgrees(ds: Decisions, rs: seq<Request>)
    ensures SameDecisions(Restored(Captured(ds, rs)), ds, Names(rs)) && SameDecisions(ds, ds, Names(rs))
  {
    SnapshotRestores(ds, rs);
  }

  function DecidedAll(ds: Decisions, rs: seq<Request>, d: Decision): Decisions {
    if rs == [] then ds else var n := |rs| - 1; DecidedAll(ds, rs[..n], d)[rs[n].permission := d]
  }

  lemma {:induction false} DecidedAllDecides(ds: Decisions, rs: seq<Request>, d: Decision)
    ensures forall p :: Observed(DecidedAll(ds, rs, d), p) == if p in Names(rs) then d else Observed(ds, p)
  {
    if rs != [] {
      var n := |rs| - 1;
      assert rs == rs[..n] + [rs[n]];
      DecidedAllDecides(ds, rs[..n], d);
      assert Names(rs) == Names(rs[..n]) + {rs[n].permission};
    }
  }

  /** Decisions on which two records agree, permission by permission. */
  ghost predicate SameDecisions(a: Decisions, b: Decisions, names: set<Permission>) {
    forall p :: p in names ==> Observed(a, p) == Observed(b, p)
  }

  /** Some request asks for the permission as a required one. */
  ghost predicate Needs(rs: seq<Request>, p: Permission) { exists r :: r in rs && r.required && r.permission == p }

  /** The required requests, and the permissions they ask for. */
  lemma {:induction false} RequiredAre(rs: seq<Request>)
    ensures forall r :: r in Required(rs) <==> r in rs && r.required
    ensures forall p :: p in Names(Required(rs)) <==> Needs(rs, p)
  {
    if rs != [] {
      RequiredAre(rs[1..]);
      assert rs == [rs[0]] + rs[1..];
    }
    assert forall r :: r in Required(rs) <==> r in rs && r.required;
  }

  ghost predicate GrantsExactly(ds: Decisions, rs: seq<Request>) {
    forall p :: Observed(ds, p) == Granted <==> Needs(rs, p)
  }

  /** What is asked for as required is decided anew, and nothing else. */
  ghost predicate DecidesNeeded(before: Decisions, after: Decisions, rs: seq<Request>, d: Decision) {
    forall p :: Observed(after, p) == if Needs(rs, p) then d else Observed(before, p)
  }

  lemma RequiredAreDecided(ds: Decisions, rs: seq<Request>, d: Decision)
    ensures DecidesNeeded(ds, DecidedAll(ds, Required(rs), d), rs, d)
  {
    RequiredAre(rs);
    DecidedAllDecides(ds, Required(rs), d);
  }

  method CapturePermissionSnapshot(host: ExtensionHost, id: Id, rs: seq<Request>) returns (c: seq<Decided>)
    ensures c == Captured(host.DecisionsOf(id), rs)
  {
    c := [];
    for i := 0 to |rs|
      invariant c == Captured(host.DecisionsOf(id), rs[..i])
    {
      assert rs[..i + 1][..i] == rs[..i];
      var p := rs[i].permission;
      if p !in PermissionsOf(c) {
        c := c + [Decided(p, Observed(host.DecisionsOf(id), p))];
      }
    }
    assert rs[..|rs|] == rs;
  }

  method RestorePermissionSnapshot(host: ExtensionHost, id: Id, c: seq<Decided>)
    modifies host`decisions
    ensures host.DecisionsOf(id) == Restored(c)
    ensures host.decisions - {id} == old(host.decisions) - {id}
  {
    host.ClearPermissionDecisions(id);
    for i := 0 to |c|
      invariant host.DecisionsOf(id) == Restored(c[..i])
      invariant host.decisions - {id} == old(host.decisions) - {id}
    {
      assert c[..i + 1][..i] == c[..i];
      host.SetPermissionDecision(id, c[i].permission, c[i].decision);
    }
    assert c[..|c|] == c;
  }

  method DecideAll(host: ExtensionHost, id: Id, rs: seq<Request>, d: Decision)
    modifies host`decisions
    ensures host.DecisionsOf(id) == DecidedAll(old(host.DecisionsOf(id)), rs, d)
    ensures host.decisions - {id} == old(host.decisions) - {id}
  {
    for i := 0 to |rs|
      invariant host.DecisionsOf(id) == DecidedAll(old(host.DecisionsOf(id)), rs[..i], d)
      invariant host.decisions - {id} == old(host.decisions) - {id}
    {
      assert rs[..i + 1][..i] == rs[..i];
      host.SetPermissionDecision(id, rs[i].permission, d);
    }
    assert rs[..|rs|] == rs;
  }

  // ---- Host steps in sequence ----

  lemma DemotedThen(a: map<Id, HostRecord>, b: map<Id, HostRecord>, c: map<Id, HostRecord>, id: Id)
    requires Demoted(a, b, id) && Demoted(b, c, id)
    ensures Demoted(a, c, id)
  {
  }

  /** Starts, stops or leaves an extension so that it is again what it was before an upgrade was tried. */
  method RestoreLifecycle(host: ExtensionHost, id: Id, lifecycle: Lifecycle) returns (r: Option<Error>)
    requires host.Valid() && id in host.records && (host.records[id].state.Validated? || host.records[id].state.Disabled?)
    modifies host`records, host`work
    ensures host.Valid() && Demoted(old(host.records), host.records, id)
    ensures host.records[id].manifest == old(host.records)[id].manifest
    ensures lifecycle.Active? ==>
              && (r.None? <==> old(host.Starts(id)))
              && (r.None? ==> Started(host.records[id].state, host.room))
              && host.work.attempts == old(host.work).attempts + 1
    ensures lifecycle.Disabled? ==> r.None? && host.records[id].state.Disabled?
    ensures lifecycle.Validated? ==> r.None? && unchanged(host)
    ensures lifecycle.Suspended? ==> r == Some(UpgradeWhileSuspended) && unchanged(host)
    ensures lifecycle.Failed? ==>
              && (r.None? <==> old(host.Starts(id) || host.Breaks(id)))
              && (r.None? ==> host.records[id].state == if old(host.Starts(id)) then Disabled else Failed)
    ensures !lifecycle.Active? ==> !host.records[id].state.Active?
  {
    r := None;
    match lifecycle
    case Active =>
      var failed := host.Activate(id);
      if failed.Some? {
        return Some(Host(failed.value));
      }
    case Suspended => return Some(UpgradeWhileSuspended);
    case Disabled => var _ := host.Unload(id);
    case Validated => {}
    case Failed =>
      var failed := host.Activate(id);
      if failed.None? {
        ghost var running := host.records;
        var _ := host.Unload(id);
        DemotedThen(old(host.records), running, host.records, id);
      } else if !host.records[id].state.Failed? {
        return Some(Host(failed.value));
      }
    case _ => var _ := host.Unload(id);
  }

  // ---- The manager ----

  /** What an upgrade found before it touched anything. */
  datatype PreCommit = PreCommit(managed: Managed, lifecycle: Lifecycle, decisions: Decisions, candidate: Manifest)

  /** The decisions a candidate is committed with. */
  function Authority(p: PendingUpgrade, ds: Decisions): Decisions {
    DecidedAll(if p.resetAuthority then map[] else ds, p.toApprove, Granted)
  }

  /**
    The candidate is one the host takes, in place of a package that is not suspended; and if that package was active,
    the candidate comes up.
  */
  ghost predicate Upholds(p: PendingUpgrade, found: PreCommit, fate: Fate, room: bool) {
    && ManifestOf(p.candidate).acceptable && !found.lifecycle.Suspended?
    && (found.lifecycle.Active? ==> ComesUp(p.candidate, Authority(p, found.decisions), fate, room))
  }

  function AskedBy(previous: Manifest, next: Manifest): seq<Request> { previous.permissions + next.permissions }

  /** The host's record and adapter for `id` are the ones of the managed package. */
  ghost predicate LinkedAt(m: Managed, records: map<Id, HostRecord>, adapters: map<Id, Adapter>, id: Id) {
    && Prepared(m, id) && ManifestOf(m).acceptable
    && id in records && records[id].manifest == ManifestOf(m)
    && (if id in adapters then Some(adapters[id]) else None) == m.adapter
  }

  /** Packages, host records and registered adapters name the same manifests and adapters. */
  ghost predicate Linked(packages: map<Id, Managed>, records: map<Id, HostRecord>, adapters: map<Id, Adapter>) {
    && adapters.Keys <= records.Keys
    && forall id :: id in packages ==> LinkedAt(packages[id], records, adapters, id)
  }

  /** Changing one package and its host side leaves the others linked. */
  lemma LinkedElsewhere(packages: map<Id, Managed>, records: map<Id, HostRecord>, adapters: map<Id, Adapter>,
                        packages': map<Id, Managed>, records': map<Id, HostRecord>, adapters': map<Id, Adapter>, id: Id)
    requires Linked(packages, records, adapters)
    requires packages' - {id} == packages - {id} && adapters' - {id} == adapters - {id}
    requires Demoted(records - {id}, records' - {id}, id)
    requires id in packages' ==> LinkedAt(packages'[id], records', adapters', id)
    requires id in adapters' ==> id in records'
    ensures Linked(packages', records', adapters')
  {
    forall k | k in packages' && k != id ensures LinkedAt(packages'[k], records', adapters', k) {
      assert k in packages' - {id} && k in packages - {id};
      assert LinkedAt(packages[k], records, adapters, k);
      assert k in records - {id} && k in records' - {id};
      assert k in adapters' <==> k in adapters' - {id};
      assert k in adapters <==> k in adapters - {id};
    }
    forall k | k in adapters' && k != id ensures k in records' {
      assert k in adapters' - {id} && k in adapters - {id};
      assert k in records - {id} && k in records' - {id};
    }
  }

  lemma DemotedPut(before: map<Id, HostRecord>, after: map<Id, HostRecord>, id: Id, record: HostRecord)
    requires Demoted(before, after, id) && id in before
    ensures Demoted(before, after[id := record], id)
  {
  }

  lemma DemotedElsewhere(before: map<Id, HostRecord>, after: map<Id, HostRecord>, id: Id)
    requires Demoted(before, after, id)
    ensures Demoted(before - {id}, after - {id}, id)
  {
  }

  ghost predicate Staged(packages: map<Id, Managed>, pending: map<Id, PendingUpgrade>) {
    && pending.Keys <= packages.Keys
    && forall id :: id in pending ==>
         && Prepared(pending[id].candidate, id)
         && (pending[id].resetAuthority ==> pending[id].toApprove == Required(ManifestOf(pending[id].candidate).permissions))
  }

  /** A provisional upgrade remembers exactly what its commit found. */
  ghost predicate Tracked(packages: map<Id, Managed>, activating: map<Id, ActivatingUpgrade>, before: map<Id, PreCommit>) {
    && activating.Keys <= packages.Keys
    && forall id :: id in activating ==>
         && id in before && before[id].lifecycle.Active?
         && Prepared(before[id].managed, id) && ManifestOf(before[id].managed).acceptable
         && activating[id] == ActivatingUpgrade(before[id].managed, Active,
              Captured(before[id].decisions, AskedBy(ManifestOf(before[id].managed), before[id].candidate)))
  }

  function ActiveIds(packages: map<Id, Managed>, records: map<Id, HostRecord>): set<Id> {
    set id | id in packages && id in records && records[id].state.Active?
  }

  /** Everything about packages that the manager and its host agree on. */
  datatype View = View(packages: map<Id, Managed>, records: map<Id, HostRecord>, adapters: map<Id, Adapter>,
                       decisions: map<Id, Decisions>)

  /** Package, record, adapter and decisions of `id` are as found, up to the lifecycle. */
  ghost predicate Stands(v: View, id: Id, found: PreCommit) {
    && id in v.packages && v.packages[id] == found.managed
    && id in v.records && v.records[id].manifest == ManifestOf(found.managed)
    && (if id in v.adapters then Some(v.adapters[id]) else None) == found.managed.adapter
    && SameDecisions(if id in v.decisions then v.decisions[id] else map[], found.decisions,
                     Names(AskedBy(ManifestOf(found.managed), found.candidate)))
  }

  ghost predicate Reinstated(host: ExtensionHost, packages: map<Id, Managed>, id: Id, found: PreCommit)
    reads host
  {
    Stands(View(packages, host.records, host.adapters, host.decisions), id, found)
  }

  predicate IsRunning(s: Lifecycle) { s.Active? || s.Suspended? }

  /** Outside `ids` nothing changes, except that active extensions may have been suspended. */
  ghost predicate Changed(a: View, b: View, ids: set<Id>) {
    && (forall k :: k !in ids ==> 
          (k in b.packages <==> k in a.packages) && (k in a.packages ==> b.packages[k] == a.packages[k]))
    && (forall k :: k !in ids ==> 
          (k in b.adapters <==> k in a.adapters) && (k in a.adapters ==> b.adapters[k] == a.adapters[k]))
    && (forall k :: k !in ids ==>
          (k in b.decisions <==> k in a.decisions) && (k in a.decisions ==> b.decisions[k] == a.decisions[k]))
    && (forall k :: k !in ids && k in a.records ==>
          && k in b.records && b.records[k].manifest == a.records[k].manifest
          && (b.records[k].state == a.records[k].state || (a.records[k].state.Active? && b.records[k].state.Suspended?)))
  }

  /** A settled upgrade stands, or everything is as its commit found it. It is active, unless `disturbed`. */
  ghost predicate SettledAs(v: View, id: Id, found: PreCommit, was: Managed, r: Result<Report, Error>, disturbed: bool) {
    && id in v.records
    && match r
       case Ok(_) => id in v.packages && v.packages[id] == was && Started(v.records[id].state, !disturbed)
       case Err(e) =>
         && Stands(v, id, found)
         && (e.UpgradeActivationFailed? || e.UpgradeRollbackFailed?)
         && (e.UpgradeActivationFailed? ==> Started(v.records[id].state, !disturbed))
  }

  /** The upgrades that were taken back. */
  function TakenBack(results: map<Id, Result<Report, Error>>): set<Id> { set id | id in results && results[id].Err? }

  /** Taking an upgrade back may suspend others that need its capabilities; so may a full event queue. */
  ghost predicate Disturbed(results: map<Id, Result<Report, Error>>, id: Id, room: bool) {
    !room || TakenBack(results) - {id} != {}
  }

  /** Active again, or disabled again. Only a host whose event queue is full may have suspended it at once. */
  ghost predicate BackTo(state: Lifecycle, lifecycle: Lifecycle, room: bool) {
    && (lifecycle.Active? ==> Started(state, room))
    && (lifecycle.Disabled? ==> state.Disabled?)
  }

  /** The upgrades in `results` are settled; otherwise only activity may have been lost. */
  ghost predicate SettledFrom(start: View, v: View, before: map<Id, PreCommit>, results: map<Id, Result<Report, Error>>,
                              room: bool) {
    && v.packages.Keys == start.packages.Keys && Changed(start, v, results.Keys)
    && ActiveIds(v.packages, v.records) <= ActiveIds(start.packages, start.records) + TakenBack(results)
    && forall id :: id in results ==>
         && id in before && id in start.packages
         && SettledAs(v, id, before[id], start.packages[id], results[id], Disturbed(results, id, room))
  }

  // ---- Limits ----

  function Sizes(packages: map<Id, Managed>): map<Id, nat> {
    map id | id in packages :: packages[id].package.componentBytes
  }

  function PendingSizes(pending: map<Id, PendingUpgrade>): map<Id, nat> {
    map id | id in pending :: pending[id].candidate.package.componentBytes
  }

  /** Component bytes of everything managed and everything waiting for approval. */
  ghost function Bytes(packages: map<Id, Managed>, pending: map<Id, PendingUpgrade>): nat {
    Sum(Sizes(packages)) + Sum(PendingSizes(pending))
  }

  /** Room for a candidate beside the package it would replace, and instead of an earlier candidate. */
  ghost predicate Fits(packages: map<Id, Managed>, pending: map<Id, PendingUpgrade>, id: Id, bytes: nat) {
    Bytes(packages, pending - {id}) + bytes <= MAX_COMPONENT_BYTES
  }

  lemma SizesOf(packages: map<Id, Managed>, id: Id, m: Managed)
    ensures Sizes(packages[id := m]) == Sizes(packages)[id := m.package.componentBytes]
    ensures Sizes(packages - {id}) == Sizes(packages) - {id}
  {
  }

  lemma PendingSizesOf(pending: map<Id, PendingUpgrade>, id: Id, p: PendingUpgrade)
    ensures PendingSizes(pending[id := p]) == PendingSizes(pending)[id := p.candidate.package.componentBytes]
    ensures PendingSizes(pending - {id}) == PendingSizes(pending) - {id}
  {
  }

  /** A candidate that fits may be staged, or put in place, without exceeding the byte limit. */
  lemma FittingKeepsLimit(packages: map<Id, Managed>, pending: map<Id, PendingUpgrade>, id: Id, p: PendingUpgrade)
    requires Fits(packages, pending, id, p.candidate.package.componentBytes)
    ensures Bytes(packages, pending[id := p]) <= MAX_COMPONENT_BYTES
    ensures Bytes(packages[id := p.candidate], pending - {id}) <= MAX_COMPONENT_BYTES
    ensures Bytes(packages, pending - {id}) <= MAX_COMPONENT_BYTES
  {
    SizesOf(packages, id, p.candidate);
    PendingSizesOf(pending, id, p);
    SumPut(Sizes(packages), id, p.candidate.package.componentBytes);
    SumPut(PendingSizes(pending), id, p.candidate.package.componentBytes);
  }

  /** Within the limit, every staged candidate fits. */
  lemma StagedFits(packages: map<Id, Managed>, pending: map<Id, PendingUpgrade>, id: Id)
    requires id in pending && Bytes(packages, pending) <= MAX_COMPONENT_BYTES
    ensures Fits(packages, pending, id, pending[id].candidate.package.componentBytes)
  {
    PendingSizesOf(pending, id, pending[id]);
    SumRemove(PendingSizes(pending), id);
  }

  lemma DroppingFits(packages: map<Id, Managed>, pending: map<Id, PendingUpgrade>, id: Id)
    ensures Bytes(packages, pending - {id}) <= Bytes(packages, pending)
    ensures Bytes(packages - {id}, pending - {id}) <= Bytes(packages, pending)
  {
    if id in packages {
      SizesOf(packages, id, packages[id]);
      SumRemove(Sizes(packages), id);
    } else {
      assert packages - {id} == packages;
    }
    if id in pending {
      PendingSizesOf(pending, id, pending[id]);
      SumRemove(PendingSizes(pending), id);
    } else {
      assert pending - {id} == pending;
    }
  }

  ghost predicate Limited(packages: map<Id, Managed>, pending: map<Id, PendingUpgrade>, records: map<Id, HostRecord>) {
    && |packages| <= MAX_INSTALLED
    && |ActiveIds(packages, records)| <= MAX_ACTIVE
    && Bytes(packages, pending) <= MAX_COMPONENT_BYTES
  }

  // ---- Review ----

  datatype Preview = Preview(extension: Id, version: string, publisherVerified: bool, required: seq<Request>,
                             isUpgrade: bool, contentHash: string)

  function PreviewOf(p: Package, isUpgrade: bool): Preview {
    Preview(p.manifest.id, p.manifest.version, p.signer.Some?, Required(p.manifest.permissions), isUpgrade, p.contentHash)
  }

  /** A preview tells what a package is, down to its content. */
  ghost predicate Describes(v: Preview, p: Package, isUpgrade: bool) {
    && v.extension == p.manifest.id && v.version == p.manifest.version && v.contentHash == p.contentHash
    && v.publisherVerified == p.signer.Some? && v.isUpgrade == isUpgrade && v.required == Required(p.manifest.permissions)
  }

  lemma PreviewDescribes(v: Preview, p: Package, isUpgrade: bool)
    ensures v == PreviewOf(p, isUpgrade) <==> Describes(v, p, isUpgrade)
  {
    hide Required;
  }

  /** The required permissions the user has not granted. */
  function Ungranted(rs: seq<Request>, ds: Decisions): seq<Request> {
    if rs == [] then []
    else (if rs[0].required && Observed(ds, rs[0].permission) != Granted then [rs[0]] else []) + Ungranted(rs[1..], ds)
  }

  /** What the user must approve again: everything required, unless the signer is verified to be the same. */
  function ToApprove(previous: Package, next: Package, ds: Decisions): seq<Request> {
    if SignerContinuity(previous, next) then Ungranted(next.manifest.permissions, ds)
    else Required(next.manifest.permissions)
  }

  lemma {:induction false} UngrantedAreMissing(rs: seq<Request>, ds: Decisions)
    ensures forall r :: r in Ungranted(rs, ds) <==> r in rs && r.required && Observed(ds, r.permission) != Granted
    ensures Ungranted(rs, ds) == [] <==> AllRequiredGranted(rs, ds)
  {
    if rs != [] {
      UngrantedAreMissing(rs[1..], ds);
      assert rs == [rs[0]] + rs[1..];
      if Ungranted(rs, ds) == [] {
        forall i | 0 <= i < |rs| && rs[i].required ensures Observed(ds, rs[i].permission) == Granted {
          assert rs[i] in rs && rs[i] !in Ungranted(rs, ds);
        }
      } else {
        var r := Ungranted(rs, ds)[0];
        assert r in Ungranted(rs, ds) && r in rs;
      }
    }
  }

  /** Resetting authority leaves exactly the approved required permissions granted. */
  lemma ResetGrantsRequired(rs: seq<Request>)
    ensures GrantsExactly(DecidedAll(map[], Required(rs), Granted), rs)
  {
    RequiredAreDecided(map[], rs, Granted);
  }

  /** Every required permission is approved now, or granted already. */
  ghost predicate Covers(rs: seq<Request>, approved: seq<Request>, ds: Decisions) {
    forall i :: 0 <= i < |rs| && rs[i].required ==>
      rs[i].permission in Names(approved) || Observed(ds, rs[i].permission) == Granted
  }

  lemma ApprovalGrants(rs: seq<Request>, approved: seq<Request>, ds: Decisions)
    ensures AllRequiredGranted(rs, DecidedAll(ds, approved, Granted)) <==> Covers(rs, approved, ds)
  {
    DecidedAllDecides(ds, approved, Granted);
  }

  /** No required permission that was granted when the upgrade was proposed has been taken back since. */
  ghost predicate NoneRevoked(rs: seq<Request>, asked: Decisions, ds: Decisions) {
    forall i :: 0 <= i < |rs| && rs[i].required && Observed(asked, rs[i].permission) == Granted ==>
      Observed(ds, rs[i].permission) == Granted
  }

  /**
    With the same signer only what was missing is put up for approval. Approving it leaves every required permission
    granted exactly if none of those granted then was revoked while the upgrade waited.
  */
  lemma ContinuityGrantsRequired(rs: seq<Request>, asked: Decisions, ds: Decisions)
    ensures Covers(rs, Ungranted(rs, asked), ds) <==> NoneRevoked(rs, asked, ds)
    ensures AllRequiredGranted(rs, DecidedAll(ds, Ungranted(rs, asked), Granted)) <==> NoneRevoked(rs, asked, ds)
  {
    hide AllRequiredGranted, DecidedAll;
    var missing := Ungranted(rs, asked);
    UngrantedAreMissing(rs, asked);
    ApprovalGrants(rs, missing, ds);
    forall i | 0 <= i < |rs| && rs[i].required
      ensures rs[i].permission in Names(missing) <==> Observed(asked, rs[i].permission) != Granted
    {
      assert rs[i] in rs;
      if rs[i].permission in Names(missing) {
        var r :| r in missing && r.permission == rs[i].permission;
      } else {
        assert rs[i] !in missing;
      }
    }
  }

  lemma NeededAreGranted(before: Decisions, after: Decisions, rs: seq<Request>)
    requires DecidesNeeded(before, after, rs, Granted)
    ensures AllRequiredGranted(rs, after)
  {
    forall i | 0 <= i < |rs| && rs[i].required ensures Observed(after, rs[i].permission) == Granted {
      assert rs[i] in rs && Needs(rs, rs[i].permission);
    }
  }

  /** What a commit decides: the approved permissions are granted; the others stay, or are undecided after a reset. */
  lemma AuthorityMeans(p: PendingUpgrade, ds: Decisions)
    ensures forall q :: Observed(Authority(p, ds), q) ==
                        if q in Names(p.toApprove) then Granted else if p.resetAuthority then Undecided else Observed(ds, q)
  {
    DecidedAllDecides(if p.resetAuthority then map[] else ds, p.toApprove, Granted);
  }

  /** Two packages signed by the same key of the same identity. */
  ghost predicate SameSigner(a: Package, b: Package) {
    && a.signer.Some? && b.signer.Some?
    && a.signer.value.keyId == b.signer.value.keyId && a.signer.value.identity == b.signer.value.identity
  }

  /** An upgrade by the same signer is to be approved for what is required and not granted, another for all it requires. */
  lemma ToApproveMeans(previous: Package, next: Package, ds: Decisions)
    ensures SignerContinuity(previous, next) <==> SameSigner(previous, next)
    ensures forall r :: r in ToApprove(previous, next, ds) <==>
              && r in next.manifest.permissions && r.required
              && (SameSigner(previous, next) ==> Observed(ds, r.permission) != Granted)
  {
    RequiredAre(next.manifest.permissions);
    UngrantedAreMissing(next.manifest.permissions, ds);
  }

  class InstallableExtensionManager {
    var packages: map<Id, Managed>
    var pending: map<Id, PendingUpgrade>
    var activating: map<Id, ActivatingUpgrade>
    /** What the commit of each provisional upgrade found. */
    ghost var before: map<Id, PreCommit>
    /** What each commit that ended provisional found, in order. */
    ghost var history: seq<PreCommit>

    ghost predicate Valid(host: ExtensionHost)
      reads this, host
    {
      && host.Valid()
      && Linked(packages, host.records, host.adapters)
      && Staged(packages, pending)
      && Tracked(packages, activating, before)
    }

    constructor (host: ExtensionHost)
      requires host.Valid() && host.adapters.Keys <= host.records.Keys
      ensures Valid(host) && packages == map[] && pending == map[] && activating == map[]
    {
      packages, pending, activating, before, history := map[], map[], map[], map[], [];
    }

    ghost function ViewOf(host: ExtensionHost): View
      reads this, host
    {
      View(packages, host.records, host.adapters, host.decisions)
    }

    /** Other extensions keep their packages, adapters and decisions; at most they are suspended. */
    twostate predicate OnlyTouches(host: ExtensionHost, id: Id)
      reads this, host
    {
      && packages - {id} == old(packages) - {id}
      && pending - {id} == old(pending) - {id}
      && activating - {id} == old(activating) - {id} && before - {id} == old(before) - {id}
      && host.adapters - {id} == old(host.adapters) - {id}
      && host.decisions - {id} == old(host.decisions) - {id}
      && Demoted(old(host.records) - {id}, host.records - {id}, id)
    }

    /** How a commit for a managed package may end, given what it found. */
    twostate predicate CommitOutcome(host: ExtensionHost, p: PendingUpgrade, found: PreCommit, new r: Result<Report, Error>)
      reads this, host
    {
      var id := ManifestOf(p.candidate).id;
      var fate := host.fates(old(host.work).attempts);
      && id in host.records
      && (r.Ok? ==> Upholds(p, found, fate, host.room))
      && (var spare := found.lifecycle.Active? ==> |ActiveIds(old(packages), old(host.records)) - {id}| < MAX_ACTIVE;
          Upholds(p, found, fate, host.room) && spare ==> r.Ok?)
      && match r
      case Err(e) =>
        && Reinstated(host, packages, id, found)
        && packages == old(packages) && (pending == old(pending) || pending == old(pending) - {id})
        && activating == old(activating) && before == old(before) && history == old(history)
        && (!e.UpgradeRollbackFailed? && !found.lifecycle.Suspended? ==>
              BackTo(host.records[id].state, found.lifecycle, host.room))
        && (!found.lifecycle.Active? ==> !host.records[id].state.Active?)
        && (found.lifecycle.Active? ==>
              (e.UpgradeRollbackFailed? <==>
                 !(host.work.attempts > 0
                   && Revives(found.managed, host.DecisionsOf(id), host.fates(host.work.attempts - 1)))))
        && (found.lifecycle.Suspended? <==> e.UpgradeWhileSuspended?)
        && (found.lifecycle.Suspended? ==> unchanged(this) && unchanged(host))
        && (e == UpgradeActivationFailed(LimitReached) ==>
              |ActiveIds(packages, old(host.records)) - {id}| >= MAX_ACTIVE)
      case Ok(report) =>
        && !found.lifecycle.Suspended?
        && packages == old(packages)[id := p.candidate] && pending == old(pending) - {id}
        && host.DecisionsOf(id) == Authority(p, found.decisions)
        && report == ReportOn(p.candidate, report.activation)
        && (report.activation.Activating? <==>
              found.lifecycle.Active? && ManifestOf(p.candidate).wasm && fate.owes)
        && (!found.lifecycle.Active? ==> host.records[id].state.Disabled?)
        && (found.lifecycle.Active? && !report.activation.Activating? ==> host.records[id].state.Active?)
        && (if report.activation.Activating?
            then && found.lifecycle.Active? && id in activating
                 && before == old(before)[id := found] && history == old(history) + [found]
            else activating == old(activating) && before == old(before) && history == old(history))
    }

    /** Only a commit of `id` that ends provisional starts tracking an upgrade. */
    twostate predicate Enters(id: Id)
      reads this
    {
      || (activating == old(activating) && before == old(before) && history == old(history))
      || (&& |history| == |old(history)| + 1 && history[..|old(history)|] == old(history)
          && history[|old(history)|].candidate.id == id
          && id in activating && before == old(before)[id := history[|old(history)|]])
    }

    /** The package runs already, or there is room for one more active package and it starts. */
    ghost predicate MayRun(host: ExtensionHost, id: Id)
      requires id in host.records
      reads this, host
    {
      host.records[id].state.Active? || (|ActiveIds(packages, host.records)| < MAX_ACTIVE && host.Starts(id))
    }

    /** Tries to start a managed package within the limit of active packages; one that does not start is unloaded. */
    method ActivationReport(host: ExtensionHost, id: Id) returns (a: Attempt)
      requires host.Valid() && id in packages && id in host.records
      modifies host`records, host`work
      ensures host.Valid() && Demoted(old(host.records), host.records, id)
      ensures host.records[id].manifest == old(host.records)[id].manifest
      ensures a.activation.Running? || a.activation.AwaitingPermissions? || a.activation.Inactive?
      ensures a.activation.Running? <==> old(MayRun(host, id))
      ensures a.activation.Running? ==> Started(host.records[id].state, host.room)
      ensures a.activation.Running? && !old(host.records)[id].state.Active? ==>
                && host.records[id].state == Launched(host.room, host.fates(old(host.work).attempts))
                && (id in host.work.owed <==> host.fates(old(host.work).attempts).owes)
      ensures !a.activation.Running? ==> host.records[id].state.Disabled?
      ensures a.runtimeFailed ==> a.activation.Inactive?
      ensures a.runtimeFailed <==>
                && !old(host.records)[id].state.Active? && |ActiveIds(packages, old(host.records))| < MAX_ACTIVE
                && old(host.Breaks(id))
      ensures host.records[id].state.Active? ==>
                old(host.records)[id].state.Active? || |ActiveIds(packages, old(host.records))| < MAX_ACTIVE
      ensures a.activation == Inactive(LimitReached) ==>
                !old(host.records)[id].state.Active? && |ActiveIds(packages, old(host.records))| >= MAX_ACTIVE
    {
      if host.records[id].state.Active? {
        return Attempt(Running, false);
      }
      if |ActiveIds(packages, host.records)| >= MAX_ACTIVE {
        var _ := host.Unload(id);
        return Attempt(Inactive(LimitReached), false);
      }
      var failed := host.Activate(id);
      if failed.None? {
        return Attempt(Running, false);
      }
      ghost var refused := host.records;
      if failed.value.PermissionsRequired? {
        var _ := host.Unload(id);
        a := Attempt(AwaitingPermissions(failed.value.requests), false);
      } else {
        var runtimeFailed := host.records[id].state.Failed?;
        var _ := host.Unload(id);
        a := Attempt(Inactive(Refused(failed.value)), runtimeFailed);
      }
      DemotedThen(old(host.records), refused, host.records, id);
    }

    /** Takes an upgrade back: the previous package, its adapter, its decisions, its lifecycle. */
    method RollBack(host: ExtensionHost, id: Id, previous: Managed, lifecycle: Lifecycle, snapshot: seq<Decided>)
      returns (r: Option<Error>)
      requires host.Valid() && id in host.records && host.adapters.Keys <= host.records.Keys
      requires Prepared(previous, id) && ManifestOf(previous).acceptable
      modifies this`packages, host`records, host`adapters, host`decisions, host`work
      ensures host.Valid() && Demoted(old(host.records), host.records, id)
      ensures packages == old(packages)[id := previous]
      ensures LinkedAt(previous, host.records, host.adapters, id)
      ensures host.adapters - {id} == old(host.adapters) - {id}
      ensures host.DecisionsOf(id) == Restored(snapshot) && host.decisions - {id} == old(host.decisions) - {id}
      ensures r.None? ==> BackTo(host.records[id].state, lifecycle, host.room)
      ensures lifecycle.Active? ==>
                && (r.None? <==> Revives(previous, Restored(snapshot), host.fates(old(host.work).attempts)))
                && host.work.attempts == old(host.work).attempts + 1
      ensures !lifecycle.Active? ==> !host.records[id].state.Active?
    {
      hide Demoted, Restored, Settled, Prepared, Startable;
      PutBack(host, id, previous);
      packages := packages[id := previous];
      RestorePermissionSnapshot(host, id, snapshot);
      ghost var replaced := host.records;
      r := RestoreLifecycle(host, id, lifecycle);
      DemotedThen(old(host.records), replaced, host.records, id);
    }

    method ActivateReplacement(host: ExtensionHost, id: Id, lifecycle: Lifecycle) returns (a: Attempt)
      requires host.Valid() && id in packages && id in host.records && host.records[id].state.Validated?
      modifies host`records, host`work
      ensures host.Valid() && Demoted(old(host.records), host.records, id)
      ensures host.records[id].manifest == old(host.records)[id].manifest
      ensures a.activation.Running? <==> lifecycle.Active? && old(MayRun(host, id))
      ensures a.activation.Running? ==>
                && host.records[id].state == Launched(host.room, host.fates(old(host.work).attempts))
                && (id in host.work.owed <==> host.fates(old(host.work).attempts).owes)
      ensures a.activation.Running? || a.activation.AwaitingPermissions? || a.activation.Inactive?
      ensures !a.activation.Running? ==> host.records[id].state.Disabled?
      ensures a.runtimeFailed ==> a.activation.Inactive?
      ensures !lifecycle.Active? ==> !a.runtimeFailed && a.activation == Inactive(RemainsDisabled)
      ensures a.activation == Inactive(LimitReached) ==> |ActiveIds(packages, old(host.records))| >= MAX_ACTIVE
    {
      if lifecycle.Active? {
        a := ActivationReport(host, id);
      } else {
        var _ := host.Unload(id);
        a := Attempt(Inactive(RemainsDisabled), false);
      }
    }

    /**
      Replaces a managed package by an approved candidate. The commit either stands, or is provisional while a
      worker still owes its first result, or leaves everything as it found it.
    */
    method CommitUpgrade(host: ExtensionHost, p: PendingUpgrade) returns (r: Result<Report, Error>)
      requires Valid(host) && Prepared(p.candidate, ManifestOf(p.candidate).id)
      modifies this, host`records, host`adapters, host`decisions, host`work
      ensures Valid(host) && OnlyTouches(host, ManifestOf(p.candidate).id) && Enters(ManifestOf(p.candidate).id)
      ensures packages.Keys == old(packages).Keys
      ensures ManifestOf(p.candidate).id !in old(packages) ==>
          r == Err(NotManaged) && unchanged(this) && unchanged(host)
      ensures ManifestOf(p.candidate).id in old(packages) ==>
                && ManifestOf(p.candidate).id in old(host.records)
                && CommitOutcome(host, p, old(Found(host, ManifestOf(p.candidate))), r)
    {
      hide Demoted, Restored, Settled, Prepared, DecidedAll, Captured, Staged, Tracked, Linked, LinkedAt, Names,
           SameDecisions, Observed, ActiveIds, Reinstated, BackTo, ComesUp, Revives, Authority;
      var id := ManifestOf(p.candidate).id;
      if id !in packages {
        DemotedSelf(host.records - {id}, id);
        return Err(NotManaged);
      }
      var previous := packages[id];
      AtId(packages, host.records, host.adapters, id);
      AdapterIsOwn(p.candidate, id);
      var lifecycle := host.records[id].state;
      ghost var found := PreCommit(previous, lifecycle, host.DecisionsOf(id), ManifestOf(p.candidate));
      if lifecycle.Suspended? {
        DemotedSelf(host.records - {id}, id);
        SnapshotAgrees(found.decisions, AskedBy(ManifestOf(previous), ManifestOf(p.candidate)));
        IsReinstated(host, packages, id, found);
        return Err(UpgradeWhileSuspended);
      }
      r := CommitSettled(host, p, found);
    }

    /** The commit of an upgrade for a package that is not suspended. */
    method CommitSettled(host: ExtensionHost, p: PendingUpgrade, ghost found: PreCommit)
        returns (r: Result<Report, Error>)
      requires Valid(host) && Prepared(p.candidate, ManifestOf(p.candidate).id)
      requires ManifestOf(p.candidate).id in packages && ManifestOf(p.candidate).id in host.records
      requires found == Found(host, ManifestOf(p.candidate)) && !found.lifecycle.Suspended?
      modifies this, host`records, host`adapters, host`decisions, host`work
      ensures Valid(host) && OnlyTouches(host, ManifestOf(p.candidate).id)
      ensures packages.Keys == old(packages).Keys
      ensures CommitOutcome(host, p, found, r)
    {
      hide Demoted, Restored, Settled, Prepared, DecidedAll, Captured, Staged, Tracked, Linked, LinkedAt, Names,
           SameDecisions, Observed, ActiveIds, Reinstated, BackTo, Revives, Authority, ComesUp;
      var id := ManifestOf(p.candidate).id;
      var previous, lifecycle := packages[id], host.records[id].state;
      AtId(packages, host.records, host.adapters, id);
      AtIdManifest(previous, host.records, host.adapters, id);
      var snapshot := CapturePermissionSnapshot(host, id, AskedBy(ManifestOf(previous), ManifestOf(p.candidate)));
      r := SwapIn(host, p, previous, lifecycle, snapshot, found);
      SnapshotAgrees(found.decisions, AskedBy(ManifestOf(previous), ManifestOf(p.candidate)));
      Relinked(old(packages), old(host.records), old(host.adapters), packages, host.records, host.adapters, id);
      StagedAfter(old(packages), old(pending), packages, pending, id);
      TrackedStep(old(packages), old(activating), old(before), packages, activating, before, id, found);
      SameKeys(old(host.records), host.records, id);
      if r.Err? {
        IsReinstated(host, packages, id, found);
      }
    }

    /** The swap itself, once the old package, its lifecycle and its decisions are on record. */
    method SwapIn(host: ExtensionHost, p: PendingUpgrade, previous: Managed, lifecycle: Lifecycle,
                  snapshot: seq<Decided>, ghost found: PreCommit) returns (r: Result<Report, Error>)
      requires host.Valid() && host.adapters.Keys <= host.records.Keys && !lifecycle.Suspended?
      requires var id := ManifestOf(p.candidate).id;
               && id in packages && packages[id] == previous
               && id in host.records && host.records[id] == HostRecord(ManifestOf(previous), lifecycle)
               && Prepared(p.candidate, id) && Prepared(previous, id) && ManifestOf(previous).acceptable
      modifies this, host`records, host`adapters, host`decisions, host`work
      ensures host.Valid() && Demoted(old(host.records), host.records, ManifestOf(p.candidate).id)
      ensures pending == old(pending) || pending == old(pending) - {ManifestOf(p.candidate).id}
      ensures host.adapters - {ManifestOf(p.candidate).id} == old(host.adapters) - {ManifestOf(p.candidate).id}
      ensures host.decisions - {ManifestOf(p.candidate).id} == old(host.decisions) - {ManifestOf(p.candidate).id}
      ensures r.Ok? ==>
                var id := ManifestOf(p.candidate).id;
                && packages == old(packages)[id := p.candidate] && pending == old(pending) - {id}
                && LinkedAt(p.candidate, host.records, host.adapters, id) && id in host.records
                && host.DecisionsOf(id) == Authority(p, old(host.DecisionsOf(id)))
                && r.value == ReportOn(p.candidate, r.value.activation)
                && (r.value.activation.Activating? <==>
                      lifecycle.Active? && ManifestOf(p.candidate).wasm && host.fates(old(host.work).attempts).owes)
                && (lifecycle.Active? && !r.value.activation.Activating? ==> host.records[id].state.Active?)
                && (!lifecycle.Active? ==> host.records[id].state.Disabled?)
      ensures r.Err? ==>
                var id := ManifestOf(p.candidate).id;
                && packages == old(packages) && id in host.records
                && LinkedAt(previous, host.records, host.adapters, id)
                && host.DecisionsOf(id) == Restored(snapshot)
                && !r.error.UpgradeWhileSuspended?
                && (!r.error.UpgradeRollbackFailed? ==> BackTo(host.records[id].state, lifecycle, host.room))
                && (lifecycle.Active? ==> (!r.error.UpgradeRollbackFailed? <==> Revived(host, previous, snapshot)))
                && (!lifecycle.Active? ==> !host.records[id].state.Active?)
      ensures var comesUp := ComesUp(p.candidate, Authority(p, old(host.DecisionsOf(ManifestOf(p.candidate).id))),
                                     host.fates(old(host.work).attempts), host.room);
              && (r.Ok? ==> ManifestOf(p.candidate).acceptable && (lifecycle.Active? ==> comesUp))
              && (var spare := |ActiveIds(old(packages), old(host.records)) - {ManifestOf(p.candidate).id}| < MAX_ACTIVE;
                  ManifestOf(p.candidate).acceptable && (lifecycle.Active? ==> comesUp && spare) ==> r.Ok?)
      ensures r.Ok? && r.value.activation.Activating? ==>
                var id := ManifestOf(p.candidate).id;
                && lifecycle.Active? && before == old(before)[id := found] && history == old(history) + [found]
                && activating == old(activating)[id := ActivatingUpgrade(previous, lifecycle, snapshot)]
      ensures !(r.Ok? && r.value.activation.Activating?) ==>
                activating == old(activating) && before == old(before) && history == old(history)
      ensures r == Err(UpgradeActivationFailed(LimitReached)) ==>
                |ActiveIds(old(packages), old(host.records)) - {ManifestOf(p.candidate).id}| >= MAX_ACTIVE
    {
      hide Demoted, Restored, Settled, Prepared, DecidedAll, Captured, Linked, LinkedAt, Names,
           SameDecisions, Observed, ActiveIds, Reinstated, BackTo, ComesUp, Revives, Authority;
      var id := ManifestOf(p.candidate).id;
      ClearTheWay(host, id, p);
      ghost var cleared := host.records;
      SameKeys(old(host.records), cleared, id);
      var failed := host.ReplacePackage(ManifestOf(p.candidate));
      DemotedPut(old(host.records), cleared, id, HostRecord(ManifestOf(p.candidate), Validated));
      ghost var replaced := host.records;
      if failed.Some? {
        var broken := RestoreUnreplaced(host, id, previous, lifecycle, snapshot);
        r := Err(if broken.Some? then UpgradeRollbackFailed(RuntimeFailed) else Host(failed.value));
      } else {
        FewerActive(old(packages), old(packages), old(host.records), replaced, id);
        r := AdoptCandidate(host, p, previous, lifecycle, snapshot, found);
      }
      DemotedThen(old(host.records), replaced, host.records, id);
      SameKeys(old(host.records), host.records, id);
      assert old(packages)[id := previous] == old(packages);
    }

    /** Puts the accepted candidate in place and brings it up. */
    method AdoptCandidate(host: ExtensionHost, p: PendingUpgrade, previous: Managed, lifecycle: Lifecycle,
                          snapshot: seq<Decided>, ghost found: PreCommit) returns (r: Result<Report, Error>)
      requires host.Valid() && host.adapters.Keys <= host.records.Keys && !lifecycle.Suspended?
      requires var id := ManifestOf(p.candidate).id;
               && id in host.records && id !in host.adapters && id in packages
               && host.records[id] == HostRecord(ManifestOf(p.candidate), Validated)
               && Prepared(p.candidate, id) && ManifestOf(p.candidate).acceptable
               && Prepared(previous, id) && ManifestOf(previous).acceptable
      modifies this, host`records, host`adapters, host`decisions, host`work
      ensures host.Valid() && Demoted(old(host.records), host.records, ManifestOf(p.candidate).id)
      ensures pending == old(pending) - {ManifestOf(p.candidate).id}
      ensures host.adapters - {ManifestOf(p.candidate).id} == old(host.adapters) - {ManifestOf(p.candidate).id}
      ensures host.decisions - {ManifestOf(p.candidate).id} == old(host.decisions) - {ManifestOf(p.candidate).id}
      ensures r.Ok? ==>
                var id := ManifestOf(p.candidate).id;
                && packages == old(packages)[id := p.candidate] && host.decisions == old(host.decisions)
                && LinkedAt(p.candidate, host.records, host.adapters, id)
                && r.value == ReportOn(p.candidate, r.value.activation)
                && (r.value.activation.Activating? <==>
                      lifecycle.Active? && ManifestOf(p.candidate).wasm && host.fates(old(host.work).attempts).owes)
                && (lifecycle.Active? && !r.value.activation.Activating? ==> host.records[id].state.Active?)
                && (!lifecycle.Active? ==> host.records[id].state.Disabled?)
      ensures r.Err? ==>
                var id := ManifestOf(p.candidate).id;
                && packages == old(packages)[id := previous]
                && LinkedAt(previous, host.records, host.adapters, id)
                && host.DecisionsOf(id) == Restored(snapshot)
                && (r.error.UpgradeActivationFailed? || r.error.UpgradeRollbackFailed?)
                && (r.error.UpgradeActivationFailed? ==> BackTo(host.records[id].state, lifecycle, host.room))
                && (r.error.UpgradeActivationFailed? <==> Revived(host, previous, snapshot))
      ensures r.Ok? <==>
                (lifecycle.Active? ==>
                   && |ActiveIds(old(packages), old(host.records))| < MAX_ACTIVE
                   && ComesUp(p.candidate, old(host.DecisionsOf(ManifestOf(p.candidate).id)),
                              host.fates(old(host.work).attempts), host.room))
      ensures r.Ok? && r.value.activation.Activating? ==>
                var id := ManifestOf(p.candidate).id;
                && lifecycle.Active? && before == old(before)[id := found] && history == old(history) + [found]
                && activating == old(activating)[id := ActivatingUpgrade(previous, lifecycle, snapshot)]
      ensures !(r.Ok? && r.value.activation.Activating?) ==>
                activating == old(activating) && before == old(before) && history == old(history)
      ensures r == Err(UpgradeActivationFailed(LimitReached)) ==>
          |ActiveIds(old(packages), old(host.records))| >= MAX_ACTIVE
    {
      hide Demoted, Restored, Settled, Prepared, LinkedAt, ActiveIds, BackTo, ComesUp, Revived;
      var id := ManifestOf(p.candidate).id;
      AdapterIsOwn(p.candidate, id);
      RegisterManagedAdapter(host, p.candidate);
      packages := packages[id := p.candidate];
      pending := pending - {id};
      CandidateIsLinked(p.candidate, host.records, host.adapters, id);
      SameActive(old(packages), packages, host.records);
      r := FinishUpgrade(host, id, previous, lifecycle, snapshot, found);
    }

    /** The replacement was refused: the package that is still in place gets its authority, adapter and lifecycle
        back. */
    method RestoreUnreplaced(host: ExtensionHost, id: Id, previous: Managed, lifecycle: Lifecycle, snapshot: seq<Decided>)
      returns (r: Option<Error>)
      requires host.Valid() && id in host.records && host.records[id].state.Disabled?
      requires Prepared(previous, id) && ManifestOf(previous).acceptable
      requires host.records[id].manifest == ManifestOf(previous) && id !in host.adapters
      modifies host`records, host`adapters, host`decisions, host`work
      ensures host.Valid() && Demoted(old(host.records), host.records, id)
      ensures LinkedAt(previous, host.records, host.adapters, id)
      ensures host.adapters - {id} == old(host.adapters) - {id}
      ensures host.DecisionsOf(id) == Restored(snapshot) && host.decisions - {id} == old(host.decisions) - {id}
      ensures r.None? ==> BackTo(host.records[id].state, lifecycle, host.room)
      ensures lifecycle.Active? ==>
                && (r.None? <==> Revives(previous, Restored(snapshot), host.fates(old(host.work).attempts)))
                && host.work.attempts == old(host.work).attempts + 1
      ensures !lifecycle.Active? ==> !host.records[id].state.Active?
    {
      hide Demoted, Restored, Settled, Startable;
      RestorePermissionSnapshot(host, id, snapshot);
      RegisterManagedAdapter(host, previous);
      r := RestoreLifecycle(host, id, lifecycle);
    }

    /** Takes a replacement back that did not come up, for the given reason. */
    method Withdraw(host: ExtensionHost, id: Id, previous: Managed, lifecycle: Lifecycle, snapshot: seq<Decided>,
                    reason: Reason) returns (r: Result<Report, Error>)
      requires host.Valid() && id in host.records && host.adapters.Keys <= host.records.Keys && lifecycle.Active?
      requires Prepared(previous, id) && ManifestOf(previous).acceptable
      modifies this`packages, host`records, host`adapters, host`decisions, host`work
      ensures host.Valid() && Demoted(old(host.records), host.records, id)
      ensures host.adapters - {id} == old(host.adapters) - {id} && host.decisions - {id} == old(host.decisions) - {id}
      ensures packages == old(packages)[id := previous] && LinkedAt(previous, host.records, host.adapters, id)
      ensures host.DecisionsOf(id) == Restored(snapshot)
      ensures r == Err(if Revived(host, previous, snapshot) then UpgradeActivationFailed(reason)
                       else UpgradeRollbackFailed(RuntimeFailed))
      ensures r.error.UpgradeActivationFailed? ==> BackTo(host.records[id].state, lifecycle, host.room)
    {
      hide Demoted, Restored, Settled, Prepared, Revives, LinkedAt;
      var failed := RollBack(host, id, previous, lifecycle, snapshot);
      r := Err(if failed.Some? then UpgradeRollbackFailed(RuntimeFailed) else UpgradeActivationFailed(reason));
    }

    /** The attempt made last, to start the previous package again, succeeded. */
    ghost predicate Revived(host: ExtensionHost, previous: Managed, snapshot: seq<Decided>)
      reads host
    {
      host.work.attempts > 0 && Revives(previous, Restored(snapshot), host.fates(host.work.attempts - 1))
    }

    /** Starts the adopted replacement; an upgrade that does not come up is taken back. */
    method FinishUpgrade(host: ExtensionHost, id: Id, previous: Managed, lifecycle: Lifecycle, snapshot: seq<Decided>,
                         ghost found: PreCommit) returns (r: Result<Report, Error>)
      requires host.Valid() && host.adapters.Keys <= host.records.Keys
      requires id in packages && LinkedAt(packages[id], host.records, host.adapters, id)
      requires host.records[id].state.Validated? && !lifecycle.Suspended?
      requires Prepared(previous, id) && ManifestOf(previous).acceptable
      modifies this`packages, this`activating, this`before, this`history,
               host`records, host`adapters, host`decisions, host`work
      ensures host.Valid() && Demoted(old(host.records), host.records, id)
      ensures host.adapters - {id} == old(host.adapters) - {id} && host.decisions - {id} == old(host.decisions) - {id}
      ensures r.Ok? ==>
                && packages == old(packages) && host.adapters == old(host.adapters) && host.decisions == old(host.decisions)
                && LinkedAt(packages[id], host.records, host.adapters, id)
                && (lifecycle.Active? ==>
                      host.records[id].state.Active?
                      || (r.value.activation.Activating? && Started(host.records[id].state, host.room)))
                && (!lifecycle.Active? ==> host.records[id].state.Disabled?)
                && r.value == ReportOn(packages[id], r.value.activation)
                && (r.value.activation.Activating? <==>
                      lifecycle.Active? && ManifestOf(packages[id]).wasm && host.fates(old(host.work).attempts).owes)
      ensures r.Ok? <==>
                (lifecycle.Active? ==>
                   && |ActiveIds(old(packages), old(host.records))| < MAX_ACTIVE
                   && ComesUp(old(packages)[id], old(host.DecisionsOf(id)), host.fates(old(host.work).attempts), host.room))
      ensures r.Err? ==>
                && packages == old(packages)[id := previous]
                && LinkedAt(previous, host.records, host.adapters, id)
                && host.DecisionsOf(id) == Restored(snapshot)
                && (r.error.UpgradeActivationFailed? || r.error.UpgradeRollbackFailed?)
                && (r.error.UpgradeActivationFailed? ==> BackTo(host.records[id].state, lifecycle, host.room))
                && (r.error.UpgradeActivationFailed? <==> Revived(host, previous, snapshot))
      ensures r.Ok? && r.value.activation.Activating? ==>
                && lifecycle.Active? && before == old(before)[id := found] && history == old(history) + [found]
                && activating == old(activating)[id := ActivatingUpgrade(previous, lifecycle, snapshot)]
      ensures !(r.Ok? && r.value.activation.Activating?) ==>
                activating == old(activating) && before == old(before) && history == old(history)
      ensures r == Err(UpgradeActivationFailed(LimitReached)) ==>
          |ActiveIds(old(packages), old(host.records))| >= MAX_ACTIVE
    {
      hide Demoted, Restored, Settled, Prepared, ActiveIds, Revived, ComesUp, LinkedAt, BackTo;
      ghost var validated := host.records;
      AtIdManifest(packages[id], host.records, host.adapters, id);
      var activation, failed := BringUp(host, id, lifecycle);
      SameKeys(validated, host.records, id);
      LinkedOn(packages[id], validated, host.records, host.adapters, id);
      if failed.Some? {
        ghost var started := host.records;
        r := Withdraw(host, id, previous, lifecycle, snapshot, failed.value);
        DemotedThen(old(host.records), started, host.records, id);
        return;
      }
      if activation.Activating? {
        activating := activating[id := ActivatingUpgrade(previous, lifecycle, snapshot)];
        before := before[id := found];
        history := history + [found];
      }
      r := Ok(ReportOn(packages[id], activation));
    }

    /** Starts the replacement if the old package ran, and says how that ended; a replacement of a stopped one stays
        stopped. */
    method BringUp(host: ExtensionHost, id: Id, lifecycle: Lifecycle)
        returns (activation: Activation, failed: Option<Reason>)
      requires host.Valid() && id in packages && LinkedAt(packages[id], host.records, host.adapters, id)
      requires host.records[id].state.Validated? && !lifecycle.Suspended?
      modifies host`records, host`work
      ensures host.Valid() && Demoted(old(host.records), host.records, id)
      ensures host.records[id].manifest == old(host.records)[id].manifest
      ensures failed.None? <==>
                (lifecycle.Active? ==>
                   && |ActiveIds(packages, old(host.records))| < MAX_ACTIVE
                   && ComesUp(packages[id], host.DecisionsOf(id), host.fates(old(host.work).attempts), host.room))
      ensures failed.None? && lifecycle.Active? ==>
                if activation.Activating? then Started(host.records[id].state, host.room)
                else host.records[id].state.Active?
      ensures !lifecycle.Active? ==> host.records[id].state.Disabled?
      ensures failed.None? ==>
                (activation.Activating? <==>
                   lifecycle.Active? && ManifestOf(packages[id]).wasm && host.fates(old(host.work).attempts).owes)
      ensures failed == Some(LimitReached) ==> |ActiveIds(packages, old(host.records))| >= MAX_ACTIVE
    {
      hide Demoted, Settled, Startable, ActiveIds, Revives;
      StartsAsLinked(host, packages[id], id);
      ghost var fate := host.fates(host.work.attempts);
      var attempt := ActivateReplacement(host, id, lifecycle);
      if lifecycle.Active? {
        var work := host.PendingWork(id);
        if work > 0 {
          return Activating, None;
        }
      }
      activation, failed := attempt.activation, None;
      var restored := match lifecycle
        case Active => host.records[id].state.Active?
        case Disabled => host.records[id].state.Disabled?
        case Suspended => false
        case _ => true;
      if attempt.runtimeFailed || !restored {
        assert attempt.activation.Running? ==>
                 !(ManifestOf(packages[id]).wasm && fate.owes) && !Launched(host.room, fate).Active?;
        failed := Some(match attempt.activation
          case Inactive(reason) => reason
          case AwaitingPermissions(_) => MorePermissions
          case _ => RuntimeFailed);
      }
    }

    lemma StartsAsLinked(host: ExtensionHost, m: Managed, id: Id)
      requires LinkedAt(m, host.records, host.adapters, id)
      ensures id in host.records && host.records[id].manifest == ManifestOf(m)
      ensures Stopped(host.records[id].state) ==>
                (host.Starts(id) <==> Revives(m, host.DecisionsOf(id), host.fates(host.work.attempts)))
    {
      hide Startable;
    }

    // ---- Loading and review ----

    ghost predicate WithinLimits(host: ExtensionHost)
      reads this, host
    {
      Limited(packages, pending, host.records)
    }

    /** A loaded package: with an adapter for its own component, if it has one. */
    function LoadedAs(p: Package): Managed {
      Managed(p, if p.manifest.wasm then Some(Adapter(p.manifest.id, p.contentHash)) else None)
    }

    /** Checks a package before it is compiled; compiling may fail for reasons of its own. */
    method LoadManaged(p: Package, compiles: bool) returns (r: Result<Managed, Error>)
      ensures r.Ok? <==>
                && !p.manifest.native && (p.manifest.wasm ==> compiles)
                && (p.manifest.id in packages || |packages| < MAX_INSTALLED)
                && Fits(packages, pending, p.manifest.id, p.componentBytes)
      ensures r.Ok? ==> Prepared(r.value, p.manifest.id) && r.value == LoadedAs(p)
      ensures r.Err? ==>
                r.error == if p.manifest.native then ExternalNativeEntrypoint
                           else if p.manifest.id !in packages && |packages| >= MAX_INSTALLED then InstalledPackageLimit
                           else if !Fits(packages, pending, p.manifest.id, p.componentBytes) then CompiledComponentBytesLimit
                           else CompilationFailed
    {
      if p.manifest.native {
        return Err(ExternalNativeEntrypoint);
      }
      if p.manifest.id !in packages && |packages| >= MAX_INSTALLED {
        return Err(InstalledPackageLimit);
      }
      var managed := SumValues(Sizes(packages));
      var waiting := SumValues(PendingSizes(pending - {p.manifest.id}));
      if managed + waiting + p.componentBytes > MAX_COMPONENT_BYTES {
        return Err(CompiledComponentBytesLimit);
      }
      if p.manifest.wasm && !compiles {
        return Err(CompilationFailed);
      }
      var adapter := if p.manifest.wasm then Some(Adapter(p.manifest.id, p.contentHash)) else None;
      r := Ok(Managed(p, adapter));
    }

    method PreviewManaged(host: ExtensionHost, m: Managed) returns (r: Result<Preview, Error>)
      requires Valid(host)
      ensures r.Ok? ==> r.value == PreviewOf(m.package, ManifestOf(m).id in packages)
      ensures ManifestOf(m).native ==> r == Err(ExternalNativeEntrypoint)
      ensures r.Ok? <==>
                && !ManifestOf(m).native && ManifestOf(m).licensed
                && (if ManifestOf(m).id in packages
                    then && !host.records[ManifestOf(m).id].state.Suspended?
                         && ManifestOf(packages[ManifestOf(m).id]).publisher == ManifestOf(m).publisher
                    else ManifestOf(m).id !in host.records)
    {
      var id := ManifestOf(m).id;
      if ManifestOf(m).native {
        return Err(ExternalNativeEntrypoint);
      }
      if !ManifestOf(m).licensed {
        return Err(Host(LicenseDenied));
      }
      if id in packages {
        if host.State(id) == Some(Suspended) {
          return Err(UpgradeWhileSuspended);
        }
        if ManifestOf(packages[id]).publisher != ManifestOf(m).publisher {
          return Err(PublisherMismatch);
        }
      } else if host.State(id).Some? {
        return Err(OwnedByHost);
      }
      r := Ok(PreviewOf(m.package, id in packages));
    }

    /** Registers a new package with the host, not yet started. A refusal changes nothing. */
    method InstallInactive(host: ExtensionHost, m: Managed) returns (r: Option<Error>)
      requires Valid(host) && Prepared(m, ManifestOf(m).id)
      modifies this`packages, host`records, host`adapters
      ensures host.Valid()
      ensures r.Some? ==> unchanged(this) && unchanged(host)
      ensures r.None? <==>
                && ManifestOf(m).licensed && |old(packages)| < MAX_INSTALLED
                && ManifestOf(m).id !in old(host.records) && ManifestOf(m).acceptable
      ensures r.None? ==>
                var id := ManifestOf(m).id;
                && id !in old(host.records) && id !in old(packages) && id !in pending && |old(packages)| < MAX_INSTALLED
                && packages == old(packages)[id := m]
                && host.records == old(host.records)[id := HostRecord(ManifestOf(m), Validated)]
                && host.adapters - {id} == old(host.adapters) - {id}
                && LinkedAt(m, host.records, host.adapters, id)
    {
      hide Prepared, Linked, LinkedAt, Staged, Tracked;
      var id := ManifestOf(m).id;
      PreparedIsOwn(m, id);
      if !ManifestOf(m).licensed {
        return Some(Host(LicenseDenied));
      }
      if |packages| >= MAX_INSTALLED {
        return Some(InstalledPackageLimit);
      }
      var failed := host.Install(ManifestOf(m));
      if failed.Some? {
        return Some(Host(failed.value));
      }
      NotLinked(packages, pending, old(host.records), host.adapters, id);
      RegisterManagedAdapter(host, m);
      packages := packages[id := m];
      CandidateIsLinked(m, host.records, host.adapters, id);
      r := None;
    }

    /** A licensed package the host does not know yet and takes, while fewer than the most packages are installed. */
    ghost predicate Installable(host: ExtensionHost, m: Managed)
      reads this, host
    {
      && ManifestOf(m).licensed && ManifestOf(m).acceptable
      && ManifestOf(m).id !in host.records && |packages| < MAX_INSTALLED
    }

    /** A new package: registered with the host, linked, and started if it may be. A refusal changes nothing. */
    method InstallLoaded(host: ExtensionHost, m: Managed) returns (r: Result<Report, Error>)
      requires Valid(host) && Prepared(m, ManifestOf(m).id)
      modifies this`packages, host`records, host`adapters, host`work
      ensures Valid(host) && OnlyTouches(host, ManifestOf(m).id)
      ensures r.Ok? ==>
                && ManifestOf(m).id !in old(host.records) && packages == old(packages)[ManifestOf(m).id := m]
                && ManifestOf(m).id in host.records
                && (host.records[ManifestOf(m).id].state.Disabled? || r.value.activation.Running?)
                && r.value == ReportOn(m, r.value.activation)
                && (r.value.activation.Running? <==>
                      && |ActiveIds(old(packages), old(host.records))| < MAX_ACTIVE
                      && Revives(m, host.DecisionsOf(ManifestOf(m).id), host.fates(old(host.work).attempts)))
      ensures r.Ok? <==> old(Installable(host, m))
      ensures r.Err? ==> unchanged(this) && unchanged(host)
      ensures old(WithinLimits(host)) && Fits(old(packages), old(pending), ManifestOf(m).id, m.package.componentBytes) ==>
                WithinLimits(host)
    {
      hide Demoted, Settled, Prepared, Linked, LinkedAt, Staged, Tracked, Fits, Bytes, ActiveIds, Limited;
      var id := ManifestOf(m).id;
      DemotedSelf(host.records - {id}, id);
      var failed := InstallInactive(host, m);
      if failed.Some? {
        return Err(failed.value);
      }
      ghost var installed := host.records;
      StartsAsLinked(host, m, id);
      FreshIsIdle(old(packages), old(host.records), id, m, HostRecord(ManifestOf(m), Validated));
      var attempt := ActivationReport(host, id);
      InstallKeeps(old(packages), pending, activating, before, old(host.records), old(host.adapters), id, m,
                installed, host.records, host.adapters);
      if old(WithinLimits(host)) && Fits(old(packages), old(pending), id, m.package.componentBytes) {
        FreshWithin(old(packages), pending, old(host.records), id, m, HostRecord(ManifestOf(m), Validated), host.records);
      }
      r := Ok(ReportOn(m, attempt.activation));
    }

    // ---- Upgrades ----

    /** What an upgrade to `m` would put up for approval. */
    function Proposal(host: ExtensionHost, m: Managed): PendingUpgrade
      requires ManifestOf(m).id in packages
      reads this, host
    {
      var previous := packages[ManifestOf(m).id].package;
      PendingUpgrade(m, !SignerContinuity(previous, m.package),
                     ToApprove(previous, m.package, host.DecisionsOf(ManifestOf(m).id)))
    }

    ghost function Found(host: ExtensionHost, candidate: Manifest): PreCommit
      requires candidate.id in packages && candidate.id in host.records
      reads this, host
    {
      PreCommit(packages[candidate.id], host.records[candidate.id].state, host.DecisionsOf(candidate.id), candidate)
    }

    /** A commit of the upgrade may stand now. */
    ghost predicate MayStand(host: ExtensionHost, p: PendingUpgrade)
      requires ManifestOf(p.candidate).id in packages && ManifestOf(p.candidate).id in host.records
      reads this, host
    {
      Upholds(p, Found(host, ManifestOf(p.candidate)), host.fates(host.work.attempts), host.room)
    }

    /** It does stand: it may, and there is room for an active package. */
    ghost predicate MustStand(host: ExtensionHost, p: PendingUpgrade)
      requires ManifestOf(p.candidate).id in packages && ManifestOf(p.candidate).id in host.records
      reads this, host
    {
      && MayStand(host, p)
      && (host.records[ManifestOf(p.candidate).id].state.Active? ==>
            |ActiveIds(packages, host.records) - {ManifestOf(p.candidate).id}| < MAX_ACTIVE)
    }

    predicate Upgradable(host: ExtensionHost, m: Managed)
      reads this, host
    {
      && ManifestOf(m).licensed && ManifestOf(m).id in packages && ManifestOf(m).id in host.records
      && !host.records[ManifestOf(m).id].state.Suspended?
      && ManifestOf(packages[ManifestOf(m).id]).publisher == ManifestOf(m).publisher
    }

    /** The first reason why `m` may not be tried as an upgrade; the publisher is what is left. */
    function UpgradeRefusal(host: ExtensionHost, m: Managed): Error
      reads this, host
    {
      if !ManifestOf(m).licensed then Host(LicenseDenied)
      else if ManifestOf(m).id !in packages then NotManaged
      else if host.State(ManifestOf(m).id) == Some(Suspended) then UpgradeWhileSuspended
      else PublisherMismatch
    }

    /** An upgrade of an active package is never refused for there being too many active ones. */
    twostate lemma ActiveUpgradeIsNotCapped(host: ExtensionHost, p: PendingUpgrade, new r: Result<Report, Error>)
      requires ManifestOf(p.candidate).id in old(packages) && ManifestOf(p.candidate).id in old(host.records)
      requires old(host.records)[ManifestOf(p.candidate).id].state.Active? && old(WithinLimits(host))
      requires CommitOutcome(host, p, old(Found(host, ManifestOf(p.candidate))), r)
      ensures r != Err(UpgradeActivationFailed(LimitReached))
    {
      hide Demoted, Reinstated, DecidedAll, BackTo, Bytes;
      var id := ManifestOf(p.candidate).id;
      assert id in ActiveIds(old(packages), old(host.records));
    }

    /** An upgrade of a stopped package stands exactly if the host takes the candidate. */
    twostate lemma StoppedUpgradeStands(host: ExtensionHost, p: PendingUpgrade, new r: Result<Report, Error>)
      requires ManifestOf(p.candidate).id in old(packages) && ManifestOf(p.candidate).id in old(host.records)
      requires Stopped(old(host.records)[ManifestOf(p.candidate).id].state)
      requires CommitOutcome(host, p, old(Found(host, ManifestOf(p.candidate))), r)
      ensures r.Ok? <==> ManifestOf(p.candidate).acceptable
    {
      hide Demoted, Reinstated, DecidedAll, BackTo, Bytes, ActiveIds, ComesUp, Revives;
    }

    /** Within the limits, an upgrade of an active package stands exactly if the host takes the candidate and it comes up. */
    twostate lemma ActiveUpgradeStands(host: ExtensionHost, p: PendingUpgrade, new r: Result<Report, Error>)
      requires ManifestOf(p.candidate).id in old(packages) && ManifestOf(p.candidate).id in old(host.records)
      requires old(host.records)[ManifestOf(p.candidate).id].state.Active? && old(WithinLimits(host))
      requires CommitOutcome(host, p, old(Found(host, ManifestOf(p.candidate))), r)
      ensures r.Ok? <==>
                && ManifestOf(p.candidate).acceptable
                && ComesUp(p.candidate, Authority(p, old(host.DecisionsOf(ManifestOf(p.candidate).id))),
                           host.fates(old(host.work).attempts), host.room)
    {
      hide Demoted, Reinstated, DecidedAll, BackTo, Bytes, ComesUp, Revives;
      assert ManifestOf(p.candidate).id in ActiveIds(old(packages), old(host.records));
    }

    /**
      An upgrade of a managed package. One that needs approval is staged beside the running package and touches
      nothing else; one that needs none is committed at once.
    */
    method UpgradeLoaded(host: ExtensionHost, m: Managed) returns (r: Result<Report, Error>)
      requires Valid(host) && Prepared(m, ManifestOf(m).id)
      modifies this, host`records, host`adapters, host`decisions, host`work
      ensures Valid(host) && OnlyTouches(host, ManifestOf(m).id) && packages.Keys == old(packages).Keys
      ensures Enters(ManifestOf(m).id)
      ensures !old(Upgradable(host, m)) ==> r == Err(old(UpgradeRefusal(host, m))) && unchanged(this) && unchanged(host)
      ensures old(Upgradable(host, m)) && old(Proposal(host, m)).toApprove != [] ==>
                && unchanged(host) && packages == old(packages) && activating == old(activating) && before == old(before)
                && r == Ok(ReportOn(m, AwaitingPermissions(old(Proposal(host, m)).toApprove)))
                && pending == old(pending)[ManifestOf(m).id := old(Proposal(host, m))]
      ensures old(Upgradable(host, m)) && old(Proposal(host, m)).toApprove == [] ==>
                && CommitOutcome(host, old(Proposal(host, m)), old(Found(host, ManifestOf(m))), r)
                && (r.Ok? ==> old(MayStand(host, Proposal(host, m))))
                && (old(MustStand(host, Proposal(host, m))) ==> r.Ok?)
      ensures r.Ok? ==>
                && ManifestOf(m).id in packages
                && (|| packages[ManifestOf(m).id] == m
                    || (&& ManifestOf(m).id in pending && pending[ManifestOf(m).id].candidate == m
                        && packages == old(packages) && unchanged(host)))
      ensures old(WithinLimits(host)) && Fits(old(packages), old(pending), ManifestOf(m).id, m.package.componentBytes) ==>
                WithinLimits(host)
    {
      hide Demoted, Settled, Prepared, Linked, LinkedAt, Staged, Tracked, Fits, Bytes, ActiveIds, Limited,
           SignerContinuity, ToApprove, Reinstated, DecidedAll, BackTo, Upholds, Authority, Revives;
      var id := ManifestOf(m).id;
      DemotedSelf(host.records - {id}, id);
      AtId(packages, host.records, host.adapters, id);
      if !ManifestOf(m).licensed {
        return Err(Host(LicenseDenied));
      }
      if id !in packages {
        return Err(NotManaged);
      }
      if host.State(id) == Some(Suspended) {
        return Err(UpgradeWhileSuspended);
      }
      if ManifestOf(packages[id]).publisher != ManifestOf(m).publisher {
        return Err(PublisherMismatch);
      }
      var p := Proposal(host, m);
      ProposalStages(packages, pending, packages[id].package, host.DecisionsOf(id), m, id);
      if p.toApprove != [] {
        pending := pending[id := p];
        StagedWithin(packages, old(pending), host.records, id, p);
        return Ok(ReportOn(m, AwaitingPermissions(p.toApprove)));
      }
      r := CommitProposal(host, p);
    }

    /** Commits an upgrade nobody has to approve, in place of one that may have been waiting. */
    method CommitProposal(host: ExtensionHost, p: PendingUpgrade) returns (r: Result<Report, Error>)
      requires Valid(host) && Prepared(p.candidate, ManifestOf(p.candidate).id)
      requires ManifestOf(p.candidate).id in packages && ManifestOf(p.candidate).id in host.records
      requires !host.records[ManifestOf(p.candidate).id].state.Suspended?
      modifies this, host`records, host`adapters, host`decisions, host`work
      ensures Valid(host) && OnlyTouches(host, ManifestOf(p.candidate).id) && packages.Keys == old(packages).Keys
      ensures CommitOutcome(host, p, old(Found(host, ManifestOf(p.candidate))), r) && Enters(ManifestOf(p.candidate).id)
      ensures ManifestOf(p.candidate).id !in pending
      ensures old(WithinLimits(host))
              && Fits(old(packages), old(pending), ManifestOf(p.candidate).id, p.candidate.package.componentBytes) ==>
                WithinLimits(host)
    {
      hide Demoted, Settled, Prepared, Linked, LinkedAt, Staged, Tracked, Fits, Bytes, ActiveIds, Limited,
           SignerContinuity, ToApprove, Reinstated, DecidedAll, BackTo;
      var id := ManifestOf(p.candidate).id;
      StagedAfter(packages, pending, packages, pending - {id}, id);
      ghost var fits := WithinLimits(host) && Fits(packages, pending, id, p.candidate.package.componentBytes);
      TwiceRemoved(pending, id);
      pending := pending - {id};
      r := CommitUpgrade(host, p);
      if fits {
        CommitWithin(old(packages), old(pending), old(host.records), packages, pending, host.records, id, p);
      }
    }

    /** The package can be loaded and previewed, as new or as an upgrade. */
    ghost predicate Previewable(host: ExtensionHost, p: Package, compiles: bool)
      reads this, host
    {
      var id := p.manifest.id;
      && !p.manifest.native && (p.manifest.wasm ==> compiles) && (id in packages || |packages| < MAX_INSTALLED)
      && Fits(packages, pending, id, p.componentBytes) && p.manifest.licensed
      && (if id in packages
          then && id in host.records && !host.records[id].state.Suspended?
               && ManifestOf(packages[id]).publisher == p.manifest.publisher
          else id !in host.records)
    }

    /** Installs exactly the package that was reviewed: a package that changed in between is refused. */
    method InstallReviewed(host: ExtensionHost, p: Package, compiles: bool, reviewed: Preview)
        returns (r: Result<Report, Error>)
      requires Valid(host)
      modifies this, host`records, host`adapters, host`decisions, host`work
      ensures Valid(host) && OnlyTouches(host, p.manifest.id) && Enters(p.manifest.id)
      ensures r.Ok? ==> Describes(reviewed, p, p.manifest.id in old(packages))
      ensures r.Ok? ==>
                && p.manifest.id in packages
                && (|| packages[p.manifest.id].package == p
                    || (&& p.manifest.id in pending && pending[p.manifest.id].candidate.package == p
                        && packages == old(packages) && unchanged(host)))
      ensures !(old(Previewable(host, p, compiles)) && Describes(reviewed, p, p.manifest.id in old(packages))) ==>
                r.Err? && unchanged(this) && unchanged(host)
      ensures old(Previewable(host, p, compiles)) && Describes(reviewed, p, p.manifest.id in old(packages)) ==>
                if p.manifest.id !in old(packages) then r.Ok? <==> p.manifest.acceptable
                else
                  && p.manifest.id in old(host.records)
                  && (old(Proposal(host, LoadedAs(p))).toApprove != [] ==> r.Ok?)
                  && (old(Proposal(host, LoadedAs(p))).toApprove == [] ==>
                        && (r.Ok? ==> old(MayStand(host, Proposal(host, LoadedAs(p)))))
                        && (old(MustStand(host, Proposal(host, LoadedAs(p)))) ==> r.Ok?))
      ensures old(WithinLimits(host)) ==> WithinLimits(host)
    {
      hide Demoted, Settled, Prepared, Linked, LinkedAt, Staged, Tracked, Fits, Limited, CommitOutcome, Bytes, ActiveIds,
           UpgradeRefusal, Found, ToApprove, Proposal, Describes, Revives, SignerContinuity, MayStand, MustStand;
      var id := p.manifest.id;
      DemotedSelf(host.records - {id}, id);
      AtId(packages, host.records, host.adapters, id);
      var checked := CheckReviewed(host, p, compiles, reviewed);
      if checked.Err? {
        return Err(checked.error);
      }
      if id in packages {
        r := UpgradeLoaded(host, checked.value);
      } else {
        r := InstallLoaded(host, checked.value);
      }
    }

    /** Loads and previews a package, and refuses one that is not what was reviewed. */
    method CheckReviewed(host: ExtensionHost, p: Package, compiles: bool, reviewed: Preview)
        returns (r: Result<Managed, Error>)
      requires Valid(host)
      ensures r.Ok? <==> Previewable(host, p, compiles) && Describes(reviewed, p, p.manifest.id in packages)
      ensures r.Ok? ==> r.value == LoadedAs(p) && Prepared(r.value, p.manifest.id)
      ensures Previewable(host, p, compiles) && !Describes(reviewed, p, p.manifest.id in packages) ==>
                r == Err(PackageChangedAfterReview)
    {
      hide Demoted, Settled, Prepared, LinkedAt, Staged, Tracked, PreviewOf, Fits, Describes, Linked;
      PreviewDescribes(reviewed, p, p.manifest.id in packages);
      AtId(packages, host.records, host.adapters, p.manifest.id);
      var managed := LoadManaged(p, compiles);
      if managed.Err? {
        return Err(managed.error);
      }
      PreparedIsOwn(managed.value, p.manifest.id);
      var current := PreviewManaged(host, managed.value);
      if current.Err? {
        return Err(current.error);
      }
      if current.value != reviewed {
        return Err(PackageChangedAfterReview);
      }
      r := managed;
    }

    // ---- Decisions of the user ----

    /** Approval of a waiting upgrade. If the upgrade fails it goes on waiting. */
    method ApprovePending(host: ExtensionHost, id: Id) returns (r: Result<Report, Error>)
      requires Valid(host) && id in pending
      modifies this, host`records, host`adapters, host`decisions, host`work
      ensures Valid(host) && OnlyTouches(host, id) && packages.Keys == old(packages).Keys && Enters(id)
      ensures id in old(packages) && id in old(host.records) && ManifestOf(old(pending)[id].candidate).id == id
      ensures CommitOutcome(host, old(pending)[id], old(Found(host, ManifestOf(pending[id].candidate))), r)
      ensures pending == if r.Ok? then old(pending) - {id} else old(pending)
      ensures r.Ok? && old(pending)[id].resetAuthority ==>
                GrantsExactly(host.DecisionsOf(id), ManifestOf(packages[id]).permissions)
      ensures old(WithinLimits(host)) ==> WithinLimits(host)
      ensures r.Ok? && !old(pending)[id].resetAuthority ==>
                (AllRequiredGranted(ManifestOf(packages[id]).permissions, host.DecisionsOf(id)) <==>
                   Covers(ManifestOf(packages[id]).permissions, old(pending)[id].toApprove, old(host.DecisionsOf(id))))
    {
      hide Demoted, Settled, Prepared, Linked, LinkedAt, Staged, Tracked, Fits, Bytes, ActiveIds, Limited,
           SignerContinuity, ToApprove, Reinstated, DecidedAll, BackTo, Required, Names, GrantsExactly,
           AllRequiredGranted, Covers, ComesUp, Revives;
      var p := pending[id];
      StagedIsPrepared(packages, pending, id);
      AtId(packages, host.records, host.adapters, id);
      ghost var limited := WithinLimits(host);
      if limited {
        LimitedFits(packages, pending, host.records, id);
      }
      TwiceRemoved(pending, id);
      pending := pending - {id};
      StagedAfter(packages, old(pending), packages, pending, id);
      r := CommitUpgrade(host, p);
      if r.Err? {
        pending := pending[id := p];
        assert pending == old(pending);
        StagedAfter(old(packages), old(pending), packages, pending, id);
      } else if p.resetAuthority {
        ResetGrantsRequired(ManifestOf(p.candidate).permissions);
      } else {
        ApprovalGrants(ManifestOf(p.candidate).permissions, p.toApprove, old(host.DecisionsOf(id)));
      }
      if limited {
        CommitWithin(old(packages), old(pending), old(host.records), packages, pending, host.records, id, p);
      }
    }

    /** The package may run once everything it requires is granted. */
    ghost predicate MayRunGranted(host: ExtensionHost, id: Id)
      requires id in host.records
      reads this, host
    {
      || host.records[id].state.Active?
      || (&& |ActiveIds(packages, host.records)| < MAX_ACTIVE && Stopped(host.records[id].state)
          && host.fates(host.work.attempts).obstacle.None?
          && (host.records[id].manifest.wasm ==> id in host.adapters && host.fates(host.work.attempts).starts))
    }

    /** Grants what an installed package requires, and starts it. */
    method GrantRequired(host: ExtensionHost, id: Id) returns (r: Report)
      requires Valid(host) && id in packages
      modifies host`decisions, host`records, host`work
      ensures Valid(host) && OnlyTouches(host, id) && id in host.records
      ensures DecidesNeeded(old(host.DecisionsOf(id)), host.DecisionsOf(id), ManifestOf(packages[id]).permissions, Granted)
      ensures id in old(host.records) && (r.activation.Running? <==> old(MayRunGranted(host, id)))
      ensures if r.activation.Running? then Started(host.records[id].state, host.room)
              else host.records[id].state.Disabled?
      ensures old(WithinLimits(host)) ==> WithinLimits(host)
    {
      hide Demoted, Settled, Prepared, Linked, LinkedAt, Staged, Tracked, Fits, Bytes, ActiveIds, Limited,
           DecidedAll, Required;
      AtId(packages, host.records, host.adapters, id);
      DecideAll(host, id, Required(ManifestOf(packages[id]).permissions), Granted);
      RequiredAreDecided(old(host.DecisionsOf(id)), ManifestOf(packages[id]).permissions, Granted);
      NeededAreGranted(old(host.DecisionsOf(id)), host.DecisionsOf(id), ManifestOf(packages[id]).permissions);
      r := Start(host, id);
    }

    /** Starts a managed package if it may be started. */
    method Start(host: ExtensionHost, id: Id) returns (r: Report)
      requires Valid(host) && id in packages
      modifies host`records, host`work
      ensures Valid(host) && OnlyTouches(host, id) && id in host.records
      ensures id in old(host.records) && (r.activation.Running? <==> old(MayRun(host, id)))
      ensures if r.activation.Running? then Started(host.records[id].state, host.room)
              else host.records[id].state.Disabled?
      ensures old(WithinLimits(host)) ==> WithinLimits(host)
    {
      hide Demoted, Settled, Prepared, Linked, LinkedAt, Staged, Tracked, Bytes, ActiveIds;
      AtId(packages, host.records, host.adapters, id);
      var attempt := ActivationReport(host, id);
      HostStep(packages, old(host.records), host.records, host.adapters, id);
      StartedWithin(packages, old(host.records), host.records, id);
      r := ReportOn(packages[id], attempt.activation);
    }

    method GrantPermissionsAndActivate(host: ExtensionHost, id: Id) returns (r: Result<Report, Error>)
      requires Valid(host)
      modifies this, host`records, host`adapters, host`decisions, host`work
      ensures Valid(host) && OnlyTouches(host, id) && packages.Keys == old(packages).Keys && Enters(id)
      ensures id !in old(packages) ==> r == Err(NotManaged) && unchanged(this) && unchanged(host)
      ensures id in old(pending) ==>
                && id in old(packages) && id in old(host.records) && ManifestOf(old(pending)[id].candidate).id == id
                && CommitOutcome(host, old(pending)[id], old(Found(host, ManifestOf(pending[id].candidate))), r)
                && pending == (if r.Ok? then old(pending) - {id} else old(pending))
      ensures id in old(pending) && r.Ok? && old(pending)[id].resetAuthority ==>
                GrantsExactly(host.DecisionsOf(id), ManifestOf(packages[id]).permissions)
      ensures id in old(packages) && id !in old(pending) ==>
                && unchanged(this) && r.Ok? && id in host.records && id in old(host.records)
                && DecidesNeeded(old(host.DecisionsOf(id)), host.DecisionsOf(id),
                                 ManifestOf(packages[id]).permissions, Granted)
                && (r.value.activation.Running? <==> old(MayRunGranted(host, id)))
                && (if r.value.activation.Running? then Started(host.records[id].state, host.room)
                    else host.records[id].state.Disabled?)
      ensures old(WithinLimits(host)) ==> WithinLimits(host)
    {
      hide Demoted, Settled, Prepared, Linked, LinkedAt, Staged, Tracked, Fits, Bytes, ActiveIds, Limited,
           SignerContinuity, ToApprove, Reinstated, DecidedAll, BackTo, Required, Names, GrantsExactly, CommitOutcome,
           DecidesNeeded, MayRunGranted;
      DemotedSelf(host.records - {id}, id);
      if id !in packages {
        NotStaged(packages, pending, id);
        return Err(NotManaged);
      }
      if id in pending {
        r := ApprovePending(host, id);
      } else {
        var report := GrantRequired(host, id);
        r := Ok(report);
      }
    }

    /** Refusal. A waiting upgrade is dropped and nothing else happens; otherwise the package loses what it requires
        and stops. */
    method DenyPermissions(host: ExtensionHost, id: Id) returns (r: Option<Error>)
      requires Valid(host)
      modifies this`pending, host`decisions, host`records
      ensures Valid(host) && OnlyTouches(host, id)
      ensures r == if id in packages then None else Some(NotManaged)
      ensures r.Some? ==> unchanged(this) && unchanged(host)
      ensures id in old(pending) ==> unchanged(host) && pending == old(pending) - {id}
      ensures id !in old(pending) && id in packages ==>
                && pending == old(pending) && id in host.records && host.records[id].state.Disabled?
                && DecidesNeeded(old(host.DecisionsOf(id)), host.DecisionsOf(id),
                                 ManifestOf(packages[id]).permissions, Denied)
      ensures old(WithinLimits(host)) ==> WithinLimits(host)
    {
      hide Demoted, Settled, Prepared, Linked, LinkedAt, Staged, Tracked, Bytes, ActiveIds, DecidedAll, Required;
      DemotedSelf(host.records - {id}, id);
      if id !in packages {
        NotStaged(packages, pending, id);
        return Some(NotManaged);
      }
      if id in pending {
        StagedAfter(packages, pending, packages, pending - {id}, id);
        DroppingFits(packages, pending, id);
        pending := pending - {id};
        return None;
      }
      AtId(packages, host.records, host.adapters, id);
      DecideAll(host, id, Required(ManifestOf(packages[id]).permissions), Denied);
      RequiredAreDecided(old(host.DecisionsOf(id)), ManifestOf(packages[id]).permissions, Denied);
      var _ := host.Unload(id);
      HostStep(packages, old(host.records), host.records, host.adapters, id);
      ActiveShrinks(packages, packages, old(host.records), host.records, id);
      r := None;
    }

    /** Stops a package. Anything still waiting or provisional about it is forgotten, so it is never rolled back. */
    method Disable(host: ExtensionHost, id: Id) returns (r: Option<Error>)
      requires Valid(host)
      modifies this`pending, this`activating, host`records
      ensures Valid(host) && OnlyTouches(host, id)
      ensures r == if id in packages then None else Some(NotManaged)
      ensures r.Some? ==> unchanged(this) && unchanged(host)
      ensures r.None? ==>
                && pending == old(pending) - {id} && activating == old(activating) - {id}
                && id in host.records && host.records[id].state.Disabled?
      ensures old(WithinLimits(host)) ==> WithinLimits(host)
    {
      hide Demoted, Settled, Prepared, Linked, LinkedAt, Staged, Tracked, Bytes, ActiveIds;
      DemotedSelf(host.records - {id}, id);
      if id !in packages {
        return Some(NotManaged);
      }
      AtId(packages, host.records, host.adapters, id);
      StagedAfter(packages, pending, packages, pending - {id}, id);
      TrackedAfter(packages, activating, before, packages, activating - {id}, id);
      DroppingFits(packages, pending, id);
      pending, activating := pending - {id}, activating - {id};
      var _ := host.Unload(id);
      HostStep(packages, old(host.records), host.records, host.adapters, id);
      ActiveShrinks(packages, packages, old(host.records), host.records, id);
      r := None;
    }

    /** Starts a package whose required permissions are all granted; otherwise asks for them and changes nothing. */
    method Enable(host: ExtensionHost, id: Id) returns (r: Result<Report, Error>)
      requires Valid(host)
      modifies host`records, host`work
      ensures Valid(host) && OnlyTouches(host, id)
      ensures id !in packages ==> r == Err(NotManaged) && unchanged(host)
      ensures id in packages ==>
                && r.Ok? && id in host.records
                && (!AllRequiredGranted(ManifestOf(packages[id]).permissions, host.DecisionsOf(id)) ==>
                      && unchanged(host)
                      && r.value.activation
                         == AwaitingPermissions(Ungranted(ManifestOf(packages[id]).permissions, host.DecisionsOf(id))))
                && id in old(host.records)
                && (AllRequiredGranted(ManifestOf(packages[id]).permissions, host.DecisionsOf(id)) ==>
                      (r.value.activation.Running? <==> old(MayRunGranted(host, id))))
                && (AllRequiredGranted(ManifestOf(packages[id]).permissions, host.DecisionsOf(id)) ==>
                      if r.value.activation.Running? then Started(host.records[id].state, host.room)
                      else host.records[id].state.Disabled?)
      ensures old(WithinLimits(host)) ==> WithinLimits(host)
    {
      hide Demoted, Settled, Prepared, Linked, LinkedAt, Staged, Tracked, Bytes, ActiveIds, Limited,
           Ungranted, AllRequiredGranted;
      DemotedSelf(host.records - {id}, id);
      if id !in packages {
        return Err(NotManaged);
      }
      AtId(packages, host.records, host.adapters, id);
      UngrantedAreMissing(ManifestOf(packages[id]).permissions, host.DecisionsOf(id));
      var missing := Ungranted(ManifestOf(packages[id]).permissions, host.DecisionsOf(id));
      if missing != [] {
        return Ok(ReportOn(packages[id], AwaitingPermissions(missing)));
      }
      var report := Start(host, id);
      r := Ok(report);
    }

    /** Takes a package out everywhere. */
    method Remove(host: ExtensionHost, id: Id) returns (r: Option<Error>)
      requires Valid(host)
      modifies this`packages, this`pending, this`activating, host`records, host`adapters, host`decisions
      ensures Valid(host) && OnlyTouches(host, id)
      ensures r == if id in old(packages) then None else Some(NotManaged)
      ensures r.Some? ==> unchanged(this) && unchanged(host)
      ensures r.None? ==>
                && packages == old(packages) - {id} && pending == old(pending) - {id} && activating == old(activating) - {id}
                && id !in host.records && host.adapters == old(host.adapters) - {id}
                && host.decisions == old(host.decisions) - {id}
      ensures old(WithinLimits(host)) ==> WithinLimits(host)
    {
      hide Demoted, Settled, Prepared, Linked, LinkedAt, Staged, Tracked, Bytes, ActiveIds;
      DemotedSelf(host.records - {id}, id);
      if id !in packages {
        return Some(NotManaged);
      }
      AtId(packages, host.records, host.adapters, id);
      StagedAfter(packages, pending, packages - {id}, pending - {id}, id);
      TrackedAfter(packages, activating, before, packages - {id}, activating - {id}, id);
      DroppingFits(packages, pending, id);
      TakeOut(host, id);
      RemovedElsewhere(old(packages), old(host.records), old(host.adapters), host.records, id);
      ActiveShrinks(old(packages), packages, old(host.records), host.records, id);
      RemovedSize(old(packages), id);
      TwiceRemoved(old(packages), id);
      TwiceRemoved(old(pending), id);
      TwiceRemoved(old(activating), id);
      TwiceRemoved(old(host.adapters), id);
      TwiceRemoved(old(host.decisions), id);
      r := None;
    }

    method TakeOut(host: ExtensionHost, id: Id)
      requires host.Valid() && id in host.records
      modifies this`packages, this`pending, this`activating, host`records, host`adapters, host`decisions
      ensures host.Valid() && id !in host.records && Demoted(old(host.records) - {id}, host.records, id)
      ensures packages == old(packages) - {id} && pending == old(pending) - {id} && activating == old(activating) - {id}
      ensures host.adapters == old(host.adapters) - {id} && host.decisions == old(host.decisions) - {id}
    {
      hide Demoted, Settled;
      pending, activating := pending - {id}, activating - {id};
      var _ := host.RemovePackage(id);
      host.RemoveAdapter(id);
      packages := packages - {id};
    }

    /** Changes one decision. Taking a required permission from a running package stops it and ends any provisional
        upgrade. */
    method SetPermissionDecision(host: ExtensionHost, id: Id, permission: Permission, d: Decision)
        returns (r: Option<Error>)
      requires Valid(host)
      modifies this`activating, host`decisions, host`records
      ensures Valid(host) && OnlyTouches(host, id)
      ensures r == if id !in packages then Some(NotManaged)
                   else if permission !in Names(ManifestOf(packages[id]).permissions) then Some(StoredPermissionMismatch)
                   else None
      ensures r.Some? ==> unchanged(this) && unchanged(host)
      ensures r.None? ==> host.DecisionsOf(id) == old(host.DecisionsOf(id))[permission := d]
      ensures r.None? ==> id in host.records && id in old(host.records)
      ensures r.None? ==>
                var state := old(host.records)[id].state;
                if d != Granted && Asks(ManifestOf(packages[id]).permissions, permission)
                   && (state.Active? || state.Suspended?)
                then activating == old(activating) - {id} && host.records[id].state.Disabled?
                else activating == old(activating) && host.records == old(host.records)
      ensures old(WithinLimits(host)) ==> WithinLimits(host)
    {
      hide Demoted, Settled, Prepared, Linked, LinkedAt, Staged, Tracked, Bytes, ActiveIds, Names, Asks;
      DemotedSelf(host.records - {id}, id);
      if id !in packages {
        return Some(NotManaged);
      }
      AtId(packages, host.records, host.adapters, id);
      AskedIsNamed(ManifestOf(packages[id]).permissions, permission);
      var request := RequestFor(ManifestOf(packages[id]).permissions, permission);
      if request.None? {
        return Some(StoredPermissionMismatch);
      }
      host.SetPermissionDecision(id, permission, d);
      var state := host.State(id);
      if request.value.required && d != Granted && (state == Some(Active) || state == Some(Suspended)) {
        TrackedAfter(packages, activating, before, packages, activating - {id}, id);
        activating := activating - {id};
        var _ := host.Unload(id);
        HostStep(packages, old(host.records), host.records, host.adapters, id);
        ActiveShrinks(packages, packages, old(host.records), host.records, id);
      }
      r := None;
    }

    // ---- Settlement ----

    /** Work goes on in the host: workers finish or fail, safe mode comes and goes. */
    method HostTick(host: ExtensionHost)
      requires Valid(host)
      modifies host`records, host`room, host`work
      ensures Valid(host) && Drifted(old(host.records), host.records)
    {
      hide Settled, Prepared, Staged, Tracked;
      host.Tick();
      LinkedDrifts(packages, old(host.records), host.records, host.adapters);
    }

    /** Settles one provisional upgrade: it stands if the new package is running, and is taken back otherwise. */
    method SettleOne(host: ExtensionHost, id: Id) returns (r: Result<Report, Error>)
      requires Valid(host) && id in activating
      modifies this`packages, this`activating, host`records, host`adapters, host`decisions, host`work
      ensures Valid(host) && OnlyTouches(host, id)
      ensures activating == old(activating) - {id} && packages.Keys == old(packages).Keys
      ensures id in old(host.records) && id in old(before) && id in old(packages)
      ensures r.Ok? <==> old(host.records)[id].state.Active?
      ensures r.Ok? ==> unchanged(host) && packages == old(packages)
      ensures r.Ok? ==> r.value == ReportOn(packages[id], Running)
      ensures r.Err? ==> host.DecisionsOf(id) == Restored(old(activating)[id].snapshot)
      ensures r.Err? ==>
                (r.error.UpgradeActivationFailed? <==>
                   Revives(before[id].managed, host.DecisionsOf(id), host.fates(old(host.work).attempts)))
      ensures SettledAs(ViewOf(host), id, before[id], old(packages)[id], r, !host.room)
      ensures Changed(old(ViewOf(host)), ViewOf(host), {id})
      ensures ActiveIds(packages, host.records)
              <= old(ActiveIds(packages, host.records)) + (if r.Err? then {id} else {})
      ensures old(|ActiveIds(packages, host.records) - {id}|) < MAX_ACTIVE ==>
                |ActiveIds(packages, host.records)| <= MAX_ACTIVE
      ensures ActiveIds(packages, host.records) == old(ActiveIds(packages, host.records)) + {id} ==>
                (|ActiveIds(packages, host.records)| <= MAX_ACTIVE <==>
                   old(|ActiveIds(packages, host.records) - {id}|) < MAX_ACTIVE)
    {
      hide Demoted, Settled, Prepared, Linked, LinkedAt, Staged, Tracked, Captured, Restored, SameDecisions, Names, AskedBy,
           ActiveIds, Stands, Changed, Revives;
      DemotedSelf(host.records - {id}, id);
      TrackedIs(packages, activating, before, id);
      AtId(packages, host.records, host.adapters, id);
      var upgrade := activating[id];
      TrackedAfter(packages, activating, before, packages, activating - {id}, id);
      activating := activating - {id};
      RestartWithinLimit(packages, host.records, packages, host.records, id);
      if host.State(id) == Some(Active) {
        TouchedIsChanged(old(ViewOf(host)), ViewOf(host), id);
        return Ok(ReportOn(packages[id], Running));
      }
      r := TakeBack(host, id, upgrade, before[id]);
      TouchedIsChanged(old(ViewOf(host)), ViewOf(host), id);
      OthersStay(old(packages), old(host.records), packages, host.records, id);
      RestartWithinLimit(old(packages), old(host.records), packages, host.records, id);
    }

    /** The failing half of a settlement. */
    method TakeBack(host: ExtensionHost, id: Id, upgrade: ActivatingUpgrade, ghost found: PreCommit)
        returns (r: Result<Report, Error>)
      requires Valid(host) && id in packages && id in host.records
      requires Prepared(found.managed, id) && ManifestOf(found.managed).acceptable
      requires upgrade == ActivatingUpgrade(found.managed, Active,
                            Captured(found.decisions, AskedBy(ManifestOf(found.managed), found.candidate)))
      modifies this`packages, host`records, host`adapters, host`decisions, host`work
      ensures Valid(host) && OnlyTouches(host, id) && packages.Keys == old(packages).Keys
      ensures id in host.records && Reinstated(host, packages, id, found)
      ensures host.DecisionsOf(id) == Restored(upgrade.snapshot)
      ensures r.Err? && (r.error.UpgradeActivationFailed? || r.error.UpgradeRollbackFailed?)
      ensures r.error.UpgradeActivationFailed? ==> Started(host.records[id].state, host.room)
      ensures r.error.UpgradeActivationFailed? <==>
                Revives(found.managed, Restored(upgrade.snapshot), host.fates(old(host.work).attempts))
    {
      hide Demoted, Settled, Prepared, Linked, LinkedAt, Staged, Tracked, Captured, Restored, SameDecisions, Names, AskedBy,
           Reinstated, Revives;
      AtId(packages, host.records, host.adapters, id);
      var failed := RollBack(host, id, upgrade.previous, upgrade.lifecycle, upgrade.snapshot);
      SnapshotAgrees(found.decisions, AskedBy(ManifestOf(found.managed), found.candidate));
      Relinked(old(packages), old(host.records), old(host.adapters), packages, host.records, host.adapters, id);
      StagedAfter(old(packages), pending, packages, pending, id);
      TrackedAfter(old(packages), activating, before, packages, activating, id);
      IsReinstated(host, packages, id, found);
      SameKeys(old(host.records), host.records, id);
      r := Err(if failed.Some? then UpgradeRollbackFailed(RuntimeFailed) else UpgradeActivationFailed(RuntimeFailed));
    }

    /** The upgrades in `results` are settled, the other provisional ones are not, and nothing else has changed since
        `start`. */
    ghost predicate SettledSince(host: ExtensionHost, start: View, provisional: map<Id, ActivatingUpgrade>,
                                 results: map<Id, Result<Report, Error>>)
      reads this, host
    {
      && results.Keys <= provisional.Keys && activating == provisional - results.Keys
      && SettledFrom(start, ViewOf(host), before, results, host.room)
    }

    /**
      Settles every provisional upgrade that no worker still owes a result. Each one either stands or is exactly
      taken back; packages that are not provisional, such as those disabled or removed meanwhile, are left alone.
    */
    method Settle(host: ExtensionHost) returns (results: map<Id, Result<Report, Error>>)
      requires Valid(host)
      modifies this`packages, this`activating, host`records, host`adapters, host`decisions, host`work
      ensures Valid(host) && SettledSince(host, old(ViewOf(host)), old(activating), results)
      ensures results.Keys == old(Unowed(host))
      ensures |old(ActiveIds(packages, host.records)) + TakenBack(results)| <= MAX_ACTIVE ==>
                |ActiveIds(packages, host.records)| <= MAX_ACTIVE
    {
      hide Valid, OnlyTouches, SettledAs, Changed, IsRunning, SettledFrom, ActiveIds, TakenBack, AlreadySettled, Unowed;
      var rest := Ready(host);
      results := map[];
      ghost var ready := rest;
      NothingSettled(host, ready);
      while rest != {}
        invariant Valid(host) && SettledSince(host, old(ViewOf(host)), old(activating), results)
        invariant AlreadySettled(ready, rest, results.Keys)
        decreases |rest|
      {
        var id :| id in rest;
        StillReady(old(activating), ready, rest, results.Keys, id);
        rest := rest - {id};
        var one := SettleNext(host, id, old(ViewOf(host)), results);
        assert results[id := one].Keys == results.Keys + {id};
        results := results[id := one];
      }
      AllSettled(ready, rest, results.Keys);
      SettledWithin(host, old(ViewOf(host)), old(activating), results);
    }

    lemma SettledWithin(host: ExtensionHost, start: View, provisional: map<Id, ActivatingUpgrade>,
                        results: map<Id, Result<Report, Error>>)
      requires SettledSince(host, start, provisional, results)
      ensures |ActiveIds(start.packages, start.records) + TakenBack(results)| <= MAX_ACTIVE ==>
                |ActiveIds(packages, host.records)| <= MAX_ACTIVE
    {
      hide ActiveIds, TakenBack, SettledFrom;
      SettledIds(start, ViewOf(host), before, results, host.room);
      SubsetSize(ActiveIds(packages, host.records), ActiveIds(start.packages, start.records) + TakenBack(results));
    }

    method SettleNext(host: ExtensionHost, id: Id, ghost start: View, ghost results: map<Id, Result<Report, Error>>)
        returns (one: Result<Report, Error>)
      requires Valid(host) && SettledFrom(start, ViewOf(host), before, results, host.room)
      requires id in activating && id !in results
      modifies this`packages, this`activating, host`records, host`adapters, host`decisions, host`work
      ensures Valid(host) && SettledFrom(start, ViewOf(host), before, results[id := one], host.room)
      ensures activating == old(activating) - {id}
    {
      hide Valid, OnlyTouches, SettledAs, Changed, ActiveIds, Stands, Restored, SettledFrom;
      ghost var mid := ViewOf(host);
      one := SettleOne(host, id);
      NextSettled(start, mid, ViewOf(host), before, results, id, one, host.room);
    }

    lemma NothingSettled(host: ExtensionHost, ready: set<Id>)
      ensures SettledSince(host, ViewOf(host), activating, map[])
      ensures var none: map<Id, Result<Report, Error>> := map[]; AlreadySettled(ready, ready, none.Keys)
    {
      hide Changed, ActiveIds;
      assert activating - {} == activating;
      ChangesNothing(ViewOf(host));
      var none: map<Id, Result<Report, Error>> := map[];
      assert none.Keys == {};
    }

    /** The provisional upgrades of packages whose workers owe nothing. */
    ghost function Unowed(host: ExtensionHost): set<Id>
      reads this, host
    {
      set id | id in activating && !host.Owes(id)
    }

    /** The provisional upgrades no worker owes anything. */
    method Ready(host: ExtensionHost) returns (ready: set<Id>)
      ensures ready == Unowed(host) && ready <= activating.Keys
    {
      var rest := activating.Keys;
      ready := {};
      while rest != {}
        invariant ready <= activating.Keys && rest <= activating.Keys
        invariant ready == set id | id in activating && id !in rest && !host.Owes(id)
        decreases |rest|
      {
        var id :| id in rest;
        rest := rest - {id};
        var work := host.PendingWork(id);
        if work == 0 {
          ready := ready + {id};
        }
      }
    }

    // ---- Runs ----

    /** A disabled package stays what it is: the settlement of its former upgrade never comes. */
    method DisableThenSettle(host: ExtensionHost, id: Id)
      requires Valid(host) && id in packages
      modifies this, host`records, host`adapters, host`decisions, host`work
      ensures Valid(host) && id in packages && packages[id] == old(packages)[id]
      ensures id in host.records && host.records[id].state.Disabled?
      ensures host.DecisionsOf(id) == old(host.DecisionsOf(id)) && host.AdapterOf(id) == old(host.AdapterOf(id))
    {
      hide Valid, OnlyTouches, SettledAs;
      var _ := Disable(host, id);
      var _ := Settle(host);
    }

    /**
      A decision made while an upgrade is provisional. It survives the settlement exactly if the decision itself ended
      the upgrade, or the package is active when the upgrade is settled, or the commit found the same decision.
    */
    method DecideThenSettle(host: ExtensionHost, id: Id, permission: Permission, d: Decision)
        returns (r: Option<Error>, active: bool)
      requires Valid(host)
      modifies this, host
      ensures Valid(host)
      ensures r.None? ==> id in old(packages) && id in old(host.records)
      ensures r.None? ==>
                var running := old(IsRunning(host.records[id].state));
                var ends := d != Granted && Asks(ManifestOf(old(packages)[id]).permissions, permission) && running;
                (Observed(host.DecisionsOf(id), permission) == d <==>
                   || id !in old(activating) || ends || active
                   || Observed(Restored(old(activating)[id].snapshot), permission) == d)
    {
      hide Valid, OnlyTouches, SettledAs, Changed, ActiveIds, Restored, Asks, Names, WithinLimits;
      r := SetPermissionDecision(host, id, permission, d);
      HostTick(host);
      active := host.State(id) == Some(Active);
      if id in activating {
        var _ := SettleOne(host, id);
      }
    }

    /**
      A decision made while an upgrade by the same signer waits for approval. What is then approved and committed has
      everything it requires exactly if the decision took back nothing that was granted when the upgrade was proposed.
    */
    method ProposeThenApprove(host: ExtensionHost, m: Managed, permission: Permission, d: Decision)
        returns (r: Result<Report, Error>)
      requires Valid(host) && Prepared(m, ManifestOf(m).id) && Upgradable(host, m)
      requires Proposal(host, m).toApprove != [] && !Proposal(host, m).resetAuthority
      modifies this, host`records, host`adapters, host`decisions, host`work
      ensures Valid(host)
      ensures r.Ok? ==>
                var known := permission in old(Names(ManifestOf(packages[ManifestOf(m).id]).permissions));
                var asked := old(host.DecisionsOf(ManifestOf(m).id));
                (AllRequiredGranted(ManifestOf(m).permissions, host.DecisionsOf(ManifestOf(m).id)) <==>
                   NoneRevoked(ManifestOf(m).permissions, asked, if known then asked[permission := d] else asked))
    {
      hide Valid, OnlyTouches, WithinLimits, Enters, GrantsExactly, Names, Covers, NoneRevoked, AllRequiredGranted,
           Ungranted, Required, Prepared, Reinstated, DecidedAll, BackTo, ActiveIds;
      var id := ManifestOf(m).id;
      ghost var asked := host.DecisionsOf(id);
      var _ := UpgradeLoaded(host, m);
      var _ := SetPermissionDecision(host, id, permission, d);
      ContinuityGrantsRequired(ManifestOf(m).permissions, asked, host.DecisionsOf(id));
      r := ApprovePending(host, id);
    }

    /**
      Denying the permissions of a package whose upgrade is still provisional does not end that upgrade. The package
      is stopped, so the next settlement takes the upgrade back and with it restores the decisions its commit found,
      including any grants that were just denied. Only without a provisional upgrade do the denials last.
    */
    method DenyThenSettle(host: ExtensionHost, id: Id) returns (r: Option<Result<Report, Error>>)
      requires Valid(host) && id in packages && id !in pending
      modifies this, host`records, host`adapters, host`decisions, host`work
      ensures Valid(host) && before == old(before)
      ensures id !in old(activating) ==>
                && packages == old(packages)
                && DecidesNeeded(old(host.DecisionsOf(id)), host.DecisionsOf(id),
                                 ManifestOf(packages[id]).permissions, Denied)
      ensures id in old(activating) ==>
                && r.Some? && r.value.Err? && id in before && Reinstated(host, packages, id, before[id])
                && host.DecisionsOf(id) == Restored(old(activating)[id].snapshot)
    {
      hide Valid, OnlyTouches, Stands, Changed, ActiveIds, Restored, DecidedAll, Required;
      var _ := DenyPermissions(host, id);
      r := None;
      if id in activating {
        var settled := SettleOne(host, id);
        r := Some(settled);
      }
    }

    lemma KnowsItsUpgrades(host: ExtensionHost)
      requires Valid(host)
      ensures activating.Keys <= before.Keys
    {
    }

    /**
      Any sequence of steps keeps the maps and the host linked. An upgrade that is provisional afterwards either was
      so before, or belongs to the last commit of its package in the run that ended provisional. A package that is
      not provisional stays in place as long as no step commits or removes it. Without settlements and ticks
      the limits are kept too.
    */
    method Run(host: ExtensionHost, steps: seq<Step>)
      requires Valid(host)
      modifies this, host
      ensures Valid(host) && old(history) <= history
      ensures forall id ::
                StillTracked(old(activating), old(before), activating, before, history[|old(history)|..], id)
      ensures forall id :: (forall i :: 0 <= i < |steps| ==> !steps[i].Replaces(id)) ==>
                LeftInPlace(old(packages), old(activating), packages, activating, id)
      ensures old(WithinLimits(host)) && (forall i :: 0 <= i < |steps| ==> steps[i].InCall()) ==> WithinLimits(host)
    {
      hide Valid, OnlyTouches, WithinLimits, Upgradable, CommitOutcome, SettledSince, StillTracked, LeftInPlace;
      KnowsItsUpgrades(host);
      NothingYet(packages, activating, before);
      assert history[|history|..] == [];
      for i := 0 to |steps|
        invariant Valid(host) && old(history) <= history
        invariant forall id ::
                    StillTracked(old(activating), old(before), activating, before, history[|old(history)|..], id)
        invariant forall id :: (forall j :: 0 <= j < i ==> !steps[j].Replaces(id)) ==>
                    LeftInPlace(old(packages), old(activating), packages, activating, id)
        invariant old(WithinLimits(host)) && (forall j :: 0 <= j < i ==> steps[j].InCall()) ==> WithinLimits(host)
      {
        ghost var p1, a1, b1, h1 := packages, activating, before, history;
        Take(host, steps[i]);
        assert history[|old(history)|..] == h1[|old(history)|..] + history[|h1|..];
        forall id ensures StillTracked(old(activating), old(before), activating, before, history[|old(history)|..], id) {
          TrackedThen(old(activating), old(before), a1, b1, h1[|old(history)|..], activating, before, history[|h1|..], id);
        }
        forall id | forall j :: 0 <= j < i + 1 ==> !steps[j].Replaces(id)
          ensures LeftInPlace(old(packages), old(activating), packages, activating, id)
        {
          assert !steps[i].Replaces(id);
          LeftThen(old(packages), old(activating), p1, a1, packages, activating, id);
        }
      }
    }

    method Take(host: ExtensionHost, step: Step)
      requires Valid(host)
      modifies this, host
      ensures Valid(host) && old(history) <= history
      ensures forall id ::
                StillTracked(old(activating), old(before), activating, before, history[|old(history)|..], id)
      ensures forall id :: !step.Replaces(id) ==>
                LeftInPlace(old(packages), old(activating), packages, activating, id)
      ensures old(WithinLimits(host)) && step.InCall() ==> WithinLimits(host)
    {
      hide WithinLimits, Upgradable, CommitOutcome, Ungranted, DecidedAll, Required, StillTracked, LeftInPlace,
           AllRequiredGranted, GrantsExactly, Names, Asks, PreviewOf, Drifted, IsRunning, Found, Changed, SettledAs,
           Linked, Staged, Tracked, Demoted, Settled, Stands, ActiveIds, TakenBack, Restored;
      KnowsItsUpgrades(host);
      assert history[|history|..] == [];
      match step
      case InstallStep(package, compiles, reviewed) =>
        var _ := InstallReviewed(host, package, compiles, reviewed);
        Entered(old(packages), old(activating), old(before), old(history), packages, activating, before, history,
                package.manifest.id);
      case GrantStep(id) =>
        var _ := GrantPermissionsAndActivate(host, id);
        Entered(old(packages), old(activating), old(before), old(history), packages, activating, before, history, id);
      case DenyStep(id) =>
        var _ := DenyPermissions(host, id);
        OnlyFewer(old(packages), old(activating), before, packages, activating, {});
      case EnableStep(id) =>
        var _ := Enable(host, id);
        OnlyFewer(old(packages), old(activating), before, packages, activating, {});
      case DisableStep(id) =>
        var _ := Disable(host, id);
        OnlyFewer(old(packages), old(activating), before, packages, activating, {});
      case RemoveStep(id) =>
        var _ := Remove(host, id);
        OnlyFewer(old(packages), old(activating), before, packages, activating, {id});
      case DecideStep(id, permission, decision) =>
        var _ := SetPermissionDecision(host, id, permission, decision);
        OnlyFewer(old(packages), old(activating), before, packages, activating, {});
      case TickStep =>
        HostTick(host);
        OnlyFewer(old(packages), old(activating), before, packages, activating, {});
      case SettleStep =>
        ghost var start := ViewOf(host);
        var results := Settle(host);
        SettledIds(start, ViewOf(host), before, results, host.room);
        PackagesChanged(start, ViewOf(host), results.Keys);
        OnlyFewer(old(packages), old(activating), before, packages, activating, results.Keys);
    }

    /**
      A provisional upgrade is a transaction: whatever happens before it is settled, a settlement that fails brings
      back exactly what its commit found. That commit is the last one of the package in the run that ended
      provisional, or the one that was waiting to be settled at the start.
    */
    method RunThenSettle(host: ExtensionHost, id: Id, steps: seq<Step>) returns (r: Option<Result<Report, Error>>)
      requires Valid(host)
      modifies this, host
      ensures Valid(host) && id !in activating && old(history) <= history
      ensures r.Some? && r.value.Err? ==>
                match LastFor(history[|old(history)|..], id)
                case Some(found) => Reinstated(host, packages, id, found)
                case None => id in old(activating) && id in old(before) && Reinstated(host, packages, id, old(before)[id])
      ensures r.Some? && r.value.Err? && r.value.error.UpgradeActivationFailed? ==>
                id in host.records && Started(host.records[id].state, host.room)
    {
      hide Valid, OnlyTouches, Stands, Changed, WithinLimits, LastFor, LeftInPlace;
      Run(host, steps);
      r := None;
      if id in activating {
        assert StillTracked(old(activating), old(before), activating, before, history[|old(history)|..], id);
        var settled := SettleOne(host, id);
        r := Some(settled);
      }
    }

    /**
      A commit that stands without being provisional is final exactly if its package has no provisional upgrade
      at that moment. If it has one, that older upgrade is still settled, and unless the package is then active
      the settlement undoes the commit and brings back what the older commit found.
    */
    method CommitThenSettle(host: ExtensionHost, p: PendingUpgrade)
      returns (r: Result<Report, Error>, active: bool)
      requires Valid(host) && Prepared(p.candidate, ManifestOf(p.candidate).id)
      modifies this, host
      ensures Valid(host)
      ensures r.Ok? && !r.value.activation.Activating? ==>
                var id := ManifestOf(p.candidate).id;
                && id in packages
                && (id !in old(activating) || active ==> packages[id] == p.candidate)
                && (id in old(activating) && !active ==>
                      id in old(before) && Reinstated(host, packages, id, old(before)[id]))
    {
      hide Valid, OnlyTouches, Stands, Changed, WithinLimits, ActiveIds, Restored, DecidedAll;
      var id := ManifestOf(p.candidate).id;
      KnowsItsUpgrades(host);
      r := CommitUpgrade(host, p);
      HostTick(host);
      active := host.State(id) == Some(Active);
      if id in activating {
        var _ := SettleOne(host, id);
      }
    }

    /** Without an older provisional upgrade, a commit that stands outlasts every run that does not replace its package. */
    method CommitThenRun(host: ExtensionHost, p: PendingUpgrade, steps: seq<Step>) returns (r: Result<Report, Error>)
      requires Valid(host) && Prepared(p.candidate, ManifestOf(p.candidate).id)
      requires ManifestOf(p.candidate).id !in activating
      requires forall i :: 0 <= i < |steps| ==> !steps[i].Replaces(ManifestOf(p.candidate).id)
      modifies this, host
      ensures Valid(host)
      ensures r.Ok? && !r.value.activation.Activating? ==>
                ManifestOf(p.candidate).id in packages && packages[ManifestOf(p.candidate).id] == p.candidate
    {
      hide Valid, OnlyTouches, WithinLimits, Reinstated, StillTracked, DecidedAll, ActiveIds;
      r := CommitUpgrade(host, p);
      ghost var placed, provisional := packages, activating;
      Run(host, steps);
      assert LeftInPlace(placed, provisional, packages, activating, ManifestOf(p.candidate).id);
    }
  }

  datatype Step =
    | InstallStep(package: Package, compiles: bool, reviewed: Preview)
    | GrantStep(id: Id)
    | DenyStep(id: Id)
    | EnableStep(id: Id)
    | DisableStep(id: Id)
    | RemoveStep(id: Id)
    | DecideStep(id: Id, permission: Permission, decision: Decision)
    | TickStep
    | SettleStep
  {
    predicate InCall() { !TickStep? && !SettleStep? }

    /** Whether the step may by itself put another package in place of `id`, or none. */
    predicate Replaces(id: Id) {
      (InstallStep? && package.manifest.id == id) || (GrantStep? && this.id == id) || (RemoveStep? && this.id == id)
    }
  }


  lemma ChangesNothing(v: View)
    ensures Changed(v, v, {})
  {
  }

  /** Settling one more upgrade keeps what was settled before it. */
  lemma NextSettled(start: View, mid: View, end: View, before: map<Id, PreCommit>, results: map<Id, Result<Report, Error>>,
                    id: Id, r: Result<Report, Error>, room: bool)
    requires SettledFrom(start, mid, before, results, room) && id !in results && id in mid.packages
    requires Changed(mid, end, {id}) && end.packages.Keys == mid.packages.Keys && (r.Ok? ==> end == mid)
    requires ActiveIds(end.packages, end.records)
             <= ActiveIds(mid.packages, mid.records) + (if r.Err? then {id} else {})
    requires id in before && SettledAs(end, id, before[id], mid.packages[id], r, !room)
    ensures SettledFrom(start, end, before, results[id := r], room)
  {
    hide Changed, SettledAs, Disturbed, ActiveIds, TakenBack;
    ChangedMore(start, mid, end, results.Keys, id);
    var more := results[id := r];
    assert more.Keys == results.Keys + {id};
    MoreTakenBack(results, id, r, ActiveIds(start.packages, start.records), ActiveIds(mid.packages, mid.records),
                  ActiveIds(end.packages, end.records));
    forall k | k in more
      ensures k in before && k in start.packages
      ensures SettledAs(end, k, before[k], start.packages[k], more[k], Disturbed(more, k, room))
    {
      StillDisturbed(results, id, r, k, room);
      if k == id {
        SettledLoosely(end, id, before[id], mid.packages[id], r, !room, Disturbed(more, id, room));
      } else {
        SettledStays(mid, end, id, k, before[k], start.packages[k], results[k], Disturbed(results, k, room),
                     Disturbed(more, k, room), r.Ok?);
      }
    }
  }

  lemma SettledIds(start: View, v: View, before: map<Id, PreCommit>, results: map<Id, Result<Report, Error>>, room: bool)
    requires SettledFrom(start, v, before, results, room)
    ensures v.packages.Keys == start.packages.Keys && Changed(start, v, results.Keys)
    ensures ActiveIds(v.packages, v.records) <= ActiveIds(start.packages, start.records) + TakenBack(results)
  {
    hide Changed, SettledAs, ActiveIds, TakenBack;
  }

  lemma StillDisturbed(results: map<Id, Result<Report, Error>>, id: Id, r: Result<Report, Error>, k: Id, room: bool)
    requires id !in results
    ensures Disturbed(results, k, room) ==> Disturbed(results[id := r], k, room)
    ensures r.Err? && k != id ==> Disturbed(results[id := r], k, room)
    ensures !room ==> Disturbed(results[id := r], k, room)
  {
    var more := results[id := r];
    assert TakenBack(results) - {k} <= TakenBack(more) - {k};
    assert r.Err? && k != id ==> id in TakenBack(more) - {k};
  }

  lemma SettledLoosely(v: View, id: Id, found: PreCommit, was: Managed, r: Result<Report, Error>,
                       disturbed: bool, disturbed': bool)
    requires SettledAs(v, id, found, was, r, disturbed) && (disturbed ==> disturbed')
    ensures SettledAs(v, id, found, was, r, disturbed')
  {
    hide Stands;
  }

  /** Only what is taken back may be active without having been so at the start. */
  lemma MoreTakenBack(results: map<Id, Result<Report, Error>>, id: Id, r: Result<Report, Error>,
                      start: set<Id>, mid: set<Id>, end: set<Id>)
    requires id !in results && mid <= start + TakenBack(results) && end <= mid + (if r.Err? then {id} else {})
    ensures end <= start + TakenBack(results[id := r])
  {
    assert TakenBack(results[id := r]) == TakenBack(results) + (if r.Err? then {id} else {});
  }

  lemma ChangedMore(a: View, b: View, c: View, ids: set<Id>, id: Id)
    requires Changed(a, b, ids) && Changed(b, c, {id})
    ensures Changed(a, c, ids + {id})
    ensures id !in ids && id in a.packages && id in b.packages ==> b.packages[id] == a.packages[id]
  {
  }

  ghost predicate AlreadySettled(ready: set<Id>, rest: set<Id>, settled: set<Id>) {
    rest !! settled && rest + settled == ready
  }

  lemma AllSettled(ready: set<Id>, rest: set<Id>, settled: set<Id>)
    requires AlreadySettled(ready, rest, settled) && rest == {}
    ensures settled == ready
  {
  }

  lemma StillReady(activating: map<Id, ActivatingUpgrade>, ready: set<Id>, rest: set<Id>, settled: set<Id>, id: Id)
    requires AlreadySettled(ready, rest, settled) && id in rest && ready <= activating.Keys
    ensures AlreadySettled(ready, rest - {id}, settled + {id})
    ensures id !in settled && id in activating - settled && activating - settled - {id} == activating - (settled + {id})
    ensures settled + {id} <= activating.Keys
  {
  }

  lemma SettledStays(a: View, b: View, id: Id, k: Id, found: PreCommit, was: Managed, r: Result<Report, Error>,
                     disturbed: bool, disturbed': bool, same: bool)
    requires Changed(a, b, {id}) && k != id && SettledAs(a, k, found, was, r, disturbed)
    requires if same then a == b && (disturbed ==> disturbed') else disturbed'
    ensures SettledAs(b, k, found, was, r, disturbed')
  {
  }

  lemma TouchedIsChanged(a: View, b: View, id: Id)
    requires a.packages - {id} == b.packages - {id} && a.adapters - {id} == b.adapters - {id}
    requires a.decisions - {id} == b.decisions - {id} && Demoted(a.records - {id}, b.records - {id}, id)
    ensures Changed(a, b, {id})
  {
    ElsewhereSame(a.packages, b.packages, id);
    ElsewhereSame(a.adapters, b.adapters, id);
    ElsewhereSame(a.decisions, b.decisions, id);
    forall k | k != id && k in a.records
      ensures k in b.records && b.records[k].manifest == a.records[k].manifest
      ensures b.records[k].state == a.records[k].state || (a.records[k].state.Active? && b.records[k].state.Suspended?)
    {
      assert k in a.records - {id} && k in b.records - {id};
    }
  }

  lemma ElsewhereSame<T>(a: map<Id, T>, b: map<Id, T>, id: Id)
    requires a - {id} == b - {id}
    ensures forall k :: k != id ==> (k in b <==> k in a) && (k in a ==> b[k] == a[k])
  {
    forall k | k != id ensures (k in b <==> k in a) && (k in a ==> b[k] == a[k]) {
      assert k in a <==> k in a - {id};
      assert k in b <==> k in b - {id};
    }
  }

  lemma StagedIsPrepared(packages: map<Id, Managed>, pending: map<Id, PendingUpgrade>, id: Id)
    requires Staged(packages, pending) && id in pending
    ensures id in packages && ManifestOf(pending[id].candidate).id == id && Prepared(pending[id].candidate, id)
    ensures pending[id].resetAuthority ==>
        pending[id].toApprove == Required(ManifestOf(pending[id].candidate).permissions)
  {
  }

  lemma LimitedFits(packages: map<Id, Managed>, pending: map<Id, PendingUpgrade>, records: map<Id, HostRecord>, id: Id)
    requires id in pending && Limited(packages, pending, records)
    ensures Fits(packages, pending, id, pending[id].candidate.package.componentBytes)
  {
    StagedFits(packages, pending, id);
  }

  lemma NotStaged(packages: map<Id, Managed>, pending: map<Id, PendingUpgrade>, id: Id)
    requires Staged(packages, pending) && id !in packages
    ensures id !in pending
  {
  }

  /** What the last of these provisional commits of `id` found. */
  ghost function LastFor(history: seq<PreCommit>, id: Id): Option<PreCommit> {
    if history == [] then None
    else if history[|history| - 1].candidate.id == id then Some(history[|history| - 1])
    else LastFor(history[..|history| - 1], id)
  }

  lemma {:induction false} LastOfTwo(a: seq<PreCommit>, b: seq<PreCommit>, id: Id)
    ensures LastFor(a + b, id) == if LastFor(b, id).Some? then LastFor(b, id) else LastFor(a, id)
  {
    if b == [] {
      assert a + b == a;
    } else {
      assert (a + b)[..|a + b| - 1] == a + b[..|b| - 1];
      LastOfTwo(a, b[..|b| - 1], id);
    }
  }

  lemma LastOfOne(found: PreCommit, id: Id)
    ensures LastFor([found], id) == if found.candidate.id == id then Some(found) else None
  {
    assert [found][..0] == [];
  }

  /** An upgrade that is provisional belongs to the last of the given commits of its package, or was so before them. */
  ghost predicate StillTracked(activating: map<Id, ActivatingUpgrade>, before: map<Id, PreCommit>,
                               activating': map<Id, ActivatingUpgrade>, before': map<Id, PreCommit>,
                               commits: seq<PreCommit>, id: Id) {
    id in activating' ==>
      && id in before'
      && match LastFor(commits, id)
         case Some(found) => before'[id] == found
         case None => id in activating && activating'[id] == activating[id] && id in before && before'[id] == before[id]
  }

  lemma TrackedThen(activating: map<Id, ActivatingUpgrade>, before: map<Id, PreCommit>,
                    activating': map<Id, ActivatingUpgrade>, before': map<Id, PreCommit>, commits: seq<PreCommit>,
                    activating'': map<Id, ActivatingUpgrade>, before'': map<Id, PreCommit>, more: seq<PreCommit>, id: Id)
    requires StillTracked(activating, before, activating', before', commits, id)
    requires StillTracked(activating', before', activating'', before'', more, id)
    ensures StillTracked(activating, before, activating'', before'', commits + more, id)
  {
    LastOfTwo(commits, more, id);
  }

  /** A package without a provisional upgrade keeps having none, and stays what it is. */
  ghost predicate LeftInPlace(packages: map<Id, Managed>, activating: map<Id, ActivatingUpgrade>,
                              packages': map<Id, Managed>, activating': map<Id, ActivatingUpgrade>, id: Id) {
    id !in activating ==>
      id !in activating' && (id in packages ==> id in packages' && packages'[id] == packages[id])
  }

  lemma LeftThen(p: map<Id, Managed>, a: map<Id, ActivatingUpgrade>, p': map<Id, Managed>, a': map<Id, ActivatingUpgrade>,
                 p'': map<Id, Managed>, a'': map<Id, ActivatingUpgrade>, id: Id)
    requires LeftInPlace(p, a, p', a', id) && LeftInPlace(p', a', p'', a'', id)
    ensures LeftInPlace(p, a, p'', a'', id)
  {
  }

  lemma NothingYet(packages: map<Id, Managed>, activating: map<Id, ActivatingUpgrade>, before: map<Id, PreCommit>)
    requires activating.Keys <= before.Keys
    ensures forall id :: StillTracked(activating, before, activating, before, [], id)
    ensures forall id :: LeftInPlace(packages, activating, packages, activating, id)
  {
  }

  /** A step that only takes provisional upgrades away, and changes the packages of `ids` alone. */
  lemma OnlyFewer(packages: map<Id, Managed>, activating: map<Id, ActivatingUpgrade>, before: map<Id, PreCommit>,
                  packages': map<Id, Managed>, activating': map<Id, ActivatingUpgrade>, ids: set<Id>)
    requires activating.Keys <= before.Keys
    requires forall k :: k in activating' ==> k in activating && activating'[k] == activating[k]
    requires forall k :: k in packages && k !in ids ==> k in packages' && packages'[k] == packages[k]
    ensures forall id :: StillTracked(activating, before, activating', before, [], id)
    ensures forall id :: id !in ids || id in activating ==> LeftInPlace(packages, activating, packages', activating', id)
  {
  }

  lemma PackagesChanged(a: View, b: View, ids: set<Id>)
    requires Changed(a, b, ids)
    ensures forall k :: k in a.packages && k !in ids ==> k in b.packages && b.packages[k] == a.packages[k]
  {
  }

  lemma Entered(packages: map<Id, Managed>, activating: map<Id, ActivatingUpgrade>, before: map<Id, PreCommit>,
                history: seq<PreCommit>, packages': map<Id, Managed>, activating': map<Id, ActivatingUpgrade>,
                before': map<Id, PreCommit>, history': seq<PreCommit>, id: Id)
    requires activating.Keys <= before.Keys
    requires packages - {id} == packages' - {id} && activating - {id} == activating' - {id}
    requires || (activating' == activating && before' == before && history' == history)
             || (&& |history'| == |history| + 1 && history'[..|history|] == history
                 && history'[|history|].candidate.id == id
                 && id in activating' && before' == before[id := history'[|history|]])
    ensures history <= history'
    ensures forall k :: StillTracked(activating, before, activating', before', history'[|history|..], k)
    ensures forall k :: k != id ==> LeftInPlace(packages, activating, packages', activating', k)
  {
    ElsewhereSame(packages, packages', id);
    ElsewhereSame(activating, activating', id);
    if history' == history {
      assert history'[|history|..] == [];
    } else {
      var found := history'[|history|];
      assert history'[|history|..] == [found];
      forall k ensures LastFor([found], k) == if k == id then Some(found) else None {
        LastOfOne(found, k);
      }
    }
  }

  /** Starting or stopping one package keeps the links. */
  lemma HostStep(packages: map<Id, Managed>, records: map<Id, HostRecord>, records': map<Id, HostRecord>,
                 adapters: map<Id, Adapter>, id: Id)
    requires Linked(packages, records, adapters) && Demoted(records, records', id)
    requires id in records && id in records' && records'[id].manifest == records[id].manifest
    ensures Linked(packages, records', adapters)
    ensures Demoted(records - {id}, records' - {id}, id)
  {
  }

  lemma StartedWithin(packages: map<Id, Managed>, records: map<Id, HostRecord>, records': map<Id, HostRecord>, id: Id)
    requires id in packages && id in records && Demoted(records, records', id) && id in records'
    requires records'[id].state.Active? ==> records[id].state.Active? || |ActiveIds(packages, records)| < MAX_ACTIVE
    ensures |ActiveIds(packages, records)| <= MAX_ACTIVE ==> |ActiveIds(packages, records')| <= MAX_ACTIVE
  {
    FewerActive(packages, packages, records, records', id);
    SubsetSize(ActiveIds(packages, records'), ActiveIds(packages, records) + {id});
    if records[id].state.Active? {
      assert ActiveIds(packages, records) + {id} == ActiveIds(packages, records);
    }
  }

  lemma RemovedElsewhere(packages: map<Id, Managed>, records: map<Id, HostRecord>, adapters: map<Id, Adapter>,
                         records': map<Id, HostRecord>, id: Id)
    requires Linked(packages, records, adapters)
    requires Demoted(records - {id}, records', id) && id !in records'
    ensures Linked(packages - {id}, records', adapters - {id})
    ensures Demoted(records - {id}, records' - {id}, id)
  {
    assert records' - {id} == records';
  }

  lemma RemovedSize(packages: map<Id, Managed>, id: Id)
    ensures |packages - {id}| <= |packages|
    ensures (packages - {id}).Keys <= packages.Keys
  {
    SubsetSize((packages - {id}).Keys, packages.Keys);
  }

  lemma TwiceRemoved<T>(m: map<Id, T>, id: Id)
    ensures m - {id} - {id} == m - {id}
  {
  }

  /** The first request for a permission, which is the one that counts. */
  function RequestFor(rs: seq<Request>, p: Permission): Option<Request> {
    if rs == [] then None else if rs[0].permission == p then Some(rs[0]) else RequestFor(rs[1..], p)
  }

  predicate Asks(rs: seq<Request>, p: Permission) { RequestFor(rs, p).Some? && RequestFor(rs, p).value.required }

  lemma {:induction false} AskedIsNamed(rs: seq<Request>, p: Permission)
    ensures RequestFor(rs, p).Some? <==> p in Names(rs)
    ensures RequestFor(rs, p).Some? ==> (Asks(rs, p) <==> RequestFor(rs, p).value.required)
  {
    if rs != [] {
      AskedIsNamed(rs[1..], p);
      assert rs == [rs[0]] + rs[1..];
      assert Names(rs) == {rs[0].permission} + Names(rs[1..]);
    }
  }

  lemma LinkedDrifts(packages: map<Id, Managed>, records: map<Id, HostRecord>, records': map<Id, HostRecord>,
                     adapters: map<Id, Adapter>)
    requires Linked(packages, records, adapters) && Drifted(records, records')
    ensures Linked(packages, records', adapters)
  {
  }

  lemma TrackedIs(packages: map<Id, Managed>, activating: map<Id, ActivatingUpgrade>, before: map<Id, PreCommit>, id: Id)
    requires Tracked(packages, activating, before) && id in activating
    ensures id in packages && id in before && before[id].lifecycle.Active?
    ensures Prepared(before[id].managed, id) && ManifestOf(before[id].managed).acceptable
    ensures activating[id] == ActivatingUpgrade(before[id].managed, Active,
              Captured(before[id].decisions, AskedBy(ManifestOf(before[id].managed), before[id].candidate)))
  {
  }

  /** Within the limits, a commit stays within them. */
  lemma CommitWithin(packages: map<Id, Managed>, pending: map<Id, PendingUpgrade>, records: map<Id, HostRecord>,
                     packages': map<Id, Managed>, pending': map<Id, PendingUpgrade>, records': map<Id, HostRecord>,
                     id: Id, p: PendingUpgrade)
    requires Limited(packages, pending, records) && Fits(packages, pending, id, p.candidate.package.componentBytes)
    requires packages'.Keys == packages.Keys && (packages' == packages || packages' == packages[id := p.candidate])
    requires pending' == pending - {id} || (pending' == pending && packages' == packages)
    requires Demoted(records - {id}, records' - {id}, id)
    requires id in records' && records'[id].state.Active? ==> id in records && records[id].state.Active?
    ensures Limited(packages', pending', records')
  {
    hide Demoted, Fits, Bytes, ActiveIds;
    FittingKeepsLimit(packages, pending, id, p);
    SameSize(packages, packages');
    ActiveShrinks(packages, packages', records, records', id);
  }

  lemma SameSize(packages: map<Id, Managed>, packages': map<Id, Managed>)
    requires packages.Keys == packages'.Keys
    ensures |packages| == |packages'|
  {
    assert |packages.Keys| == |packages|;
    assert |packages'.Keys| == |packages'|;
  }

  lemma ActiveShrinks(packages: map<Id, Managed>, packages': map<Id, Managed>,
                      records: map<Id, HostRecord>, records': map<Id, HostRecord>, id: Id)
    requires packages'.Keys <= packages.Keys && Demoted(records - {id}, records' - {id}, id)
    requires id in records' && records'[id].state.Active? ==> id in records && records[id].state.Active?
    ensures |ActiveIds(packages', records')| <= |ActiveIds(packages, records)|
  {
    forall k | k in ActiveIds(packages', records') ensures k in ActiveIds(packages, records) {
      if k != id {
        assert k in records' - {id};
        assert k in records - {id};
      }
    }
    SubsetSize(ActiveIds(packages', records'), ActiveIds(packages, records));
  }

  /** A proposal that resets authority asks for everything its candidate requires. */
  lemma ProposalStages(packages: map<Id, Managed>, pending: map<Id, PendingUpgrade>, previous: Package, ds: Decisions,
                       m: Managed, id: Id)
    requires Staged(packages, pending) && Prepared(m, id) && id in packages
    ensures var p := PendingUpgrade(m, !SignerContinuity(previous, m.package), ToApprove(previous, m.package, ds));
            Staged(packages, pending[id := p])
  {
  }

  lemma StagedWithin(packages: map<Id, Managed>, pending: map<Id, PendingUpgrade>, records: map<Id, HostRecord>,
                     id: Id, p: PendingUpgrade)
    ensures Limited(packages, pending, records) && Fits(packages, pending, id, p.candidate.package.componentBytes) ==>
              Limited(packages, pending[id := p], records)
  {
    if Fits(packages, pending, id, p.candidate.package.componentBytes) {
      FittingKeepsLimit(packages, pending, id, p);
    }
  }

  lemma InstallKeeps(packages: map<Id, Managed>, pending: map<Id, PendingUpgrade>, activating: map<Id, ActivatingUpgrade>,
                  before: map<Id, PreCommit>, records: map<Id, HostRecord>, adapters: map<Id, Adapter>, id: Id, m: Managed,
                  installed: map<Id, HostRecord>, records': map<Id, HostRecord>, adapters': map<Id, Adapter>)
    requires Linked(packages, records, adapters) && Staged(packages, pending) && Tracked(packages, activating, before)
    requires id !in packages && id !in records && id !in pending && |packages| < MAX_INSTALLED
    requires installed == records[id := HostRecord(ManifestOf(m), Validated)] && adapters' - {id} == adapters - {id}
    requires Demoted(installed, records', id) && LinkedAt(m, installed, adapters', id)
    requires id in records' && records'[id].manifest == ManifestOf(m)
    ensures Linked(packages[id := m], records', adapters') && Staged(packages[id := m], pending)
    ensures Tracked(packages[id := m], activating, before) && Demoted(records - {id}, records' - {id}, id)
    ensures packages[id := m] - {id} == packages - {id}
  {
    hide Demoted, Linked, LinkedAt, Staged, Tracked, Fits, Limited, ActiveIds;
    LinkedOn(m, installed, records', adapters', id);
    LinkedFresh(packages, records, adapters, m, HostRecord(ManifestOf(m), Validated), records', adapters', id);
    StagedAfter(packages, pending, packages[id := m], pending, id);
    TrackedAfter(packages, activating, before, packages[id := m], activating, id);
  }

  /** Starting or stopping a package leaves it linked. */
  lemma LinkedOn(m: Managed, records: map<Id, HostRecord>, records': map<Id, HostRecord>, adapters: map<Id, Adapter>, id: Id)
    requires LinkedAt(m, records, adapters, id) && id in records' && records'[id].manifest == records[id].manifest
    ensures LinkedAt(m, records', adapters, id)
  {
  }

  lemma PreparedIsOwn(m: Managed, id: Id)
    requires Prepared(m, id)
    ensures ManifestOf(m).id == id && !ManifestOf(m).native && (m.adapter.Some? ==> m.adapter.value.extension == id)
  {
  }

  lemma NotLinked(packages: map<Id, Managed>, pending: map<Id, PendingUpgrade>, records: map<Id, HostRecord>,
                  adapters: map<Id, Adapter>, id: Id)
    requires Linked(packages, records, adapters) && Staged(packages, pending) && id !in records
    ensures id !in packages && id !in adapters && id !in pending
  {
  }

  lemma LinkedFresh(packages: map<Id, Managed>, records: map<Id, HostRecord>, adapters: map<Id, Adapter>, m: Managed,
                    record: HostRecord, records': map<Id, HostRecord>, adapters': map<Id, Adapter>, id: Id)
    requires Linked(packages, records, adapters) && id !in records
    requires adapters' - {id} == adapters - {id}
    requires Demoted(records[id := record], records', id) && LinkedAt(m, records', adapters', id)
    ensures Linked(packages[id := m], records', adapters')
    ensures Demoted(records - {id}, records' - {id}, id)
  {
    DemotedElsewhere(records[id := record], records', id);
    assert records[id := record] - {id} == records - {id};
    LinkedElsewhere(packages, records, adapters, packages[id := m], records', adapters', id);
  }

  lemma TrackedAfter(packages: map<Id, Managed>, activating: map<Id, ActivatingUpgrade>, before: map<Id, PreCommit>,
                     packages': map<Id, Managed>, activating': map<Id, ActivatingUpgrade>, id: Id)
    requires Tracked(packages, activating, before) && packages.Keys - {id} <= packages'.Keys
    requires activating' == activating - {id} || (activating' == activating && (id in packages ==> id in packages'))
    ensures Tracked(packages', activating', before)
  {
  }

  lemma FreshIsIdle(packages: map<Id, Managed>, records: map<Id, HostRecord>, id: Id, m: Managed, record: HostRecord)
    requires id !in packages && !record.state.Active?
    ensures ActiveIds(packages[id := m], records[id := record]) == ActiveIds(packages, records)
  {
  }

  /** A package that starts below the limit of active packages does not exceed it. */
  lemma FreshActive(packages: map<Id, Managed>, records: map<Id, HostRecord>, id: Id,
                    m: Managed, record: HostRecord, records': map<Id, HostRecord>)
    requires id !in packages && id !in records && |ActiveIds(packages, records)| <= MAX_ACTIVE
    requires !record.state.Active? && Demoted(records[id := record], records', id)
    requires records'[id].state.Active? ==> |ActiveIds(packages[id := m], records[id := record])| < MAX_ACTIVE
    ensures |ActiveIds(packages[id := m], records')| <= MAX_ACTIVE
  {
    assert ActiveIds(packages[id := m], records[id := record]) == ActiveIds(packages, records);
    FewerActive(packages[id := m], packages[id := m], records[id := record], records', id);
    SubsetSize(ActiveIds(packages[id := m], records'), ActiveIds(packages, records) + {id});
  }

  lemma FreshWithin(packages: map<Id, Managed>, pending: map<Id, PendingUpgrade>, records: map<Id, HostRecord>, id: Id,
                    m: Managed, record: HostRecord, records': map<Id, HostRecord>)
    requires id !in packages && id !in pending && |packages| < MAX_INSTALLED && id !in records
    requires !record.state.Active? && Demoted(records[id := record], records', id)
    requires records'[id].state.Active? ==> |ActiveIds(packages[id := m], records[id := record])| < MAX_ACTIVE
    requires Limited(packages, pending, records) && Fits(packages, pending, id, m.package.componentBytes)
    ensures Limited(packages[id := m], pending, records')
  {
    hide Demoted, Fits, Bytes, ActiveIds;
    FreshActive(packages, records, id, m, record, records');
    FreshBytes(packages, pending, id, m);
    PutSize(packages, id, m);
  }

  lemma PutSize(packages: map<Id, Managed>, id: Id, m: Managed)
    requires id !in packages
    ensures |packages[id := m]| == |packages| + 1
  {
    assert packages[id := m].Keys == packages.Keys + {id};
  }

  lemma FreshBytes(packages: map<Id, Managed>, pending: map<Id, PendingUpgrade>, id: Id, m: Managed)
    requires id !in pending && Fits(packages, pending, id, m.package.componentBytes)
    ensures Bytes(packages[id := m], pending) <= MAX_COMPONENT_BYTES
  {
    assert pending - {id} == pending;
    FittingKeepsLimit(packages, pending, id, PendingUpgrade(m, true, []));
  }

  /** Empties the place of the old package: stopped, no adapter, and the authority the candidate was approved for. */
  method ClearTheWay(host: ExtensionHost, id: Id, p: PendingUpgrade)
    requires host.Valid() && id in host.records && host.adapters.Keys <= host.records.Keys
    modifies host`records, host`adapters, host`decisions
    ensures host.Valid() && Demoted(old(host.records), host.records, id)
    ensures host.records[id] == old(host.records)[id].(state := Disabled)
    ensures host.adapters == old(host.adapters) - {id} && host.adapters.Keys <= host.records.Keys
    ensures host.DecisionsOf(id) == Authority(p, old(host.DecisionsOf(id)))
    ensures host.decisions - {id} == old(host.decisions) - {id}
  {
    hide Demoted, Settled, DecidedAll;
    var _ := host.Unload(id);
    SameKeys(old(host.records), host.records, id);
    host.RemoveAdapter(id);
    if p.resetAuthority {
      host.ClearPermissionDecisions(id);
    }
    DecideAll(host, id, p.toApprove, Granted);
  }

  /** The host side of a rollback up to its lifecycle: record and adapter of the previous package. */
  method PutBack(host: ExtensionHost, id: Id, previous: Managed)
    requires host.Valid() && id in host.records && host.adapters.Keys <= host.records.Keys
    requires Prepared(previous, id) && ManifestOf(previous).acceptable
    modifies host`records, host`adapters
    ensures host.Valid() && Demoted(old(host.records), host.records, id)
    ensures LinkedAt(previous, host.records, host.adapters, id) && host.records[id].state.Validated?
    ensures host.adapters - {id} == old(host.adapters) - {id} && host.adapters.Keys <= host.records.Keys
  {
    hide Demoted, Settled;
    var _ := host.Unload(id);
    host.RemoveAdapter(id);
    DemotedPut(old(host.records), host.records, id, HostRecord(ManifestOf(previous), Validated));
    var _ := host.ReplacePackage(ManifestOf(previous));
    RegisterManagedAdapter(host, previous);
    SameKeys(old(host.records), host.records, id);
  }

  lemma AtId(packages: map<Id, Managed>, records: map<Id, HostRecord>, adapters: map<Id, Adapter>, id: Id)
    requires Linked(packages, records, adapters)
    ensures adapters.Keys <= records.Keys
    ensures id in packages ==> LinkedAt(packages[id], records, adapters, id) && id in records
    ensures id in packages ==> Prepared(packages[id], id) && ManifestOf(packages[id]).acceptable
  {
  }

  lemma AtIdManifest(m: Managed, records: map<Id, HostRecord>, adapters: map<Id, Adapter>, id: Id)
    requires LinkedAt(m, records, adapters, id)
    ensures id in records && records[id].manifest == ManifestOf(m)
  {
  }

  lemma CandidateIsLinked(m: Managed, records: map<Id, HostRecord>, adapters: map<Id, Adapter>, id: Id)
    requires Prepared(m, id) && ManifestOf(m).acceptable && id in records && records[id].manifest == ManifestOf(m)
    requires if m.adapter.Some? then id in adapters && adapters[id] == m.adapter.value else id !in adapters
    ensures LinkedAt(m, records, adapters, id)
  {
  }

  lemma AdapterIsOwn(m: Managed, id: Id)
    requires Prepared(m, id)
    ensures m.adapter.Some? ==> m.adapter.value.extension == id
  {
  }

  lemma IsReinstated(host: ExtensionHost, packages: map<Id, Managed>, id: Id, found: PreCommit)
    requires id in packages && packages[id] == found.managed
    requires LinkedAt(packages[id], host.records, host.adapters, id)
    requires SameDecisions(host.DecisionsOf(id), found.decisions, Names(AskedBy(ManifestOf(found.managed), found.candidate)))
    ensures Reinstated(host, packages, id, found) && id in host.records
  {
  }

  lemma Relinked(packages: map<Id, Managed>, records: map<Id, HostRecord>, adapters: map<Id, Adapter>,
                 packages': map<Id, Managed>, records': map<Id, HostRecord>, adapters': map<Id, Adapter>, id: Id)
    requires Linked(packages, records, adapters) && Demoted(records, records', id)
    requires packages' - {id} == packages - {id} && adapters' - {id} == adapters - {id}
    requires id in packages' && LinkedAt(packages'[id], records', adapters', id)
    ensures Linked(packages', records', adapters')
    ensures Demoted(records - {id}, records' - {id}, id)
  {
    DemotedElsewhere(records, records', id);
    LinkedElsewhere(packages, records, adapters, packages', records', adapters', id);
  }

  lemma StagedAfter(packages: map<Id, Managed>, pending: map<Id, PendingUpgrade>,
                    packages': map<Id, Managed>, pending': map<Id, PendingUpgrade>, id: Id)
    requires Staged(packages, pending) && packages.Keys - {id} <= packages'.Keys
    requires pending' == pending - {id} || (pending' == pending && id in packages')
    ensures Staged(packages', pending')
  {
  }

  lemma TrackedStep(packages: map<Id, Managed>, activating: map<Id, ActivatingUpgrade>, before: map<Id, PreCommit>,
                    packages': map<Id, Managed>, activating': map<Id, ActivatingUpgrade>, before': map<Id, PreCommit>,
                    id: Id, found: PreCommit)
    requires Tracked(packages, activating, before) && packages.Keys <= packages'.Keys && id in packages'
    requires Prepared(found.managed, id) && ManifestOf(found.managed).acceptable
    requires || (activating' == activating && before' == before)
             || (&& found.lifecycle.Active? && before' == before[id := found]
                 && activating' == activating[id := ActivatingUpgrade(found.managed, Active,
                      Captured(found.decisions, AskedBy(ManifestOf(found.managed), found.candidate)))])
    ensures Tracked(packages', activating', before')
  {
  }

  lemma SameActive(packages: map<Id, Managed>, packages': map<Id, Managed>, records: map<Id, HostRecord>)
    requires packages.Keys == packages'.Keys
    ensures ActiveIds(packages, records) == ActiveIds(packages', records)
  {
  }

  lemma SubsetSize<T>(a: set<T>, b: set<T>)
    requires a <= b
    ensures |a| <= |b|
  {
    assert b == a + (b - a);
  }

  /**
    A settlement that takes an upgrade back starts the previous package without looking at the limit of active ones.
    The limit holds if fewer than that many others are active, and only then if none of them stopped.
  */
  lemma RestartWithinLimit(packages: map<Id, Managed>, records: map<Id, HostRecord>,
                           packages': map<Id, Managed>, records': map<Id, HostRecord>, id: Id)
    requires ActiveIds(packages', records') <= ActiveIds(packages, records) + {id}
    ensures |ActiveIds(packages, records) - {id}| < MAX_ACTIVE ==> |ActiveIds(packages', records')| <= MAX_ACTIVE
    ensures ActiveIds(packages', records') == ActiveIds(packages, records) + {id} ==>
              (|ActiveIds(packages', records')| <= MAX_ACTIVE <==> |ActiveIds(packages, records) - {id}| < MAX_ACTIVE)
  {
    hide ActiveIds;
    var others := ActiveIds(packages, records) - {id};
    assert ActiveIds(packages, records) + {id} == others + {id};
    SubsetSize(ActiveIds(packages', records'), others + {id});
  }

  lemma OthersStay(packages: map<Id, Managed>, records: map<Id, HostRecord>,
                   packages': map<Id, Managed>, records': map<Id, HostRecord>, id: Id)
    requires packages.Keys == packages'.Keys && Demoted(records - {id}, records' - {id}, id)
    ensures ActiveIds(packages', records') <= ActiveIds(packages, records) + {id}
  {
    forall k | k in ActiveIds(packages', records') && k != id ensures k in ActiveIds(packages, records) {
      assert k in records' - {id};
      assert k in records - {id};
    }
  }

  /** Demotion only shrinks the set of active packages. */
  lemma FewerActive(packages: map<Id, Managed>, packages': map<Id, Managed>,
                    records: map<Id, HostRecord>, records': map<Id, HostRecord>, id: Id)
    requires packages.Keys == packages'.Keys && Demoted(records, records', id)
    ensures ActiveIds(packages', records') <= ActiveIds(packages, records) + {id}
    ensures id in records' && !records'[id].state.Active? ==>
              && ActiveIds(packages', records') <= ActiveIds(packages, records) - {id}
              && |ActiveIds(packages', records')| <= |ActiveIds(packages, records) - {id}|
  {
    if id in records' && !records'[id].state.Active? {
      SubsetSize(ActiveIds(packages', records'), ActiveIds(packages, records) - {id});
    }
  }

  lemma SameKeys(before: map<Id, HostRecord>, after: map<Id, HostRecord>, id: Id)
    requires Demoted(before, after, id)
    ensures before.Keys == after.Keys
  {
  }

  method RegisterManagedAdapter(host: ExtensionHost, m: Managed)
    requires m.adapter.Some? ==> m.adapter.value.extension == ManifestOf(m).id
    modifies host`adapters
    ensures host.adapters ==
            if m.adapter.Some? then old(host.adapters)[ManifestOf(m).id := m.adapter.value] else old(host.adapters)
  {
    if m.adapter.Some? {
      host.RegisterAdapter(m.adapter.value);
    }
  }
}
