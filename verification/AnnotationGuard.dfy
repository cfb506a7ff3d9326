/**
  Opening another document must not lose annotations: a request made while annotations are unsaved waits for the save.
  The saving service is an environment. It answers each save at most once, saved or failed; it may skip a save that a
  newer one of the same document has overtaken. Its mailbox is bounded, so a save may also not be taken at all.
*/
module AnnotationGuards {
  import opened Wrappers

  type Path = string

  datatype Save = Save(generation: nat, revision: nat)

  class AnnotationIo {
    var saves: multiset<Save>
    /** The highest revision on disk, by document. */
    ghost var durable: map<nat, nat>

    constructor ()
      ensures saves == multiset{} && durable == map[]
    {
      saves, durable := multiset{}, map[];
    }

    /** A save is taken if the service is reachable and its mailbox has room. */
    method Enqueue(save: Save, reachable: bool) returns (sent: bool)
      modifies this`saves
      ensures sent == reachable && saves == if sent then old(saves) + multiset{save} else old(saves)
    {
      sent := reachable;
      if sent {
        saves := saves + multiset{save};
      }
    }

    /** Annotations of a document are read from disk. */
    method Read(generation: nat, revision: nat)
      modifies this`durable
      ensures durable == old(durable)[generation := revision]
    {
      durable := durable[generation := revision];
    }

    method Written(save: Save)
      requires save in saves
      modifies this
      ensures saves == old(saves) - multiset{save}
      ensures save.generation in durable && durable[save.generation] >= save.revision
      ensures forall g :: g in old(durable) ==> g in durable && durable[g] >= old(durable)[g]
    {
      saves := saves - multiset{save};
      if save.generation !in durable || durable[save.generation] < save.revision {
        durable := durable[save.generation := save.revision];
      }
    }

    method NotWritten(save: Save)
      requires save in saves
      modifies this`saves
      ensures saves == old(saves) - multiset{save}
    {
      saves := saves - multiset{save};
    }

    /** A save overtaken by one that is as new or newer is skipped. */
    method Skip(save: Save, newer: Save)
      requires multiset{save, newer} <= saves && save.generation == newer.generation && save.revision <= newer.revision
      modifies this`saves
      ensures saves == old(saves) - multiset{save}
    {
      saves := saves - multiset{save};
    }
  }

  function Max(a: nat, b: nat): nat { if a < b then b else a }

  function Unsaved(current: Option<nat>, saved: nat): Option<nat> {
    if current.Some? && current.value > saved then current else None
  }

  datatype Transition = NoneWaiting | Waiting | Open(path: Path) | Cancelled(path: Path)

  /** What becomes of a waiting request when a save ends. */
  function TransitionPendingOpen(pending: Option<Path>, current: Option<nat>, saved: nat, saveFailed: bool)
    : (r: (Transition, Option<Path>))
    ensures r.0.NoneWaiting? <==> pending.None?
    ensures r.1 == if r.0.Waiting? then pending else None
    ensures r.0.Open? ==> Some(r.0.path) == pending && Unsaved(current, saved).None? && !saveFailed
    ensures r.0.Cancelled? ==> Some(r.0.path) == pending && saveFailed
  {
    if pending.None? then (NoneWaiting, None)
    else if saveFailed then (Cancelled(pending.value), None)
    else if Unsaved(current, saved).Some? then (Waiting, pending)
    else (Open(pending.value), None)
  }

  /** How a request ended. */
  datatype Outcome = Started | Abandoned | Overtaken

  class AnnotationGuard {
    const io: AnnotationIo
    var generation: nat
    var hasDocument: bool
    var hasIdentity: bool
    /** The revision of the annotations, once there are any. */
    var current: Option<nat>
    var saved: nat
    var enqueued: nat
    var failed: Option<nat>
    var blocked: bool
    var loading: bool
    var pendingOpen: Option<Path>
    /** Requests are numbered as they are made; every one but the waiting one has ended. */
    ghost var requests: nat
    ghost var waiting: Option<nat>
    ghost var outcomes: map<nat, Outcome>

    ghost predicate Valid()
      reads this, io
    {
      && SavesAreSound()
      && (loading ==> hasDocument && current.None? && pendingOpen.None?)
      && WaitsForASave(io.saves, generation, current, saved, enqueued, pendingOpen.Some?)
      && Accounted(outcomes, requests, waiting) && (pendingOpen.Some? <==> waiting.Some?)
    }

    /** The revision counters say what the disk and the saving service say. */
    ghost predicate SavesAreSound()
      reads this, io
    {
      && Covered(io.durable, generation, saved)
      && Queued(io.saves, generation, enqueued, saved, failed)
      && NoneBeyond(io.saves, generation, enqueued)
      && (if current.Some? then enqueued <= current.value else enqueued == 0 && saved == 0)
      && (current.Some? && current.value > 0 && !blocked ==> hasDocument && hasIdentity)
    }

    constructor ()
      ensures Valid() && fresh(io) && current.None? && pendingOpen.None? && outcomes == map[]
      ensures generation == 0 && !hasDocument && !hasIdentity && !blocked && !loading && io.saves == multiset{}
      ensures saved == 0 && enqueued == 0 && failed.None?
    {
      io := new AnnotationIo();
      generation, hasDocument, hasIdentity, current := 0, false, false, None;
      saved, enqueued, failed, blocked, loading, pendingOpen := 0, 0, None, false, false, None;
      outcomes, requests, waiting := map[], 0, None;
    }

    /** Queues the annotations for saving. */
    method PersistAnnotations(reachable: bool) returns (queued: bool)
      requires SavesAreSound()
      modifies this`enqueued, this`failed, io`saves
      ensures SavesAreSound()
      ensures queued == (reachable && !blocked && hasDocument && hasIdentity && current.Some?)
      ensures queued ==> current == Some(enqueued) && io.saves == old(io.saves) + multiset{Save(generation, enqueued)}
      ensures failed == if !queued && !blocked && hasDocument && hasIdentity && current.Some? then current else old(failed)
      ensures !queued ==> enqueued == old(enqueued) && io.saves == old(io.saves)
      ensures old(io.saves) <= io.saves && enqueued >= old(enqueued)
    {
      if blocked || !hasDocument || !hasIdentity || current.None? {
        return false;
      }
      queued := io.Enqueue(Save(generation, current.value), reachable);
      if queued {
        enqueued := if enqueued < current.value then current.value else enqueued;
      } else {
        failed := current;
      }
    }

    /**
      An edit, once annotations are loaded and not blocked. It is queued for saving at once; so is one that changes
      nothing while something is unsaved.
    */
    method Edit(changes: bool, reachable: bool)
      requires Valid() && current.Some? && !blocked && hasDocument && hasIdentity
      modifies this`current, this`enqueued, this`failed, io`saves
      ensures Valid() && current == Some(old(current).value + (if changes then 1 else 0))
      ensures if reachable && (changes || current.value > saved)
              then enqueued == current.value && io.saves == old(io.saves) + multiset{Save(generation, enqueued)}
                   && failed == old(failed)
              else enqueued == old(enqueued) && io.saves == old(io.saves)
    {
      hide Accounted, NoneBeyond, Covered, Queued;
      if changes {
        current := Some(current.value + 1);
      }
      if changes || current.value > saved {
        var _ := PersistAnnotations(reachable);
      }
    }

    /** The document that is open stays open, as far as saving goes. */
    twostate predicate SameDocument()
      reads this
    {
      hasDocument == old(hasDocument) && hasIdentity == old(hasIdentity) && blocked == old(blocked) && loading == old(loading)
    }

    /** Opens another document now, or once the annotations are saved, or not at all. */
    method OpenPath(path: Path, reachable: bool)
      requires Valid()
      modifies this, io`saves
      ensures Valid() && requests == old(requests) + 1 && SameOutcomes(old(outcomes), outcomes)
      ensures generation == old(generation) ==>
                && current == old(current) && saved == old(saved) && enqueued >= old(enqueued)
                && old(io.saves) <= io.saves && io.durable == old(io.durable) && SameDocument()
      ensures generation == old(generation) && !old(blocked) && old(current) == Some(old(enqueued)) && old(failed).None? ==>
                pendingOpen == Some(path) && enqueued == old(enqueued) && failed == old(failed) && io.saves == old(io.saves)
      ensures generation == old(generation) + (if Unsaved(old(current), old(saved)).Some? then 0 else 1)
      ensures generation > old(generation) ==>
                && old(requests) in outcomes && outcomes[old(requests)].Started?
                && OnDisk(io.durable, old(generation), old(current))
      ensures generation == old(generation) && old(blocked) ==>
                && pendingOpen == old(pendingOpen)
                && old(requests) in outcomes && outcomes[old(requests)].Abandoned?
      ensures generation == old(generation) && !old(blocked) ==>
                && ((pendingOpen == Some(path) && waiting == Some(old(requests))) || pendingOpen.None?)
                && (old(waiting).Some? ==> old(waiting).value in outcomes && outcomes[old(waiting).value].Overtaken?)
    {
      hide Queued, Covered, Accounted, SameOutcomes;
      ghost var number := requests;
      requests := requests + 1;
      SameThen(outcomes, outcomes, outcomes);
      if Unsaved(current, saved).Some? {
        if blocked {
          Refused(outcomes, number, waiting);
          outcomes := outcomes[number := Abandoned];
          return;
        }
        if waiting.Some? {
          Ended(outcomes, number, waiting.value, Overtaken);
          outcomes := outcomes[waiting.value := Overtaken];
        }
        Made(outcomes, number);
        ghost var before := outcomes;
        Defer(path, number, reachable);
        SameThen(old(outcomes), before, outcomes);
        if old(waiting).Some? {
          StaysEnded(before, outcomes, old(waiting).value);
        }
      } else {
        Made(outcomes, number);
        Ended(outcomes, requests, number, Started);
        BeginOpen(path, number);
      }
    }

    /** Lets a request wait for the save that covers it; one whose save cannot be queued is abandoned. */
    method Defer(path: Path, ghost number: nat, reachable: bool)
      requires SavesAreSound() && current.Some? && current.value > saved && !loading
      requires Accounted(outcomes, requests, Some(number))
      modifies this`enqueued, this`failed, this`pendingOpen, this`waiting, this`outcomes, io`saves
      ensures Valid() && SameOutcomes(old(outcomes), outcomes)
      ensures (pendingOpen == Some(path) && waiting == Some(number)) || pendingOpen.None?
      ensures pendingOpen.None? ==> number in outcomes && outcomes[number].Abandoned?
      ensures enqueued >= old(enqueued) && old(io.saves) <= io.saves
      ensures old(enqueued) == current.value && old(failed).None? ==>
                pendingOpen.Some? && enqueued == old(enqueued) && failed == old(failed) && io.saves == old(io.saves)
    {
      hide Covered, Accounted, SameOutcomes, NoneBeyond;
      SameThen(outcomes, outcomes, outcomes);
      Ended(outcomes, requests, number, Abandoned);
      pendingOpen, waiting := Some(path), Some(number);
      if enqueued < current.value || failed.Some? {
        var queued := PersistAnnotations(reachable);
        if !queued {
          pendingOpen, waiting := None, None;
          outcomes := outcomes[number := Abandoned];
        }
      }
    }

    /** Leaves the present document. Every annotation of it is on disk. */
    method BeginOpen(path: Path, ghost number: nat)
      requires SavesAreSound() && Unsaved(current, saved).None?
      requires Accounted(outcomes, requests, Some(number))
      modifies this`generation, this`hasDocument, this`hasIdentity, this`current, this`saved, this`enqueued, this`failed,
               this`blocked, this`loading, this`pendingOpen, this`waiting, this`outcomes
      ensures Valid() && generation == old(generation) + 1 && pendingOpen.None? && current.None?
      ensures !hasDocument && !hasIdentity && !loading && !blocked && failed.None? && saved == 0 && enqueued == 0
      ensures outcomes == old(outcomes)[number := Started]
      ensures OnDisk(io.durable, old(generation), old(current))
    {
      hide Accounted, NoneBeyond, Covered, Queued, OnDisk;
      StillNoneBeyond(io.saves, io.saves, generation, generation + 1, enqueued, 0);
      SavedIsOnDisk(io.durable, generation, current, saved);
      NothingSaved(io.durable, io.saves, generation + 1);
      Ended(outcomes, requests, number, Started);
      pendingOpen, waiting := None, None;
      outcomes := outcomes[number := Started];
      generation := generation + 1;
      hasDocument, hasIdentity, current := false, false, None;
      loading, blocked, failed := false, false, None;
      enqueued, saved := 0, 0;
    }

    /** A document is open; its annotations are asked for. */
    method Opened(answering: nat, asked: bool)
      requires Valid() && (answering == generation ==> !hasDocument && current.None?)
      modifies this`hasDocument, this`loading, this`blocked, this`current
      ensures Valid()
      ensures if answering == generation then hasDocument && loading == asked && current == (if asked then None else Some(0))
              else hasDocument == old(hasDocument) && loading == old(loading) && current == old(current)
      ensures blocked == (old(blocked) || (answering == generation && !asked))
    {
      hide Accounted, Covered, Queued;
      if answering != generation {
        return;
      }
      loading := asked;
      if !asked {
        blocked := true;
        current := Some(0);
      }
      hasDocument := true;
    }

    /** The annotations of the present document are read; until then there are none to lose. */
    method Loaded(answering: nat, revision: nat)
      requires Valid() && (answering == generation ==> loading)
      modifies this`hasIdentity, this`loading, this`blocked, this`failed, this`current, this`saved, this`enqueued, io`durable
      ensures Valid() && (answering == generation ==> current == Some(revision) && saved == revision && !blocked)
      ensures answering == generation ==> hasDocument && hasIdentity && enqueued == revision && failed.None?
    {
      hide Accounted, NoneBeyond;
      if answering != generation {
        return;
      }
      StillNoneBeyond(io.saves, io.saves, generation, generation, enqueued, revision);
      io.Read(generation, revision);
      Take(revision);
    }

    method Take(revision: nat)
      requires hasDocument && NoneBeyond(io.saves, generation, revision) && Covered(io.durable, generation, revision)
      modifies this`hasIdentity, this`loading, this`blocked, this`failed, this`current, this`saved, this`enqueued
      ensures SavesAreSound() && current == Some(revision) && saved == revision && !blocked && !loading
      ensures hasIdentity && enqueued == revision && failed.None?
    {
      hide NoneBeyond, Covered;
      saved, enqueued, current := revision, revision, Some(revision);
      hasIdentity, loading, blocked, failed := true, false, false, None;
    }

    /** The annotations could not be read: the document starts with none, and saving is blocked. */
    method LoadFailed(answering: nat)
      requires Valid() && (answering == generation ==> loading)
      modifies this`loading, this`blocked, this`current
      ensures Valid() && (answering == generation ==> current == Some(0) && blocked)
    {
      hide Accounted, Covered;
      if answering == generation {
        loading, blocked, current := false, true, Some(0);
      }
    }

    /** A save is done. If it was the last thing a request waited for, that request is started. */
    method SaveDone(save: Save)
      requires Valid() && save in io.saves
      modifies this, io
      ensures Valid() && SameOutcomes(old(outcomes), outcomes) && requests == old(requests)
      ensures save.generation != old(generation) ==> generation == old(generation) && pendingOpen == old(pendingOpen)
      ensures generation
              == old(generation)
                 + (if save.generation == old(generation) && old(pendingOpen).Some?
                       && Unsaved(old(current), Max(old(saved), save.revision)).None? then 1 else 0)
      ensures generation > old(generation) ==>
                && old(waiting).Some? && old(waiting).value in outcomes && outcomes[old(waiting).value].Started?
                && OnDisk(io.durable, old(generation), old(current))
      ensures generation == old(generation) ==>
                && pendingOpen == old(pendingOpen) && outcomes == old(outcomes)
                && current == old(current) && saved >= old(saved) && enqueued == old(enqueued)
      ensures generation == old(generation) ==>
                && SameDocument()
                && failed == if save.generation == generation && old(failed).Some? && old(failed).value <= save.revision
                             then None else old(failed)
      ensures generation > old(generation) ==> pendingOpen.None?
      ensures io.saves == old(io.saves) - multiset{save}
    {
      hide Accounted, SameOutcomes, SavesAreSound;
      SameThen(outcomes, outcomes, outcomes);
      RecordSaved(save);
      if save.generation == generation {
        var transition := TransitionPendingOpen(pendingOpen, current, saved, false);
        if transition.0.Open? {
          Ended(outcomes, requests, waiting.value, Started);
          BeginOpen(transition.0.path, waiting.value);
        }
      }
    }

    method RecordSaved(save: Save)
      requires SavesAreSound() && save in io.saves
      modifies this`saved, this`failed, io
      ensures SavesAreSound() && io.saves == old(io.saves) - multiset{save}
      ensures saved == if save.generation == generation && old(saved) < save.revision then save.revision else old(saved)
      ensures failed == if save.generation == generation && old(failed).Some? && old(failed).value <= save.revision
                        then None else old(failed)
      ensures save.revision != enqueued || save.generation != generation ==>
                old(io.saves)[Save(generation, enqueued)] == io.saves[Save(generation, enqueued)]
    {
      hide NoneBeyond;
      StillNoneBeyond(io.saves, io.saves - multiset{save}, generation, generation, enqueued, enqueued);
      WithinBound(io.saves, generation, enqueued, save);
      io.Written(save);
      if save.generation == generation {
        saved := if saved < save.revision then save.revision else saved;
        if failed.Some? && save.revision >= failed.value {
          failed := None;
        }
      }
    }

    /** A save failed: a waiting request is abandoned. */
    method SaveFailed(save: Save)
      requires Valid() && save in io.saves
      modifies this`failed, this`pendingOpen, this`waiting, this`outcomes, io`saves
      ensures Valid() && SameOutcomes(old(outcomes), outcomes)
      ensures save.generation == generation ==>
                && pendingOpen.None? && failed.Some? && failed.value >= save.revision
                && (old(waiting).Some? ==> old(waiting).value in outcomes && outcomes[old(waiting).value].Abandoned?)
      ensures save.generation != generation ==> pendingOpen == old(pendingOpen) && outcomes == old(outcomes)
    {
      hide Covered, Accounted, SameOutcomes, NoneBeyond;
      SameThen(outcomes, outcomes, outcomes);
      StillNoneBeyond(io.saves, io.saves - multiset{save}, generation, generation, enqueued, enqueued);
      io.NotWritten(save);
      if save.generation != generation {
        return;
      }
      failed := Some(if failed.Some? && failed.value > save.revision then failed.value else save.revision);
      var transition := TransitionPendingOpen(pendingOpen, current, saved, true);
      if transition.0.Cancelled? {
        Ended(outcomes, requests, waiting.value, Abandoned);
        outcomes := outcomes[waiting.value := Abandoned];
        pendingOpen, waiting := None, None;
      }
    }

    /** The service skips a save that a newer one has overtaken; whoever waits, waits for the newer one. */
    method SaveSkipped(save: Save, newer: Save)
      requires Valid() && multiset{save, newer} <= io.saves
      requires save.generation == newer.generation && save.revision <= newer.revision
      modifies io`saves
      ensures Valid()
    {
      hide Accounted, Covered;
      assert newer in io.saves;
      io.Skip(save, newer);
    }

    /** One of the saves under way starts the waiting request when it is done. */
    ghost predicate Answerable()
      reads this, io
    {
      exists s :: s in io.saves && s.generation == generation && Unsaved(current, Max(saved, s.revision)).None?
    }

    /** The saves under way can start the waiting request exactly if everything is queued. */
    lemma AnswerableIfQueued()
      requires Valid() && pendingOpen.Some?
      ensures Answerable() <==> current == Some(enqueued)
    {
      hide Covered, Queued, Accounted;
      if current == Some(enqueued) {
        assert Save(generation, enqueued) in io.saves;
      } else {
        forall s | s in io.saves && s.generation == generation ensures Unsaved(current, Max(saved, s.revision)).Some? {
          WithinBound(io.saves, generation, enqueued, s);
        }
      }
    }

    /** While nothing is being saved, a request waits only if an edit could not be queued. */
    lemma NothingSavingNothingWaiting()
      requires Valid() && pendingOpen.Some? && io.saves == multiset{}
      ensures current.Some? && current.value > enqueued
    {
      AnswerableIfQueued();
    }

    /**
      The saves under way are all done, in any order. A request that was waiting is started exactly if everything was
      queued; otherwise it still waits, and nothing is left that could answer it.
    */
    method AllDone()
      requires Valid() && pendingOpen.Some?
      modifies this, io
      ensures Valid() && io.saves == multiset{}
      ensures if old(current) == Some(old(enqueued)) then generation == old(generation) + 1
              else generation == old(generation) && pendingOpen == old(pendingOpen) && current == old(current)
    {
      hide Covered, Queued, Accounted, SameOutcomes;
      while io.saves != multiset{}
        invariant Valid()
        invariant generation == old(generation) ==>
                    pendingOpen == old(pendingOpen) && current == old(current) && enqueued == old(enqueued)
        invariant generation == old(generation)
                  || (generation == old(generation) + 1 && pendingOpen.None? && old(current) == Some(old(enqueued)))
        decreases |io.saves|
      {
        var save :| save in io.saves;
        WithinBound(io.saves, generation, enqueued, save);
        SaveDone(save);
      }
    }
  }

  /** An edit is queued, and a request waits for its save. */
  method WaitingOpen(path: Path) returns (g: AnnotationGuard)
    ensures fresh(g) && fresh(g.io) && g.Valid() && g.pendingOpen == Some(path) && g.io.saves == multiset{Save(0, 1)}
    ensures g.generation == 0 && g.current == Some(1) && g.saved == 0 && g.enqueued == 1 && g.failed.None?
    ensures g.hasDocument && g.hasIdentity && !g.blocked
  {
    hide AnnotationGuard.Valid, AnnotationGuard.SavesAreSound, SameOutcomes, OnDisk;
    g := new AnnotationGuard();
    g.Opened(0, true);
    g.Loaded(0, 0);
    g.Edit(true, true);
    g.OpenPath(path, true);
  }

  /** A request that nothing will answer: while it waits, another edit finds the mailbox full, and the save is done. */
  method StrandedOpen(path: Path) returns (g: AnnotationGuard)
    ensures g.Valid() && g.pendingOpen == Some(path) && g.io.saves == multiset{}
  {
    hide AnnotationGuard.Valid, AnnotationGuard.SavesAreSound, SameOutcomes, OnDisk;
    g := WaitingOpen(path);
    g.Edit(true, false);
    g.SaveDone(Save(0, 1));
  }

  /** What counts as saved is on disk. */
  ghost predicate Covered(durable: map<nat, nat>, generation: nat, saved: nat) {
    saved > 0 ==> generation in durable && saved <= durable[generation]
  }

  /** No save is under way for anything newer than the newest one of the present document. */
  ghost predicate NoneBeyond(saves: multiset<Save>, generation: nat, enqueued: nat) {
    forall s :: s in saves ==> s.generation < generation || (s.generation == generation && s.revision <= enqueued)
  }

  lemma WithinBound(saves: multiset<Save>, generation: nat, enqueued: nat, save: Save)
    requires NoneBeyond(saves, generation, enqueued) && save in saves
    ensures save.generation == generation ==> save.revision <= enqueued
  {
  }

  lemma StillNoneBeyond(saves: multiset<Save>, saves': multiset<Save>, generation: nat, generation': nat,
                        enqueued: nat, enqueued': nat)
    requires NoneBeyond(saves, generation, enqueued) && saves' <= saves
    requires generation < generation' || (generation == generation' && enqueued <= enqueued')
    ensures NoneBeyond(saves', generation', enqueued')
  {
    assert forall s :: s in saves' ==> s in saves;
  }

  lemma NothingSaved(durable: map<nat, nat>, saves: multiset<Save>, generation: nat)
    ensures Covered(durable, generation, 0) && Queued(saves, generation, 0, 0, None)
  {
  }

  lemma SavedIsOnDisk(durable: map<nat, nat>, generation: nat, current: Option<nat>, saved: nat)
    requires Covered(durable, generation, saved) && Unsaved(current, saved).None?
    ensures OnDisk(durable, generation, current)
  {
  }

  /** The annotations of a document, if it has any, are on disk. */
  ghost predicate OnDisk(durable: map<nat, nat>, generation: nat, current: Option<nat>) {
    current.Some? && current.value > 0 ==> generation in durable && current.value <= durable[generation]
  }

  /** The newest save is done, or under way, or known to have failed. */
  ghost predicate Queued(saves: multiset<Save>, generation: nat, enqueued: nat, saved: nat, failed: Option<nat>) {
    enqueued > saved ==> Save(generation, enqueued) in saves || (failed.Some? && failed.value >= enqueued)
  }

  /** A waiting request has something to wait for: a save under way, or an edit that is not queued. */
  ghost predicate WaitsForASave(saves: multiset<Save>, generation: nat, current: Option<nat>, saved: nat, enqueued: nat,
                                waits: bool) {
    waits ==>
      && current.Some? && current.value > saved
      && ((enqueued > saved && Save(generation, enqueued) in saves) || current.value > enqueued)
  }

  /** Every request but the waiting one has ended, in one way. */
  ghost predicate Accounted(outcomes: map<nat, Outcome>, requests: nat, waiting: Option<nat>) {
    && (forall n :: n in outcomes ==> n < requests)
    && (forall n :: 0 <= n < requests ==> n in outcomes || waiting == Some(n))
    && (waiting.Some? ==> waiting.value < requests && waiting.value !in outcomes)
  }

  /** A request that has ended stays ended as it did. */
  ghost predicate SameOutcomes(before: map<nat, Outcome>, after: map<nat, Outcome>) {
    forall n :: n in before ==> n in after && after[n] == before[n]
  }

  lemma Ended(outcomes: map<nat, Outcome>, requests: nat, number: nat, o: Outcome)
    requires Accounted(outcomes, requests, Some(number))
    ensures Accounted(outcomes[number := o], requests, None) && SameOutcomes(outcomes, outcomes[number := o])
  {
  }

  lemma Made(outcomes: map<nat, Outcome>, requests: nat)
    requires Accounted(outcomes, requests, None)
    ensures Accounted(outcomes, requests + 1, Some(requests))
  {
  }

  lemma Refused(outcomes: map<nat, Outcome>, requests: nat, waiting: Option<nat>)
    requires Accounted(outcomes, requests, waiting)
    ensures Accounted(outcomes[requests := Abandoned], requests + 1, waiting)
    ensures SameOutcomes(outcomes, outcomes[requests := Abandoned])
  {
  }

  lemma StaysEnded(a: map<nat, Outcome>, b: map<nat, Outcome>, number: nat)
    requires SameOutcomes(a, b) && number in a
    ensures number in b && b[number] == a[number]
  {
  }

  lemma SameThen(a: map<nat, Outcome>, b: map<nat, Outcome>, c: map<nat, Outcome>)
    ensures SameOutcomes(a, a)
    ensures SameOutcomes(a, b) && SameOutcomes(b, c) ==> SameOutcomes(a, c)
  {
  }
}
