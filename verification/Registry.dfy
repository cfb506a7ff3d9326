/** The registry file on disk, replaced atomically, and the in-memory entries kept in step with it. */
module Registries {
  import opened Wrappers
  import opened RegistryEntries

  /** The file-system calls of one commit. Any of them may fail. */
  datatype Step =
    | CreateParent | CreateTemporary | WriteTemporary | SyncTemporary
    | OpenPrevious | InspectPrevious | CreateBackup | CopyBackup | SyncBackup
    | Replace | SyncParent
    | Restore | SyncRestored

  const STAGING: set<Step> := {CreateParent, CreateTemporary, WriteTemporary, SyncTemporary, OpenPrevious}
  const BACKUP: set<Step> := {InspectPrevious, CreateBackup, CopyBackup, SyncBackup}

  /** The registry file. A rename or a removal happens whole or not at all. */
  class Disk {
    var file: Option<File>
    /** Every state the file has gone through. */
    ghost var history: seq<Option<File>>

    constructor (file: Option<File>)
      ensures this.file == file && history == [file]
    {
      this.file, history := file, [file];
    }

    method Rename(temporary: File, fails: bool) returns (ok: bool)
      modifies this
      ensures ok == !fails
      ensures file == (if ok then Some(temporary) else old(file))
      ensures history == old(history) + if ok then [file] else []
    {
      ok := !fails;
      if ok {
        file := Some(temporary);
        history := history + [file];
      }
    }

    method Remove(fails: bool) returns (ok: bool)
      modifies this
      ensures ok == !fails
      ensures file == (if ok then None else old(file))
      ensures history == old(history) + if ok then [file] else []
    {
      ok := !fails;
      if ok {
        file := None;
        history := history + [file];
      }
    }
  }

  /** Steps a commit takes before the swap, given the file it replaces. */
  function Before(previous: Option<File>): set<Step> {
    STAGING + if previous.Some? then BACKUP else {}
  }

  predicate OldOrNew(states: seq<Option<File>>, old_: Option<File>, new_: Option<File>) {
    forall i :: 0 <= i < |states| ==> states[i] == old_ || states[i] == new_
  }

  /** Copies the present file aside so that it can be put back. */
  method BackupPreviousFile(disk: Disk, faults: set<Step>) returns (r: Result<Option<File>, Error>)
    ensures r.Ok? ==> r.value == disk.file
    ensures r != Err(AtomicRollbackFailed)
    ensures r.Ok? <==> OpenPrevious !in faults
                       && (disk.file.Some? ==> faults !! BACKUP && disk.file.value.bytes <= MAX_REGISTRY_BYTES)
  {
    if OpenPrevious in faults {
      return Err(Io);
    }
    if disk.file.None? {
      return Ok(None);
    }
    if InspectPrevious in faults {
      return Err(Io);
    }
    if disk.file.value.bytes > MAX_REGISTRY_BYTES {
      return Err(RegistryTooLarge);
    }
    if CreateBackup in faults || CopyBackup in faults || SyncBackup in faults {
      return Err(Io);
    }
    r := Ok(disk.file);
  }

  /** Puts the backup back, or removes the file if there was none before. */
  method RestorePreviousFile(disk: Disk, previous: Option<File>, faults: set<Step>) returns (ok: bool)
    modifies disk
    ensures ok <==> Restore !in faults && SyncRestored !in faults
    ensures disk.file == if Restore in faults then old(disk.file) else previous
    ensures disk.history == old(disk.history) + if Restore in faults then [] else [previous]
  {
    var restored;
    if previous.Some? {
      restored := disk.Rename(previous.value, Restore in faults);
    } else {
      restored := disk.Remove(Restore in faults);
    }
    ok := restored && SyncRestored !in faults;
  }

  /** Writes a temporary file, swaps it in, and takes the swap back if it cannot be made durable. */
  method AtomicWrite(disk: Disk, next: File, faults: set<Step>) returns (r: Option<Error>)
    modifies disk
    ensures r.None? <==> Writable(old(disk.file), faults) && Replace !in faults && SyncParent !in faults
    ensures r.None? ==> disk.file == Some(next)
    ensures r == Some(AtomicRollbackFailed) <==>
              && Writable(old(disk.file), faults) && Replace !in faults && SyncParent in faults
              && (Restore in faults || SyncRestored in faults)
    ensures r == Some(AtomicRollbackFailed) ==> disk.file == if Restore in faults then Some(next) else old(disk.file)
    ensures r.Some? && r != Some(AtomicRollbackFailed) ==> disk.file == old(disk.file)
    ensures |old(disk.history)| <= |disk.history| && disk.history[..|old(disk.history)|] == old(disk.history)
    ensures OldOrNew(disk.history[|old(disk.history)|..], old(disk.file), Some(next))
  {
    if CreateParent in faults || CreateTemporary in faults || WriteTemporary in faults || SyncTemporary in faults {
      return Some(Io);
    }
    var previous := BackupPreviousFile(disk, faults);
    if previous.Err? {
      return Some(previous.error);
    }
    var swapped := disk.Rename(next, Replace in faults);
    if !swapped {
      return Some(Io);
    }
    if SyncParent in faults {
      var restored := RestorePreviousFile(disk, previous.value, faults);
      return Some(if restored then Io else AtomicRollbackFailed);
    }
    r := None;
  }

  predicate Writable(previous: Option<File>, faults: set<Step>) {
    faults !! Before(previous) && (previous.Some? ==> previous.value.bytes <= MAX_REGISTRY_BYTES)
  }

  /** Every step up to the last directory sync succeeds. */
  predicate Durable(previous: Option<File>, faults: set<Step>) {
    && faults !! STAGING && Replace !in faults && SyncParent !in faults
    && (previous.Some? ==> faults !! BACKUP && previous.value.bytes <= MAX_REGISTRY_BYTES)
  }

  class ExtensionRegistry {
    const disk: Disk
    var entries: seq<Entry>
    /** A rollback has failed since the last commit that succeeded. */
    ghost var torn: bool

    /** Memory is valid, and the file means the same entries unless a rollback failed. */
    ghost predicate Valid()
      reads this, disk
    {
      ValidEntries(entries) && (!torn ==> Meaning(disk.file) == Some(entries))
    }

    constructor (disk: Disk, entries: seq<Entry>)
      requires Meaning(disk.file) == Some(entries) && ValidEntries(entries)
      ensures this.disk == disk && this.entries == entries && !torn && Valid()
    {
      this.disk, this.entries, torn := disk, entries, false;
    }

    /**
      Writes the whole next state, then adopts it. `bytes` is the length of its encoding. Memory moves only
      when the file did, whatever fails and wherever.
    */
    method Commit(next: seq<Entry>, bytes: nat, faults: set<Step>) returns (r: Option<Error>)
      requires Valid() && ValidEntries(next)
      modifies this, disk
      ensures Valid()
      ensures r.None? <==>
                && |next| <= MAX_REGISTRY_ENTRIES && bytes <= MAX_REGISTRY_BYTES
                && Writable(old(disk.file), faults) && Replace !in faults && SyncParent !in faults
      ensures entries == if r.None? then next else old(entries)
      ensures torn == (r == Some(AtomicRollbackFailed) || (r.Some? && old(torn)))
      ensures r.None? ==> Meaning(disk.file) == Some(next)
      ensures r.Some? && r != Some(AtomicRollbackFailed) ==> disk.file == old(disk.file)
      ensures |old(disk.history)| <= |disk.history| && disk.history[..|old(disk.history)|] == old(disk.history)
      ensures OldOrNew(disk.history[|old(disk.history)|..], old(disk.file), Some(Serialized(next, bytes)))
    {
      if |next| > MAX_REGISTRY_ENTRIES {
        return Some(TooManyEntries);
      }
      if bytes > MAX_REGISTRY_BYTES {
        return Some(RegistryTooLarge);
      }
      LoadAfterPersist(next, bytes);
      r := AtomicWrite(disk, Serialized(next, bytes), faults);
      if r.None? {
        entries := next;
        torn := false;
      } else if r == Some(AtomicRollbackFailed) {
        torn := true;
      }
    }

    method Upsert(input: Entry, canonical: Option<string>, bytes: nat, faults: set<Step>)
        returns (r: Result<Entry, Error>)
      requires Valid()
      modifies this, disk
      ensures Valid()
      ensures r.Ok? <==>
                && canonical.Some? && Acceptable(input.(sourcePath := canonical.value))
                && |old(entries)| + (if Find(old(entries), input.extension).None? then 1 else 0) <= MAX_REGISTRY_ENTRIES
                && bytes <= MAX_REGISTRY_BYTES && Durable(old(disk.file), faults)
      ensures r.Ok? ==>
                && r.value == input.(sourcePath := canonical.value, permissions := r.value.permissions)
                && SortedByKey(r.value.permissions) && multiset(r.value.permissions) == multiset(input.permissions)
      ensures r.Ok? ==>
                && Find(entries, input.extension) == Some(r.value)
                && (forall id :: id != input.extension ==> Find(entries, id) == Find(old(entries), id))
                && Meaning(disk.file) == Some(entries)
      ensures r.Err? ==> entries == old(entries)
      ensures r.Err? && r.error != AtomicRollbackFailed ==> disk.file == old(disk.file) && torn == old(torn)
    {
      var entry := ValidateInput(input, canonical);
      if entry.Err? {
        return Err(entry.error);
      }
      SortSorts(input.permissions);
      PutKeeps(entries, entry.value);
      PutCounts(entries, entry.value);
      var failed := Commit(Put(entries, entry.value), bytes, faults);
      r := if failed.None? then Ok(entry.value) else Err(failed.value);
    }

    method Remove(id: string, bytes: nat, faults: set<Step>) returns (r: Result<Option<Entry>, Error>)
      requires Valid()
      modifies this, disk
      ensures Valid()
      ensures r.Ok? <==>
                || Find(old(entries), id).None?
                || (&& |old(entries)| - 1 <= MAX_REGISTRY_ENTRIES && bytes <= MAX_REGISTRY_BYTES
                    && Durable(old(disk.file), faults))
      ensures r.Ok? ==>
                && r.value == Find(old(entries), id)
                && Find(entries, id) == None
                && (forall other :: other != id ==> Find(entries, other) == Find(old(entries), other))
                && (r.value.Some? ==> Meaning(disk.file) == Some(entries))
                && (r.value.None? ==> entries == old(entries) && disk.file == old(disk.file))
      ensures r.Err? ==> entries == old(entries)
      ensures r.Err? && r.error != AtomicRollbackFailed ==> disk.file == old(disk.file) && torn == old(torn)
    {
      var removed := Find(entries, id);
      if removed.None? {
        return Ok(None);
      }
      WithoutKeeps(entries, id);
      WithoutCounts(entries, id);
      var failed := Commit(Without(entries, id), bytes, faults);
      r := if failed.None? then Ok(removed) else Err(failed.value);
    }

    method ReplaceSettings(id: string, settings: Option<Settings>, bytes: nat, faults: set<Step>)
        returns (r: Option<Error>)
      requires Valid()
      modifies this, disk
      ensures Valid()
      ensures r.None? <==>
                && ValidSettings(settings) && Find(old(entries), id).Some?
                && |old(entries)| <= MAX_REGISTRY_ENTRIES && bytes <= MAX_REGISTRY_BYTES
                && Durable(old(disk.file), faults)
      ensures !ValidSettings(settings) ==> r == Some(InvalidSettings)
      ensures ValidSettings(settings) && Find(old(entries), id).None? ==> r == Some(ExtensionNotFound)
      ensures r.None? ==>
                && Find(old(entries), id).Some?
                && Find(entries, id) == Some(Find(old(entries), id).value.(settings := settings))
                && (forall other :: other != id ==> Find(entries, other) == Find(old(entries), other))
                && Meaning(disk.file) == Some(entries)
      ensures r.Some? ==> entries == old(entries)
      ensures r.Some? && r != Some(AtomicRollbackFailed) ==> disk.file == old(disk.file) && torn == old(torn)
    {
      if !ValidSettings(settings) {
        return Some(InvalidSettings);
      }
      var entry := Find(entries, id);
      if entry.None? {
        return Some(ExtensionNotFound);
      }
      FindIsValid(entries, id);
      PutKeeps(entries, entry.value.(settings := settings));
      PutCounts(entries, entry.value.(settings := settings));
      r := Commit(Put(entries, entry.value.(settings := settings)), bytes, faults);
    }
  }

  lemma {:induction false} FindIsValid(es: seq<Entry>, id: string)
    requires ValidEntries(es) && Find(es, id).Some?
    ensures ValidEntry(Find(es, id).value) && Find(es, id).value.extension == id
  {
    if es[0].extension != id {
      assert ValidEntries(es[1..]);
      FindIsValid(es[1..], id);
    }
  }

  /** Opens a registry; it agrees with the file it was read from. */
  method Load(disk: Disk) returns (r: Result<ExtensionRegistry, Error>)
    ensures r.Ok? <==> Meaning(disk.file).Some?
    ensures r.Ok? ==> fresh(r.value) && r.value.disk == disk && r.value.Valid() && !r.value.torn
  {
    var entries := LoadEntries(disk.file);
    if entries.Err? {
      return Err(entries.error);
    }
    var registry := new ExtensionRegistry(disk, entries.value);
    r := Ok(registry);
  }
}
