/**
 `install`, `rollback` and `recoverPrepared` over one transaction's disk. Any operation may fail, with
 or without its effect, and every failure returns at once: so each exit of an action is also a place
 where the process may have crashed. `run` records every state the disk went through.
 */
module PretoolguardInstaller {
  import opened Wrappers
  import opened PretoolguardJournal
  import opened PretoolguardDisk

  // The phase recovery records for an observed pair; the later test wins, as in the source.
  function RecoveredPhase(rec: Record, current: Identity, retained: Identity): Option<Phase> {
    var forward := current == rec.installed && retained == rec.original;
    var back := current == rec.original && retained == rec.installed;
    match rec.phase
    case InstallPrepared => if forward then Some(Installed) else if back then Some(InstallAborted) else None
    case RollbackPrepared => if back then Some(RolledBack) else if forward then Some(RollbackAborted) else None
    case Installed => if forward then Some(Installed) else None
    case RollbackAborted => if forward then Some(RollbackAborted) else None
    case InstallAborted => if back then Some(InstallAborted) else None
    case RolledBack => if back then Some(RolledBack) else None
  }

  lemma RecoveryIsEntitled(d: Disk, rec: Record)
    requires LegalJournal(d.records) && CanWrite(d) && ExactPair(d)
    requires SameIdentity(rec, d.Last()) && rec.phase != d.Last().phase
    requires RecoveredPhase(d.Last(), d.target.id, d.retained.value.id) == Some(rec.phase)
    ensures Entitled(d, rec)
    ensures IsPrepared(d.Last().phase) && !IsPrepared(rec.phase)
  {
    assert SameIdentity(d.records[|d.records| - 1], d.records[0]);
  }

  ghost predicate Readable(d: Disk) {
    LegalJournal(d.records) && !d.torn && Bytes(d.records, d.width) <= MAX_BYTES
  }

  // The journal is durable, ends in a terminal phase, and that phase is what the names hold.
  ghost predicate Settled(d: Disk) {
    && Readable(d) && d.synced == |d.records| && !d.Dirty()
    && !IsPrepared(d.Last().phase) && Agrees(d.Last(), d.target.id)
    && ExactPair(d) && d.retained.Some?
  }

  // The journal a successful recovery leaves: an open phase gets its outcome, a settled one stays.
  function RecoveredJournal(d: Disk): seq<Record>
    requires d.records != []
  {
    if !IsPrepared(d.Last().phase) || d.retained.None? then d.records
    else
      match RecoveredPhase(d.Last(), d.target.id, d.retained.value.id)
      case Some(p) => d.records + [d.Last().(phase := p)]
      case None => d.records
  }

  // An open phase gets the one more line that the object at the target shows; a settled one gets none.
  ghost predicate Concluded(before: Disk, after: Disk)
    requires before.records != []
  {
    var lines := before.records;
    var last := lines[|lines| - 1];
    var installed := after.target.id == last.installed;
    match last.phase
    case InstallPrepared =>
      after.records == lines + [last.(phase := if installed then Installed else InstallAborted)]
    case RollbackPrepared =>
      after.records == lines + [last.(phase := if installed then RollbackAborted else RolledBack)]
    case _ => after.records == lines
  }

  lemma RecoveredIsConcluded(before: Disk, after: Disk)
    requires before.records != [] && before.retained.Some? && after.target == before.target
    requires RecoveredPhase(before.Last(), before.target.id, before.retained.value.id).Some?
    requires before.Last().original != before.Last().installed && after.records == RecoveredJournal(before)
    ensures Concluded(before, after)
  {
  }

  // The facts about a recorded transaction that the actions use.
  ghost predicate Recorded(d: Disk)
    requires d.records != []
  {
    && SameIdentity(d.Last(), d.records[0]) && d.Last().version == 2
    && d.AllKept() && ExactPair(d)
    && (d.target.meta, d.retained.value.meta)
       == (if d.target.id == d.Last().installed then (d.Last().installedMetadata, d.Last().originalMetadata)
           else (d.Last().originalMetadata, d.Last().installedMetadata))
    && RecoveredPhase(d.Last(), d.target.id, d.retained.value.id).Some?
    && (!d.torn ==> Readable(d))
  }

  lemma RecoveredIs(d: Disk, outcome: Phase)
    requires d.records != [] && d.retained.Some?
    requires RecoveredPhase(d.Last(), d.target.id, d.retained.value.id) == Some(outcome)
    requires d.Last().original != d.Last().installed
    ensures RecoveredJournal(d) == if outcome == d.Last().phase then d.records else d.records + [d.Last().(phase := outcome)]
    ensures outcome == d.Last().phase <==> !IsPrepared(d.Last().phase)
  {
  }

  // A phase that is acknowledged, because it is the one the names show, is settled.
  lemma AcknowledgedIsSettled(d: Disk)
    requires Readable(d) && ExactPair(d) && d.retained.Some? && d.synced == |d.records| && !d.Dirty()
    requires !IsPrepared(d.Last().phase) && SameIdentity(d.Last(), d.records[0])
    requires RecoveredPhase(d.Last(), d.target.id, d.retained.value.id) == Some(d.Last().phase)
    ensures Settled(d)
  {
  }

  // A settled transaction with the installed object at the target and room for the attempt.
  ghost predicate MayRollBack(d: Disk, transaction: Digest, selector: string) {
    && d.records != [] && !d.torn && !d.Dirty()
    && d.Last().transaction == transaction && d.Last().selector == selector
    && (d.Last().phase == Installed || d.Last().phase == RollbackAborted)
    && AppendAdmits(d.records, d.width, d.Last().(phase := RollbackPrepared))
  }

  lemma SafeIsRecorded(d: Disk, first: Object)
    requires Safe(d, first) && d.records != []
    ensures Recorded(d)
  {
    assert SameIdentity(d.records[|d.records| - 1], d.records[0]);
    assert Agrees(d.records[|d.records| - 1], d.target.id);
  }

  // No line of the transaction has been written.
  predicate Unrecorded(d: Disk) {
    |d.records| == 0 && !d.torn && !d.tornKept && d.synced == 0 && !d.Dirty()
  }

  class Installer {
    var disk: Disk
    var healthy: bool  // no operation of the machine fails
    ghost var run: seq<Disk>

    ghost predicate Traced()
      reads this
    {
      IsRun(run) && run[|run| - 1] == disk
    }

    constructor (target: Object, width: nat, healthy: bool)
      ensures Traced() && Initial(disk) && run == [disk]
      ensures disk.target == target && disk.width == width && this.healthy == healthy
    {
      this.disk := Disk(width, target, None, false, false, false, false, false, false, false, false, [], 0, false, false);
      this.healthy := healthy;
      this.run := [Disk(width, target, None, false, false, false, false, false, false, false, false, [], 0, false, false)];
    }

    // The identities at the two names.
    predicate Holds(target: Identity, saved: Identity)
      reads this
    {
      disk.target.id == target && disk.retained.Some? && disk.retained.value.id == saved
    }

    lemma Invariant()
      requires Traced()
      ensures Safe(disk, run[0].target)
    {
      RunIsSafe(run, |run| - 1);
    }

    lemma RecordedHere()
      requires Traced()
      ensures disk.records != [] ==> Recorded(disk)
    {
      Invariant();
      if disk.records != [] {
        SafeIsRecorded(disk, run[0].target);
      }
    }

    // ---- The machine ----

    /** An operation without effect on the disk. */
    method Attempt() returns (ok: bool)
      ensures healthy ==> ok
    {
      ok := *;
      if healthy {
        ok := true;
      }
    }

    method Become(e: Disk)
      modifies this
      ensures disk == e && healthy == old(healthy) && old(run) <= run
      ensures old(Traced()) && Step(old(disk), e) ==> Traced()
    {
      if Traced() && Step(disk, e) {
        RunExtends(run, e);
      }
      disk, run := e, run + [e];
    }

    /** An operation whose effect, if it takes place, leaves the disk as `e`. */
    method Perform(e: Disk) returns (ok: bool)
      modifies this
      ensures disk == old(disk) || disk == e
      ensures ok ==> disk == e
      ensures healthy == old(healthy) && (healthy ==> ok) && old(run) <= run
      ensures old(Traced()) && Step(old(disk), e) ==> Traced()
    {
      ok := Attempt();
      var effect := *;
      if ok || effect {
        Become(e);
      }
    }

    method SwapNames() returns (ok: bool)
      modifies this
      ensures ok ==> old(disk).retained.Some? && disk == Swapped(old(disk))
      ensures disk == old(disk) || (old(disk).retained.Some? && disk == Swapped(old(disk)))
      ensures healthy == old(healthy) && (healthy && old(disk).retained.Some? ==> ok) && old(run) <= run
      ensures old(Traced()) && CanSwap(old(disk)) ==> Traced()
    {
      if disk.retained.None? {
        return false;
      }
      ok := Perform(Swapped(disk));
    }

    method SyncParent() returns (ok: bool)
      modifies this
      ensures ok ==> disk == ParentSynced(old(disk))
      ensures !ok ==> disk == old(disk)
      ensures healthy == old(healthy) && (healthy ==> ok) && old(run) <= run
      ensures old(Traced()) ==> Traced()
    {
      ok := Attempt();
      if ok {
        Become(ParentSynced(disk));
      }
    }

    method SyncPrivate() returns (ok: bool)
      modifies this
      ensures ok ==> disk == PrivateSynced(old(disk))
      ensures !ok ==> disk == old(disk)
      ensures healthy == old(healthy) && (healthy ==> ok) && old(run) <= run
      ensures old(Traced()) ==> Traced()
    {
      ok := Attempt();
      if ok {
        Become(PrivateSynced(disk));
      }
    }

    method SyncJournal() returns (ok: bool)
      modifies this
      ensures ok ==> disk == JournalSynced(old(disk))
      ensures !ok ==> disk == old(disk)
      ensures healthy == old(healthy) && (healthy ==> ok) && old(run) <= run
      ensures old(Traced()) ==> Traced()
    {
      ok := Attempt();
      if ok {
        Become(JournalSynced(disk));
      }
    }

    method VerifyPair(target: Identity, saved: Identity) returns (ok: bool)
      ensures ok ==> disk.target.id == target && disk.retained.Some? && disk.retained.value.id == saved
      ensures healthy && disk.target.id == target && disk.retained.Some? && disk.retained.value.id == saved ==> ok
    {
      ok := Attempt();
      ok := ok && disk.retained.Some? && disk.target.id == target && disk.retained.value.id == saved;
    }

    method VerifyMetadataPair(target: Metadata, saved: Metadata) returns (ok: bool)
      ensures ok ==> disk.target.meta == target && disk.retained.Some? && disk.retained.value.meta == saved
      ensures healthy && disk.target.meta == target && disk.retained.Some? && disk.retained.value.meta == saved ==> ok
    {
      ok := Attempt();
      ok := ok && disk.retained.Some? && disk.target.meta == target && disk.retained.value.meta == saved;
    }

    /** The number the file system gives a new file: not zero, and not that of an existing one. */
    method NewInode(used: nat) returns (inode: nat)
      ensures inode != 0 && inode != used
    {
      inode := *;
      if inode == 0 || inode == used {
        inode := used + 1;
      }
    }

    /** An operation inside the private directory before the first record. */
    method Prepare(e: Disk) returns (ok: bool)
      requires Traced() && Staging(disk, e)
      modifies this
      ensures Traced() && healthy == old(healthy) && (healthy ==> ok) && old(run) <= run
      ensures disk == old(disk) || disk == e
      ensures ok ==> disk == e
    {
      ok := Perform(e);
    }

    // ---- The journal ----

    method ReadRecords() returns (r: Result<Record>)
      ensures r.Ok? ==> disk.journalMade && Readable(disk)
      ensures r.Ok? ==> r.value == disk.Last()
      ensures healthy && disk.journalMade && Readable(disk) ==> r.Ok?
    {
      var ok := Attempt();
      if !ok || !disk.journalMade {
        return Refused;
      }
      r := ReadJournal(disk.records, disk.torn, Bytes(disk.records, disk.width));
    }

    /** Appends a complete line, part of one, or nothing. */
    method WriteLine(rec: Record) returns (ok: bool)
      modifies this
      ensures ok ==> disk == Written(old(disk), rec)
      ensures disk == old(disk) || disk == old(disk).(torn := true) || disk == Written(old(disk), rec)
      ensures healthy == old(healthy) && (healthy ==> ok) && old(run) <= run
      ensures old(Traced()) && CanAppend(old(disk), rec) ==> Traced()
    {
      ok := Attempt();
      var partial := *;
      if !ok && partial {
        Become(disk.(torn := true));
        return;
      }
      var effect := *;
      if ok || effect {
        assert Written(disk, rec).Last() == rec;
        Become(Written(disk, rec));
      }
    }

    method AppendRecord(rec: Record) returns (ok: bool)
      modifies this
      ensures ok ==> !old(disk).torn && AppendAdmits(old(disk).records, old(disk).width, rec)
      ensures ok ==> disk == JournalSynced(Written(old(disk), rec))
      ensures !ok ==> disk == old(disk) || disk == old(disk).(torn := true) || disk == Written(old(disk), rec)
      ensures !old(disk).torn && !AppendAdmits(old(disk).records, old(disk).width, rec) ==> disk == old(disk)
      ensures healthy == old(healthy) && old(run) <= run
      ensures (healthy && old(disk).journalMade && !old(disk).torn
               && AppendAdmits(old(disk).records, old(disk).width, rec)) ==> ok
      ensures old(Traced()) && Entitled(old(disk), rec) ==> Traced()
    {
      ok := Attempt();
      if !ok || !disk.journalMade {
        return false;
      }
      var existing, count := Bytes(disk.records, disk.width), |disk.records|;
      if existing > MAX_BYTES {
        return false;
      }
      if count > 0 || disk.torn {
        var last := ReadRecords();
        if last.Refused? {
          return false;
        }
      } else if rec.phase != InstallPrepared {
        return false;
      }
      var required := RequiredSlots(rec.phase);
      if count + required > MAX_RECORDS {
        return false;
      }
      var line := LineBytes(disk.width, rec.phase);
      var reserve := 0;
      if required == 2 {
        reserve := line + |"rollback-aborted"|;
      }
      if existing + line + reserve > MAX_BYTES {
        return false;
      }
      ok := WriteLine(rec);
      if !ok {
        return;
      }
      ok := SyncJournal();
    }

    // ---- The actions ----

    /** The swap behind a durable prepared record, verified and synced in both directories. */
    method SwapAndSync() returns (ok: bool)
      requires Traced() && CanSwap(disk)
      modifies this
      ensures Traced() && healthy == old(healthy) && old(run) <= run && (healthy ==> ok)
      ensures disk.records == old(disk).records && disk.synced == old(disk).synced && disk.width == old(disk).width
      ensures SameNames(disk, old(disk)) || SameNames(disk, Swapped(old(disk)))
      ensures ok ==> SameNames(disk, Swapped(old(disk))) && CanWrite(disk) && disk.synced == |disk.records|
      ensures ok ==> !disk.parentDirty && !disk.privateDirty
    {
      RecordedHere();
      var target, saved := disk.retained.value, disk.target;
      ok := SwapNames();
      if !ok {
        return;
      }
      ok := VerifyPair(target.id, saved.id);
      if ok { ok := VerifyMetadataPair(target.meta, saved.meta); }
      if ok { ok := VerifyPair(target.id, saved.id); }
      if ok { ok := SyncParent(); }
      if ok { ok := SyncPrivate(); }
    }

    /** The swap, up to the terminal record. */
    method Exchange(done: Phase) returns (ok: bool)
      requires Traced() && CanSwap(disk) && Follows(disk.Last().phase, done)
      requires done == Installed || done == RolledBack
      modifies this
      ensures Traced() && healthy == old(healthy) && old(run) <= run && (healthy ==> ok)
      ensures old(disk).records <= disk.records && disk.synced >= old(disk).synced
      ensures SameNames(disk, old(disk)) || SameNames(disk, Swapped(old(disk)))
      ensures ok ==> SameNames(disk, Swapped(old(disk))) && Settled(disk)
      ensures ok ==> disk.records == old(disk).records + [old(disk).Last().(phase := done)]
    {
      ok := SwapAndSync();
      if ok {
        RecordedHere();
        ok := RecordOutcome(disk.Last().(phase := done));
      }
    }

    /** Syncs both directories behind a verified pair, and verifies it again. */
    method ConfirmPair(target: Identity, saved: Identity, targetMeta: Metadata, savedMeta: Metadata) returns (ok: bool)
      requires Traced() && Holds(target, saved)
      modifies this
      ensures Traced() && healthy == old(healthy) && old(run) <= run
      ensures || disk == old(disk) || disk == ParentSynced(old(disk)) || disk == PrivateSynced(ParentSynced(old(disk)))
      ensures ok ==> Holds(target, saved) && disk == PrivateSynced(ParentSynced(old(disk)))
      ensures (healthy && disk.target.meta == targetMeta && disk.retained.value.meta == savedMeta) ==> ok
    {
      ok := SyncParent();
      if ok { ok := SyncPrivate(); }
      if ok { ok := VerifyPair(target, saved); }
      if ok { ok := VerifyMetadataPair(targetMeta, savedMeta); }
    }

    /** Acknowledges a phase that is already recorded. */
    method Acknowledge(rec: Record, target: Identity, saved: Identity, targetMeta: Metadata, savedMeta: Metadata)
      returns (ok: bool)
      requires Traced()
      modifies this
      ensures Traced() && healthy == old(healthy) && old(run) <= run
      ensures disk == old(disk) || disk == JournalSynced(old(disk))
      ensures ok ==> Readable(disk) && disk.Last() == rec && disk == JournalSynced(old(disk))
      ensures (healthy && old(disk).journalMade && Readable(old(disk)) && old(disk).Last() == rec
               && old(Holds(target, saved)) && disk.target.meta == targetMeta
               && disk.retained.value.meta == savedMeta) ==> ok
    {
      ok := SyncJournal();
      if !ok {
        return;
      }
      var last := ReadRecords();
      if last.Refused? || last.value != rec {
        return false;
      }
      ok := VerifyPair(target, saved);
      if ok { ok := VerifyMetadataPair(targetMeta, savedMeta); }
      if ok { ok := Attempt(); }
    }

    /** Appends the outcome of an open phase that the names show. */
    method RecordOutcome(rec: Record) returns (ok: bool)
      requires Traced() && Readable(disk) && disk.journalMade && CanWrite(disk)
      requires SameIdentity(rec, disk.Last()) && rec.phase != disk.Last().phase
      requires RecoveredPhase(disk.Last(), disk.target.id, disk.retained.value.id) == Some(rec.phase)
      modifies this
      ensures Traced() && healthy == old(healthy) && old(run) <= run
      ensures SameNames(disk, old(disk)) && disk.width == old(disk).width && (healthy ==> ok)
      ensures old(disk).records <= disk.records && disk.synced >= old(disk).synced
      ensures ok ==> disk == JournalSynced(Written(old(disk), rec)) && Settled(disk)
    {
      Invariant();
      RecoveryIsEntitled(disk, rec);
      ReservationSuffices(disk.records, disk.width, rec);
      WriterAgreesWithReader(disk.records, disk.width, rec);
      ok := AppendRecord(rec);
      if ok {
        assert disk.Last() == rec && disk.records[0] == old(disk).records[0];
        ok := Attempt();
      }
    }

    // The object's metadata that the record states for this side of the pair.
    predicate HasMetadata(rec: Record, installedFirst: bool)
      requires disk.retained.Some?
      reads this
    {
      (disk.target.meta, disk.retained.value.meta)
      == if installedFirst then (rec.installedMetadata, rec.originalMetadata) else (rec.originalMetadata, rec.installedMetadata)
    }

    /**
     What the rollback action checks before it changes anything, on whatever disk it finds: a transaction
     whose pair is not at its names, because a later one buried it, is refused here.
     */
    method AdmitRollback(transaction: Digest, selector: string, current: Identity, backup: Identity) returns (r: Result<Record>)
      ensures r.Ok? ==> disk.journalMade && Readable(disk) && r.value == disk.Last() && Mine(disk, disk.target.id)
      ensures r.Ok? ==> Holds(current, backup) && r.value.installed == current && r.value.original == backup && r.value.backup == backup
      ensures r.Ok? ==> r.value.phase == Installed || r.value.phase == RollbackAborted
      ensures r.Ok? ==> r.value.transaction == transaction && r.value.selector == selector
      ensures (healthy && disk.journalMade && Readable(disk) && Holds(current, backup) && HasMetadata(disk.Last(), true)
               && (disk.Last().phase == Installed || disk.Last().phase == RollbackAborted)
               && disk.Last().version == 2 && disk.Last().transaction == transaction && disk.Last().selector == selector
               && disk.Last().installed == current && disk.Last().original == disk.Last().backup == backup) ==> r.Ok?
    {
      var read := ReadRecords();
      if read.Refused? {
        return Refused;
      }
      var rec := read.value;
      if rec.version != 2 || rec.transaction != transaction || rec.selector != selector {
        return Refused;
      }
      if (rec.phase != Installed && rec.phase != RollbackAborted)
         || rec.installed != current || rec.backup != backup || rec.original != backup {
        return Refused;
      }
      var ok := VerifyPair(current, backup);
      if ok { ok := VerifyMetadataPair(rec.installedMetadata, rec.originalMetadata); }
      if ok { ok := VerifyPair(current, backup); }
      assert SameIdentity(disk.records[|disk.records| - 1], disk.records[0]);
      r := if ok then Ok(rec) else Refused;
    }

    /** The rollback action up to its prepared record. */
    method PrepareRollback(transaction: Digest, selector: string, current: Identity, backup: Identity) returns (ok: bool)
      requires Traced()
      modifies this
      ensures Traced() && healthy == old(healthy) && old(run) <= run
      ensures old(disk).records <= disk.records && SameNames(disk, old(disk))
      ensures ok ==> old(disk).records != [] && Holds(current, backup) && disk.records[0].original == backup
      ensures ok ==> disk.Last().transaction == transaction && disk.Last().selector == selector
      ensures ok ==> CanSwap(disk) && disk.records == old(disk).records + [old(disk).Last().(phase := RollbackPrepared)]
      ensures (healthy && MayRollBack(old(disk), transaction, selector) && old(Holds(current, backup))) ==> ok
    {
      RecordedHere();
      var admitted := AdmitRollback(transaction, selector, current, backup);
      if admitted.Refused? {
        return false;
      }
      Invariant();
      var rec := admitted.value.(phase := RollbackPrepared);
      ok := AppendRecord(rec);
      if ok {
        assert disk.Last() == rec && disk.records[0] == old(disk).records[0];
      }
    }

    /** The rollback action, behind the custody check of the private directory. */
    method Rollback(transaction: Digest, selector: string, current: Identity, backup: Identity) returns (ok: bool)
      requires Traced()
      modifies this
      ensures Traced() && healthy == old(healthy) && old(run) <= run
      ensures old(disk).records <= disk.records
      ensures ok ==> disk.target == run[0].target && disk.target.id == backup && disk.retained == Some(old(disk).target)
      ensures ok ==> Settled(disk) && disk.Last().phase == RolledBack
      ensures ok ==> disk.Last().transaction == transaction && disk.Last().selector == selector
      ensures ok ==> disk.synced == |disk.records| && !disk.torn && !disk.parentDirty && !disk.privateDirty
      ensures !SameNames(disk, old(disk)) ==> disk.synced > |old(disk).records| && disk.target == run[0].target
      ensures (healthy && MayRollBack(old(disk), transaction, selector) && old(Holds(current, backup))) ==> ok
    {
      ok := PrepareRollback(transaction, selector, current, backup);
      if !ok {
        return;
      }
      Invariant();
      ok := Exchange(RolledBack);
      if ok { ok := Attempt(); }
    }

    /** Acknowledges the recorded phase, or appends the one that the proven, durable pair stands for. */
    method Conclude(outcome: Phase, targetMeta: Metadata, retainedMeta: Metadata) returns (ok: bool)
      requires Traced() && disk.journalMade && Readable(disk) && CanWrite(disk) && ExactPair(disk)
      requires RecoveredPhase(disk.Last(), disk.target.id, disk.retained.value.id) == Some(outcome)
      modifies this
      ensures Traced() && healthy == old(healthy) && old(run) <= run
      ensures SameNames(disk, old(disk)) && disk.width == old(disk).width
      ensures ok ==> Settled(disk) && disk.records == RecoveredJournal(old(disk))
      ensures (healthy && disk.target.meta == targetMeta && disk.retained.value.meta == retainedMeta) ==> ok
    {
      var rec := disk.Last();
      assert SameIdentity(disk.records[|disk.records| - 1], disk.records[0]);
      RecoveredIs(disk, outcome);
      if rec.phase == outcome {
        ok := Acknowledge(rec, disk.target.id, disk.retained.value.id, targetMeta, retainedMeta);
        if ok {
          AcknowledgedIsSettled(disk);
        }
      } else {
        ok := RecordOutcome(rec.(phase := outcome));
      }
    }

    /** What recovery checks before it changes anything, on whatever disk it finds; see `AdmitRollback`. */
    method AdmitRecovery(transaction: Digest, selector: string, current: Identity, retained: Identity)
      returns (r: Result<(Record, Phase)>)
      ensures r.Ok? ==> disk.journalMade && Readable(disk) && r.value.0 == disk.Last() && Mine(disk, disk.target.id)
      ensures r.Ok? ==> Holds(current, retained) && RecoveredPhase(disk.Last(), current, retained) == Some(r.value.1)
                        && HasMetadata(disk.Last(), current == disk.Last().installed)
      ensures r.Ok? ==> disk.Last().transaction == transaction && disk.Last().selector == selector
                        && if r.value.1 == Installed || r.value.1 == RollbackAborted
                           then current == disk.Last().installed && retained == disk.Last().original
                           else current == disk.Last().original && retained == disk.Last().installed
      ensures (healthy && disk.journalMade && Readable(disk) && Holds(current, retained)
               && HasMetadata(disk.Last(), current == disk.Last().installed)
               && RecoveredPhase(disk.Last(), current, retained).Some?
               && disk.Last().version == 2 && disk.Last().transaction == transaction && disk.Last().selector == selector) ==> r.Ok?
    {
      var read := ReadRecords();
      if read.Refused? {
        return Refused;
      }
      var rec := read.value;
      if rec.version != 2 || rec.transaction != transaction || rec.selector != selector {
        return Refused;
      }
      var outcome := RecoveredPhase(rec, current, retained);
      if outcome.None? {
        return Refused;
      }
      var ok := VerifyPair(current, retained);
      if ok && current == rec.installed {
        ok := VerifyMetadataPair(rec.installedMetadata, rec.originalMetadata);
      } else if ok {
        ok := VerifyMetadataPair(rec.originalMetadata, rec.installedMetadata);
      }
      assert SameIdentity(disk.records[|disk.records| - 1], disk.records[0]);
      r := if ok then Ok((rec, outcome.value)) else Refused;
    }

    /** `recoverPrepared`, behind the journal read of its caller. */
    method Recover(transaction: Digest, selector: string, current: Identity, retained: Identity) returns (ok: bool)
      requires Traced()
      modifies this
      ensures Traced() && healthy == old(healthy) && old(run) <= run
      ensures SameNames(disk, old(disk)) && disk.width == old(disk).width
      ensures ok ==> Settled(disk) && Holds(current, retained)
      ensures ok ==> disk.Last().transaction == transaction && disk.Last().selector == selector
      ensures ok ==> disk.synced == |disk.records| && !disk.torn && !disk.parentDirty && !disk.privateDirty
      ensures ok ==> old(disk).records != [] && disk.records == RecoveredJournal(old(disk)) && Concluded(old(disk), disk)
      ensures (healthy && old(disk).records != [] && !old(disk).torn && old(Holds(current, retained))
               && old(disk).Last().transaction == transaction && old(disk).Last().selector == selector) ==> ok
    {
      RecordedHere();
      var admitted := AdmitRecovery(transaction, selector, current, retained);
      if admitted.Refused? {
        return false;
      }
      var rec, outcome := admitted.value.0, admitted.value.1;
      var targetMeta, retainedMeta := rec.originalMetadata, rec.installedMetadata;
      if current == rec.installed {
        targetMeta, retainedMeta := retainedMeta, targetMeta;
      }
      ok := ConfirmPair(current, retained, targetMeta, retainedMeta);
      if ok { ok := Conclude(outcome, targetMeta, retainedMeta); }
      if ok {
        RecoveredIsConcluded(old(disk), disk);
      }
    }

    /** Makes and announces the private directory, before anything is staged. */
    method MakeDirectory() returns (ok: bool)
      requires Traced() && Unrecorded(disk)
      modifies this
      ensures Traced() && healthy == old(healthy) && old(run) <= run
      ensures Unrecorded(disk) && disk.target == old(disk).target && disk.width == old(disk).width
      ensures disk.retained == old(disk).retained
      ensures old(disk).dirMade ==> !ok && disk == old(disk)
      ensures ok ==> disk.dirMade && disk.dirKept
      ensures healthy && !old(disk).dirMade ==> ok
    {
      ok := Attempt();  // the random transaction identity
      if !ok || disk.dirMade {
        return false;
      }
      ok := Prepare(disk.(dirMade := true));
      if ok { ok := Attempt(); }
      if ok { ok := SyncParent(); }
    }

    /** Makes the empty journal and syncs its name. */
    method MakeJournal() returns (ok: bool)
      requires Traced() && Unrecorded(disk) && disk.dirMade && disk.dirKept
      modifies this
      ensures Traced() && healthy == old(healthy) && old(run) <= run && (healthy ==> ok)
      ensures Unrecorded(disk) && disk.target == old(disk).target && disk.width == old(disk).width
      ensures disk.retained == old(disk).retained && disk.dirMade && disk.dirKept
      ensures ok ==> disk.journalMade && disk.journalKept
    {
      ok := Attempt();
      if ok { ok := Prepare(disk.(journalMade := true)); }
      if ok { ok := Attempt(); }
      if ok { ok := SyncPrivate(); }
    }

    /** Copies the artifact into a new file of the private directory and makes it durable. */
    method StageObject(original: Identity, artifact: Option<Digest>, volume: nat) returns (ok: bool)
      requires Traced() && Unrecorded(disk)
      requires disk.dirMade && disk.dirKept && disk.journalMade && disk.journalKept
      modifies this
      ensures Traced() && healthy == old(healthy) && old(run) <= run
      ensures Unrecorded(disk) && disk.target == old(disk).target && disk.width == old(disk).width
      ensures ok ==> disk.AllKept() && artifact.Some? && old(disk).retained.None?
      ensures ok ==> var id := disk.retained.value.id;
                     && id.inode != 0 && id.inode != disk.target.id.inode
                     && id == Identity(volume, id.inode, original.uid, original.gid, original.mode, artifact.value)
      ensures healthy && artifact.Some? && old(disk).retained.None? ==> ok
    {
      ok := Attempt();
      if !ok || artifact.None? || disk.retained.Some? {
        return false;
      }
      var inode := NewInode(disk.target.id.inode);
      var partial, meta: Metadata := *, *;
      ok := Prepare(disk.(retained := Some(Object(Identity(volume, inode, 0, 0, 384, partial), meta)),
                          contentKept := false, nameKept := false));
      if !ok {
        return;
      }
      var id := Identity(volume, inode, original.uid, original.gid, original.mode, artifact.value);
      ok := Prepare(disk.(retained := Some(Object(id, meta))));
      if ok { ok := Prepare(disk.(contentKept := true)); }
      if ok { ok := SyncPrivate(); }
    }

    /** Verifies the staged object against the request and writes the prepared record. */
    method RecordInstall(original: Identity, expected: Metadata, transaction: Digest, selector: string,
                         replacement: Digest, signed: bool) returns (ok: bool)
      requires Traced() && Unrecorded(disk) && disk.AllKept() && original.inode != 0
      requires disk.retained.value.id.inode != 0 && disk.retained.value.id.inode != disk.target.id.inode
      modifies this
      ensures Traced() && healthy == old(healthy) && old(run) <= run
      ensures SameNames(disk, old(disk))
      ensures ok ==> CanSwap(disk) && disk.target == Object(original, expected) && signed
      ensures ok ==> disk.retained.value.id == original.(inode := disk.retained.value.id.inode, sha256 := replacement)
      ensures (old(disk).retained.value.id.sha256 != replacement || old(disk).retained.value.id.device != original.device
               || !signed || disk.target != Object(original, expected)) ==> (!ok && disk == old(disk))
      ensures ok ==> disk.records == [Record(2, transaction, selector, InstallPrepared, original,
                                             disk.retained.value.id, original, expected, disk.retained.value.meta)]
      ensures (healthy && disk.target == Object(original, expected) && signed
               && disk.retained.value.id == original.(inode := disk.retained.value.id.inode, sha256 := replacement)
               && 2 * (old(disk).width + 17) + 16 <= 65536) ==> ok
    {
      ok := Attempt();
      var staged := disk.retained.value;
      if !ok || staged.id.sha256 != replacement || staged.id.device != original.device || staged.id.uid != original.uid
         || staged.id.gid != original.gid || staged.id.mode != original.mode {
        return false;
      }
      ok := Attempt();
      if !ok || !signed {
        return false;
      }
      ok := VerifyPair(original, staged.id);
      if ok { ok := VerifyMetadataPair(expected, staged.meta); }
      if ok { ok := VerifyPair(original, staged.id); }
      if !ok {
        return;
      }
      var rec := Record(2, transaction, selector, InstallPrepared, original, staged.id, original, expected, staged.meta);
      ok := AppendRecord(rec);
    }

    /** The install action up to its prepared record. */
    method PrepareInstall(original: Identity, expected: Metadata, transaction: Digest, selector: string,
                          artifact: Option<Digest>, replacement: Digest, volume: nat, signed: bool) returns (ok: bool)
      requires Traced() && original.inode != 0
      modifies this
      ensures Traced() && healthy == old(healthy) && old(run) <= run
      ensures disk.target == old(disk).target
      ensures old(disk).dirMade ==> !ok && disk == old(disk)
      ensures ok ==> CanSwap(disk) && disk.target.id == original && disk.target.meta == expected
      ensures ok ==> signed && disk.retained.value.id == original.(inode := disk.retained.value.id.inode, sha256 := replacement)
      ensures ok ==> disk.retained.value.id.inode != original.inode
      ensures |old(disk).records| == 0 ==>
                (artifact != Some(replacement) || volume != original.device || !signed || disk.target != Object(original, expected)) ==>
                !ok && |disk.records| == 0
      ensures ok ==> disk.records == [Record(2, transaction, selector, InstallPrepared, original,
                                             disk.retained.value.id, original, expected, disk.retained.value.meta)]
      ensures (healthy && Initial(old(disk)) && old(disk).target == Object(original, expected) && signed
               && artifact == Some(replacement) && volume == original.device
               && 2 * (old(disk).width + 17) + 16 <= 65536) ==> ok
    {
      Invariant();
      ok := Attempt();
      if !ok || disk.target.id != original {
        return false;
      }
      ok := Attempt();
      if !ok || disk.target.meta != expected {
        return false;
      }
      if disk.dirMade {
        return false;
      }
      ok := MakeDirectory();
      if ok { ok := MakeJournal(); }
      if !ok {
        return;
      }
      ok := StageObject(original, artifact, volume);
      if !ok {
        return;
      }
      ok := RecordInstall(original, expected, transaction, selector, replacement, signed);
    }

    /** The install action. */
    method Install(original: Identity, expected: Metadata, transaction: Digest, selector: string,
                   artifact: Option<Digest>, replacement: Digest, volume: nat, signed: bool) returns (ok: bool)
      requires Traced() && original.inode != 0
      modifies this
      ensures Traced() && healthy == old(healthy) && old(run) <= run
      ensures old(disk).dirMade ==> !ok && disk == old(disk)
      ensures ok ==> Settled(disk) && disk.retained == Some(old(disk).target)
      ensures ok ==> disk.synced == |disk.records| && !disk.torn && !disk.parentDirty && !disk.privateDirty
      ensures ok ==> && disk.target.id.sha256 == replacement && disk.target.id.device == original.device
                     && disk.target.id.uid == original.uid && disk.target.id.gid == original.gid
                     && disk.target.id.mode == original.mode && disk.target.id.inode != original.inode
      ensures |old(disk).records| == 0 ==>
                (artifact != Some(replacement) || volume != original.device || !signed || old(disk).target != Object(original, expected)) ==>
                !ok && disk.target == old(disk).target && |disk.records| == 0
      ensures ok ==> old(disk).target == Object(original, expected) && signed
      ensures ok ==> |disk.records| == 2 && disk.Last().phase == Installed
                     && disk.Last().transaction == transaction && disk.Last().selector == selector
      ensures disk.target != old(disk).target ==> disk.synced > 0 && disk.retained == Some(old(disk).target)
      ensures (healthy && Initial(old(disk)) && old(disk).target == Object(original, expected) && signed
               && artifact == Some(replacement) && volume == original.device
               && 2 * (old(disk).width + 17) + 16 <= 65536) ==> ok
    {
      ok := PrepareInstall(original, expected, transaction, selector, artifact, replacement, volume, signed);
      if !ok {
        return;
      }
      ok := Exchange(Installed);
      if ok { ok := Attempt(); }
    }

    // ---- The environment ----

    /** Power loss: the disk comes back as any of the states a crash may leave. */
    method Restart(e: Disk, healthy: bool)
      requires Traced() && Crash(disk, e)
      modifies this
      ensures Traced() && disk == e && this.healthy == healthy && old(run) <= run
    {
      Become(e);
      this.healthy := healthy;
    }

    /** Recovery of an untorn journal, given the observed pair, settles it; repeating it appends nothing. */
    method SettleTwice(transaction: Digest, selector: string)
      requires Traced() && healthy && disk.records != [] && !disk.torn
      requires disk.Last().transaction == transaction && disk.Last().selector == selector
      modifies this
      ensures Traced() && healthy && old(run) <= run
      ensures SameNames(disk, old(disk)) && disk.width == old(disk).width
      ensures Settled(disk) && disk.records == RecoveredJournal(old(disk))
    {
      RecordedHere();
      var ok := Recover(transaction, selector, disk.target.id, disk.retained.value.id);
      RecordedHere();
      ok := Recover(transaction, selector, disk.target.id, disk.retained.value.id);
      assert ok;
    }

    /**
     After a crash that left the journal untorn, recovery given the observed pair settles the transaction
     without moving a name, and a rollback that still has room puts the original back.
     */
    method CrashSettleUndo(e: Disk, transaction: Digest, selector: string) returns (undone: bool)
      requires Traced() && Crash(disk, e) && e.records != [] && !e.torn
      requires e.Last().transaction == transaction && e.Last().selector == selector
      modifies this
      ensures Traced() && old(run) <= run
      ensures undone ==> Settled(disk) && disk.target == run[0].target && disk.Last().phase == RolledBack
      ensures RecoveredJournal(e) <= disk.records
      ensures var settled := e.(records := RecoveredJournal(e));
              MayRollBack(settled, transaction, selector) ==> undone
    {
      Restart(e, true);
      RecordedHere();
      SettleTwice(transaction, selector);
      RecordedHere();
      undone := Rollback(transaction, selector, disk.target.id, disk.retained.value.id);
    }
  }
}
