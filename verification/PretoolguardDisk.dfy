/**
 One installer transaction on disk, as a state machine over single effects. A crash may come between
 any two of them and may lose whatever has not been synced.
 */
module PretoolguardDisk {
  import opened Wrappers
  import opened PretoolguardJournal

  datatype Object = Object(id: Identity, meta: Metadata)

  datatype Disk = Disk(
    width: nat,                // length of this transaction's records apart from the phase
    target: Object,            // what the hook's name denotes
    retained: Option<Object>,  // private/object
    dirMade: bool, dirKept: bool,          // the private directory; its name is durable
    journalMade: bool, journalKept: bool,  // private/journal; its name is durable
    contentKept: bool, nameKept: bool,     // bytes and name of private/object are durable
    parentDirty: bool, privateDirty: bool, // a swap not yet synced in that directory
    records: seq<Record>, synced: nat,     // complete lines; how many of them are durable
    torn: bool, tornKept: bool)            // an incomplete last line; it is durable
  {
    predicate Dirty() {
      parentDirty || privateDirty
    }

    predicate AllKept() {
      dirMade && dirKept && journalMade && journalKept && contentKept && nameKept && retained.Some?
    }

    function Last(): Record
      requires records != []
    {
      records[|records| - 1]
    }
  }

  // The outcome a phase claims for the pair of names.
  predicate Agrees(r: Record, target: Identity) {
    match r.phase
    case Installed => target == r.installed
    case RollbackAborted => target == r.installed
    case InstallAborted => target == r.original
    case RolledBack => target == r.original
    case _ => true
  }

  predicate CanWrite(d: Disk) {
    !d.torn && !d.Dirty() && d.AllKept()
  }

  // Where the two objects must be before the line `rec` may be written.
  predicate CanClaim(d: Disk, rec: Record) {
    && CanWrite(d) && Agrees(rec, d.target.id)
    && (if d.records == [] then
          && d.target == Object(rec.original, rec.originalMetadata)
          && d.retained == Some(Object(rec.installed, rec.installedMetadata))
        else
          SameIdentity(rec, d.records[0]))
  }

  // What a caller of `appendRecord` has to have established: none of it is checked there.
  predicate Entitled(d: Disk, rec: Record) {
    CanClaim(d, rec) && (if d.records == [] then WellFormedFirst(rec) else Follows(d.Last().phase, rec.phase))
  }

  // When the protocol may write the complete line `rec`.
  ghost predicate CanAppend(d: Disk, rec: Record) {
    Entitled(d, rec) && AppendAdmits(d.records, d.width, rec)
  }

  // When the protocol may exchange the two names: behind a durable prepared record, from the side it starts on.
  predicate CanSwap(d: Disk) {
    && d.AllKept() && !d.torn && !d.Dirty()
    && d.records != [] && d.synced == |d.records|
    && (if d.Last().phase == InstallPrepared then d.target.id == d.records[0].original
        else d.Last().phase == RollbackPrepared && d.target.id == d.records[0].installed)
  }

  // ---- The effects ----

  function Written(d: Disk, rec: Record): Disk {
    d.(records := d.records + [rec])
  }

  function JournalSynced(d: Disk): Disk {
    d.(synced := |d.records|, tornKept := d.torn)
  }

  function Swapped(d: Disk): Disk
    requires d.retained.Some?
  {
    d.(target := d.retained.value, retained := Some(d.target), parentDirty := true, privateDirty := true)
  }

  function ParentSynced(d: Disk): Disk {
    d.(parentDirty := false, dirKept := d.dirMade)
  }

  function PrivateSynced(d: Disk): Disk {
    d.(privateDirty := false, journalKept := d.journalMade, nameKept := d.retained.Some?)
  }

  predicate SameNames(a: Disk, b: Disk) {
    a.target == b.target && a.retained == b.retained
  }

  // Before the first line, the private directory is filled; the target is not touched.
  predicate Staging(d: Disk, e: Disk) {
    && d.records == e.records && |d.records| == 0 && !d.torn && !e.torn && !e.tornKept && e.synced == 0
    && d.target == e.target && d.width == e.width
    && d.parentDirty == e.parentDirty && d.privateDirty == e.privateDirty
  }

  // A crash keeps a prefix of the lines, at least the durable ones, and may tear the next line.
  predicate JournalSurvives(d: Disk, e: Disk) {
    && d.synced <= e.synced == |e.records| <= |d.records|
    && e.records == d.records[..|e.records|]
    && e.tornKept == e.torn
    && (|e.records| == |d.records| ==> (e.torn ==> d.torn) && (d.tornKept ==> e.torn))
  }

  // A swap survives as a whole, or is lost as a whole unless both directories were synced since.
  predicate PairSurvives(d: Disk, e: Disk) {
    || SameNames(d, e)
    || (d.Dirty() && d.retained.Some? && e.target == d.retained.value && e.retained == Some(d.target))
  }

  predicate Crash(d: Disk, e: Disk) {
    && e.width == d.width && !e.Dirty()
    && (if d.AllKept() then e.AllKept() && JournalSurvives(d, e) && PairSurvives(d, e)
        else
          && (e.target == d.target || (d.Dirty() && d.retained.Some? && e.target == d.retained.value))
          && e.records == [] && !e.torn && !e.tornKept && e.synced == 0)
  }

  // Every effect other than a complete line or a crash.
  predicate Effect(d: Disk, e: Disk) {
    || e == d
    || Staging(d, e)
    || (CanWrite(d) && e == d.(torn := true))
    || e == JournalSynced(d)
    || (CanSwap(d) && e == Swapped(d))
    || e == ParentSynced(d)
    || e == PrivateSynced(d)
  }

  ghost predicate Appended(d: Disk, e: Disk) {
    e.records != [] && e == Written(d, e.Last()) && CanAppend(d, e.Last())
  }

  ghost predicate Step(d: Disk, e: Disk) {
    Effect(d, e) || Appended(d, e) || Crash(d, e)
  }

  predicate Initial(d: Disk) {
    && d.retained.None? && !d.dirMade && !d.dirKept && !d.journalMade && !d.journalKept
    && !d.contentKept && !d.nameKept && !d.Dirty()
    && d.records == [] && d.synced == 0 && !d.torn && !d.tornKept
  }

  ghost predicate IsRun(run: seq<Disk>) {
    && run != [] && Initial(run[0])
    && forall i :: 0 < i < |run| ==> Step(run[i - 1], run[i])
  }

  lemma RunExtends(run: seq<Disk>, d: Disk)
    requires IsRun(run) && Step(run[|run| - 1], d)
    ensures IsRun(run + [d])
  {
    var longer := run + [d];
    forall i | 0 < i < |longer|
      ensures Step(longer[i - 1], longer[i])
    {
      if i < |run| {
        assert longer[i] == run[i] && longer[i - 1] == run[i - 1];
      }
    }
  }

  // ---- The invariant ----

  // The object is one of the transaction's two.
  predicate Mine(d: Disk, id: Identity)
    requires d.records != []
  {
    id == d.records[0].original || id == d.records[0].installed
  }

  // Both objects of a recorded transaction are at its two names, one each.
  predicate ExactPair(d: Disk)
    requires d.records != []
  {
    var r := d.records[0];
    var a, b := Object(r.original, r.originalMetadata), Object(r.installed, r.installedMetadata);
    (d.target == a && d.retained == Some(b)) || (d.target == b && d.retained == Some(a))
  }

  ghost predicate Sound(lines: seq<Record>, width: nat) {
    LegalJournal(lines) && Produced(lines, width) && Bytes(lines, width) <= MAX_BYTES
  }

  // Where the objects are, and what every line that may still be durable says about it.
  predicate Placed(d: Disk, first: Object) {
    && d.synced <= |d.records|
    && (d.tornKept ==> d.torn && d.synced == |d.records|)
    && (d.synced == 0 ==> d.target == first && !d.Dirty())
    && (d.records != [] || d.torn ==> d.AllKept())
    && (d.records != [] ==> Object(d.records[0].original, d.records[0].originalMetadata) == first && ExactPair(d))
    && (d.Dirty() ==> d.records != [] && d.synced == |d.records| && !d.torn && IsPrepared(d.Last().phase))
    && (forall k :: 0 <= k < |d.records| && d.synced <= k + 1 ==> Agrees(d.records[k], d.target.id))
  }

  ghost predicate Safe(d: Disk, first: Object) {
    Placed(d, first) && (d.records != [] ==> Sound(d.records, d.width))
  }

  lemma SoundAppend(lines: seq<Record>, width: nat, rec: Record)
    requires lines != [] ==> Sound(lines, width)
    requires AppendAdmits(lines, width, rec)
    requires if lines == [] then WellFormedFirst(rec)
             else SameIdentity(rec, lines[0]) && Follows(lines[|lines| - 1].phase, rec.phase)
    ensures Sound(lines + [rec], width)
  {
    WriterAgreesWithReader(lines, width, rec);
    assert lines == [] ==> Produced(lines, width);
    ProducedAppend(lines, width, rec);
  }

  lemma {:induction false} BytesMonotone(lines: seq<Record>, width: nat, k: nat)
    requires k <= |lines|
    ensures Bytes(lines[..k], width) <= Bytes(lines, width)
  {
    if k == |lines| {
      assert lines[..k] == lines;
    } else {
      var shorter := lines[..|lines| - 1];
      assert shorter[..k] == lines[..k];
      BytesMonotone(shorter, width, k);
    }
  }

  lemma SoundPrefix(lines: seq<Record>, width: nat, k: nat)
    requires Sound(lines, width) && 0 < k <= |lines|
    ensures Sound(lines[..k], width)
  {
    ProducedPrefix(lines, width, k);
    BytesMonotone(lines, width, k);
  }

  lemma WriteKeepsPlaced(d: Disk, rec: Record, first: Object)
    requires Placed(d, first) && CanClaim(d, rec)
    ensures Placed(Written(d, rec), first)
  {
    var e := Written(d, rec);
    assert e.records[0] == if d.records == [] then rec else d.records[0];
    assert forall k :: 0 <= k < |d.records| ==> e.records[k] == d.records[k];
  }

  lemma CrashKeepsPlaced(d: Disk, e: Disk, first: Object)
    requires Placed(d, first) && Crash(d, e)
    ensures Placed(e, first)
  {
    if d.AllKept() && e.records != [] {
      assert forall k :: 0 <= k < |e.records| ==> e.records[k] == d.records[k];
    }
  }

  lemma CrashKeepsSound(d: Disk, e: Disk)
    requires d.records != [] ==> Sound(d.records, d.width)
    requires Crash(d, e) && e.records != []
    ensures Sound(e.records, e.width)
  {
    SoundPrefix(d.records, d.width, |e.records|);
  }

  lemma SwapKeepsPlaced(d: Disk, first: Object)
    requires Placed(d, first) && CanSwap(d)
    ensures Placed(Swapped(d), first)
  {
    assert d.records[|d.records| - 1] == d.Last();
  }

  lemma SyncsKeepPlaced(d: Disk, first: Object)
    requires Placed(d, first)
    ensures Placed(JournalSynced(d), first) && Placed(ParentSynced(d), first) && Placed(PrivateSynced(d), first)
  {
  }

  lemma EffectKeepsPlaced(d: Disk, e: Disk, first: Object)
    requires Placed(d, first) && Effect(d, e)
    ensures Placed(e, first)
  {
    SyncsKeepPlaced(d, first);
    if CanSwap(d) {
      SwapKeepsPlaced(d, first);
    }
  }

  lemma EffectKeepsRecords(d: Disk, e: Disk)
    requires Effect(d, e)
    ensures e.records == d.records && e.width == d.width
  {
    if e == JournalSynced(d) {
    } else if e == ParentSynced(d) {
    } else if e == PrivateSynced(d) {
    }
  }

  lemma StepKeepsSound(d: Disk, e: Disk)
    requires Step(d, e) && e.records != []
    requires d.records != [] ==> Sound(d.records, d.width)
    ensures Sound(e.records, e.width)
  {
    if Appended(d, e) {
      SoundAppend(d.records, d.width, e.Last());
    } else if Crash(d, e) {
      CrashKeepsSound(d, e);
    } else {
      EffectKeepsRecords(d, e);
    }
  }

  lemma StepKeepsPlaced(d: Disk, e: Disk, first: Object)
    requires Placed(d, first) && Step(d, e)
    ensures Placed(e, first)
  {
    if Appended(d, e) {
      WriteKeepsPlaced(d, e.Last(), first);
    } else if Crash(d, e) {
      CrashKeepsPlaced(d, e, first);
    } else {
      EffectKeepsPlaced(d, e, first);
    }
  }

  lemma StepKeepsSafe(d: Disk, e: Disk, first: Object)
    requires Safe(d, first) && Step(d, e)
    ensures Safe(e, first)
  {
    StepKeepsPlaced(d, e, first);
    if e.records != [] {
      StepKeepsSound(d, e);
    }
  }

  /** Every state of every run is safe. */
  lemma {:induction false} RunIsSafe(run: seq<Disk>, i: nat)
    requires IsRun(run) && i < |run|
    ensures Safe(run[i], run[0].target)
  {
    if i > 0 {
      RunIsSafe(run, i - 1);
      StepKeepsSafe(run[i - 1], run[i], run[0].target);
    }
  }

  /**
   What the journal on disk promises in every reachable state: with no durable record the target is
   the original; behind a durable record exactly the two recorded objects exist, one at each name;
   and a durable terminal record names the object that is at the target.
   */
  lemma DurablePhaseAgrees(run: seq<Disk>, i: nat)
    requires IsRun(run) && i < |run|
    ensures var d := run[i];
            && d.synced <= |d.records|
            && (d.synced == 0 ==> d.target == run[0].target)
            && (d.synced > 0 ==> ExactPair(d) && Agrees(d.records[d.synced - 1], d.target.id))
  {
    RunIsSafe(run, i);
  }

  /** The same of the disk a crash leaves behind, whatever of the unsynced effects it loses. */
  lemma CrashedPhaseAgrees(run: seq<Disk>, d: Disk)
    requires IsRun(run) && Crash(run[|run| - 1], d)
    ensures d.records == [] ==> d.target == run[0].target
    ensures d.records != [] ==> ExactPair(d) && Agrees(d.Last(), d.target.id) && d.synced == |d.records|
  {
    RunIsSafe(run, |run| - 1);
    StepKeepsSafe(run[|run| - 1], d, run[0].target);
  }

  /** Whatever was written is readable, although no append checks its transition. */
  lemma EveryUntornJournalIsRead(run: seq<Disk>, i: nat)
    requires IsRun(run) && i < |run| && run[i].records != []
    ensures LegalJournal(run[i].records) && Bytes(run[i].records, run[i].width) <= 65536
  {
    RunIsSafe(run, i);
  }

  /** In every run, a journal that ends prepared can still take either terminal record. */
  lemma TerminalAlwaysFits(run: seq<Disk>, i: nat, rec: Record)
    requires IsRun(run) && i < |run| && run[i].records != []
    requires Follows(run[i].Last().phase, rec.phase) && IsPrepared(run[i].Last().phase)
    ensures AppendAdmits(run[i].records, run[i].width, rec)
  {
    RunIsSafe(run, i);
    ReservationSuffices(run[i].records, run[i].width, rec);
  }

  lemma TornStep(d: Disk, e: Disk, first: Object)
    requires Placed(d, first) && Step(d, e) && d.torn
    ensures e.torn ==> SameNames(d, e)
    ensures d.tornKept ==> SameNames(d, e) && e.torn && e.tornKept && e.records == d.records
  {
  }

  /** A durable torn line freezes the pair and the journal for the rest of the run. */
  lemma {:induction false} TornJournalFreezes(run: seq<Disk>, i: nat, j: nat)
    requires IsRun(run) && i <= j < |run| && run[i].torn && run[i].tornKept
    ensures SameNames(run[i], run[j]) && run[j].records == run[i].records && run[j].torn && run[j].tornKept
    decreases j
  {
    if i < j {
      TornJournalFreezes(run, i, j - 1);
      RunIsSafe(run, j - 1);
      TornStep(run[j - 1], run[j], run[0].target);
    }
  }

  /** A torn line that is not yet durable freezes the names until a crash loses it. */
  lemma {:induction false} TornJournalHoldsNames(run: seq<Disk>, i: nat, j: nat)
    requires IsRun(run) && i <= j < |run|
    requires forall k :: i <= k <= j ==> run[k].torn
    ensures SameNames(run[i], run[j])
    decreases j
  {
    if i < j {
      TornJournalHoldsNames(run, i, j - 1);
      assert Placed(run[j - 1], run[0].target) by { RunIsSafe(run, j - 1); }
      assert run[j - 1].torn && run[j].torn && Step(run[j - 1], run[j]);
      TornStep(run[j - 1], run[j], run[0].target);
    }
  }

  // ---- What a name or a line moves on ----

  // Everything the journal and the retained object need to be found again is on disk.
  ghost predicate Anchored(d: Disk) {
    && d.dirMade && d.dirKept && d.journalMade && d.journalKept && d.contentKept && d.nameKept && d.retained.Some?
  }

  // All lines are on disk, the last one prepares the exchange, and the target is where it starts from.
  ghost predicate Prepared(d: Disk) {
    && Anchored(d) && d.records != [] && d.synced == |d.records| && !d.torn && !d.parentDirty && !d.privateDirty
    && match d.records[|d.records| - 1].phase
       case InstallPrepared => d.target.id == d.records[0].original
       case RollbackPrepared => d.target.id == d.records[0].installed
       case _ => false
  }

  lemma CrashMoves(d: Disk, e: Disk)
    requires Crash(d, e) && e.target != d.target
    ensures !e.parentDirty && d.retained.Some? && e.target == d.retained.value && (d.parentDirty || d.privateDirty)
  {
  }

  lemma EffectMoves(d: Disk, e: Disk)
    requires Effect(d, e) && e.target != d.target
    ensures CanSwap(d) && e == Swapped(d)
  {
    if e == JournalSynced(d) {
    } else if e == ParentSynced(d) {
    } else if e == PrivateSynced(d) {
    }
  }

  /**
   The target changes only by an exchange of the two names behind a durable prepared line, or by a crash that
   undoes one, which happens only until both directories are synced.
   */
  lemma TargetMoves(d: Disk, e: Disk)
    requires Step(d, e) && e.target != d.target
    ensures d.retained.Some? && e.target == d.retained.value
    ensures if e.parentDirty then Prepared(d) && e.privateDirty && e.retained == Some(d.target) && e.records == d.records
            else d.parentDirty || d.privateDirty
  {
    if Crash(d, e) {
      CrashMoves(d, e);
    } else if Effect(d, e) {
      EffectMoves(d, e);
    }
  }

  /**
   How bad a crash may be: of an anchored transaction any number of unsynced lines are lost and the next one may
   be torn; and as long as one directory is unsynced, the exchange of the names may be undone.
   */
  lemma CrashMayLose(d: Disk, k: nat, torn: bool, undone: bool)
    requires Anchored(d) && d.synced <= k <= |d.records|
    requires k == |d.records| ==> (torn ==> d.torn) && (d.tornKept ==> torn)
    requires undone ==> d.parentDirty || d.privateDirty
    ensures Step(d, d.(records := d.records[..k], synced := k, torn := torn, tornKept := torn,
                       parentDirty := false, privateDirty := false,
                       target := if undone then d.retained.value else d.target,
                       retained := if undone then Some(d.target) else d.retained))
  {
    var e := d.(records := d.records[..k], synced := k, torn := torn, tornKept := torn,
                parentDirty := false, privateDirty := false,
                target := if undone then d.retained.value else d.target,
                retained := if undone then Some(d.target) else d.retained);
    assert PairSurvives(d, e) && JournalSurvives(d, e);
    assert Crash(d, e);
  }

  /** A line is written only once everything it speaks of is durable and the names are settled. */
  lemma LineAppears(d: Disk, e: Disk)
    requires Step(d, e) && |e.records| > |d.records|
    ensures Anchored(d) && !d.torn && !d.parentDirty && !d.privateDirty && e.target == d.target && |e.records| == |d.records| + 1
    ensures var rec := e.records[|d.records|];
            && |d.records| < 8 && (rec.phase == InstallPrepared || rec.phase == RollbackPrepared ==> |d.records| < 7)
            && (rec.phase == Installed || rec.phase == RollbackAborted ==> d.target.id == rec.installed)
            && (rec.phase == InstallAborted || rec.phase == RolledBack ==> d.target.id == rec.original)
  {
    if Appended(d, e) {
      assert e.records[|d.records|] == e.Last();
    } else if Crash(d, e) {
    } else {
      EffectKeepsRecords(d, e);
    }
  }

  /** Behind the first line everything stays anchored, whatever crashes. */
  lemma LinesAreAnchored(run: seq<Disk>, i: nat)
    requires IsRun(run) && i < |run| && (run[i].records != [] || run[i].torn)
    ensures Anchored(run[i])
  {
    RunIsSafe(run, i);
  }
}
