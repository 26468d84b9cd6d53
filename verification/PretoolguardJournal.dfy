/**
 The transaction journal of the pretoolguard installer: what `readJournal` accepts, what
 `appendRecord` admits, and why the two agree although the writer never checks a transition.
 */
module PretoolguardJournal {
  import opened Wrappers

  const MAX_RECORDS := 8
  const MAX_BYTES := 65536

  type Digest = nat

  datatype Identity = Identity(device: nat, inode: nat, uid: nat, gid: nat, mode: nat, sha256: Digest)

  datatype Metadata = NoProvenance | Provenance(sha256: Digest)

  datatype Phase = InstallPrepared | Installed | InstallAborted | RollbackPrepared | RolledBack | RollbackAborted

  datatype Record = Record(
    version: nat, transaction: Digest, selector: string, phase: Phase,
    original: Identity, installed: Identity, backup: Identity,
    originalMetadata: Metadata, installedMetadata: Metadata)

  function PhaseName(p: Phase): string {
    match p
    case InstallPrepared => "install-prepared"
    case Installed => "installed"
    case InstallAborted => "install-aborted"
    case RollbackPrepared => "rollback-prepared"
    case RolledBack => "rolled-back"
    case RollbackAborted => "rollback-aborted"
  }

  predicate IsPrepared(p: Phase) {
    p == InstallPrepared || p == RollbackPrepared
  }

  // The transitions of `readJournal`.
  predicate Follows(last: Phase, next: Phase) {
    || (last == InstallPrepared && (next == Installed || next == InstallAborted))
    || (last == Installed && next == RollbackPrepared)
    || (last == RollbackPrepared && (next == RolledBack || next == RollbackAborted))
    || (last == RollbackAborted && next == RollbackPrepared)
  }

  predicate SameIdentity(a: Record, b: Record) {
    a == b.(phase := a.phase)
  }

  predicate WellFormedFirst(first: Record) {
    && first.version == 2
    && first.original == first.backup
    && first.original != first.installed
    && first.original.inode != 0
    && first.installed.inode != 0
  }

  // What a reader may rely on in a journal without a torn line.
  ghost predicate LegalJournal(lines: seq<Record>) {
    && 0 < |lines| <= MAX_RECORDS
    && lines[0].phase == InstallPrepared
    && WellFormedFirst(lines[0])
    && (forall i :: 0 <= i < |lines| ==> SameIdentity(lines[i], lines[0]))
    && (forall i :: 0 < i < |lines| ==> Follows(lines[i - 1].phase, lines[i].phase))
  }

  // Where a phase may stand: prepared at even places, its outcome at odd ones.
  predicate InPlace(i: nat, p: Phase) {
    match p
    case InstallPrepared => i == 0
    case Installed => i == 1
    case InstallAborted => i == 1
    case RollbackPrepared => i > 0 && i % 2 == 0
    case RolledBack => i > 1 && i % 2 == 1
    case RollbackAborted => i > 1 && i % 2 == 1
  }

  // An installation that did not happen, or was undone, ends the journal.
  predicate Ends(p: Phase) {
    p == InstallAborted || p == RolledBack
  }

  lemma {:induction false} LegalIsPlaced(lines: seq<Record>, i: nat)
    requires LegalJournal(lines) && i < |lines|
    ensures InPlace(i, lines[i].phase)
  {
    if i > 0 {
      LegalIsPlaced(lines, i - 1);
      assert Follows(lines[i - 1].phase, lines[i].phase);
    }
  }

  /**
   A journal is legal exactly if it holds one to eight lines that differ in their phases only, of a transaction
   with two distinct objects, with every phase in its place and none behind an ending one.
   */
  lemma LegalIff(lines: seq<Record>)
    ensures LegalJournal(lines)
       <==> && 1 <= |lines| <= 8
            && lines[0].version == 2 && lines[0].original == lines[0].backup && lines[0].original != lines[0].installed
            && lines[0].original.inode != 0 && lines[0].installed.inode != 0
            && (forall i :: 0 <= i < |lines| ==> lines[i] == lines[0].(phase := lines[i].phase))
            && (forall i :: 0 <= i < |lines| ==> InPlace(i, lines[i].phase))
            && (forall i :: 0 <= i < |lines| - 1 ==> !Ends(lines[i].phase))
  {
    if LegalJournal(lines) {
      forall i | 0 <= i < |lines|
        ensures InPlace(i, lines[i].phase)
      {
        LegalIsPlaced(lines, i);
      }
      forall i | 0 <= i < |lines| - 1
        ensures !Ends(lines[i].phase)
      {
        assert Follows(lines[i + 1 - 1].phase, lines[i + 1].phase);
      }
    } else if 1 <= |lines| <= 8 && forall i :: 0 <= i < |lines| ==> InPlace(i, lines[i].phase) {
      if forall i :: 0 <= i < |lines| - 1 ==> !Ends(lines[i].phase) {
        forall i | 0 < i < |lines|
          ensures Follows(lines[i - 1].phase, lines[i].phase)
        {
          assert InPlace(i - 1, lines[i - 1].phase) && !Ends(lines[i - 1].phase);
        }
      }
    }
  }

  // `width` is the length of a record's JSON apart from its phase; a newline ends every line.
  function LineBytes(width: nat, p: Phase): nat {
    width + |PhaseName(p)| + 1
  }

  // The six lengths of a line.
  lemma LineBytesAre(width: nat)
    ensures LineBytes(width, InstallPrepared) == width + 17 && LineBytes(width, RollbackPrepared) == width + 18
    ensures LineBytes(width, Installed) == width + 10 && LineBytes(width, InstallAborted) == width + 16
    ensures LineBytes(width, RolledBack) == width + 12 && LineBytes(width, RollbackAborted) == width + 17
  {
  }

  function Bytes(lines: seq<Record>, width: nat): nat {
    if lines == [] then 0
    else Bytes(lines[..|lines| - 1], width) + LineBytes(width, lines[|lines| - 1].phase)
  }

  /** The reader: one pass that carries the first and the last record. */
  method ReadJournal(lines: seq<Record>, torn: bool, size: nat) returns (r: Result<Record>)
    ensures r.Ok? <==> LegalJournal(lines) && !torn && size <= 65536
    ensures r.Ok? ==> r.value == lines[|lines| - 1]
  {
    if |lines| == 0 || size > MAX_BYTES || torn {
      return Refused;
    }
    if |lines| > MAX_RECORDS {
      return Refused;
    }
    var first, last := lines[0], lines[0];
    for i := 0 to |lines|
      invariant i > 0 ==> first.phase == InstallPrepared && last == lines[i - 1]
      invariant first == lines[0]
      invariant forall j :: 0 <= j < i ==> SameIdentity(lines[j], lines[0])
      invariant forall j :: 0 < j < i ==> Follows(lines[j - 1].phase, lines[j].phase)
    {
      var next := lines[i];
      if i == 0 {
        first := next;
        if next.phase != InstallPrepared {
          return Refused;
        }
      } else {
        if !SameIdentity(next, first) {
          return Refused;
        }
        if !Follows(last.phase, next.phase) {
          return Refused;
        }
      }
      last := next;
    }
    if !WellFormedFirst(first) {
      return Refused;
    }
    r := Ok(last);
  }

  function RequiredSlots(p: Phase): nat {
    if IsPrepared(p) then 2 else 1
  }

  function ReservedBytes(width: nat, p: Phase): nat {
    if IsPrepared(p) then LineBytes(width, p) + |PhaseName(RollbackAborted)| else 0
  }

  // Everything `appendRecord` checks. Neither the transition nor the identity of `rec` is among it.
  ghost predicate AppendAdmits(lines: seq<Record>, width: nat, rec: Record) {
    && (if lines == [] then rec.phase == InstallPrepared else LegalJournal(lines))
    && |lines| + RequiredSlots(rec.phase) <= MAX_RECORDS
    && Bytes(lines, width) <= MAX_BYTES
    && Bytes(lines, width) + LineBytes(width, rec.phase) + ReservedBytes(width, rec.phase) <= MAX_BYTES
  }

  ghost predicate AdmittedAt(lines: seq<Record>, width: nat, i: nat)
    requires i < |lines|
  {
    AppendAdmits(lines[..i], width, lines[i])
  }

  // A journal each of whose lines was admitted in its turn.
  ghost predicate Produced(lines: seq<Record>, width: nat) {
    forall i :: 0 <= i < |lines| ==> AdmittedAt(lines, width, i)
  }

  lemma ProducedPrefix(lines: seq<Record>, width: nat, k: nat)
    requires k <= |lines| && Produced(lines, width)
    ensures Produced(lines[..k], width)
    ensures k > 0 && LegalJournal(lines) ==> LegalJournal(lines[..k])
  {
    forall i | 0 <= i < k
      ensures AdmittedAt(lines[..k], width, i)
    {
      assert lines[..k][..i] == lines[..i];
      assert AdmittedAt(lines, width, i);
    }
  }

  lemma ProducedAppend(lines: seq<Record>, width: nat, rec: Record)
    requires Produced(lines, width) && AppendAdmits(lines, width, rec)
    ensures Produced(lines + [rec], width)
  {
    var longer := lines + [rec];
    forall i | 0 <= i < |longer|
      ensures AdmittedAt(longer, width, i)
    {
      if i < |lines| {
        assert longer[..i] == lines[..i] && AdmittedAt(lines, width, i);
      } else {
        assert longer[..i] == lines;
      }
    }
  }

  /** Writer and reader agree: an admitted append of a legal successor is read back as legal. */
  lemma WriterAgreesWithReader(lines: seq<Record>, width: nat, rec: Record)
    requires AppendAdmits(lines, width, rec)
    requires if lines == [] then WellFormedFirst(rec)
             else SameIdentity(rec, lines[0]) && Follows(lines[|lines| - 1].phase, rec.phase)
    ensures LegalJournal(lines + [rec])
    ensures Bytes(lines + [rec], width) <= MAX_BYTES
  {
    var longer := lines + [rec];
    assert longer[..|lines|] == lines;
    assert longer[0] == if lines == [] then rec else lines[0];
    forall i | 0 < i < |longer|
      ensures Follows(longer[i - 1].phase, longer[i].phase)
    {
      if i < |lines| {
        assert longer[i] == lines[i] && longer[i - 1] == lines[i - 1];
      } else {
        assert longer[i] == rec && longer[i - 1] == lines[|lines| - 1];
      }
    }
  }

  /** The transition check is the caller's: an admitted append of any other record makes the journal unreadable. */
  lemma TransitionsAreTheCallersDuty(lines: seq<Record>, width: nat, rec: Record)
    requires lines != [] && AppendAdmits(lines, width, rec)
    ensures LegalJournal(lines + [rec]) <==> SameIdentity(rec, lines[0]) && Follows(lines[|lines| - 1].phase, rec.phase)
  {
    var longer := lines + [rec];
    assert longer[|lines|] == rec && longer[|lines| - 1] == lines[|lines| - 1] && longer[0] == lines[0];
    if SameIdentity(rec, lines[0]) && Follows(lines[|lines| - 1].phase, rec.phase) {
      WriterAgreesWithReader(lines, width, rec);
    }
  }

  /** Prepared and terminal records alternate, starting with a prepared one. */
  lemma {:induction false} PreparedAlternates(lines: seq<Record>, i: nat)
    requires LegalJournal(lines) && i < |lines|
    ensures IsPrepared(lines[i].phase) <==> i % 2 == 0
  {
    if i > 0 {
      PreparedAlternates(lines, i - 1);
      assert Follows(lines[i - 1].phase, lines[i].phase);
    }
  }

  ghost function RollbackAttempts(lines: seq<Record>): (attempts: set<int>) {
    set i | 0 <= i < |lines| && lines[i].phase == RollbackPrepared
  }

  /** A transaction admits at most three rollback attempts. */
  lemma AtMostThreeRollbackAttempts(lines: seq<Record>)
    requires LegalJournal(lines)
    ensures |RollbackAttempts(lines)| <= 3
  {
    forall i | i in RollbackAttempts(lines)
      ensures i in {2, 4, 6}
    {
      PreparedAlternates(lines, i);
    }
    assert RollbackAttempts(lines) <= {2, 4, 6};
    SubsetSize(RollbackAttempts(lines), {2, 4, 6});
  }

  lemma {:induction false} SubsetSize<T>(a: set<T>, b: set<T>)
    requires a <= b
    ensures |a| <= |b|
  {
    if a != {} {
      var x :| x in a;
      SubsetSize(a - {x}, b - {x});
    }
  }

  /**
   Reservation is sufficient: whenever the last record is prepared, each terminal record that may
   follow it passes the record check and the byte check.
   */
  lemma ReservationSuffices(lines: seq<Record>, width: nat, rec: Record)
    requires LegalJournal(lines) && Produced(lines, width)
    requires IsPrepared(lines[|lines| - 1].phase) && Follows(lines[|lines| - 1].phase, rec.phase)
    ensures AppendAdmits(lines, width, rec)
  {
    var n := |lines| - 1;
    assert AdmittedAt(lines, width, n);
    assert |lines[..n]| == n;
    assert |PhaseName(rec.phase)| <= |PhaseName(RollbackAborted)|;
  }

  /** A settled journal that can be rolled back has room for the attempt only below seven records. */
  lemma RollbackRoom(lines: seq<Record>, width: nat, rec: Record)
    requires LegalJournal(lines) && !IsPrepared(lines[|lines| - 1].phase) && rec.phase == RollbackPrepared
    ensures AppendAdmits(lines, width, rec) <==>
              && |lines| <= 6
              && Bytes(lines, width) + 2 * (width + 18) + 16 <= 65536
  {
    PreparedAlternates(lines, |lines| - 1);
  }
}
