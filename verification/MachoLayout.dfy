/**
 The load commands of a thin arm64 executable: where each begins, which one is the link-edit segment,
 and which address ranges the segments take.
 */
module MachoLayout {
  import opened Wrappers

  type Byte = b: int | 0 <= b < 256

  type Bytes = seq<Byte>

  const HEADER := 32
  const MAGIC := 0xfeedfacf
  const CPU_ARM64 := 0x0100000c
  const EXECUTE := 2
  const MAX_COMMANDS := 4096
  const SEGMENT := 0x19
  const SIGNATURE := 0x1d
  const SEGMENT_SIZE := 72
  const SECTION_SIZE := 80
  const SPACE := 0x1_0000_0000_0000_0000
  const LINKEDIT_NAME: Bytes := [95, 95, 76, 73, 78, 75, 69, 68, 73, 84, 0, 0, 0, 0, 0, 0]

  // A little-endian number, and the ones in four and in eight bytes of a file.
  function Value(s: Bytes): nat {
    if s == [] then 0 else s[0] + 256 * Value(s[1..])
  }

  function Word(data: Bytes, at: nat): nat
    requires at + 4 <= |data|
  {
    Value(data[at..at + 4])
  }

  function Long(data: Bytes, at: nat): nat
    requires at + 8 <= |data|
  {
    Value(data[at..at + 8])
  }

  predicate Header(data: Bytes) {
    && |data| >= HEADER && Word(data, 0) == MAGIC && Word(data, 4) == CPU_ARM64 && Word(data, 12) == EXECUTE
    && 1 <= Word(data, 16) <= MAX_COMMANDS && HEADER + Word(data, 20) <= |data|
  }

  function Count(data: Bytes): nat
    requires |data| >= HEADER
  {
    Word(data, 16)
  }

  // Where the commands end.
  function End(data: Bytes): nat
    requires |data| >= HEADER
  {
    HEADER + Word(data, 20)
  }

  function Size(data: Bytes, at: nat): nat
    requires at + 8 <= |data|
  {
    Word(data, at + 4)
  }

  predicate IsSegment(data: Bytes, at: nat)
    requires at + 8 <= |data|
  {
    Word(data, at) == SEGMENT
  }

  predicate IsLinkedit(data: Bytes, at: nat) {
    at + SEGMENT_SIZE <= |data| && IsSegment(data, at) && data[at + 8..at + 24] == LINKEDIT_NAME
  }

  predicate ValidSegment(data: Bytes, at: nat, end: nat)
    requires at + SEGMENT_SIZE <= |data|
  {
    var vmaddr, vmsize := Long(data, at + 24), Long(data, at + 32);
    var fileoff, filesize := Long(data, at + 40), Long(data, at + 48);
    var sections := Word(data, at + 64);
    && Size(data, at) == SEGMENT_SIZE + sections * SECTION_SIZE && vmaddr + vmsize < SPACE
    && (IsLinkedit(data, at) ==>
          && sections == 0 && Word(data, at + 56) == 1 && Word(data, at + 60) == 1
          && 0 < filesize <= vmsize && end <= fileoff && fileoff + filesize == |data|)
  }

  predicate ValidCommand(data: Bytes, at: nat, end: nat)
    requires end <= |data|
  {
    && at + 8 <= end && Size(data, at) >= 8 && Size(data, at) % 8 == 0 && at + Size(data, at) <= end
    && Word(data, at) != SIGNATURE
    && (IsSegment(data, at) ==> Size(data, at) >= SEGMENT_SIZE && ValidSegment(data, at, end))
  }

  // Where command number i begins, if all before it are valid.
  function Start(data: Bytes, end: nat, i: nat): (at: Option<nat>)
    requires HEADER <= end <= |data|
    ensures at.Some? ==> HEADER <= at.value <= end
  {
    if i == 0 then Some(HEADER)
    else
      match Start(data, end, i - 1)
      case None => None
      case Some(at) => if ValidCommand(data, at, end) then Some(at + Size(data, at)) else None
  }

  lemma {:induction false} StartIsAligned(data: Bytes, end: nat, i: nat)
    requires HEADER <= end <= |data| && Start(data, end, i).Some?
    ensures Start(data, end, i).value % 8 == 0
  {
    if i > 0 {
      StartIsAligned(data, end, i - 1);
    }
  }

  // The fields found, and the ranges taken, by the first i commands.
  function Fields(data: Bytes, end: nat, i: nat): seq<nat>
    requires HEADER <= end <= |data| && Start(data, end, i).Some?
  {
    if i == 0 then []
    else
      var at := Start(data, end, i - 1).value;
      Fields(data, end, i - 1) + if IsLinkedit(data, at) then [at + 32] else []
  }

  // Start, by one command.
  lemma StartNext(data: Bytes, end: nat, i: nat, at: nat)
    requires HEADER <= end <= |data| && Start(data, end, i) == Some(at)
    ensures Start(data, end, i + 1) == if ValidCommand(data, at, end) then Some(at + Size(data, at)) else None
  {
  }

  datatype Range = Range(lo: nat, hi: nat)

  predicate Apart(a: Range, b: Range) {
    a.hi <= b.lo || b.hi <= a.lo
  }

  function Taken(data: Bytes, at: nat): (taken: seq<Range>)
    requires at + 8 <= |data|
    ensures taken == [] || |taken| == 1
  {
    if at + SEGMENT_SIZE <= |data| && IsSegment(data, at) && Long(data, at + 32) > 0 then
      [Range(Long(data, at + 24), Long(data, at + 24) + Long(data, at + 32))]
    else []
  }

  function Ranges(data: Bytes, end: nat, i: nat): seq<Range>
    requires HEADER <= end <= |data| && Start(data, end, i).Some?
  {
    if i == 0 then [] else Ranges(data, end, i - 1) + Taken(data, Start(data, end, i - 1).value)
  }

  ghost predicate PairwiseApart(ranges: seq<Range>) {
    forall i, j :: 0 <= i < j < |ranges| ==> Apart(ranges[i], ranges[j])
  }

  /** A file the comparison can read: valid commands that fill their space, one link-edit segment, no overlap. */
  ghost predicate Parseable(data: Bytes) {
    && Header(data) && Start(data, End(data), Count(data)) == Some(End(data))
    && |Fields(data, End(data), Count(data))| == 1 && PairwiseApart(Ranges(data, End(data), Count(data)))
  }

  function Field(data: Bytes): nat
    requires Parseable(data)
  {
    Fields(data, End(data), Count(data))[0]
  }

  // Every field found lies in a command that begins at one of the starts.
  lemma {:induction false} FieldOrigin(data: Bytes, end: nat, i: nat, k: nat) returns (j: nat, at: nat)
    requires HEADER <= end <= |data| && Start(data, end, i).Some? && k < |Fields(data, end, i)|
    ensures j < i && Start(data, end, j) == Some(at) && ValidCommand(data, at, end)
    ensures IsLinkedit(data, at) && Fields(data, end, i)[k] == at + 32
  {
    if k < |Fields(data, end, i - 1)| {
      j, at := FieldOrigin(data, end, i - 1, k);
    } else {
      j, at := i - 1, Start(data, end, i - 1).value;
    }
  }

  lemma SegmentMeaning(data: Bytes, end: nat, at: nat)
    requires HEADER <= end <= |data| && ValidCommand(data, at, end) && IsLinkedit(data, at)
    ensures at + SEGMENT_SIZE <= end && Long(data, at + 32) > 0
    ensures Long(data, at + 40) + Long(data, at + 48) == |data|
    ensures end <= Long(data, at + 40) && Long(data, at + 48) <= Long(data, at + 32)
  {
  }

  /**
   The field is an aligned word inside the load commands: the size of a segment that is not empty and
   whose file range, behind the load commands, ends the file.
   */
  lemma FieldLocation(data: Bytes) returns (j: nat, at: nat)
    requires Parseable(data)
    ensures j < Count(data) && Start(data, End(data), j) == Some(at) && IsLinkedit(data, at) && Field(data) == at + 32
    ensures HEADER <= at && at % 8 == 0 && at + SEGMENT_SIZE <= End(data) <= |data| && Long(data, Field(data)) > 0
    ensures Long(data, at + 40) + Long(data, at + 48) == |data|
    ensures End(data) <= Long(data, at + 40) && Long(data, at + 48) <= Long(data, at + 32)
  {
    j, at := FieldOrigin(data, End(data), Count(data), 0);
    StartIsAligned(data, End(data), j);
    SegmentMeaning(data, End(data), at);
  }

  lemma {:induction false} FieldOfCommand(data: Bytes, end: nat, i: nat, j: nat)
    requires HEADER <= end <= |data| && Start(data, end, i).Some? && j < i
    ensures Start(data, end, j).Some? && ValidCommand(data, Start(data, end, j).value, end)
    ensures IsLinkedit(data, Start(data, end, j).value) ==> Start(data, end, j).value + 32 in Fields(data, end, i)
    decreases i
  {
    if j < i - 1 {
      FieldOfCommand(data, end, i - 1, j);
    }
  }

  /** No other command is a link-edit segment. */
  lemma FieldIsUnique(data: Bytes, j: nat)
    requires Parseable(data) && j < Count(data)
    ensures Start(data, End(data), j).Some?
    ensures IsLinkedit(data, Start(data, End(data), j).value) ==> Start(data, End(data), j).value + 32 == Field(data)
  {
    FieldOfCommand(data, End(data), Count(data), j);
    var fields := Fields(data, End(data), Count(data));
    assert fields == [fields[0]];
  }

  lemma {:induction false} RangesGrow(data: Bytes, end: nat, i: nat, j: nat)
    requires HEADER <= end <= |data| && i <= j && Start(data, end, j).Some?
    ensures Start(data, end, i).Some? && Ranges(data, end, i) <= Ranges(data, end, j)
    decreases j
  {
    if i < j {
      RangesGrow(data, end, i, j - 1);
    }
  }

  lemma RangesNext(data: Bytes, end: nat, i: nat)
    requires HEADER <= end <= |data| && Start(data, end, i).Some? && Start(data, end, i + 1).Some?
    ensures Start(data, end, i).value + 8 <= |data|
    ensures Ranges(data, end, i + 1) == Ranges(data, end, i) + Taken(data, Start(data, end, i).value)
  {
  }

  lemma RangeAt(data: Bytes, end: nat, i: nat, n: nat)
    requires HEADER <= end <= |data| && Start(data, end, n).Some? && i < n
    ensures Start(data, end, i).Some? && Start(data, end, i).value + 8 <= |data|
    ensures var taken, x := Taken(data, Start(data, end, i).value), |Ranges(data, end, i)|;
            taken != [] ==> x < |Ranges(data, end, n)| && Ranges(data, end, n)[x] == taken[0]
  {
    RangesGrow(data, end, i, n);
    RangesGrow(data, end, i + 1, n);
    RangesNext(data, end, i);
  }

  lemma RangesInOrder(data: Bytes, end: nat, i: nat, j: nat)
    requires HEADER <= end <= |data| && Start(data, end, j).Some? && i < j
    ensures Start(data, end, i).Some? && Start(data, end, i).value + 8 <= |data|
    ensures Taken(data, Start(data, end, i).value) != [] ==> |Ranges(data, end, i)| < |Ranges(data, end, j)|
  {
    RangesGrow(data, end, i, j);
    RangesGrow(data, end, i + 1, j);
    RangesNext(data, end, i);
  }

  lemma BothApart(all: seq<Range>, x: nat, y: nat, a: seq<Range>, b: seq<Range>)
    requires PairwiseApart(all)
    requires a != [] && b != [] ==> x < y < |all| && all[x] == a[0] && all[y] == b[0]
    ensures a != [] && b != [] ==> Apart(a[0], b[0])
  {
  }

  /** Two segments of a readable file that take any space at all take disjoint space. */
  lemma SegmentsAreApart(data: Bytes, end: nat, n: nat, i: nat, j: nat)
    requires HEADER <= end <= |data| && Start(data, end, n).Some? && i < j < n && PairwiseApart(Ranges(data, end, n))
    ensures Start(data, end, i).Some? && Start(data, end, i).value + 8 <= |data|
    ensures Start(data, end, j).Some? && Start(data, end, j).value + 8 <= |data|
    ensures var a, b := Taken(data, Start(data, end, i).value), Taken(data, Start(data, end, j).value);
            a != [] && b != [] ==> Apart(a[0], b[0])
  {
    RangeAt(data, end, i, n);
    RangeAt(data, end, j, n);
    RangesInOrder(data, end, i, j);
    BothApart(Ranges(data, end, n), |Ranges(data, end, i)|, |Ranges(data, end, j)|,
              Taken(data, Start(data, end, i).value), Taken(data, Start(data, end, j).value));
  }

  // ---- Files that differ in one field only ----

  predicate SameOutside(a: Bytes, b: Bytes, field: nat) {
    |a| == |b| && field + 8 <= |a| && a[..field] == b[..field] && a[field + 8..] == b[field + 8..]
  }

  lemma SameWord(a: Bytes, b: Bytes, field: nat, at: nat)
    requires SameOutside(a, b, field) && at + 4 <= |a| && (at + 4 <= field || field + 8 <= at)
    ensures Word(a, at) == Word(b, at)
  {
    if at + 4 <= field {
      assert a[at..at + 4] == a[..field][at..at + 4] && b[at..at + 4] == b[..field][at..at + 4];
    } else {
      var k := at - field - 8;
      assert a[at..at + 4] == a[field + 8..][k..k + 4] && b[at..at + 4] == b[field + 8..][k..k + 4];
    }
  }

  lemma {:induction false} ValueIsInjective(s: Bytes, t: Bytes)
    requires |s| == |t| && Value(s) == Value(t)
    ensures s == t
  {
    if s != [] {
      assert Value(s) % 256 == s[0] && Value(t) % 256 == t[0];
      ValueIsInjective(s[1..], t[1..]);
      assert s == [s[0]] + s[1..] && t == [t[0]] + t[1..];
    }
  }

  // The field lies in the middle of one command and touches the head of none.
  lemma {:induction false} StartsInOrder(data: Bytes, end: nat, i: nat, j: nat)
    requires HEADER <= end <= |data| && i < j && Start(data, end, j).Some?
    ensures Start(data, end, i).Some? && ValidCommand(data, Start(data, end, i).value, end)
    ensures Start(data, end, i).value + Size(data, Start(data, end, i).value) <= Start(data, end, j).value
    decreases j
  {
    if i < j - 1 {
      StartsInOrder(data, end, i, j - 1);
    }
  }

  lemma HeadsAreOutside(data: Bytes, end: nat, n: nat, j: nat, i: nat)
    requires HEADER <= end <= |data| && Start(data, end, n).Some? && i < n && j < n
    requires Start(data, end, j).Some? && Start(data, end, j).value + SEGMENT_SIZE <= |data| && IsSegment(data, Start(data, end, j).value)
    ensures Start(data, end, i).Some?
    ensures var at, field := Start(data, end, i).value, Start(data, end, j).value + 32; at + 8 <= field || field + 8 <= at
  {
    StartsInOrder(data, end, i, n);
    StartsInOrder(data, end, j, n);
    if i < j {
      StartsInOrder(data, end, i, j);
    } else if j < i {
      StartsInOrder(data, end, j, i);
    }
  }

  lemma {:induction false} SameStarts(a: Bytes, b: Bytes, end: nat, field: nat, i: nat)
    requires HEADER <= end <= |a| && SameOutside(a, b, field)
    requires Start(a, end, i).Some? && Start(b, end, i).Some?
    requires forall k :: 0 <= k < i && Start(a, end, k).Some? ==> Start(a, end, k).value + 8 <= field || field + 8 <= Start(a, end, k).value
    ensures Start(b, end, i) == Start(a, end, i)
  {
    if i > 0 {
      SameStarts(a, b, end, field, i - 1);
      SameWord(a, b, field, Start(a, end, i - 1).value + 4);
    }
  }

  lemma {:induction false} StartsBefore(data: Bytes, end: nat, i: nat, j: nat)
    requires HEADER <= end <= |data| && i <= j && Start(data, end, j).Some?
    ensures Start(data, end, i).Some?
    decreases j
  {
    if i < j {
      StartsBefore(data, end, i, j - 1);
    }
  }

  lemma SameLinkedit(a: Bytes, b: Bytes, at: nat)
    requires at + SEGMENT_SIZE <= |a| && SameOutside(a, b, at + 32)
    ensures IsLinkedit(a, at) == IsLinkedit(b, at)
  {
    SameWord(a, b, at + 32, at);
    assert a[at + 8..at + 24] == a[..at + 32][at + 8..at + 24] && b[at + 8..at + 24] == b[..at + 32][at + 8..at + 24];
  }

  lemma SameCount(a: Bytes, b: Bytes, field: nat)
    requires |a| >= HEADER && HEADER <= field && SameOutside(a, b, field)
    ensures Count(a) == Count(b) && End(a) == End(b)
  {
    SameWord(a, b, field, 16);
    SameWord(a, b, field, 20);
  }

  lemma CommandsCoincide(a: Bytes, b: Bytes, end: nat, n: nat, j: nat)
    requires HEADER <= end <= |a| == |b| && Start(a, end, n).Some? && Start(b, end, n).Some? && j < n
    requires Start(a, end, j).Some? && ValidCommand(a, Start(a, end, j).value, end) && IsLinkedit(a, Start(a, end, j).value)
    requires SameOutside(a, b, Start(a, end, j).value + 32)
    ensures Start(b, end, j) == Start(a, end, j) && IsLinkedit(b, Start(a, end, j).value)
  {
    var at := Start(a, end, j).value;
    StartsBefore(b, end, j, n);
    forall k | 0 <= k < j && Start(a, end, k).Some?
      ensures Start(a, end, k).value + 8 <= at + 32 || at + 40 <= Start(a, end, k).value
    {
      HeadsAreOutside(a, end, n, j, k);
    }
    SameStarts(a, b, end, at + 32, j);
    SameLinkedit(a, b, at);
  }

  /** Readable files that agree outside the field of one have their field at the same place. */
  lemma FieldsCoincide(a: Bytes, b: Bytes)
    requires Parseable(a) && Parseable(b) && SameOutside(a, b, Field(a))
    ensures Field(b) == Field(a)
  {
    var j, at := FieldOrigin(a, End(a), Count(a), 0);
    SameCount(a, b, Field(a));
    CommandsCoincide(a, b, End(a), Count(a), j);
    FieldIsUnique(b, j);
  }
}
