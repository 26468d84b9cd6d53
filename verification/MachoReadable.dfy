/**
 What the comparison reads and accepts, said once more without any pass over the file: a list of places
 where commands begin, and what stands at each of them.
 */
module MachoReadable {
  import opened Wrappers
  import opened MachoLayout
  import opened MachoCompare

  function U32(data: Bytes, at: nat): nat {
    if at + 4 <= |data| then
      data[at] as int + 0x100 * data[at + 1] as int + 0x10000 * data[at + 2] as int + 0x1000000 * data[at + 3] as int
    else 0
  }

  function U64(data: Bytes, at: nat): nat {
    U32(data, at) + 0x1_0000_0000 * U32(data, at + 4)
  }

  predicate Named(data: Bytes, at: nat) {
    at + 24 <= |data| && data[at + 8..at + 24] == ['_' as int, '_' as int, 'L' as int, 'I' as int, 'N' as int, 'K' as int,
                                                   'E' as int, 'D' as int, 'I' as int, 'T' as int, 0, 0, 0, 0, 0, 0]
  }

  predicate Linking(data: Bytes, at: nat) {
    U32(data, at) == 0x19 && Named(data, at)
  }

  // A segment command: its sections fill it, its memory ends in 64 bits.
  predicate SegmentAt(data: Bytes, at: nat, size: nat) {
    && size == 72 + 80 * U32(data, at + 64)
    && U64(data, at + 24) + U64(data, at + 32) < 0x1_0000_0000_0000_0000
  }

  // The link-edit segment: no sections, read only, and its part of the file ends the file.
  predicate LinkingAt(data: Bytes, at: nat, end: nat) {
    && U32(data, at + 64) == 0 && U32(data, at + 56) == 1 && U32(data, at + 60) == 1
    && 0 < U64(data, at + 48) <= U64(data, at + 32)
    && end <= U64(data, at + 40) && U64(data, at + 40) + U64(data, at + 48) == |data|
  }

  // One command fills the space between two starts; it is no signature.
  predicate CommandAt(data: Bytes, at: nat, next: nat, end: nat) {
    && at + 8 <= next <= end && next - at == U32(data, at + 4) && (next - at) % 8 == 0 && U32(data, at) != 0x1d
    && (U32(data, at) == 0x19 ==> SegmentAt(data, at, next - at))
    && (Linking(data, at) ==> LinkingAt(data, at, end))
  }

  predicate TakesSpace(data: Bytes, at: nat) {
    U32(data, at) == 0x19 && U64(data, at + 32) > 0
  }

  predicate DisjointAt(data: Bytes, a: nat, b: nat) {
    TakesSpace(data, a) && TakesSpace(data, b) ==>
      || U64(data, a + 24) + U64(data, a + 32) <= U64(data, b + 24)
      || U64(data, b + 24) + U64(data, b + 32) <= U64(data, a + 24)
  }

  predicate HeaderAt(data: Bytes) {
    && |data| >= 32 && U32(data, 0) == 0xfeedfacf && U32(data, 4) == 0x0100000c && U32(data, 12) == 2
    && 1 <= U32(data, 16) <= 4096 && 32 + U32(data, 20) <= |data|
  }

  ghost predicate AllCommands(data: Bytes, end: nat, starts: seq<nat>) {
    forall i {:trigger NextAt(data, starts, i, end)} :: 0 <= i < |starts| - 1 ==> NextAt(data, starts, i, end)
  }

  predicate NextAt(data: Bytes, starts: seq<nat>, i: nat, end: nat)
    requires i < |starts| - 1
  {
    CommandAt(data, starts[i], starts[i + 1], end)
  }

  // Only command k is a link-edit segment.
  ghost predicate Only(data: Bytes, starts: seq<nat>, k: nat) {
    forall i {:trigger Linking(data, starts[i])} :: 0 <= i < |starts| - 1 ==> (Linking(data, starts[i]) <==> i == k)
  }

  ghost predicate AllDisjoint(data: Bytes, starts: seq<nat>) {
    forall i, j {:trigger DisjointAt(data, starts[i], starts[j])} ::
      0 <= i < j < |starts| - 1 ==> DisjointAt(data, starts[i], starts[j])
  }

  // The commands begin at these places; the link-edit segment is number k.
  ghost predicate Laid(data: Bytes, starts: seq<nat>, k: nat) {
    && HeaderAt(data) && |starts| == U32(data, 16) + 1 && k < |starts| - 1
    && starts[0] == 32 && starts[|starts| - 1] == 32 + U32(data, 20)
    && AllCommands(data, 32 + U32(data, 20), starts) && Only(data, starts, k) && AllDisjoint(data, starts)
  }

  // ---- Words ----

  lemma ValueOfFour(s: Bytes)
    requires |s| == 4
    ensures Value(s) == s[0] as int + 0x100 * s[1] as int + 0x10000 * s[2] as int + 0x1000000 * s[3] as int
  {
    assert Value(s) == s[0] as int + 256 * Value(s[1..]);
    assert Value(s[1..]) == s[1] as int + 256 * Value(s[1..][1..]);
    assert Value(s[1..][1..]) == s[2] as int + 256 * Value(s[1..][1..][1..]);
    assert Value(s[1..][1..][1..]) == s[3] as int + 256 * Value(s[1..][1..][1..][1..]);
  }

  lemma {:induction false} ValueOfSum(s: Bytes, t: Bytes)
    requires |s| == 4
    ensures Value(s + t) == Value(s) + 0x1_0000_0000 * Value(t)
  {
    assert (s + t)[1..][1..][1..][1..] == t;
    assert Value(s + t) == s[0] + 256 * Value((s + t)[1..]);
    assert Value((s + t)[1..]) == s[1] + 256 * Value((s + t)[1..][1..]);
    assert Value((s + t)[1..][1..]) == s[2] + 256 * Value((s + t)[1..][1..][1..]);
    assert Value((s + t)[1..][1..][1..]) == s[3] + 256 * Value(t);
    ValueOfFour(s);
  }

  lemma WordIs(data: Bytes, at: nat)
    requires at + 4 <= |data|
    ensures Word(data, at) == U32(data, at)
  {
    ValueOfFour(data[at..at + 4]);
  }

  lemma LongIs(data: Bytes, at: nat)
    requires at + 8 <= |data|
    ensures Long(data, at) == U64(data, at)
  {
    ValueOfSum(data[at..at + 4], data[at + 4..at + 8]);
    assert data[at..at + 8] == data[at..at + 4] + data[at + 4..at + 8];
    WordIs(data, at);
    WordIs(data, at + 4);
  }

  lemma SegmentWords(data: Bytes, at: nat)
    requires at + 72 <= |data|
    ensures Long(data, at + 24) == U64(data, at + 24) && Long(data, at + 32) == U64(data, at + 32)
    ensures Long(data, at + 40) == U64(data, at + 40) && Long(data, at + 48) == U64(data, at + 48)
    ensures Word(data, at + 56) == U32(data, at + 56) && Word(data, at + 60) == U32(data, at + 60)
    ensures Word(data, at + 64) == U32(data, at + 64)
  {
    LongIs(data, at + 24);
    LongIs(data, at + 32);
    LongIs(data, at + 40);
    LongIs(data, at + 48);
    WordIs(data, at + 56);
    WordIs(data, at + 60);
    WordIs(data, at + 64);
  }

  lemma HeaderIs(data: Bytes)
    ensures Header(data) <==> HeaderAt(data)
    ensures Header(data) ==> Count(data) == U32(data, 16) && End(data) == 32 + U32(data, 20)
  {
    if |data| >= 32 {
      WordIs(data, 0);
      WordIs(data, 4);
      WordIs(data, 12);
      WordIs(data, 16);
      WordIs(data, 20);
    }
  }

  // ---- Commands ----

  lemma SegmentIs(data: Bytes, at: nat, end: nat)
    requires at + 72 <= |data| && end <= |data| && U32(data, at) == 0x19
    ensures IsLinkedit(data, at) <==> Linking(data, at)
    ensures ValidSegment(data, at, end)
       <==> SegmentAt(data, at, U32(data, at + 4)) && (Linking(data, at) ==> LinkingAt(data, at, end))
  {
    WordIs(data, at);
    WordIs(data, at + 4);
    SegmentWords(data, at);
  }

  lemma CommandIs(data: Bytes, at: nat, end: nat)
    requires end <= |data|
    ensures at + 8 <= end ==> (ValidCommand(data, at, end) <==> CommandAt(data, at, at + Size(data, at), end))
    ensures ValidCommand(data, at, end) ==> at + 8 <= end
    ensures ValidCommand(data, at, end) ==> (IsLinkedit(data, at) <==> Linking(data, at))
  {
    if at + 8 <= end {
      WordIs(data, at);
      WordIs(data, at + 4);
      if U32(data, at) == 0x19 && at + 72 <= |data| {
        SegmentIs(data, at, end);
      }
    }
  }

  function Space(data: Bytes, at: nat): seq<Range> {
    if TakesSpace(data, at) then [Range(U64(data, at + 24), U64(data, at + 24) + U64(data, at + 32))] else []
  }

  lemma TakenIs(data: Bytes, at: nat, end: nat)
    requires end <= |data| && ValidCommand(data, at, end)
    ensures Taken(data, at) == Space(data, at)
  {
    WordIs(data, at);
    if U32(data, at) == 0x19 {
      SegmentWords(data, at);
    }
  }

  // ---- The passes find what is laid out ----

  ghost predicate Begin(data: Bytes, end: nat, starts: seq<nat>) {
    && HEADER <= end <= |data| && starts != []
    && forall i :: 0 <= i < |starts| ==> Start(data, end, i) == Some(starts[i])
  }

  lemma {:induction false} BeginsWith(data: Bytes, end: nat, n: nat) returns (starts: seq<nat>)
    requires HEADER <= end <= |data| && Start(data, end, n).Some?
    ensures Begin(data, end, starts) && |starts| == n + 1
  {
    if n == 0 {
      starts := [HEADER];
    } else {
      starts := BeginsWith(data, end, n - 1);
      starts := starts + [Start(data, end, n).value];
    }
  }

  // One command, as it stands there and as the pass reads it.
  lemma BeginValid(data: Bytes, end: nat, starts: seq<nat>, i: nat)
    requires Begin(data, end, starts) && i + 1 < |starts|
    ensures ValidCommand(data, starts[i], end) && starts[i + 1] == starts[i] + Size(data, starts[i])
  {
    StartNext(data, end, i, starts[i]);
  }

  lemma BeginCommand(data: Bytes, end: nat, starts: seq<nat>, i: nat)
    requires Begin(data, end, starts) && i + 1 < |starts|
    ensures CommandAt(data, starts[i], starts[i + 1], end)
    ensures IsLinkedit(data, starts[i]) <==> Linking(data, starts[i])
    ensures starts[i] + 8 <= |data| && Taken(data, starts[i]) == Space(data, starts[i])
  {
    BeginValid(data, end, starts, i);
    CommandIs(data, starts[i], end);
    TakenIs(data, starts[i], end);
  }

  lemma CommandIsValid(data: Bytes, at: nat, next: nat, end: nat)
    requires end <= |data| && CommandAt(data, at, next, end)
    ensures at + 8 <= |data| && ValidCommand(data, at, end) && next == at + Size(data, at)
  {
    WordIs(data, at + 4);
    CommandIs(data, at, end);
  }

  lemma {:induction false} LaidBegins(data: Bytes, end: nat, starts: seq<nat>, n: nat)
    requires HEADER <= end <= |data| && n < |starts| && starts[0] == HEADER && AllCommands(data, end, starts)
    ensures Start(data, end, n) == Some(starts[n])
  {
    if n > 0 {
      LaidBegins(data, end, starts, n - 1);
      assert NextAt(data, starts, n - 1, end);
      CommandIsValid(data, starts[n - 1], starts[n], end);
      StartNext(data, end, n - 1, starts[n - 1]);
    }
  }

  lemma {:induction false} NoField(data: Bytes, end: nat, starts: seq<nat>, n: nat)
    requires Begin(data, end, starts) && n < |starts| && forall i :: 0 <= i < n ==> !IsLinkedit(data, starts[i])
    ensures Fields(data, end, n) == []
  {
    if n > 0 {
      NoField(data, end, starts, n - 1);
    }
  }

  lemma {:induction false} OneField(data: Bytes, end: nat, starts: seq<nat>, n: nat, k: nat)
    requires Begin(data, end, starts) && k < n < |starts|
    requires forall i :: 0 <= i < n ==> (IsLinkedit(data, starts[i]) <==> i == k)
    ensures Fields(data, end, n) == [starts[k] + 32]
  {
    if k == n - 1 {
      NoField(data, end, starts, n - 1);
    } else {
      OneField(data, end, starts, n - 1, k);
    }
  }

  lemma OnlyIsOneField(data: Bytes, end: nat, starts: seq<nat>, n: nat, k: nat)
    requires Begin(data, end, starts) && |starts| == n + 1 && k < n && Only(data, starts, k)
    ensures Start(data, end, n).Some? && Fields(data, end, n) == [starts[k] + 32]
  {
    forall i | 0 <= i < n
      ensures IsLinkedit(data, starts[i]) <==> i == k
    {
      BeginCommand(data, end, starts, i);
    }
    OneField(data, end, starts, n, k);
  }

  lemma StartsDiffer(data: Bytes, end: nat, starts: seq<nat>, i: nat, k: nat)
    requires Begin(data, end, starts) && i < |starts| - 1 && k < |starts| - 1 && i != k
    ensures starts[i] != starts[k]
  {
    if i < k {
      StartsInOrder(data, end, i, k);
    } else {
      StartsInOrder(data, end, k, i);
    }
  }

  lemma FieldMakesOnly(data: Bytes, starts: seq<nat>) returns (k: nat)
    requires Parseable(data) && Begin(data, End(data), starts) && |starts| == Count(data) + 1
    ensures k < |starts| - 1 && Only(data, starts, k) && Field(data) == starts[k] + 32
  {
    var end := End(data);
    var at;
    k, at := FieldOrigin(data, end, Count(data), 0);
    forall i | 0 <= i < |starts| - 1
      ensures Linking(data, starts[i]) <==> i == k
    {
      BeginCommand(data, end, starts, i);
      FieldIsUnique(data, i);
      if i != k {
        StartsDiffer(data, end, starts, i, k);
      }
    }
  }

  lemma SpacesApart(data: Bytes, a: nat, b: nat)
    ensures (Space(data, a) != [] && Space(data, b) != [] ==> Apart(Space(data, a)[0], Space(data, b)[0]))
       <==> DisjointAt(data, a, b)
  {
  }

  ghost predicate TakenApart(data: Bytes, a: nat, b: nat) {
    && a + 8 <= |data| && b + 8 <= |data|
    && (Taken(data, a) != [] && Taken(data, b) != [] ==> Apart(Taken(data, a)[0], Taken(data, b)[0]))
  }

  lemma DisjointIs(data: Bytes, end: nat, starts: seq<nat>, i: nat, j: nat)
    requires Begin(data, end, starts) && i < |starts| - 1 && j < |starts| - 1
    ensures TakenApart(data, starts[i], starts[j]) <==> DisjointAt(data, starts[i], starts[j])
  {
    BeginCommand(data, end, starts, i);
    BeginCommand(data, end, starts, j);
    SpacesApart(data, starts[i], starts[j]);
  }

  function Chain(parts: seq<seq<Range>>): seq<Range> {
    if parts == [] then [] else Chain(parts[..|parts| - 1]) + parts[|parts| - 1]
  }

  ghost predicate FirstsApart(a: seq<Range>, b: seq<Range>) {
    a != [] && b != [] ==> Apart(a[0], b[0])
  }

  ghost predicate Singles(parts: seq<seq<Range>>) {
    forall i :: 0 <= i < |parts| ==> |parts[i]| <= 1
  }

  lemma {:induction false} ChainFrom(parts: seq<seq<Range>>, a: seq<Range>)
    requires Singles(parts) && |a| == 1 && forall i :: 0 <= i < |parts| ==> FirstsApart(parts[i], a)
    ensures ApartFrom(a[0], Chain(parts))
  {
    if parts != [] {
      var before, last := parts[..|parts| - 1], parts[|parts| - 1];
      ChainFrom(before, a);
      assert FirstsApart(last, a);
      if last != [] {
        assert last == [last[0]];
        SnocApartFrom(a[0], Chain(before), last[0]);
      } else {
        assert Chain(before) + last == Chain(before);
      }
    }
  }

  lemma {:induction false} ChainApart(parts: seq<seq<Range>>)
    requires Singles(parts) && forall i, j :: 0 <= i < j < |parts| ==> FirstsApart(parts[i], parts[j])
    ensures PairwiseApart(Chain(parts))
  {
    if parts != [] {
      var before, last := parts[..|parts| - 1], parts[|parts| - 1];
      ChainApart(before);
      if last != [] {
        assert last == [last[0]];
        ChainFrom(before, last);
        SnocApart(Chain(before), last[0]);
      } else {
        assert Chain(before) + last == Chain(before);
      }
    }
  }

  function Spaces(data: Bytes, starts: seq<nat>, n: nat): seq<seq<Range>>
    requires n <= |starts|
  {
    seq(n, i requires 0 <= i < n => Space(data, starts[i]))
  }

  lemma {:induction false} RangesChain(data: Bytes, end: nat, starts: seq<nat>, n: nat)
    requires Begin(data, end, starts) && n < |starts|
    ensures Start(data, end, n).Some? && Ranges(data, end, n) == Chain(Spaces(data, starts, n))
  {
    if n > 0 {
      RangesChain(data, end, starts, n - 1);
      BeginCommand(data, end, starts, n - 1);
      RangesNext(data, end, n - 1);
      assert Spaces(data, starts, n)[..n - 1] == Spaces(data, starts, n - 1);
    }
  }

  lemma DisjointIsApart(data: Bytes, end: nat, starts: seq<nat>, n: nat)
    requires Begin(data, end, starts) && |starts| == n + 1 && AllDisjoint(data, starts)
    ensures Start(data, end, n).Some? && PairwiseApart(Ranges(data, end, n))
  {
    forall i, j | 0 <= i < j < n
      ensures FirstsApart(Spaces(data, starts, n)[i], Spaces(data, starts, n)[j])
    {
      SpacesApart(data, starts[i], starts[j]);
      assert DisjointAt(data, starts[i], starts[j]);
    }
    ChainApart(Spaces(data, starts, n));
    RangesChain(data, end, starts, n);
  }

  // ---- What a readable file is ----

  lemma CommandsBegin(data: Bytes, end: nat, starts: seq<nat>)
    requires HEADER <= end <= |data| && starts != [] && starts[0] == HEADER && AllCommands(data, end, starts)
    ensures Begin(data, end, starts)
  {
    forall i | 0 <= i < |starts|
      ensures Start(data, end, i) == Some(starts[i])
    {
      LaidBegins(data, end, starts, i);
    }
  }

  lemma FactsMakeReadable(data: Bytes, field: nat)
    requires Header(data) && Start(data, End(data), Count(data)) == Some(End(data))
    requires Fields(data, End(data), Count(data)) == [field] && PairwiseApart(Ranges(data, End(data), Count(data)))
    ensures Parseable(data) && Field(data) == field
  {
  }

  lemma LaidBegin(data: Bytes, starts: seq<nat>, k: nat)
    requires Laid(data, starts, k)
    ensures Header(data) && Begin(data, End(data), starts) && |starts| == Count(data) + 1
    ensures Start(data, End(data), Count(data)) == Some(End(data))
  {
    HeaderIs(data);
    CommandsBegin(data, End(data), starts);
    assert Start(data, End(data), |starts| - 1) == Some(starts[|starts| - 1]);
  }

  lemma LaidIsReadable(data: Bytes, starts: seq<nat>, k: nat)
    requires Laid(data, starts, k)
    ensures Parseable(data) && Field(data) == starts[k] + 32
  {
    LaidBegin(data, starts, k);
    OnlyIsOneField(data, End(data), starts, Count(data), k);
    DisjointIsApart(data, End(data), starts, Count(data));
    FactsMakeReadable(data, starts[k] + 32);
  }

  lemma ReadableIsLaid(data: Bytes) returns (starts: seq<nat>, k: nat)
    requires Parseable(data)
    ensures Laid(data, starts, k) && Field(data) == starts[k] + 32
  {
    HeaderIs(data);
    var end := End(data);
    starts := BeginsWith(data, end, Count(data));
    k := FieldMakesOnly(data, starts);
    forall i | 0 <= i < |starts| - 1
      ensures NextAt(data, starts, i, end)
    {
      BeginCommand(data, end, starts, i);
    }
    forall i, j | 0 <= i < j < |starts| - 1
      ensures DisjointAt(data, starts[i], starts[j])
    {
      SegmentsAreApart(data, end, Count(data), i, j);
      DisjointIs(data, end, starts, i, j);
    }
  }

  /**
   A file is readable exactly if its commands can be laid out: from byte 32 on, each as long as it says,
   none a signature, exactly one the link-edit segment, and no two segments sharing memory. The field is
   the size of that segment.
   */
  lemma ReadableIff(data: Bytes)
    ensures Parseable(data) <==> exists starts, k :: Laid(data, starts, k)
    ensures forall starts, k :: Laid(data, starts, k) ==> Parseable(data) && Field(data) == starts[k] + 32
  {
    forall starts, k | Laid(data, starts, k)
      ensures Parseable(data) && Field(data) == starts[k] + 32
    {
      LaidIsReadable(data, starts, k);
    }
    if Parseable(data) {
      var starts, k := ReadableIsLaid(data);
    }
  }

  // ---- What an accepted pair is ----

  // The smallest number of whole pages of 16 KiB that is enough, in 64 bits.
  predicate FewestPages(size: nat, whole: nat) {
    whole % 16384 == 0 && size <= whole < size + 16384 && size <= 0x1_0000_0000_0000_0000 - 16384
  }

  lemma GrowthIs(left: nat, right: nat)
    ensures SizeAllowed(left, right) <==> left == right || FewestPages(left, right)
  {
    RoundingFacts(left);
    if FewestPages(left, right) {
      assert right == right / 16384 * 16384;
      assert Rounded(left) == Rounded(left) / 16384 * 16384;
    }
  }

  ghost predicate SameBytes(a: Bytes, b: Bytes, field: nat) {
    |a| == |b| && forall i :: 0 <= i < |a| && !(field <= i < field + 8) ==> a[i] == b[i]
  }

  lemma SameBytesIs(a: Bytes, b: Bytes, field: nat)
    requires field + 8 <= |a|
    ensures SameOutside(a, b, field) <==> SameBytes(a, b, field)
  {
    if SameOutside(a, b, field) {
      forall i | 0 <= i < |a| && !(field <= i < field + 8)
        ensures a[i] == b[i]
      {
        SameByte(a, b, field, i);
      }
    }
  }

  /**
   Two files are accepted exactly if both are readable and equally long, every byte outside the size of
   the first one's link-edit segment is the same, and that size is the same or was rounded up to pages.
   */
  lemma AcceptsIff(a: Bytes, b: Bytes)
    ensures Accepts(a, b)
       <==> && Parseable(a) && Parseable(b) && SameBytes(a, b, Field(a))
            && (U64(a, Field(a)) == U64(b, Field(a)) || FewestPages(U64(a, Field(a)), U64(b, Field(a))))
  {
    if Parseable(a) && |a| == |b| {
      var f := FieldFits(a);
      LongIs(a, f);
      LongIs(b, f);
      GrowthIs(Long(a, f), Long(b, f));
      SameBytesIs(a, b, f);
    }
  }

  lemma FieldFits(data: Bytes) returns (f: nat)
    requires Parseable(data)
    ensures f == Field(data) && f + 8 <= |data|
  {
    f := Field(data);
    var _, _ := FieldLocation(data);
  }
}
