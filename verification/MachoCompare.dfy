/**
 Reading one executable, and accepting a pair of them: the second is the first, or the first with the
 size of its link-edit segment rounded up to whole pages.
 */
module MachoCompare {
  import opened Wrappers
  import opened MachoLayout

  const PAGE := 16384

  // ---- Adjacent ranges are enough once they are sorted ----

  function Insert(r: Range, sorted: seq<Range>): seq<Range> {
    if sorted == [] || r.lo < sorted[0].lo then [r] + sorted else [sorted[0]] + Insert(r, sorted[1..])
  }

  // A stable sort by lower bound.
  function Sorted(ranges: seq<Range>): seq<Range> {
    if ranges == [] then [] else Insert(ranges[|ranges| - 1], Sorted(ranges[..|ranges| - 1]))
  }

  ghost predicate Ascending(ranges: seq<Range>) {
    forall i, j :: 0 <= i < j < |ranges| ==> ranges[i].lo <= ranges[j].lo
  }

  ghost predicate NonEmpty(ranges: seq<Range>) {
    forall i :: 0 <= i < |ranges| ==> ranges[i].lo < ranges[i].hi
  }

  ghost predicate ApartFrom(r: Range, ranges: seq<Range>) {
    forall i :: 0 <= i < |ranges| ==> Apart(r, ranges[i])
  }

  ghost predicate NeighboursApart(ranges: seq<Range>) {
    forall i :: 0 < i < |ranges| ==> ranges[i - 1].hi <= ranges[i].lo
  }

  lemma ConsApart(r: Range, rest: seq<Range>)
    ensures PairwiseApart([r] + rest) <==> ApartFrom(r, rest) && PairwiseApart(rest)
  {
    var all := [r] + rest;
    assert forall i :: 0 <= i < |rest| ==> all[i + 1] == rest[i];
    if PairwiseApart(all) {
      forall i | 0 <= i < |rest|
        ensures Apart(r, rest[i])
      {
        assert Apart(all[0], all[i + 1]);
      }
      forall i, j | 0 <= i < j < |rest|
        ensures Apart(rest[i], rest[j])
      {
        assert Apart(all[i + 1], all[j + 1]);
      }
    }
  }

  lemma SnocApart(rest: seq<Range>, r: Range)
    ensures PairwiseApart(rest + [r]) <==> ApartFrom(r, rest) && PairwiseApart(rest)
  {
    var all := rest + [r];
    assert forall i :: 0 <= i < |rest| ==> all[i] == rest[i];
    if PairwiseApart(all) {
      forall i | 0 <= i < |rest|
        ensures Apart(r, rest[i])
      {
        assert Apart(all[i], all[|rest|]);
      }
    }
  }

  lemma ConsApartFrom(x: Range, r: Range, rest: seq<Range>)
    ensures ApartFrom(x, [r] + rest) <==> Apart(x, r) && ApartFrom(x, rest)
  {
    var all := [r] + rest;
    assert all[0] == r && forall i :: 0 <= i < |rest| ==> all[i + 1] == rest[i];
  }

  lemma SnocApartFrom(x: Range, rest: seq<Range>, r: Range)
    ensures ApartFrom(x, rest + [r]) <==> Apart(x, r) && ApartFrom(x, rest)
  {
    var all := rest + [r];
    assert all[|rest|] == r && forall i :: 0 <= i < |rest| ==> all[i] == rest[i];
  }

  lemma {:induction false} InsertApartFrom(r: Range, sorted: seq<Range>, x: Range)
    ensures ApartFrom(x, Insert(r, sorted)) <==> Apart(x, r) && ApartFrom(x, sorted)
  {
    if sorted == [] || r.lo < sorted[0].lo {
      ConsApartFrom(x, r, sorted);
    } else {
      InsertApartFrom(r, sorted[1..], x);
      ConsApartFrom(x, sorted[0], Insert(r, sorted[1..]));
      assert sorted == [sorted[0]] + sorted[1..];
      ConsApartFrom(x, sorted[0], sorted[1..]);
    }
  }

  lemma {:induction false} InsertMembers(r: Range, sorted: seq<Range>)
    ensures forall i :: 0 <= i < |Insert(r, sorted)| ==> Insert(r, sorted)[i] == r || Insert(r, sorted)[i] in sorted
  {
    if sorted != [] && r.lo >= sorted[0].lo {
      InsertMembers(r, sorted[1..]);
    }
  }

  lemma ConsAscending(r: Range, rest: seq<Range>)
    ensures Ascending([r] + rest) <==> Ascending(rest) && forall i :: 0 <= i < |rest| ==> r.lo <= rest[i].lo
  {
    var all := [r] + rest;
    assert forall i :: 0 <= i < |rest| ==> all[i + 1] == rest[i];
    if Ascending(all) {
      forall i | 0 <= i < |rest|
        ensures r.lo <= rest[i].lo
      {
        assert all[0].lo <= all[i + 1].lo;
      }
      forall i, j | 0 <= i < j < |rest|
        ensures rest[i].lo <= rest[j].lo
      {
        assert all[i + 1].lo <= all[j + 1].lo;
      }
    }
  }

  lemma {:induction false} InsertAscending(r: Range, sorted: seq<Range>)
    requires Ascending(sorted)
    ensures Ascending(Insert(r, sorted))
  {
    if sorted == [] || r.lo < sorted[0].lo {
      ConsAscending(r, sorted);
    } else {
      assert sorted == [sorted[0]] + sorted[1..];
      ConsAscending(sorted[0], sorted[1..]);
      InsertAscending(r, sorted[1..]);
      InsertMembers(r, sorted[1..]);
      ConsAscending(sorted[0], Insert(r, sorted[1..]));
    }
  }

  lemma {:induction false} InsertApart(r: Range, sorted: seq<Range>)
    ensures PairwiseApart(Insert(r, sorted)) <==> ApartFrom(r, sorted) && PairwiseApart(sorted)
  {
    if sorted == [] || r.lo < sorted[0].lo {
      ConsApart(r, sorted);
    } else {
      InsertApart(r, sorted[1..]);
      InsertApartFrom(r, sorted[1..], sorted[0]);
      ConsApart(sorted[0], Insert(r, sorted[1..]));
      assert sorted == [sorted[0]] + sorted[1..];
      ConsApart(sorted[0], sorted[1..]);
    }
  }

  lemma {:induction false} SortKeeps(ranges: seq<Range>)
    ensures Ascending(Sorted(ranges)) && (NonEmpty(ranges) ==> NonEmpty(Sorted(ranges)))
    ensures forall x :: ApartFrom(x, Sorted(ranges)) <==> ApartFrom(x, ranges)
    ensures PairwiseApart(Sorted(ranges)) <==> PairwiseApart(ranges)
  {
    if ranges != [] {
      var rest, last := ranges[..|ranges| - 1], ranges[|ranges| - 1];
      SortKeeps(rest);
      InsertAscending(last, Sorted(rest));
      InsertMembers(last, Sorted(rest));
      assert ranges == rest + [last];
      InsertApart(last, Sorted(rest));
      SnocApart(rest, last);
      forall x
        ensures ApartFrom(x, Sorted(ranges)) <==> ApartFrom(x, ranges)
      {
        InsertApartFrom(last, Sorted(rest), x);
        assert ApartFrom(x, rest + [last]) <==> ApartFrom(x, rest) && Apart(x, last) by { SnocApartFrom(x, rest, last); }
      }
    }
  }

  lemma {:induction false} NeighboursReach(ranges: seq<Range>, i: nat, j: nat)
    requires NonEmpty(ranges) && NeighboursApart(ranges) && i < j < |ranges|
    ensures ranges[i].hi <= ranges[j].lo
    decreases j
  {
    if i < j - 1 {
      NeighboursReach(ranges, i, j - 1);
    }
  }

  lemma NeighboursSufficeSorted(sorted: seq<Range>)
    requires NonEmpty(sorted) && Ascending(sorted)
    ensures NeighboursApart(sorted) <==> PairwiseApart(sorted)
  {
    if NeighboursApart(sorted) {
      forall i, j | 0 <= i < j < |sorted|
        ensures Apart(sorted[i], sorted[j])
      {
        NeighboursReach(sorted, i, j);
      }
    }
    if PairwiseApart(sorted) {
      forall i | 0 < i < |sorted|
        ensures sorted[i - 1].hi <= sorted[i].lo
      {
        assert Apart(sorted[i - 1], sorted[i]) && sorted[i - 1].lo <= sorted[i].lo;
      }
    }
  }

  /** Comparing each range with the next one, in sorted order, finds every overlap of the unsorted ranges. */
  lemma NeighboursSuffice(ranges: seq<Range>)
    requires NonEmpty(ranges)
    ensures NeighboursApart(Sorted(ranges)) <==> PairwiseApart(ranges)
  {
    SortKeeps(ranges);
    NeighboursSufficeSorted(Sorted(ranges));
  }

  // ---- Reading one file ----

  lemma {:induction false} RangesNonEmpty(data: Bytes, end: nat, i: nat)
    requires HEADER <= end <= |data| && Start(data, end, i).Some?
    ensures NonEmpty(Ranges(data, end, i))
  {
    if i > 0 {
      RangesNonEmpty(data, end, i - 1);
    }
  }

  lemma {:induction false} StartStays(data: Bytes, end: nat, i: nat, j: nat)
    requires HEADER <= end <= |data| && i <= j && Start(data, end, i).None?
    ensures Start(data, end, j).None?
    decreases j
  {
    if i < j {
      StartStays(data, end, i, j - 1);
    }
  }

  // The commands before number i were read, and the next one begins at the offset.
  ghost predicate ReadTo(data: Bytes, end: nat, i: nat, offset: nat, found: seq<nat>, ranges: seq<Range>) {
    && HEADER <= end <= |data| && Start(data, end, i) == Some(offset)
    && found == Fields(data, end, i) && ranges == Ranges(data, end, i)
  }

  lemma ReadsNext(data: Bytes, end: nat, i: nat, offset: nat, found: seq<nat>, ranges: seq<Range>)
    requires ReadTo(data, end, i, offset, found, ranges) && ValidCommand(data, offset, end)
    ensures ReadTo(data, end, i + 1, offset + Size(data, offset),
                   found + (if IsLinkedit(data, offset) then [offset + 32] else []), ranges + Taken(data, offset))
  {
  }

  lemma StopsAt(data: Bytes, end: nat, i: nat, offset: nat, count: nat)
    requires HEADER <= end <= |data| && Start(data, end, i) == Some(offset) && !ValidCommand(data, offset, end) && i < count
    ensures Start(data, end, count).None?
  {
    StartNext(data, end, i, offset);
    StartStays(data, end, i + 1, count);
  }

  /** One pass over the commands: their fields and ranges, if they are valid and fill their space. */
  method ReadCommands(data: Bytes, end: nat, count: nat) returns (ok: bool, found: seq<nat>, ranges: seq<Range>)
    requires HEADER <= end <= |data|
    ensures if ok then ReadTo(data, end, count, end, found, ranges) else Start(data, end, count) != Some(end)
  {
    var offset: nat := HEADER;
    found, ranges := [], [];
    for i := 0 to count
      invariant ReadTo(data, end, i, offset, found, ranges)
    {
      if !ValidCommand(data, offset, end) {
        StopsAt(data, end, i, offset, count);
        return false, found, ranges;
      }
      ReadsNext(data, end, i, offset, found, ranges);
      ranges := ranges + Taken(data, offset);
      if IsLinkedit(data, offset) {
        found := found + [offset + 32];
      }
      offset := offset + Size(data, offset);
    }
    ok := offset == end;
  }

  /** One pass over the sorted ranges. */
  method Overlap(ranges: seq<Range>) returns (overlap: bool)
    requires NonEmpty(ranges)
    ensures overlap <==> !PairwiseApart(ranges)
  {
    NeighboursSuffice(ranges);
    var sorted := Sorted(ranges);
    var i := 1;
    while i < |sorted|
      invariant 1 <= i && forall k :: 0 < k < i && k < |sorted| ==> sorted[k - 1].hi <= sorted[k].lo
    {
      if sorted[i].lo < sorted[i - 1].hi {
        return true;
      }
      i := i + 1;
    }
    overlap := false;
  }

  /** Reads one file: where the size of its link-edit segment is kept, and that size. */
  method Linkedit(data: Bytes) returns (r: Option<(nat, nat)>)
    ensures r.Some? <==> Parseable(data)
    ensures r.Some? ==> r.value.0 == Field(data) && r.value.0 + 8 <= |data| && r.value.1 == Long(data, Field(data))
  {
    if !Header(data) {
      return None;
    }
    var ok, found, ranges := ReadCommands(data, End(data), Count(data));
    if !ok || |found| != 1 {
      return None;
    }
    RangesNonEmpty(data, End(data), Count(data));
    var overlap := Overlap(ranges);
    if overlap {
      return None;
    }
    var _, _ := FieldLocation(data);
    r := Some((found[0], Long(data, found[0])));
  }

  // ---- Accepting a pair ----

  function Rounded(n: nat): nat {
    (n + PAGE - 1) / PAGE * PAGE
  }

  predicate SizeAllowed(left: nat, right: nat) {
    left == right || (left <= SPACE - PAGE && right == Rounded(left))
  }

  /** The second file is the first, with at most the size of its link-edit segment rounded up. */
  ghost predicate Accepts(left: Bytes, right: Bytes) {
    && Parseable(left) && Parseable(right) && Field(left) + 8 <= |left| && Field(left) + 8 <= |right|
    && SameOutside(left, right, Field(left))
    && SizeAllowed(Long(left, Field(left)), Long(right, Field(left)))
  }

  /** The comparison's own tests, in its order; that the fields are at the same place follows from the rest. */
  method Compare(left: Bytes, right: Bytes) returns (ok: bool)
    ensures ok <==> Accepts(left, right)
  {
    var l := Linkedit(left);
    if l.None? {
      return false;
    }
    var r := Linkedit(right);
    if r.None? {
      return false;
    }
    if SameOutside(left, right, l.value.0) {
      FieldsCoincide(left, right);
    }
    if l.value.0 != r.value.0 || |left| != |right| {
      return false;
    }
    if l.value.1 != r.value.1 {
      if l.value.1 > SPACE - PAGE || r.value.1 != Rounded(l.value.1) {
        return false;
      }
    }
    ok := left[..l.value.0] == right[..r.value.0] && left[l.value.0 + 8..] == right[r.value.0 + 8..];
  }

  lemma RoundingFacts(n: nat)
    ensures n <= Rounded(n) < n + PAGE && Rounded(n) % PAGE == 0 && Rounded(Rounded(n)) == Rounded(n)
    ensures n <= SPACE - PAGE ==> Rounded(n) <= SPACE - PAGE
  {
    var q := (n + PAGE - 1) / PAGE;
    assert Rounded(n) == q * PAGE;
    assert (q * PAGE + PAGE - 1) / PAGE == q;
  }

  /** Acceptance is a partial order on the readable files: reflexive, */
  lemma AcceptsSelf(a: Bytes)
    requires Parseable(a)
    ensures Accepts(a, a)
  {
    var _, _ := FieldLocation(a);
  }

  /** antisymmetric, */
  lemma AcceptsBothWays(a: Bytes, b: Bytes)
    requires Accepts(a, b) && Accepts(b, a)
    ensures a == b
  {
    FieldsCoincide(a, b);
    var f := Field(a);
    RoundingFacts(Long(a, f));
    RoundingFacts(Long(b, f));
    ValueIsInjective(a[f..f + 8], b[f..f + 8]);
    assert a == a[..f] + a[f..f + 8] + a[f + 8..] && b == b[..f] + b[f..f + 8] + b[f + 8..];
  }

  /** and transitive. */
  lemma AcceptsThrough(a: Bytes, b: Bytes, c: Bytes)
    requires Accepts(a, b) && Accepts(b, c)
    ensures Accepts(a, c)
  {
    FieldsCoincide(a, b);
    RoundingFacts(Long(a, Field(a)));
  }

  lemma SameByte(a: Bytes, b: Bytes, field: nat, i: nat)
    requires SameOutside(a, b, field) && i < |a| && (i < field || field + 8 <= i)
    ensures a[i] == b[i]
  {
    if i < field {
      assert a[i] == a[..field][i] && b[i] == b[..field][i];
    } else {
      assert a[i] == a[field + 8..][i - field - 8] && b[i] == b[field + 8..][i - field - 8];
    }
  }

  /** What acceptance guarantees: equal bytes outside one word of the load commands. */
  lemma AcceptedDifference(a: Bytes, b: Bytes, i: nat)
    requires Accepts(a, b) && i < |a| && (i < Field(a) || Field(a) + 8 <= i)
    ensures |a| == |b| && a[i] == b[i]
  {
    SameByte(a, b, Field(a), i);
  }

  lemma AllowedGrowth(left: nat, right: nat)
    requires SizeAllowed(left, right)
    ensures left <= right < left + PAGE
    ensures left != right ==> right % PAGE == 0 && right < SPACE
  {
    RoundingFacts(left);
  }

  /** That word may only grow, by less than a page, to a whole number of pages in 64 bits. */
  lemma AcceptedGrowth(a: Bytes, b: Bytes)
    requires Accepts(a, b)
    ensures Long(a, Field(a)) <= Long(b, Field(a)) < Long(a, Field(a)) + PAGE
    ensures Long(a, Field(a)) != Long(b, Field(a)) ==> Long(b, Field(a)) % PAGE == 0 && Long(b, Field(a)) < SPACE
  {
    AllowedGrowth(Long(a, Field(a)), Long(b, Field(a)));
  }
}
