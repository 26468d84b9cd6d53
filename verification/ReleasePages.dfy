/**
 Reading a newest-first release list page by page while others keep inserting at its head: exactly when
 the pages that were read are the list as it stood at the first page.
 */
module ReleasePages {
  import opened Wrappers

  datatype Release = Release(id: int, tag: string, draft: bool)

  const PAGE_SIZE := 100
  const MAX_PAGES := 10

  function Least(a: int, b: int): int {
    if a < b then a else b
  }

  // Page number i, counted from zero.
  function Page(list: seq<Release>, i: nat): seq<Release> {
    list[Least(PAGE_SIZE * i, |list|)..Least(PAGE_SIZE * i + PAGE_SIZE, |list|)]
  }

  // Later than `a`: releases were only inserted at the head.
  predicate Grown(a: seq<Release>, b: seq<Release>) {
    |a| <= |b| && b[|b| - |a|..] == a
  }

  ghost predicate Growing(lists: seq<seq<Release>>) {
    forall i, j :: 0 <= i <= j < |lists| ==> Grown(lists[i], lists[j])
  }

  // What a walk has read when page i was taken from lists[i].
  function Walked(lists: seq<seq<Release>>): seq<Release> {
    if lists == [] then []
    else Walked(lists[..|lists| - 1]) + Page(lists[|lists| - 1], |lists| - 1)
  }

  ghost predicate DistinctIds(list: seq<Release>) {
    forall j, k :: 0 <= j < k < |list| ==> list[j].id != list[k].id
  }

  // All pages but the last are full.
  ghost predicate FullSoFar(lists: seq<seq<Release>>) {
    forall i :: 0 <= i < |lists| - 1 ==> |lists[i]| >= PAGE_SIZE * (i + 1)
  }

  // The walk ends on its first short page.
  ghost predicate Finished(lists: seq<seq<Release>>) {
    lists != [] && FullSoFar(lists) && |lists[|lists| - 1]| < PAGE_SIZE * |lists|
  }

  ghost predicate Unmoved(lists: seq<seq<Release>>) {
    forall i :: 0 <= i < |lists| ==> lists[i] == lists[0]
  }

  lemma GrowingExtends(lists: seq<seq<Release>>, list: seq<Release>)
    requires Growing(lists) && (lists != [] ==> Grown(lists[|lists| - 1], list))
    ensures Growing(lists + [list])
  {
    var longer := lists + [list];
    forall i, j | 0 <= i <= j < |longer|
      ensures Grown(longer[i], longer[j])
    {
      if i < j == |lists| {
        GrownTransitive(lists[i], lists[j - 1], list);
      }
    }
  }

  lemma GrownTransitive(a: seq<Release>, b: seq<Release>, c: seq<Release>)
    requires Grown(a, b) && Grown(b, c)
    ensures Grown(a, c)
  {
    assert c[|c| - |a|..] == c[|c| - |b|..][|b| - |a|..];
  }

  // Behind full pages, page i starts at 100 * i of what was read.
  lemma {:induction false} WalkedAt(lists: seq<seq<Release>>, i: nat, at: nat)
    requires FullSoFar(lists) && i < |lists|
    requires PAGE_SIZE * i <= at < PAGE_SIZE * i + PAGE_SIZE && at < |lists[i]|
    ensures at < |Walked(lists)| && Walked(lists)[at] == lists[i][at]
  {
    var before := lists[..|lists| - 1];
    WalkedLength(before);
    if i < |before| {
      WalkedAt(before, i, at);
    } else {
      assert Page(lists[i], i)[at - PAGE_SIZE * i] == lists[i][at];
    }
  }

  lemma {:induction false} WalkedLength(lists: seq<seq<Release>>)
    requires forall i :: 0 <= i < |lists| ==> |lists[i]| >= PAGE_SIZE * (i + 1)
    ensures |Walked(lists)| == PAGE_SIZE * |lists|
  {
    if lists != [] {
      WalkedLength(lists[..|lists| - 1]);
    }
  }

  // Where release number `was` of the first list stands in list p, and that it is there.
  function Place(lists: seq<seq<Release>>, was: nat, p: nat): int
    requires p < |lists|
  {
    |lists[p]| - |lists[0]| + was
  }

  ghost predicate StillIn(lists: seq<seq<Release>>, was: nat, p: nat)
    requires p < |lists|
  {
    was < |lists[0]| <= |lists[p]| && lists[p][Place(lists, was, p)] == lists[0][was]
  }

  lemma GrowthKeeps(lists: seq<seq<Release>>, was: nat, p: nat)
    requires Growing(lists) && p < |lists| && was < |lists[0]|
    ensures StillIn(lists, was, p)
    ensures p + 1 < |lists| ==> Place(lists, was, p) <= Place(lists, was, p + 1)
  {
    assert Grown(lists[0], lists[p]);
    assert lists[p][|lists[p]| - |lists[0]|..][was] == lists[0][was];
    if p + 1 < |lists| {
      assert Grown(lists[p], lists[p + 1]);
    }
  }

  lemma ReadTwice(lists: seq<seq<Release>>, i: nat, was: nat, j: nat, now: nat)
    requires FullSoFar(lists) && i < j < |lists|
    requires PAGE_SIZE * i <= was < PAGE_SIZE * i + PAGE_SIZE && was < |lists[i]|
    requires PAGE_SIZE * j <= now < PAGE_SIZE * j + PAGE_SIZE && now < |lists[j]|
    requires lists[i][was] == lists[j][now]
    ensures !DistinctIds(Walked(lists))
  {
    WalkedAt(lists, i, was);
    WalkedAt(lists, j, now);
  }

  // The page on which a release that was pushed past its own page is read at last.
  lemma {:induction false} PageOfPlace(lists: seq<seq<Release>>, was: nat, p: nat) returns (found: nat)
    requires Growing(lists) && Finished(lists) && p < |lists| && was < |lists[0]|
    requires Place(lists, was, p) >= PAGE_SIZE * p
    ensures p <= found < |lists| && StillIn(lists, was, found)
    ensures PAGE_SIZE * found <= Place(lists, was, found) < PAGE_SIZE * found + PAGE_SIZE
    decreases |lists| - p
  {
    GrowthKeeps(lists, was, p);
    if Place(lists, was, p) < PAGE_SIZE * p + PAGE_SIZE {
      found := p;
    } else {
      found := PageOfPlace(lists, was, p + 1);
    }
  }

  // A release that was read and then pushed past its page comes up again.
  lemma ComesUpAgain(lists: seq<seq<Release>>, q: nat)
    requires Growing(lists) && Finished(lists) && 0 < q < |lists| && |lists[0]| >= PAGE_SIZE * q
    requires lists[q - 1] == lists[0] && |lists[q]| > |lists[0]|
    ensures !DistinctIds(Walked(lists))
  {
    var was := PAGE_SIZE * q - 1;
    var p := PageOfPlace(lists, was, q);
    ReadTwice(lists, q - 1, was, p, Place(lists, was, p));
  }

  lemma {:induction false} UnmovedOrRepeated(lists: seq<seq<Release>>, q: nat)
    requires Growing(lists) && Finished(lists) && DistinctIds(Walked(lists)) && 0 < q <= |lists|
    ensures Unmoved(lists[..q])
  {
    if q > 1 {
      UnmovedOrRepeated(lists, q - 1);
      assert lists[q - 2] == lists[..q - 1][q - 2] == lists[0];
      assert Grown(lists[0], lists[q - 1]);
      if lists[q - 1] != lists[0] {
        assert |lists[q - 1]| > |lists[0]|;
        ComesUpAgain(lists, q - 1);
      }
      forall i | 0 <= i < q
        ensures lists[..q][i] == lists[0]
      {
        assert i < q - 1 ==> lists[..q - 1][i] == lists[0];
      }
    }
  }

  lemma {:induction false} UnmovedWalk(lists: seq<seq<Release>>)
    requires lists != [] && Unmoved(lists)
    ensures Walked(lists) == lists[0][..Least(PAGE_SIZE * |lists|, |lists[0]|)]
  {
    var before, list := lists[..|lists| - 1], lists[0];
    if before == [] {
      assert Walked(lists) == Page(list, 0);
    } else {
      UnmovedWalk(before);
      var m, n := Least(PAGE_SIZE * |before|, |list|), Least(PAGE_SIZE * |lists|, |list|);
      assert list[..m] + list[m..n] == list[..n];
    }
  }

  /**
   A walk that ends on a short page read no identity twice exactly when the list stood still until its
   last page and holds none twice; what it read is then that list.
   */
  lemma CompleteWalkIsASnapshot(lists: seq<seq<Release>>)
    requires Growing(lists) && Finished(lists)
    ensures DistinctIds(Walked(lists)) <==> Unmoved(lists) && DistinctIds(lists[0])
    ensures DistinctIds(Walked(lists)) ==> Walked(lists) == lists[0]
  {
    assert lists[..|lists|] == lists;
    if DistinctIds(Walked(lists)) {
      UnmovedOrRepeated(lists, |lists|);
    }
    if Unmoved(lists) {
      UnmovedWalk(lists);
      assert lists[0][..|lists[0]|] == lists[0];
    }
  }

  // A walk under way: full pages only, nothing read twice.
  ghost predicate Walking(lists: seq<seq<Release>>, got: seq<Release>, now: seq<Release>) {
    && Growing(lists) && got == Walked(lists) && DistinctIds(got)
    && (forall i :: 0 <= i < |lists| ==> |lists[i]| >= PAGE_SIZE * (i + 1))
    && (lists != [] ==> Grown(lists[|lists| - 1], now))
  }

  /** The next page either continues the walk or ends it with the whole list in hand. */
  lemma PageTurns(lists: seq<seq<Release>>, got: seq<Release>, now: seq<Release>)
    requires Walking(lists, got, now) && DistinctIds(got + Page(now, |lists|))
    ensures |Page(now, |lists|)| == PAGE_SIZE ==> Walking(lists + [now], got + Page(now, |lists|), now)
    ensures |Page(now, |lists|)| < PAGE_SIZE ==> got + Page(now, |lists|) == now
  {
    var longer := lists + [now];
    GrowingExtends(lists, now);
    assert longer[..|lists|] == lists;
    assert Walked(longer) == got + Page(now, |lists|);
    if |Page(now, |lists|)| < PAGE_SIZE {
      CompleteWalkIsASnapshot(longer);
      assert longer[|lists|] == longer[0];
    }
  }

  // ---- Lists that change in any way: when a walk misses a release ----

  predicate Shows(list: seq<Release>, id: int) {
    exists i :: 0 <= i < |list| && list[i].id == id
  }

  // Where the release stands in each of the lists, in which it always is.
  ghost predicate Standing(lists: seq<seq<Release>>, id: int, place: seq<nat>) {
    |place| == |lists| && forall q :: 0 <= q < |lists| ==> StandsAt(lists[q], id, place[q])
  }

  ghost predicate StandsAt(list: seq<Release>, id: int, at: nat) {
    at < |list| && forall j :: 0 <= j < |list| ==> (list[j].id == id <==> j == at)
  }

  predicate OnPage(place: seq<nat>, q: nat) {
    q < |place| && PAGE_SIZE * q <= place[q] < PAGE_SIZE * q + PAGE_SIZE
  }

  // Behind the walk's reading of page q the release moved up across its end.
  predicate Slips(place: seq<nat>, q: nat) {
    q + 1 < |place| && place[q + 1] < PAGE_SIZE * (q + 1) <= place[q]
  }

  lemma ShowsAppend(a: seq<Release>, b: seq<Release>, id: int)
    ensures Shows(a + b, id) <==> Shows(a, id) || Shows(b, id)
  {
    if Shows(a, id) {
      var i :| 0 <= i < |a| && a[i].id == id;
      assert (a + b)[i].id == id;
    }
    if Shows(b, id) {
      var i :| 0 <= i < |b| && b[i].id == id;
      assert (a + b)[|a| + i].id == id;
    }
  }

  lemma OnItsPage(list: seq<Release>, id: int, at: nat, q: nat)
    requires StandsAt(list, id, at)
    ensures Shows(Page(list, q), id) <==> PAGE_SIZE * q <= at < PAGE_SIZE * q + PAGE_SIZE
  {
    var from, page := Least(PAGE_SIZE * q, |list|), Page(list, q);
    assert |page| == Least(PAGE_SIZE * q + PAGE_SIZE, |list|) - from;
    if PAGE_SIZE * q <= at < PAGE_SIZE * q + PAGE_SIZE {
      assert page[at - from] == list[at];
    }
    if Shows(page, id) {
      var i :| 0 <= i < |page| && page[i].id == id;
      assert page[i] == list[from + i];
    }
  }

  lemma {:induction false} ReadOnSomePage(lists: seq<seq<Release>>, id: int, place: seq<nat>)
    requires Standing(lists, id, place)
    ensures Shows(Walked(lists), id) <==> exists q: nat :: OnPage(place, q)
  {
    if lists != [] {
      var n := |lists| - 1;
      ReadOnSomePage(lists[..n], id, place[..n]);
      ShowsAppend(Walked(lists[..n]), Page(lists[n], n), id);
      assert StandsAt(lists[n], id, place[n]);
      OnItsPage(lists[n], id, place[n], n);
      if Shows(Walked(lists), id) {
        if Shows(Walked(lists[..n]), id) {
          var q: nat :| OnPage(place[..n], q);
          assert OnPage(place, q);
        } else {
          assert OnPage(place, n);
        }
      }
      if q: nat :| OnPage(place, q) && q < n {
        assert OnPage(place[..n], q);
      }
    }
  }

  // A release that is still ahead when page q is read, and never read, slips.
  lemma {:induction false} SlipsOrIsRead(place: seq<nat>, q: nat) returns (found: nat)
    requires q < |place| && place[q] >= PAGE_SIZE * q && place[|place| - 1] < PAGE_SIZE * |place|
    requires forall k :: !OnPage(place, k)
    ensures Slips(place, found)
    decreases |place| - q
  {
    assert !OnPage(place, q);
    if place[q + 1] < PAGE_SIZE * (q + 1) {
      found := q;
    } else {
      found := SlipsOrIsRead(place, q + 1);
    }
  }

  // The later list is the earlier one with releases taken out.
  predicate Shrunk(a: seq<Release>, b: seq<Release>) {
    b == [] || (a != [] && (Shrunk(a[..|a| - 1], b)
                            || (a[|a| - 1].id == b[|b| - 1].id && Shrunk(a[..|a| - 1], b[..|b| - 1]))))
  }

  ghost predicate Shrinking(lists: seq<seq<Release>>) {
    forall q :: 0 < q < |lists| ==> Shrunk(lists[q - 1], lists[q])
  }

  lemma {:induction false} ShrunkMovesUp(a: seq<Release>, b: seq<Release>, id: int, i: nat, j: nat)
    requires Shrunk(a, b) && StandsAt(a, id, i) && StandsAt(b, id, j)
    ensures j <= i && |b| <= |a|
  {
    var rest := a[..|a| - 1];
    ShrunkIsShorter(a, b);
    if i < |a| - 1 {
      if Shrunk(rest, b) {
        ShrunkMovesUp(rest, b, id, i, j);
      } else {
        ShrunkMovesUp(rest, b[..|b| - 1], id, i, j);
      }
    }
  }

  lemma {:induction false} ShrunkIsShorter(a: seq<Release>, b: seq<Release>)
    requires Shrunk(a, b)
    ensures |b| <= |a|
  {
    if b != [] {
      if Shrunk(a[..|a| - 1], b) {
        ShrunkIsShorter(a[..|a| - 1], b);
      } else {
        ShrunkIsShorter(a[..|a| - 1], b[..|b| - 1]);
      }
    }
  }

  lemma {:induction false} PlacesFall(lists: seq<seq<Release>>, id: int, place: seq<nat>, i: nat, j: nat)
    requires Standing(lists, id, place) && i <= j < |lists|
    requires Shrinking(lists)
    ensures place[j] <= place[i]
    decreases j
  {
    if i < j {
      PlacesFall(lists, id, place, i, j - 1);
      assert StandsAt(lists[j - 1], id, place[j - 1]) && StandsAt(lists[j], id, place[j]);
      ShrunkMovesUp(lists[j - 1], lists[j], id, place[j - 1], place[j]);
    }
  }

  /**
   However the list changes, a walk that ends on a short page misses a release that is in the list all the
   time only if it slips between two pages; if releases are only taken out, it misses it if and only if so.
   */
  lemma MissedIffSlips(lists: seq<seq<Release>>, id: int, place: seq<nat>)
    requires Finished(lists) && Standing(lists, id, place)
    ensures !Shows(Walked(lists), id) ==> exists q :: Slips(place, q)
    ensures Shrinking(lists) ==> (!Shows(Walked(lists), id) <==> exists q :: Slips(place, q))
  {
    ReadOnSomePage(lists, id, place);
    assert StandsAt(lists[|lists| - 1], id, place[|lists| - 1]);
    if !Shows(Walked(lists), id) {
      var q := SlipsOrIsRead(place, 0);
    }
    if Shrinking(lists) && exists q :: Slips(place, q) {
      var q :| Slips(place, q);
      SlippedIsOnNoPage(lists, id, place, q);
    }
  }

  lemma SlippedIsOnNoPage(lists: seq<seq<Release>>, id: int, place: seq<nat>, q: nat)
    requires Standing(lists, id, place) && Shrinking(lists) && Slips(place, q)
    ensures forall k :: !OnPage(place, k)
  {
    forall k | 0 <= k < |place|
      ensures !OnPage(place, k)
    {
      if k <= q {
        PlacesFall(lists, id, place, k, q);
      } else {
        PlacesFall(lists, id, place, q + 1, k);
      }
    }
  }

  // ---- It happens: one deletion can hide a release from the walk ----

  function Numbered(n: nat): seq<Release> {
    seq(n, i => Release(i + 1, "other", false))
  }

  lemma DeletionHidesARelease(hidden: Release)
    requires hidden.id == 102
    ensures var first := Numbered(100) + [hidden];
            var second := first[1..];
            && FullSoFar([first, second]) && |second| < PAGE_SIZE * 2
            && DistinctIds(Walked([first, second])) && hidden in first && hidden in second
            && hidden !in Walked([first, second])
  {
    var first := Numbered(100) + [hidden];
    var second := first[1..];
    assert second[99] == hidden;
    assert [first, second][..1] == [first];
    assert Walked([first]) == Page(first, 0) == Numbered(100);
    assert Walked([first, second]) == Numbered(100) + Page(second, 1);
    assert Page(second, 1) == [];
  }
}
