/**
 The page walks of the two release scripts, over a repository that others may extend while it is read.
 What each of them accepts is a fact about one list: the one that stands when the walk ends.
 */
module ReleaseWalks {
  import opened Wrappers
  import opened ReleasePages
  import opened ReleaseRemote

  predicate OnlyDraft(list: seq<Release>, value: Release) {
    forall i :: 0 <= i < |list| && list[i].tag == value.tag ==> list[i] == value
  }

  // A repository whose list a walk can read to its end.
  ghost predicate WellKept(list: seq<Release>) {
    DistinctIds(list) && ValidIds(list) && |list| < 1000
  }

  lemma PrefixIsWellKept(list: seq<Release>, got: seq<Release>, data: seq<Release>)
    requires WellKept(list) && got + data <= list
    ensures DistinctIds(got + data) && ValidIds(data)
  {
    forall i | 0 <= i < |data|
      ensures data[i].id > 0
    {
      assert list[|got| + i] == (got + data)[|got| + i] == data[i];
    }
  }

  lemma MatchingPrefix(list: seq<Release>, read: seq<Release>, tag: string)
    requires read <= list && Matching(list, tag) == []
    ensures Matching(read, tag) == []
  {
    MatchingAppend(read, list[|read|..], tag);
    assert list == read + list[|read|..];
  }

  lemma PrefixHasOnlyDraft(list: seq<Release>, got: seq<Release>, data: seq<Release>, value: Release)
    requires OnlyDraft(list, value) && got + data <= list
    ensures OnlyDraft(data, value)
  {
    forall i | 0 <= i < |data| && data[i].tag == value.tag
      ensures data[i] == value
    {
      assert list[|got| + i] == (got + data)[|got| + i] == data[i];
    }
  }

  lemma MatchSpoils(got: seq<Release>, data: seq<Release>, k: nat, tag: string)
    requires k < |data| && data[k].tag == tag
    ensures Matching(got + data, tag) != []
  {
    MatchingMembers(got + data, tag);
    assert data[k] in got + data;
    assert data[k] in Matching(got + data, tag);
  }

  lemma NewDraftIsSole(list: seq<Release>, value: Release)
    requires WellKept(list) && |list| + 1 < 1000 && Matching(list, value.tag) == []
    requires value.id > 0 && value.id !in Ids(list)
    ensures WellKept([value] + list) && OnlyDraft([value] + list, value) && Matching([value] + list, value.tag) == [value]
  {
    MatchingAppend([value], list, value.tag);
    assert Matching([value], value.tag) == [value];
    MatchingMembers(list, value.tag);
    var longer := [value] + list;
    forall i | 0 < i < |longer|
      ensures longer[i].id != value.id && longer[i].tag != value.tag
    {
      assert longer[i] == list[i - 1] && list[i - 1] in list;
    }
  }

  // What a walk knows of the releases it has read.
  ghost predicate Gathered(read: seq<Release>, tag: string, ids: set<int>, matches: seq<Release>) {
    DistinctIds(read) && ids == Ids(read) && matches == Matching(read, tag)
  }

  lemma GathersNext(got: seq<Release>, data: seq<Release>, k: nat, tag: string, ids: set<int>, matches: seq<Release>)
    requires k < |data| && Gathered(got + data[..k], tag, ids, matches) && data[k].id !in ids
    ensures Gathered(got + data[..k + 1], tag, ids + {data[k].id},
                     if data[k].tag == tag then matches + [data[k]] else matches)
  {
    NextItem(got, data, k, tag);
  }

  /** One page of the first walk: refused for a bad or repeated identity, or for the tag itself. */
  method ScanForTag(tag: string, ghost got: seq<Release>, data: seq<Release>, seen: set<int>) returns (ok: bool, now: set<int>)
    requires Gathered(got, tag, seen, [])
    ensures ok <==> DistinctIds(got + data) && ValidIds(data) && Matching(got + data, tag) == []
    ensures ok ==> Gathered(got + data, tag, now, [])
  {
    now := seen;
    assert got + data[..0] == got && got + data[..|data|] == got + data;
    for k := 0 to |data|
      invariant Gathered(got + data[..k], tag, now, [])
      invariant forall i :: 0 <= i < k ==> data[i].id > 0
    {
      var item := data[k];
      if item.id <= 0 {
        return false, now;
      }
      if item.id in now {
        RepeatSpoils(got, data, k);
        return false, now;
      }
      if item.tag == tag {
        MatchSpoils(got, data, k, tag);
        return false, now;
      }
      GathersNext(got, data, k, tag, now, []);
      now := now + {item.id};
    }
    ok := true;
  }

  datatype Scan = Conflict | Shifted | Clean

  ghost predicate Scanned(read: seq<Release>, tag: string, seen: map<int, Release>, matches: seq<Release>) {
    DistinctIds(read) && seen.Keys == Ids(read) && matches == Matching(read, tag)
  }

  lemma ScansNext(got: seq<Release>, data: seq<Release>, k: nat, tag: string, seen: map<int, Release>, matches: seq<Release>)
    requires k < |data| && Scanned(got + data[..k], tag, seen, matches) && data[k].id !in seen
    ensures Scanned(got + data[..k + 1], tag, seen[data[k].id := data[k]],
                    if data[k].tag == tag then matches + [data[k]] else matches)
  {
    NextItem(got, data, k, tag);
  }

  /** One page of the second walk: a repeated identity means that the list moved. */
  method ScanForDraft(value: Release, ghost got: seq<Release>, data: seq<Release>, seen: map<int, Release>, same: seq<Release>)
      returns (out: Scan, now: map<int, Release>, matches: seq<Release>)
    requires Scanned(got, value.tag, seen, same)
    ensures out == Clean <==> DistinctIds(got + data) && ValidIds(data) && OnlyDraft(data, value)
    ensures out == Clean ==> Scanned(got + data, value.tag, now, matches)
  {
    now, matches := seen, same;
    assert got + data[..0] == got && got + data[..|data|] == got + data;
    for k := 0 to |data|
      invariant Scanned(got + data[..k], value.tag, now, matches)
      invariant forall i :: 0 <= i < k ==> data[i].id > 0
      invariant forall i :: 0 <= i < k && data[i].tag == value.tag ==> data[i] == value
    {
      var item := data[k];
      if item.id <= 0 {
        return Conflict, now, matches;
      }
      if item.tag == value.tag && item != value {
        return Conflict, now, matches;
      }
      if item.id in now {
        RepeatSpoils(got, data, k);
        out := if now[item.id] != item then Conflict else Shifted;
        return;
      }
      ScansNext(got, data, k, value.tag, now, matches);
      now := now[item.id := item];
      if item.tag == value.tag {
        matches := matches + [item];
      }
    }
    out := Clean;
  }

  /** The first walk of a reservation: a complete list, as it stands, that does not hold the tag. */
  method FindNoTag(remote: Remote, tag: string) returns (ok: bool)
    modifies remote`releases
    ensures Grown(old(remote.releases), remote.releases) && (remote.quiet ==> remote.releases == old(remote.releases))
    ensures ok ==> Matching(remote.releases, tag) == [] && |remote.releases| < 1000
    ensures (remote.quiet && WellKept(remote.releases) && Matching(remote.releases, tag) == []) ==> ok
  {
    var seen: set<int>, page := {}, 0;
    ghost var lists: seq<seq<Release>>, got: seq<Release>, first := [], [], remote.releases;
    while page < MAX_PAGES
      invariant page == |lists| <= MAX_PAGES && Underway(remote.quiet, lists, got, first, remote.releases)
      invariant Gathered(got, tag, seen, [])
    {
      var data := remote.Turn(page, lists, got, first);
      UnderwayLength(remote.quiet, lists, got, first, remote.releases);
      if data.None? {
        return false;
      }
      if remote.quiet && WellKept(first) && Matching(first, tag) == [] {
        PrefixIsWellKept(first, got, data.value);
        MatchingPrefix(first, got + data.value, tag);
      }
      ok, seen := ScanForTag(tag, got, data.value, seen);
      if !ok || |data.value| < PAGE_SIZE {
        return;
      }
      lists, got, page := lists + [remote.releases], got + data.value, page + 1;
    }
    ok := false;
  }

  lemma QuietPageIsClean(list: seq<Release>, got: seq<Release>, data: seq<Release>, value: Release)
    requires got + data <= list
    ensures (WellKept(list) && OnlyDraft(list, value)) ==> DistinctIds(got + data) && ValidIds(data) && OnlyDraft(data, value)
  {
    if WellKept(list) && OnlyDraft(list, value) {
      PrefixIsWellKept(list, got, data);
      PrefixHasOnlyDraft(list, got, data, value);
    }
  }

  /** One attempt of the second walk; a complete one knows every release of the tag, as the list stands. */
  method WalkForDraft(remote: Remote, value: Release) returns (out: Scan, matches: seq<Release>)
    modifies remote`releases
    ensures remote.quiet ==> remote.releases == old(remote.releases)
    ensures out == Clean ==> matches == Matching(remote.releases, value.tag) && |remote.releases| < 1000
    ensures (remote.quiet && WellKept(remote.releases) && OnlyDraft(remote.releases, value)) ==> out == Clean
  {
    var seen: map<int, Release>, page := map[], 0;
    matches := [];
    ghost var lists: seq<seq<Release>>, got: seq<Release>, first := [], [], remote.releases;
    while page < MAX_PAGES
      invariant page == |lists| <= MAX_PAGES && Underway(remote.quiet, lists, got, first, remote.releases)
      invariant Scanned(got, value.tag, seen, matches)
    {
      var data := remote.Turn(page, lists, got, first);
      UnderwayLength(remote.quiet, lists, got, first, remote.releases);
      if data.None? {
        return Conflict, matches;
      }
      if remote.quiet {
        QuietPageIsClean(first, got, data.value, value);
      }
      out, seen, matches := ScanForDraft(value, got, data.value, seen, matches);
      if out != Clean || |data.value| < PAGE_SIZE {
        return;
      }
      lists, got, page := lists + [remote.releases], got + data.value, page + 1;
    }
    out := Conflict;
  }

  /** The second walk, begun again at most twice when the list moved: exactly the given draft has its tag. */
  method FindSoleDraft(remote: Remote, value: Release) returns (ok: bool)
    modifies remote`releases
    ensures remote.quiet ==> remote.releases == old(remote.releases)
    ensures ok ==> Matching(remote.releases, value.tag) == [value] && |remote.releases| < 1000
    ensures (remote.quiet && WellKept(remote.releases) && OnlyDraft(remote.releases, value)
             && Matching(remote.releases, value.tag) == [value]) ==> ok
  {
    var out, matches := WalkForDraft(remote, value);
    var attempt := 1;
    while attempt < 3 && out == Shifted
      invariant out == Clean ==> matches == Matching(remote.releases, value.tag) && |remote.releases| < 1000
      invariant remote.quiet ==> remote.releases == old(remote.releases)
      invariant (remote.quiet && WellKept(remote.releases) && OnlyDraft(remote.releases, value)) ==> out == Clean
    {
      out, matches := WalkForDraft(remote, value);
      attempt := attempt + 1;
    }
    ok := out == Clean && matches == [value];
  }

  /** One page of the discovery walk, which goes on behind a match so that a second one is seen. */
  method ScanForMatches(tag: string, ghost got: seq<Release>, data: seq<Release>, ids: set<int>, matches: seq<Release>)
      returns (ok: bool, now: set<int>, found: seq<Release>)
    requires Gathered(got, tag, ids, matches)
    ensures ok <==> DistinctIds(got + data) && ValidIds(data)
    ensures ok ==> Gathered(got + data, tag, now, found)
  {
    now, found := ids, matches;
    assert got + data[..0] == got && got + data[..|data|] == got + data;
    for k := 0 to |data|
      invariant Gathered(got + data[..k], tag, now, found)
      invariant forall i :: 0 <= i < k ==> data[i].id > 0
    {
      if data[k].id <= 0 {
        return false, now, found;
      }
      if data[k].id in now {
        RepeatSpoils(got, data, k);
        return false, now, found;
      }
      GathersNext(got, data, k, tag, now, found);
      now := now + {data[k].id};
      if data[k].tag == tag {
        found := found + [data[k]];
      }
    }
    ok := true;
  }

  /** The discovery walk to its end: every release of the tag in a complete list, as it stands. */
  method FindMatches(remote: Remote, tag: string) returns (ok: bool, matches: seq<Release>)
    modifies remote`releases
    ensures remote.quiet ==> remote.releases == old(remote.releases)
    ensures ok ==> matches == Matching(remote.releases, tag) && |remote.releases| < 1000
    ensures (remote.quiet && WellKept(remote.releases)) ==> ok
  {
    var ids: set<int>, page := {}, 0;
    matches := [];
    ghost var lists: seq<seq<Release>>, got: seq<Release>, first := [], [], remote.releases;
    while page < MAX_PAGES
      invariant page == |lists| <= MAX_PAGES && Underway(remote.quiet, lists, got, first, remote.releases)
      invariant Gathered(got, tag, ids, matches)
    {
      var data := remote.Turn(page, lists, got, first);
      UnderwayLength(remote.quiet, lists, got, first, remote.releases);
      if data.None? {
        return false, matches;
      }
      if remote.quiet && WellKept(first) {
        PrefixIsWellKept(first, got, data.value);
      }
      ok, ids, matches := ScanForMatches(tag, got, data.value, ids, matches);
      if !ok || |data.value| < PAGE_SIZE {
        return;
      }
      lists, got, page := lists + [remote.releases], got + data.value, page + 1;
    }
    ok := false;
  }

  /** The sole release of the tag in a complete list, as it stands, or its absence there. */
  method FindOnly(remote: Remote, tag: string) returns (ok: bool, hit: Option<Release>)
    modifies remote`releases
    ensures ok ==> Matching(remote.releases, tag) == (if hit.Some? then [hit.value] else []) && |remote.releases| < 1000
    ensures remote.quiet ==> remote.releases == old(remote.releases)
    ensures (remote.quiet && WellKept(remote.releases)) ==> (ok <==> |Matching(remote.releases, tag)| <= 1)
  {
    var matches: seq<Release>;
    ok, matches := FindMatches(remote, tag);
    if |matches| > 1 {
      ok := false;
    }
    hit := if matches == [] then None else Some(matches[0]);
  }
}
