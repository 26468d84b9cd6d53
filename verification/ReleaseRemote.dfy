/**
 The release repository as the scripts see it: others may insert releases at the head at any time, any
 request may fail, and a request that changes something may have done so although it failed.
 */
module ReleaseRemote {
  import opened Wrappers
  import opened ReleasePages

  type Bytes = string

  datatype Asset = Asset(name: string, uploaded: bool, size: nat)

  // What a lookup of one release answers.
  datatype View = View(id: int, tag: string, draft: bool, assets: seq<Asset>)

  datatype Lookup = Answer(view: View) | NotFound | Unknown

  // The assets that a release carries, in the order in which they were sent.
  type Contents = seq<(string, Bytes)>

  function ContentsOf(assets: map<int, Contents>, id: int): Contents {
    if id in assets then assets[id] else []
  }

  function Listing(have: Contents): seq<Asset> {
    seq(|have|, i requires 0 <= i < |have| => Asset(have[i].0, true, |have[i].1|))
  }

  function BytesOf(have: Contents, name: string): Option<Bytes> {
    if have == [] then None
    else if have[|have| - 1].0 == name then Some(have[|have| - 1].1)
    else BytesOf(have[..|have| - 1], name)
  }

  function ById(list: seq<Release>, id: int): Option<Release> {
    if list == [] then None
    else if list[|list| - 1].id == id then Some(list[|list| - 1])
    else ById(list[..|list| - 1], id)
  }

  // How a request names its release. By tag, the first of the tag is meant, draft or not.
  datatype Address = ThisId(id: int) | ThisTag(tag: string)

  function Resolve(list: seq<Release>, a: Address): Option<int> {
    match a
    case ThisId(id) => if ById(list, id).Some? then Some(id) else None
    case ThisTag(tag) => if Matching(list, tag) == [] then None else Some(Matching(list, tag)[0].id)
  }

  // A lookup by tag does not find drafts.
  function PublicByTag(list: seq<Release>, tag: string): Option<Release> {
    if list == [] then None
    else if list[|list| - 1].tag == tag && !list[|list| - 1].draft then Some(list[|list| - 1])
    else PublicByTag(list[..|list| - 1], tag)
  }

  function ViewOf(r: Release, assets: map<int, Contents>): View {
    View(r.id, r.tag, r.draft, Listing(ContentsOf(assets, r.id)))
  }

  function Shown(r: Option<Release>, assets: map<int, Contents>): Lookup {
    if r.Some? then Answer(ViewOf(r.value, assets)) else NotFound
  }

  // The list once a release is no draft any more.
  function Opened(list: seq<Release>, id: int): seq<Release> {
    if list == [] then []
    else
      var last := list[|list| - 1];
      Opened(list[..|list| - 1], id) + [if last.id == id then last.(draft := false) else last]
  }

  function Matching(list: seq<Release>, tag: string): seq<Release> {
    if list == [] then []
    else
      var rest := Matching(list[..|list| - 1], tag);
      if list[|list| - 1].tag == tag then rest + [list[|list| - 1]] else rest
  }

  function Ids(list: seq<Release>): set<int> {
    set r | r in list :: r.id
  }

  lemma MatchingNext(list: seq<Release>, r: Release, tag: string)
    ensures Matching(list + [r], tag) == if r.tag == tag then Matching(list, tag) + [r] else Matching(list, tag)
  {
    assert (list + [r])[..|list|] == list;
  }

  lemma MatchingOneMore(a: seq<Release>, rest: seq<Release>, last: Release, tag: string)
    requires Matching(a + rest, tag) == Matching(a, tag) + Matching(rest, tag)
    ensures Matching((a + rest) + [last], tag) == Matching(a, tag) + Matching(rest + [last], tag)
  {
    MatchingNext(a + rest, last, tag);
    MatchingNext(rest, last, tag);
  }

  lemma {:induction false} MatchingAppend(a: seq<Release>, b: seq<Release>, tag: string)
    ensures Matching(a + b, tag) == Matching(a, tag) + Matching(b, tag)
  {
    if b == [] {
      assert a + b == a;
    } else {
      var rest, last := b[..|b| - 1], b[|b| - 1];
      MatchingAppend(a, rest, tag);
      assert a + b == (a + rest) + [last] && b == rest + [last];
      MatchingOneMore(a, rest, last, tag);
    }
  }

  lemma {:induction false} MatchingMembers(list: seq<Release>, tag: string)
    ensures forall r :: r in Matching(list, tag) <==> r in list && r.tag == tag
  {
    if list != [] {
      MatchingMembers(list[..|list| - 1], tag);
      assert list == list[..|list| - 1] + [list[|list| - 1]];
    }
  }

  lemma DistinctNext(list: seq<Release>, r: Release)
    requires DistinctIds(list)
    ensures DistinctIds(list + [r]) <==> r.id !in Ids(list)
    ensures Ids(list + [r]) == Ids(list) + {r.id}
  {
    var longer := list + [r];
    assert longer[|list|] == r && forall i :: 0 <= i < |list| ==> longer[i] == list[i];
    if r.id in Ids(list) {
      var i :| 0 <= i < |list| && list[i].id == r.id;
      assert longer[i].id == longer[|list|].id;
    } else {
      forall i | 0 <= i < |list|
        ensures longer[i].id != r.id
      {
        assert list[i] in list;
      }
    }
  }

  predicate ValidIds(list: seq<Release>) {
    forall i :: 0 <= i < |list| ==> list[i].id > 0
  }

  // One more release of a walk.
  lemma NextItem(got: seq<Release>, data: seq<Release>, k: nat, tag: string)
    requires k < |data| && DistinctIds(got + data[..k])
    ensures var read, longer := got + data[..k], got + data[..k + 1];
            && (DistinctIds(longer) <==> data[k].id !in Ids(read)) && Ids(longer) == Ids(read) + {data[k].id}
            && Matching(longer, tag) == if data[k].tag == tag then Matching(read, tag) + [data[k]] else Matching(read, tag)
  {
    var read, longer := got + data[..k], got + data[..k + 1];
    assert longer == read + [data[k]];
    DistinctNext(read, data[k]);
    MatchingNext(read, data[k], tag);
  }

  // A release whose identity was read before spoils the whole page.
  lemma RepeatSpoils(got: seq<Release>, data: seq<Release>, k: nat)
    requires k < |data| && DistinctIds(got + data[..k]) && data[k].id in Ids(got + data[..k])
    ensures !DistinctIds(got + data)
  {
    NextItem(got, data, k, "");
    assert got + data[..k + 1] == (got + data)[..|got| + k + 1];
  }

  // Nothing was inserted since the walk began, and it has read whole pages of the list.
  ghost predicate Unchanged(pages: nat, got: seq<Release>, first: seq<Release>, now: seq<Release>) {
    now == first && PAGE_SIZE * pages <= |first| && got == first[..PAGE_SIZE * pages]
  }

  lemma UnchangedTurns(pages: nat, got: seq<Release>, list: seq<Release>)
    requires Unchanged(pages, got, list, list)
    ensures got + Page(list, pages) <= list
    ensures |Page(list, pages)| == PAGE_SIZE ==> Unchanged(pages + 1, got + Page(list, pages), list, list)
  {
    var k := Least(PAGE_SIZE * pages + PAGE_SIZE, |list|);
    assert got + Page(list, pages) == list[..k];
  }

  // A walk, begun when the repository's list was `first`, has read the pages before page |lists|.
  ghost predicate Underway(quiet: bool, lists: seq<seq<Release>>, got: seq<Release>, first: seq<Release>, now: seq<Release>) {
    Walking(lists, got, now) && Grown(first, now) && (quiet ==> Unchanged(|lists|, got, first, now))
  }

  lemma UnderwayLength(quiet: bool, lists: seq<seq<Release>>, got: seq<Release>, first: seq<Release>, now: seq<Release>)
    requires Underway(quiet, lists, got, first, now)
    ensures |got| == 100 * |lists|
  {
    WalkedLength(lists);
  }

  lemma StaysUnderway(quiet: bool, lists: seq<seq<Release>>, got: seq<Release>, first: seq<Release>,
                      before: seq<Release>, now: seq<Release>)
    requires Underway(quiet, lists, got, first, before) && Grown(before, now) && (quiet ==> now == before)
    ensures Underway(quiet, lists, got, first, now)
  {
    GrownThrough(lists, got, first, before, now);
  }

  lemma UnderwayTurns(quiet: bool, lists: seq<seq<Release>>, got: seq<Release>, first: seq<Release>, now: seq<Release>)
    requires Underway(quiet, lists, got, first, now)
    ensures var data := Page(now, |lists|);
            && |data| <= PAGE_SIZE
            && (DistinctIds(got + data) ==>
                  if |data| < PAGE_SIZE then got + data == now else Underway(quiet, lists + [now], got + data, first, now))
            && (quiet ==> got + data <= first)
  {
    var data := Page(now, |lists|);
    if DistinctIds(got + data) {
      PageTurns(lists, got, now);
    }
    if quiet {
      UnchangedTurns(|lists|, got, first);
    }
  }

  class Remote {
    const quiet: bool  // nobody else inserts, and no request fails
    var releases: seq<Release>
    var assets: map<int, Contents>

    constructor (quiet: bool, releases: seq<Release>, assets: map<int, Contents>)
      ensures this.quiet == quiet && this.releases == releases && this.assets == assets
    {
      this.quiet, this.releases, this.assets := quiet, releases, assets;
    }

    method Others()
      modifies this`releases
      ensures Grown(old(releases), releases) && (quiet ==> releases == old(releases))
    {
      var more: seq<Release> := *;
      if !quiet {
        releases := more + releases;
      }
    }

    method Chance() returns (b: bool)
      ensures quiet ==> b
    {
      b := *;
      b := b || quiet;
    }

    /** One page of the list as it is when the page is served. */
    method List(page: nat) returns (data: Option<seq<Release>>)
      modifies this`releases
      ensures Grown(old(releases), releases) && (quiet ==> releases == old(releases) && data.Some?)
      ensures data.Some? ==> data.value == Page(releases, page)
    {
      Others();
      var readable := Chance();
      data := if readable then Some(Page(releases, page)) else None;
    }

    /** Reads the next page of a walk. If it repeats nothing, it continues the walk or completes the list. */
    method Turn(page: nat, ghost lists: seq<seq<Release>>, ghost got: seq<Release>, ghost first: seq<Release>)
        returns (data: Option<seq<Release>>)
      requires page == |lists| && Underway(quiet, lists, got, first, releases)
      modifies this`releases
      ensures Underway(quiet, lists, got, first, releases)
      ensures data.Some? && DistinctIds(got + data.value) ==>
                if |data.value| < PAGE_SIZE then got + data.value == releases
                else Underway(quiet, lists + [releases], got + data.value, first, releases)
      ensures quiet ==> data.Some? && got + data.value <= first
    {
      ghost var before := releases;
      data := List(page);
      StaysUnderway(quiet, lists, got, first, before, releases);
      UnderwayTurns(quiet, lists, got, first, releases);
    }

    /** The create request. Without an answer it may or may not have been carried out. */
    method Create(tag: string, newId: int) returns (answer: Option<Release>)
      modifies this
      ensures Grown(old(releases), releases)
      ensures quiet ==> answer == Some(Release(newId, tag, true)) && releases == [answer.value] + old(releases)
      ensures quiet ==> assets == old(assets)[newId := []]
    {
      Others();
      var done, answered: bool := *, *;
      var claimed: Release := *;
      if done || quiet {
        releases, assets := [Release(newId, tag, true)] + releases, assets[newId := []];
      }
      answer := if quiet then Some(Release(newId, tag, true)) else if answered then Some(claimed) else None;
    }

    /** What a lookup answers: the truth of a quiet repository, anything of another one. */
    method LookUp(truth: Lookup) returns (out: Lookup)
      ensures quiet ==> out == truth
    {
      out := *;
      if quiet { out := truth; }
    }

    method Download(a: Address, name: string) returns (bytes: Option<Bytes>)
      ensures quiet ==> bytes == var id := Resolve(releases, a);
                                 if id.Some? then BytesOf(ContentsOf(assets, id.value), name) else None
    {
      bytes := *;
      if quiet {
        var id := Resolve(releases, a);
        bytes := if id.Some? then BytesOf(ContentsOf(assets, id.value), name) else None;
      }
    }

    /**
     The upload of one asset. Without an answer it may or may not have been carried out. It reaches the release
     that the address means at that moment, when the list was `list`.
     */
    method Upload(a: Address, name: string, bytes: Bytes)
        returns (answered: bool, ghost reached: Option<int>, ghost list: seq<Release>)
      modifies this
      ensures Grown(old(releases), list) && releases == list && (reached.Some? ==> reached == Resolve(list, a))
      ensures assets == if reached.None? then old(assets)
                        else old(assets)[reached.value := ContentsOf(old(assets), reached.value) + [(name, bytes)]]
      ensures quiet && Resolve(old(releases), a).Some? ==>
                var id := Resolve(old(releases), a).value;
                && answered && releases == old(releases)
                && assets == old(assets)[id := ContentsOf(old(assets), id) + [(name, bytes)]]
    {
      Others();
      var done := Chance();
      answered := Chance();
      var id := Resolve(releases, a);
      reached, list := if done then id else None, releases;
      if done && id.Some? {
        assets := assets[id.value := ContentsOf(assets, id.value) + [(name, bytes)]];
      }
    }

    /** The publish request, of the same kind. */
    method MakePublic(a: Address) returns (answered: bool, ghost reached: Option<int>, ghost list: seq<Release>)
      modifies this`releases
      ensures Grown(old(releases), list) && (reached.Some? ==> reached == Resolve(list, a))
      ensures releases == if reached.None? then list else Opened(list, reached.value)
      ensures quiet && Resolve(old(releases), a).Some? ==>
                answered && releases == Opened(old(releases), Resolve(old(releases), a).value)
    {
      Others();
      var done := Chance();
      answered := Chance();
      var id := Resolve(releases, a);
      reached, list := if done then id else None, releases;
      if done && id.Some? {
        releases := Opened(releases, id.value);
      }
    }
  }

  /** Requests by tag follow the tag: a newer release of it takes them. */
  lemma TagCanMove(tag: string, older: int, newer: int)
    ensures var list := [Release(older, tag, true)]; var grown := [Release(newer, tag, true)] + list;
            && Grown(list, grown) && Resolve(list, ThisTag(tag)) == Some(older) && Resolve(grown, ThisTag(tag)) == Some(newer)
  {
    var list := [Release(older, tag, true)];
    var grown := [Release(newer, tag, true)] + list;
    assert list[..0] == [] && grown[..1] == [Release(newer, tag, true)] && grown[..1][..0] == [];
    assert Matching(list, tag) == list && Matching(grown, tag) == grown;
  }

  lemma GrownThrough(lists: seq<seq<Release>>, got: seq<Release>, first: seq<Release>, before: seq<Release>, now: seq<Release>)
    requires Walking(lists, got, before) && Grown(first, before) && Grown(before, now)
    ensures Walking(lists, got, now) && Grown(first, now)
  {
    GrownTransitive(first, before, now);
    if lists != [] {
      GrownTransitive(lists[|lists| - 1], before, now);
    }
  }
}
