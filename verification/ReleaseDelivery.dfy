/**
 What an undisturbed publication needs and keeps: a repository whose one release of the tag carries nothing
 but verified bytes, from its creation as a draft to its publication with the whole bundle.
 */
module ReleaseDelivery {
  import opened Wrappers
  import opened ReleasePages
  import opened ReleaseRemote
  import opened ReleaseWalks
  import opened ReleasePublication

  // Different assets of the bundle, each with the bundle's bytes.
  ghost predicate Partial(b: Bundle, have: Contents) {
    && (forall i, j :: 0 <= i < j < |have| ==> have[i].0 != have[j].0)
    && (forall i :: 0 <= i < |have| ==> have[i].0 in b.names && have[i].0 in b.bytes && b.bytes[have[i].0] == have[i].1)
  }

  function Sent(have: Contents): set<string> {
    set i | 0 <= i < |have| :: have[i].0
  }

  // The tag's only release, what it carries, and a list that a walk can read to its end.
  ghost predicate Kept(b: Bundle, list: seq<Release>, assets: map<int, Contents>, r: Release) {
    WellKept(list) && Matching(list, r.tag) == [r] && Partial(b, ContentsOf(assets, r.id))
  }

  lemma {:induction false} ByIdFinds(list: seq<Release>, k: nat)
    requires DistinctIds(list) && k < |list|
    ensures ById(list, list[k].id) == Some(list[k])
  {
    if k < |list| - 1 {
      assert list[..|list| - 1][k] == list[k];
      ByIdFinds(list[..|list| - 1], k);
    }
  }

  lemma {:induction false} PublicIs(list: seq<Release>, tag: string)
    ensures PublicByTag(list, tag).Some? ==> PublicByTag(list, tag).value in Matching(list, tag) && !PublicByTag(list, tag).value.draft
    ensures PublicByTag(list, tag).None? ==> forall r :: r in Matching(list, tag) ==> r.draft
  {
    if list != [] {
      PublicIs(list[..|list| - 1], tag);
    }
  }

  lemma {:induction false} BytesAreFound(have: Contents, i: nat)
    requires i < |have| && forall i, j :: 0 <= i < j < |have| ==> have[i].0 != have[j].0
    ensures BytesOf(have, have[i].0) == Some(have[i].1)
  {
    if i < |have| - 1 {
      assert have[..|have| - 1][i] == have[i];
      BytesAreFound(have[..|have| - 1], i);
    }
  }

  lemma ListingNames(have: Contents)
    ensures Names(Listing(have)) == Sent(have)
  {
    var l := Listing(have);
    forall n | n in Sent(have)
      ensures n in Names(l)
    {
      var i :| 0 <= i < |have| && have[i].0 == n;
      assert l[i] in l;
    }
  }

  /** Lookups show the kept release, and what they show is accepted. */
  lemma KeptIsShown(b: Bundle, list: seq<Release>, assets: map<int, Contents>, r: Release, expected: Option<int>)
    requires ValidBundle(b) && Kept(b, list, assets, r) && (expected.Some? ==> expected.value == r.id)
    ensures ById(list, r.id) == Some(r) && PublicByTag(list, r.tag) == if r.draft then None else Some(r)
    ensures ValidView(b, r.tag, ViewOf(r, assets), expected)
    ensures Names(ViewOf(r, assets).assets) == Sent(ContentsOf(assets, r.id))
  {
    MatchingMembers(list, r.tag);
    assert r in Matching(list, r.tag);
    var k :| 0 <= k < |list| && list[k] == r;
    ByIdFinds(list, k);
    PublicIs(list, r.tag);
    var have := ContentsOf(assets, r.id);
    var l := Listing(have);
    ListingNames(have);
    NamesSize(l);
    SetSize(b.names);
    SubsetSize(Names(l), set n | n in b.names);
  }

  lemma SubsetSize(a: set<string>, b: set<string>)
    requires a <= b
    ensures |a| <= |b|
  {
    assert b == a + (b - a);
  }

  /** An asset that was missing is carried behind its upload, and nothing else changes. */
  lemma UploadKeeps(b: Bundle, list: seq<Release>, assets: map<int, Contents>, r: Release, name: string)
    requires Kept(b, list, assets, r) && name in b.names && name in b.bytes && name !in Sent(ContentsOf(assets, r.id))
    ensures var later := assets[r.id := ContentsOf(assets, r.id) + [(name, b.bytes[name])]];
            Kept(b, list, later, r) && Sent(ContentsOf(later, r.id)) == Sent(ContentsOf(assets, r.id)) + {name}
  {
    var have := ContentsOf(assets, r.id);
    var more := have + [(name, b.bytes[name])];
    forall i | 0 <= i < |have|
      ensures more[i].0 != name
    {
      assert have[i].0 in Sent(have);
    }
    assert forall i :: 0 <= i < |more| ==> more[i] == if i < |have| then have[i] else (name, b.bytes[name]);
    assert more[|have|].0 == name;
    assert Sent(more) == Sent(have) + {name};
  }

  /** The created draft is the tag's only release, and carries nothing. */
  lemma CreateKeeps(b: Bundle, list: seq<Release>, assets: map<int, Contents>, r: Release)
    requires WellKept(list) && |list| + 1 < 1000 && Matching(list, r.tag) == []
    requires r.id > 0 && r.id !in Ids(list)
    ensures Kept(b, [r] + list, assets[r.id := []], r)
  {
    NewDraftIsSole(list, r);
  }

  lemma {:induction false} OpenedAt(list: seq<Release>, id: int)
    ensures |Opened(list, id)| == |list|
    ensures forall i :: 0 <= i < |list| ==>
              Opened(list, id)[i] == if list[i].id == id then list[i].(draft := false) else list[i]
  {
    if list != [] {
      OpenedAt(list[..|list| - 1], id);
    }
  }

  lemma {:induction false} OpenedMatching(list: seq<Release>, tag: string, id: int)
    ensures Matching(Opened(list, id), tag) == Opened(Matching(list, tag), id)
  {
    if list != [] {
      var rest, last := list[..|list| - 1], list[|list| - 1];
      OpenedMatching(rest, tag, id);
      MatchingNext(Opened(rest, id), if last.id == id then last.(draft := false) else last, tag);
      if last.tag == tag {
        OpenedNext(Matching(rest, tag), last, id);
      }
    }
  }

  lemma OpenedNext(list: seq<Release>, last: Release, id: int)
    ensures Opened(list + [last], id) == Opened(list, id) + [if last.id == id then last.(draft := false) else last]
  {
    assert (list + [last])[..|list|] == list;
  }

  /** The published release is still the tag's only one, and carries what it carried. */
  lemma PublishKeeps(b: Bundle, list: seq<Release>, assets: map<int, Contents>, r: Release)
    requires Kept(b, list, assets, r)
    ensures Kept(b, Opened(list, r.id), assets, r.(draft := false))
  {
    OpenedAt(list, r.id);
    OpenedMatching(list, r.tag, r.id);
    assert Opened([r], r.id) == [r.(draft := false)];
  }

  /** As many verified assets as the bundle has names are the bundle. */
  lemma WholeIsEverything(b: Bundle, have: Contents)
    requires ValidBundle(b) && Partial(b, have)
    ensures |have| == |b.names| <==> Sent(have) == set n | n in b.names
  {
    ListingNames(have);
    NamesSize(Listing(have));
    SetSize(b.names);
    var all := set n | n in b.names;
    assert Sent(have) <= all;
    if |have| == |b.names| {
      SubsetOfEqualSize(Sent(have), all);
    }
  }

  /** A release that carries as many verified assets as the bundle has answers each name with the bundle's bytes. */
  lemma WholeCarriesTheBundle(b: Bundle, have: Contents, name: string)
    requires ValidBundle(b) && Partial(b, have) && |have| == |b.names|
    ensures BytesOf(have, name) == if name in b.names then Some(b.bytes[name]) else None
  {
    WholeIsEverything(b, have);
    assert name in Sent(have) <==> name in b.names;
    if name in b.names {
      var i :| 0 <= i < |have| && have[i].0 == name;
      BytesAreFound(have, i);
    } else {
      NothingIsFound(have, name);
    }
  }

  lemma {:induction false} NothingIsFound(have: Contents, name: string)
    requires forall i :: 0 <= i < |have| ==> have[i].0 != name
    ensures BytesOf(have, name).None?
  {
    if have != [] {
      NothingIsFound(have[..|have| - 1], name);
    }
  }
}
