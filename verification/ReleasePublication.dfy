/**
 What a publication may do and when: one create behind a proven absence, one upload of an asset behind a
 view of the draft, one publish request behind a read-back of the exact asset set.
 */
module ReleasePublication {
  import opened Wrappers
  import opened ReleasePages
  import opened ReleaseRemote

  // The verified local assets: their names in order, and their bytes.
  datatype Bundle = Bundle(names: seq<string>, bytes: map<string, Bytes>)

  ghost predicate ValidBundle(b: Bundle) {
    && (forall i, j :: 0 <= i < j < |b.names| ==> b.names[i] != b.names[j])
    && (forall n :: n in b.names ==> n in b.bytes)
  }

  // A lookup's answer that the publisher accepts.
  ghost predicate ValidView(b: Bundle, tag: string, v: View, expected: Option<int>) {
    && v.tag == tag && v.id > 0 && (expected.Some? ==> v.id == expected.value) && |v.assets| <= |b.names|
    && (forall i, j :: 0 <= i < j < |v.assets| ==> v.assets[i].name != v.assets[j].name)
    && (forall i :: 0 <= i < |v.assets| ==> ValidAsset(b, v.assets[i]))
  }

  predicate ValidAsset(b: Bundle, a: Asset) {
    a.name in b.names && a.uploaded && a.name in b.bytes && a.size == |b.bytes[a.name]|
  }

  datatype Event =
    | TagMissing
    | Surveyed(releases: seq<Release>)
    | Created
    | Selected(id: int)
    | Viewed(view: View)
    | Compared(name: string, remote: Bytes)
    | Uploaded(name: string)
    | Published
    | Declared

  // `view` and `compared` are what was read since the last change to the repository.
  datatype Past = Past(
    tagMissing: bool, survey: Option<seq<Release>>, creates: nat, selected: Option<int>,
    view: Option<View>, compared: map<string, Bytes>, uploads: seq<string>, publishes: nat)

  function Next(p: Past, e: Event): Past {
    match e
    case TagMissing => p.(tagMissing := true)
    case Surveyed(list) => p.(survey := Some(list))
    case Created => p.(creates := p.creates + 1, view := None, compared := map[])
    case Selected(id) => p.(selected := Some(id))
    case Viewed(v) => p.(view := Some(v), compared := map[])
    case Compared(name, remote) => p.(compared := p.compared[name := remote])
    case Uploaded(name) => p.(uploads := p.uploads + [name], view := None, compared := map[])
    case Published => p.(publishes := p.publishes + 1, view := None, compared := map[])
    case Declared => p
  }

  function After(log: seq<Event>): Past {
    if log == [] then Past(false, None, 0, None, None, map[], [], 0)
    else Next(After(log[..|log| - 1]), log[|log| - 1])
  }

  function Names(assets: seq<Asset>): set<string> {
    set a | a in assets :: a.name
  }

  // The latest view is of the selected release, and its assets are exactly the bundle, byte for byte.
  predicate Exact(b: Bundle, tag: string, p: Past) {
    && p.view.Some? && p.selected == Some(p.view.value.id) && p.view.value.tag == tag
    && Names(p.view.value.assets) == (set n | n in b.names)
    && forall n | n in b.names :: n in p.compared && n in b.bytes && p.compared[n] == b.bytes[n]
  }

  predicate Allowed(b: Bundle, tag: string, p: Past, e: Event) {
    match e
    case Created =>
      p.creates == 0 && p.selected.None? && p.tagMissing && p.survey.Some? && Matching(p.survey.value, tag) == []
    case Selected(id) => p.selected.None?
    case Viewed(v) => v.tag == tag
    case Uploaded(name) =>
      && name in b.names && name !in p.uploads && p.publishes == 0
      && p.view.Some? && p.view.value.draft && p.selected == Some(p.view.value.id)
    case Published => p.publishes == 0 && Exact(b, tag, p) && p.view.value.draft
    case Declared => Exact(b, tag, p) && !p.view.value.draft
    case _ => true
  }

  predicate AllowedAt(b: Bundle, tag: string, log: seq<Event>, i: nat)
    requires i < |log|
  {
    Allowed(b, tag, After(log[..i]), log[i])
  }

  ghost predicate Legal(b: Bundle, tag: string, log: seq<Event>) {
    forall i :: 0 <= i < |log| ==> AllowedAt(b, tag, log, i)
  }

  lemma LegalExtends(b: Bundle, tag: string, log: seq<Event>, e: Event)
    requires Legal(b, tag, log) && Allowed(b, tag, After(log), e)
    ensures Legal(b, tag, log + [e]) && After(log + [e]) == Next(After(log), e)
  {
    var longer := log + [e];
    assert longer[..|log|] == log;
    forall i | 0 <= i < |longer|
      ensures AllowedAt(b, tag, longer, i)
    {
      if i < |log| {
        assert AllowedAt(b, tag, log, i);
        assert longer[..i] == log[..i];
      }
    }
  }

  lemma Steps(log: seq<Event>, i: nat)
    requires i < |log|
    ensures After(log[..i + 1]) == Next(After(log[..i]), log[i])
  {
    assert log[..i + 1][..i] == log[..i];
  }

  // What never goes back over a run.
  predicate Onward(p: Past, q: Past) {
    && p.creates <= q.creates && p.uploads <= q.uploads && p.publishes <= q.publishes
    && (p.selected.Some? ==> q.selected == p.selected)
  }

  lemma StepIsOnward(b: Bundle, tag: string, p: Past, e: Event)
    requires Allowed(b, tag, p, e)
    ensures Onward(p, Next(p, e))
  {
  }

  lemma {:induction false} RunIsOnward(b: Bundle, tag: string, log: seq<Event>, i: nat, j: nat)
    requires Legal(b, tag, log) && i <= j <= |log|
    ensures Onward(After(log[..i]), After(log[..j]))
    decreases j
  {
    if i < j {
      RunIsOnward(b, tag, log, i, j - 1);
      Steps(log, j - 1);
      assert AllowedAt(b, tag, log, j - 1);
      StepIsOnward(b, tag, After(log[..j - 1]), log[j - 1]);
    }
  }

  // The event happened, and all that came of it stays.
  lemma Happened(b: Bundle, tag: string, log: seq<Event>, i: nat, j: nat)
    requires Legal(b, tag, log) && i < j < |log|
    ensures AllowedAt(b, tag, log, i) && AllowedAt(b, tag, log, j)
    ensures Onward(Next(After(log[..i]), log[i]), After(log[..j]))
  {
    Steps(log, i);
    RunIsOnward(b, tag, log, i + 1, j);
    assert AllowedAt(b, tag, log, i) && AllowedAt(b, tag, log, j);
  }

  /** The draft is created at most once, never beside a selected release, and the selection never changes. */
  lemma OneReleaseIsUsed(b: Bundle, tag: string, log: seq<Event>, i: nat, j: nat)
    requires Legal(b, tag, log) && i < j < |log|
    ensures log[i].Created? ==> !log[j].Created?
    ensures log[i].Selected? ==> !log[j].Created? && !log[j].Selected? && After(log[..j]).selected == Some(log[i].id)
  {
    Happened(b, tag, log, i, j);
  }

  /** No asset is sent twice, none after the publish request, and the publish request is sent at most once. */
  lemma NothingIsSentTwice(b: Bundle, tag: string, log: seq<Event>, i: nat, j: nat)
    requires Legal(b, tag, log) && i < j < |log|
    ensures log[i].Uploaded? ==> log[j] != log[i]
    ensures log[i].Published? ==> !log[j].Published? && !log[j].Uploaded?
  {
    Happened(b, tag, log, i, j);
    if log[i].Uploaded? {
      assert log[i].name in Next(After(log[..i]), log[i]).uploads;
    }
  }

  // One create and one selection behind it, one publish request, each asset once and none behind that request.
  predicate Once(log: seq<Event>) {
    forall i, j :: 0 <= i < j < |log| ==>
      && (log[i].Created? || log[i].Selected? ==> !log[j].Created?) && (log[i].Selected? ==> !log[j].Selected?)
      && (log[i].Uploaded? ==> log[j] != log[i]) && (log[i].Published? ==> !log[j].Published? && !log[j].Uploaded?)
  }

  lemma LegalIsOnce(b: Bundle, tag: string, log: seq<Event>)
    requires Legal(b, tag, log)
    ensures Once(log)
  {
    forall i, j | 0 <= i < j < |log|
      ensures && (log[i].Created? || log[i].Selected? ==> !log[j].Created?) && (log[i].Selected? ==> !log[j].Selected?)
              && (log[i].Uploaded? ==> log[j] != log[i]) && (log[i].Published? ==> !log[j].Published? && !log[j].Uploaded?)
    {
      OneReleaseIsUsed(b, tag, log, i, j);
      NothingIsSentTwice(b, tag, log, i, j);
    }
  }

  predicate Changes(e: Event) {
    e.Created? || e.Uploaded? || e.Published?
  }

  // Each of these was downloaded between the two moments.
  ghost predicate AllCompared(log: seq<Event>, i: nat, j: nat, compared: map<string, Bytes>)
    requires j <= |log|
  {
    forall n :: n in compared ==> exists k :: i < k < j && log[k] == Compared(n, compared[n])
  }

  lemma ComparedNext(log: seq<Event>, i: nat, j: nat)
    requires i < j < |log| && AllCompared(log, i, j, After(log[..j]).compared)
    ensures AllCompared(log, i, j + 1, After(log[..j + 1]).compared)
  {
    Steps(log, j);
    var p, q := After(log[..j]), After(log[..j + 1]);
    forall n | n in q.compared
      ensures exists k :: i < k < j + 1 && log[k] == Compared(n, q.compared[n])
    {
      if log[j] != Compared(n, q.compared[n]) {
        var k :| i < k < j && log[k] == Compared(n, p.compared[n]);
      }
    }
  }

  lemma ViewStays(log: seq<Event>, j: nat)
    requires j < |log| && After(log[..j + 1]).view.Some?
    ensures if log[j].Viewed? then After(log[..j + 1]).view == Some(log[j].view) && After(log[..j + 1]).compared == map[]
            else !Changes(log[j]) && After(log[..j]).view == After(log[..j + 1]).view
  {
    Steps(log, j);
  }

  lemma NoViewYet(log: seq<Event>)
    ensures After(log[..0]).view.None?
  {
  }

  // Where the latest view and its comparisons come from.
  lemma {:induction false} ViewOrigin(log: seq<Event>, j: nat) returns (i: nat)
    requires j <= |log| && After(log[..j]).view.Some?
    ensures i < j && log[i] == Viewed(After(log[..j]).view.value)
    ensures forall k :: i < k < j ==> !Changes(log[k])
    ensures AllCompared(log, i, j, After(log[..j]).compared)
    decreases j
  {
    NoViewYet(log);
    ViewStays(log, j - 1);
    if log[j - 1].Viewed? {
      i := j - 1;
    } else {
      i := ViewOrigin(log, j - 1);
      ComparedNext(log, i, j - 1);
    }
  }

  lemma {:induction false} SelectedOrigin(log: seq<Event>, j: nat)
    requires j <= |log|
    ensures After(log[..j]).selected.Some? ==> Selected(After(log[..j]).selected.value) in log[..j]
  {
    if j > 0 {
      SelectedOrigin(log, j - 1);
      Steps(log, j - 1);
      assert log[..j] == log[..j - 1] + [log[j - 1]];
    }
  }

  // Event i shows the release that was selected, under the tag, and nothing was changed since then.
  ghost predicate Shows(tag: string, log: seq<Event>, i: nat, j: nat, draft: bool) {
    && i < j <= |log| && log[i].Viewed? && log[i].view.tag == tag && log[i].view.draft == draft
    && Selected(log[i].view.id) in log[..j]
    && forall k :: i < k < j ==> !(log[k].Created? || log[k].Uploaded? || log[k].Published?)
  }

  // And its assets are exactly the bundle's, each downloaded since then with the bundle's bytes.
  ghost predicate ReadsBack(b: Bundle, tag: string, log: seq<Event>, i: nat, j: nat, draft: bool) {
    && Shows(tag, log, i, j, draft)
    && (forall n :: n in b.names <==> exists a :: a in log[i].view.assets && a.name == n)
    && (forall n :: n in b.names ==> n in b.bytes && exists k :: i < k < j && log[k] == Compared(n, b.bytes[n]))
  }

  lemma ViewIsOfTag(b: Bundle, tag: string, log: seq<Event>, i: nat)
    requires Legal(b, tag, log) && i < |log| && log[i].Viewed?
    ensures log[i].view.tag == tag
  {
    assert AllowedAt(b, tag, log, i);
  }

  /** An asset of the bundle is sent only behind a view of the selected draft, with no change in between. */
  lemma UploadFollowsDraftView(b: Bundle, tag: string, log: seq<Event>, j: nat) returns (i: nat)
    requires Legal(b, tag, log) && j < |log| && log[j].Uploaded?
    ensures log[j].name in b.names && Shows(tag, log, i, j, true)
  {
    assert AllowedAt(b, tag, log, j);
    i := ViewOrigin(log, j);
    ViewIsOfTag(b, tag, log, i);
    SelectedOrigin(log, j);
  }

  lemma ExactReadsBack(b: Bundle, tag: string, log: seq<Event>, j: nat) returns (i: nat)
    requires Legal(b, tag, log) && j <= |log| && Exact(b, tag, After(log[..j]))
    ensures ReadsBack(b, tag, log, i, j, After(log[..j]).view.value.draft)
  {
    i := ViewOrigin(log, j);
    ViewIsOfTag(b, tag, log, i);
    SelectedOrigin(log, j);
    var p := After(log[..j]);
    forall n
      ensures n in b.names <==> exists a :: a in log[i].view.assets && a.name == n
    {
      assert n in Names(log[i].view.assets) <==> n in b.names;
    }
    forall n | n in b.names
      ensures n in b.bytes && exists k :: i < k < j && log[k] == Compared(n, b.bytes[n])
    {
      assert n in p.compared && p.compared[n] == b.bytes[n];
    }
  }

  /**
   The publish request follows a view of the selected draft whose asset names are exactly the bundle's,
   every one of which was then downloaded with the bundle's bytes, with no change in between.
   */
  lemma PublishFollowsExactReadback(b: Bundle, tag: string, log: seq<Event>, j: nat) returns (i: nat)
    requires Legal(b, tag, log) && j < |log| && log[j].Published?
    ensures ReadsBack(b, tag, log, i, j, true)
  {
    assert AllowedAt(b, tag, log, j);
    i := ExactReadsBack(b, tag, log, j);
  }

  /** Success is declared only behind such a read-back of the release in public. */
  lemma SuccessFollowsPublicReadback(b: Bundle, tag: string, log: seq<Event>, j: nat) returns (i: nat)
    requires Legal(b, tag, log) && j < |log| && log[j].Declared?
    ensures ReadsBack(b, tag, log, i, j, false)
  {
    assert AllowedAt(b, tag, log, j);
    i := ExactReadsBack(b, tag, log, j);
  }

  lemma {:induction false} SurveyOrigin(log: seq<Event>, j: nat)
    requires j <= |log|
    ensures After(log[..j]).survey.Some? ==> exists i :: 0 <= i < j && log[i] == Surveyed(After(log[..j]).survey.value)
    ensures After(log[..j]).tagMissing ==> exists i :: 0 <= i < j && log[i] == TagMissing
  {
    if j > 0 {
      SurveyOrigin(log, j - 1);
      Steps(log, j - 1);
    }
  }

  /** The draft is created only after the tag was missing and a complete list held no release of it. */
  lemma CreateFollowsProvenAbsence(b: Bundle, tag: string, log: seq<Event>, j: nat)
    requires Legal(b, tag, log) && j < |log| && log[j].Created?
    ensures ProvesAbsent(tag, log, j)
  {
    assert AllowedAt(b, tag, log, j);
    SurveyOrigin(log, j);
    var k :| 0 <= k < j && log[k] == TagMissing;
    assert log[..j][k] == TagMissing;
    var i :| 0 <= i < j && log[i] == Surveyed(After(log[..j]).survey.value);
    MatchingMembers(log[i].releases, tag);
  }

  // A list without the tag was read to its end, and the tag itself was missing.
  ghost predicate ProvesAbsent(tag: string, log: seq<Event>, j: nat)
    requires j <= |log|
  {
    && TagMissing in log[..j]
    && exists i :: 0 <= i < j && log[i].Surveyed? && forall r :: r in log[i].releases ==> r.tag != tag
  }

  ghost predicate Founded(b: Bundle, tag: string, log: seq<Event>, j: nat)
    requires j < |log|
  {
    match log[j]
    case Created => ProvesAbsent(tag, log, j)
    case Uploaded(name) => name in b.names && exists i :: Shows(tag, log, i, j, true)
    case Published => exists i :: ReadsBack(b, tag, log, i, j, true)
    case Declared => exists i :: ReadsBack(b, tag, log, i, j, false)
    case _ => true
  }

  // Every request is sent once and behind what entitles it.
  ghost predicate Disciplined(b: Bundle, tag: string, log: seq<Event>) {
    Once(log) && forall j :: 0 <= j < |log| ==> Founded(b, tag, log, j)
  }

  lemma LegalIsDisciplined(b: Bundle, tag: string, log: seq<Event>)
    requires Legal(b, tag, log)
    ensures Disciplined(b, tag, log)
  {
    LegalIsOnce(b, tag, log);
    forall j | 0 <= j < |log|
      ensures Founded(b, tag, log, j)
    {
      match log[j]
      case Created => CreateFollowsProvenAbsence(b, tag, log, j);
      case Uploaded(_) => var i := UploadFollowsDraftView(b, tag, log, j);
      case Published => var i := PublishFollowsExactReadback(b, tag, log, j);
      case Declared => var i := SuccessFollowsPublicReadback(b, tag, log, j);
      case _ =>
    }
  }

  // ---- A full set of distinct expected names is the expected set ----

  lemma {:induction false} SetSize(names: seq<string>)
    requires forall i, j :: 0 <= i < j < |names| ==> names[i] != names[j]
    ensures |set n | n in names| == |names|
  {
    var all := set n | n in names;
    if names == [] {
      assert all == {};
    } else {
      var rest := names[..|names| - 1];
      SetSize(rest);
      assert all == (set n | n in rest) + {names[|names| - 1]};
    }
  }

  lemma {:induction false} NamesSize(assets: seq<Asset>)
    requires forall i, j :: 0 <= i < j < |assets| ==> assets[i].name != assets[j].name
    ensures |Names(assets)| == |assets|
  {
    if assets != [] {
      var rest, last := assets[..|assets| - 1], assets[|assets| - 1];
      NamesSize(rest);
      assert assets == rest + [last];
      assert Names(assets) == Names(rest) + {last.name};
      assert last.name !in Names(rest);
    }
  }

  lemma SubsetOfEqualSize(a: set<string>, b: set<string>)
    requires a <= b && |a| == |b|
    ensures a == b
  {
    assert |b - a| == 0;
  }
}
