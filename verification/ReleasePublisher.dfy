/**
 The publication as it runs, against a repository that may answer every lookup as it likes and may have
 carried out any request that failed.
 */
module ReleasePublisher {
  import opened Wrappers
  import opened ReleasePages
  import opened ReleaseRemote
  import opened ReleaseWalks
  import opened ReleasePublication
  import opened ReleaseDelivery

  method ValidateRelease(b: Bundle, tag: string, v: View, expected: Option<int>) returns (ok: bool)
    ensures ok <==> ValidView(b, tag, v, expected)
    ensures ok <==>
              && v.tag == tag && v.id > 0 && (expected.None? || expected == Some(v.id)) && |v.assets| <= |b.names|
              && (forall i, j :: 0 <= i < j < |v.assets| ==> v.assets[i].name != v.assets[j].name)
              && (forall a :: a in v.assets ==>
                    a.name in b.names && a.uploaded && a.name in b.bytes && a.size == |b.bytes[a.name]|)
  {
    if v.tag != tag || v.id <= 0 || (expected.Some? && v.id != expected.value) || |v.assets| > |b.names| {
      return false;
    }
    var seen: set<string> := {};
    for k := 0 to |v.assets|
      invariant seen == Names(v.assets[..k])
      invariant forall i, j :: 0 <= i < j < k ==> v.assets[i].name != v.assets[j].name
      invariant forall i :: 0 <= i < k ==> ValidAsset(b, v.assets[i])
    {
      var a := v.assets[k];
      if !ValidAsset(b, a) {
        return false;
      }
      if a.name in seen {
        assert exists i :: 0 <= i < k && v.assets[i].name == a.name;
        return false;
      }
      assert v.assets[..k + 1] == v.assets[..k] + [a];
      forall i | 0 <= i < k
        ensures v.assets[i].name != a.name
      {
        assert v.assets[..k][i] in v.assets[..k];
      }
      seen := seen + {a.name};
    }
    ok := true;
  }

  /** As many valid assets as the bundle has names are exactly the bundle's names. */
  lemma FullViewIsExact(b: Bundle, tag: string, v: View, expected: Option<int>)
    requires ValidBundle(b) && ValidView(b, tag, v, expected)
    ensures |v.assets| == |b.names| <==> Names(v.assets) == set n | n in b.names
  {
    NamesSize(v.assets);
    SetSize(b.names);
    var all := set n | n in b.names;
    assert Names(v.assets) <= all;
    if |v.assets| == |b.names| {
      SubsetOfEqualSize(Names(v.assets), all);
    }
  }

  datatype Seen = Refused | Absent | Found(view: View)

  datatype Outcome = Failed | AlreadyPublished | PublishedNow

  // Nothing was sent between two moments of a run.
  predicate Unsent(p: Past, q: Past) {
    q.creates == p.creates && q.uploads == p.uploads && q.publishes == p.publishes
  }

  class Publisher {
    const remote: Remote
    const bundle: Bundle
    const tag: string
    const byIdentity: bool  // requests name the release by its identity, and not by its tag
    var selected: Option<int>
    ghost var log: seq<Event>

    ghost predicate Traced()
      reads this
    {
      ValidBundle(bundle) && Legal(bundle, tag, log) && After(log).selected == selected
    }

    // Nothing fails, nobody interferes, and the tag has one release, which carries nothing but verified bytes.
    ghost predicate Steady()
      reads this, remote
    {
      && remote.quiet && |Matching(remote.releases, tag)| == 1 && Matching(remote.releases, tag)[0].tag == tag
      && Kept(bundle, remote.releases, remote.assets, Matching(remote.releases, tag)[0])
      && (selected.Some? ==> selected.value == Matching(remote.releases, tag)[0].id)
    }

    ghost function Tagged(): Release
      requires Steady()
      reads this, remote
    {
      Matching(remote.releases, tag)[0]
    }

    ghost function Current(): View
      requires Steady()
      reads this, remote
    {
      ViewOf(Tagged(), remote.assets)
    }

    ghost function Carried(): set<string>
      requires Steady()
      reads this, remote
    {
      Sent(ContentsOf(remote.assets, Tagged().id))
    }

    // The release carries as many assets as the bundle has.
    ghost predicate Full()
      requires Steady()
      reads this, remote
    {
      |ContentsOf(remote.assets, Tagged().id)| == |bundle.names|
    }

    // Nothing fails, nobody interferes, and the tag is free in a list that can be read to its end.
    ghost predicate Free(newId: int)
      reads this, remote
    {
      && remote.quiet && selected.None? && WellKept(remote.releases) && |remote.releases| + 1 < 1000
      && Matching(remote.releases, tag) == [] && newId > 0 && newId !in Ids(remote.releases)
    }

    lemma SteadyIsShown(expected: Option<int>)
      requires ValidBundle(bundle) && Steady() && (expected.Some? ==> expected.value == Tagged().id)
      ensures ById(remote.releases, Tagged().id) == Some(Tagged())
      ensures PublicByTag(remote.releases, tag) == if Tagged().draft then None else Some(Tagged())
      ensures ValidView(bundle, tag, Current(), expected)
      ensures Resolve(remote.releases, Named(Tagged().id)) == Some(Tagged().id)
      ensures Names(Current().assets) == Carried()
    {
      KeptIsShown(bundle, remote.releases, remote.assets, Tagged(), expected);
    }

    function Named(id: int): Address {
      if byIdentity then ThisId(id) else ThisTag(tag)
    }

    // A download of the asset of the release gives the bundle's bytes.
    predicate HasBytes(id: int, name: string)
      reads remote
    {
      var addressed := Resolve(remote.releases, Named(id));
      && name in bundle.bytes && addressed.Some?
      && BytesOf(ContentsOf(remote.assets, addressed.value), name) == Some(bundle.bytes[name])
    }

    // Downloading any asset of the view gives the bundle's bytes.
    ghost predicate Downloads(v: View)
      reads remote
    {
      remote.quiet && forall i :: 0 <= i < |v.assets| ==> HasBytes(v.id, v.assets[i].name)
    }

    // The publish request opens the release and leaves all else as it is.
    lemma SteadyOpens()
      requires ValidBundle(bundle) && Steady()
      ensures Resolve(remote.releases, Named(Tagged().id)) == Some(Tagged().id)
      ensures var after := Opened(remote.releases, Tagged().id);
              && Matching(after, tag) == [Tagged().(draft := false)]
              && Kept(bundle, after, remote.assets, Tagged().(draft := false))
    {
      SteadyIsShown(None);
      PublishKeeps(bundle, remote.releases, remote.assets, Tagged());
    }

    lemma SteadyDownloads()
      requires ValidBundle(bundle) && Steady()
      ensures Downloads(Current())
    {
      SteadyIsShown(None);
      forall i | 0 <= i < |Current().assets|
        ensures HasBytes(Tagged().id, Current().assets[i].name)
      {
        BytesAreFound(ContentsOf(remote.assets, Tagged().id), i);
      }
    }

    constructor (remote: Remote, bundle: Bundle, tag: string, byIdentity: bool, reserved: Option<int>)
      requires ValidBundle(bundle)
      ensures Traced() && selected == reserved && log == (if reserved.Some? then [Selected(reserved.value)] else [])
      ensures this.remote == remote && this.bundle == bundle && this.tag == tag && this.byIdentity == byIdentity
    {
      this.remote, this.bundle, this.tag, this.byIdentity, selected, log := remote, bundle, tag, byIdentity, None, [];
      new;
      if reserved.Some? {
        Choose(reserved.value);
      }
    }

    ghost method Note(e: Event)
      requires Traced() && Allowed(bundle, tag, After(log), e) && !e.Selected?
      modifies this`log
      ensures Traced() && log == old(log) + [e] && After(log) == Next(old(After(log)), e)
    {
      LegalExtends(bundle, tag, log, e);
      log := log + [e];
    }

    method Choose(id: int)
      requires Traced() && selected.None?
      modifies this
      ensures Traced() && selected == Some(id)
      ensures log == old(log) + [Selected(id)] && After(log) == Next(old(After(log)), Selected(id))
    {
      LegalExtends(bundle, tag, log, Selected(id));
      selected, log := Some(id), log + [Selected(id)];
    }

    /** The tag's sole release in a complete list, or its absence there. */
    method Discover() returns (ok: bool, hit: Option<Release>)
      requires Traced()
      modifies this`log, remote`releases
      ensures Traced() && old(log) <= log && After(log) == old(After(log)).(survey := After(log).survey)
      ensures remote.quiet ==> remote.releases == old(remote.releases)
      ensures remote.quiet && WellKept(remote.releases) && |Matching(remote.releases, tag)| <= 1 ==> ok
      ensures ok ==> After(log).survey == Some(remote.releases)
                     && Matching(remote.releases, tag) == (if hit.Some? then [hit.value] else [])
    {
      ok, hit := FindOnly(remote, tag);
      if ok {
        Note(Surveyed(remote.releases));
      }
    }

    /** Looks up and validates one release. */
    method Validated(id: int) returns (out: Seen)
      requires Traced()
      modifies this`log
      ensures Traced() && old(log) <= log && !out.Absent?
      ensures out.Refused? ==> log == old(log)
      ensures out.Found? ==> ValidView(bundle, tag, out.view, Some(id))
                             && After(log) == Next(old(After(log)), Viewed(out.view))
      ensures Steady() && id == Tagged().id ==> out == Found(Current())
    {
      if Steady() && id == Tagged().id {
        SteadyIsShown(Some(id));
      }
      var answer := remote.LookUp(Shown(ById(remote.releases, id), remote.assets));
      if !answer.Answer? {
        return Seen.Refused;
      }
      var ok := ValidateRelease(bundle, tag, answer.view, Some(id));
      if !ok {
        return Seen.Refused;
      }
      Note(Viewed(answer.view));
      out := Found(answer.view);
    }

    /** The tag's release in the complete list, or its absence there. */
    method FindListed() returns (out: Seen)
      requires Traced()
      modifies this`log, remote`releases
      ensures Traced() && old(log) <= log && Unsent(old(After(log)), After(log)) && After(log).selected == old(After(log)).selected
      ensures out.Found? ==> After(log).view == Some(out.view) && After(log).compared == map[]
                             && ValidView(bundle, tag, out.view, None)
      ensures out.Absent? ==> After(log).survey.Some? && Matching(After(log).survey.value, tag) == []
                              && After(log).tagMissing == old(After(log)).tagMissing
      ensures remote.quiet ==> remote.releases == old(remote.releases)
      ensures old(Steady()) ==> out == Found(old(Current()))
      ensures remote.quiet && WellKept(remote.releases) && Matching(remote.releases, tag) == [] ==> out.Absent?
    {
      var ok, listed := Discover();
      if !ok {
        return Seen.Refused;
      }
      if listed.None? {
        return Absent;
      }
      out := Validated(listed.value.id);
    }

    /** The tag's release in public or in the complete list, which is then selected, or its proven absence. */
    method FindRelease() returns (out: Seen)
      requires Traced() && selected.None?
      modifies this, remote`releases
      ensures Traced() && old(log) <= log && Unsent(old(After(log)), After(log))
      ensures out.Found? ==> selected == Some(out.view.id) && After(log).view == Some(out.view)
                             && After(log).compared == map[] && ValidView(bundle, tag, out.view, None)
      ensures out.Absent? ==> selected.None? && After(log).tagMissing && After(log).survey.Some?
                              && Matching(After(log).survey.value, tag) == []
      ensures remote.quiet ==> remote.releases == old(remote.releases)
      ensures old(Steady()) ==> out == Found(old(Current()))
      ensures remote.quiet && WellKept(remote.releases) && Matching(remote.releases, tag) == [] ==> out.Absent?
    {
      if Steady() {
        SteadyIsShown(None);
      }
      PublicIs(remote.releases, tag);
      var byTag := remote.LookUp(Shown(PublicByTag(remote.releases, tag), remote.assets));
      if byTag.Unknown? {
        return Seen.Refused;
      }
      if byTag.NotFound? {
        Note(TagMissing);
        out := FindListed();
      } else {
        var ok := ValidateRelease(bundle, tag, byTag.view, None);
        if !ok {
          return Seen.Refused;
        }
        Note(Viewed(byTag.view));
        out := Found(byTag.view);
      }
      if out.Found? {
        Choose(out.view.id);
      }
    }

    /** The selected release; without one, the tag's release, which is then selected, or its proven absence. */
    method ViewRelease() returns (out: Seen)
      requires Traced()
      modifies this, remote`releases
      ensures Traced() && old(log) <= log && Unsent(old(After(log)), After(log))
      ensures old(selected).Some? ==> selected == old(selected)
      ensures out.Found? ==> selected == Some(out.view.id) && After(log).view == Some(out.view)
                             && After(log).compared == map[] && ValidView(bundle, tag, out.view, selected)
      ensures out.Absent? ==> selected.None? && After(log).tagMissing && After(log).survey.Some?
                              && Matching(After(log).survey.value, tag) == []
      ensures remote.quiet ==> remote.releases == old(remote.releases)
      ensures old(Steady()) ==> Steady() && out == Found(Current())
      ensures old(selected).None? && remote.quiet && WellKept(remote.releases) && Matching(remote.releases, tag) == [] ==> out.Absent?
    {
      if selected.Some? {
        out := Validated(selected.value);
      } else {
        out := FindRelease();
      }
    }

    predicate ReadEqual(p: Past, name: string) {
      name in p.compared && name in bundle.bytes && p.compared[name] == bundle.bytes[name]
    }

    method CompareAsset(id: int, name: string) returns (same: bool)
      requires Traced() && name in bundle.bytes
      modifies this`log
      ensures Traced() && old(log) <= log
      ensures same ==> After(log) == Next(old(After(log)), Compared(name, bundle.bytes[name]))
      ensures !same ==> log == old(log)
      ensures remote.quiet ==> (same <==> HasBytes(id, name))
    {
      var bytes := remote.Download(Named(id), name);
      same := bytes == Some(bundle.bytes[name]);
      if same {
        Note(Compared(name, bytes.value));
      }
    }

    method CompareAll(v: View) returns (same: bool)
      requires Traced() && ValidView(bundle, tag, v, selected) && After(log).view == Some(v)
      modifies this`log
      ensures Traced() && old(log) <= log && Unsent(old(After(log)), After(log)) && After(log).view == Some(v)
      ensures same ==> forall i :: 0 <= i < |v.assets| ==> ReadEqual(After(log), v.assets[i].name)
      ensures Downloads(v) ==> same
    {
      for k := 0 to |v.assets|
        invariant Traced() && old(log) <= log && Unsent(old(After(log)), After(log)) && After(log).view == Some(v)
        invariant forall i :: 0 <= i < k ==> ReadEqual(After(log), v.assets[i].name)
      {
        assert ValidAsset(bundle, v.assets[k]);
        same := CompareAsset(v.id, v.assets[k].name);
        if !same {
          return;
        }
      }
      same := true;
    }

    /** Downloads every asset of a view and compares it; a complete view must hold the whole bundle. */
    method Readback(v: View, complete: bool) returns (present: Option<set<string>>)
      requires Traced() && ValidView(bundle, tag, v, selected) && selected == Some(v.id)
      requires After(log).view == Some(v)
      modifies this`log
      ensures Traced() && old(log) <= log && Unsent(old(After(log)), After(log)) && After(log).view == Some(v)
      ensures present.Some? ==> present.value == Names(v.assets)
      ensures present.Some? && complete ==> Exact(bundle, tag, After(log))
      ensures Steady() && v == Current() ==> (present.Some? <==> complete ==> Full())
    {
      if complete && |v.assets| != |bundle.names| {
        return None;
      }
      if Steady() && v == Current() {
        SteadyDownloads();
      }
      var same := CompareAll(v);
      if !same {
        return None;
      }
      if complete {
        FullViewIsExact(bundle, tag, v, selected);
        forall n | n in bundle.names
          ensures ReadEqual(After(log), n)
        {
          assert n in Names(v.assets);
        }
      }
      present := Some(Names(v.assets));
    }

    /** The local assets and the tag's commit are still what they were. */
    method Unchanged() returns (ok: bool)
      ensures remote.quiet ==> ok
    {
      ok := remote.Chance();
    }

    /** The one create request, and a view of what it answered. */
    method CreateDraft(newId: int) returns (out: Seen)
      requires Traced() && Allowed(bundle, tag, After(log), Created)
      modifies this, remote
      ensures Traced() && old(log) <= log && !out.Absent?
      ensures After(log).uploads == old(After(log)).uploads && After(log).publishes == old(After(log)).publishes
      ensures out.Found? ==> selected == Some(out.view.id) && After(log).view == Some(out.view)
                             && After(log).compared == map[] && ValidView(bundle, tag, out.view, selected)
      ensures old(Free(newId)) ==> Steady() && out == Found(Current()) && Tagged() == Release(newId, tag, true)
    {
      if Free(newId) {
        CreateKeeps(bundle, remote.releases, remote.assets, Release(newId, tag, true));
      }
      Note(Created);
      var identity := remote.Create(tag, newId);
      if identity.None? || identity.value.id <= 0 || identity.value.tag != tag || !identity.value.draft {
        return Seen.Refused;
      }
      Choose(identity.value.id);
      out := ViewRelease();
      if !out.Found? || !out.view.draft {
        return Seen.Refused;
      }
    }

    /** The selected release, created as a draft if and only if its absence was proven. */
    method Stage(newId: int) returns (out: Seen)
      requires Traced() && After(log).creates == 0
      modifies this, remote
      ensures Traced() && old(log) <= log && !out.Absent? && (old(selected).Some? ==> selected == old(selected))
      ensures After(log).uploads == old(After(log)).uploads && After(log).publishes == old(After(log)).publishes
      ensures out.Found? ==> selected == Some(out.view.id) && After(log).view == Some(out.view)
                             && After(log).compared == map[] && ValidView(bundle, tag, out.view, selected)
      ensures old(Steady()) ==> Steady() && out == Found(Current()) && remote.releases == old(remote.releases)
                                && remote.assets == old(remote.assets)
      ensures old(Free(newId)) ==> Steady() && out == Found(Current()) && Tagged() == Release(newId, tag, true)
    {
      out := ViewRelease();
      if !out.Absent? {
        return;
      }
      var ok := Unchanged();
      if !ok {
        return Seen.Refused;
      }
      out := CreateDraft(newId);
    }

    // A request reaches the selected release, the one that was read back, exactly if it goes by identity or the
    // tag still means that release in the list as it then stands.
    predicate ReachesSelected(reached: int, list: seq<Release>)
      reads this`selected
    {
      Some(reached) == selected <==> (byIdentity || Resolve(list, ThisTag(tag)) == selected)
    }

    /** Sends one asset behind a fresh view of the draft. */
    method SendAsset(name: string) returns (ok: bool, ghost reached: Option<int>, ghost list: seq<Release>)
      requires Traced() && selected.Some? && name in bundle.names && name !in After(log).uploads && After(log).publishes == 0
      modifies this, remote
      ensures Traced() && old(log) <= log && selected == old(selected) && After(log).publishes == 0
      ensures reached.Some? ==> ReachesSelected(reached.value, list)
      ensures After(log).uploads == old(After(log)).uploads + [name] || (!ok && After(log).uploads == old(After(log)).uploads)
      ensures old(Steady()) && old(Tagged().draft) && name !in old(Carried()) ==>
                ok && Steady() && Tagged() == old(Tagged()) && Carried() == old(Carried()) + {name}
    {
      if Steady() {
        SteadyIsShown(None);
      }
      if Steady() && name !in Carried() {
        UploadKeeps(bundle, remote.releases, remote.assets, Tagged(), name);
      }
      var same := Unchanged();
      if !same {
        return false, None, [];
      }
      var current := ViewRelease();
      if !current.Found? || !current.view.draft {
        return false, None, [];
      }
      Note(Uploaded(name));
      ok, reached, list := remote.Upload(Named(selected.value), name, bundle.bytes[name]);
    }

    /** Sends each missing asset once, each behind a fresh view of the draft. */
    method UploadMissing(present: set<string>) returns (ok: bool)
      requires Traced() && selected.Some? && After(log).uploads == [] && After(log).publishes == 0
      modifies this, remote
      ensures Traced() && old(log) <= log && selected == old(selected)
      ensures After(log).publishes == 0
      ensures ok ==> forall n :: n in bundle.names ==> n in present || n in After(log).uploads
      ensures forall n :: n in After(log).uploads ==> n in bundle.names && n !in present
      ensures old(Steady()) && old(Tagged().draft) && present == old(Carried()) ==>
                ok && Steady() && Full() && Tagged() == old(Tagged())
    {
      ghost var calm := Steady() && Tagged().draft && present == Carried();
      for k := 0 to |bundle.names|
        invariant Traced() && old(log) <= log && selected == old(selected) && After(log).publishes == 0
        invariant forall n :: n in After(log).uploads <==> n in bundle.names[..k] && n !in present
        invariant calm ==> Steady() && Tagged() == old(Tagged())
        invariant calm ==> Carried() == present + set n | n in bundle.names[..k]
      {
        var name := bundle.names[k];
        assert name !in bundle.names[..k];
        assert bundle.names[..k + 1] == bundle.names[..k] + [name];
        if name !in present {
          var sent, _, _ := SendAsset(name);
          ok := sent;
          if !ok {
            return;
          }
        }
      }
      ok := true;
      assert bundle.names[..|bundle.names|] == bundle.names;
      if calm {
        WholeIsEverything(bundle, ContentsOf(remote.assets, Tagged().id));
      }
    }

    // The tag's only release is public and carries exactly the bundle.
    ghost predicate Delivered()
      reads this, remote
    {
      Steady() && !Tagged().draft && Full()
    }

    /** A fresh view of the release, read back as exactly the bundle. */
    method ReadExact(public: bool) returns (out: Option<View>)
      requires Traced() && selected.Some?
      modifies this, remote`releases
      ensures Traced() && old(log) <= log && selected == old(selected) && Unsent(old(After(log)), After(log))
      ensures out.Some? ==> After(log).view == out && Exact(bundle, tag, After(log)) && (public ==> !out.value.draft)
      ensures remote.quiet ==> remote.releases == old(remote.releases)
      ensures old(Steady()) && old(Full()) && (public ==> !old(Tagged().draft)) ==> Steady() && out == Some(Current())
    {
      var release := ViewRelease();
      if !release.Found? || (public && release.view.draft) {
        return None;
      }
      var whole := Readback(release.view, true);
      var ready := Unchanged();
      out := if whole.Some? && ready then Some(release.view) else None;
    }

    /** The publish request behind an exact read-back of the draft. */
    method MakePublic() returns (ok: bool, ghost reached: Option<int>, ghost list: seq<Release>)
      requires Traced() && selected.Some? && After(log).publishes == 0
      requires Exact(bundle, tag, After(log)) && After(log).view.value.draft
      modifies this, remote
      ensures Traced() && old(log) <= log && selected == old(selected)
      ensures reached.Some? ==> ReachesSelected(reached.value, list)
      ensures old(Steady()) ==> ok && Steady() && Tagged() == old(Tagged()).(draft := false) && remote.assets == old(remote.assets)
    {
      if Steady() {
        SteadyOpens();
      }
      var tagged := Unchanged();
      if !tagged {
        return false, None, [];
      }
      Note(Published);
      ok, reached, list := remote.MakePublic(Named(selected.value));
    }

    /** Publishes the draft behind an exact read-back, and reads the published release back. */
    method Finish() returns (out: Outcome)
      requires Traced() && selected.Some? && After(log).publishes == 0
      modifies this, remote
      ensures Traced() && old(log) <= log && selected == old(selected)
      ensures out != Failed ==> out == PublishedNow && log != [] && log[|log| - 1] == Declared
      ensures old(Steady()) && old(Full()) ==> out == PublishedNow && Delivered() && Tagged().id == old(Tagged().id)
    {
      var release := ReadExact(false);
      if release.None? {
        return Failed;
      }
      if release.value.draft {
        var ok, _, _ := MakePublic();
        if !ok {
          return Failed;
        }
      }
      var last := ReadExact(true);
      if last.None? {
        return Failed;
      }
      Note(Declared);
      out := PublishedNow;
    }

    /** The release was public from the start: it is only read back. */
    method Accept(v: View) returns (out: Outcome)
      requires Traced() && ValidView(bundle, tag, v, selected) && selected == Some(v.id)
      requires After(log).view == Some(v) && !v.draft && After(log).uploads == [] && After(log).publishes == 0
      modifies this`log
      ensures Traced() && old(log) <= log
      ensures out != Failed ==> out == AlreadyPublished && log != [] && log[|log| - 1] == Declared
      ensures forall e :: e in log ==> !e.Uploaded? && !e.Published?
      ensures Steady() && v == Current() ==> out == if Full() then AlreadyPublished else Failed
    {
      var whole := Readback(v, true);
      NoneSent(bundle, tag, log);
      var tagged := Unchanged();
      if whole.None? || !tagged {
        return Failed;
      }
      Note(Declared);
      out := AlreadyPublished;
    }

    /** The draft is read back as far as it goes, completed and published. */
    method Complete(v: View) returns (out: Outcome)
      requires Traced() && ValidView(bundle, tag, v, selected) && selected == Some(v.id)
      requires After(log).view == Some(v) && After(log).uploads == [] && After(log).publishes == 0
      modifies this, remote
      ensures Traced() && old(log) <= log && selected == old(selected)
      ensures out != Failed ==> out == PublishedNow && log != [] && log[|log| - 1] == Declared
      ensures old(Steady()) && v == old(Current()) && v.draft ==>
                out == PublishedNow && Delivered() && Tagged().id == v.id
    {
      if Steady() {
        SteadyIsShown(None);
      }
      var present := Readback(v, false);
      if present.None? {
        return Failed;
      }
      var ok := UploadMissing(present.value);
      if !ok {
        return Failed;
      }
      out := Finish();
    }

    /** One publication. It sends nothing twice, and ends well only behind an exact read-back of the published release. */
    method Publish(newId: int) returns (out: Outcome)
      requires Traced() && log == (if selected.Some? then [Selected(selected.value)] else [])
      modifies this, remote
      ensures Traced() && old(log) <= log && Disciplined(bundle, tag, log)
      ensures old(selected).Some? ==> selected == old(selected)
      ensures out != Failed ==> log != [] && log[|log| - 1] == Declared
      ensures out == AlreadyPublished ==> forall e :: e in log ==> !e.Uploaded? && !e.Published?
      ensures old(Free(newId)) ==> out == PublishedNow && Delivered() && Tagged().id == newId
      ensures old(Steady()) && old(Tagged().draft) ==> out == PublishedNow && Delivered() && Tagged().id == old(Tagged().id)
      ensures old(Steady()) && !old(Tagged().draft) ==>
                out == (if old(Full()) then AlreadyPublished else Failed)
                && remote.releases == old(remote.releases) && remote.assets == old(remote.assets)
    {
      Begins(log);
      var release := Stage(newId);
      out := Failed;
      if release.Found? {
        if release.view.draft {
          out := Complete(release.view);
        } else {
          out := Accept(release.view);
        }
      }
      LegalIsDisciplined(bundle, tag, log);
    }
  }

  lemma Begins(log: seq<Event>)
    requires |log| <= 1 && forall e :: e in log ==> e.Selected?
    ensures Unsent(Past(false, None, 0, None, None, map[], [], 0), After(log))
  {
    if log != [] {
      assert log[..0] == [];
      assert log[0] in log;
    }
  }

  lemma NoneSent(b: Bundle, tag: string, log: seq<Event>)
    requires Legal(b, tag, log) && After(log).uploads == [] && After(log).publishes == 0
    ensures forall e :: e in log ==> !e.Uploaded? && !e.Published?
  {
    forall i | 0 <= i < |log|
      ensures !log[i].Uploaded? && !log[i].Published?
    {
      SentStaysSent(b, tag, log, i);
    }
  }

  lemma SentStaysSent(b: Bundle, tag: string, log: seq<Event>, i: nat)
    requires Legal(b, tag, log) && i < |log|
    ensures log[i].Uploaded? ==> log[i].name in After(log).uploads
    ensures log[i].Published? ==> After(log).publishes > 0
  {
    Steps(log, i);
    RunIsOnward(b, tag, log, i + 1, |log|);
    assert log[..|log|] == log;
    if log[i].Uploaded? {
      assert log[i].name in After(log[..i + 1]).uploads;
    }
  }
}
