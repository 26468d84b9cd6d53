/**
 Reserving one draft: a complete walk that finds no release of the tag, a durable intent, one create
 request, its identity made durable, and a second walk that only looks for ambiguity.
 */
module ReleaseReservation {
  import opened Wrappers
  import opened ReleasePages
  import opened ReleaseRemote

  datatype Status = Failed | Checking | CreateOutcomeUnknown | Reserved

  datatype Record = Record(status: Status, attempted: bool, releaseId: Option<int>)

  datatype Receipt = Missing | Empty | Holds(record: Record)

  // What a run does that matters after a crash. `Surveyed` holds the repository's list at that moment.
  datatype Event =
    | Wrote(record: Record)
    | Read
    | Surveyed(releases: seq<Release>)
    | Posted
    | Learned(id: int)

  datatype Past = Past(durable: Option<Record>, survey: Option<seq<Release>>, posts: nat, learned: Option<int>)

  function Next(p: Past, e: Event): Past {
    match e
    case Wrote(r) => p.(durable := Some(r))
    case Read => p
    case Surveyed(list) => p.(survey := Some(list))
    case Posted => p.(posts := p.posts + 1, survey := None)
    case Learned(id) => p.(learned := Some(id))
  }

  function After(log: seq<Event>): Past {
    if log == [] then Past(None, None, 0, None) else Next(After(log[..|log| - 1]), log[|log| - 1])
  }

  // A list in which the tag belongs to exactly this draft.
  predicate SoleDraft(list: seq<Release>, tag: string, id: int) {
    Matching(list, tag) == [Release(id, tag, true)]
  }

  predicate IdentityKept(p: Past) {
    p.learned.Some? ==> p.durable.Some? && p.durable.value.releaseId == p.learned
  }

  predicate Allowed(tag: string, p: Past, e: Event) {
    match e
    case Wrote(r) =>
      && (p.posts > 0 ==> r.attempted) && r.releaseId == p.learned
      && (r.status == Reserved ==> p.learned.Some? && p.survey.Some? && SoleDraft(p.survey.value, tag, p.learned.value))
    case Read => IdentityKept(p)
    case Surveyed(_) => IdentityKept(p)
    case Posted =>
      && p.posts == 0 && p.durable.Some? && p.durable.value.attempted
      && p.survey.Some? && Matching(p.survey.value, tag) == []
    case Learned(_) => p.posts == 1 && p.learned.None?
  }

  ghost predicate Legal(tag: string, log: seq<Event>) {
    forall i {:trigger Allowed(tag, After(log[..i]), log[i])} :: 0 <= i < |log| ==> Allowed(tag, After(log[..i]), log[i])
  }

  lemma LegalExtends(tag: string, log: seq<Event>, e: Event)
    requires Legal(tag, log) && Allowed(tag, After(log), e)
    ensures Legal(tag, log + [e]) && After(log + [e]) == Next(After(log), e)
  {
    var longer := log + [e];
    assert longer[..|log|] == log;
    forall i | 0 <= i < |longer|
      ensures Allowed(tag, After(longer[..i]), longer[i])
    {
      if i < |log| {
        assert longer[..i] == log[..i];
      }
    }
  }

  lemma Steps(log: seq<Event>, i: nat)
    requires i < |log|
    ensures After(log[..i + 1]) == Next(After(log[..i]), log[i])
  {
    assert log[..i + 1][..i] == log[..i];
  }

  // ---- What every prefix of a legal log, that is every crash, leaves behind ----

  lemma {:induction false} PostsCount(log: seq<Event>, i: nat, j: nat)
    requires i < j <= |log| && log[i] == Posted
    ensures After(log[..j]).posts > 0
    decreases j
  {
    Steps(log, j - 1);
    if i < j - 1 {
      PostsCount(log, i, j - 1);
    }
  }

  /** The create request is sent at most once, however often the list is walked again. */
  lemma CreateIsSentOnce(tag: string, log: seq<Event>, i: nat, j: nat)
    requires Legal(tag, log) && i < j < |log| && log[i] == Posted
    ensures log[j] != Posted
  {
    PostsCount(log, i, j);
    assert Allowed(tag, After(log[..j]), log[j]);
  }

  // A request that was sent is on record, and an identity that was learned is not learned again.
  predicate OnRecord(p: Past) {
    p.posts > 0 ==> p.durable.Some? && p.durable.value.attempted
  }

  lemma StepKeepsRecord(tag: string, p: Past, e: Event)
    requires OnRecord(p) && Allowed(tag, p, e)
    ensures OnRecord(Next(p, e)) && (p.learned.Some? ==> Next(p, e).learned == p.learned)
  {
  }

  lemma {:induction false} AlwaysOnRecord(tag: string, log: seq<Event>, j: nat)
    requires Legal(tag, log) && j <= |log|
    ensures OnRecord(After(log[..j]))
  {
    if j > 0 {
      AlwaysOnRecord(tag, log, j - 1);
      Steps(log, j - 1);
      StepKeepsRecord(tag, After(log[..j - 1]), log[j - 1]);
    }
  }

  /** From the create request on, a crash at any point finds a receipt that says it was attempted. */
  lemma IntentIsDurable(tag: string, log: seq<Event>, i: nat, j: nat)
    requires Legal(tag, log) && i < j <= |log| && log[i] == Posted
    ensures After(log[..j]).durable.Some? && After(log[..j]).durable.value.attempted
  {
    PostsCount(log, i, j);
    AlwaysOnRecord(tag, log, j);
  }

  lemma LearnedOnce(tag: string, log: seq<Event>, j: nat)
    requires Legal(tag, log) && j < |log|
    ensures After(log[..j]).learned.Some? ==> After(log[..j + 1]).learned == After(log[..j]).learned
  {
    AlwaysOnRecord(tag, log, j);
    Steps(log, j);
    StepKeepsRecord(tag, After(log[..j]), log[j]);
  }

  lemma LearnedNow(log: seq<Event>, i: nat)
    requires i < |log| && log[i].Learned?
    ensures After(log[..i + 1]).learned == Some(log[i].id)
  {
    Steps(log, i);
  }

  lemma {:induction false} LearnedStays(tag: string, log: seq<Event>, i: nat, j: nat)
    requires Legal(tag, log) && i < j <= |log| && log[i].Learned?
    ensures After(log[..j]).learned == Some(log[i].id)
    decreases j
  {
    if i == j - 1 {
      LearnedNow(log, i);
    } else {
      LearnedStays(tag, log, i, j - 1);
      LearnedOnce(tag, log, j - 1);
    }
  }

  /** The identity of the response is durable before anything is read again. */
  lemma IdentityBeforeReads(tag: string, log: seq<Event>, i: nat, j: nat)
    requires Legal(tag, log) && i < j < |log| && log[i].Learned? && (log[j].Read? || log[j].Surveyed?)
    ensures After(log[..j]).durable.Some? && After(log[..j]).durable.value.releaseId == Some(log[i].id)
  {
    LearnedStays(tag, log, i, j);
    assert Allowed(tag, After(log[..j]), log[j]);
  }

  // Where a durable receipt, an identity and a survey come from.
  lemma {:induction false} Origins(log: seq<Event>, j: nat)
    requires j <= |log|
    ensures After(log[..j]).durable.Some? ==> exists i :: 0 <= i < j && log[i] == Wrote(After(log[..j]).durable.value)
    ensures After(log[..j]).learned.Some? ==> exists i :: 0 <= i < j && log[i] == Learned(After(log[..j]).learned.value)
    ensures After(log[..j]).survey.Some? ==>
              exists i :: 0 <= i < j && log[i] == Surveyed(After(log[..j]).survey.value) && forall x :: i < x < j ==> log[x] != Posted
  {
    if j > 0 {
      Origins(log, j - 1);
      Steps(log, j - 1);
      if After(log[..j]).survey.Some? && !log[j - 1].Surveyed? {
        var i :| 0 <= i < j - 1 && log[i] == Surveyed(After(log[..j - 1]).survey.value)
                 && forall x :: i < x < j - 1 ==> log[x] != Posted;
      }
    }
  }

  // A durable `reserved` was written behind a survey that followed the request.
  lemma ReservedWasSurveyed(tag: string, log: seq<Event>, w: nat, id: int) returns (k: nat, l: nat)
    requires Legal(tag, log) && w < |log| && log[w].Wrote?
    requires log[w].record.status == Reserved && log[w].record.releaseId == Some(id)
    ensures k < w && log[k].Surveyed? && SoleDraft(log[k].releases, tag, id)
    ensures l < w && log[l] == Learned(id)
    ensures forall x :: k < x < w ==> log[x] != Posted
  {
    assert Allowed(tag, After(log[..w]), log[w]);
    Origins(log, w);
    l :| 0 <= l < w && log[l] == Learned(id);
    k :| 0 <= k < w && log[k] == Surveyed(After(log[..w]).survey.value) && forall x :: k < x < w ==> log[x] != Posted;
  }

  lemma ReservedHasIdentity(tag: string, log: seq<Event>, w: nat)
    requires Legal(tag, log) && w < |log| && log[w].Wrote? && log[w].record.status == Reserved
    ensures log[w].record.releaseId.Some?
  {
    assert Allowed(tag, After(log[..w]), log[w]);
  }

  lemma PostedBeforeLearned(tag: string, log: seq<Event>, l: nat) returns (p: nat)
    requires Legal(tag, log) && l < |log| && log[l].Learned?
    ensures p < l && log[p] == Posted
  {
    assert Allowed(tag, After(log[..l]), log[l]);
    p := PostBefore(log, l);
  }

  lemma WriteBefore(log: seq<Event>, j: nat) returns (w: nat)
    requires j <= |log| && After(log[..j]).durable.Some?
    ensures w < j && log[w] == Wrote(After(log[..j]).durable.value)
  {
    Origins(log, j);
    w :| 0 <= w < j && log[w] == Wrote(After(log[..j]).durable.value);
  }

  /**
   A receipt found in state `reserved` names the identity the create request was answered with, and a
   later complete list of the repository held exactly that draft under the tag.
   */
  lemma ReservedIsGenuine(tag: string, log: seq<Event>, j: nat) returns (p: nat, l: nat, k: nat)
    requires Legal(tag, log) && j <= |log|
    requires After(log[..j]).durable.Some? && After(log[..j]).durable.value.status == Reserved
    ensures After(log[..j]).durable.value.releaseId.Some?
    ensures l < j && log[l] == Learned(After(log[..j]).durable.value.releaseId.value)
    ensures p < k < j && log[p] == Posted && log[k].Surveyed?
    ensures SoleDraft(log[k].releases, tag, After(log[..j]).durable.value.releaseId.value)
  {
    var w := WriteBefore(log, j);
    ReservedHasIdentity(tag, log, w);
    k, l := ReservedWasSurveyed(tag, log, w, log[w].record.releaseId.value);
    p := PostedBeforeLearned(tag, log, l);
  }

  lemma {:induction false} PostBefore(log: seq<Event>, j: nat) returns (i: nat)
    requires j <= |log| && After(log[..j]).posts > 0
    ensures i < j && log[i] == Posted
  {
    Steps(log, j - 1);
    if log[j - 1] == Posted {
      i := j - 1;
    } else {
      i := PostBefore(log, j - 1);
    }
  }

  /** The create request follows a complete list of the repository without a release of the tag. */
  lemma PostFollowsProvenAbsence(tag: string, log: seq<Event>, j: nat)
    requires Legal(tag, log) && j < |log| && log[j] == Posted
    ensures exists i :: 0 <= i < j && log[i].Surveyed? && forall r :: r in log[i].releases ==> r.tag != tag
  {
    assert Allowed(tag, After(log[..j]), log[j]);
    Origins(log, j);
    var i :| 0 <= i < j && log[i] == Surveyed(After(log[..j]).survey.value);
    MatchingMembers(log[i].releases, tag);
  }

  // ---- A whole log, and what each of its steps stands on ----

  // The last record written before that moment: what a crash there leaves on disk.
  ghost predicate LastWritten(log: seq<Event>, w: nat, j: nat, r: Record) {
    w < j <= |log| && log[w] == Wrote(r) && forall x :: w < x < j ==> !log[x].Wrote?
  }

  // Exactly one release of the list has the tag: this draft.
  ghost predicate SoleOfTag(list: seq<Release>, tag: string, m: nat, id: int) {
    m < |list| && list[m] == Release(id, tag, true) && forall i :: 0 <= i < |list| && i != m ==> list[i].tag != tag
  }

  lemma {:induction false} SoleStands(list: seq<Release>, tag: string, id: int) returns (m: nat)
    requires SoleDraft(list, tag, id)
    ensures SoleOfTag(list, tag, m, id)
  {
    var before, last := list[..|list| - 1], list[|list| - 1];
    if last.tag == tag {
      m := |before|;
      assert Matching(list, tag) == Matching(before, tag) + [last];
      assert Matching(before, tag) == [] && Matching(list, tag)[0] == last;
      MatchingMembers(before, tag);
      forall i | 0 <= i < |before|
        ensures list[i].tag != tag
      {
        assert before[i] in before;
      }
    } else {
      m := SoleStands(before, tag, id);
      assert before[m] == list[m];
      forall i | 0 <= i < |list| && i != m
        ensures list[i].tag != tag
      {
        assert i < |before| ==> before[i] == list[i];
      }
    }
  }

  lemma {:induction false} DurableIsLast(log: seq<Event>, j: nat)
    requires j <= |log| && After(log[..j]).durable.Some?
    ensures exists w :: LastWritten(log, w, j, After(log[..j]).durable.value)
  {
    Steps(log, j - 1);
    if log[j - 1].Wrote? {
      assert LastWritten(log, j - 1, j, log[j - 1].record);
    } else {
      DurableIsLast(log, j - 1);
      var w :| LastWritten(log, w, j - 1, After(log[..j - 1]).durable.value);
      assert LastWritten(log, w, j, After(log[..j]).durable.value);
    }
  }

  lemma {:induction false} WrittenStays(log: seq<Event>, i: nat, j: nat)
    requires i < j <= |log|
    ensures log[i].Wrote? ==> After(log[..j]).durable.Some?
    decreases j
  {
    Steps(log, j - 1);
    if i < j - 1 {
      WrittenStays(log, i, j - 1);
    }
  }

  // The reserved draft: the answer of the request, and afterwards the tag's only release.
  ghost predicate Genuine(tag: string, log: seq<Event>, j: nat, id: int, p: nat, l: nat, k: nat, m: nat) {
    && p < l && p < k && l < j && k < j <= |log| && log[p] == Posted && log[l] == Learned(id)
    && log[k].Surveyed? && SoleOfTag(log[k].releases, tag, m, id)
  }

  // What each step stands on.
  ghost predicate Founded(tag: string, log: seq<Event>, j: nat)
    requires j < |log|
  {
    match log[j]
    case Posted =>
      && (exists i :: 0 <= i < j && log[i].Surveyed? && forall r :: r in log[i].releases ==> r.tag != tag)
      && (exists w, r :: LastWritten(log, w, j, r) && r.attempted)
      && Posted !in log[..j]
    case Wrote(r) =>
      && (Posted in log[..j] ==> r.attempted)
      && (r.status == Reserved ==> r.releaseId.Some? && exists p, l, k, m :: Genuine(tag, log, j, r.releaseId.value, p, l, k, m))
    case Learned(_) => Posted in log[..j]
    case _ => forall l :: 0 <= l < j && log[l].Learned? ==>
                exists w, r :: LastWritten(log, w, j, r) && r.releaseId == Some(log[l].id)
  }

  lemma PostIsFounded(tag: string, log: seq<Event>, j: nat)
    requires Legal(tag, log) && j < |log| && log[j] == Posted
    ensures Founded(tag, log, j)
  {
    PostFollowsProvenAbsence(tag, log, j);
    assert Allowed(tag, After(log[..j]), log[j]);
    DurableIsLast(log, j);
    if Posted in log[..j] {
      var i :| 0 <= i < j && log[..j][i] == Posted;
      CreateIsSentOnce(tag, log, i, j);
    }
  }

  lemma WriteIsFounded(tag: string, log: seq<Event>, j: nat)
    requires Legal(tag, log) && j < |log| && log[j].Wrote?
    ensures Founded(tag, log, j)
  {
    assert Allowed(tag, After(log[..j]), log[j]);
    if Posted in log[..j] {
      var i :| 0 <= i < j && log[..j][i] == Posted;
      PostsCount(log, i, j);
    }
    if log[j].record.status == Reserved {
      ReservedIsFounded(tag, log, j);
    }
  }

  lemma ReservedIsFounded(tag: string, log: seq<Event>, j: nat)
    requires Legal(tag, log) && j < |log| && log[j].Wrote? && log[j].record.status == Reserved
    ensures log[j].record.releaseId.Some?
    ensures exists p, l, k, m :: Genuine(tag, log, j, log[j].record.releaseId.value, p, l, k, m)
  {
    ReservedHasIdentity(tag, log, j);
    var id := log[j].record.releaseId.value;
    var k, l := ReservedWasSurveyed(tag, log, j, id);
    var p := PostedBeforeLearned(tag, log, l);
    var m := SoleStands(log[k].releases, tag, id);
    assert Genuine(tag, log, j, id, p, l, k, m);
  }

  lemma ReadIsFounded(tag: string, log: seq<Event>, j: nat)
    requires Legal(tag, log) && j < |log| && (log[j].Read? || log[j].Surveyed?)
    ensures Founded(tag, log, j)
  {
    forall l | 0 <= l < j && log[l].Learned?
      ensures exists w, r :: LastWritten(log, w, j, r) && r.releaseId == Some(log[l].id)
    {
      IdentityBeforeReads(tag, log, l, j);
      DurableIsLast(log, j);
    }
  }

  /** Every step of a legal log stands on the ones before it. */
  lemma LegalIsFounded(tag: string, log: seq<Event>, j: nat)
    requires Legal(tag, log) && j < |log|
    ensures Founded(tag, log, j)
  {
    match log[j]
    case Posted => PostIsFounded(tag, log, j);
    case Wrote(_) => WriteIsFounded(tag, log, j);
    case Learned(_) =>
      var p := PostedBeforeLearned(tag, log, j);
      assert log[..j][p] == Posted;
    case _ => ReadIsFounded(tag, log, j);
  }
}
