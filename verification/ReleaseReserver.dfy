/**
 The reservation as it runs: the two page walks, the receipt that is replaced as a whole, and the one
 create request between them.
 */
module ReleaseReserver {
  import opened Wrappers
  import opened ReleasePages
  import opened ReleaseRemote
  import opened ReleaseWalks
  import opened ReleaseReservation

  class Reserver {
    const remote: Remote
    const tag: string
    var record: Record
    var receipt: Receipt  // the file on disk
    ghost var log: seq<Event>
    ghost var past: Past

    ghost predicate Traced()
      reads this
    {
      && Legal(tag, log) && past == After(log)
      && (receipt.Holds? ==> past.durable == Some(receipt.record))
      && (!receipt.Holds? ==> past.durable.None?)
      && (receipt.Missing? ==> log == [])
    }

    constructor (remote: Remote, tag: string)
      ensures this.remote == remote && this.tag == tag && receipt == Missing && log == [] && Traced()
    {
      this.remote, this.tag := remote, tag;
      record, receipt, log, past := Record(Failed, false, None), Missing, [], Past(None, None, 0, None);
    }

    ghost method Note(e: Event)
      requires Traced() && Allowed(tag, past, e) && !e.Wrote? && !receipt.Missing?
      modifies this`log, this`past
      ensures Traced() && log == old(log) + [e] && past == Next(old(past), e)
    {
      LegalExtends(tag, log, e);
      log, past := log + [e], Next(past, e);
    }

    /** Replaces the receipt as a whole. A failed replacement may have taken place. */
    method Persist() returns (ok: bool)
      requires Traced() && !receipt.Missing? && Allowed(tag, past, Wrote(record))
      modifies this`receipt, this`log, this`past
      ensures Traced() && !receipt.Missing?
      ensures ok ==> receipt == Holds(record) && past == Next(old(past), Wrote(record))
      ensures !ok ==> past == old(past) || past == Next(old(past), Wrote(record))
      ensures old(log) <= log && (remote.quiet ==> ok)
    {
      ok := remote.Chance();
      var effect: bool := *;
      if ok || effect {
        LegalExtends(tag, log, Wrote(record));
        receipt, log, past := Holds(record), log + [Wrote(record)], Next(past, Wrote(record));
      }
    }

    /** Reads the tag; it must still peel to the expected commit. */
    method CheckTag() returns (ok: bool)
      requires Traced() && !receipt.Missing? && IdentityKept(past)
      modifies this`log, this`past
      ensures Traced() && past == old(past) && old(log) <= log && (remote.quiet ==> ok)
    {
      Note(Read);
      ok := remote.Chance();
    }

    /** The first walk: succeeds with a complete list, as it stands, that does not hold the tag. */
    method Discover() returns (ok: bool)
      requires Traced() && !receipt.Missing? && IdentityKept(past)
      modifies this`log, this`past, remote
      ensures Traced() && old(log) <= log
      ensures ok ==> Matching(remote.releases, tag) == [] && past == old(past).(survey := Some(remote.releases))
      ensures !ok ==> past == old(past)
      ensures remote.quiet ==> remote.releases == old(remote.releases)
      ensures (remote.quiet && WellKept(remote.releases) && Matching(remote.releases, tag) == []) ==> ok
    {
      Note(Read);
      ok := FindNoTag(remote, tag);
      if ok {
        Note(Surveyed(remote.releases));
      }
    }

    /** The second walk: exactly the answered draft has the tag. */
    method Confirm(value: Release) returns (ok: bool)
      requires Traced() && !receipt.Missing? && IdentityKept(past) && value.tag == tag && value.draft
      modifies this`log, this`past, remote
      ensures Traced() && old(log) <= log
      ensures ok ==> SoleDraft(remote.releases, tag, value.id) && past == old(past).(survey := Some(remote.releases))
      ensures !ok ==> past == old(past)
      ensures remote.quiet ==> remote.releases == old(remote.releases)
      ensures (remote.quiet && WellKept(remote.releases) && OnlyDraft(remote.releases, value)
               && SoleDraft(remote.releases, tag, value.id)) ==> ok
    {
      Note(Read);
      ok := FindSoleDraft(remote, value);
      if ok {
        Note(Surveyed(remote.releases));
      }
    }

    // A record that may be written as long as nothing is reserved.
    predicate Writable()
      reads this
    {
      receipt != Missing && record.status == CreateOutcomeUnknown && record.attempted
    }

    /** The response's identity is made durable before anything else is read. */
    method Learn(id: int) returns (ok: bool)
      requires Traced() && Writable() && record.releaseId.None? && past.posts == 1 && past.learned.None?
      modifies this`record, this`receipt, this`log, this`past
      ensures Traced() && Writable() && old(log) <= log
      ensures past.posts == 1 && past.learned == Some(id) && record == old(record).(releaseId := Some(id))
      ensures ok ==> IdentityKept(past)
      ensures remote.quiet ==> ok
    {
      Note(Learned(id));
      record := record.(releaseId := Some(id));
      ok := Persist();
    }

    /** The one create request. Any answer but a matching draft leaves its outcome unknown. */
    method CreateDraft(newId: int) returns (value: Option<Release>)
      requires Traced() && Writable() && record.releaseId.None? && past.learned.None? && Allowed(tag, past, Posted)
      modifies this`log, this`past, remote
      ensures Traced() && Writable() && old(log) <= log && past.posts == 1 && past.learned.None?
      ensures value.Some? ==> value.value.id > 0 && value.value.tag == tag && value.value.draft
      ensures (remote.quiet && newId > 0) ==> value == Some(Release(newId, tag, true))
                                              && remote.releases == [value.value] + old(remote.releases)
    {
      Note(Posted);
      value := remote.Create(tag, newId);
      if value.Some? && (value.value.id <= 0 || value.value.tag != tag || !value.value.draft) {
        value := None;
      }
    }

    /** The tag still holds, and is free in a complete list. */
    method Look() returns (ok: bool)
      requires Traced() && !receipt.Missing? && past.posts == 0 && past.learned.None?
      modifies this`log, this`past, remote
      ensures Traced() && old(log) <= log && past == old(past).(survey := past.survey)
      ensures ok ==> past.survey.Some? && Matching(past.survey.value, tag) == []
      ensures remote.quiet ==> remote.releases == old(remote.releases)
      ensures (remote.quiet && WellKept(remote.releases) && Matching(remote.releases, tag) == []) ==> ok
    {
      ok := CheckTag();
      if ok { ok := Discover(); }
      if ok { ok := CheckTag(); }
    }

    /** The intent to create is durable before the request. */
    method Intend() returns (ok: bool)
      requires Traced() && receipt == Holds(Record(Failed, false, None)) && past.posts == 0 && past.learned.None?
      modifies this, remote
      ensures Traced() && !receipt.Missing? && old(log) <= log && Allowed(tag, past, Wrote(record))
      ensures record.status != Reserved
      ensures ok ==> Writable() && record.releaseId.None? && past.learned.None? && Allowed(tag, past, Posted)
      ensures remote.quiet ==> remote.releases == old(remote.releases)
      ensures (remote.quiet && WellKept(remote.releases) && Matching(remote.releases, tag) == []) ==> ok
    {
      record := Record(Checking, false, None);
      ok := Look();
      if ok {
        record := Record(CreateOutcomeUnknown, true, None);
        ok := Persist();
      }
    }

    /** The draft is reserved once it is the tag's sole release in a complete list and the tag still holds. */
    method Settle(value: Release) returns (ok: bool)
      requires Traced() && Writable() && IdentityKept(past) && past.posts == 1
      requires past.learned == Some(value.id) && value.tag == tag && value.draft && record.releaseId == Some(value.id)
      modifies this, remote
      ensures Traced() && !receipt.Missing? && old(log) <= log && Allowed(tag, past, Wrote(record))
      ensures record == Record(if ok then Reserved else CreateOutcomeUnknown, true, Some(value.id))
      ensures (remote.quiet && old(WellKept(remote.releases) && OnlyDraft(remote.releases, value)
               && SoleDraft(remote.releases, tag, value.id))) ==> ok
    {
      ok := Confirm(value);
      if ok { ok := CheckTag(); }
      if ok {
        record := record.(status := Reserved);
      }
    }

    /** One reservation attempt; the receipt is left for the caller to write a last time. */
    method Reserve(newId: int) returns (ok: bool)
      requires Traced() && receipt == Holds(Record(Failed, false, None)) && past.posts == 0 && past.learned.None?
      modifies this, remote
      ensures Traced() && !receipt.Missing? && old(log) <= log && Allowed(tag, past, Wrote(record))
      ensures ok <==> record.status == Reserved
      ensures old(Expected(remote.releases, newId)) ==> ok
    {
      ghost var before := remote.releases;
      ok := Intend();
      if !ok {
        return;
      }
      var value := CreateDraft(newId);
      if value.None? {
        return false;
      }
      ok := Learn(value.value.id);
      if !ok {
        return;
      }
      if Expected(before, newId) {
        NewDraftIsSole(before, value.value);
      }
      ok := Settle(value.value);
    }

    // Nothing fails, nobody interferes, and the tag is free in a list that can be read to its end.
    ghost predicate Expected(list: seq<Release>, newId: int) {
      && remote.quiet && WellKept(list) && |list| + 1 < 1000 && Matching(list, tag) == []
      && newId > 0 && newId !in Ids(list)
    }

    // Over all invocations so far every step is founded, and the file holds what was written last.
    ghost predicate Sound()
      reads this
    {
      && (forall j :: 0 <= j < |log| ==> Founded(tag, log, j))
      && (if receipt.Holds? then exists w :: LastWritten(log, w, |log|, receipt.record)
          else forall j :: 0 <= j < |log| ==> !log[j].Wrote?)
    }

    lemma TracedIsSound()
      requires Traced()
      ensures Sound()
    {
      forall j | 0 <= j < |log|
        ensures Founded(tag, log, j)
      {
        LegalIsFounded(tag, log, j);
      }
      assert log[..|log|] == log;
      if receipt.Holds? {
        DurableIsLast(log, |log|);
      } else {
        forall j | 0 <= j < |log|
          ensures !log[j].Wrote?
        {
          WrittenStays(log, j, |log|);
        }
      }
    }

    /** One invocation: only the one that creates the receipt goes on. However often, one request is sent. */
    method Invoke(newId: int) returns (ok: bool)
      requires Traced()
      modifies this, remote
      ensures Traced() && old(log) <= log && !receipt.Missing? && Sound()
      ensures !old(receipt).Missing? ==> !ok && log == old(log) && receipt == old(receipt)
      ensures ok ==> receipt.Holds? && receipt.record.status == Reserved
      ensures old(receipt).Missing? && old(Expected(remote.releases, newId)) ==> ok
    {
      ok := false;
      if receipt.Missing? {
        ok := InvokeFirst(newId);
      }
      TracedIsSound();
    }

    /** The invocation that creates the receipt, which it writes last of all. */
    method InvokeFirst(newId: int) returns (ok: bool)
      requires Traced() && receipt.Missing?
      modifies this, remote
      ensures Traced() && old(log) <= log && !receipt.Missing?
      ensures ok ==> receipt.Holds? && receipt.record.status == Reserved
      ensures old(Expected(remote.releases, newId)) ==> ok
    {
      receipt, record := Empty, Record(Failed, false, None);
      ok := Persist();
      if !ok {
        return;
      }
      ok := Reserve(newId);
      var kept := Persist();
      ok := ok && kept;
    }
  }
}
