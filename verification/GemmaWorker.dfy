/**
 The worker's single pass over a claimed item, and the requester's polling loop, each running among any
 number of other workers: between two of their operations the ledger may take any further enabled events.
 */
module GemmaWorker {
  import opened Wrappers
  import opened GemmaEnvelope
  import opened GemmaLedger
  import opened GemmaSafety
  import opened GemmaProgress
  import opened GemmaReplies

  // Events made under the authority of a lease.
  predicate Touches(e: Event, t: Token) {
    match e
    case Claim(_, u, _) => u == t
    case Start(_, u) => u == t
    case Renew(_, u, _) => u == t
    case Verify(_, u) => u == t
    case Send(_, u, _, _) => u == t
    case Complete(_, u, _) => u == t
    case Fail(_, u) => u == t
    case Block(_, u) => u == t
    case _ => false
  }

  // What the holder of a token may rely on while others act: letters and acknowledgements stay, and
  // nobody else confirms or sends under its token.
  ghost predicate Stable(l: Ledger, l': Ledger, t: Token) {
    && KeepsHeads(l, l')
    && (forall id :: id in l.items && l.items[id].acked ==> l'.items[id].acked)
    && l.tokens <= l'.tokens && l.verified <= l'.verified
    && (t in l.tokens ==> (t in l'.sent <==> t in l.sent) && (t in l.sent ==> l'.sent[t] == l.sent[t]))
  }

  lemma ApplyIsStable(r: Rules, l: Ledger, e: Event, t: Token)
    requires Apply(r, l, e).Some? && !Touches(e, t)
    ensures Stable(l, Apply(r, l, e).value, t)
  {
    ApplyKeepsHeads(r, l, e);
    ApplyKeepsAcks(r, l, e);
  }

  lemma ApplyKeepsHeads(r: Rules, l: Ledger, e: Event)
    requires Apply(r, l, e).Some?
    ensures KeepsHeads(l, Apply(r, l, e).value)
  {
    if e.HandOff? || e.ReopenClosed? {
      NotedKeepsHead(l.items[e.item], e.note);
    } else {
      RestKeepsHeads(r, l, e);
    }
  }

  lemma RestKeepsHeads(r: Rules, l: Ledger, e: Event)
    requires Apply(r, l, e).Some? && !e.HandOff? && !e.ReopenClosed?
    ensures KeepsHeads(l, Apply(r, l, e).value)
  {
    RestKeepsTexts(r, l, e);
  }

  function TextOf(i: Item): (string, string, string) {
    (i.from, i.title, i.instructions)
  }

  lemma RestKeepsTexts(r: Rules, l: Ledger, e: Event)
    requires Apply(r, l, e).Some? && !e.HandOff? && !e.ReopenClosed?
    ensures var l' := Apply(r, l, e).value;
            && (forall id :: id in l.items ==> id in l'.items)
            && (forall id :: id in l.items ==> TextOf(l'.items[id]) == TextOf(l.items[id]))
  {
  }

  lemma AckStays(r: Rules, l: Ledger, e: Event, id: string)
    requires Apply(r, l, e).Some? && id in l.items && l.items[id].acked
    ensures id in Apply(r, l, e).value.items && Apply(r, l, e).value.items[id].acked
  {
  }

  lemma ApplyKeepsAcks(r: Rules, l: Ledger, e: Event)
    requires Apply(r, l, e).Some?
    ensures forall id :: id in l.items && l.items[id].acked ==>
              id in Apply(r, l, e).value.items && Apply(r, l, e).value.items[id].acked
  {
    forall id | id in l.items && l.items[id].acked
      ensures id in Apply(r, l, e).value.items && Apply(r, l, e).value.items[id].acked
    {
      AckStays(r, l, e, id);
    }
  }

  lemma RenewIsStable(r: Rules, l: Ledger, id: string, t: Token, ttl: nat)
    requires Apply(r, l, Renew(id, t, ttl)).Some?
    ensures Stable(l, Apply(r, l, Renew(id, t, ttl)).value, t)
  {
    ApplyKeepsHeads(r, l, Renew(id, t, ttl));
    ApplyKeepsAcks(r, l, Renew(id, t, ttl));
  }

  lemma StableTransitive(a: Ledger, b: Ledger, c: Ledger, t: Token)
    requires Stable(a, b, t) && Stable(b, c, t)
    ensures Stable(a, c, t)
  {
    KeepsHeadsTransitive(a, b, c);
  }

  lemma {:induction false} OthersLeaveStable(r: Rules, events: seq<Event>, i: nat, j: nat, t: Token)
    requires History(r, events) && i <= j <= |events|
    requires forall k :: i <= k < j ==> !Touches(events[k], t)
    ensures Stable(After(r, events[..i]), After(r, events[..j]), t)
    decreases j
  {
    if i < j {
      OthersLeaveStable(r, events, i, j - 1, t);
      AfterNext(r, events, j - 1);
      ApplyIsStable(r, After(r, events[..j - 1]), events[j - 1], t);
      StableTransitive(After(r, events[..i]), After(r, events[..j - 1]), After(r, events[..j]), t);
    }
  }

  // How far a worker's own events have come; anything out of its order is wrong.
  datatype Stage = Idle | Held | Started | Verified | Sent | Over | Wrong

  function Advance(s: Stage, e: Event, id: string): Stage {
    match e
    case Claim(i, _, _) => if s == Idle && i == id then Held else Wrong
    case Start(i, _) => if s == Held && i == id then Started else Wrong
    case Renew(i, _, _) => if s == Started && i == id then Started else Wrong
    case Verify(i, _) => if s == Started && i == id then Verified else Wrong
    case Send(i, _, _, _) => if s == Verified && i == id then Sent else Wrong
    case Complete(i, _, _) => if s == Sent && i == id then Over else Wrong
    case Fail(i, _) => if s != Idle && s != Wrong && i == id then Over else Wrong
    case Block(i, _) => if (s == Started || s == Sent) && i == id then Over else Wrong
    case _ => s
  }

  // The stage of a token, from the events made under it.
  function StageOf(events: seq<Event>, id: string, t: Token): Stage {
    if events == [] then Idle
    else
      var before, e := StageOf(events[..|events| - 1], id, t), events[|events| - 1];
      if Touches(e, t) then Advance(before, e, id) else before
  }

  lemma StageNext(events: seq<Event>, e: Event, id: string, t: Token)
    ensures StageOf(events + [e], id, t) == if Touches(e, t) then Advance(StageOf(events, id, t), e, id) else StageOf(events, id, t)
  {
    assert (events + [e])[..|events|] == events;
  }

  // A token that was never issued was never used.
  lemma {:induction false} UnissuedIsIdle(r: Rules, events: seq<Event>, id: string, t: Token)
    requires History(r, events) && t !in After(r, events).tokens
    ensures StageOf(events, id, t) == Idle
  {
    if events != [] {
      var n := |events| - 1;
      var before := events[..n];
      assert events[..n + 1] == events;
      forall i | 0 <= i < n
        ensures EnabledAt(r, before, i)
      {
        assert EnabledAt(r, events, i) && before[..i] == events[..i];
      }
      AfterNext(r, events, n);
      HistoryKeepsInv(r, events, n);
      UseIsIssued(r, After(r, before), events[n], t);
      UnissuedIsIdle(r, before, id, t);
    }
  }

  lemma UseIsIssued(r: Rules, l: Ledger, e: Event, t: Token)
    requires Inv(l) && Enabled(r, l, e)
    ensures l.tokens <= Apply(r, l, e).value.tokens
    ensures Touches(e, t) ==> t in Apply(r, l, e).value.tokens
  {
  }

  // A pass that parked its item names the reply that it had published, if it had.
  datatype Pass =
    | NoWork | Lost | Retry | Unparked
    | Parked(item: string, token: Token, beside: Option<string>)
    | Done(item: string, token: Token, reply: string)

  // The answer to a completion: done, not known to be done, or withheld because the worker may not answer.
  datatype Completion = Accepted | Unfinished | Withheld

  class Fabric {
    const rules: Rules
    const calm: bool  // nobody else acts, and nothing fails that the ledger grants
    var ledger: Ledger
    ghost var events: seq<Event>

    ghost predicate Traced()
      reads this
    {
      History(rules, events) && ledger == After(rules, events)
    }

    ghost function StageNow(id: string, t: Token): Stage
      reads this
    {
      StageOf(events, id, t)
    }

    constructor (rules: Rules, calm: bool)
      ensures Traced() && events == [] && this.rules == rules && this.calm == calm
    {
      this.rules, this.calm := rules, calm;
      this.ledger := EmptyLedger();
      this.events := [];
    }

    /** Any number of others act, none of them under the token. */
    method Interfere(token: Token)
      requires Traced()
      modifies this
      ensures Traced() && old(events) <= events
      ensures forall id :: StageNow(id, token) == old(StageNow(id, token))
      ensures forall k :: |old(events)| <= k < |events| ==> !Touches(events[k], token)
      ensures calm ==> ledger == old(ledger)
    {
      var n: int := *;
      n := if calm || n < 0 then 0 else n;
      for i := 0 to n
        invariant calm ==> ledger == old(ledger)
        invariant Traced() && old(events) <= events
        invariant forall id :: StageNow(id, token) == old(StageNow(id, token))
        invariant forall k :: |old(events)| <= k < |events| ==> !Touches(events[k], token)
      {
        var e: Event := *;
        if !Touches(e, token) && Enabled(rules, ledger, e) {
          HistoryExtends(rules, events, e);
          forall id
            ensures StageOf(events + [e], id, token) == StageOf(events, id, token)
          {
            StageNext(events, e, id, token);
          }
          ledger, events := Apply(rules, ledger, e).value, events + [e];
        }
      }
    }

    method Pause(token: Token)
      requires Traced()
      modifies this
      ensures Traced() && old(events) <= events && Stable(old(ledger), ledger, token)
      ensures forall id :: StageNow(id, token) == old(StageNow(id, token))
      ensures forall k :: |old(events)| <= k < |events| ==> !Touches(events[k], token)
      ensures calm ==> ledger == old(ledger)
    {
      ghost var before := |events|;
      Interfere(token);
      assert events[..before] == old(events) && events[..|events|] == events;
      OthersLeaveStable(rules, events, before, |events|, token);
    }

    method Chance() returns (b: bool)
      ensures calm ==> b
    {
      b := *;
      b := b || calm;
    }

    /** One ledger operation. It may be refused, or fail with its effect unknown. */
    method Do(e: Event, item: string, token: Token) returns (ok: bool)
      requires Traced() && Disciplined(ledger, e)
      modifies this
      ensures Traced() && old(events) <= events
      ensures events == old(events) ==> ledger == old(ledger) && !ok
      ensures events != old(events) ==> events == old(events) + [e] && Apply(rules, old(ledger), e) == Some(ledger)
      ensures StageNow(item, token) == if events == old(events) || !Touches(e, token) then old(StageNow(item, token))
                                       else Advance(old(StageNow(item, token)), e, item)
      ensures calm ==> (ok <==> Apply(rules, old(ledger), e).Some?)
    {
      ok := Chance();
      var effect := *;
      var next := Apply(rules, ledger, e);
      if next.None? {
        return false;
      }
      if ok || effect {
        StageNext(events, e, item, token);
        HistoryExtends(rules, events, e);
        ledger, events := next.value, events + [e];
      }
    }

    method NewToken() returns (t: Token)
      ensures t !in ledger.tokens
    {
      t := 0;
      var rest := ledger.tokens;
      while rest != {}
        invariant rest <= ledger.tokens
        invariant forall u :: u in ledger.tokens && u !in rest ==> u < t
        decreases rest
      {
        var u :| u in rest;
        rest := rest - {u};
        t := if u < t then t else u + 1;
      }
    }

    // Since a moment nothing was done under the token but the one event.
    ghost predicate OnlyOwn(since: nat, token: Token, e: Event)
      reads this
    {
      forall k :: since <= k < |events| && Touches(events[k], token) ==> events[k] == e
    }

    /** A failed attempt: the only thing done under the token is to fail the item. */
    method GiveBack(item: string, token: Token) returns (out: Pass)
      requires Traced() && StageNow(item, token) != Idle && StageNow(item, token) != Wrong
      modifies this
      ensures StageNow(item, token) == Over || StageNow(item, token) == old(StageNow(item, token))
      ensures Traced() && old(events) <= events && out == Retry
      ensures OnlyOwn(|old(events)|, token, Fail(item, token))
    {
      Interfere(token);
      var ok := Do(Fail(item, token), item, token);
      out := Retry;
    }

    // The last event blocked the item, which its requester is told; a published reply stays beside it.
    ghost predicate BlockedBy(p: Pass)
      requires p.Parked?
      reads this
    {
      && ShowsBlocked(ledger, p.item) && events != [] && events[|events| - 1] == Block(p.item, p.token)
      && (p.beside.Some? ==> Correlates(ledger, p.item, p.token, p.beside.value))
    }

    method PauseBeside(item: string, token: Token, reply: Option<string>)
      requires Traced() && token in ledger.tokens && (reply.Some? ==> Correlates(ledger, item, token, reply.value))
      modifies this
      ensures Traced() && old(events) <= events && StageNow(item, token) == old(StageNow(item, token))
      ensures forall k :: |old(events)| <= k < |events| ==> !Touches(events[k], token)
      ensures HeldForGemma(ledger) && (reply.Some? ==> Correlates(ledger, item, token, reply.value))
    {
      ghost var before := ledger;
      Pause(token);
      if reply.Some? {
        CorrelatesStays(before, ledger, item, token, reply.value);
      }
      AlwaysHeld(rules, events, |events|);
      assert events[..|events|] == events;
    }

    /** A permanent refusal: the only thing done under the token is to block the item. */
    method Park(item: string, token: Token, reply: Option<string>) returns (out: Pass)
      requires Traced() && (StageNow(item, token) == Started || StageNow(item, token) == Sent) && token in ledger.tokens
      requires reply.Some? ==> Correlates(ledger, item, token, reply.value)
      modifies this
      ensures StageNow(item, token) == Over || StageNow(item, token) == old(StageNow(item, token))
      ensures Traced() && old(events) <= events && OnlyOwn(|old(events)|, token, Block(item, token))
      ensures out == Unparked || (out == Parked(item, token, reply) && BlockedBy(out) && StageNow(item, token) == Over)
    {
      PauseBeside(item, token, reply);
      ghost var paused := ledger;
      var ok := Do(Block(item, token), item, token);
      if !ok {
        return Unparked;
      }
      BlockLeaves(rules, paused, item, token, reply);
      out := Parked(item, token, reply);
    }

    // The lease was renewed at each of these moments, in order, and nothing else was done under the token.
    ghost predicate Renewals(since: nat, at: seq<nat>, item: string, token: Token, ttl: nat)
      reads this
    {
      && OnlyOwn(since, token, Renew(item, token, ttl))
      && (forall i :: 0 <= i < |at| ==> since <= at[i] < |events| && events[at[i]] == Renew(item, token, ttl))
      && (forall i, j :: 0 <= i < j < |at| ==> at[i] < at[j])
    }

    method RenewLease(item: string, token: Token, ttl: nat, ghost newId: string) returns (renewed: bool)
      requires Traced() && StageNow(item, token) == Started
      modifies this
      ensures Traced() && Stable(old(ledger), ledger, token) && StageNow(item, token) == Started
      ensures events == old(events) + [Renew(item, token, ttl)] || (events == old(events) && !renewed)
      ensures calm && ttl > 0 && old(Ready(rules, ledger, item, token, newId)) ==> renewed && Ready(rules, ledger, item, token, newId)
    {
      ghost var next := Apply(rules, ledger, Renew(item, token, ttl));
      if next.Some? {
        RenewIsStable(rules, ledger, item, token, ttl);
      }
      if ttl > 0 && Ready(rules, ledger, item, token, newId) {
        StaysReady(rules, ledger, Renew(item, token, ttl), item, token, newId);
      }
      renewed := Do(Renew(item, token, ttl), item, token);
    }

    /** One tick of an inference: others act, the worker proves that it lives, and renews its lease. */
    method RenewOnce(item: string, token: Token, ttl: nat, ghost newId: string) returns (renewed: bool)
      requires Traced() && token in ledger.tokens && StageNow(item, token) == Started
      modifies this
      ensures Traced() && old(events) <= events && Stable(old(ledger), ledger, token) && StageNow(item, token) == Started
      ensures OnlyOwn(|old(events)|, token, Renew(item, token, ttl))
      ensures renewed ==> |events| > |old(events)| && events[|events| - 1] == Renew(item, token, ttl)
      ensures calm && ttl > 0 && old(Ready(rules, ledger, item, token, newId)) ==> renewed && Ready(rules, ledger, item, token, newId)
    {
      Pause(token);
      var heartbeat := Chance();
      if !heartbeat {
        return false;
      }
      ghost var paused := ledger;
      renewed := RenewLease(item, token, ttl, newId);
      StableTransitive(old(ledger), paused, ledger, token);
    }

    /** The lease is renewed on every tick of an inference; the first refusal loses it. */
    method MaintainLease(item: string, token: Token, ttl: nat, ticks: nat, ghost newId: string)
        returns (lost: bool, ghost at: seq<nat>)
      requires Traced() && token in ledger.tokens && StageNow(item, token) == Started
      modifies this
      ensures Traced() && old(events) <= events && Stable(old(ledger), ledger, token) && StageNow(item, token) == Started
      ensures Renewals(|old(events)|, at, item, token, ttl) && (!lost ==> |at| == ticks)
      ensures calm && ttl > 0 && old(Ready(rules, ledger, item, token, newId)) ==> !lost && Ready(rules, ledger, item, token, newId)
    {
      lost, at := false, [];
      for i := 0 to ticks
        invariant Traced() && old(events) <= events && Stable(old(ledger), ledger, token) && StageNow(item, token) == Started
        invariant Renewals(|old(events)|, at, item, token, ttl) && |at| == i
        invariant calm && ttl > 0 && old(Ready(rules, ledger, item, token, newId)) ==> Ready(rules, ledger, item, token, newId)
      {
        ghost var before := ledger;
        var renewed := RenewOnce(item, token, ttl, newId);
        StableTransitive(old(ledger), before, ledger, token);
        if !renewed {
          return true, at;
        }
        at := at + [|events| - 1];
      }
    }

    /** Sends the trimmed draft once, unless nobody is there to read it. */
    method SendDraft(item: string, token: Token, draft: string, newId: string) returns (sent: bool)
      requires Traced() && item in ledger.items && ledger.items[item].acked && Trim(draft) != ""
      requires (item, token) in ledger.verified && token in ledger.tokens && token !in ledger.sent
      requires StageNow(item, token) == Verified
      modifies this
      ensures Traced() && old(events) <= events
      ensures StageNow(item, token) == Sent || (!sent && StageNow(item, token) == Verified)
      ensures sent ==> token in ledger.tokens && token in ledger.sent && item in ledger.items && Says(rules, ledger, item, token, draft)
      ensures calm && old(Ready(rules, ledger, item, token, newId)) ==>
                sent && Answered(ledger, item, token, newId) && Spells(rules, ledger, item, token, draft)
    {
      if Trim(ledger.items[item].from) == "" {
        return false;
      }
      ghost var before := ledger;
      if Ready(rules, ledger, item, token, newId) {
        SendAnswers(rules, ledger, item, token, Trim(draft), newId);
      }
      sent := Do(Send(item, token, Trim(draft), newId), item, token);
      if sent {
        SendSays(rules, before, item, token, draft, newId);
      }
    }

    /** Sends the draft and reads the published reply back; no outcome means that either failed. */
    method SendAndReadBack(item: string, token: Token, draft: string, newId: string) returns (outcome: Outcome)
      requires Traced() && item in ledger.items && ledger.items[item].acked && Trim(draft) != ""
      requires (item, token) in ledger.verified && token in ledger.tokens && token !in ledger.sent
      requires StageNow(item, token) == Verified
      modifies this
      ensures Traced() && old(events) <= events && (StageNow(item, token) == Verified || StageNow(item, token) == Sent)
      ensures outcome.Ref? ==> StageNow(item, token) == Sent && token in ledger.tokens && Published(ledger, item, token, outcome)
                               && Says(rules, ledger, item, token, draft)
      ensures calm && old(Ready(rules, ledger, item, token, newId)) ==>
                outcome.Ref? && outcome.reply == newId && Fenced(ledger, item, token) && Spells(rules, ledger, item, token, draft)
    {
      var sent := SendDraft(item, token, draft, newId);
      if !sent {
        return NoOutcome;
      }
      ghost var before := ledger;
      Pause(token);
      SaysStays(rules, before, ledger, item, token, draft);
      var readable := Chance();
      outcome := if readable then ReadBack(ledger, item, ledger.sent[token].reply) else NoOutcome;
    }

    /** Completes the item, under the lease, with what was read back, if the service lets the worker answer. */
    method CompleteItem(item: string, token: Token, outcome: Outcome) returns (end: Completion)
      requires Traced() && token in ledger.tokens && outcome.Ref? && Published(ledger, item, token, outcome)
      requires StageNow(item, token) == Sent
      modifies this
      ensures Traced() && old(events) <= events && (StageNow(item, token) == Over || StageNow(item, token) == Sent)
      ensures end == Accepted ==>
                && events != [] && events[|events| - 1] == Complete(item, token, outcome) && StageNow(item, token) == Over
                && Published(ledger, item, token, outcome)
                && ledger.items[item].status == Completed && ledger.items[item].outcome == outcome
      ensures end == Withheld ==>
                && StageNow(item, token) == Sent && token in ledger.tokens && Published(ledger, item, token, outcome)
                && forall k :: |old(events)| <= k < |events| ==> !Touches(events[k], token)
      ensures end == Accepted ==> KeepsReply(old(ledger), ledger, token) && (calm ==> SameLetters(old(ledger), ledger))
      ensures calm && old(Fenced(ledger, item, token)) ==> end == Accepted
    {
      ghost var before := ledger;
      Pause(token);
      CarriedStays(before, ledger, item, outcome.reply);
      var mayAnswer := Chance();
      if !mayAnswer {
        return Withheld;
      }
      ghost var published := ledger;
      var ok := Do(Complete(item, token, outcome), item, token);
      if ok {
        CompleteKeepsPublished(rules, published, item, token, outcome);
        CompleteKeepsLetters(rules, published, item, token, outcome);
        KeepsHeadsTransitive(before, published, ledger);
      }
      end := if ok then Accepted else Unfinished;
    }

    /**
     Publishes the reply, reads it back, and completes the item with what was read. A worker that may not
     answer learns it only now, behind its published reply, and parks the item.
     */
    // Completes the item with a reply that was read back, or gives it back or parks it.
    method FinishWith(item: string, token: Token, ghost draft: string, outcome: Outcome) returns (out: Pass)
      requires Traced() && token in ledger.tokens && outcome.Ref? && Published(ledger, item, token, outcome)
      requires StageNow(item, token) == Sent && Says(rules, ledger, item, token, draft)
      modifies this
      ensures Traced() && old(events) <= events && StageNow(item, token) != Wrong
      ensures out.Done? ==> out == Done(item, token, outcome.reply) && FinishedBy(out) && StageNow(item, token) == Over
                            && Says(rules, ledger, item, token, draft)
      ensures out.Parked? ==> out.item == item && out.token == token && out.beside.Some? && BlockedBy(out) && StageNow(item, token) == Over
      ensures calm && old(Fenced(ledger, item, token) && Spells(rules, ledger, item, token, draft)) ==>
                out.Done? && Spells(rules, ledger, item, token, draft)
    {
      ghost var before := ledger;
      var end := CompleteItem(item, token, outcome);
      match end {
        case Accepted =>
          ReplyStaysSaid(rules, before, ledger, item, token, draft);
          out := Done(item, token, outcome.reply);
        case Unfinished => out := GiveBack(item, token);
        case Withheld => out := Park(item, token, Some(outcome.reply));
      }
    }

    method PublishReply(item: string, token: Token, draft: string, newId: string) returns (out: Pass)
      requires Traced() && item in ledger.items && ledger.items[item].acked && Trim(draft) != ""
      requires (item, token) in ledger.verified && token in ledger.tokens && token !in ledger.sent
      requires StageNow(item, token) == Verified
      modifies this
      ensures Traced() && old(events) <= events && StageNow(item, token) != Wrong
      ensures out.Done? ==> out.item == item && out.token == token && FinishedBy(out) && StageNow(item, token) == Over
                            && Says(rules, ledger, item, token, draft)
      ensures out.Parked? ==> out.item == item && out.token == token && out.beside.Some? && BlockedBy(out) && StageNow(item, token) == Over
      ensures calm && old(Ready(rules, ledger, item, token, newId)) ==>
                out == Done(item, token, newId) && Spells(rules, ledger, item, token, draft)
    {
      var outcome := SendAndReadBack(item, token, draft, newId);
      if !outcome.Ref? {
        out := GiveBack(item, token);
        return;
      }
      out := FinishWith(item, token, draft, outcome);
    }

    // The last event completed the item with the reply the lease's send returned.
    ghost predicate FinishedBy(p: Pass)
      requires p.Done?
      reads this
    {
      && p.item in ledger.items && ledger.items[p.item].status == Completed
      && ledger.items[p.item].outcome.Ref? && ledger.items[p.item].outcome.reply == p.reply
      && Published(ledger, p.item, p.token, ledger.items[p.item].outcome)
      && events != [] && events[|events| - 1] == Complete(p.item, p.token, ledger.items[p.item].outcome)
    }

    method TakeItem(item: string, token: Token, ttl: nat, ghost newId: string) returns (claimed: bool)
      requires Traced() && token !in ledger.tokens
      modifies this
      ensures Traced() && old(events) <= events && (StageNow(item, token) == Held || (!claimed && StageNow(item, token) == Idle))
      ensures claimed ==> item in ledger.items && token in ledger.tokens && token !in ledger.sent
      ensures calm && ttl > 0 && old(Claimable(rules, ledger, item, newId)) ==> claimed && Ready(rules, ledger, item, token, newId)
    {
      if ttl > 0 && Claimable(rules, ledger, item, newId) {
        ClaimMakesReady(rules, ledger, item, token, ttl, newId);
      }
      Invariant();
      UnissuedIsIdle(rules, events, item, token);
      claimed := Do(Claim(item, token, ttl), item, token);
    }

    method StartItem(item: string, token: Token, ghost newId: string) returns (ok: bool)
      requires Traced() && item in ledger.items && token in ledger.tokens && token !in ledger.sent
      requires StageNow(item, token) == Held
      modifies this
      ensures Traced() && old(events) <= events
      ensures StageNow(item, token) == Started || (!ok && StageNow(item, token) == Held)
      ensures item in ledger.items && token in ledger.tokens && token !in ledger.sent
      ensures calm && old(Ready(rules, ledger, item, token, newId)) ==> ok && Ready(rules, ledger, item, token, newId)
    {
      Pause(token);
      ghost var before := ledger;
      if Ready(rules, ledger, item, token, newId) {
        StaysReady(rules, ledger, Start(item, token), item, token, newId);
      }
      ok := Do(Start(item, token), item, token);
      assert ledger.items.Keys == before.items.Keys;
    }

    method AckItem(item: string, token: Token, ghost newId: string) returns (ok: bool)
      requires Traced() && item in ledger.items && token in ledger.tokens && token !in ledger.sent
      modifies this
      ensures Traced() && old(events) <= events && StageNow(item, token) == old(StageNow(item, token))
      ensures ok ==> item in ledger.items && token in ledger.tokens && token !in ledger.sent && ledger.items[item].acked
      ensures calm && old(Ready(rules, ledger, item, token, newId)) ==> ok && Ready(rules, ledger, item, token, newId)
    {
      Pause(token);
      if Ready(rules, ledger, item, token, newId) {
        StaysReady(rules, ledger, Ack(item), item, token, newId);
      }
      ok := Chance();
      if ok { ok := Do(Ack(item), item, token); }
    }

    method VerifyLease(item: string, token: Token, ghost newId: string) returns (ok: bool)
      requires Traced() && item in ledger.items && token in ledger.tokens && token !in ledger.sent
      requires ledger.items[item].acked && StageNow(item, token) == Started
      modifies this
      ensures Traced() && old(events) <= events
      ensures StageNow(item, token) == Verified || (!ok && StageNow(item, token) == Started)
      ensures ok ==> item in ledger.items && token in ledger.tokens && token !in ledger.sent && ledger.items[item].acked
                     && (item, token) in ledger.verified
      ensures calm && old(Ready(rules, ledger, item, token, newId)) ==> ok && Ready(rules, ledger, item, token, newId)
    {
      Pause(token);
      if Ready(rules, ledger, item, token, newId) {
        StaysReady(rules, ledger, Verify(item, token), item, token, newId);
      }
      ok := Do(Verify(item, token), item, token);
      if ok { Pause(token); }
    }

    /** The model's answer: a draft, or none, and whether the refusal is permanent. */
    method Generate() returns (draft: Option<string>, permanent: bool)
      ensures calm ==> !permanent && draft.Some? && Trim(draft.value) != ""
    {
      draft, permanent := *, *;
      permanent := permanent && !calm;
      if calm && (draft.None? || Trim(draft.value) == "") {
        draft := Some("d");
      }
    }

    /** The inference under a maintained lease, the verification of the lease, and the publication. */
    method InferAndPublish(item: string, token: Token, newId: string, ttl: nat, ticks: nat)
        returns (out: Pass, ghost draft: Option<string>)
      requires Traced() && item in ledger.items && ledger.items[item].acked
      requires token in ledger.tokens && token !in ledger.sent && StageNow(item, token) == Started
      modifies this
      ensures Traced() && old(events) <= events && StageNow(item, token) != Wrong
      ensures out.Done? ==> out.item == item && out.token == token && FinishedBy(out) && StageNow(item, token) == Over
                            && draft.Some? && Says(rules, ledger, item, token, draft.value)
      ensures out.Parked? ==> out.item == item && out.token == token && BlockedBy(out) && StageNow(item, token) == Over
      ensures calm && ttl > 0 && old(Ready(rules, ledger, item, token, newId)) ==>
                out == Done(item, token, newId) && draft.Some? && Spells(rules, ledger, item, token, draft.value)
    {
      draft := None;
      var lost, _ := MaintainLease(item, token, ttl, ticks, newId);
      if lost {
        out := Lost;
        return;
      }
      var answer, permanent := Generate();
      draft := answer;
      if permanent {
        out := Park(item, token, None);
        return;
      }
      if answer.None? || Trim(answer.value) == "" {
        out := GiveBack(item, token);
        return;
      }
      var ok := VerifyLease(item, token, newId);
      if !ok {
        out := Lost;
        return;
      }
      out := PublishReply(item, token, answer.value, newId);
    }

    /**
     One pass: claim, start, acknowledge, infer under a maintained lease, verify, publish, complete. With
     nothing in its way it completes an item that can be claimed and answered, with its own reply, which holds
     the whole draft that was inferred.
     */
    method RunOnce(item: string, newId: string, ttl: nat, ticks: nat) returns (out: Pass, ghost token: Token, ghost draft: Option<string>)
      requires Traced()
      modifies this
      ensures Traced() && old(events) <= events
      ensures token !in old(ledger).tokens && StageNow(item, token) != Wrong
      ensures out.Done? ==> out.item == item && out.token == token && FinishedBy(out) && StageNow(item, token) == Over
                            && draft.Some? && Says(rules, ledger, item, token, draft.value)
      ensures out.Parked? ==> out.item == item && out.token == token && BlockedBy(out) && StageNow(item, token) == Over
      ensures calm && ttl > 0 && old(Claimable(rules, ledger, item, newId)) ==>
                out == Done(item, token, newId) && draft.Some? && Spells(rules, ledger, item, token, draft.value)
    {
      var lease := NewToken();
      token, draft := lease, None;
      var ok := TakeItem(item, lease, ttl, newId);
      if !ok {
        out := NoWork;
        return;
      }
      ok := StartItem(item, lease, newId);
      if ok { ok := AckItem(item, lease, newId); }
      if ok {
        out, draft := InferAndPublish(item, lease, newId, ttl, ticks);
      } else {
        out := GiveBack(item, lease);
      }
    }

    lemma Invariant()
      requires Traced()
      ensures Inv(ledger)
    {
      HistoryKeepsInv(rules, events, |events|);
      assert events[..|events|] == events;
    }

    // What the requester may report: the original as it stood at one moment of the call, with the reply that
    // it names as it stood at a later one. A report of `completed` names what the latest lease's send returned.
    ghost predicate Reports(out: Shared, actor: string, id: string, seen: nat, later: nat)
      reads this
    {
      && seen <= later <= |events|
      && out == VerdictAcross(After(rules, events[..seen]), After(rules, events[..later]), actor, id)
      && (out.Finished? ==> NamedBy(After(rules, events[..seen]), id, out))
    }

    /** The requester's loop. */
    method Request(actor: string, id: string, polls: nat) returns (out: Shared, ghost seen: nat, ghost later: nat)
      requires Traced()
      modifies this
      ensures Traced() && old(events) <= events
      ensures out != Unread && out != Pending ==> |old(events)| <= seen && Reports(out, actor, id, seen, later)
      ensures calm && polls > 0 ==> out == Verdict(ledger, actor, id)
    {
      seen, later := |events|, |events|;
      out := Pending;
      var token := NewToken();
      for i := 0 to polls
        invariant Traced() && old(events) <= events && out == Pending
        invariant calm && i > 0 ==> out == Verdict(ledger, actor, id)
      {
        Pause(token);
        var readable := Chance();
        if !readable || id !in ledger.items {
          return Unread, seen, later;
        }
        var original := ledger.items[id];
        seen, later := |events|, |events|;
        assert events[..seen] == events;
        if original.from != actor || original.to != GEMMA {
          return NotMine, seen, later;
        }
        if original.status == Blocked || original.status == DeadLetter {
          return Stopped(original.status), seen, later;
        }
        if original.status == Completed || original.status == Closed {
          out, seen, later := ReadReply(actor, id, original);
          return;
        }
      }
    }

    /** The second read of a poll: the reply that the terminal original names, which may have moved on by then. */
    method ReadReply(actor: string, id: string, original: Item) returns (out: Shared, ghost seen: nat, ghost later: nat)
      requires Traced() && id in ledger.items && ledger.items[id] == original
      requires original.from == actor && original.to == GEMMA && (original.status == Completed || original.status == Closed)
      modifies this
      ensures Traced() && old(events) <= events && seen == |old(events)|
      ensures out == Unread || Reports(out, actor, id, seen, later)
      ensures calm ==> ledger == old(ledger) && out == Verdict(ledger, actor, id)
    {
      seen := |events|;
      ghost var snapshot := ledger;
      Invariant();
      Pause(0);
      later := |events|;
      assert events[..seen] == old(events) && events[..later] == events;
      FinishedIffHeld(snapshot, ledger, actor, id);
      var o := original.outcome;
      if o.Ref? && o.original == id && o.reply != "" {
        var readable := Chance();
        if !readable || o.reply !in ledger.items {
          return Unread, seen, later;
        }
        var reply := LetterOf(ledger, o.reply);
        var finger := Fingerprint(reply, actor, id);
        if reply.id == o.reply && finger != "" && finger == o.correlation {
          return Finished(reply.id, reply.instructions), seen, later;
        }
      }
      out := Unavailable;
    }
  }

  // The reply is what the send of the item's latest lease returned, and its text began as it stands there.
  predicate NamedBy(l: Ledger, id: string, out: Shared)
    requires out.Finished?
  {
    && id in l.holder && l.holder[id] in l.sent && l.sent[l.holder[id]].reply == out.reply
    && out.reply in l.items && Grows(l.items[out.reply].instructions, out.draft)
  }

  /** With a reply that nobody touched between the two reads, the report is the verdict on the first moment. */
  lemma UntouchedReplyIsOneMoment(l: Ledger, l': Ledger, actor: string, id: string)
    requires id in l.items && l.items[id].outcome.Ref?
    requires var x := l.items[id].outcome.reply; x in l.items && x in l'.items && LetterOf(l', x) == LetterOf(l, x)
    ensures VerdictAcross(l, l', actor, id) == Verdict(l, actor, id)
  {
  }

  // The lease's send returned the reply of the reference, and the reply correlates as the reference says.
  predicate Published(l: Ledger, item: string, token: Token, o: Outcome)
    requires o.Ref?
  {
    && item in l.items && token in l.sent && l.sent[token].reply == o.reply && o.reply in l.items
    && o == Carried(l, item, o.reply)
  }

  // A reply that is the lease's own holds the trimmed draft behind its correlation line; only notes may follow.
  predicate Says(r: Rules, l: Ledger, item: string, token: Token, draft: string) {
    && Trim(draft) != "" && token in l.sent
    && (!l.sent[token].deduped ==>
          var x := l.sent[token].reply;
          x in l.items && Grows(FullText(item, r.finger(token), Trim(draft)), l.items[x].instructions))
  }

  // It is the lease's own, and nothing follows.
  predicate Spells(r: Rules, l: Ledger, item: string, token: Token, draft: string) {
    && token in l.sent && !l.sent[token].deduped && l.sent[token].reply in l.items
    && l.items[l.sent[token].reply].instructions == FullText(item, r.finger(token), Trim(draft))
  }

  lemma SendSays(r: Rules, l: Ledger, item: string, token: Token, draft: string, newId: string)
    requires item in l.items && Trim(draft) != "" && Apply(r, l, Send(item, token, Trim(draft), newId)).Some?
    ensures var l' := Apply(r, l, Send(item, token, Trim(draft), newId)).value;
            Says(r, l', item, token, draft) && (!l'.sent[token].deduped ==> Spells(r, l', item, token, draft))
  {
    var i := l.items[item];
    ReplyReads(newId, Deliver(l, i.from), item, i.title, r.finger(token), draft);
  }

  // What the send returned is what it was, and the text of that reply has at most grown.
  ghost predicate KeepsReply(l: Ledger, l': Ledger, token: Token) {
    KeepsHeads(l, l') && (token in l.sent ==> token in l'.sent && l'.sent[token] == l.sent[token])
  }

  lemma SaysStays(r: Rules, l: Ledger, l': Ledger, item: string, token: Token, draft: string)
    requires Says(r, l, item, token, draft) && KeepsReply(l, l', token)
    ensures Says(r, l', item, token, draft)
  {
    var x := l.sent[token].reply;
    if x in l.items {
      assert SameHead(l.items[x], l'.items[x]);
    }
  }

  lemma ReplyStaysSaid(r: Rules, l: Ledger, l': Ledger, item: string, token: Token, draft: string)
    requires Says(r, l, item, token, draft) && KeepsReply(l, l', token)
    ensures Says(r, l', item, token, draft)
    ensures Spells(r, l, item, token, draft) && SameLetters(l, l') ==> Spells(r, l', item, token, draft)
  {
    SaysStays(r, l, l', item, token, draft);
    if Spells(r, l, item, token, draft) && SameLetters(l, l') {
      assert LetterOf(l', l.sent[token].reply) == LetterOf(l, l.sent[token].reply);
    }
  }

  lemma CompleteKeepsLetters(r: Rules, l: Ledger, item: string, token: Token, o: Outcome)
    requires Apply(r, l, Complete(item, token, o)).Some?
    ensures var l' := Apply(r, l, Complete(item, token, o)).value; SameLetters(l, l') && KeepsHeads(l, l') && l'.sent == l.sent
  {
    SameLettersKeep(l, Apply(r, l, Complete(item, token, o)).value);
  }

  // The reply that the lease's send returned is there, and correlates with the item.
  predicate Correlates(l: Ledger, item: string, token: Token, reply: string) {
    && item in l.items && token in l.sent && l.sent[token].reply == reply && reply in l.items
    && Carried(l, item, reply).Ref?
  }

  lemma CorrelatesStays(l: Ledger, l': Ledger, item: string, token: Token, reply: string)
    requires Correlates(l, item, token, reply) && Stable(l, l', token) && token in l.tokens
    ensures Correlates(l', item, token, reply)
  {
    CarriedStays(l, l', item, reply);
  }

  lemma BlockKeepsReply(r: Rules, l: Ledger, item: string, token: Token, reply: string)
    requires Correlates(l, item, token, reply) && Apply(r, l, Block(item, token)).Some?
    ensures Correlates(Apply(r, l, Block(item, token)).value, item, token, reply)
  {
    var l' := Apply(r, l, Block(item, token)).value;
    assert LetterOf(l', reply) == LetterOf(l, reply);
  }

  lemma BlockLeaves(r: Rules, l: Ledger, item: string, token: Token, beside: Option<string>)
    requires HeldForGemma(l) && Apply(r, l, Block(item, token)).Some?
    requires beside.Some? ==> Correlates(l, item, token, beside.value)
    ensures var l' := Apply(r, l, Block(item, token)).value;
            ShowsBlocked(l', item) && (beside.Some? ==> Correlates(l', item, token, beside.value))
  {
    BlockShows(r, l, item, token);
    if beside.Some? {
      BlockKeepsReply(r, l, item, token, beside.value);
    }
  }

  lemma CompleteKeepsPublished(r: Rules, l: Ledger, item: string, token: Token, o: Outcome)
    requires o.Ref? && Published(l, item, token, o) && Apply(r, l, Complete(item, token, o)).Some?
    ensures Published(Apply(r, l, Complete(item, token, o)).value, item, token, o)
  {
    var l' := Apply(r, l, Complete(item, token, o)).value;
    assert LetterOf(l', o.reply) == LetterOf(l, o.reply);
  }
}
