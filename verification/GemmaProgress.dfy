/**
 What an undisturbed pass needs to finish: how far each operation of the worker carries it when nobody
 else acts and the ledger refuses nothing that it can grant.
 */
module GemmaProgress {
  import opened Wrappers
  import opened GemmaEnvelope
  import opened GemmaLedger

  // The item has somebody to answer, under a name that is not redirected, and no reply under its key or
  // under the new identity exists.
  predicate Answerable(r: Rules, l: Ledger, item: string, newId: string) {
    && item in l.items && Trim(l.items[item].from) != "" && '\n' !in item
    && Deliver(l, l.items[item].from) == l.items[item].from
    && newId != "" && newId !in l.items && SendKey(r, l, item) !in l.keys
  }

  predicate Claimable(r: Rules, l: Ledger, item: string, newId: string) {
    && Answerable(r, l, item, newId) && l.items[item].to == GEMMA
    && Reclaim(l.items[item], l.clock).status == Open
  }

  // The lease holds, and a reply can be sent.
  predicate Ready(r: Rules, l: Ledger, item: string, token: Token, newId: string) {
    Fenced(l, item, token) && Answerable(r, l, item, newId)
  }

  // The lease holds, and the reply that its send returned is its own and correlates.
  predicate Answered(l: Ledger, item: string, token: Token, newId: string) {
    && Fenced(l, item, token) && token in l.sent && l.sent[token] == Receipt(newId, false)
    && ReadBack(l, item, newId).Ref?
  }

  /** An open item, or one whose lease ran out, can be claimed. */
  lemma ClaimMakesReady(r: Rules, l: Ledger, item: string, token: Token, ttl: nat, newId: string)
    requires Claimable(r, l, item, newId) && token !in l.tokens && ttl > 0
    ensures Apply(r, l, Claim(item, token, ttl)).Some?
    ensures Ready(r, Apply(r, l, Claim(item, token, ttl)).value, item, token, newId)
  {
    var items := Reclaimed(l);
    assert items[item] == Reclaim(l.items[item], l.clock);
    assert items.Keys == l.items.Keys;
  }

  // What the worker does between its claim and its send.
  predicate Between(e: Event, item: string, token: Token) {
    e == Start(item, token) || e == Ack(item) || e == Verify(item, token) || (e.Renew? && e == Renew(item, token, e.ttl) && e.ttl > 0)
  }

  /** While the lease holds, everything between the claim and the send is granted and keeps it. */
  lemma StaysReady(r: Rules, l: Ledger, e: Event, item: string, token: Token, newId: string)
    requires Ready(r, l, item, token, newId) && Between(e, item, token)
    ensures Apply(r, l, e).Some? && Ready(r, Apply(r, l, e).value, item, token, newId)
  {
  }

  /**
   A send under a free key publishes the lease's own reply. It can be read back if and only if the item's
   identity holds no line break and its sender's mail is not redirected.
   */
  lemma SendAnswersIff(r: Rules, l: Ledger, item: string, token: Token, draft: string, newId: string)
    requires item in l.items && newId != "" && newId !in l.items && SendKey(r, l, item) !in l.keys
    ensures var sent := Apply(r, l, Send(item, token, draft, newId));
            && sent.Some? && token in sent.value.sent && sent.value.sent[token] == Receipt(newId, false)
            && item in sent.value.items && sent.value.items[item] == l.items[item]
            && (ReadBack(sent.value, item, newId).Ref? <==> '\n' !in item && Deliver(l, l.items[item].from) == l.items[item].from)
  {
    var i := l.items[item];
    var to := Deliver(l, i.from);
    RoundTrip(newId, to, item, i.title, r.finger(token), draft);
    var l' := Sent(r, l, item, token, draft, newId).value;
    assert LetterOf(l', newId) == Reply(newId, to, item, i.title, r.finger(token), draft);
  }

  lemma SendAnswers(r: Rules, l: Ledger, item: string, token: Token, draft: string, newId: string)
    requires Ready(r, l, item, token, newId)
    ensures Apply(r, l, Send(item, token, draft, newId)).Some?
    ensures Answered(Apply(r, l, Send(item, token, draft, newId)).value, item, token, newId)
  {
    SendAnswersIff(r, l, item, token, draft, newId);
  }

  // ---- An item is given up after three attempts ----

  // An item that can still be worked on has attempts left.
  predicate HasAttempts(l: Ledger, id: string) {
    id in l.items ==>
      && l.items[id].attempts <= 3
      && (l.items[id].status in {Open, Claimed, Working, Closed} ==> l.items[id].attempts < 3)
  }

  lemma ApplyKeepsAttempts(r: Rules, l: Ledger, e: Event, id: string)
    requires Apply(r, l, e).Some? && HasAttempts(l, id)
    ensures HasAttempts(Apply(r, l, e).value, id)
  {
  }

  lemma {:induction false} AlwaysHasAttempts(r: Rules, events: seq<Event>, i: nat, id: string)
    requires History(r, events) && i <= |events|
    ensures HasAttempts(After(r, events[..i]), id)
  {
    if i > 0 {
      AlwaysHasAttempts(r, events, i - 1, id);
      AfterNext(r, events, i - 1);
      ApplyKeepsAttempts(r, After(r, events[..i - 1]), events[i - 1], id);
    }
  }

  /** A failed attempt is counted; the third one ends in the dead letters, any other reopens the item. */
  lemma FailureCounts(r: Rules, l: Ledger, id: string, t: Token)
    requires Apply(r, l, Fail(id, t)).Some?
    ensures id in l.items && id in Apply(r, l, Fail(id, t)).value.items
    ensures var i, i' := l.items[id], Apply(r, l, Fail(id, t)).value.items[id];
            && i'.attempts == i.attempts + 1 && i'.token == None
            && i'.status == (if i.attempts >= 2 then DeadLetter else Open) && (i.attempts >= 2 ==> i'.outcome == Note)
  {
  }

  // The item's lease is this one, and it runs.
  ghost predicate Runs(l: Ledger, id: string, t: Token) {
    && id in l.items && l.items[id].token == Some(t) && l.clock < l.items[id].expires
    && (l.items[id].status == Claimed || l.items[id].status == Working)
  }

  // The ledger with this item in the place of what it was.
  ghost function With(l: Ledger, id: string, i: Item): Option<Ledger> {
    Some(l.(items := l.items[id := i]))
  }

  /** Everything done under a lease is granted exactly while it runs, and changes this item only. */
  lemma FenceDecides(r: Rules, l: Ledger, id: string, t: Token, ttl: nat, o: Outcome)
    ensures Runs(l, id, t) ==>
              && Apply(r, l, Start(id, t)) == With(l, id, l.items[id].(status := Working))
              && Apply(r, l, Renew(id, t, ttl)) == With(l, id, l.items[id].(expires := l.clock + ttl))
              && Apply(r, l, Verify(id, t)) == Some(l.(verified := l.verified + {(id, t)}))
              && Apply(r, l, Complete(id, t, o)) == With(l, id, l.items[id].(status := Completed, token := None, outcome := o))
              && Apply(r, l, Block(id, t)) == With(l, id, l.items[id].(status := Blocked, token := None, outcome := Note))
              && Apply(r, l, Fail(id, t)).Some?
    ensures !Runs(l, id, t) ==>
              && Apply(r, l, Start(id, t)) == Apply(r, l, Renew(id, t, ttl)) == Apply(r, l, Verify(id, t)) == None
              && Apply(r, l, Complete(id, t, o)) == Apply(r, l, Block(id, t)) == Apply(r, l, Fail(id, t)) == None
  {
  }

  /** What the owner may do at any time; it ends the lease. */
  lemma OwnerDecides(r: Rules, l: Ledger, id: string)
    requires id in l.items
    ensures var i := l.items[id];
            && Apply(r, l, ForceComplete(id)) == With(l, id, i.(status := Completed, token := None, outcome := Note))
            && Apply(r, l, ForceDeadLetter(id)) == With(l, id, i.(status := DeadLetter, token := None, outcome := Note))
            && Apply(r, l, CloseOpen(id)) == if i.status == Open then With(l, id, i.(status := Closed, outcome := Note)) else None
  {
  }

  // What a claim makes of another item: a lease that runs is not touched, and one that ran out is a failed attempt.
  ghost predicate Outlives(i: Item, i': Item, clock: nat) {
    if !(i.status in {Claimed, Working}) || i.expires > clock then i' == i
    else i'.attempts == i.attempts + 1 && i'.token == None && i'.status == if i.attempts >= 2 then DeadLetter else Open
  }

  /** A claim takes its own item, which was open or whose lease ran out, and leaves every running lease alone. */
  lemma ClaimTakes(r: Rules, l: Ledger, id: string, t: Token, ttl: nat, other: string)
    requires Apply(r, l, Claim(id, t, ttl)).Some? && other in l.items
    ensures id in l.items && id in Apply(r, l, Claim(id, t, ttl)).value.items && other in Apply(r, l, Claim(id, t, ttl)).value.items
    ensures var i, i' := l.items[id], Apply(r, l, Claim(id, t, ttl)).value.items[id];
            && t !in l.tokens && i.to == "gemma-pantheon"
            && (i.status == Open || (i.status in {Claimed, Working} && i.expires <= l.clock && i.attempts < 2))
            && i'.status == Claimed && i'.token == Some(t) && i'.expires == l.clock + ttl
            && i'.attempts == i.attempts + if i.status == Open then 0 else 1
    ensures other != id ==> Outlives(l.items[other], Apply(r, l, Claim(id, t, ttl)).value.items[other], l.clock)
  {
    assert Reclaimed(l)[id] == Reclaim(l.items[id], l.clock);
    assert Reclaimed(l)[other] == Reclaim(l.items[other], l.clock);
  }

  /** The owner gives an item all its attempts back. */
  lemma ReopenResets(r: Rules, l: Ledger, id: string)
    requires id in l.items
    ensures var after := Apply(r, l, Reopen(id));
            && after.Some? && id in after.value.items && after.value.items[id].attempts == 0
            && after.value.items[id].status == Open && after.value.items[id].token == None
  {
  }

  lemma AttemptsNext(r: Rules, l: Ledger, e: Event, id: string)
    requires Apply(r, l, e).Some? && id in l.items && e != Reopen(id)
    ensures id in Apply(r, l, e).value.items && l.items[id].attempts <= Apply(r, l, e).value.items[id].attempts
    ensures e.Fail? && e.item == id ==> l.items[id].attempts < Apply(r, l, e).value.items[id].attempts
    ensures e.Fail? && e.item == id ==> l.items[id].status in {Claimed, Working}
  {
  }

  // How often the item's attempts failed over a stretch of events.
  function Failures(events: seq<Event>, i: nat, j: nat, id: string): nat
    requires i <= j <= |events|
    decreases j
  {
    if i == j then 0
    else Failures(events, i, j - 1, id) + if events[j - 1].Fail? && events[j - 1].item == id then 1 else 0
  }

  lemma {:induction false} FailuresAreCounted(r: Rules, events: seq<Event>, i: nat, j: nat, id: string)
    requires History(r, events) && i <= j <= |events| && id in After(r, events[..i]).items
    requires forall k :: i <= k < j ==> events[k] != Reopen(id)
    ensures id in After(r, events[..j]).items
    ensures Failures(events, i, j, id) <= After(r, events[..j]).items[id].attempts
    decreases j
  {
    if i < j {
      FailuresAreCounted(r, events, i, j - 1, id);
      AfterNext(r, events, j - 1);
      AttemptsNext(r, After(r, events[..j - 1]), events[j - 1], id);
    }
  }

  /** Until its owner reopens it, an item fails at most three times. */
  lemma AtMostThreeFailures(r: Rules, events: seq<Event>, i: nat, j: nat, id: string)
    requires History(r, events) && i <= j <= |events| && id in After(r, events[..i]).items
    requires forall k :: i <= k < j ==> events[k] != Reopen(id)
    ensures Failures(events, i, j, id) <= 3
  {
    FailuresAreCounted(r, events, i, j, id);
    AlwaysHasAttempts(r, events, j, id);
  }
}
