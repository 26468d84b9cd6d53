/**
 Whose reply a completion names, decided where the send decides it; and what a parked item leaves behind.
 */
module GemmaReplies {
  import opened Wrappers
  import opened GemmaEnvelope
  import opened GemmaLedger
  import opened GemmaSafety

  // ---- The keys of the ledger are those of the sends so far ----

  // The event is a send under this key: this recipient, this slug of the title, this hour.
  predicate SendsUnder(r: Rules, events: seq<Event>, m: nat, key: Key)
    requires m < |events|
  {
    && events[m].Send? && events[m].item in After(r, events[..m]).items
    && SendKey(r, After(r, events[..m]), events[m].item) == key
  }

  // Two sends ask for the same: one recipient, one slug of the titles, one hour. The body does not count.
  predicate SameRequest(r: Rules, l: Ledger, id: string, l': Ledger, id': string) {
    && id in l.items && id' in l'.items
    && Deliver(l, l.items[id].from) == Deliver(l', l'.items[id'].from)
    && r.slug("NONBINDING Gemma draft for " + id + ": " + Trim(l.items[id].title))
       == r.slug("NONBINDING Gemma draft for " + id' + ": " + Trim(l'.items[id'].title))
    && l.clock / 3600 == l'.clock / 3600
  }

  lemma SameKeyIs(r: Rules, l: Ledger, id: string, l': Ledger, id': string)
    requires id in l.items && id' in l'.items
    ensures SendKey(r, l, id) == SendKey(r, l', id') <==> SameRequest(r, l, id, l', id')
  {
  }

  lemma ApplyKeys(r: Rules, l: Ledger, e: Event)
    requires Apply(r, l, e).Some?
    ensures Apply(r, l, e).value.keys.Keys == l.keys.Keys + if e.Send? then {SendKey(r, l, e.item)} else {}
  {
  }

  /** A key is taken exactly if an earlier send had it. */
  lemma {:induction false} KeysAreSends(r: Rules, events: seq<Event>, j: nat, key: Key)
    requires History(r, events) && j <= |events|
    ensures key in After(r, events[..j]).keys <==> exists m :: 0 <= m < j && SendsUnder(r, events, m, key)
  {
    if j > 0 {
      KeysAreSends(r, events, j - 1, key);
      AfterNext(r, events, j - 1);
      ApplyKeys(r, After(r, events[..j - 1]), events[j - 1]);
      assert SendsUnder(r, events, j - 1, key) <==>
             events[j - 1].Send? && SendKey(r, After(r, events[..j - 1]), events[j - 1].item) == key;
    }
  }

  // ---- A lease has one send, and belongs to one item ----

  lemma ApplySent(r: Rules, l: Ledger, e: Event, t: Token)
    requires Enabled(r, l, e)
    ensures var l' := Apply(r, l, e).value;
            if e.Send? && e.token == t then
              t !in l.sent && t in l'.sent && (l'.sent[t].deduped <==> SendKey(r, l, e.item) in l.keys)
            else (t in l'.sent <==> t in l.sent) && (t in l.sent ==> l'.sent[t] == l.sent[t])
  {
  }

  predicate SendsFor(e: Event, t: Token) {
    e.Send? && e.token == t
  }

  lemma {:induction false} UnsentBefore(r: Rules, events: seq<Event>, i: nat, t: Token)
    requires History(r, events) && i <= |events| && t !in After(r, events[..i]).sent
    ensures forall m :: 0 <= m < i ==> !SendsFor(events[m], t)
  {
    if i > 0 {
      AfterNext(r, events, i - 1);
      ApplySent(r, After(r, events[..i - 1]), events[i - 1], t);
      UnsentBefore(r, events, i - 1, t);
    }
  }

  /** The one send of a lease, and the key that decided its answer. */
  lemma {:induction false} TheSend(r: Rules, events: seq<Event>, i: nat, t: Token) returns (j: nat)
    requires History(r, events) && i <= |events| && t in After(r, events[..i]).sent
    ensures j < i && SendsFor(events[j], t) && events[j].item in After(r, events[..j]).items
    ensures forall m :: 0 <= m < i && SendsFor(events[m], t) ==> m == j
    ensures After(r, events[..i]).sent[t].deduped <==>
              SendKey(r, After(r, events[..j]), events[j].item) in After(r, events[..j]).keys
  {
    AfterNext(r, events, i - 1);
    ApplySent(r, After(r, events[..i - 1]), events[i - 1], t);
    if SendsFor(events[i - 1], t) {
      j := i - 1;
      UnsentBefore(r, events, i - 1, t);
    } else {
      j := TheSend(r, events, i - 1, t);
    }
  }

  lemma AckNext(r: Rules, l: Ledger, e: Event, id: string)
    requires Apply(r, l, e).Some? && id in Apply(r, l, e).value.items && Apply(r, l, e).value.items[id].acked
    ensures e == Ack(id) || (id in l.items && l.items[id].acked)
  {
  }

  lemma VerifyNext(r: Rules, l: Ledger, e: Event, id: string, t: Token)
    requires Apply(r, l, e).Some? && (id, t) in Apply(r, l, e).value.verified
    ensures e == Verify(id, t) || (id, t) in l.verified
  {
  }

  lemma {:induction false} AckOrigin(r: Rules, events: seq<Event>, i: nat, id: string)
    requires History(r, events) && i <= |events|
    requires id in After(r, events[..i]).items && After(r, events[..i]).items[id].acked
    ensures Ack(id) in events[..i]
  {
    if i > 0 {
      AfterNext(r, events, i - 1);
      AckNext(r, After(r, events[..i - 1]), events[i - 1], id);
      assert events[..i] == events[..i - 1] + [events[i - 1]];
      if events[i - 1] != Ack(id) {
        AckOrigin(r, events, i - 1, id);
      }
    }
  }

  lemma {:induction false} VerifyOrigin(r: Rules, events: seq<Event>, i: nat, id: string, t: Token)
    requires History(r, events) && i <= |events| && (id, t) in After(r, events[..i]).verified
    ensures Verify(id, t) in events[..i]
  {
    if i > 0 {
      AfterNext(r, events, i - 1);
      VerifyNext(r, After(r, events[..i - 1]), events[i - 1], id, t);
      assert events[..i] == events[..i - 1] + [events[i - 1]];
      if events[i - 1] != Verify(id, t) {
        VerifyOrigin(r, events, i - 1, id, t);
      }
    }
  }

  /** A lease sends once, behind the acknowledgement of its item and the confirmation of the lease. */
  lemma SendFollowsConfirmation(r: Rules, events: seq<Event>, i: nat)
    requires History(r, events) && i < |events| && events[i].Send?
    ensures Ack(events[i].item) in events[..i] && Verify(events[i].item, events[i].token) in events[..i]
    ensures forall m :: 0 <= m < i && events[m].Send? ==> events[m].token != events[i].token
  {
    AfterNext(r, events, i);
    AckOrigin(r, events, i, events[i].item);
    VerifyOrigin(r, events, i, events[i].item, events[i].token);
    UnsentBefore(r, events, i, events[i].token);
    assert forall m :: 0 <= m < i && events[m].Send? ==> !SendsFor(events[m], events[i].token);
  }

  // The lease was taken on this item.
  predicate Linked(l: Ledger, id: string, t: Token) {
    (id, t) in l.verified || (id in l.items && l.items[id].token == Some(t))
  }

  ghost predicate OneItem(l: Ledger) {
    && (forall id, t :: Linked(l, id, t) ==> t in l.tokens)
    && (forall id, id', t :: Linked(l, id, t) && Linked(l, id', t) ==> id == id')
  }

  lemma ApplyLinks(r: Rules, l: Ledger, e: Event, id: string, t: Token)
    requires Apply(r, l, e).Some? && Linked(Apply(r, l, e).value, id, t)
    ensures Linked(l, id, t) || (e.Claim? && e.item == id && e.token == t && t !in l.tokens)
  {
  }

  lemma ApplyKeepsOneItem(r: Rules, l: Ledger, e: Event)
    requires OneItem(l) && Apply(r, l, e).Some?
    ensures OneItem(Apply(r, l, e).value)
  {
    var l' := Apply(r, l, e).value;
    forall id, t | Linked(l', id, t)
      ensures t in l'.tokens
    {
      ApplyLinks(r, l, e, id, t);
    }
    forall id, id', t | Linked(l', id, t) && Linked(l', id', t)
      ensures id == id'
    {
      ApplyLinks(r, l, e, id, t);
      ApplyLinks(r, l, e, id', t);
    }
  }

  lemma {:induction false} AlwaysOneItem(r: Rules, events: seq<Event>, i: nat)
    requires History(r, events) && i <= |events|
    ensures OneItem(After(r, events[..i]))
  {
    if i > 0 {
      AlwaysOneItem(r, events, i - 1);
      AfterNext(r, events, i - 1);
      ApplyKeepsOneItem(r, After(r, events[..i - 1]), events[i - 1]);
    }
  }

  lemma ApplyKeepsVerified(r: Rules, l: Ledger, e: Event)
    requires Apply(r, l, e).Some?
    ensures l.verified <= Apply(r, l, e).value.verified
  {
  }

  lemma {:induction false} VerifiedStays(r: Rules, events: seq<Event>, i: nat, j: nat)
    requires History(r, events) && i <= j <= |events|
    ensures After(r, events[..i]).verified <= After(r, events[..j]).verified
    decreases j
  {
    if i < j {
      VerifiedStays(r, events, i, j - 1);
      AfterNext(r, events, j - 1);
      ApplyKeepsVerified(r, After(r, events[..j - 1]), events[j - 1]);
    }
  }

  lemma FreeIs(r: Rules, events: seq<Event>, j: nat)
    requires History(r, events) && j < |events| && events[j].Send? && events[j].item in After(r, events[..j]).items
    ensures SendKey(r, After(r, events[..j]), events[j].item) !in After(r, events[..j]).keys
       <==> forall m :: 0 <= m < j && events[m].Send? ==>
              !SameRequest(r, After(r, events[..m]), events[m].item, After(r, events[..j]), events[j].item)
  {
    var key := SendKey(r, After(r, events[..j]), events[j].item);
    KeysAreSends(r, events, j, key);
    forall m | 0 <= m < j && events[m].Send?
      ensures SendsUnder(r, events, m, key)
         <==> SameRequest(r, After(r, events[..m]), events[m].item, After(r, events[..j]), events[j].item)
    {
      if events[m].item in After(r, events[..m]).items {
        SameKeyIs(r, After(r, events[..m]), events[m].item, After(r, events[..j]), events[j].item);
      }
    }
  }

  /**
   The reply a completion names was written by the completing lease if and only if the key of that lease's
   one send was free when it was sent: no earlier send had the same recipient, slug and hour.
   */
  lemma OwnReplyIffKeyWasFree(r: Rules, events: seq<Event>, i: nat) returns (j: nat)
    requires History(r, events) && i < |events| && events[i].Complete?
    ensures j < i && events[j].Send? && events[j].item == events[i].item && events[j].token == events[i].token
    ensures events[j].item in After(r, events[..j]).items
    ensures var l, t := After(r, events[..i]), events[i].token;
            && t in l.sent && l.sent[t].reply in l.author
            && (l.author[l.sent[t].reply] == t <==>
                  SendKey(r, After(r, events[..j]), events[j].item) !in After(r, events[..j]).keys)
            && (l.author[l.sent[t].reply] == t <==>
                  forall m :: 0 <= m < j && events[m].Send? ==>
                    !SameRequest(r, After(r, events[..m]), events[m].item, After(r, events[..j]), events[j].item))
  {
    var t := events[i].token;
    OwnReplyIffNotDeduplicated(r, events, i);
    j := TheSend(r, events, i, t);
    AfterNext(r, events, j);
    FreeIs(r, events, j);
    AfterNext(r, events, i);
    VerifiedStays(r, events, j, i);
    AlwaysOneItem(r, events, i);
    assert Linked(After(r, events[..i]), events[j].item, t) && Linked(After(r, events[..i]), events[i].item, t);
  }

  // ---- Parked items ----

  ghost predicate HeldForGemma(l: Ledger) {
    forall id :: id in l.items && l.items[id].token.Some? ==> l.items[id].to == GEMMA
  }

  lemma HeldStays(r: Rules, l: Ledger, e: Event, id: string)
    requires Apply(r, l, e).Some? && id in Apply(r, l, e).value.items && Apply(r, l, e).value.items[id].token.Some?
    requires id in l.items && l.items[id].token.Some? ==> l.items[id].to == GEMMA
    ensures Apply(r, l, e).value.items[id].to == GEMMA
  {
  }

  lemma ApplyKeepsHeld(r: Rules, l: Ledger, e: Event)
    requires HeldForGemma(l) && Apply(r, l, e).Some?
    ensures HeldForGemma(Apply(r, l, e).value)
  {
    var l' := Apply(r, l, e).value;
    forall id | id in l'.items && l'.items[id].token.Some?
      ensures l'.items[id].to == GEMMA
    {
      HeldStays(r, l, e, id);
    }
  }

  lemma {:induction false} AlwaysHeld(r: Rules, events: seq<Event>, i: nat)
    requires History(r, events) && i <= |events|
    ensures HeldForGemma(After(r, events[..i]))
  {
    if i > 0 {
      AlwaysHeld(r, events, i - 1);
      AfterNext(r, events, i - 1);
      ApplyKeepsHeld(r, After(r, events[..i - 1]), events[i - 1]);
    }
  }

  // What its requester sees of a parked item: that it is blocked, and no reply.
  predicate ShowsBlocked(l: Ledger, id: string) {
    && id in l.items && l.items[id].status == Blocked && l.items[id].outcome == Note
    && Verdict(l, l.items[id].from, id) == Stopped(Blocked)
  }

  lemma BlockShows(r: Rules, l: Ledger, id: string, t: Token)
    requires HeldForGemma(l) && Apply(r, l, Block(id, t)).Some?
    ensures ShowsBlocked(Apply(r, l, Block(id, t)).value, id)
  {
  }

  /**
   What a requester is told before its item is completed: that it is not its own, that it waits or is worked on,
   or that it was parked or given up. It is told of a reply only for a completed or closed item.
   */
  lemma VerdictTells(l: Ledger, actor: string, id: string)
    requires id in l.items
    ensures var i, v := l.items[id], Verdict(l, actor, id);
            && (i.from != actor || i.to != "gemma-pantheon" <==> v == NotMine)
            && (i.from == actor && i.to == "gemma-pantheon" ==>
                  && (i.status in {Open, Claimed, Working} <==> v == Pending)
                  && (i.status == Blocked <==> v == Stopped(Blocked)) && (i.status == DeadLetter <==> v == Stopped(DeadLetter))
                  && (i.status in {Completed, Closed} <==> v.Finished? || v == Unavailable || v == Unread))
  {
  }

  // What moves a blocked item: only its owner does.
  predicate Unblocks(e: Event, id: string) {
    e == Reopen(id) || e == ForceComplete(id) || e == ForceDeadLetter(id)
  }

  lemma ApplyKeepsBlocked(r: Rules, l: Ledger, e: Event, id: string)
    requires Apply(r, l, e).Some? && ShowsBlocked(l, id) && !Unblocks(e, id)
    ensures ShowsBlocked(Apply(r, l, e).value, id)
  {
    BlockedStays(r, l, e, id);
  }

  lemma BlockedStays(r: Rules, l: Ledger, e: Event, id: string)
    requires Apply(r, l, e).Some? && id in l.items && l.items[id].status == Blocked && !Unblocks(e, id)
    ensures var l' := Apply(r, l, e).value;
            && id in l'.items && l'.items[id].from == l.items[id].from && l'.items[id].to == l.items[id].to
            && l'.items[id].status == Blocked && l'.items[id].outcome == l.items[id].outcome
  {
  }

  // The lease's send returned a reply, and that reply is still there: its text has at most grown.
  predicate StillPublished(l: Ledger, l': Ledger, t: Token) {
    t in l.sent ==>
      && t in l'.sent && l'.sent[t] == l.sent[t] && l.sent[t].reply in l.items && l.sent[t].reply in l'.items
      && SameHead(l.items[l.sent[t].reply], l'.items[l.sent[t].reply])
  }

  lemma PublishedNow(l: Ledger, t: Token)
    requires Inv(l)
    ensures StillPublished(l, l, t)
  {
  }

  lemma {:induction false} ReplyStays(r: Rules, events: seq<Event>, i: nat, j: nat, t: Token)
    requires History(r, events) && i <= j <= |events|
    ensures StillPublished(After(r, events[..i]), After(r, events[..j]), t)
    decreases j
  {
    if i == j {
      HistoryKeepsInv(r, events, i);
      PublishedNow(After(r, events[..i]), t);
    } else {
      ReplyStays(r, events, i, j - 1, t);
      AfterNext(r, events, j - 1);
      HistoryKeepsInv(r, events, j - 1);
      StepStays(r, After(r, events[..i]), After(r, events[..j - 1]), events[j - 1], t);
    }
  }

  lemma StepStays(r: Rules, first: Ledger, l: Ledger, e: Event, t: Token)
    requires StillPublished(first, l, t) && Inv(l) && Enabled(r, l, e)
    ensures StillPublished(first, Apply(r, l, e).value, t)
  {
    ApplyKeepsInv(r, l, e);
    ApplySent(r, l, e, t);
    if t in first.sent {
      HeadsTransitive(first.items[first.sent[t].reply], l.items[first.sent[t].reply], Apply(r, l, e).value.items[first.sent[t].reply]);
    }
  }

  lemma HeadsTransitive(a: Item, b: Item, c: Item)
    requires SameHead(a, b) && SameHead(b, c)
    ensures SameHead(a, c)
  {
  }

  /**
   A worker's park stands until the owner moves the item, and until then its requester is told that it is
   blocked. A reply that the lease had sent before stays published beside it and correlates as it did.
   */
  lemma {:induction false} ParkStands(r: Rules, events: seq<Event>, i: nat, j: nat)
    requires History(r, events) && i < j <= |events| && events[i].Block?
    requires forall k :: i < k < j ==> !Unblocks(events[k], events[i].item)
    ensures ShowsBlocked(After(r, events[..j]), events[i].item)
    ensures StillPublished(After(r, events[..i]), After(r, events[..j]), events[i].token)
    ensures var l, l', t := After(r, events[..i]), After(r, events[..j]), events[i].token;
            t in l.sent ==> Carried(l', events[i].item, l.sent[t].reply) == Carried(l, events[i].item, l.sent[t].reply)
    decreases j
  {
    ReplyStays(r, events, i, j, events[i].token);
    if events[i].token in After(r, events[..i]).sent {
      CarriedStays(After(r, events[..i]), After(r, events[..j]), events[i].item, After(r, events[..i]).sent[events[i].token].reply);
    }
    AfterNext(r, events, j - 1);
    if i == j - 1 {
      AlwaysHeld(r, events, i);
      BlockShows(r, After(r, events[..i]), events[i].item, events[i].token);
    } else {
      ParkStands(r, events, i, j - 1);
      ApplyKeepsBlocked(r, After(r, events[..j - 1]), events[j - 1], events[i].item);
    }
  }

  /** A history in which the reply is published and the item then parked: the requester is not shown the reply. */
  lemma ParkedBesideItsReply(r: Rules)
    ensures var events := FirstHalf() + [Block("o", 1)]; var l := After(r, events);
            && History(r, events) && ShowsBlocked(l, "o") && 1 in l.sent && l.sent[1].reply == "r"
            && ReadBack(l, "o", "r") == Ref("o", "r", r.finger(1))
            && Verdict(l, "requester", "o") == Stopped(Blocked)
  {
    FirstLeasePublishes(r);
    var l := After(r, FirstHalf());
    var l' := Put(l, "o", l.items["o"].(status := Blocked, token := None, outcome := Note));
    Next(r, FirstHalf(), Block("o", 1), l');
    ReadsFirstReply(r, l');
  }
}
