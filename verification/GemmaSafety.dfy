/**
 What holds over every interleaving of workers, owner and clock: completion is fenced and happens once,
 behind the reply it names; and exactly when that reply is the completing lease's own.
 */
module GemmaSafety {
  import opened Wrappers
  import opened GemmaEnvelope
  import opened GemmaLedger

  // ---- Invariants ----

  ghost predicate Leases(l: Ledger) {
    && (forall id :: id in l.items && l.items[id].token.Some? ==>
          id in l.holder && l.holder[id] == l.items[id].token.value && Live(l.items[id]))
    && (forall id :: id in l.holder ==> l.holder[id] in l.tokens)
    && (forall p :: p in l.verified ==> p.1 in l.tokens)
    && (forall t :: t in l.sent ==> t in l.tokens)
  }

  ghost predicate Authors(l: Ledger) {
    && (forall k :: k in l.keys ==> l.keys[k] in l.author)
    && (forall id :: id in l.author ==> id in l.items && l.author[id] in l.sent && l.sent[l.author[id]] == Receipt(id, false))
    && (forall t :: t in l.sent ==> l.sent[t].reply in l.author && (!l.sent[t].deduped <==> l.author[l.sent[t].reply] == t))
  }

  // The completion an item's result names was published for it, and is what the last lease's send returned.
  predicate Named(l: Ledger, id: string)
    requires id in l.items
  {
    var o := l.items[id].outcome;
    o.Ref? ==>
      && l.items[id].status == Completed
      && id in l.holder && l.holder[id] in l.sent && l.sent[l.holder[id]].reply == o.reply
      && o == Carried(l, id, o.reply)
  }

  ghost predicate Inv(l: Ledger) {
    Leases(l) && Authors(l) && AllNamed(l)
  }

  ghost predicate AllNamed(l: Ledger) {
    forall id :: id in l.items ==> Named(l, id)
  }

  // The text has at most grown, on further lines.
  predicate Grows(a: string, b: string) {
    a <= b && (a == b || b[|a|] == '\n')
  }

  // Its sender and title stay, and its text only grows: nothing of what it correlates with changes.
  predicate SameHead(i: Item, i': Item) {
    i'.from == i.from && i'.title == i.title && Grows(i.instructions, i'.instructions)
  }

  ghost predicate KeepsHeads(l: Ledger, l': Ledger) {
    forall id :: id in l.items ==> id in l'.items && SameHead(l.items[id], l'.items[id])
  }

  lemma CarriedStays(l: Ledger, l': Ledger, id: string, reply: string)
    requires reply in l.items && reply in l'.items && SameHead(l.items[reply], l'.items[reply])
    ensures Carried(l', id, reply) == Carried(l, id, reply)
  {
    var a, b := l.items[reply].instructions, l'.items[reply].instructions;
    assert b == a + b[|a|..];
    FirstLineStays(a, b[|a|..]);
  }

  // Every letter is as it was, whatever became of the rest of its item.
  ghost predicate SameLetters(l: Ledger, l': Ledger) {
    l'.items.Keys == l.items.Keys && forall id :: id in l.items ==> LetterOf(l', id) == LetterOf(l, id)
  }

  lemma SameLettersKeep(l: Ledger, l': Ledger)
    requires SameLetters(l, l')
    ensures KeepsHeads(l, l')
  {
    forall id | id in l.items
      ensures id in l'.items && SameHead(l.items[id], l'.items[id])
    {
      assert LetterOf(l', id) == LetterOf(l, id);
    }
  }

  lemma StillNamed(l: Ledger, l': Ledger, id: string)
    requires SameLetters(l, l') && id in l.items && Named(l, id)
    requires l'.items[id] == l.items[id] && l'.sent == l.sent
    requires id in l.holder ==> id in l'.holder && l'.holder[id] == l.holder[id]
    ensures Named(l', id)
  {
    var o := l.items[id].outcome;
    if o.Ref? {
      assert o.reply in l.items;
      assert LetterOf(l', o.reply) == LetterOf(l, o.reply);
    }
  }

  lemma NotedKeepsHead(i: Item, note: string)
    ensures SameHead(i, Noted(i, note))
  {
    assert Noted(i, note).instructions == i.instructions + (RULE + note);
  }

  // An item that gives a lease up or keeps it, and keeps its result or loses it to a note.
  predicate QuietItem(i: Item, i': Item) {
    && SameHead(i, i')
    && (i'.token.Some? ==> i'.token == i.token && Live(i'))
    && (i'.outcome.Ref? ==> i'.outcome == i.outcome && i'.status == i.status)
  }

  ghost predicate Quiet(l: Ledger, l': Ledger) {
    && l'.keys == l.keys && l'.author == l.author && l'.sent == l.sent && l'.holder == l.holder && l'.tokens == l.tokens
    && (forall p :: p in l'.verified ==> p in l.verified || p.1 in l.tokens)
    && (forall id :: id in l.items ==> id in l'.items && QuietItem(l.items[id], l'.items[id]))
    && (forall id :: id in l'.items && id !in l.items ==> l'.items[id].token.None? && !l'.items[id].outcome.Ref?)
  }

  predicate Special(e: Event) {
    e.Claim? || e.Send? || e.Complete?
  }

  lemma PutIsQuiet(l: Ledger, id: string, i: Item)
    requires Leases(l) && id in l.items && QuietItem(l.items[id], i)
    ensures Quiet(l, Put(l, id, i))
  {
  }

  lemma NotedIsQuiet(l: Ledger, id: string, i: Item, note: string)
    requires Leases(l) && id in l.items && Named(l, id) && l.items[id].token.None?
    requires l.items[id].status == Open || l.items[id].status == Closed
    requires i == Noted(l.items[id], note).(to := i.to, status := i.status, outcome := i.outcome)
    requires i.outcome == l.items[id].outcome || i.outcome == NoOutcome
    ensures Quiet(l, Put(l, id, i))
  {
    NotedKeepsHead(l.items[id], note);
    PutIsQuiet(l, id, i);
  }

  lemma FencedIsQuiet(r: Rules, l: Ledger, e: Event)
    requires Leases(l) && Apply(r, l, e).Some?
    requires e.Start? || e.Renew? || e.Fail? || e.Block?
    requires Named(l, e.item)
    ensures Quiet(l, Apply(r, l, e).value)
  {
    var i := l.items[e.item];
    match e
    case Start(id, _) => PutIsQuiet(l, id, i.(status := Working));
    case Renew(id, _, ttl) => PutIsQuiet(l, id, i.(expires := l.clock + ttl));
    case Fail(id, _) => PutIsQuiet(l, id, Attempted(i));
    case Block(id, _) => PutIsQuiet(l, id, i.(status := Blocked, token := None, outcome := Note));
  }

  predicate ByRouter(e: Event) {
    e.CloseOpen? || e.HandOff? || e.ReopenClosed? || e.Redirect? || e.Arrive?
  }

  lemma RouterIsQuiet(r: Rules, l: Ledger, e: Event)
    requires Leases(l) && AllNamed(l) && Apply(r, l, e).Some? && ByRouter(e)
    ensures Quiet(l, Apply(r, l, e).value)
  {
    match e
    case Arrive(_, _) =>
    case CloseOpen(id) => PutIsQuiet(l, id, l.items[id].(status := Closed, outcome := Note));
    case HandOff(id, to, note) => assert Named(l, id); NotedIsQuiet(l, id, Noted(l.items[id], note).(to := to), note);
    case ReopenClosed(id, note) =>
      assert Named(l, id);
      NotedIsQuiet(l, id, Noted(l.items[id], note).(status := Open, outcome := NoOutcome), note);
    case Redirect(_, _) =>
  }

  lemma OthersAreQuiet(r: Rules, l: Ledger, e: Event)
    requires Leases(l) && AllNamed(l)
    requires Apply(r, l, e).Some? && !Special(e)
    ensures Quiet(l, Apply(r, l, e).value)
  {
    if ByRouter(e) {
      RouterIsQuiet(r, l, e);
    } else {
      match e
      case Tick(_) =>
      case Verify(_, _) =>
      case Ack(id) => PutIsQuiet(l, id, l.items[id].(acked := true));
      case ForceComplete(id) => PutIsQuiet(l, id, l.items[id].(status := Completed, token := None, outcome := Note));
      case ForceDeadLetter(id) => PutIsQuiet(l, id, l.items[id].(status := DeadLetter, token := None, outcome := Note));
      case Reopen(id) => PutIsQuiet(l, id, l.items[id].(status := Open, token := None, attempts := 0, outcome := Note));
      case Start(id, _) => assert Named(l, id); FencedIsQuiet(r, l, e);
      case Renew(id, _, _) => assert Named(l, id); FencedIsQuiet(r, l, e);
      case Fail(id, _) => assert Named(l, id); FencedIsQuiet(r, l, e);
      case Block(id, _) => assert Named(l, id); FencedIsQuiet(r, l, e);
      case _ =>
    }
  }

  lemma QuietKeepsInv(l: Ledger, l': Ledger)
    requires Inv(l) && Quiet(l, l')
    ensures Inv(l') && KeepsHeads(l, l')
  {
    forall id | id in l'.items
      ensures Named(l', id)
    {
      if id in l.items && l'.items[id].outcome.Ref? {
        assert Named(l, id) && QuietItem(l.items[id], l'.items[id]);
        var reply := l.items[id].outcome.reply;
        assert QuietItem(l.items[reply], l'.items[reply]);
        CarriedStays(l, l', id, reply);
      }
    }
  }

  lemma ReclaimIsQuiet(l: Ledger)
    requires Leases(l) && AllNamed(l)
    ensures Quiet(l, l.(items := Reclaimed(l)))
  {
    forall id | id in l.items
      ensures QuietItem(l.items[id], Reclaimed(l)[id])
    {
      assert Named(l, id);
    }
  }

  function Taken(l: Ledger, id: string, t: Token, ttl: nat): Ledger
    requires id in l.items
  {
    l.(items := l.items[id := l.items[id].(status := Claimed, token := Some(t), expires := l.clock + ttl)],
       tokens := l.tokens + {t}, holder := l.holder[id := t])
  }

  lemma TakeKeepsLetters(l: Ledger, id: string, t: Token, ttl: nat)
    requires id in l.items
    ensures SameLetters(l, Taken(l, id, t, ttl))
  {
  }

  lemma TakeKeepsAccounts(l: Ledger, id: string, t: Token, ttl: nat)
    requires Leases(l) && Authors(l) && t !in l.tokens && id in l.items
    ensures Leases(Taken(l, id, t, ttl)) && Authors(Taken(l, id, t, ttl))
  {
  }

  lemma TakeKeepsNamed(l: Ledger, id: string, t: Token, ttl: nat)
    requires AllNamed(l) && id in l.items && l.items[id].status == Open
    ensures AllNamed(Taken(l, id, t, ttl))
  {
    var l' := Taken(l, id, t, ttl);
    TakeKeepsLetters(l, id, t, ttl);
    forall x | x in l'.items
      ensures Named(l', x)
    {
      assert Named(l, x);
      if x != id {
        StillNamed(l, l', x);
      }
    }
  }

  lemma TakeKeepsInv(l: Ledger, id: string, t: Token, ttl: nat)
    requires Inv(l) && t !in l.tokens && id in l.items && l.items[id].status == Open
    ensures Inv(Taken(l, id, t, ttl)) && KeepsHeads(l, Taken(l, id, t, ttl))
  {
    TakeKeepsLetters(l, id, t, ttl);
    SameLettersKeep(l, Taken(l, id, t, ttl));
    TakeKeepsAccounts(l, id, t, ttl);
    TakeKeepsNamed(l, id, t, ttl);
  }

  lemma KeepsHeadsTransitive(a: Ledger, b: Ledger, c: Ledger)
    requires KeepsHeads(a, b) && KeepsHeads(b, c)
    ensures KeepsHeads(a, c)
  {
  }

  lemma ClaimTakes(r: Rules, l: Ledger, m: Ledger, id: string, t: Token, ttl: nat)
    requires m == l.(items := Reclaimed(l))
    requires t !in l.tokens && id in m.items && m.items[id].status == Open && m.items[id].to == GEMMA
    ensures Apply(r, l, Claim(id, t, ttl)) == Some(Taken(m, id, t, ttl))
  {
  }

  // After the expired leases are given back, a claim moves one open item to a new token.
  lemma ClaimKeepsInv(r: Rules, l: Ledger, id: string, t: Token, ttl: nat)
    requires Inv(l) && Apply(r, l, Claim(id, t, ttl)).Some?
    ensures Inv(Apply(r, l, Claim(id, t, ttl)).value) && KeepsHeads(l, Apply(r, l, Claim(id, t, ttl)).value)
  {
    var m := l.(items := Reclaimed(l));
    assert Inv(m) && KeepsHeads(l, m) by {
      ReclaimIsQuiet(l);
      QuietKeepsInv(l, m);
    }
    ClaimTakes(r, l, m, id, t, ttl);
    TakeKeepsInv(m, id, t, ttl);
    KeepsHeadsTransitive(l, m, Taken(m, id, t, ttl));
  }

  lemma SendKeepsAuthors(r: Rules, l: Ledger, id: string, t: Token, draft: string, newId: string)
    requires Authors(l) && t !in l.sent && id in l.items && Sent(r, l, id, t, draft, newId).Some?
    ensures Authors(Sent(r, l, id, t, draft, newId).value)
  {
  }

  lemma SendKeepsNamed(r: Rules, l: Ledger, id: string, t: Token, draft: string, newId: string)
    requires Leases(l) && AllNamed(l)
    requires t !in l.sent && id in l.items && Sent(r, l, id, t, draft, newId).Some?
    ensures var l' := Sent(r, l, id, t, draft, newId).value; AllNamed(l')
  {
    var l' := Sent(r, l, id, t, draft, newId).value;
    forall x | x in l'.items
      ensures Named(l', x)
    {
      if x in l.items {
        assert Named(l, x);
      }
    }
  }

  lemma SendKeepsLeases(r: Rules, l: Ledger, id: string, t: Token, draft: string, newId: string)
    requires Leases(l) && t in l.tokens && id in l.items && Sent(r, l, id, t, draft, newId).Some?
    ensures Leases(Sent(r, l, id, t, draft, newId).value) && KeepsHeads(l, Sent(r, l, id, t, draft, newId).value)
  {
  }

  lemma SendKeepsInv(r: Rules, l: Ledger, id: string, t: Token, draft: string, newId: string)
    requires Inv(l) && Enabled(r, l, Send(id, t, draft, newId))
    ensures Inv(Sent(r, l, id, t, draft, newId).value) && KeepsHeads(l, Sent(r, l, id, t, draft, newId).value)
  {
    SendKeepsLeases(r, l, id, t, draft, newId);
    SendKeepsAuthors(r, l, id, t, draft, newId);
    SendKeepsNamed(r, l, id, t, draft, newId);
  }

  function Ended(l: Ledger, id: string, o: Outcome): Ledger
    requires id in l.items
  {
    Put(l, id, l.items[id].(status := Completed, token := None, outcome := o))
  }

  lemma EndKeepsNamed(l: Ledger, id: string, o: Outcome)
    requires AllNamed(l) && id in l.items && o.Ref? && id in l.holder && l.holder[id] in l.sent
    requires o == Carried(l, id, l.sent[l.holder[id]].reply)
    ensures AllNamed(Ended(l, id, o)) && SameLetters(l, Ended(l, id, o))
  {
    var l' := Ended(l, id, o);
    assert SameLetters(l, l');
    forall x | x in l'.items
      ensures Named(l', x)
    {
      assert Named(l, x);
      if x != id {
        StillNamed(l, l', x);
      } else {
        assert LetterOf(l', o.reply) == LetterOf(l, o.reply);
      }
    }
  }

  lemma EndKeepsAccounts(l: Ledger, id: string, o: Outcome)
    requires Leases(l) && Authors(l) && id in l.items
    ensures Leases(Ended(l, id, o)) && Authors(Ended(l, id, o))
  {
  }

  lemma CompleteKeepsInv(r: Rules, l: Ledger, id: string, t: Token, o: Outcome)
    requires Inv(l) && Enabled(r, l, Complete(id, t, o))
    ensures Inv(Apply(r, l, Complete(id, t, o)).value) && KeepsHeads(l, Apply(r, l, Complete(id, t, o)).value)
  {
    assert Apply(r, l, Complete(id, t, o)) == Some(Ended(l, id, o));
    EndKeepsNamed(l, id, o);
    EndKeepsAccounts(l, id, o);
    SameLettersKeep(l, Ended(l, id, o));
  }

  lemma OtherKeepsInv(r: Rules, l: Ledger, e: Event)
    requires Inv(l) && Apply(r, l, e).Some? && !Special(e)
    ensures Inv(Apply(r, l, e).value) && KeepsHeads(l, Apply(r, l, e).value)
  {
    OthersAreQuiet(r, l, e);
    QuietKeepsInv(l, Apply(r, l, e).value);
  }

  lemma ApplyKeepsInv(r: Rules, l: Ledger, e: Event)
    requires Inv(l) && Enabled(r, l, e)
    ensures Inv(Apply(r, l, e).value) && KeepsHeads(l, Apply(r, l, e).value)
  {
    match e
    case Claim(id, t, ttl) => ClaimKeepsInv(r, l, id, t, ttl);
    case Send(id, t, draft, newId) => SendKeepsInv(r, l, id, t, draft, newId);
    case Complete(id, t, o) => CompleteKeepsInv(r, l, id, t, o);
    case _ => OtherKeepsInv(r, l, e);
  }

  lemma {:induction false} HistoryKeepsInv(r: Rules, events: seq<Event>, i: nat)
    requires History(r, events) && i <= |events|
    ensures Inv(After(r, events[..i]))
  {
    if i > 0 {
      HistoryKeepsInv(r, events, i - 1);
      AfterNext(r, events, i - 1);
      ApplyKeepsInv(r, After(r, events[..i - 1]), events[i - 1]);
    }
  }

  // ---- Theorems over histories ----

  /** Only the latest claim of an item can complete it, while its lease runs, after its own send returned the reply. */
  lemma CompletionIsFenced(r: Rules, events: seq<Event>, i: nat)
    requires History(r, events) && i < |events| && events[i].Complete?
    ensures var l, id, t := After(r, events[..i]), events[i].item, events[i].token;
            && id in l.items && id in l.holder && l.holder[id] == t && l.clock < l.items[id].expires
            && t in l.sent && events[i].outcome.Ref? && events[i].outcome == Carried(l, id, l.sent[t].reply)
            && events[i].outcome == Ref(id, l.sent[t].reply, events[i].outcome.correlation)
            && l.sent[t].reply in l.items
            && Correlation(LetterOf(l, l.sent[t].reply), id) == events[i].outcome.correlation
  {
    AfterNext(r, events, i);
    HistoryKeepsInv(r, events, i);
  }

  /**
   The reply a completion names was written by the completing lease exactly when the send was not
   answered with an earlier reply under the same key.
   */
  lemma OwnReplyIffNotDeduplicated(r: Rules, events: seq<Event>, i: nat)
    requires History(r, events) && i < |events| && events[i].Complete?
    ensures var l, t := After(r, events[..i]), events[i].token;
            && t in l.sent && l.sent[t].reply in l.author
            && (l.author[l.sent[t].reply] == t <==> !l.sent[t].deduped)
  {
    AfterNext(r, events, i);
    HistoryKeepsInv(r, events, i);
  }

  lemma ApplyKeepsClaims(r: Rules, l: Ledger, e: Event, id: string, t: Token)
    requires Apply(r, l, e).Some? && t in l.tokens
    ensures t in Apply(r, l, e).value.tokens
    ensures id in l.holder && l.holder[id] != t ==>
              id in Apply(r, l, e).value.holder && Apply(r, l, e).value.holder[id] != t
  {
  }

  lemma ApplyKeepsTerminal(r: Rules, l: Ledger, e: Event, id: string)
    requires Apply(r, l, e).Some? && e != Reopen(id)
    requires id in l.items && IsFinal(l.items[id].status)
    ensures id in Apply(r, l, e).value.items && IsFinal(Apply(r, l, e).value.items[id].status)
  {
  }

  lemma {:induction false} IssuedStays(r: Rules, events: seq<Event>, i: nat, j: nat, t: Token)
    requires History(r, events) && i <= j <= |events| && t in After(r, events[..i]).tokens
    ensures t in After(r, events[..j]).tokens
    decreases j
  {
    if i < j {
      IssuedStays(r, events, i, j - 1, t);
      AfterNext(r, events, j - 1);
      ApplyKeepsClaims(r, After(r, events[..j - 1]), events[j - 1], "", t);
    }
  }

  lemma {:induction false} LostStaysLost(r: Rules, events: seq<Event>, i: nat, j: nat, id: string, t: Token)
    requires History(r, events) && i <= j <= |events|
    requires t in After(r, events[..i]).tokens
    requires id in After(r, events[..i]).holder && After(r, events[..i]).holder[id] != t
    ensures id in After(r, events[..j]).holder && After(r, events[..j]).holder[id] != t
    decreases j
  {
    if i < j {
      LostStaysLost(r, events, i, j - 1, id, t);
      IssuedStays(r, events, i, j - 1, t);
      AfterNext(r, events, j - 1);
      ApplyKeepsClaims(r, After(r, events[..j - 1]), events[j - 1], id, t);
    }
  }

  predicate UsesLease(e: Event, id: string, t: Token) {
    match e
    case Start(i, u) => i == id && u == t
    case Renew(i, u, _) => i == id && u == t
    case Verify(i, u) => i == id && u == t
    case Complete(i, u, _) => i == id && u == t
    case Fail(i, u) => i == id && u == t
    case Block(i, u) => i == id && u == t
    case _ => false
  }

  // Without the latest claim a lease's own operations are refused.
  lemma PowerlessNow(r: Rules, l: Ledger, e: Event, id: string, t: Token)
    requires Leases(l) && Apply(r, l, e).Some? && id in l.holder && l.holder[id] != t
    ensures !UsesLease(e, id, t)
  {
  }

  lemma ClaimedNow(r: Rules, events: seq<Event>, i: nat)
    requires History(r, events) && i < |events| && events[i].Claim?
    ensures var l := After(r, events[..i + 1]);
            && events[i].token in l.tokens && events[i].item in l.holder && l.holder[events[i].item] == events[i].token
            && events[i].token !in After(r, events[..i]).tokens
  {
    AfterNext(r, events, i);
  }

  /** A worker whose item was claimed again can neither complete, fail, park, renew nor verify it, ever. */
  lemma SupersededIsPowerless(r: Rules, events: seq<Event>, i: nat, k: nat, j: nat)
    requires History(r, events) && i < k < j < |events|
    requires events[i].Claim? && events[k].Claim? && events[i].item == events[k].item
    ensures !UsesLease(events[j], events[i].item, events[i].token)
  {
    var id, t := events[i].item, events[i].token;
    ClaimedNow(r, events, i);
    IssuedStays(r, events, i + 1, k, t);
    IssuedStays(r, events, i + 1, k + 1, t);
    ClaimedNow(r, events, k);
    LostStaysLost(r, events, k + 1, j, id, t);
    AfterNext(r, events, j);
    HistoryKeepsInv(r, events, j);
    PowerlessNow(r, After(r, events[..j]), events[j], id, t);
  }

  lemma {:induction false} TerminalStays(r: Rules, events: seq<Event>, i: nat, j: nat, id: string)
    requires History(r, events) && i <= j <= |events|
    requires id in After(r, events[..i]).items && IsFinal(After(r, events[..i]).items[id].status)
    requires forall k :: i <= k < j ==> events[k] != Reopen(id)
    ensures id in After(r, events[..j]).items && IsFinal(After(r, events[..j]).items[id].status)
    decreases j
  {
    if i < j {
      TerminalStays(r, events, i, j - 1, id);
      AfterNext(r, events, j - 1);
      ApplyKeepsTerminal(r, After(r, events[..j - 1]), events[j - 1], id);
    }
  }

  /** An item is completed by a worker at most once between two reopenings by the owner. */
  lemma CompletedOnce(r: Rules, events: seq<Event>, i: nat, j: nat)
    requires History(r, events) && i < j < |events|
    requires events[i].Complete? && events[j].Complete? && events[i].item == events[j].item
    ensures exists k :: i < k < j && events[k] == Reopen(events[i].item)
  {
    var id := events[i].item;
    AfterNext(r, events, i);
    AfterNext(r, events, j);
    if forall k :: i + 1 <= k < j ==> events[k] != Reopen(id) {
      TerminalStays(r, events, i + 1, j, id);
    }
  }

  datatype Shared = Unread | NotMine | Pending | Stopped(status: Status) | Unavailable | Finished(reply: string, draft: string)

  // What a reader makes of an original and of the reply that it names, read at two moments.
  function VerdictAcross(l: Ledger, l': Ledger, actor: string, id: string): Shared {
    if id !in l.items then Unread
    else
      var o := l.items[id];
      if o.from != actor || o.to != GEMMA then NotMine
      else if o.status == Blocked || o.status == DeadLetter then Stopped(o.status)
      else if o.status != Completed && o.status != Closed then Pending
      else if !o.outcome.Ref? || o.outcome.original != id || o.outcome.reply == "" then Unavailable
      else if o.outcome.reply !in l'.items then Unread
      else
        var reply := LetterOf(l', o.outcome.reply);
        var finger := Fingerprint(reply, actor, id);
        if finger != "" && finger == o.outcome.correlation then Finished(reply.id, reply.instructions) else Unavailable
  }

  // What a requester reports of one snapshot of the ledger.
  function Verdict(l: Ledger, actor: string, id: string): Shared {
    VerdictAcross(l, l, actor, id)
  }

  // The actor's own item, completed with a worker's reference.
  predicate Answers(l: Ledger, actor: string, id: string) {
    id in l.items && l.items[id].from == actor && l.items[id].to == GEMMA && l.items[id].outcome.Ref?
  }

  lemma FinishedIffHeld(l: Ledger, l': Ledger, actor: string, id: string)
    requires Inv(l) && KeepsHeads(l, l')
    ensures VerdictAcross(l, l', actor, id).Finished? <==>
              Answers(l, actor, id) && l.items[id].outcome.reply in l'.items && l'.items[l.items[id].outcome.reply].to == actor
    ensures var v := VerdictAcross(l, l', actor, id);
            v.Finished? ==>
              && id in l.holder && l.holder[id] in l.sent && l.sent[l.holder[id]].reply == v.reply
              && v.reply in l.items && Grows(l.items[v.reply].instructions, v.draft)
              && v.reply in l'.items && v.draft == l'.items[v.reply].instructions
  {
    if id in l.items {
      assert Named(l, id);
      var o := l.items[id].outcome;
      if o.Ref? {
        assert SameHead(l.items[o.reply], l'.items[o.reply]);
        CarriedStays(l, l', id, o.reply);
      }
    }
  }

  /**
   A requester reports `completed` exactly for its own item whose result is a worker's reference, as long as
   it holds the reply that the reference names; and this is the reply that the send of the item's latest
   lease returned.
   */
  lemma VerdictNamesTheLatestLease(r: Rules, events: seq<Event>, actor: string, id: string)
    requires History(r, events)
    ensures var l := After(r, events);
            Verdict(l, actor, id).Finished? <==>
              Answers(l, actor, id) && l.items[id].outcome.reply in l.items && l.items[l.items[id].outcome.reply].to == actor
    ensures var l, v := After(r, events), Verdict(After(r, events), actor, id);
            v.Finished? ==>
              && id in l.holder && l.holder[id] in l.sent && l.sent[l.holder[id]].reply == v.reply
              && v.reply in l.items && v.draft == l.items[v.reply].instructions
  {
    HistoryKeepsInv(r, events, |events|);
    assert events[..|events|] == events;
    FinishedIffHeld(After(r, events), After(r, events), actor, id);
  }

  // ---- A superseded worker's reply can be the one that completes ----

  const ORIGINAL := Letter("o", "requester", GEMMA, "question", "text")

  function Original(status: Status, token: Option<Token>, expires: nat, attempts: nat, acked: bool): Item {
    Item("requester", GEMMA, "question", "text", status, token, expires, attempts, acked, NoOutcome)
  }

  function FirstReply(r: Rules): Letter {
    Reply("r", "requester", "o", "question", r.finger(1), "first draft")
  }

  function FirstReplyItem(r: Rules): Item {
    var m := FirstReply(r);
    Item(m.from, m.to, m.title, m.instructions, Open, None, 0, 0, false, NoOutcome)
  }

  function HourKey(r: Rules): Key {
    Key("requester", r.slug(ReplyTitle("o", "question")), 0)
  }

  // The ledger while lease 1 has published and, from `clock` 10 on, lease 2 holds the item.
  function Contended(r: Rules, clock: nat, original: Item, tokens: set<Token>, holder: Token,
                     verified: set<(string, Token)>, sent: map<Token, Receipt>): Ledger {
    Ledger(clock, map["o" := original, "r" := FirstReplyItem(r)], map[HourKey(r) := "r"], tokens,
           map["o" := holder], verified, sent, map["r" := 1], map[])
  }

  lemma Next(r: Rules, events: seq<Event>, e: Event, l: Ledger)
    requires History(r, events) && Apply(r, After(r, events), e) == Some(l) && Disciplined(After(r, events), e)
    ensures History(r, events + [e]) && After(r, events + [e]) == l
  {
    HistoryExtends(r, events, e);
  }

  function FirstHalf(): seq<Event> {
    [Arrive("o", ORIGINAL)] + [Claim("o", 1, 10)] + [Ack("o")] + [Verify("o", 1)] + [Send("o", 1, "first draft", "r")]
  }

  function SecondHalf(r: Rules): seq<Event> {
    FirstHalf() + [Tick(10)] + [Claim("o", 2, 10)] + [Verify("o", 2)] + [Send("o", 2, "second draft", "s")]
    + [Complete("o", 2, Ref("o", "r", r.finger(1)))]
  }

  lemma FirstLeaseVerifies(r: Rules)
    ensures var events := [Arrive("o", ORIGINAL)] + [Claim("o", 1, 10)] + [Ack("o")] + [Verify("o", 1)];
            && History(r, events)
            && After(r, events) == Ledger(0, map["o" := Original(Claimed, Some(1), 10, 0, true)], map[], {1},
                                          map["o" := 1], {("o", 1)}, map[], map[], map[])
  {
    HistoryExtends(r, [], Arrive("o", ORIGINAL));
    var e1 := [Arrive("o", ORIGINAL)];
    assert [] + e1 == e1;
    var l1 := EmptyLedger().(items := map["o" := Original(Open, None, 0, 0, false)]);
    assert After(r, e1) == l1;
    var l2 := Ledger(0, map["o" := Original(Claimed, Some(1), 10, 0, false)], map[], {1}, map["o" := 1], {}, map[], map[], map[]);
    assert Apply(r, l1, Claim("o", 1, 10)) == Some(l2) by {
      var a := Apply(r, l1, Claim("o", 1, 10)).value;
      assert a.items == l2.items && a.tokens == l2.tokens && a.holder == l2.holder;
    }
    Next(r, e1, Claim("o", 1, 10), l2);
    var l3 := Put(l2, "o", Original(Claimed, Some(1), 10, 0, true));
    Next(r, e1 + [Claim("o", 1, 10)], Ack("o"), l3);
    assert l3.verified + {("o", 1)} == {("o", 1)};
    Next(r, e1 + [Claim("o", 1, 10)] + [Ack("o")], Verify("o", 1), l3.(verified := {("o", 1)}));
  }

  lemma FirstLeasePublishes(r: Rules)
    ensures History(r, FirstHalf())
    ensures After(r, FirstHalf())
         == Contended(r, 0, Original(Claimed, Some(1), 10, 0, true), {1}, 1, {("o", 1)}, map[1 := Receipt("r", false)])
  {
    FirstLeaseVerifies(r);
    var events := [Arrive("o", ORIGINAL)] + [Claim("o", 1, 10)] + [Ack("o")] + [Verify("o", 1)];
    Next(r, events, Send("o", 1, "first draft", "r"),
         Contended(r, 0, Original(Claimed, Some(1), 10, 0, true), {1}, 1, {("o", 1)}, map[1 := Receipt("r", false)]));
  }

  function FirstSent(): map<Token, Receipt> {
    map[1 := Receipt("r", false)]
  }

  lemma ExpiryGivesBack(r: Rules)
    ensures var l := Contended(r, 10, Original(Claimed, Some(1), 10, 0, true), {1}, 1, {("o", 1)}, FirstSent());
            Reclaimed(l) == map["o" := Original(Open, None, 10, 1, true), "r" := FirstReplyItem(r)]
  {
  }

  lemma SecondTakes(r: Rules, l: Ledger)
    requires l == Contended(r, 10, Original(Open, None, 10, 1, true), {1}, 1, {("o", 1)}, FirstSent())
    ensures Taken(l, "o", 2, 10)
            == Contended(r, 10, Original(Claimed, Some(2), 20, 1, true), {1, 2}, 2, {("o", 1)}, FirstSent())
  {
    var l' := Taken(l, "o", 2, 10);
    assert l'.tokens == {1, 2};
    assert l'.holder == map["o" := 2];
    assert l'.items == map["o" := Original(Claimed, Some(2), 20, 1, true), "r" := FirstReplyItem(r)];
  }

  lemma SecondClaim(r: Rules, l: Ledger)
    requires l == Contended(r, 10, Original(Claimed, Some(1), 10, 0, true), {1}, 1, {("o", 1)}, FirstSent())
    ensures Apply(r, l, Claim("o", 2, 10))
            == Some(Contended(r, 10, Original(Claimed, Some(2), 20, 1, true), {1, 2}, 2, {("o", 1)}, FirstSent()))
  {
    var m := l.(items := map["o" := Original(Open, None, 10, 1, true), "r" := FirstReplyItem(r)]);
    assert Reclaimed(l) == m.items by {
      ExpiryGivesBack(r);
    }
    ClaimTakes(r, l, m, "o", 2, 10);
    SecondTakes(r, m);
  }

  lemma SecondLeaseTakesOver(r: Rules)
    ensures var events := FirstHalf() + [Tick(10)] + [Claim("o", 2, 10)];
            && History(r, events)
            && After(r, events) == Contended(r, 10, Original(Claimed, Some(2), 20, 1, true), {1, 2}, 2, {("o", 1)}, FirstSent())
  {
    FirstLeasePublishes(r);
    var l := Contended(r, 10, Original(Claimed, Some(1), 10, 0, true), {1}, 1, {("o", 1)}, FirstSent());
    Next(r, FirstHalf(), Tick(10), l);
    SecondClaim(r, l);
    var l' := Contended(r, 10, Original(Claimed, Some(2), 20, 1, true), {1, 2}, 2, {("o", 1)}, FirstSent());
    Next(r, FirstHalf() + [Tick(10)], Claim("o", 2, 10), l');
  }

  lemma SecondLeaseIsAnsweredWithTheFirstReply(r: Rules)
    ensures var events := FirstHalf() + [Tick(10)] + [Claim("o", 2, 10)] + [Verify("o", 2)] + [Send("o", 2, "second draft", "s")];
            && History(r, events)
            && After(r, events) == Contended(r, 10, Original(Claimed, Some(2), 20, 1, true), {1, 2}, 2, {("o", 1), ("o", 2)},
                                             map[1 := Receipt("r", false), 2 := Receipt("r", true)])
  {
    SecondLeaseTakesOver(r);
    var events := FirstHalf() + [Tick(10)] + [Claim("o", 2, 10)];
    var l8 := After(r, events).(verified := {("o", 1), ("o", 2)});
    assert {("o", 1)} + {("o", 2)} == l8.verified;
    Next(r, events, Verify("o", 2), l8);
    Next(r, events + [Verify("o", 2)], Send("o", 2, "second draft", "s"),
         l8.(sent := map[1 := Receipt("r", false), 2 := Receipt("r", true)]));
  }

  lemma SecondLeaseCompletes(r: Rules, l: Ledger)
    requires l == Contended(r, 10, Original(Claimed, Some(2), 20, 1, true), {1, 2}, 2, {("o", 1), ("o", 2)},
                            map[1 := Receipt("r", false), 2 := Receipt("r", true)])
    ensures var o := Ref("o", "r", r.finger(1));
            var l' := Put(l, "o", l.items["o"].(status := Completed, token := None, outcome := o));
            && Apply(r, l, Complete("o", 2, o)) == Some(l') && Disciplined(l, Complete("o", 2, o))
  {
    ReadsFirstReply(r, l);
  }

  lemma FirstReplyIsReported(r: Rules, l: Ledger)
    requires "o" in l.items && "r" in l.items && l.items["r"] == FirstReplyItem(r)
    requires l.items["o"].from == "requester" && l.items["o"].to == GEMMA && l.items["o"].status == Completed
    requires l.items["o"].outcome == Ref("o", "r", r.finger(1))
    ensures Verdict(l, "requester", "o") == Finished("r", FirstReply(r).instructions)
  {
    ReadsFirstReply(r, l);
  }

  /** A history of the protocol in which lease 2 completes the item with the reply that lease 1 wrote. */
  lemma SupersededReplyCompletes(r: Rules)
    ensures var events := SecondHalf(r);
            && History(r, events) && After(r, events).author == map["r" := 1]
            && events[|events| - 1] == Complete("o", 2, Ref("o", "r", r.finger(1)))
            && Verdict(After(r, events), "requester", "o") == Finished("r", FirstReply(r).instructions)
  {
    SecondLeaseIsAnsweredWithTheFirstReply(r);
    var events := FirstHalf() + [Tick(10)] + [Claim("o", 2, 10)] + [Verify("o", 2)] + [Send("o", 2, "second draft", "s")];
    var l, o := After(r, events), Ref("o", "r", r.finger(1));
    SecondLeaseCompletes(r, l);
    var l' := Put(l, "o", l.items["o"].(status := Completed, token := None, outcome := o));
    Next(r, events, Complete("o", 2, o), l');
    FirstReplyIsReported(r, l');
  }

  lemma ReadsFirstReply(r: Rules, l: Ledger)
    requires "o" in l.items && "r" in l.items && l.items["r"] == FirstReplyItem(r) && l.items["o"].from == "requester"
    ensures LetterOf(l, "r") == FirstReply(r)
    ensures Fingerprint(FirstReply(r), "requester", "o") == r.finger(1)
    ensures ReadBack(l, "o", "r") == Ref("o", "r", r.finger(1))
  {
    RoundTrip("r", "requester", "o", "question", r.finger(1), "first draft");
  }
}
