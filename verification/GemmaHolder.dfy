/**
 Who holds a reply: its recipient may hand it on, and mail to a redirected name goes elsewhere. So a
 requester is told that its item is completed exactly as long as the reply is addressed to it.
 */
module GemmaHolder {
  import opened Wrappers
  import opened GemmaEnvelope
  import opened GemmaLedger
  import opened GemmaSafety

  function LastHandOff(events: seq<Event>, x: string): Option<string> {
    if events == [] then None
    else
      var e := events[|events| - 1];
      if e.HandOff? && e.item == x then Some(e.to) else LastHandOff(events[..|events| - 1], x)
  }

  // The send makes the reply: its key was free, and this is the new identity.
  predicate Makes(r: Rules, l: Ledger, e: Event, x: string) {
    e.Send? && e.newId == x && e.item in l.items && SendKey(r, l, e.item) !in l.keys
  }

  // Whom the reply was delivered to by the send that made it.
  function SentTo(r: Rules, events: seq<Event>, x: string): Option<string> {
    if events == [] then None
    else
      var before, e := events[..|events| - 1], events[|events| - 1];
      var l := After(r, before);
      if Makes(r, l, e, x) then Some(Deliver(l, l.items[e.item].from)) else SentTo(r, before, x)
  }

  // The one it was last handed to, or else the one it was sent to.
  function Address(r: Rules, events: seq<Event>, x: string): Option<string> {
    if LastHandOff(events, x).Some? then LastHandOff(events, x) else SentTo(r, events, x)
  }

  ghost predicate Addressed(r: Rules, events: seq<Event>, l: Ledger) {
    && (forall x :: LastHandOff(events, x).Some? ==> x in l.items)
    && (forall x :: x in l.author ==> x in l.items && Address(r, events, x) == Some(l.items[x].to))
  }

  lemma ApplyMakes(r: Rules, l: Ledger, e: Event, x: string)
    requires Apply(r, l, e).Some?
    ensures var l' := Apply(r, l, e).value;
            && (x in l'.author <==> x in l.author || Makes(r, l, e, x))
            && (Makes(r, l, e, x) ==> x !in l.items && x in l'.items && l'.items[x].to == Deliver(l, l.items[e.item].from))
  {
  }

  lemma ApplyMoves(r: Rules, l: Ledger, e: Event, x: string)
    requires Apply(r, l, e).Some?
    ensures var l' := Apply(r, l, e).value;
            && (x in l.items ==> x in l'.items)
            && (e.HandOff? && e.item == x ==> x in l.items && l'.items[x].to == e.to)
            && (x in l.items && !(e.HandOff? && e.item == x) ==> l'.items[x].to == l.items[x].to)
  {
  }

  lemma ReplyStepsAddressed(r: Rules, events: seq<Event>, e: Event, x: string)
    requires Addressed(r, events, After(r, events)) && Apply(r, After(r, events), e).Some?
    ensures var l' := Apply(r, After(r, events), e).value;
            && (LastHandOff(events + [e], x).Some? ==> x in l'.items)
            && (x in l'.author ==> x in l'.items && Address(r, events + [e], x) == Some(l'.items[x].to))
  {
    var l := After(r, events);
    assert (events + [e])[..|events|] == events;
    ApplyMakes(r, l, e, x);
    ApplyMoves(r, l, e, x);
  }

  lemma {:induction false} AlwaysAddressed(r: Rules, events: seq<Event>, i: nat)
    requires History(r, events) && i <= |events|
    ensures Addressed(r, events[..i], After(r, events[..i]))
  {
    if i > 0 {
      AlwaysAddressed(r, events, i - 1);
      AfterNext(r, events, i - 1);
      var before, e := events[..i - 1], events[i - 1];
      assert events[..i] == before + [e];
      forall x
        ensures LastHandOff(events[..i], x).Some? ==> x in After(r, events[..i]).items
        ensures x in After(r, events[..i]).author ==>
                  x in After(r, events[..i]).items && Address(r, events[..i], x) == Some(After(r, events[..i]).items[x].to)
      {
        ReplyStepsAddressed(r, before, e, x);
      }
    }
  }

  /**
   Over every history: a requester reports `completed` if and only if its own item was completed with a
   worker's reference and the last hand-off of the reply was to the requester, or, if it was never handed
   off, the send that made it delivered it to the requester.
   */
  lemma FinishedIffAddressed(r: Rules, events: seq<Event>, actor: string, id: string)
    requires History(r, events)
    ensures var l := After(r, events);
            Verdict(l, actor, id).Finished? <==>
              Answers(l, actor, id) && Address(r, events, l.items[id].outcome.reply) == Some(actor)
  {
    HistoryKeepsInv(r, events, |events|);
    AlwaysAddressed(r, events, |events|);
    assert events[..|events|] == events;
    VerdictNamesTheLatestLease(r, events, actor, id);
    if Answers(After(r, events), actor, id) {
      assert Named(After(r, events), id);
    }
  }

  // ---- Without hand-offs and redirections nothing is lost ----

  predicate Redirected(events: seq<Event>, name: string) {
    exists k :: 0 <= k < |events| && events[k].Redirect? && events[k].name == name
  }

  lemma RedirectedGrows(events: seq<Event>, e: Event, name: string)
    ensures Redirected(events + [e], name) <==> Redirected(events, name) || (e.Redirect? && e.name == name)
  {
    var longer := events + [e];
    assert longer[|events|] == e && forall k :: 0 <= k < |events| ==> longer[k] == events[k];
  }

  lemma {:induction false} NotRedirected(r: Rules, events: seq<Event>, name: string)
    requires !Redirected(events, name)
    ensures name !in After(r, events).mailboxes
  {
    if events != [] {
      var before, e := events[..|events| - 1], events[|events| - 1];
      assert events == before + [e];
      RedirectedGrows(before, e, name);
      NotRedirected(r, before, name);
      MailboxesStay(r, After(r, before), e, name);
    }
  }

  lemma MailboxesStay(r: Rules, l: Ledger, e: Event, name: string)
    requires name !in l.mailboxes && !(e.Redirect? && e.name == name)
    ensures Apply(r, l, e).Some? ==> name !in Apply(r, l, e).value.mailboxes
  {
  }

  // A reply that correlates with an item was made for it, and delivered to its sender unless that was redirected.
  ghost predicate MadeFor(r: Rules, events: seq<Event>, l: Ledger, x: string)
    requires x in l.items
  {
    forall id :: Correlation(LetterOf(l, x), id) != "" ==> id in l.items && DeliveredTo(r, events, x, l.items[id].from)
  }

  predicate DeliveredTo(r: Rules, events: seq<Event>, x: string, name: string) {
    SentTo(r, events, x) == Some(name) || Redirected(events, name)
  }

  lemma NewReplyIsMadeFor(r: Rules, events: seq<Event>, e: Event, x: string)
    requires var l := After(r, events); Inv(l) && Enabled(r, l, e) && Makes(r, l, e, x)
    ensures var l' := Apply(r, After(r, events), e).value; x in l'.items && MadeFor(r, events + [e], l', x)
  {
    var l := After(r, events);
    var l' := Apply(r, l, e).value;
    var i := l.items[e.item];
    ApplyKeepsInv(r, l, e);
    ApplyMakes(r, l, e, x);
    assert (events + [e])[..|events|] == events;
    assert LetterOf(l', x) == Reply(x, Deliver(l, i.from), e.item, i.title, r.finger(e.token), e.draft);
    forall id | Correlation(LetterOf(l', x), id) != ""
      ensures id in l'.items && DeliveredTo(r, events + [e], x, l'.items[id].from)
    {
      NeverForAnother(x, Deliver(l, i.from), e.item, i.title, r.finger(e.token), e.draft, id);
      RedirectedGrows(events, e, i.from);
      if !Redirected(events, i.from) {
        NotRedirected(r, events, i.from);
      }
    }
  }

  lemma OldReplyIsMadeFor(r: Rules, events: seq<Event>, e: Event, x: string)
    requires var l := After(r, events); Inv(l) && Enabled(r, l, e) && x in l.items && MadeFor(r, events, l, x) && !Makes(r, l, e, x)
    ensures var l' := Apply(r, After(r, events), e).value; x in l'.items && MadeFor(r, events + [e], l', x)
  {
    var l := After(r, events);
    var l' := Apply(r, l, e).value;
    ApplyKeepsInv(r, l, e);
    assert (events + [e])[..|events|] == events;
    forall id | Correlation(LetterOf(l', x), id) != ""
      ensures id in l'.items && DeliveredTo(r, events + [e], x, l'.items[id].from)
    {
      CarriedStays(l, l', id, x);
      assert DeliveredTo(r, events, x, l.items[id].from);
      RedirectedGrows(events, e, l.items[id].from);
    }
  }

  ghost predicate IsMadeFor(r: Rules, events: seq<Event>, x: string) {
    x in After(r, events).author ==> x in After(r, events).items && MadeFor(r, events, After(r, events), x)
  }

  lemma StepIsMadeFor(r: Rules, events: seq<Event>, e: Event, x: string)
    requires Inv(After(r, events)) && Enabled(r, After(r, events), e) && IsMadeFor(r, events, x)
    ensures IsMadeFor(r, events + [e], x)
  {
    assert (events + [e])[..|events|] == events;
    ApplyMakes(r, After(r, events), e, x);
    if Makes(r, After(r, events), e, x) {
      NewReplyIsMadeFor(r, events, e, x);
    } else if x in After(r, events).author {
      OldReplyIsMadeFor(r, events, e, x);
    }
  }

  lemma {:induction false} RepliesAreMadeFor(r: Rules, events: seq<Event>, i: nat, x: string)
    requires History(r, events) && i <= |events|
    ensures IsMadeFor(r, events[..i], x)
  {
    if i > 0 {
      RepliesAreMadeFor(r, events, i - 1, x);
      HistoryKeepsInv(r, events, i - 1);
      AfterNext(r, events, i - 1);
      assert events[..i] == events[..i - 1] + [events[i - 1]];
      StepIsMadeFor(r, events[..i - 1], events[i - 1], x);
    }
  }

  /**
   If the requester's name was never redirected and the reply never handed off, `completed` is reported
   exactly for an own item that was completed with a worker's reference.
   */
  lemma UnmovedReplyIsReported(r: Rules, events: seq<Event>, actor: string, id: string)
    requires History(r, events) && Answers(After(r, events), actor, id)
    requires !Redirected(events, actor) && LastHandOff(events, After(r, events).items[id].outcome.reply).None?
    ensures Verdict(After(r, events), actor, id).Finished?
  {
    var l := After(r, events);
    var x := l.items[id].outcome.reply;
    assert events[..|events|] == events;
    HistoryKeepsInv(r, events, |events|);
    assert Named(l, id);
    RepliesAreMadeFor(r, events, |events|, x);
    assert DeliveredTo(r, events, x, actor);
    FinishedIffAddressed(r, events, actor, id);
  }

  // ---- It happens: a requester that hands the reply on loses it, and has it again once it comes back ----

  function FirstCompletion(r: Rules): seq<Event> {
    FirstHalf() + [Complete("o", 1, Ref("o", "r", r.finger(1)))]
  }

  lemma FirstReplyCompletes(r: Rules)
    ensures History(r, FirstCompletion(r)) && Answers(After(r, FirstCompletion(r)), "requester", "o")
    ensures After(r, FirstCompletion(r)).items["o"].outcome == Ref("o", "r", r.finger(1))
    ensures "r" in After(r, FirstCompletion(r)).items && After(r, FirstCompletion(r)).items["r"] == FirstReplyItem(r)
  {
    FirstLeasePublishes(r);
    var l, o := After(r, FirstHalf()), Ref("o", "r", r.finger(1));
    ReadsFirstReply(r, l);
    Next(r, FirstHalf(), Complete("o", 1, o), Put(l, "o", l.items["o"].(status := Completed, token := None, outcome := o)));
  }

  lemma HandOffMoves(r: Rules, events: seq<Event>, to: string, note: string)
    requires History(r, events) && Answers(After(r, events), "requester", "o")
    requires After(r, events).items["o"].outcome.reply == "r" && "r" in After(r, events).items
    requires var i := After(r, events).items["r"]; i.status == Open && i.token.None? && i.to != to
    ensures var longer := events + [HandOff("r", to, note)];
            && History(r, longer) && Answers(After(r, longer), "requester", "o")
            && After(r, longer).items["o"].outcome.reply == "r" && "r" in After(r, longer).items
            && After(r, longer).items["r"] == Noted(After(r, events).items["r"], note).(to := to)
            && (Verdict(After(r, longer), "requester", "o").Finished? <==> to == "requester")
  {
    var l := After(r, events);
    var l' := Put(l, "r", Noted(l.items["r"], note).(to := to));
    HistoryKeepsInv(r, events, |events|);
    assert events[..|events|] == events;
    assert Named(l, "o");
    Next(r, events, HandOff("r", to, note), l');
    VerdictNamesTheLatestLease(r, events + [HandOff("r", to, note)], "requester", "o");
  }

  lemma HandedOnOnce(r: Rules, note: string)
    ensures var events := FirstCompletion(r) + [HandOff("r", "other", note)];
            && History(r, events) && Answers(After(r, events), "requester", "o")
            && After(r, events).items["o"].outcome.reply == "r" && "r" in After(r, events).items
            && After(r, events).items["r"] == Noted(FirstReplyItem(r), note).(to := "other")
            && !Verdict(After(r, events), "requester", "o").Finished?
  {
    FirstReplyCompletes(r);
    HandOffMoves(r, FirstCompletion(r), "other", note);
  }

  /** The requester of a completed item hands the reply on, and is told that none is available. */
  lemma HandedOnReplyIsLost(r: Rules, note: string)
    ensures var events := FirstCompletion(r) + [HandOff("r", "other", note)];
            && History(r, events) && Answers(After(r, events), "requester", "o")
            && Verdict(After(r, events), "requester", "o") == Unavailable
  {
    HandedOnOnce(r, note);
    var events := FirstCompletion(r) + [HandOff("r", "other", note)];
    HistoryKeepsInv(r, events, |events|);
    assert events[..|events|] == events && Named(After(r, events), "o");
  }

  lemma ReturnedReplyIsReported(r: Rules, note: string, back: string)
    ensures var events := FirstCompletion(r) + [HandOff("r", "other", note)] + [HandOff("r", "requester", back)];
            History(r, events) && Verdict(After(r, events), "requester", "o").Finished?
  {
    HandedOnOnce(r, note);
    HandOffMoves(r, FirstCompletion(r) + [HandOff("r", "other", note)], "requester", back);
  }
}
