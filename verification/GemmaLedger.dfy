/**
 The fenced-lease ledger behind the Gemma worker, as a machine that applies one event at a time. Any
 number of workers, the owner and the clock interleave freely: a history is a sequence of events.
 */
module GemmaLedger {
  import opened Wrappers
  import opened GemmaEnvelope

  type Token = nat

  const MAX_ATTEMPTS := 3
  const SEND_WINDOW := 3600

  datatype Status = Open | Claimed | Working | Blocked | DeadLetter | Completed | Closed

  // What an item's result column holds: free text, or the completion reference of a worker.
  datatype Outcome = NoOutcome | Note | Ref(original: string, reply: string, correlation: string)

  datatype Item = Item(
    from: string, to: string, title: string, instructions: string,
    status: Status, token: Option<Token>, expires: nat, attempts: nat, acked: bool, outcome: Outcome)

  // The idempotency key of a send by the worker: recipient, slug of the title, hour. Not the body.
  datatype Key = Key(to: string, slug: string, window: nat)

  datatype Receipt = Receipt(reply: string, deduped: bool)

  // The digest of a token, and the lossy slug of a title.
  datatype Rules = Rules(finger: Token -> Finger, slug: string -> string)

  datatype Ledger = Ledger(
    clock: nat, items: map<string, Item>, keys: map<Key, string>,
    tokens: set<Token>,             // every token ever issued
    holder: map<string, Token>,     // the latest claim of an item
    verified: set<(string, Token)>, // leases confirmed live before a send
    sent: map<Token, Receipt>,      // what a lease's one send returned
    author: map<string, Token>,     // which lease wrote a reply
    mailboxes: map<string, string>) // redirected names, and who has their mail

  datatype Event =
    | Tick(seconds: nat)
    | Claim(item: string, token: Token, ttl: nat)
    | Start(item: string, token: Token)
    | Ack(item: string)
    | Renew(item: string, token: Token, ttl: nat)
    | Verify(item: string, token: Token)
    | Send(item: string, token: Token, draft: string, newId: string)
    | Complete(item: string, token: Token, outcome: Outcome)
    | Fail(item: string, token: Token)
    | Block(item: string, token: Token)
    | ForceComplete(item: string)
    | ForceDeadLetter(item: string)
    | Reopen(item: string)
    | CloseOpen(item: string)
    | Arrive(item: string, letter: Letter)
    | HandOff(item: string, to: string, note: string)
    | ReopenClosed(item: string, note: string)
    | Redirect(name: string, to: string)

  // What separates an item's text from a note that the router appends to it.
  const RULE := "\n\n---\n"

  // What only the owner takes back.
  predicate IsFinal(s: Status) {
    s == DeadLetter || s == Completed
  }

  predicate Live(i: Item) {
    i.status == Claimed || i.status == Working
  }

  predicate Fenced(l: Ledger, item: string, token: Token) {
    && item in l.items && l.items[item].token == Some(token)
    && l.items[item].expires > l.clock && Live(l.items[item])
  }

  // One failed or expired attempt.
  function Attempted(i: Item): Item {
    if i.attempts + 1 >= MAX_ATTEMPTS then
      i.(status := DeadLetter, attempts := i.attempts + 1, token := None, outcome := Note)
    else
      i.(status := Open, attempts := i.attempts + 1, token := None)
  }

  // What every claim does first: expired leases give their items back.
  function Reclaim(i: Item, clock: nat): Item {
    if Live(i) && i.expires <= clock then Attempted(i) else i
  }

  function Reclaimed(l: Ledger): map<string, Item> {
    map id | id in l.items :: Reclaim(l.items[id], l.clock)
  }

  function LetterOf(l: Ledger, id: string): Letter
    requires id in l.items
  {
    var i := l.items[id];
    Letter(id, i.from, i.to, i.title, i.instructions)
  }

  function Put(l: Ledger, id: string, i: Item): Ledger {
    l.(items := l.items[id := i])
  }

  // Who has the mail of a name. A redirected name is not redirected again.
  function Deliver(l: Ledger, name: string): string {
    if name in l.mailboxes then l.mailboxes[name] else name
  }

  function Noted(i: Item, note: string): Item {
    i.(instructions := i.instructions + RULE + note)
  }

  function SendKey(r: Rules, l: Ledger, item: string): Key
    requires item in l.items
  {
    var i := l.items[item];
    Key(Deliver(l, i.from), r.slug(ReplyTitle(item, i.title)), l.clock / SEND_WINDOW)
  }

  // The worker's guarded send of the reply to `item`.
  function Sent(r: Rules, l: Ledger, item: string, token: Token, draft: string, newId: string): Option<Ledger>
    requires item in l.items
  {
    var key := SendKey(r, l, item);
    if key in l.keys then
      Some(l.(sent := l.sent[token := Receipt(l.keys[key], true)]))
    else if newId in l.items || newId == "" then None
    else
      var letter := Reply(newId, Deliver(l, l.items[item].from), item, l.items[item].title, r.finger(token), draft);
      Some(l.(items := l.items[newId := Item(letter.from, letter.to, letter.title, letter.instructions,
                                             Open, None, 0, 0, false, NoOutcome)],
              keys := l.keys[key := newId], author := l.author[newId := token],
              sent := l.sent[token := Receipt(newId, false)]))
  }

  // The ledger's own verdict on an event; None is a refusal without effect.
  function Apply(r: Rules, l: Ledger, e: Event): Option<Ledger> {
    match e
    case Tick(n) => Some(l.(clock := l.clock + n))
    case Claim(id, t, ttl) =>
      var items := Reclaimed(l);
      if t in l.tokens || id !in items || items[id].status != Open || items[id].to != GEMMA then None
      else Some(l.(items := items[id := items[id].(status := Claimed, token := Some(t), expires := l.clock + ttl)],
                   tokens := l.tokens + {t}, holder := l.holder[id := t]))
    case Start(id, t) => if Fenced(l, id, t) then Some(Put(l, id, l.items[id].(status := Working))) else None
    case Ack(id) => if id in l.items then Some(Put(l, id, l.items[id].(acked := true))) else None
    case Renew(id, t, ttl) => if Fenced(l, id, t) then Some(Put(l, id, l.items[id].(expires := l.clock + ttl))) else None
    case Verify(id, t) => if Fenced(l, id, t) then Some(l.(verified := l.verified + {(id, t)})) else None
    case Send(id, t, draft, newId) => if id in l.items then Sent(r, l, id, t, draft, newId) else None
    case Complete(id, t, o) =>
      if Fenced(l, id, t) then Some(Put(l, id, l.items[id].(status := Completed, token := None, outcome := o))) else None
    case Fail(id, t) => if Fenced(l, id, t) then Some(Put(l, id, Attempted(l.items[id]))) else None
    case Block(id, t) =>
      if Fenced(l, id, t) then Some(Put(l, id, l.items[id].(status := Blocked, token := None, outcome := Note))) else None
    case ForceComplete(id) =>
      if id in l.items then Some(Put(l, id, l.items[id].(status := Completed, token := None, outcome := Note))) else None
    case ForceDeadLetter(id) =>
      if id in l.items then Some(Put(l, id, l.items[id].(status := DeadLetter, token := None, outcome := Note))) else None
    case Reopen(id) =>
      if id in l.items then Some(Put(l, id, l.items[id].(status := Open, token := None, attempts := 0, outcome := Note)))
      else None
    case CloseOpen(id) =>
      if id in l.items && l.items[id].status == Open then Some(Put(l, id, l.items[id].(status := Closed, outcome := Note)))
      else None
    case Arrive(id, m) =>
      if id in l.items || m.from == GEMMA then None
      else Some(Put(l, id, Item(m.from, m.to, m.title, m.instructions, Open, None, 0, 0, false, NoOutcome)))
    case HandOff(id, to, note) =>
      if id in l.items && l.items[id].status == Open && l.items[id].token.None? && l.items[id].to != to then
        Some(Put(l, id, Noted(l.items[id], note).(to := to)))
      else None
    case ReopenClosed(id, note) =>
      if id in l.items && l.items[id].status == Closed then
        Some(Put(l, id, Noted(l.items[id], note).(status := Open, outcome := NoOutcome)))
      else None
    case Redirect(name, to) => Some(l.(mailboxes := l.mailboxes[name := to]))
  }

  // What the worker program adds: it sends once per lease, after acknowledging the item and confirming
  // the lease, and completes only with the correlation that the reply its send returned carries.
  predicate Disciplined(l: Ledger, e: Event) {
    match e
    case Send(id, t, _, _) =>
      (id, t) in l.verified && t !in l.sent && id in l.items && l.items[id].acked
    case Complete(id, t, o) => t in l.sent && id in l.items && o == Carried(l, id, l.sent[t].reply) && o.Ref?
    case _ => true
  }

  // The completion reference that a published reply carries for an item.
  function Carried(l: Ledger, id: string, reply: string): Outcome {
    if reply !in l.items then NoOutcome
    else
      var finger := Correlation(LetterOf(l, reply), id);
      if finger == "" then NoOutcome else Ref(id, reply, finger)
  }

  // What reading it back gives: the reference, as long as the item's sender still holds the reply.
  function ReadBack(l: Ledger, id: string, reply: string): Outcome
    requires id in l.items
  {
    if reply !in l.items then NoOutcome
    else
      var finger := Fingerprint(LetterOf(l, reply), l.items[id].from, id);
      if finger == "" then NoOutcome else Ref(id, reply, finger)
  }

  predicate Enabled(r: Rules, l: Ledger, e: Event) {
    Apply(r, l, e).Some? && Disciplined(l, e)
  }

  function EmptyLedger(): Ledger {
    Ledger(0, map[], map[], {}, map[], {}, map[], map[], map[])
  }

  // The ledger after a history, and whether every event of it was enabled in its turn.
  function After(r: Rules, events: seq<Event>): Ledger {
    if events == [] then EmptyLedger()
    else
      var l := After(r, events[..|events| - 1]);
      match Apply(r, l, events[|events| - 1])
      case Some(l') => l'
      case None => l
  }

  predicate EnabledAt(r: Rules, events: seq<Event>, i: nat)
    requires i < |events|
  {
    Enabled(r, After(r, events[..i]), events[i])
  }

  ghost predicate History(r: Rules, events: seq<Event>) {
    forall i :: 0 <= i < |events| ==> EnabledAt(r, events, i)
  }

  lemma AfterNext(r: Rules, events: seq<Event>, i: nat)
    requires History(r, events) && i < |events|
    ensures Apply(r, After(r, events[..i]), events[i]) == Some(After(r, events[..i + 1]))
    ensures Disciplined(After(r, events[..i]), events[i])
  {
    assert EnabledAt(r, events, i);
    assert events[..i + 1][..i] == events[..i];
  }

  lemma HistoryExtends(r: Rules, events: seq<Event>, e: Event)
    requires History(r, events) && Enabled(r, After(r, events), e)
    ensures History(r, events + [e]) && Some(After(r, events + [e])) == Apply(r, After(r, events), e)
  {
    var longer := events + [e];
    assert longer[..|events|] == events;
    forall i | 0 <= i < |longer|
      ensures EnabledAt(r, longer, i)
    {
      if i < |events| {
        assert EnabledAt(r, events, i);
        assert longer[..i] == events[..i];
      }
    }
  }
}
