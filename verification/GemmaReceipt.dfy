/**
 The receipt of one shared request. Any number of processes may attempt it at once. One creates the file
 and goes on from its own last success; everybody else reads it. The file is rewritten in place, so a
 process that dies may leave it as it was, torn, or as it was to be, and a loss of power ends every
 process and may take a file whose directory was never synced.
 */
module GemmaReceipt {
  import opened Wrappers

  // Who asks for what: the actor, the digest of the prompt, and the search title made of them.
  datatype Request = Request(actor: string, digest: string, title: string)

  datatype Stage = Prepared | Pending | Submitted

  datatype Meta = Meta(request: Request, stage: Stage, original: string)

  datatype Content = Torn | Holds(meta: Meta)

  // What a reader sees, what of it is on disk, and whether the name is.
  datatype File = File(content: Content, kept: Content, named: bool)

  // What a rewrite of the receipt does next.
  datatype Step = Truncating | Writing | Syncing | SyncingDirectory | Saved

  // How far a process has come: the rewrite it is at, and whether it has called into the queue.
  datatype Progress = Progress(meta: Meta, step: Step, called: bool)

  // `dirKept`: the name of the attempts directory is on disk; no process syncs the directory that holds it.
  // `sends` is what the queue has received; no process sees it.
  datatype World = World(dirKept: bool, file: Option<File>, procs: map<nat, Progress>, sends: nat)

  datatype Event =
    | Create(process: nat, request: Request)
    | Truncate(process: nat)
    | Write(process: nat)
    | SyncFile(process: nat)
    | SyncDirectory(process: nat)
    | Announce(process: nat)
    | Send(process: nat, answer: string)
    | Exit(process: nat)
    | PowerLoss(lost: bool, content: Content)

  predicate At(w: World, p: nat, s: Step) {
    p in w.procs && w.procs[p].step == s
  }

  function Goes(w: World, p: nat, s: Step): World
    requires p in w.procs
  {
    w.(procs := w.procs[p := w.procs[p].(step := s)])
  }

  // What the call's answer makes of the receipt.
  function Outcome(m: Meta, answer: string): Meta {
    m.(stage := if answer == "" then m.stage else Submitted, original := answer)
  }

  // The system's verdict. A process is bound by nothing but its own progress; the creation is exclusive.
  function Apply(w: World, e: Event): Option<World> {
    match e
    case Create(p, request) =>
      if w.file.Some? || p in w.procs then None
      else Some(w.(file := Some(File(Torn, Torn, false)),
                   procs := w.procs[p := Progress(Meta(request, Prepared, ""), Truncating, false)]))
    case Truncate(p) =>
      if At(w, p, Truncating) && w.file.Some? then Some(Goes(w.(file := Some(w.file.value.(content := Torn))), p, Writing)) else None
    case Write(p) =>
      if At(w, p, Writing) && w.file.Some? then
        Some(Goes(w.(file := Some(w.file.value.(content := Holds(w.procs[p].meta)))), p, Syncing))
      else None
    case SyncFile(p) =>
      if At(w, p, Syncing) && w.file.Some? then
        Some(Goes(w.(file := Some(w.file.value.(kept := w.file.value.content))), p, SyncingDirectory))
      else None
    case SyncDirectory(p) =>
      if At(w, p, SyncingDirectory) && w.file.Some? then Some(Goes(w.(file := Some(w.file.value.(named := true))), p, Saved)) else None
    case Announce(p) =>
      if At(w, p, Saved) && w.procs[p].meta.stage == Prepared then
        Some(w.(procs := w.procs[p := w.procs[p].(meta := w.procs[p].meta.(stage := Pending), step := Truncating)]))
      else None
    case Send(p, answer) =>
      if At(w, p, Saved) && w.procs[p].meta.stage == Pending && !w.procs[p].called then
        Some(w.(sends := w.sends + 1, procs := w.procs[p := Progress(Outcome(w.procs[p].meta, answer), Truncating, true)]))
      else None
    case Exit(p) => Some(w.(procs := w.procs - {p}))
    case PowerLoss(lost, content) =>
      if w.file.None? then Some(w.(procs := map[]))
      else if lost then if w.file.value.named && w.dirKept then None else Some(w.(file := None, procs := map[]))
      else if MaySurvive(w.file.value, content) then
        Some(w.(dirKept := true, file := Some(File(content, content, true)), procs := map[]))
      else None
  }

  // What a loss of power may leave of the file: what is on disk, what was to be, or neither.
  predicate MaySurvive(f: File, c: Content) {
    c == f.kept || c == f.content || (c == Torn && f.kept != f.content)
  }

  /**
   How bad a loss of power may be: it ends every process; a file without a durable name, or in a directory
   without one, is lost; any other holds what was on disk, what was to be, or, if these differ, a torn line.
   */
  lemma PowerMayLose(w: World, lost: bool, c: Content)
    ensures Apply(w, PowerLoss(lost, c)).Some?
       <==> (w.file.Some? && lost ==> !w.file.value.named || !w.dirKept)
            && (w.file.Some? && !lost ==> c in {w.file.value.kept, w.file.value.content}
                                          || (c == Torn && w.file.value.kept != w.file.value.content))
    ensures Apply(w, PowerLoss(lost, c)).Some? ==>
              Apply(w, PowerLoss(lost, c)).value
              == if w.file.None? then World(w.dirKept, None, map[], w.sends)
                 else if lost then World(w.dirKept, None, map[], w.sends)
                 else World(true, Some(File(c, c, true)), map[], w.sends)
  {
  }

  // An attempts directory that may be new: `solid` says that it is not.
  function Start(solid: bool): World {
    World(solid, None, map[], 0)
  }

  // The world behind a sequence of events; what the system refuses changes nothing.
  function After(solid: bool, log: seq<Event>): World {
    if log == [] then Start(solid)
    else
      var w := After(solid, log[..|log| - 1]);
      match Apply(w, log[|log| - 1])
      case Some(w') => w'
      case None => w
  }

  // How often the queue was called.
  function Sends(solid: bool, log: seq<Event>): nat {
    if log == [] then 0
    else
      var before := log[..|log| - 1];
      Sends(solid, before) + if log[|log| - 1].Send? && Apply(After(solid, before), log[|log| - 1]).Some? then 1 else 0
  }

  // ---- One creator at a time, and none behind a call ----

  // What a process knows of the file by its own progress.
  predicate Knows(f: File, m: Progress) {
    && (m.step == Writing ==> f.content == Torn)
    && (m.step == Syncing ==> f.content == Holds(m.meta))
    && (m.step == SyncingDirectory ==> f.content == f.kept == Holds(m.meta))
    && (m.step == Saved ==> f.content == f.kept == Holds(m.meta) && f.named)
    && (m.meta.stage != Prepared ==> f.named)
    && (m.meta.stage == Submitted ==> m.called && m.meta.original != "")
    && (m.called ==> m.meta.stage != Prepared)
  }

  // What a content says about the sends so far.
  predicate Honest(sends: nat, c: Content) {
    c.Holds? ==>
      && (c.meta.stage == Prepared ==> sends == 0)
      && (c.meta.stage == Submitted ==> sends == 1 && c.meta.original != "")
  }

  ghost predicate Inv(w: World) {
    && (forall p, q :: p in w.procs && q in w.procs ==> p == q)
    && (forall p :: p in w.procs ==> w.file.Some? && Knows(w.file.value, w.procs[p]))
  }

  // What the receipt accounts for, as long as it cannot be lost.
  ghost predicate Counted(w: World) {
    && w.dirKept
    && (forall p :: p in w.procs ==> w.sends == if w.procs[p].called then 1 else 0)
    && (w.sends > 0 ==> w.sends == 1 && w.file.Some? && w.file.value.named)
    && (w.file.Some? ==> Honest(w.sends, w.file.value.content) && Honest(w.sends, w.file.value.kept))
  }

  lemma ApplyKeepsInv(w: World, e: Event)
    requires Inv(w) && Apply(w, e).Some?
    ensures Inv(Apply(w, e).value)
  {
  }

  lemma ApplyKeepsCounted(w: World, e: Event)
    requires Inv(w) && Counted(w) && Apply(w, e).Some?
    ensures Counted(Apply(w, e).value)
  {
  }

  lemma {:induction false} AlwaysInv(solid: bool, log: seq<Event>)
    ensures Inv(After(solid, log)) && After(solid, log).sends == Sends(solid, log)
    ensures solid ==> Counted(After(solid, log))
  {
    if log != [] {
      var before := log[..|log| - 1];
      AlwaysInv(solid, before);
      if Apply(After(solid, before), log[|log| - 1]).Some? {
        ApplyKeepsInv(After(solid, before), log[|log| - 1]);
        if solid {
          ApplyKeepsCounted(After(solid, before), log[|log| - 1]);
        }
      }
    }
  }

  /** Over all processes, crashes and restarts the request is sent at most once, if the directory cannot be lost. */
  lemma SentAtMostOnce(log: seq<Event>)
    ensures Sends(true, log) <= 1
  {
    AlwaysInv(true, log);
  }

  /** What a readable receipt proves: `prepared` that it was never sent, `submitted` that it was. */
  lemma ReadableReceipt(log: seq<Event>, c: Content)
    requires After(true, log).file.Some? && c == After(true, log).file.value.content && c.Holds?
    ensures c.meta.stage == Prepared ==> Sends(true, log) == 0
    ensures c.meta.stage == Submitted ==> Sends(true, log) == 1 && c.meta.original != ""
  {
    AlwaysInv(true, log);
  }

  /** A request without a receipt was never sent. */
  lemma MissingReceipt(log: seq<Event>)
    requires After(true, log).file.None?
    ensures Sends(true, log) == 0
  {
    AlwaysInv(true, log);
  }

  // ---- A readable `pending` decides nothing ----

  lemma Then(solid: bool, log: seq<Event>, e: Event, w: World)
    requires Apply(After(solid, log), e) == Some(w)
    ensures After(solid, log + [e]) == w && Sends(solid, log + [e]) == Sends(solid, log) + if e.Send? then 1 else 0
  {
    assert (log + [e])[..|log|] == log;
  }

  lemma Writes(solid: bool, log: seq<Event>, p: nat)
    requires At(After(solid, log), p, Truncating) && After(solid, log).file.Some?
    ensures var w, longer := After(solid, log), log + [Truncate(p)] + [Write(p)];
            && After(solid, longer) == Goes(w.(file := Some(w.file.value.(content := Holds(w.procs[p].meta)))), p, Syncing)
            && Sends(solid, longer) == Sends(solid, log)
  {
    var w := After(solid, log);
    var m, f := w.procs[p], w.file.value;
    Then(solid, log, Truncate(p), Goes(w.(file := Some(f.(content := Torn))), p, Writing));
    var w1 := After(solid, log + [Truncate(p)]);
    Then(solid, log + [Truncate(p)], Write(p), Goes(w1.(file := Some(f.(content := Holds(m.meta)))), p, Syncing));
    assert w.procs[p := m.(step := Writing)][p := m.(step := Syncing)] == w.procs[p := m.(step := Syncing)];
  }

  lemma Syncs(solid: bool, log: seq<Event>, p: nat)
    requires At(After(solid, log), p, Syncing) && After(solid, log).file.Some?
    ensures var w, longer := After(solid, log), log + [SyncFile(p)] + [SyncDirectory(p)];
            var c := w.file.value.content;
            && After(solid, longer) == Goes(w.(file := Some(File(c, c, true))), p, Saved)
            && Sends(solid, longer) == Sends(solid, log)
  {
    var w := After(solid, log);
    var m, f := w.procs[p], w.file.value;
    Then(solid, log, SyncFile(p), Goes(w.(file := Some(f.(kept := f.content))), p, SyncingDirectory));
    var w1 := After(solid, log + [SyncFile(p)]);
    Then(solid, log + [SyncFile(p)], SyncDirectory(p), Goes(w1.(file := Some(File(f.content, f.content, true))), p, Saved));
    assert w.procs[p := m.(step := SyncingDirectory)][p := m.(step := Saved)] == w.procs[p := m.(step := Saved)];
  }

  lemma Saves(solid: bool, log: seq<Event>, p: nat)
    requires At(After(solid, log), p, Truncating) && After(solid, log).file.Some?
    ensures var w, longer := After(solid, log), log + [Truncate(p)] + [Write(p)] + [SyncFile(p)] + [SyncDirectory(p)];
            var c := Holds(w.procs[p].meta);
            && After(solid, longer) == w.(file := Some(File(c, c, true)), procs := w.procs[p := w.procs[p].(step := Saved)])
            && Sends(solid, longer) == Sends(solid, log)
  {
    var w := After(solid, log);
    Writes(solid, log, p);
    Syncs(solid, log + [Truncate(p)] + [Write(p)], p);
    assert w.procs[p := w.procs[p].(step := Syncing)][p := w.procs[p].(step := Saved)] == w.procs[p := w.procs[p].(step := Saved)];
  }

  // A run of one process up to its durable `prepared`, and up to its durable `pending`.
  lemma PreparedRun(solid: bool, log: seq<Event>, p: nat, request: Request) returns (longer: seq<Event>)
    requires After(solid, log).file.None? && After(solid, log).procs == map[]
    ensures var w, m := After(solid, log), Meta(request, Prepared, "");
            && After(solid, longer) == w.(file := Some(File(Holds(m), Holds(m), true)), procs := map[p := Progress(m, Saved, false)])
            && Sends(solid, longer) == Sends(solid, log)
  {
    var m := Meta(request, Prepared, "");
    var w := After(solid, log);
    Then(solid, log, Create(p, request), w.(file := Some(File(Torn, Torn, false)), procs := w.procs[p := Progress(m, Truncating, false)]));
    var created := log + [Create(p, request)];
    Saves(solid, created, p);
    longer := created + [Truncate(p)] + [Write(p)] + [SyncFile(p)] + [SyncDirectory(p)];
  }

  lemma PendingRun(solid: bool, log: seq<Event>, p: nat, request: Request) returns (longer: seq<Event>)
    requires After(solid, log).file.None? && After(solid, log).procs == map[]
    ensures var w, m := After(solid, log), Meta(request, Pending, "");
            && After(solid, longer) == w.(file := Some(File(Holds(m), Holds(m), true)), procs := map[p := Progress(m, Saved, false)])
            && Sends(solid, longer) == Sends(solid, log)
  {
    var before := PreparedRun(solid, log, p, request);
    var m := Meta(request, Pending, "");
    var w := After(solid, before);
    assert w.procs[p := Progress(m, Truncating, false)] == map[p := Progress(m, Truncating, false)];
    Then(solid, before, Announce(p), w.(procs := map[p := Progress(m, Truncating, false)]));
    var announced := before + [Announce(p)];
    Saves(solid, announced, p);
    longer := announced + [Truncate(p)] + [Write(p)] + [SyncFile(p)] + [SyncDirectory(p)];
  }

  // A run that sends, whatever was sent before.
  lemma SendingRun(solid: bool, log: seq<Event>, p: nat, request: Request) returns (pending: seq<Event>, sent: seq<Event>)
    requires After(solid, log).file.None? && After(solid, log).procs == map[]
    ensures After(solid, pending).file == After(solid, sent).file
            == Some(File(Holds(Meta(request, Pending, "")), Holds(Meta(request, Pending, "")), true))
    ensures After(solid, sent).dirKept == After(solid, log).dirKept
    ensures Sends(solid, pending) == Sends(solid, log) && Sends(solid, sent) == Sends(solid, log) + 1
  {
    pending := PendingRun(solid, log, p, request);
    var m := Meta(request, Pending, "");
    var w := After(solid, pending);
    Then(solid, pending, Send(p, ""), w.(sends := w.sends + 1, procs := w.procs[p := Progress(m, Truncating, true)]));
    sent := pending + [Send(p, "")];
  }

  /** The same readable `pending` is left by a run that has not sent and by one that has. */
  lemma PendingDecidesNothing(request: Request) returns (unsent: seq<Event>, sent: seq<Event>)
    ensures After(true, unsent).file == After(true, sent).file
            == Some(File(Holds(Meta(request, Pending, "")), Holds(Meta(request, Pending, "")), true))
    ensures Sends(true, unsent) == 0 && Sends(true, sent) == 1
  {
    unsent, sent := SendingRun(true, [], 1, request);
  }

  /** A new directory that is lost with its receipt behind the send lets the request be sent again. */
  lemma LostDirectoryResends(request: Request) returns (log: seq<Event>)
    ensures Sends(false, log) == 2
  {
    var pending, sent := SendingRun(false, [], 1, request);
    var w := After(false, sent);
    Then(false, sent, PowerLoss(true, Torn), w.(file := None, procs := map[]));
    var lost := sent + [PowerLoss(true, Torn)];
    pending, log := SendingRun(false, lost, 2, request);
  }

  /** So the request is sent at most once in every run if and only if the attempts directory was durable before. */
  lemma SentAtMostOnceIff(solid: bool)
    ensures (forall log :: Sends(solid, log) <= 1) <==> solid
  {
    if solid {
      forall log
        ensures Sends(solid, log) <= 1
      {
        SentAtMostOnce(log);
      }
    } else {
      var log := LostDirectoryResends(Request("", "", ""));
    }
  }

  /** Only the process that created the file sends, and no loss of power lies between the two. */
  lemma {:induction false} CreatorStays(solid: bool, log: seq<Event>, p: nat) returns (i: nat)
    requires p in After(solid, log).procs
    ensures i < |log| && log[i].Create? && log[i].process == p && Apply(After(solid, log[..i]), log[i]).Some?
    ensures forall k :: i < k < |log| && Apply(After(solid, log[..k]), log[k]).Some? ==> !log[k].PowerLoss? && log[k] != Exit(p)
  {
    var n := |log| - 1;
    var before := log[..n];
    if Apply(After(solid, before), log[n]).Some? && log[n].Create? && log[n].process == p {
      i := n;
    } else {
      i := CreatorStays(solid, before, p);
      forall k | i < k < |log| && Apply(After(solid, log[..k]), log[k]).Some?
        ensures !log[k].PowerLoss? && log[k] != Exit(p)
      {
        if k < n {
          assert before[..k] == log[..k] && before[k] == log[k];
        }
      }
      assert before[..i] == log[..i];
    }
  }

  lemma SendFollowsOwnCreate(solid: bool, log: seq<Event>, j: nat) returns (i: nat)
    requires j < |log| && log[j].Send? && Apply(After(solid, log[..j]), log[j]).Some?
    ensures i < j && log[i].Create? && log[i].process == log[j].process && Apply(After(solid, log[..i]), log[i]).Some?
    ensures forall k :: i < k < j && Apply(After(solid, log[..k]), log[k]).Some? ==> !log[k].PowerLoss? && log[k] != Exit(log[j].process)
  {
    var before := log[..j];
    i := CreatorStays(solid, before, log[j].process);
    assert before[..i] == log[..i];
    forall k | i < k < j && Apply(After(solid, log[..k]), log[k]).Some?
      ensures !log[k].PowerLoss? && log[k] != Exit(log[j].process)
    {
      assert before[..k] == log[..k] && before[k] == log[k];
    }
  }

  // ---- Whatever a receipt says, happened ----

  ghost predicate Happened(solid: bool, log: seq<Event>, e: Event) {
    exists i :: 0 <= i < |log| && log[i] == e && Apply(After(solid, log[..i]), log[i]).Some?
  }

  // Its request was made, and the answer it names, if any, is the answer of a call.
  ghost predicate Told(solid: bool, log: seq<Event>, m: Meta) {
    && (exists p :: Happened(solid, log, Create(p, m.request)))
    && (m.stage == Submitted ==> m.original != "")
    && (m.original != "" ==> exists p :: Happened(solid, log, Send(p, m.original)))
  }

  lemma HappenedGrows(solid: bool, log: seq<Event>, e: Event)
    requires log != [] && Happened(solid, log[..|log| - 1], e)
    ensures Happened(solid, log, e)
  {
    var before := log[..|log| - 1];
    var i :| 0 <= i < |before| && before[i] == e && Apply(After(solid, before[..i]), before[i]).Some?;
    assert before[..i] == log[..i] && log[i] == e;
  }

  lemma ToldGrows(solid: bool, log: seq<Event>, m: Meta)
    requires log != [] && Told(solid, log[..|log| - 1], m)
    ensures Told(solid, log, m)
  {
    var p :| Happened(solid, log[..|log| - 1], Create(p, m.request));
    HappenedGrows(solid, log, Create(p, m.request));
    if m.original != "" {
      var q :| Happened(solid, log[..|log| - 1], Send(q, m.original));
      HappenedGrows(solid, log, Send(q, m.original));
    }
  }

  // Where a process has what it is to write from.
  lemma MetaNext(w: World, e: Event, p: nat)
    requires Apply(w, e).Some? && p in Apply(w, e).value.procs
    ensures var m' := Apply(w, e).value.procs[p].meta;
            || (e.Create? && e.process == p && m' == Meta(e.request, Prepared, ""))
            || (p in w.procs && m' == w.procs[p].meta)
            || (p in w.procs && w.procs[p].meta.stage == Prepared && m' == w.procs[p].meta.(stage := Pending))
            || (p in w.procs && e == Send(p, e.answer) && w.procs[p].meta.stage == Pending
                && m' == Meta(w.procs[p].meta.request, if e.answer == "" then Pending else Submitted, e.answer))
  {
  }

  // And where the file has what it says from.
  lemma ContentNext(w: World, e: Event, m: Meta)
    requires Apply(w, e).Some? && Apply(w, e).value.file.Some?
    requires Apply(w, e).value.file.value.content == Holds(m) || Apply(w, e).value.file.value.kept == Holds(m)
    ensures || (w.file.Some? && (w.file.value.content == Holds(m) || w.file.value.kept == Holds(m)))
            || exists p :: p in w.procs && w.procs[p].meta == m
  {
  }

  ghost predicate AllTold(solid: bool, log: seq<Event>, w: World) {
    && (forall p :: p in w.procs ==> Told(solid, log, w.procs[p].meta))
    && (w.file.Some? && w.file.value.content.Holds? ==> Told(solid, log, w.file.value.content.meta))
    && (w.file.Some? && w.file.value.kept.Holds? ==> Told(solid, log, w.file.value.kept.meta))
  }

  lemma ProcessIsTold(solid: bool, log: seq<Event>, p: nat)
    requires log != [] && AllTold(solid, log[..|log| - 1], After(solid, log[..|log| - 1]))
    requires Apply(After(solid, log[..|log| - 1]), log[|log| - 1]).Some? && p in After(solid, log).procs
    ensures Told(solid, log, After(solid, log).procs[p].meta)
  {
    var n := |log| - 1;
    var w, e := After(solid, log[..n]), log[n];
    assert Happened(solid, log, e);
    MetaNext(w, e, p);
    if p in w.procs {
      ToldGrows(solid, log, w.procs[p].meta);
    }
  }

  lemma ContentIsTold(solid: bool, log: seq<Event>, m: Meta)
    requires log != [] && AllTold(solid, log[..|log| - 1], After(solid, log[..|log| - 1]))
    requires Apply(After(solid, log[..|log| - 1]), log[|log| - 1]).Some? && After(solid, log).file.Some?
    requires After(solid, log).file.value.content == Holds(m) || After(solid, log).file.value.kept == Holds(m)
    ensures Told(solid, log, m)
  {
    var n := |log| - 1;
    ContentNext(After(solid, log[..n]), log[n], m);
    ToldGrows(solid, log, m);
  }

  lemma {:induction false} AlwaysTold(solid: bool, log: seq<Event>)
    ensures AllTold(solid, log, After(solid, log))
  {
    if log != [] {
      var n := |log| - 1;
      AlwaysTold(solid, log[..n]);
      var w, w' := After(solid, log[..n]), After(solid, log);
      if Apply(w, log[n]).Some? {
        forall p | p in w'.procs
          ensures Told(solid, log, w'.procs[p].meta)
        {
          ProcessIsTold(solid, log, p);
        }
        if w'.file.Some? && w'.file.value.content.Holds? {
          ContentIsTold(solid, log, w'.file.value.content.meta);
        }
        if w'.file.Some? && w'.file.value.kept.Holds? {
          ContentIsTold(solid, log, w'.file.value.kept.meta);
        }
      } else {
        StaysTold(solid, log, w);
      }
    }
  }

  lemma StaysTold(solid: bool, log: seq<Event>, w: World)
    requires log != [] && AllTold(solid, log[..|log| - 1], w)
    ensures AllTold(solid, log, w)
  {
    forall p | p in w.procs
      ensures Told(solid, log, w.procs[p].meta)
    {
      ToldGrows(solid, log, w.procs[p].meta);
    }
    if w.file.Some? && w.file.value.content.Holds? {
      ToldGrows(solid, log, w.file.value.content.meta);
    }
    if w.file.Some? && w.file.value.kept.Holds? {
      ToldGrows(solid, log, w.file.value.kept.meta);
    }
  }

  /** A readable receipt is of a request that was made, and an original that it names was answered by the queue. */
  lemma ReceiptTellsWhatHappened(solid: bool, log: seq<Event>, m: Meta)
    requires After(solid, log).file.Some? && After(solid, log).file.value.content == Holds(m)
    ensures exists p :: Happened(solid, log, Create(p, m.request))
    ensures m.stage == Submitted ==> m.original != ""
    ensures m.original != "" ==> exists p :: Happened(solid, log, Send(p, m.original))
  {
    AlwaysTold(solid, log);
  }

  /** The queue is called only behind a `pending` of the same request that is on disk under its name. */
  lemma SendFollowsPending(solid: bool, log: seq<Event>, j: nat)
    requires j < |log| && log[j].Send? && Apply(After(solid, log[..j]), log[j]).Some?
    ensures var w := After(solid, log[..j]);
            && log[j].process in w.procs && w.procs[log[j].process].meta.stage == Pending
            && w.file == Some(File(Holds(w.procs[log[j].process].meta), Holds(w.procs[log[j].process].meta), true))
  {
    AlwaysInv(solid, log[..j]);
  }

  // ---- The program ----

  datatype Result = Died | Denied | Retained(original: string) | Unknown | Sent(original: string)

  predicate ByAnother(e: Event, p: nat) {
    !e.PowerLoss? && e.process != p
  }

  class Attempts {
    const calm: bool   // nobody else is at work, and nothing fails
    const solid: bool  // the attempts directory was durable before
    var world: World
    ghost var log: seq<Event>

    ghost predicate Traced()
      reads this
    {
      world == After(solid, log)
    }

    constructor (calm: bool, solid: bool)
      ensures Traced() && log == [] && this.calm == calm && this.solid == solid
    {
      this.calm, this.solid := calm, solid;
      world, log := Start(solid), [];
    }

    lemma Invariant()
      requires Traced()
      ensures Inv(world) && (solid ==> Counted(world))
    {
      AlwaysInv(solid, log);
    }

    method Chance() returns (ok: bool)
      ensures calm ==> ok
    {
      ok := *;
      ok := ok || calm;
    }

    method Take(e: Event)
      requires Traced() && Apply(world, e).Some?
      modifies this
      ensures Traced() && Some(world) == Apply(old(world), e) && log == old(log) + [e]
    {
      assert (log + [e])[..|log|] == log;
      world, log := Apply(world, e).value, log + [e];
    }

    // Since a moment this process did not call the queue.
    ghost predicate Silent(since: nat, p: nat)
      reads this
    {
      forall k :: since <= k < |log| && log[k].Send? ==> log[k].process != p
    }

    // And since then it called once more, and this was the answer.
    ghost predicate Answered(since: nat, p: nat, original: string)
      reads this
    {
      exists k :: since <= k < |log| && log[k] == Send(p, original)
    }

    /** Other processes go on; then the power may fail, which ends this one too. Nobody touches a creator's file. */
    method Others(p: nat) returns (alive: bool)
      requires Traced()
      modifies this
      ensures Traced() && old(log) <= log && Silent(|old(log)|, p)
      ensures alive ==> (p in world.procs <==> p in old(world).procs)
      ensures alive && p in world.procs ==> world == old(world)
      ensures p in old(world).procs ==> world.sends == old(world).sends
      ensures alive && old(world).file.Some? ==> world.file.Some?
      ensures calm ==> alive && world == old(world)
    {
      var n: int := *;
      n := if calm || n < 0 then 0 else n;
      for i := 0 to n
        invariant Traced() && old(log) <= log && Silent(|old(log)|, p)
        invariant p in world.procs <==> p in old(world).procs
        invariant p in world.procs ==> world == old(world)
        invariant old(world).file.Some? ==> world.file.Some?
        invariant calm ==> world == old(world)
      {
        var e: Event := *;
        if ByAnother(e, p) && Apply(world, e).Some? {
          Invariant();
          OthersAreIdle(world, e, p);
          Take(e);
        }
      }
      var loss: Event := *;
      if !calm && loss.PowerLoss? && Apply(world, loss).Some? {
        Take(loss);
        return false;
      }
      alive := true;
    }

    /** One step of the creator. It may fail, with or without its effect; the others act before it. */
    method Do(p: nat, e: Event) returns (ok: bool)
      requires Traced() && p in world.procs && Apply(world, e).Some? && !e.PowerLoss? && e.process == p && !e.Send?
      modifies this
      ensures Traced() && old(log) <= log && Silent(|old(log)|, p)
      ensures ok ==> Apply(old(world), e) == Some(world)
      ensures world.sends == old(world).sends
      ensures calm ==> ok
    {
      ok := Others(p);
      if !ok {
        return;
      }
      ok := Chance();
      var effect: bool := *;
      if ok || effect {
        Take(e);
      }
    }

    // The receipt says so, and will after any loss of power that leaves the directory.
    ghost predicate IsKept(m: Meta)
      reads this
    {
      world.file == Some(File(Holds(m), Holds(m), true))
    }

    /** Rewrites the receipt in place and syncs it and its directory. A failure may leave it torn. */
    method Persist(p: nat) returns (ok: bool)
      requires Traced() && At(world, p, Truncating) && world.file.Some?
      modifies this
      ensures Traced() && old(log) <= log && Silent(|old(log)|, p)
      ensures ok ==> p in world.procs && world.procs[p] == old(world).procs[p].(step := Saved)
                     && IsKept(world.procs[p].meta)
      ensures world.sends == old(world).sends
      ensures calm ==> ok
    {
      ok := Do(p, Truncate(p));
      if ok { ok := Do(p, Write(p)); }
      if ok { ok := Do(p, SyncFile(p)); }
      if ok { ok := Do(p, SyncDirectory(p)); }
    }

    // A file that is there is only read: it is refused unless it is readable and of the same request.
    method ReadExisting(request: Request) returns (out: Result)
      requires world.file.Some?
      ensures out.Denied? || out.Retained?
      ensures out.Retained? <==> world.file.value.content.Holds? && world.file.value.content.meta.request == request
      ensures out.Retained? ==> out.original == world.file.value.content.meta.original
    {
      match world.file.value.content {
        case Torn => out := Denied;
        case Holds(found) => out := if found.request == request then Retained(found.original) else Denied;
      }
    }

    /** The exclusive creation and the durable `prepared`; then the durable `pending` behind the announcement. */
    method Arm(p: nat, request: Request) returns (ok: bool)
      requires Traced() && p !in world.procs && world.file.None?
      modifies this
      ensures Traced() && old(log) <= log && Silent(|old(log)|, p)
      ensures ok ==> p in world.procs && world.procs[p] == Progress(Meta(request, Pending, ""), Saved, false)
      ensures calm ==> ok
    {
      Take(Create(p, request));
      ok := Persist(p);
      if ok { ok := Do(p, Announce(p)); }
      if ok { ok := Persist(p); }
    }

    /** The one call into the queue, which counts however it ends, and the record of its answer. */
    method SendOnce(p: nat) returns (out: Result)
      requires Traced() && p in world.procs && world.procs[p].step == Saved
      requires world.procs[p].meta.stage == Pending && !world.procs[p].called
      modifies this
      ensures Traced() && old(log) <= log && (out.Died? || out.Unknown? || out.Sent?)
      ensures !out.Died? ==> world.sends == old(world).sends + 1 && (solid ==> world.sends == 1)
      ensures out.Sent? ==> out.original != "" && IsKept(Meta(old(world).procs[p].meta.request, Submitted, out.original))
      ensures out.Sent? ==> Answered(|old(log)|, p, out.original)
      ensures calm ==> out.Sent?
    {
      var alive := Others(p);
      if !alive {
        return Died;
      }
      Invariant();
      var answer: string := *;
      if calm && answer == "" {
        answer := "id";
      }
      ghost var at := |log|;
      Take(Send(p, answer));
      assert log[at] == Send(p, answer);
      var kept := Persist(p);
      out := if kept && answer != "" then Sent(answer) else Unknown;
    }

    /**
     One attempt, among any number of others. Only the process that creates the receipt may send. Undisturbed,
     it sends if there is no receipt, and otherwise says what the receipt of its own request says.
     */
    method Attempt(p: nat, request: Request) returns (out: Result)
      requires Traced() && p !in world.procs
      modifies this
      ensures Traced() && old(log) <= log
      ensures out.Denied? || out.Retained? ==> Silent(|old(log)|, p)
      ensures out.Retained? ==> world.file.Some? && world.file.value.content.Holds?
                                && world.file.value.content.meta.request == request
                                && world.file.value.content.meta.original == out.original
      ensures out.Sent? ==> out.original != "" && (solid ==> world.sends == 1) && IsKept(Meta(request, Submitted, out.original))
      ensures out.Sent? ==> Answered(|old(log)|, p, out.original)
      ensures calm ==> if old(world).file.None? then out.Sent?
                       else out.Retained? <==> old(world).file.value.content.Holds? && old(world).file.value.content.meta.request == request
    {
      var alive := Others(p);
      if !alive {
        return Died;
      }
      if world.file.Some? {
        alive := Others(p);
        if !alive {
          return Died;
        }
        out := ReadExisting(request);
        return;
      }
      var armed := Arm(p, request);
      out := Denied;
      if armed {
        out := SendOnce(p);
      }
      Take(Exit(p));
    }
  }

  // While a process holds the file it created, no other process can do anything but leave.
  lemma OthersAreIdle(w: World, e: Event, p: nat)
    requires Inv(w) && ByAnother(e, p) && Apply(w, e).Some?
    ensures p in Apply(w, e).value.procs <==> p in w.procs
    ensures p in w.procs ==> Apply(w, e).value == w
  {
    if p in w.procs && e.Exit? {
      assert w.procs - {e.process} == w.procs;
    }
  }
}
