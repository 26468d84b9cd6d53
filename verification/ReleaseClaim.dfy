/**
 The successor claim: three create-only state files around one request, shared by any number of
 invocations that may run at once, fail anywhere, and be restarted after a loss of power.
 */
module ReleaseClaim {
  import opened Wrappers

  datatype Suffix = NotAttempted | Unknown | Observed

  // What the claim is bound to; the status is the file's own.
  datatype Binding = Binding(run: nat, controller: string)

  datatype Value = Value(binding: Binding, status: Suffix)

  // A file may be partly written, and it may not have reached the disk.
  datatype Content = Partial | Whole(value: Value)

  datatype File = Missing | Present(content: Content, durable: bool)

  // How far a running invocation has come.
  datatype Progress = Began(binding: Binding) | Intended(binding: Binding) | Posted(binding: Binding) | Seen(binding: Binding)

  // `posts` counts requests sent; `seen` says whose claim was read back from the remote.
  datatype World = World(
    notAttempted: File, unknown: File, observed: File, procs: map<nat, Progress>, posts: nat, seen: Option<Binding>)

  function FileOf(w: World, s: Suffix): File {
    match s
    case NotAttempted => w.notAttempted
    case Unknown => w.unknown
    case Observed => w.observed
  }

  function WithFile(w: World, s: Suffix, f: File): World {
    match s
    case NotAttempted => w.(notAttempted := f)
    case Unknown => w.(unknown := f)
    case Observed => w.(observed := f)
  }

  datatype Event =
    | Save(process: nat, value: Value, content: Content, durable: bool)
    | Post(process: nat)
    | ReadBack(process: nat)
    | Exit(process: nat)
    | PowerLoss(notAttempted: File, unknown: File, observed: File)

  // A save that returned: the whole value, on disk.
  predicate Saved(e: Event)
    requires e.Save?
  {
    e.content == Whole(e.value) && e.durable
  }

  // What a loss of power may leave of a file.
  predicate Survives(f: File, f': File) {
    || (f.Missing? && f'.Missing?)
    || (f.Present? && f.durable && f' == f)
    || (f.Present? && !f.durable && (f'.Missing? || (f'.durable && (f'.content == Partial || f'.content == f.content))))
  }

  // Whether an invocation may take the step: it goes on only from its own last success.
  predicate Ready(w: World, p: nat, v: Value) {
    match v.status
    case NotAttempted => p !in w.procs
    case Unknown => p in w.procs && w.procs[p] == Began(v.binding)
    case Observed => p in w.procs && w.procs[p] == Seen(v.binding)
  }

  function Advanced(v: Value): Progress {
    match v.status
    case NotAttempted => Began(v.binding)
    case Unknown => Intended(v.binding)
    case Observed => Seen(v.binding)
  }

  function Apply(w: World, e: Event): Option<World> {
    match e
    case Save(p, v, content, durable) =>
      if !FileOf(w, v.status).Missing? || !Ready(w, p, v) || !(content == Partial || content == Whole(v)) then None
      else
        var w' := WithFile(w, v.status, Present(content, durable));
        Some(w'.(procs := if Saved(e) then w.procs[p := Advanced(v)] else w.procs - {p}))
    case Post(p) =>
      if p in w.procs && w.procs[p].Intended? then
        Some(w.(procs := w.procs[p := Posted(w.procs[p].binding)], posts := w.posts + 1))
      else None
    case ReadBack(p) =>
      if p in w.procs && w.procs[p].Posted? then
        Some(w.(procs := w.procs[p := Seen(w.procs[p].binding)], seen := Some(w.procs[p].binding)))
      else None
    case Exit(p) => Some(w.(procs := w.procs - {p}))
    case PowerLoss(n, u, o) =>
      if Survives(w.notAttempted, n) && Survives(w.unknown, u) && Survives(w.observed, o) then
        Some(w.(notAttempted := n, unknown := u, observed := o, procs := map[]))
      else None
  }

  // A file that is missing or on disk stays as it is; any other may be lost, kept in part, or kept.
  ghost predicate MayBecome(f: File, f': File) {
    if f.Missing? || f.durable then f' == f
    else f' in {Missing, Present(Partial, true), Present(f.content, true)}
  }

  /** How bad a loss of power may be: it ends every invocation, and each file may become any of these. */
  lemma PowerMayLose(w: World, n: File, u: File, o: File)
    ensures Apply(w, PowerLoss(n, u, o)).Some? <==> MayBecome(w.notAttempted, n) && MayBecome(w.unknown, u) && MayBecome(w.observed, o)
    ensures Apply(w, PowerLoss(n, u, o)).Some? ==>
              Apply(w, PowerLoss(n, u, o)).value == World(n, u, o, map[], w.posts, w.seen)
  {
  }

  /** What a save may leave: the file is created once, by an invocation that is ready, in part or as a whole, on disk or not. */
  lemma SaveMayTear(w: World, p: nat, v: Value, content: Content, durable: bool)
    ensures Apply(w, Save(p, v, content, durable)).Some? <==> FileOf(w, v.status).Missing? && Ready(w, p, v) && content in {Partial, Whole(v)}
    ensures var after := Apply(w, Save(p, v, content, durable));
            after.Some? ==>
              && FileOf(after.value, v.status) == Present(content, durable)
              && (p in after.value.procs <==> content == Whole(v) && durable)
  {
  }

  const START := World(Missing, Missing, Missing, map[], 0, None)

  function After(log: seq<Event>): World {
    if log == [] then START
    else
      var w := After(log[..|log| - 1]);
      match Apply(w, log[|log| - 1])
      case Some(w') => w'
      case None => w
  }

  predicate IsDurable(f: File, v: Value) {
    f == Present(Whole(v), true)
  }

  // At most one invocation is past its intent, and only the one whose intent the file holds.
  ghost predicate Inv(w: World) {
    && w.posts <= 1
    && (forall p :: p in w.procs && !w.procs[p].Began? ==>
          IsDurable(w.unknown, Value(w.procs[p].binding, Unknown)) && (w.procs[p].Intended? <==> w.posts == 0))
    && (forall p, q :: p in w.procs && q in w.procs && !w.procs[p].Began? && !w.procs[q].Began? ==> p == q)
    && (w.posts == 1 ==> w.unknown.Present? && w.unknown.durable && w.unknown.content.Whole?)
    && (forall p :: p in w.procs && w.procs[p].Seen? ==> w.seen == Some(w.procs[p].binding))
    && (w.seen.Some? ==> forall p :: p in w.procs ==> !w.procs[p].Posted?)
    && (w.seen.Some? ==> w.posts == 1 && IsDurable(w.unknown, Value(w.seen.value, Unknown)))
    && (w.observed.Present? ==> w.seen.Some? && (w.observed.content.Whole? ==> w.observed.content.value == Value(w.seen.value, Observed)))
    && (w.notAttempted.Present? && w.notAttempted.content.Whole? ==> w.notAttempted.content.value.status == NotAttempted)
    && (w.unknown.Present? && w.unknown.content.Whole? ==> w.unknown.content.value.status == Unknown)
  }

  lemma SaveKeepsInv(w: World, e: Event)
    requires Inv(w) && e.Save? && Apply(w, e).Some?
    ensures Inv(Apply(w, e).value)
  {
    match e.value.status
    case NotAttempted =>
    case Unknown =>
    case Observed =>
  }

  lemma OtherKeepsInv(w: World, e: Event)
    requires Inv(w) && !e.Save? && Apply(w, e).Some?
    ensures Inv(Apply(w, e).value)
  {
  }

  lemma {:induction false} AlwaysInv(log: seq<Event>)
    ensures Inv(After(log))
  {
    if log != [] {
      AlwaysInv(log[..|log| - 1]);
      var w, e := After(log[..|log| - 1]), log[|log| - 1];
      if Apply(w, e).Some? {
        if e.Save? {
          SaveKeepsInv(w, e);
        } else {
          OtherKeepsInv(w, e);
        }
      }
    }
  }

  /** Over any number of invocations, crashes and restarts the request is sent at most once. */
  lemma PostedAtMostOnce(log: seq<Event>)
    ensures After(log).posts <= 1
  {
    AlwaysInv(log);
  }

  /** Without the second file the request was not sent; with the third the claim was read back. */
  lemma StateFilesTellTheTruth(log: seq<Event>)
    ensures After(log).unknown.Missing? ==> After(log).posts == 0
    ensures After(log).observed.Present? ==> After(log).posts == 1 && After(log).seen.Some?
  {
    AlwaysInv(log);
  }

  /** The three files of a completed claim are bound to one and the same run that posted and read back. */
  lemma CompletedClaimIsBound(log: seq<Event>, b: Binding)
    requires After(log).observed.Present? && After(log).observed.content == Whole(Value(b, Observed))
    ensures After(log).seen == Some(b) && After(log).posts == 1 && IsDurable(After(log).unknown, Value(b, Unknown))
  {
    AlwaysInv(log);
  }

  // ---- What each step of a run stands on ----

  // Every event was possible when it happened.
  ghost predicate Possible(log: seq<Event>) {
    forall i {:trigger Can(After(log[..i]), log[i])} :: 0 <= i < |log| ==> Can(After(log[..i]), log[i])
  }

  ghost predicate Can(w: World, e: Event) {
    Apply(w, e).Some?
  }

  lemma Steps(log: seq<Event>, i: nat)
    requires Possible(log) && i < |log|
    ensures Apply(After(log[..i]), log[i]) == Some(After(log[..i + 1]))
  {
    assert Can(After(log[..i]), log[i]);
    assert log[..i + 1][..i] == log[..i];
  }

  // Nothing of the invocation's own, and no loss of power.
  predicate ByAnother(e: Event, p: nat) {
    match e
    case Save(q, _, _, _) => q != p
    case Post(q) => q != p
    case ReadBack(q) => q != p
    case Exit(q) => q != p
    case PowerLoss(_, _, _) => false
  }

  // Event i was the invocation's own last one, and neither it nor the power went down since.
  ghost predicate Latest(log: seq<Event>, i: nat, j: nat, p: nat) {
    i < j <= |log| && forall k :: i < k < j ==> ByAnother(log[k], p)
  }

  // The whole file was created by this invocation, and it is on disk.
  ghost predicate Wrote(e: Event, p: nat, v: Value) {
    e == Save(p, v, Whole(v), true)
  }

  ghost predicate CameBy(e: Event, p: nat, progress: Progress) {
    match progress
    case Began(b) => Wrote(e, p, Value(b, NotAttempted))
    case Intended(b) => Wrote(e, p, Value(b, Unknown))
    case Posted(b) => e == Post(p)
    case Seen(b) => e == ReadBack(p) || Wrote(e, p, Value(b, Observed))
  }

  lemma ProgressNext(w: World, e: Event, p: nat)
    requires Apply(w, e).Some? && p in Apply(w, e).value.procs
    ensures if ByAnother(e, p) then p in w.procs && Apply(w, e).value.procs[p] == w.procs[p]
            else CameBy(e, p, Apply(w, e).value.procs[p])
  {
  }

  lemma ProgressStep(log: seq<Event>, j: nat, p: nat)
    requires Possible(log) && 0 < j <= |log| && p in After(log[..j]).procs
    ensures if ByAnother(log[j - 1], p) then p in After(log[..j - 1]).procs && After(log[..j]).procs[p] == After(log[..j - 1]).procs[p]
            else CameBy(log[j - 1], p, After(log[..j]).procs[p])
  {
    Steps(log, j - 1);
    ProgressNext(After(log[..j - 1]), log[j - 1], p);
  }

  lemma NobodyYet(log: seq<Event>)
    ensures After(log[..0]) == START
  {
  }

  lemma {:induction false} ProgressOrigin(log: seq<Event>, j: nat, p: nat) returns (i: nat)
    requires Possible(log) && j <= |log| && p in After(log[..j]).procs
    ensures Latest(log, i, j, p) && CameBy(log[i], p, After(log[..j]).procs[p])
  {
    NobodyYet(log);
    ProgressStep(log, j, p);
    if ByAnother(log[j - 1], p) {
      i := ProgressOrigin(log, j - 1, p);
    } else {
      i := j - 1;
    }
  }

  // Each step follows its own invocation's last one: the intent the first file, the request the intent on disk,
  // the read-back the request, and the third file the read-back.
  ghost predicate Founded(log: seq<Event>, j: nat)
    requires j < |log|
  {
    match log[j]
    case Save(p, v, _, _) =>
      (match v.status
       case NotAttempted => true
       case Unknown => exists i: nat :: Latest(log, i, j, p) && Wrote(log[i], p, Value(v.binding, NotAttempted))
       case Observed => exists i: nat :: Latest(log, i, j, p) && log[i] == ReadBack(p))
    case Post(p) => exists i: nat, b :: Latest(log, i, j, p) && Wrote(log[i], p, Value(b, Unknown))
    case ReadBack(p) => exists i: nat :: Latest(log, i, j, p) && log[i] == Post(p)
    case _ => true
  }

  lemma ObservedNext(w: World, e: Event)
    requires Apply(w, e).Some?
    ensures e.Save? && e.value.status.Observed? && Saved(e) ==> IsDurable(Apply(w, e).value.observed, e.value)
    ensures w.observed.Present? && w.observed.durable ==> Apply(w, e).value.observed == w.observed
  {
  }

  lemma {:induction false} ObservedExists(log: seq<Event>, i: nat, j: nat, p: nat, b: Binding)
    requires Possible(log) && Latest(log, i, j, p) && Wrote(log[i], p, Value(b, Observed))
    ensures IsDurable(After(log[..j]).observed, Value(b, Observed))
    decreases j
  {
    Steps(log, j - 1);
    ObservedNext(After(log[..j - 1]), log[j - 1]);
    if i < j - 1 {
      ObservedExists(log, i, j - 1, p, b);
    }
  }

  // What an invocation needs to take the step.
  lemma NeedsProgress(w: World, e: Event)
    requires Apply(w, e).Some?
    ensures e.Post? ==> e.process in w.procs && w.procs[e.process].Intended?
    ensures e.ReadBack? ==> e.process in w.procs && w.procs[e.process].Posted?
    ensures e.Save? && e.value.status.Unknown? ==> e.process in w.procs && w.procs[e.process] == Began(e.value.binding)
    ensures e.Save? && e.value.status.Observed? ==>
              e.process in w.procs && w.procs[e.process] == Seen(e.value.binding) && w.observed.Missing?
  {
  }

  /** Every step is taken by an invocation that itself took the one before, without a crash in between. */
  lemma StepIsFounded(log: seq<Event>, j: nat)
    requires Possible(log) && j < |log|
    ensures Founded(log, j)
  {
    Steps(log, j);
    NeedsProgress(After(log[..j]), log[j]);
    match log[j]
    case Save(p, v, _, _) =>
      if !v.status.NotAttempted? {
        var i := ProgressOrigin(log, j, p);
        if v.status.Observed? && log[i] != ReadBack(p) {
          ObservedExists(log, i, j, p, v.binding);
        }
      }
    case Post(p) =>
      var i := ProgressOrigin(log, j, p);
    case ReadBack(p) =>
      var i := ProgressOrigin(log, j, p);
    case _ =>
  }

  lemma PostsNext(w: World, e: Event)
    requires Apply(w, e).Some?
    ensures Apply(w, e).value.posts == w.posts + if e.Post? then 1 else 0
  {
  }

  lemma {:induction false} PostsCount(log: seq<Event>, i: nat, j: nat)
    requires Possible(log) && i < j <= |log| && log[i].Post?
    ensures After(log[..j]).posts > 0
    decreases j
  {
    Steps(log, j - 1);
    PostsNext(After(log[..j - 1]), log[j - 1]);
    if i < j - 1 {
      PostsCount(log, i, j - 1);
    }
  }

  /** And the request is in the run at most once. */
  lemma OneRequest(log: seq<Event>, i: nat, j: nat)
    requires Possible(log) && i < j < |log| && log[i].Post?
    ensures !log[j].Post?
  {
    PostsCount(log, i, j);
    PostedAtMostOnce(log[..j + 1]);
    Steps(log, j);
    PostsNext(After(log[..j]), log[j]);
  }

  ghost predicate Sound(log: seq<Event>) {
    && (forall j :: 0 <= j < |log| ==> Founded(log, j))
    && (forall i, j :: 0 <= i < j < |log| && log[i].Post? ==> !log[j].Post?)
  }

  lemma PossibleIsSound(log: seq<Event>)
    requires Possible(log)
    ensures Sound(log)
  {
    forall j | 0 <= j < |log|
      ensures Founded(log, j)
    {
      StepIsFounded(log, j);
    }
    forall i, j | 0 <= i < j < |log| && log[i].Post?
      ensures !log[j].Post?
    {
      OneRequest(log, i, j);
    }
  }

  lemma PossibleNext(log: seq<Event>, e: Event)
    requires Possible(log) && Apply(After(log), e).Some?
    ensures Possible(log + [e]) && Some(After(log + [e])) == Apply(After(log), e)
  {
    var longer := log + [e];
    assert longer[..|log|] == log;
    forall i | 0 <= i < |longer|
      ensures Can(After(longer[..i]), longer[i])
    {
      if i < |log| {
        assert longer[..i] == log[..i] && longer[i] == log[i];
        assert Can(After(log[..i]), log[i]);
      }
    }
  }

  // What was read back is read back for good.
  lemma SeenStays(w: World, e: Event)
    requires Inv(w) && Apply(w, e).Some? && w.seen.Some?
    ensures Apply(w, e).value.seen == w.seen && Apply(w, e).value.posts == w.posts
  {
  }

  // A save that returned left the whole value on disk, and nothing else but the invocation's progress changed.
  function Written(w: World, p: nat, v: Value): World {
    WithFile(w, v.status, Present(Whole(v), true)).(procs := w.procs[p := Advanced(v)])
  }

  const SUFFIXES := [NotAttempted, Unknown, Observed]

  class Workflow {
    const calm: bool  // nobody else is at work, and nothing fails
    var world: World
    var output: Option<Binding>  // the publisher's reservation, created exclusively
    var staged: bool
    ghost var log: seq<Event>

    ghost predicate Traced()
      reads this
    {
      Possible(log) && world == After(log) && (output.Some? ==> world.seen == output)
    }

    constructor (calm: bool)
      ensures Traced() && log == [] && output == None && !staged && this.calm == calm
    {
      this.calm := calm;
      world, output, staged, log := START, None, false, [];
    }

    lemma Invariant()
      requires Traced()
      ensures Inv(world)
    {
      AlwaysInv(log);
    }

    method Take(e: Event)
      requires Traced() && Apply(world, e).Some?
      modifies this`world, this`log
      ensures Traced() && Some(world) == Apply(old(world), e) && log == old(log) + [e]
    {
      Invariant();
      if world.seen.Some? {
        SeenStays(world, e);
      }
      PossibleNext(log, e);
      world, log := Apply(world, e).value, log + [e];
    }

    // This invocation has come as far as it had.
    ghost predicate As(p: nat, before: World)
      reads this
    {
      (p in world.procs <==> p in before.procs) && (p in world.procs ==> world.procs[p] == before.procs[p])
    }

    /** Other invocations go on; then the power may fail, which ends this one too. */
    method Others(p: nat) returns (alive: bool)
      requires Traced()
      modifies this`world, this`log
      ensures Traced() && old(log) <= log && (alive ==> As(p, old(world)))
      ensures calm ==> alive && world == old(world)
    {
      var n: int := *;
      n := if calm || n < 0 then 0 else n;
      for i := 0 to n
        invariant calm ==> world == old(world)
        invariant Traced() && old(log) <= log && As(p, old(world))
      {
        var e: Event := *;
        if ByAnother(e, p) && Apply(world, e).Some? {
          Take(e);
        }
      }
      var loss: Event := *;
      if !calm && loss.PowerLoss? && Apply(world, loss).Some? {
        Take(loss);
        return false;
      }
      alive := true;
    }

    /** Creates one state file exclusively. Only a whole file, synced with its directory, lets the claim go on. */
    method Save(p: nat, v: Value) returns (ok: bool)
      requires Traced() && Ready(world, p, v)
      modifies this`world, this`log
      ensures Traced() && old(log) <= log
      ensures ok ==> world == Written(old(world), p, v) && log == old(log) + [Event.Save(p, v, Whole(v), true)]
      ensures calm ==> (ok <==> old(FileOf(world, v.status)).Missing?)
    {
      if !FileOf(world, v.status).Missing? {
        return false;
      }
      var content: Content := *;
      var durable, created: bool := *, *;
      if calm {
        content, durable, created := Whole(v), true, true;
      }
      var e := Event.Save(p, v, content, durable);
      if !created || Apply(world, e).None? {
        return false;
      }
      Take(e);
      ok := Saved(e);
    }

    method Chance() returns (ok: bool)
      ensures calm ==> ok
    {
      ok := *;
      ok := ok || calm;
    }

    // No state file exists yet.
    predicate Untouched()
      reads this`world
    {
      world.notAttempted.Missing? && world.unknown.Missing? && world.observed.Missing?
    }

    // The first files are whole and on disk, in the order in which they are written.
    predicate HasSaved(b: Binding, n: nat)
      reads this`world
    {
      && (n > 0 ==> IsDurable(world.notAttempted, Value(b, NotAttempted)))
      && (n > 1 ==> IsDurable(world.unknown, Value(b, Unknown)))
      && (if n > 2 then IsDurable(world.observed, Value(b, Observed)) else world.observed.Missing?)
    }

    /** Up to the durable intent: the old custody is reconciled and the dispatch is the only one. */
    method Intend(p: nat, b: Binding) returns (ok: bool)
      requires Traced() && p !in world.procs
      modifies this`world, this`log
      ensures Traced() && old(log) <= log
      ensures ok ==> p in world.procs && world.procs[p] == Intended(b)
      ensures calm && old(Untouched()) ==> ok && HasSaved(b, 2)
    {
      ok := Others(p);
      if ok { ok := Save(p, Value(b, NotAttempted)); }
      if ok { ok := Others(p); }
      var reconciled := Chance();
      var alone := Chance();
      if !ok || !reconciled || !alone {
        return false;
      }
      ok := Save(p, Value(b, Unknown));
    }

    /** The one request, and the claim read back from the remote. */
    method Request(p: nat, b: Binding) returns (ok: bool)
      requires Traced() && p in world.procs && world.procs[p] == Intended(b)
      modifies this`world, this`log
      ensures Traced() && old(log) <= log
      ensures ok ==> p in world.procs && world.procs[p] == Seen(b)
      ensures calm && old(HasSaved(b, 2)) ==> ok && HasSaved(b, 2)
    {
      ok := Others(p);
      if !ok {
        return;
      }
      Take(Post(p));
      ok := Others(p);
      var answered := Chance();
      var readBack := Chance();
      if !ok || !answered || !readBack {
        return false;
      }
      Take(ReadBack(p));
    }

    /** One claim, among any number of others. */
    method Claim(p: nat, b: Binding) returns (ok: bool)
      requires Traced() && p !in world.procs
      modifies this`world, this`log
      ensures Traced() && old(log) <= log
      ensures Sound(log)
      ensures ok ==> IsDurable(world.observed, Value(b, Observed)) && world.seen == Some(b) && world.posts == 1
      ensures ok ==> log != [] && Wrote(log[|log| - 1], p, Value(b, Observed))
      ensures calm && old(Untouched()) ==> ok && HasSaved(b, 3)
    {
      ok := Intend(p, b);
      if ok { ok := Request(p, b); }
      if ok { ok := Others(p); }
      var alone := Chance();
      var reconciled := Chance();
      if ok && alone && reconciled {
        ok := Save(p, Value(b, Observed));
        Invariant();
      } else {
        ok := false;
      }
      PossibleIsSound(log);
    }

    /** A reservation is handed on only for a claim whose three files are whole and bound to this very run. */
    method Prepare(b: Binding) returns (ok: bool)
      requires Traced()
      modifies this`output, this`staged
      ensures Traced()
      ensures output == old(output) || (old(output).None? && output == Some(b))
      ensures ok ==> old(output).None? && output == Some(b)
      ensures output != old(output) ==>
                && (forall s :: FileOf(world, s).Present? && FileOf(world, s).content == Whole(Value(b, s)))
                && world.seen == Some(b) && world.posts == 1
      ensures calm && old(output).None? && !old(staged) && HasSaved(b, 3) ==> ok
    {
      for k := 0 to |SUFFIXES|
        invariant forall i :: 0 <= i < k ==>
                    FileOf(world, SUFFIXES[i]).Present? && FileOf(world, SUFFIXES[i]).content == Whole(Value(b, SUFFIXES[i]))
      {
        var file := FileOf(world, SUFFIXES[k]);
        if file.Missing? || file.content != Whole(Value(b, SUFFIXES[k])) {
          return false;
        }
      }
      EverySuffix(NotAttempted);
      EverySuffix(Unknown);
      EverySuffix(Observed);
      var liveStep := Chance();
      var readBack := Chance();
      if !liveStep || !readBack || staged {
        return false;
      }
      staged := true;
      var written := Chance();
      if !written || output.Some? {
        return false;
      }
      CompletedClaimIsBound(log, b);
      output := Some(b);
      ok := Chance();
    }
  }

  lemma EverySuffix(s: Suffix)
    ensures exists i :: 0 <= i < |SUFFIXES| && SUFFIXES[i] == s
  {
    match s
    case NotAttempted => assert SUFFIXES[0] == s;
    case Unknown => assert SUFFIXES[1] == s;
    case Observed => assert SUFFIXES[2] == s;
  }
}
