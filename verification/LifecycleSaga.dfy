/**
 The qualification itself: intents are armed before the effects they stand for, and cleanup undoes what
 was armed or reports debt. Whatever fails, and wherever: without debt the machine is as it was found.
 */
module LifecycleSaga {
  import opened Wrappers
  import opened LifecycleHost

  datatype Version = V140 | V141

  // One transition: the release, the verb it is installed with, and the stage it is reported as.
  datatype Stage = Stage(version: Version, verb: Verb, name: string)

  const STAGES :=
    [Stage(V140, Fresh, "install140"), Stage(V141, Upgrade, "upgrade141"), Stage(V140, Reinstall, "rollback140")]

  // What is pinned of a release: the installed caller and the cask.
  datatype Pins = Pins(caller: Version -> Digest, cask: Version -> Bytes)

  datatype Result = Result(stage: string, hash: Digest)

  function Results(pins: Pins, n: nat): seq<Result>
    requires n <= |STAGES|
  {
    seq(n, i requires 0 <= i < |STAGES| => Result(STAGES[i].name, pins.caller(STAGES[i].version)))
  }

  function Installations(pins: Pins, n: nat): seq<Installation>
    requires n <= |STAGES|
  {
    seq(n, i requires 0 <= i < |STAGES| => Installation(STAGES[i].verb, Some(pins.cask(STAGES[i].version))))
  }

  datatype Receipt = Receipt(passed: bool, debt: seq<string>)

  // The actions cleanup attempts, and what they may answer.
  datatype Action = FindCask | Uninstall | Clear | PutBack | ReadTap | FindTap | Untap

  datatype Answer = Present(bool) | Tap(state: State) | Finished

  const STOPPED := "owned operation active/unknown; recovery stopped"

  // The refused and unregistered start that preflight admits.
  predicate Admissible(h: Host) {
    !h.registered && !h.app && h.caller.None? && h.signs == {} && (h.listed || h.tap.None?)
  }

  class Lifecycle {
    const o: Ops
    const pins: Pins
    var admitted: bool
    var tapIntent: bool
    var installIntent: bool
    var backupReady: bool
    var caskMutated: bool
    var originalHash: Option<Digest>
    var originalTap: Option<State>
    var listedAtFirst: bool
    var results: seq<Result>
    ghost const initial: Host

    constructor (o: Ops, pins: Pins)
      ensures this.o == o && this.pins == pins && initial == o.host && Armed() && !admitted && results == []
    {
      this.o, this.pins, this.initial := o, pins, o.host;
      admitted, tapIntent, installIntent, backupReady, caskMutated := false, false, false, false, false;
      originalHash, originalTap, listedAtFirst, results := None, None, false, [];
    }

    // Everything that differs from the start is covered by an intent, and each intent by what undoes it.
    ghost predicate Armed()
      reads this, o
    {
      && (!admitted ==> o.host == initial && !tapIntent && !caskMutated && originalTap.None?)
      && (admitted ==> Admissible(initial) && listedAtFirst == initial.listed)
      && (installIntent ==> caskMutated) && (caskMutated ==> backupReady)
      && (backupReady ==> originalTap.Some? && originalHash.Some? && o.saved == Some(originalHash.value.of))
      && (!installIntent ==> o.host == initial.(listed := o.host.listed, tap := o.host.tap))
      && (if initial.listed then !tapIntent && TapCovered() else tapIntent || (o.host == initial && originalTap.None?))
    }

    // A tap that was there keeps its listing, and what was read of it is what it held at first.
    ghost predicate TapCovered()
      requires backupReady ==> originalHash.Some?
      reads this, o
    {
      && o.host.listed
      && (originalTap.Some? ==>
            initial.tap.Some? && originalTap.value == StateOf(o.world, initial.tap.value))
      && (backupReady ==> initial.tap.Some? && initial.tap.value.cask == Some(originalHash.value.of))
      && (!caskMutated ==> o.host.tap == initial.tap)
    }

    // ---- A machine on which nothing goes wrong ----

    // The tap's tree before any cask is replaced.
    ghost function Base(): Option<Tree> {
      if initial.listed then initial.tap else Some(o.world.upstream)
    }

    // Nothing fails, the machine is clean, and the pins describe what the casks install.
    ghost predicate Fit() {
      && o.world.healthy && Admissible(initial)
      && Base().Some? && Base().value.cask.Some? && StateOf(o.world, Base().value) == State(Base().value.head, "", false)
      && forall v :: o.world.ships(pins.cask(v)) == pins.caller(v)
    }

    // How far a fit machine is, once the tap is kept.
    ghost predicate OnTrack()
      reads this, o
      requires Fit()
    {
      && o.Calm() && o.host.signs == {} && o.host.listed && backupReady && o.host.tap.Some?
      && o.host.tap.value == Base().value.(cask := o.host.tap.value.cask)
      && originalTap == Some(StateOf(o.world, Base().value)) && originalHash == Some(Digest(Base().value.cask.value))
      && (!caskMutated ==> o.host.tap == Base())
    }

    // ---- The forward path; any failure ends it at once ----

    /** Admits only a supported machine on which nothing of the product is present. */
    method Preflight() returns (ok: bool)
      requires Armed() && o.Calm() && !admitted && results == []
      modifies this, o
      ensures Armed() && o.Watched() && (ok ==> o.Calm()) && results == []
      ensures ok == admitted && !tapIntent && originalTap.None? && !caskMutated && o.installs == old(o.installs)
      ensures Fit() ==> ok
    {
      for i := 0 to 3
        invariant Armed() && o.Calm() && !admitted && results == [] && o.installs == old(o.installs)
      {
        ok := o.Run(Probe);
        if !ok {
          return;
        }
      }
      var supported := o.Chance();
      var alone := o.Chance();
      if !supported || o.host.app || o.host.caller.Some? || !alone {
        return false;
      }
      var registered := o.Inventory();
      if registered != Some(false) {
        return false;
      }
      ok := o.Namespace();
      if !ok {
        return;
      }
      var listed := o.Taps();
      if listed.None? || (!listed.value && o.host.tap.Some?) {
        return false;
      }
      listedAtFirst := listed.value;
      admitted := true;
    }

    /** Introduces the tap if it was not there, and keeps what it holds before anything is replaced. */
    method KeepTap() returns (ok: bool)
      requires Armed() && o.Calm() && admitted && !tapIntent && originalTap.None? && !caskMutated && results == []
      modifies this, o
      ensures Armed() && o.Watched() && (ok ==> o.Calm() && backupReady) && !caskMutated && admitted && results == []
      ensures o.installs == old(o.installs)
      ensures Fit() ==> ok && OnTrack()
    {
      if !listedAtFirst {
        tapIntent := true;
        ok := o.Run(TapIn);
        if !ok {
          return;
        }
      }
      originalTap := o.TapState();
      if originalTap.None? || originalTap.value.others != "" || originalTap.value.modified {
        return false;
      }
      var original := o.ReadCask();
      if original.None? {
        return false;
      }
      originalHash := Some(Digest(original.value));
      backupReady := o.Backup(original.value);
      ok := backupReady;
    }

    /** Replaces the cask and installs from it; the intents are armed first. */
    method Deploy(stage: Stage) returns (ok: bool)
      requires Armed() && o.Calm() && admitted && backupReady
      modifies this, o
      ensures Armed() && o.Watched() && admitted && backupReady && results == old(results) && (ok ==> o.Calm())
      ensures caskMutated && (ok ==> installIntent)
      ensures o.installs == old(o.installs) + [Installation(stage.verb, Some(pins.cask(stage.version)))]
              || (!ok && o.installs == old(o.installs))
      ensures Fit() && old(OnTrack()) ==> ok && OnTrack() && installIntent && o.host.registered
                                          && o.host.caller == Some(pins.caller(stage.version))
    {
      caskMutated := true;
      ok := o.WriteCask(pins.cask(stage.version));
      if !ok {
        return;
      }
      installIntent := true;
      ok := o.Run(Install(stage.verb));
    }

    /** One transition: replace the cask, install it, verify the caller, look for launched applications. */
    method Transition(n: nat) returns (ok: bool)
      requires Armed() && o.Calm() && admitted && backupReady && n < |STAGES| && results == Results(pins, n)
      requires o.installs == Installations(pins, n)
      modifies this, o
      ensures Armed() && o.Watched() && admitted && backupReady
      ensures results == Results(pins, if ok then n + 1 else n) && (ok ==> o.Calm())
      ensures o.installs == Installations(pins, n + 1) || (!ok && o.installs == Installations(pins, n))
      ensures Fit() && old(OnTrack()) ==> ok && OnTrack() && installIntent && o.host.registered
    {
      var stage := STAGES[n];
      assert Installations(pins, n + 1) == Installations(pins, n) + [Installation(stage.verb, Some(pins.cask(stage.version)))];
      ok := Deploy(stage);
      if !ok {
        return;
      }
      var hash := o.Verify(pins.caller(stage.version));
      if hash.None? || (stage.name == "rollback140" && n > 0 && hash.value != results[0].hash) {
        return false;
      }
      ok := o.Namespace();
      if ok {
        results := results + [Result(stage.name, hash.value)];
        assert results == Results(pins, n + 1);
      }
    }

    method Body() returns (ok: bool)
      requires Armed() && o.Calm() && !admitted && results == [] && o.installs == []
      modifies this, o
      ensures Armed() && o.Watched()
      ensures ok ==> o.Calm() && results == Results(pins, |STAGES|)
      ensures ok ==> o.installs == Installations(pins, |STAGES|)
      ensures exists n :: 0 <= n <= |STAGES| && results == Results(pins, n)
      ensures exists n :: 0 <= n <= |STAGES| && o.installs == Installations(pins, n)
      ensures Fit() ==> ok && OnTrack() && installIntent && o.host.registered
    {
      assert results == Results(pins, 0) && o.installs == Installations(pins, 0);
      ok := Preflight();
      if ok { ok := KeepTap(); }
      if !ok {
        return;
      }
      var n := 0;
      while n < |STAGES|
        invariant n <= |STAGES| && Armed() && o.Calm() && admitted && backupReady && results == Results(pins, n)
        invariant o.installs == Installations(pins, n)
        invariant Fit() ==> OnTrack() && (n > 0 ==> installIntent && o.host.registered)
      {
        ok := Transition(n);
        if !ok {
          return;
        }
        n := n + 1;
      }
      ok := true;
    }

    // ---- Cleanup ----

    // What an attempted action did, and what its answer says.
    predicate Did(a: Action, h: Host, h': Host, answer: Option<Answer>)
      reads this
    {
      match a
      case FindCask => h' == h && (answer.Some? ==> answer == Some(Present(h.registered)))
      case Uninstall => Within(Remove, h, h')
      case Clear => h' == h && (answer.Some? ==> h.signs == {})
      case PutBack =>
        && (if h.tap.None? then h' == h && answer.None?
            else h'.tap.Some? && h' == h.(tap := Some(h.tap.value.(cask := h'.tap.value.cask))))
        && (answer.Some? ==> originalHash.Some? && h'.tap.value.cask == Some(originalHash.value.of))
      case ReadTap =>
        h' == h && (answer.Some? ==> h.tap.Some? && answer == Some(Tap(StateOf(o.world, h.tap.value))))
      case FindTap => h' == h && (answer.Some? ==> answer == Some(Present(h.listed)))
      case Untap => Within(TapOut, h, h')
    }

    // It answers on a healthy machine, with its effect.
    predicate DidWell(a: Action, h: Host, h': Host, saved: Option<Bytes>, answer: Option<Answer>)
      reads this
    {
      match a
      case Uninstall => answer.Some? && h' == Effect(o.world, Remove, h)
      case Untap => answer.Some? && h' == Effect(o.world, TapOut, h)
      case Clear => h.signs == {} ==> answer.Some?
      case PutBack => h.tap.Some? && originalHash.Some? && saved == Some(originalHash.value.of) ==> answer.Some?
      case ReadTap => h.tap.Some? ==> answer.Some?
      case _ => answer.Some?
    }

    method Perform(a: Action) returns (answer: Option<Answer>)
      requires o.Calm() && (a.PutBack? ==> originalHash.Some?)
      modifies o
      ensures o.installs == old(o.installs)
      ensures o.Watched() && Did(a, old(o.host), o.host, answer) && o.saved == old(o.saved)
      ensures (answer.Some? ==> o.Calm()) && (o.world.healthy ==> DidWell(a, old(o.host), o.host, o.saved, answer))
    {
      var done := false;
      match a {
        case FindCask =>
          var registered := o.Inventory();
          return if registered.Some? then Some(Present(registered.value)) else None;
        case FindTap =>
          var listed := o.Taps();
          return if listed.Some? then Some(Present(listed.value)) else None;
        case ReadTap =>
          var state := o.TapState();
          return if state.Some? then Some(Tap(state.value)) else None;
        case Uninstall => done := o.Run(Remove);
        case Untap => done := o.Run(TapOut);
        case Clear => done := o.Namespace();
        case PutBack => done := o.Restore(originalHash.value);
      }
      answer := if done then Some(Finished) else None;
    }

    /** Attempts one action and charges its failure; behind a child that is adrift nothing is attempted. */
    method Attempt(what: string, a: Action, debt: seq<string>)
        returns (stopped: bool, answer: Option<Answer>, left: seq<string>)
      requires o.Watched() && (a.PutBack? ==> originalHash.Some?)
      modifies o
      ensures o.installs == old(o.installs)
      ensures o.Watched() && (!stopped ==> o.Calm()) && o.saved == old(o.saved)
      ensures Did(a, old(o.host), o.host, answer)
      ensures debt <= left && (stopped ==> left != []) && (left == debt <==> answer.Some?) && (answer.Some? ==> !stopped)
      ensures o.world.healthy && old(o.Calm()) ==> DidWell(a, old(o.host), o.host, o.saved, answer)
    {
      if !o.Joined() {
        return true, None, debt + [STOPPED];
      }
      answer := Perform(a);
      left := if answer.None? then debt + [what] else debt;
      stopped := !o.Joined();
      if stopped {
        left := left + [STOPPED];
      }
    }

    method UninstallCask(debt: seq<string>) returns (stopped: bool, left: seq<string>)
      requires o.Watched()
      modifies o
      ensures o.installs == old(o.installs)
      ensures o.Watched() && (!stopped ==> o.Calm()) && o.saved == old(o.saved) && debt <= left && (stopped ==> left != [])
      ensures Within(Remove, old(o.host), o.host)
      ensures o.world.healthy && old(o.Calm()) ==>
                left == debt && !stopped && o.host == if old(o.host.registered) then Effect(o.world, Remove, old(o.host)) else old(o.host)
    {
      var answer: Option<Answer>;
      stopped, answer, left := Attempt("pre-uninstall inventory", FindCask, debt);
      if !stopped && answer == Some(Present(true)) {
        stopped, answer, left := Attempt("supported uninstall", Uninstall, left);
      }
    }

    method RemoveInstallation(debt: seq<string>) returns (stopped: bool, left: seq<string>)
      requires o.Watched()
      modifies o
      ensures o.installs == old(o.installs)
      ensures o.Watched() && (!stopped ==> o.Calm()) && o.saved == old(o.saved) && debt <= left && (stopped ==> left != [])
      ensures Within(Remove, old(o.host), o.host)
      ensures left == [] ==> !o.host.registered && !o.host.app && o.host.caller.None? && o.host.signs == {}
      ensures o.world.healthy && old(o.Calm()) && old(o.host.registered) && old(o.host.signs) == {} ==>
                left == debt && !stopped && o.host == Effect(o.world, Remove, old(o.host))
    {
      var answer: Option<Answer>;
      stopped, left := UninstallCask(debt);
      if stopped {
        return;
      }
      stopped, answer, left := Attempt("final cask inventory", FindCask, left);
      if stopped {
        return;
      }
      if answer != Some(Present(false)) {
        left := left + ["target cask absence unproven"];
      }
      if o.host.app {
        left := left + ["retained owned application"];
      }
      if o.host.caller.Some? {
        left := left + ["retained owned caller"];
      }
      stopped, answer, left := Attempt("final launch/app namespace", Clear, left);
    }

    method RemoveTap(debt: seq<string>) returns (stopped: bool, left: seq<string>)
      requires o.Watched()
      modifies o
      ensures o.installs == old(o.installs)
      ensures o.Watched() && (!stopped ==> o.Calm()) && debt <= left && (stopped ==> left != [])
      ensures Within(TapOut, old(o.host), o.host)
      ensures left == [] ==> !o.host.listed && o.host.tap.None?
      ensures o.world.healthy && old(o.Calm()) && old(o.host.listed) ==> left == debt
    {
      var answer: Option<Answer>;
      stopped, answer, left := Attempt("post-tap inventory", FindTap, debt);
      if stopped {
        return;
      }
      if answer == Some(Present(true)) {
        stopped, answer, left := Attempt("untap exact introduced tap", Untap, left);
        if stopped {
          return;
        }
      }
      stopped, answer, left := Attempt("final tap inventory", FindTap, left);
      if stopped {
        return;
      }
      if answer != Some(Present(false)) || o.host.tap.Some? {
        left := left + ["introduced tap retained or absence unproven"];
      }
    }

    /** Undoes what was armed, or says what may be left. Without debt the machine is as it was found. */
    method Cleanup() returns (debt: seq<string>)
      requires Armed() && o.Watched()
      modifies o
      ensures o.installs == old(o.installs)
      ensures o.Watched()
      ensures debt == [] ==> o.host == initial && o.Calm()
      ensures !admitted ==> o.host == initial
      ensures Fit() && old(OnTrack()) && installIntent && old(o.host.registered) ==> debt == []
    {
      var stopped: bool, answer: Option<Answer>;
      debt := [];
      if !o.Joined() {
        return [STOPPED];
      }
      if !admitted {
        return;
      }
      if installIntent {
        stopped, debt := RemoveInstallation(debt);
        if stopped {
          return;
        }
      }
      if caskMutated {
        if backupReady {
          stopped, answer, debt := Attempt("restore validated original cask", PutBack, debt);
          if stopped {
            return;
          }
        } else {
          debt := debt + ["mutation without validated backup"];
        }
      }
      if originalTap.Some? {
        stopped, answer, debt := Attempt("final tap state", ReadTap, debt);
        if stopped {
          return;
        }
        if answer != Some(Tap(originalTap.value)) {
          debt := debt + ["original tap HEAD/worktree not restored"];
        }
      }
      if tapIntent {
        stopped, debt := RemoveTap(debt);
      }
    }

    /**
     The whole qualification. Whatever it did, it did a beginning of the same three steps: release 1.4.0 freshly
     installed, upgraded to 1.4.1, and 1.4.0 installed again; and its receipt is a pass only for all three of
     them, each verified by the hash pinned for its release, and no debt.
     */
    method Execute() returns (receipt: Receipt)
      requires Armed() && o.Calm() && !admitted && results == [] && o.installs == []
      modifies this, o
      ensures Orderly(o.log)
      ensures receipt.debt == [] ==> o.host == initial && o.Calm()
      ensures !admitted ==> o.host == initial
      ensures caskMutated ==> backupReady
      ensures Fit() ==> receipt.passed
      ensures results <= [Result("install140", pins.caller(V140)), Result("upgrade141", pins.caller(V141)),
                          Result("rollback140", pins.caller(V140))]
      ensures o.installs <= [Installation(Fresh, Some(pins.cask(V140))), Installation(Upgrade, Some(pins.cask(V141))),
                             Installation(Reinstall, Some(pins.cask(V140)))]
      ensures receipt.passed ==> receipt.debt == [] && |results| == 3 && |o.installs| == 3
    {
      assert results == Results(pins, 0) && o.installs == Installations(pins, 0);
      var ok := true;
      for i := 0 to 4
        invariant Armed() && o.Watched() && (ok ==> o.Calm()) && !admitted && results == [] && (Fit() ==> ok)
        invariant o.installs == []
      {
        if ok { ok := o.Run(Probe); }  // the provenance of the run
      }
      if ok { ok := Body(); }
      var debt := Cleanup();
      receipt := Receipt(ok && debt == [], debt);
      TheThreeStages();
    }

    lemma TheThreeStages()
      ensures forall n :: 0 <= n <= |STAGES| ==>
                Results(pins, n) <= [Result("install140", pins.caller(V140)), Result("upgrade141", pins.caller(V141)),
                                     Result("rollback140", pins.caller(V140))]
      ensures forall n :: 0 <= n <= |STAGES| ==>
                Installations(pins, n) <= [Installation(Fresh, Some(pins.cask(V140))), Installation(Upgrade, Some(pins.cask(V141))),
                                           Installation(Reinstall, Some(pins.cask(V140)))]
      ensures |STAGES| == 3
    {
    }
  }
}
