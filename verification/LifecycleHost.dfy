/**
 The machine a lifecycle qualification runs on, and the one way it starts commands there. A command
 may fail before, during or after its effect and may leave anything within its frame; a child that is
 not known to be joined may go on changing the machine.
 */
module LifecycleHost {
  import opened Wrappers

  type Bytes = string

  datatype Digest = Digest(of: Bytes)

  // The commit checked out, what git reports of other files, and the cask's file.
  datatype Tree = Tree(head: string, others: string, cask: Option<Bytes>)

  // What `rev-parse HEAD` and `status --porcelain` say of a tree.
  datatype State = State(head: string, others: string, modified: bool)

  // Traces of a launched application, in the order they are looked for.
  datatype Sign = Plist | SystemService | UserService | GuiService | Application

  const SIGNS := [Plist, SystemService, UserService, GuiService, Application]

  datatype Host = Host(
    registered: bool,         // the target cask is in the inventory
    app: bool,                // the application path exists
    caller: Option<Digest>,   // what the command-line path leads to
    signs: set<Sign>,
    listed: bool,             // the tap is listed
    tap: Option<Tree>)        // the tap's directory

  // What is fixed outside: whether every operation succeeds, the tap's upstream tree, the caller that a
  // cask installs, and the cask that a commit holds.
  datatype World = World(healthy: bool, upstream: Tree, ships: Bytes -> Digest, committed: string -> Bytes)

  function StateOf(w: World, t: Tree): State {
    State(t.head, t.others, t.cask != Some(w.committed(t.head)))
  }

  datatype Verb = Fresh | Upgrade | Reinstall

  datatype Command = Probe | TapIn | TapOut | Install(verb: Verb) | Remove | Call

  // What a command may change, whether it succeeds or not.
  predicate Within(c: Command, h: Host, h': Host) {
    match c
    case Probe => h' == h
    case TapIn => h' == h.(listed := h'.listed, tap := h'.tap)
    case TapOut => h' == h.(listed := h'.listed, tap := h'.tap)
    case _ => h'.listed == h.listed
  }

  // What it does when nothing goes wrong.
  function Effect(w: World, c: Command, h: Host): Host {
    match c
    case TapIn => h.(listed := true, tap := Some(w.upstream))
    case TapOut => h.(listed := false, tap := None)
    case Install(_) =>
      if h.tap.None? || h.tap.value.cask.None? then h
      else h.(registered := true, app := true, caller := Some(w.ships(h.tap.value.cask.value)))
    case Remove => h.(registered := false, app := false, caller := None)
    case _ => h
  }

  // A command was started; a child was left that is not known to be joined.
  datatype Mark = Began(command: Command) | Adrift

  // An installation that was started: how, and from which cask.
  datatype Installation = Installation(verb: Verb, cask: Option<Bytes>)

  // No command is started behind a child that is adrift.
  ghost predicate Orderly(log: seq<Mark>) {
    forall i, j :: 0 <= i < j < |log| && log[i] == Adrift ==> log[j] == Adrift
  }

  function CaskIn(h: Host): Option<Bytes> {
    if h.tap.None? then None else h.tap.value.cask
  }

  class Ops {
    const world: World
    var host: Host
    var saved: Option<Bytes>  // the backup file
    var unjoined: bool
    var active: bool
    var pending: bool
    ghost var log: seq<Mark>
    ghost var installs: seq<Installation>

    constructor (world: World, host: Host)
      ensures this.world == world && this.host == host && saved == None && Joined() && log == [] && installs == []
    {
      this.world, this.host := world, host;
      saved, unjoined, active, pending := None, false, false, false;
      log, installs := [], [];
    }

    predicate Joined()
      reads this
    {
      !unjoined && !active && !pending
    }

    // Every child so far was joined.
    ghost predicate Calm()
      reads this
    {
      Joined() && Adrift !in log
    }

    // Calm, or stopped for good behind the child that is adrift.
    ghost predicate Watched()
      reads this
    {
      Orderly(log) && (Joined() ==> Calm())
    }

    method Disturb(c: Command)
      modifies this`host
      ensures Within(c, old(host), host) && (world.healthy ==> host == Effect(world, c, old(host)))
    {
      var h: Host := *;
      if world.healthy {
        host := Effect(world, c, host);
      } else if Within(c, host, h) {
        host := h;
      }
    }

    // An outcome that only an unhealthy machine chooses freely.
    method Chance() returns (b: bool)
      ensures world.healthy ==> b
    {
      b := *;
      b := b || world.healthy;
    }

    method Lose()
      modifies this`unjoined, this`log
      ensures unjoined && log == old(log) + [Adrift]
    {
      unjoined, log := true, log + [Adrift];
    }

    /** Starts one command, and joins its whole process group or records that it could not. */
    method Run(c: Command) returns (ok: bool)
      modifies this`host, this`unjoined, this`active, this`pending, this`log, this`installs
      ensures installs == if c.Install? && log != old(log) then old(installs) + [Installation(c.verb, CaskIn(old(host)))] else old(installs)
      ensures Within(c, old(host), host)
      ensures log == old(log) || log == old(log) + [Began(c)] || log == old(log) + [Began(c), Adrift]
      ensures log == old(log) ==> !ok && host == old(host)
      ensures old(Calm()) ==> Watched() && (ok ==> Calm())
      ensures world.healthy && old(Calm()) ==> ok && host == Effect(world, c, old(host))
    {
      var due := Chance();
      if !due {  // the deadline is over, or cancellation was requested
        return false;
      }
      log, pending := log + [Began(c)], true;
      if c.Install? {
        installs := installs + [Installation(c.verb, CaskIn(host))];
      }
      Disturb(c);
      var spawned := Chance();
      if !spawned {
        Lose();
        return false;
      }
      active, pending := true, false;
      var finished := Chance();
      if !finished {
        var groupGone: bool := *;
        if !groupGone {
          Lose();
        }
        if !unjoined {
          active := false;
        }
        return false;
      }
      var outputRead := Chance();
      if !outputRead {
        log := log + [Adrift];
        return false;
      }
      var groupAbsent := Chance();
      if !groupAbsent {
        Lose();
        return false;
      }
      active := false;
      ok := Chance();
    }

    // ---- Reads: each either fails or tells the truth ----

    method Inventory() returns (registered: Option<bool>)
      modifies this`host, this`unjoined, this`active, this`pending, this`log, this`installs
      ensures installs == old(installs)
      ensures host == old(host) && (registered.Some? ==> registered.value == host.registered)
      ensures old(Calm()) ==> Watched() && (registered.Some? ==> Calm()) && (world.healthy ==> registered.Some?)
    {
      var ok := Run(Probe);
      registered := if ok then Some(host.registered) else None;
    }

    method Taps() returns (listed: Option<bool>)
      modifies this`host, this`unjoined, this`active, this`pending, this`log, this`installs
      ensures installs == old(installs)
      ensures host == old(host) && (listed.Some? ==> listed.value == host.listed)
      ensures old(Calm()) ==> Watched() && (listed.Some? ==> Calm()) && (world.healthy ==> listed.Some?)
    {
      var ok := Run(Probe);
      listed := if ok then Some(host.listed) else None;
    }

    method TapState() returns (state: Option<State>)
      modifies this`host, this`unjoined, this`active, this`pending, this`log, this`installs
      ensures installs == old(installs)
      ensures host == old(host)
      ensures state.Some? ==> host.tap.Some? && state.value == StateOf(world, host.tap.value)
      ensures state.Some? ==>
                && state.value.head == host.tap.value.head && state.value.others == host.tap.value.others
                && (state.value.modified <==> host.tap.value.cask != Some(world.committed(host.tap.value.head)))
      ensures old(Calm()) ==> Watched() && (state.Some? ==> Calm()) && (world.healthy && host.tap.Some? ==> state.Some?)
    {
      var ok := Run(Probe);
      if ok { ok := Run(Probe); }
      state := if ok && host.tap.Some? then Some(StateOf(world, host.tap.value)) else None;
    }

    method ReadCask() returns (data: Option<Bytes>)
      ensures data.Some? ==> host.tap.Some? && host.tap.value.cask == data
      ensures world.healthy && host.tap.Some? ==> data == host.tap.value.cask
    {
      var readable := Chance();
      data := if readable && host.tap.Some? then host.tap.value.cask else None;
    }

    /** Succeeds only if no trace of a launched application is found. */
    method Namespace() returns (clear: bool)
      modifies this`host, this`unjoined, this`active, this`pending, this`log, this`installs
      ensures installs == old(installs)
      ensures host == old(host) && (clear ==> host.signs == {})
      ensures old(Calm()) ==> Watched() && (clear ==> Calm()) && (world.healthy && host.signs == {} ==> clear)
    {
      if Plist in host.signs {
        return false;
      }
      for i := 1 to |SIGNS|
        invariant host == old(host) && installs == old(installs) && forall k :: 0 <= k < i ==> SIGNS[k] !in host.signs
        invariant old(Calm()) ==> Calm()
      {
        clear := Run(Probe);
        if !clear || SIGNS[i] in host.signs {
          return false;
        }
      }
      clear := true;
      forall s | s in host.signs
        ensures false
      {
        EverySign(s);
      }
    }

    /** The installed caller's bytes, if they are the pinned ones and every later check passes. */
    method Verify(pin: Digest) returns (hash: Option<Digest>)
      modifies this`host, this`unjoined, this`active, this`pending, this`log, this`installs
      ensures installs == old(installs)
      ensures Within(Call, old(host), host)
      ensures hash.Some? ==> old(host).caller == hash && hash.value == pin
      ensures old(Calm()) ==> Watched() && (hash.Some? ==> Calm())
      ensures world.healthy && old(Calm()) && old(host).caller == Some(pin) ==> hash.Some? && host == old(host)
    {
      hash := host.caller;
      if hash != Some(pin) {
        return None;
      }
      for i := 0 to 3
        invariant host == old(host) && installs == old(installs) && (old(Calm()) ==> Calm())
      {
        var checked := Run(Probe);
        if !checked {
          return None;
        }
      }
      // The installed caller itself is run last.
      var answered := Run(Call);
      var matches := Chance();
      var recorded := Chance();
      if !answered || !matches || !recorded {
        return None;
      }
    }

    // ---- Files ----

    /** Keeps the bytes aside; on failure anything may have been kept. */
    method Backup(data: Bytes) returns (ok: bool)
      modifies this`saved
      ensures ok ==> saved == Some(data)
      ensures world.healthy && host.tap.Some? && host.tap.value.cask == Some(data) ==> ok
    {
      saved := *;
      var written := Chance();
      if !written {
        return false;
      }
      saved := Some(data);
      var again := ReadCask();
      ok := again == Some(data);
    }

    /** Replaces the cask's bytes; on failure it may hold anything. */
    method WriteCask(data: Bytes) returns (ok: bool)
      modifies this`host
      ensures if old(host).tap.None? then !ok && host == old(host)
              else host.tap.Some? && host == old(host).(tap := Some(old(host).tap.value.(cask := host.tap.value.cask)))
      ensures ok ==> host.tap.value.cask == Some(data)
      ensures world.healthy && old(host).tap.Some? ==> ok
    {
      if host.tap.None? {
        return false;
      }
      var left: Option<Bytes> := *;
      ok := Chance();
      host := host.(tap := Some(host.tap.value.(cask := if ok then Some(data) else left)));
    }

    /** Puts the saved bytes back if they are the expected ones, and reads them again. */
    method Restore(expected: Digest) returns (ok: bool)
      modifies this`host
      ensures if old(host).tap.None? then !ok && host == old(host)
              else host.tap.Some? && host == old(host).(tap := Some(old(host).tap.value.(cask := host.tap.value.cask)))
      ensures ok ==> host.tap.value.cask == Some(expected.of)
      ensures saved != Some(expected.of) ==> !ok && host == old(host)
      ensures world.healthy && old(host).tap.Some? && saved == Some(expected.of) ==> ok
    {
      var readable := Chance();
      if !readable || saved.None? || Digest(saved.value) != expected {
        return false;
      }
      ok := WriteCask(saved.value);
      if ok {
        var again := ReadCask();
        ok := again.Some? && Digest(again.value) == expected;
      }
    }
  }

  lemma EverySign(s: Sign)
    ensures exists k :: 0 <= k < |SIGNS| && SIGNS[k] == s
  {
    match s
    case Plist => assert SIGNS[0] == s;
    case SystemService => assert SIGNS[1] == s;
    case UserService => assert SIGNS[2] == s;
    case GuiService => assert SIGNS[3] == s;
    case Application => assert SIGNS[4] == s;
  }
}
