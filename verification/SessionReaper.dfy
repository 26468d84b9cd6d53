/**
 Which runners a reaping pass kills and which session records it archives, and what no number of passes
 can take away. Times are exact numbers; a time of zero is unknown.
 */
module SessionReaper {
  import opened Wrappers

  const GRACE_MINUTES := 10.0
  const MATCH_WINDOW := 180.0
  const STALE_MINUTES := 7.0 * 1440.0

  datatype Session = Session(sid: string, task: string, created: real, last: real)

  datatype Runner = Runner(pid: int, start: real)

  datatype Candidate = Candidate(pid: int, session: Session)

  // ---- The newest activity of a task ----

  function Newest(sessions: seq<Session>, task: string): real {
    if sessions == [] then 0.0
    else
      var before, s := Newest(sessions[..|sessions| - 1], task), sessions[|sessions| - 1];
      if s.task == task && s.last > before then s.last else before
  }

  lemma {:induction false} NewestIsGreatest(sessions: seq<Session>, task: string)
    ensures forall i :: 0 <= i < |sessions| && sessions[i].task == task ==> sessions[i].last <= Newest(sessions, task)
    ensures Newest(sessions, task) >= 0.0
    ensures Newest(sessions, task) > 0.0 ==>
              exists i :: 0 <= i < |sessions| && sessions[i].task == task && sessions[i].last == Newest(sessions, task)
  {
    if sessions != [] {
      var before, last := sessions[..|sessions| - 1], |sessions| - 1;
      NewestIsGreatest(before, task);
      if Newest(before, task) > 0.0 {
        var i :| 0 <= i < |before| && before[i].task == task && before[i].last == Newest(before, task);
        assert sessions[i].task == task && sessions[i].last == Newest(before, task);
      }
      if sessions[last].task == task && sessions[last].last > Newest(before, task) {
        assert sessions[last].last == Newest(sessions, task);
      }
    }
  }

  /** The loop that builds the table; a task without an entry counts as zero. */
  method NewestTable(sessions: seq<Session>) returns (newest: map<string, real>)
    ensures forall t :: t != "" ==> Lookup(newest, t) == Newest(sessions, t)
  {
    newest := map[];
    for k := 0 to |sessions|
      invariant forall t :: t != "" ==> Lookup(newest, t) == Newest(sessions[..k], t)
    {
      var s := sessions[k];
      assert sessions[..k + 1][..k] == sessions[..k];
      if s.task != "" && s.last > Lookup(newest, s.task) {
        newest := newest[s.task := s.last];
      }
    }
    assert sessions[..|sessions|] == sessions;
  }

  function Lookup(m: map<string, real>, task: string): real {
    if task in m then m[task] else 0.0
  }

  // ---- Attributing a runner to a session ----

  function Distance(s: Session, r: Runner): (d: real)
    ensures d >= 0.0 && (d == s.created - r.start || d == r.start - s.created)
  {
    if s.created - r.start < 0.0 then r.start - s.created else s.created - r.start
  }

  // The first of the nearest sessions with a known start, if it is near enough.
  ghost predicate Nearest(sessions: seq<Session>, r: Runner, i: nat) {
    && i < |sessions| && sessions[i].created != 0.0
    && forall j :: 0 <= j < |sessions| && sessions[j].created != 0.0 ==>
         if j < i then Distance(sessions[i], r) < Distance(sessions[j], r) else Distance(sessions[i], r) <= Distance(sessions[j], r)
  }

  ghost predicate Attributed(sessions: seq<Session>, r: Runner, i: nat) {
    Nearest(sessions, r, i) && Distance(sessions[i], r) <= MATCH_WINDOW
  }

  method Attribute(sessions: seq<Session>, r: Runner) returns (best: Option<nat>)
    ensures best.Some? ==> Attributed(sessions, r, best.value)
    ensures best.Some? ==> -180.0 <= sessions[best.value].created - r.start <= 180.0
    ensures best.None? <==> forall i :: 0 <= i < |sessions| && sessions[i].created != 0.0 ==>
                              sessions[i].created - r.start < -180.0 || 180.0 < sessions[i].created - r.start
  {
    best := None;
    for i := 0 to |sessions|
      invariant best.None? ==> forall j :: 0 <= j < i ==> sessions[j].created == 0.0
      invariant best.Some? ==> best.value < i && Nearest(sessions[..i], r, best.value)
    {
      if sessions[i].created != 0.0 {
        if best.None? || Distance(sessions[i], r) < Distance(sessions[best.value], r) {
          best := Some(i);
        }
      }
    }
    assert sessions[..|sessions|] == sessions;
    forall i | 0 <= i < |sessions|
      ensures Distance(sessions[i], r) > MATCH_WINDOW <==>
                sessions[i].created - r.start < -180.0 || 180.0 < sessions[i].created - r.start
    {
    }
    if best.Some? && Distance(sessions[best.value], r) > MATCH_WINDOW {
      best := None;
    }
  }

  lemma AttributionIsUnique(sessions: seq<Session>, r: Runner, i: nat, j: nat)
    requires Attributed(sessions, r, i) && Attributed(sessions, r, j)
    ensures i == j
  {
    assert Nearest(sessions, r, i) && Nearest(sessions, r, j);
  }

  // ---- Choosing the candidates ----

  predicate IdleFor(s: Session, now: real, minutes: real) {
    s.last == 0.0 || (now - s.last) / 60.0 >= minutes
  }

  // The running instance of its task.
  predicate IsRunning(s: Session, newest: real) {
    s.last != 0.0 && s.last == newest
  }

  predicate Reapable(s: Session, sessions: seq<Session>, now: real) {
    s.task != "" && !IsRunning(s, Newest(sessions, s.task)) && IdleFor(s, now, GRACE_MINUTES)
  }

  // Written out: a leaked session belongs to a task that something more recent has run for, unless its own
  // activity is unknown; and it has been idle for ten minutes.
  ghost predicate Leaked(s: Session, sessions: seq<Session>, now: real) {
    && s.task != "" && (s.last == 0.0 || now - s.last >= 600.0)
    && (s.last > 0.0 ==> exists i :: 0 <= i < |sessions| && sessions[i].task == s.task && sessions[i].last > s.last)
  }

  ghost predicate LeakedRunner(sessions: seq<Session>, r: Runner, me: int, now: real, a: nat) {
    r.pid != me && Attributed(sessions, r, a) && Leaked(sessions[a], sessions, now)
  }

  /** Exactly the leaked sessions are reaped: not an interactive one, not a task's newest, not a recent one. */
  lemma ReapableIsLeaked(s: Session, sessions: seq<Session>, now: real)
    requires s in sessions
    ensures Reapable(s, sessions, now) <==> Leaked(s, sessions, now)
  {
    NewestIsGreatest(sessions, s.task);
    var n := Newest(sessions, s.task);
    var k :| 0 <= k < |sessions| && sessions[k] == s;
    if s.last > 0.0 && s.last < n {
      var i :| 0 <= i < |sessions| && sessions[i].task == s.task && sessions[i].last == n;
    }
    assert (now - s.last) / 60.0 >= 10.0 <==> now - s.last >= 600.0;
  }

  ghost predicate DistinctPids(runners: seq<Runner>) {
    forall i, j :: 0 <= i < j < |runners| ==> runners[i].pid != runners[j].pid
  }

  // The candidates and live sessions among the first k runners.
  ghost predicate Collected(sessions: seq<Session>, runners: seq<Runner>, k: nat, me: int, now: real,
                            reap: seq<Candidate>, live: set<string>)
    requires k <= |runners|
  {
    && (forall i :: 0 <= i < k && runners[i].pid != me ==>
          exists a: nat :: Attributed(sessions, runners[i], a) && sessions[a].sid in live
                           && (Reapable(sessions[a], sessions, now) ==> Candidate(runners[i].pid, sessions[a]) in reap))
    && (forall c :: c in reap ==>
          exists i, a: nat :: 0 <= i < k && runners[i].pid == c.pid != me && Attributed(sessions, runners[i], a)
                              && sessions[a] == c.session && Reapable(c.session, sessions, now))
  }

  /** Every runner but this process must be attributed, or nothing is killed or archived. */
  method Collect(sessions: seq<Session>, runners: seq<Runner>, me: int, now: real)
      returns (ok: bool, reap: seq<Candidate>, live: set<string>)
    ensures ok ==> Collected(sessions, runners, |runners|, me, now, reap, live)
    ensures ok ==> forall c :: c in reap ==> Leaked(c.session, sessions, now)
    ensures ok ==> forall i, a: nat :: 0 <= i < |runners| && LeakedRunner(sessions, runners[i], me, now, a) ==>
                     Candidate(runners[i].pid, sessions[a]) in reap
    ensures !ok ==> exists i :: 0 <= i < |runners| && runners[i].pid != me
                                && forall a: nat :: !Attributed(sessions, runners[i], a)
  {
    var newest := NewestTable(sessions);
    reap, live := [], {};
    for k := 0 to |runners|
      invariant Collected(sessions, runners, k, me, now, reap, live)
    {
      var r := runners[k];
      if r.pid != me {
        var best := Attribute(sessions, r);
        if best.None? {
          return false, reap, live;
        }
        var s := sessions[best.value];
        ghost var reap0, live0 := reap, live;
        live := live + {s.sid};
        if s.task != "" && !IsRunning(s, Lookup(newest, s.task)) && IdleFor(s, now, GRACE_MINUTES) {
          reap := reap + [Candidate(r.pid, s)];
        }
        CollectsNext(sessions, runners, k, me, now, reap0, live0, reap, live, best.value);
      }
    }
    ok := true;
    CollectsTheLeaked(sessions, runners, me, now, reap, live);
  }

  lemma CollectsTheLeaked(sessions: seq<Session>, runners: seq<Runner>, me: int, now: real, reap: seq<Candidate>, live: set<string>)
    requires Collected(sessions, runners, |runners|, me, now, reap, live)
    ensures forall c :: c in reap ==> Leaked(c.session, sessions, now)
    ensures forall i, a: nat :: 0 <= i < |runners| && LeakedRunner(sessions, runners[i], me, now, a) ==>
              Candidate(runners[i].pid, sessions[a]) in reap
  {
    forall c | c in reap
      ensures Leaked(c.session, sessions, now)
    {
      var i, a: nat :| 0 <= i < |runners| && runners[i].pid == c.pid != me && Attributed(sessions, runners[i], a)
                       && sessions[a] == c.session && Reapable(c.session, sessions, now);
      ReapableIsLeaked(c.session, sessions, now);
    }
    forall i, a: nat | 0 <= i < |runners| && LeakedRunner(sessions, runners[i], me, now, a)
      ensures Candidate(runners[i].pid, sessions[a]) in reap
    {
      var b: nat :| Attributed(sessions, runners[i], b) && (Reapable(sessions[b], sessions, now) ==> Candidate(runners[i].pid, sessions[b]) in reap);
      AttributionIsUnique(sessions, runners[i], a, b);
      ReapableIsLeaked(sessions[a], sessions, now);
    }
  }

  lemma CollectsNext(sessions: seq<Session>, runners: seq<Runner>, k: nat, me: int, now: real,
                     reap0: seq<Candidate>, live0: set<string>, reap: seq<Candidate>, live: set<string>, a: nat)
    requires k < |runners| && runners[k].pid != me && Attributed(sessions, runners[k], a)
    requires Collected(sessions, runners, k, me, now, reap0, live0)
    requires live == live0 + {sessions[a].sid}
    requires reap == reap0 + if Reapable(sessions[a], sessions, now) then [Candidate(runners[k].pid, sessions[a])] else []
    ensures Collected(sessions, runners, k + 1, me, now, reap, live)
  {
    forall i | 0 <= i < k + 1 && runners[i].pid != me
      ensures exists b: nat :: Attributed(sessions, runners[i], b) && sessions[b].sid in live
                               && (Reapable(sessions[b], sessions, now) ==> Candidate(runners[i].pid, sessions[b]) in reap)
    {
      if i < k {
        var b: nat :| Attributed(sessions, runners[i], b) && sessions[b].sid in live0
                      && (Reapable(sessions[b], sessions, now) ==> Candidate(runners[i].pid, sessions[b]) in reap0);
      }
    }
    forall c | c in reap
      ensures exists i, b: nat :: 0 <= i < k + 1 && runners[i].pid == c.pid != me && Attributed(sessions, runners[i], b)
                                  && sessions[b] == c.session && Reapable(c.session, sessions, now)
    {
      if c in reap0 {
        var i, b: nat :| 0 <= i < k && runners[i].pid == c.pid != me && Attributed(sessions, runners[i], b)
                         && sessions[b] == c.session && Reapable(c.session, sessions, now);
      }
    }
  }

  // ---- One process of each session ----

  function PidsOf(reap: seq<Candidate>, sid: string): set<int> {
    set c | c in reap && c.session.sid == sid :: c.pid
  }

  // Its parent is another candidate of the same session.
  predicate HasCandidateParent(reap: seq<Candidate>, parent: int -> int, c: Candidate) {
    parent(c.pid) in PidsOf(reap, c.session.sid)
  }

  predicate Kept(reap: seq<Candidate>, parent: int -> int, c: Candidate) {
    c in reap && (|reap| < 2 || !HasCandidateParent(reap, parent, c))
  }

  function Group(groups: map<string, set<int>>, sid: string): set<int> {
    if sid in groups then groups[sid] else {}
  }

  method GroupBySession(reap: seq<Candidate>) returns (groups: map<string, set<int>>)
    ensures forall sid :: Group(groups, sid) == PidsOf(reap, sid)
  {
    groups := map[];
    for k := 0 to |reap|
      invariant forall sid :: Group(groups, sid) == PidsOf(reap[..k], sid)
    {
      ghost var before := groups;
      var c := reap[k];
      groups := groups[c.session.sid := Group(groups, c.session.sid) + {c.pid}];
      forall sid
        ensures Group(groups, sid) == PidsOf(reap[..k + 1], sid)
      {
        PidsNext(reap[..k], c, sid);
        assert reap[..k + 1] == reap[..k] + [c] && Group(before, sid) == PidsOf(reap[..k], sid);
      }
    }
    assert reap[..|reap|] == reap;
  }

  lemma PidsNext(reap: seq<Candidate>, c: Candidate, sid: string)
    ensures PidsOf(reap + [c], sid) == PidsOf(reap, sid) + if c.session.sid == sid then {c.pid} else {}
  {
  }

  method Dedupe(reap: seq<Candidate>, parent: int -> int) returns (out: seq<Candidate>)
    ensures forall c :: c in out <==> Kept(reap, parent, c)
  {
    if |reap| < 2 {
      return reap;
    }
    var groups := GroupBySession(reap);
    out := [];
    for k := 0 to |reap|
      invariant forall c :: c in out <==> c in reap[..k] && !HasCandidateParent(reap, parent, c)
    {
      var c := reap[k];
      assert reap[..k + 1] == reap[..k] + [c];
      assert Group(groups, c.session.sid) == PidsOf(reap, c.session.sid);
      if parent(c.pid) !in Group(groups, c.session.sid) {
        out := out + [c];
      }
    }
    assert reap[..|reap|] == reap;
  }

  function Ancestor(parent: int -> int, pid: int, n: nat): int
    decreases n
  {
    if n == 0 then pid else Ancestor(parent, parent(pid), n - 1)
  }

  // No process is its own ancestor: some rank falls from child to parent.
  ghost predicate Acyclic(parent: int -> int, rank: int -> nat, reap: seq<Candidate>) {
    forall i :: 0 <= i < |reap| && HasCandidateParent(reap, parent, reap[i]) ==> rank(parent(reap[i].pid)) < rank(reap[i].pid)
  }

  predicate Dropped(reap: seq<Candidate>, parent: int -> int, c: Candidate) {
    c in reap && !Kept(reap, parent, c)
  }

  // The n-th ancestor is the first that was kept, and all before it were dropped candidates of the session.
  ghost predicate FirstKept(reap: seq<Candidate>, parent: int -> int, c: Candidate, n: nat, kept: Candidate) {
    && Kept(reap, parent, kept) && kept.session.sid == c.session.sid && kept.pid == Ancestor(parent, c.pid, n)
    && forall m :: 0 <= m < n ==> DroppedPid(reap, parent, Ancestor(parent, c.pid, m))
  }

  predicate DroppedPid(reap: seq<Candidate>, parent: int -> int, pid: int) {
    exists d :: d in reap && Dropped(reap, parent, d) && d.pid == pid
  }

  /** Every candidate reaches a kept candidate of its session by parent links, over dropped ones only. */
  lemma {:induction false} KeptAncestor(reap: seq<Candidate>, parent: int -> int, rank: int -> nat, c: Candidate)
      returns (n: nat, kept: Candidate)
    requires Acyclic(parent, rank, reap) && c in reap
    ensures FirstKept(reap, parent, c, n, kept)
    ensures n == 0 <==> Kept(reap, parent, c)
    decreases rank(c.pid)
  {
    if |reap| < 2 || !HasCandidateParent(reap, parent, c) {
      n, kept := 0, c;
    } else {
      var p :| p in reap && p.session.sid == c.session.sid && p.pid == parent(c.pid);
      var k :| 0 <= k < |reap| && reap[k] == c;
      n, kept := KeptAncestor(reap, parent, rank, p);
      forall m | 0 <= m < n + 1
        ensures DroppedPid(reap, parent, Ancestor(parent, c.pid, m))
      {
        if m > 0 {
          assert DroppedPid(reap, parent, Ancestor(parent, p.pid, m - 1));
        } else {
          assert Dropped(reap, parent, c);
        }
      }
      n := n + 1;
    }
  }

  // ---- What is killed ----

  ghost predicate IsTarget(reap: seq<Candidate>, parent: int -> int, pid: int) {
    exists c :: Kept(reap, parent, c) && (pid == c.pid || parent(pid) == c.pid)
  }

  // A kept candidate that is itself a child of one: it may be dead before its own turn.
  ghost predicate ChildOfKept(reap: seq<Candidate>, parent: int -> int, pid: int) {
    exists d :: Kept(reap, parent, d) && parent(pid) == d.pid
  }

  // What is killed whatever becomes of the children of a process that dies early.
  ghost predicate IsSureTarget(reap: seq<Candidate>, parent: int -> int, pid: int) {
    exists c :: Kept(reap, parent, c) && (pid == c.pid || (parent(pid) == c.pid && !ChildOfKept(reap, parent, c.pid)))
  }

  // What the first k turns have killed.
  ghost predicate KilledBy(out: seq<Candidate>, k: nat, reap: seq<Candidate>, parent: int -> int, processes: set<int>, killed: set<int>)
    requires k <= |out|
  {
    && (forall p :: p in killed ==> exists i :: 0 <= i < k && (p == out[i].pid || parent(p) == out[i].pid))
    && (forall i :: 0 <= i < k ==> out[i].pid in killed)
    && (forall i, p :: 0 <= i < k && p in processes && parent(p) == out[i].pid ==>
          p in killed || ChildOfKept(reap, parent, out[i].pid))
  }

  lemma TurnKills(out: seq<Candidate>, k: nat, reap: seq<Candidate>, parent: int -> int, processes: set<int>,
                  killed: set<int>, children: set<int>)
    requires k < |out| && KilledBy(out, k, reap, parent, processes, killed)
    requires forall c :: c in out ==> Kept(reap, parent, c)
    requires forall p :: p in children ==> parent(p) == out[k].pid
    requires out[k].pid in killed || forall p :: p in processes && parent(p) == out[k].pid ==> p in children
    ensures KilledBy(out, k + 1, reap, parent, processes, killed + {out[k].pid} + children)
  {
    var later := killed + {out[k].pid} + children;
    forall p | p in later
      ensures exists i :: 0 <= i < k + 1 && (p == out[i].pid || parent(p) == out[i].pid)
    {
      if p in killed {
        var i :| 0 <= i < k && (p == out[i].pid || parent(p) == out[i].pid);
      } else {
        assert p == out[k].pid || parent(p) == out[k].pid;
      }
    }
    forall p | p in processes && parent(p) == out[k].pid
      ensures p in later || ChildOfKept(reap, parent, out[k].pid)
    {
      if out[k].pid in killed {
        var i :| 0 <= i < k && (out[k].pid == out[i].pid || parent(out[k].pid) == out[i].pid);
        assert Kept(reap, parent, out[i]);
      }
    }
  }

  /**
   Each kept candidate is killed, with the processes that are its children at its turn. One that an earlier
   turn has killed may have lost some of its children by then.
   */
  method Kill(reap: seq<Candidate>, parent: int -> int, processes: set<int>, apply: bool) returns (killed: set<int>)
    ensures !apply ==> killed == {}
    ensures forall p :: p in killed ==> IsTarget(reap, parent, p)
    ensures forall p :: apply && IsSureTarget(reap, parent, p) && p in processes ==> p in killed
  {
    var out := Dedupe(reap, parent);
    killed := {};
    if !apply {
      return;
    }
    for k := 0 to |out|
      invariant KilledBy(out, k, reap, parent, processes, killed)
    {
      var children := set p | p in processes && parent(p) == out[k].pid;
      if out[k].pid in killed {
        var stillThere: set<int> := *;
        children := children * stillThere;
      }
      TurnKills(out, k, reap, parent, processes, killed, children);
      killed := killed + {out[k].pid} + children;
    }
    TurnsKillTargets(out, reap, parent, processes, killed);
  }

  lemma TurnsKillTargets(out: seq<Candidate>, reap: seq<Candidate>, parent: int -> int, processes: set<int>, killed: set<int>)
    requires KilledBy(out, |out|, reap, parent, processes, killed)
    requires forall c :: c in out <==> Kept(reap, parent, c)
    ensures forall p :: p in killed ==> IsTarget(reap, parent, p)
    ensures forall p :: IsSureTarget(reap, parent, p) && p in processes ==> p in killed
  {
    forall p | p in killed
      ensures IsTarget(reap, parent, p)
    {
      var i :| 0 <= i < |out| && (p == out[i].pid || parent(p) == out[i].pid);
      assert Kept(reap, parent, out[i]);
    }
    forall p | IsSureTarget(reap, parent, p) && p in processes
      ensures p in killed
    {
      var c :| Kept(reap, parent, c) && (p == c.pid || (parent(p) == c.pid && !ChildOfKept(reap, parent, c.pid)));
      var i :| 0 <= i < |out| && out[i] == c;
    }
  }

  /** Unless a kept candidate is a child of another one, nothing is left to chance. */
  lemma EveryTargetIsSure(reap: seq<Candidate>, parent: int -> int, pid: int)
    requires forall c :: Kept(reap, parent, c) ==> !ChildOfKept(reap, parent, c.pid)
    ensures IsTarget(reap, parent, pid) <==> IsSureTarget(reap, parent, pid)
  {
  }

  /**
   A runner that is protected itself, because its session is interactive, its task's newest, or within
   its grace, is killed if and only if it is a child of a kept candidate.
   */
  lemma ProtectedIsKilledIff(sessions: seq<Session>, runners: seq<Runner>, me: int, now: real,
                             reap: seq<Candidate>, live: set<string>, parent: int -> int, i: nat, a: nat)
    requires DistinctPids(runners) && Collected(sessions, runners, |runners|, me, now, reap, live)
    requires i < |runners| && Attributed(sessions, runners[i], a) && !Reapable(sessions[a], sessions, now)
    ensures IsTarget(reap, parent, runners[i].pid) <==> exists c :: Kept(reap, parent, c) && parent(runners[i].pid) == c.pid
    ensures IsSureTarget(reap, parent, runners[i].pid) <==>
              exists c :: Kept(reap, parent, c) && parent(runners[i].pid) == c.pid && !ChildOfKept(reap, parent, c.pid)
  {
    forall c | Kept(reap, parent, c)
      ensures c.pid != runners[i].pid
    {
      var j, b: nat :| 0 <= j < |runners| && runners[j].pid == c.pid != me && Attributed(sessions, runners[j], b)
                       && sessions[b] == c.session && Reapable(c.session, sessions, now);
      if runners[j].pid == runners[i].pid {
        assert i == j;
        AttributionIsUnique(sessions, runners[i], a, b);
      }
    }
  }

  const LEAKED := Session("leaked", "task", 1000.0, 1000.0)
  const CURRENT := Session("current", "task", 9000.0, 9000.0)

  lemma NewestOfTwo(a: Session, b: Session)
    requires a.task == b.task && 0.0 < a.last < b.last
    ensures Newest([a, b], a.task) == b.last
  {
    assert [a, b][..1] == [a] && [a][..0] == [];
    assert Newest([], a.task) == 0.0;
    assert Newest([a], a.task) == a.last;
  }

  /** It does happen: the newest session's runner, a child of a leaked session's runner, is killed. */
  lemma NewestRunnerCanBeKilled(parent: int -> int)
    requires parent(20) == 10 && parent(10) == 1
    ensures var sessions, runners := [LEAKED, CURRENT], [Runner(10, 1000.0), Runner(20, 9000.0)];
            && Attributed(sessions, runners[1], 1) && IsRunning(CURRENT, Newest(sessions, "task"))
            && Collected(sessions, runners, 2, 0, 9060.0, [Candidate(10, LEAKED)], {"leaked", "current"})
            && IsSureTarget([Candidate(10, LEAKED)], parent, 20)
  {
    var sessions, runners := [LEAKED, CURRENT], [Runner(10, 1000.0), Runner(20, 9000.0)];
    var reap := [Candidate(10, LEAKED)];
    NewestOfTwo(LEAKED, CURRENT);
    assert Attributed(sessions, runners[0], 0) && Attributed(sessions, runners[1], 1);
    assert Reapable(LEAKED, sessions, 9060.0) && !Reapable(CURRENT, sessions, 9060.0);
    assert reap[0] in reap && Kept(reap, parent, reap[0]);
    assert !ChildOfKept(reap, parent, 10);
  }

  // Candidates of one process are one candidate.
  ghost predicate OneEach(reap: seq<Candidate>) {
    forall c, d :: c in reap && d in reap && c.pid == d.pid ==> c == d
  }

  lemma CandidatesAreOneEach(sessions: seq<Session>, runners: seq<Runner>, me: int, now: real,
                             reap: seq<Candidate>, live: set<string>)
    requires DistinctPids(runners) && Collected(sessions, runners, |runners|, me, now, reap, live)
    ensures OneEach(reap)
  {
    forall c, d | c in reap && d in reap && c.pid == d.pid
      ensures c == d
    {
      var i, a: nat :| 0 <= i < |runners| && runners[i].pid == c.pid != me && Attributed(sessions, runners[i], a)
                       && sessions[a] == c.session && Reapable(c.session, sessions, now);
      var j, b: nat :| 0 <= j < |runners| && runners[j].pid == d.pid != me && Attributed(sessions, runners[j], b)
                       && sessions[b] == d.session && Reapable(d.session, sessions, now);
      assert i == j;
      AttributionIsUnique(sessions, runners[i], a, b);
    }
  }

  /**
   A dropped candidate is killed if and only if the first kept candidate among its ancestors is its parent:
   the kill reaches one generation below what was kept, and no further.
   */
  lemma DroppedIsKilledIff(reap: seq<Candidate>, parent: int -> int, rank: int -> nat, c: Candidate)
      returns (n: nat, kept: Candidate)
    requires OneEach(reap) && Acyclic(parent, rank, reap) && Dropped(reap, parent, c)
    ensures n > 0 && FirstKept(reap, parent, c, n, kept)
    ensures IsTarget(reap, parent, c.pid) <==> n == 1
    ensures IsSureTarget(reap, parent, c.pid) <==> n == 1 && !ChildOfKept(reap, parent, kept.pid)
  {
    n, kept := KeptAncestor(reap, parent, rank, c);
    assert Ancestor(parent, c.pid, 1) == parent(c.pid) by {
      assert Ancestor(parent, parent(c.pid), 0) == parent(c.pid);
    }
    if n > 1 {
      assert DroppedPid(reap, parent, Ancestor(parent, c.pid, 1));
    }
    forall k | Kept(reap, parent, k) && (c.pid == k.pid || parent(c.pid) == k.pid)
      ensures n == 1 && k == kept
    {
      assert c.pid != k.pid;
    }
  }

  const CHAIN := [Candidate(10, LEAKED), Candidate(20, LEAKED), Candidate(30, LEAKED)]

  lemma ChainIsCollected()
    ensures Collected([LEAKED, CURRENT], [Runner(10, 1000.0), Runner(20, 1000.0), Runner(30, 1000.0)], 3, 0, 9060.0, CHAIN, {"leaked"})
  {
    var sessions := [LEAKED, CURRENT];
    var runners := [Runner(10, 1000.0), Runner(20, 1000.0), Runner(30, 1000.0)];
    NewestOfTwo(LEAKED, CURRENT);
    assert Attributed(sessions, runners[0], 0) && Attributed(sessions, runners[1], 0) && Attributed(sessions, runners[2], 0);
    assert Reapable(LEAKED, sessions, 9060.0);
    assert CHAIN[0] in CHAIN && CHAIN[1] in CHAIN && CHAIN[2] in CHAIN;
  }

  /** The third generation of a chain: it is collected, dropped, and survives the pass. */
  lemma ThirdGenerationSurvives(parent: int -> int)
    requires parent(30) == 20 && parent(20) == 10 && parent(10) == 1
    ensures Collected([LEAKED, CURRENT], [Runner(10, 1000.0), Runner(20, 1000.0), Runner(30, 1000.0)], 3, 0, 9060.0, CHAIN, {"leaked"})
    ensures Kept(CHAIN, parent, CHAIN[0]) && Dropped(CHAIN, parent, CHAIN[1]) && Dropped(CHAIN, parent, CHAIN[2])
    ensures IsSureTarget(CHAIN, parent, 20) && !IsTarget(CHAIN, parent, 30)
  {
    ChainIsCollected();
    FirstOfChainIsKept(parent);
    assert CHAIN[1] in CHAIN && CHAIN[2] in CHAIN;
    assert CHAIN[0].pid == 10 && !ChildOfKept(CHAIN, parent, 10);
  }

  lemma FirstOfChainIsKept(parent: int -> int)
    requires parent(30) == 20 && parent(20) == 10 && parent(10) == 1
    ensures forall c :: Kept(CHAIN, parent, c) <==> c == CHAIN[0]
  {
    PidsOfThree(CHAIN);
    forall c
      ensures Kept(CHAIN, parent, c) <==> c == CHAIN[0]
    {
      if c in CHAIN {
        assert c == CHAIN[0] || c == CHAIN[1] || c == CHAIN[2];
      } else {
        assert CHAIN[0] in CHAIN;
      }
    }
  }

  lemma PidsOfThree(reap: seq<Candidate>)
    requires |reap| == 3 && reap[0].session == reap[1].session == reap[2].session
    ensures PidsOf(reap, reap[0].session.sid) == {reap[0].pid, reap[1].pid, reap[2].pid}
  {
    assert reap[0] in reap && reap[1] in reap && reap[2] in reap;
  }

  // ---- Archiving ----

  predicate ShouldArchive(s: Session, sessions: seq<Session>, live: set<string>, now: real) {
    && s.sid !in live
    && (if s.task != "" then !IsRunning(s, Newest(sessions, s.task)) && IdleFor(s, now, GRACE_MINUTES)
        else IdleFor(s, now, STALE_MINUTES))
  }

  // Written out: nothing live, of a task what is leaked, and otherwise what has been idle for seven days.
  ghost predicate Due(s: Session, sessions: seq<Session>, live: set<string>, now: real) {
    && s.sid !in live
    && (if s.task != "" then Leaked(s, sessions, now) else s.last == 0.0 || now - s.last >= 604800.0)
  }

  lemma ShouldArchiveIsDue(s: Session, sessions: seq<Session>, live: set<string>, now: real)
    requires s in sessions
    ensures ShouldArchive(s, sessions, live, now) <==> Due(s, sessions, live, now)
  {
    ReapableIsLeaked(s, sessions, now);
    assert (now - s.last) / 60.0 >= 7.0 * 1440.0 <==> now - s.last >= 604800.0;
  }

  /** The archive loop: every session that is due is archived, or writing its record fails. */
  method Archive(sessions: seq<Session>, live: set<string>, now: real, apply: bool)
      returns (archived: set<nat>, failed: set<nat>)
    ensures forall i: nat :: (i in archived || i in failed) <==>
              (apply && i < |sessions| && ShouldArchive(sessions[i], sessions, live, now))
    ensures forall i: nat :: (i in archived || i in failed) <==> (apply && i < |sessions| && Due(sessions[i], sessions, live, now))
    ensures archived !! failed
  {
    var newest := NewestTable(sessions);
    archived, failed := {}, {};
    for i := 0 to |sessions|
      invariant forall k: nat :: (k in archived || k in failed) <==>
                  (apply && k < i && ShouldArchive(sessions[k], sessions, live, now))
      invariant archived !! failed
    {
      var s := sessions[i];
      var due := s.sid !in live
                 && (if s.task != "" then !IsRunning(s, Lookup(newest, s.task)) && IdleFor(s, now, GRACE_MINUTES)
                     else IdleFor(s, now, STALE_MINUTES));
      if due && apply {
        var written: bool := *;
        if written {
          archived := archived + {i};
        } else {
          failed := failed + {i};
        }
      }
    }
    forall i | 0 <= i < |sessions|
      ensures ShouldArchive(sessions[i], sessions, live, now) <==> Due(sessions[i], sessions, live, now)
    {
      ShouldArchiveIsDue(sessions[i], sessions, live, now);
    }
  }

  /** A session with an attributed runner is not archived in that pass. */
  lemma LiveIsNotArchived(sessions: seq<Session>, runners: seq<Runner>, me: int, now: real,
                          reap: seq<Candidate>, live: set<string>, i: nat, a: nat, k: nat)
    requires Collected(sessions, runners, |runners|, me, now, reap, live)
    requires i < |runners| && runners[i].pid != me && Attributed(sessions, runners[i], a)
    requires k < |sessions| && sessions[k].sid == sessions[a].sid
    ensures !ShouldArchive(sessions[k], sessions, live, now)
  {
    var b: nat :| Attributed(sessions, runners[i], b) && sessions[b].sid in live;
    AttributionIsUnique(sessions, runners[i], a, b);
  }

  // ---- Any number of passes ----

  datatype Record = Record(session: Session, archived: bool)

  // The sessions that a pass loads.
  function Loaded(records: seq<Record>): seq<Session> {
    if records == [] then []
    else
      var before, r := Loaded(records[..|records| - 1]), records[|records| - 1];
      if r.archived then before else before + [r.session]
  }

  lemma {:induction false} LoadedMembers(records: seq<Record>)
    ensures forall s :: s in Loaded(records) <==> Record(s, false) in records
  {
    if records != [] {
      LoadedMembers(records[..|records| - 1]);
      assert records == records[..|records| - 1] + [records[|records| - 1]];
    }
  }

  // A pass archives nothing but what it should; a live runner may keep any session.
  ghost predicate Pass(before: seq<Record>, after: seq<Record>) {
    |after| == |before| && exists live, now :: PassedWith(before, after, live, now)
  }

  ghost predicate PassedWith(before: seq<Record>, after: seq<Record>, live: set<string>, now: real)
    requires |after| == |before|
  {
    forall i :: 0 <= i < |before| ==> PassedRecord(before, after[i], i, live, now)
  }

  predicate PassedRecord(before: seq<Record>, r: Record, i: nat, live: set<string>, now: real)
    requires i < |before|
  {
    && r.session == before[i].session
    && (r.archived ==> before[i].archived || ShouldArchive(r.session, Loaded(before), live, now))
    && (before[i].archived ==> r.archived)
  }

  // Where the loaded sessions stand among the records.
  ghost predicate LoadedFrom(records: seq<Record>, sessions: seq<Session>, at: seq<nat>) {
    && |at| == |sessions|
    && forall k :: 0 <= k < |at| ==> at[k] < |records| && records[at[k]] == Record(sessions[k], false)
  }

  method Load(records: seq<Record>) returns (sessions: seq<Session>, at: seq<nat>)
    ensures sessions == Loaded(records) && LoadedFrom(records, sessions, at)
  {
    sessions, at := [], [];
    for i := 0 to |records|
      invariant sessions == Loaded(records[..i]) && LoadedFrom(records, sessions, at)
    {
      assert records[..i + 1][..i] == records[..i];
      if !records[i].archived {
        sessions, at := sessions + [records[i].session], at + [i];
      }
    }
    assert records[..|records|] == records;
  }

  // The records once the first k loaded sessions were dealt with.
  ghost predicate Marked(records: seq<Record>, after: seq<Record>, live: set<string>, now: real) {
    |after| == |records| && PassedWith(records, after, live, now)
  }

  lemma MarksNext(records: seq<Record>, after: seq<Record>, live: set<string>, now: real, i: nat)
    requires Marked(records, after, live, now) && i < |records|
    requires ShouldArchive(records[i].session, Loaded(records), live, now)
    ensures Marked(records, after[i := after[i].(archived := true)], live, now)
  {
    var later := after[i := after[i].(archived := true)];
    forall k | 0 <= k < |records|
      ensures PassedRecord(records, later[k], k, live, now)
    {
      assert PassedRecord(records, after[k], k, live, now);
    }
  }

  // Every killed process is a candidate's or a child of one, and every candidate is a runner of a leaked session.
  ghost predicate Spares(sessions: seq<Session>, runners: seq<Runner>, parent: int -> int, now: real,
                         reap: seq<Candidate>, killed: set<int>) {
    && (forall p :: p in killed ==> exists c :: c in reap && (p == c.pid || parent(p) == c.pid))
    && (forall c :: c in reap ==> Leaked(c.session, sessions, now))
    && (DistinctPids(runners) ==>
          forall i, a: nat :: 0 <= i < |runners| && Attributed(sessions, runners[i], a) && runners[i].pid in killed ==>
            Leaked(sessions[a], sessions, now) || IsChild(reap, parent, runners[i].pid))
  }

  predicate IsChild(reap: seq<Candidate>, parent: int -> int, pid: int) {
    exists c :: c in reap && parent(pid) == c.pid
  }

  lemma KillSpares(sessions: seq<Session>, runners: seq<Runner>, me: int, now: real, reap: seq<Candidate>,
                   live: set<string>, parent: int -> int, killed: set<int>)
    requires Collected(sessions, runners, |runners|, me, now, reap, live)
    requires forall p :: p in killed ==> IsTarget(reap, parent, p)
    ensures Spares(sessions, runners, parent, now, reap, killed)
  {
    CollectsTheLeaked(sessions, runners, me, now, reap, live);
    forall p | p in killed
      ensures exists c :: c in reap && (p == c.pid || parent(p) == c.pid)
    {
      var c :| Kept(reap, parent, c) && (p == c.pid || parent(p) == c.pid);
      assert c in reap;
    }
    if DistinctPids(runners) {
      forall i, a: nat | 0 <= i < |runners| && Attributed(sessions, runners[i], a) && !Leaked(sessions[a], sessions, now)
                         && runners[i].pid in killed
        ensures IsChild(reap, parent, runners[i].pid)
      {
        ReapableIsLeaked(sessions[a], sessions, now);
        ProtectedIsKilledIff(sessions, runners, me, now, reap, live, parent, i, a);
        var c :| Kept(reap, parent, c) && parent(runners[i].pid) == c.pid;
        assert c in reap;
      }
    }
  }

  /** One pass as it runs: it loads, collects, kills and archives, or refuses before it changes anything. */
  method Reap(records: seq<Record>, runners: seq<Runner>, parent: int -> int, processes: set<int>,
              me: int, now: real, apply: bool) returns (after: seq<Record>, killed: set<int>, ghost reap: seq<Candidate>)
    ensures Pass(records, after) && (NewestKept(records) ==> NewestKept(after))
    ensures Spares(Loaded(records), runners, parent, now, reap, killed)
    ensures !apply ==> after == records && killed == {}
    ensures killed != {} || after != records ==>
              forall i :: 0 <= i < |runners| && runners[i].pid != me ==> exists a: nat :: Attributed(Loaded(records), runners[i], a)
  {
    after, killed, reap := records, {}, [];
    assert Marked(records, after, {}, now);
    var sessions, at := Load(records);
    var ok, found, live := Collect(sessions, runners, me, now);
    if ok {
      reap := found;
      killed := Kill(found, parent, processes, apply);
      KillSpares(sessions, runners, me, now, found, live, parent, killed);
      var archived, failed := Archive(sessions, live, now, apply);
      assert Marked(records, after, live, now);
      for k := 0 to |sessions|
        invariant Marked(records, after, live, now)
        invariant !apply ==> after == records
      {
        if k in archived {
          MarksNext(records, after, live, now, at[k]);
          after := after[at[k] := after[at[k]].(archived := true)];
        }
      }
      assert Pass(records, after);
    }
    if NewestKept(records) {
      PassKeepsNewest(records, after);
    }
  }

  // Between passes sessions begin, work on, or are taken back from the archive.
  ghost predicate Use(before: seq<Record>, after: seq<Record>) {
    && |before| <= |after|
    && (forall i :: 0 <= i < |before| ==> UsedRecord(before[i], after[i]))
    && (forall i :: |before| <= i < |after| ==> !after[i].archived)
  }

  predicate UsedRecord(r: Record, r': Record) {
    && r'.session.task == r.session.task && (r'.archived ==> r'.session == r.session && r.archived)
    && r'.session.last >= r.session.last
  }

  ghost predicate IsHistory(states: seq<seq<Record>>) {
    && states != [] && NewestKept(states[0])
    && forall k :: 0 < k < |states| ==> Pass(states[k - 1], states[k]) || Use(states[k - 1], states[k])
  }

  // Some unarchived session of its task is at least as recent.
  ghost predicate Outlived(records: seq<Record>, i: nat)
    requires i < |records|
  {
    exists j :: 0 <= j < |records| && !records[j].archived && records[j].session.task == records[i].session.task
                && records[j].session.last >= records[i].session.last
  }

  ghost predicate NewestKept(records: seq<Record>) {
    forall i :: 0 <= i < |records| && records[i].session.task != "" && records[i].session.last > 0.0 ==> Outlived(records, i)
  }

  // The unarchived record that a pass protects for a task.
  lemma Protected(records: seq<Record>, j: nat, task: string) returns (k: nat)
    requires j < |records| && !records[j].archived && records[j].session.task == task && records[j].session.last > 0.0
    ensures k < |records| && !records[k].archived && records[k].session.task == task
    ensures records[k].session.last == Newest(Loaded(records), task) >= records[j].session.last
  {
    var loaded := Loaded(records);
    LoadedMembers(records);
    assert records[j] == Record(records[j].session, false);
    assert records[j].session in loaded;
    NewestIsGreatest(loaded, task);
    var m :| 0 <= m < |loaded| && loaded[m].task == task && loaded[m].last == Newest(loaded, task);
    assert loaded[m] in loaded;
    k :| 0 <= k < |records| && records[k] == Record(loaded[m], false);
  }

  lemma ProtectedSurvives(before: seq<Record>, r: Record, k: nat, live: set<string>, now: real)
    requires k < |before| && PassedRecord(before, r, k, live, now) && !before[k].archived
    requires before[k].session.task != "" && before[k].session.last == Newest(Loaded(before), before[k].session.task) > 0.0
    ensures !r.archived
  {
  }

  lemma PassKeepsNewest(before: seq<Record>, after: seq<Record>)
    requires NewestKept(before) && Pass(before, after)
    ensures NewestKept(after)
  {
    var live, now :| PassedWith(before, after, live, now);
    forall i | 0 <= i < |after| && after[i].session.task != "" && after[i].session.last > 0.0
      ensures Outlived(after, i)
    {
      assert PassedRecord(before, after[i], i, live, now) && Outlived(before, i);
      var task := before[i].session.task;
      var j :| 0 <= j < |before| && !before[j].archived && before[j].session.task == task
               && before[j].session.last >= before[i].session.last;
      var k := Protected(before, j, task);
      assert PassedRecord(before, after[k], k, live, now);
      ProtectedSurvives(before, after[k], k, live, now);
    }
  }

  lemma UseKeepsNewest(before: seq<Record>, after: seq<Record>)
    requires NewestKept(before) && Use(before, after)
    ensures NewestKept(after)
  {
    forall i | 0 <= i < |after| && after[i].session.task != "" && after[i].session.last > 0.0
      ensures Outlived(after, i)
    {
      if after[i].archived {
        assert UsedRecord(before[i], after[i]) && Outlived(before, i);
        var j :| 0 <= j < |before| && !before[j].archived && before[j].session.task == before[i].session.task
                 && before[j].session.last >= before[i].session.last;
        assert UsedRecord(before[j], after[j]);
      }
    }
  }

  /** Over any sequence of passes, a task with recorded activity keeps its newest session unarchived. */
  lemma {:induction false} NewestIsNeverArchived(states: seq<seq<Record>>, k: nat)
    requires IsHistory(states) && k < |states|
    ensures NewestKept(states[k])
  {
    if k > 0 {
      NewestIsNeverArchived(states, k - 1);
      if Pass(states[k - 1], states[k]) {
        PassKeepsNewest(states[k - 1], states[k]);
      } else {
        UseKeepsNewest(states[k - 1], states[k]);
      }
    }
  }
}
