// The transcoder daemons (internal/transcode/daemon.go). A start message reaches one daemon, a stop message
// reaches all of them, and every message is handled by its own goroutine whose locked read, kill and delete
// are separate steps.
module Transcoders {
  import opened Common

  type Pid = nat

  /** Where a handler stands between two of its steps. Once a start is recorded its handler only waits for
      the process to exit, and no longer counts as in flight. */
  datatype Handler =
    | StartReceived(user: User)
    | StartSpawned(user: User, pid: Pid)
    | StopReceived(user: User)
    | StopRead(user: User, pid: Pid)
    | StopKilled(user: User, pid: Pid)

  /** One daemon and its machine: the pid map, the processes alive, every process it ever spawned with the
      user it was spawned for, and the handlers in flight by message number. */
  datatype DaemonState = DaemonState(
    pids: map<User, Pid>, running: set<Pid>, spawned: map<Pid, User>, handlers: map<nat, Handler>)

  const IDLE := DaemonState(map[], {}, map[], map[])

  datatype Step =
    | StartFails(msg: nat)
    | Spawn(msg: nat, pid: Pid)
    | Record(msg: nat)
    | Exit(pid: Pid)
    | Read(msg: nat)
    | FindFails(msg: nat)
    | Kill(msg: nat, works: bool)
    | Forget(msg: nat)

  /** The system never gives out the pid of a live process, but it may give out one of an exited process. An
      exited process keeps its pid until its handler has waited for it, which the source does only after the
      record (daemon.go:202-206); a pid that is exited and not yet recorded is given out again in the model only. */
  predicate CanDo(s: DaemonState, e: Step) {
    match e
    case StartFails(m) => m in s.handlers && s.handlers[m].StartReceived?
    case Spawn(m, pid) =>
      m in s.handlers && s.handlers[m].StartReceived? && pid !in s.running
    case Record(m) => m in s.handlers && s.handlers[m].StartSpawned?
    case Exit(pid) => pid in s.running
    case Read(m) => m in s.handlers && s.handlers[m].StopReceived?
    case FindFails(m) => m in s.handlers && s.handlers[m].StopRead?
    case Kill(m, _) => m in s.handlers && s.handlers[m].StopRead?
    case Forget(m) => m in s.handlers && s.handlers[m].StopKilled?
  }

  function Do(s: DaemonState, e: Step): DaemonState
    requires CanDo(s, e)
  {
    match e
    case StartFails(m) => s.(handlers := s.handlers - {m})
    case Spawn(m, pid) =>
      var u := s.handlers[m].user;
      s.(running := s.running + {pid}, spawned := s.spawned[pid := u],
         handlers := s.handlers[m := StartSpawned(u, pid)])
    case Record(m) =>
      s.(pids := s.pids[s.handlers[m].user := s.handlers[m].pid], handlers := s.handlers - {m})
    case Exit(pid) => s.(running := s.running - {pid})
    case Read(m) =>
      var u := s.handlers[m].user;
      if u in s.pids then s.(handlers := s.handlers[m := StopRead(u, s.pids[u])])
      else s.(handlers := s.handlers - {m})
    case FindFails(m) => s.(handlers := s.handlers - {m})
    case Kill(m, works) =>
      var h := s.handlers[m];
      s.(running := if works then s.running - {h.pid} else s.running,
         handlers := s.handlers[m := StopKilled(h.user, h.pid)])
    case Forget(m) => s.(pids := s.pids - {s.handlers[m].user}, handlers := s.handlers - {m})
  }

  // ---- Every interleaving ----

  /** A handler that will still record or kill a pid. */
  predicate Carrier(h: Handler) { h.StartSpawned? || h.StopRead? }

  predicate Carries(h: Handler, pid: Pid) { Carrier(h) && h.pid == pid }

  /** A pid recorded, and one a handler carries, was last spawned by this daemon for that user. */
  predicate OwnPids(s: DaemonState) {
    && (forall u :: u in s.pids ==> s.pids[u] in s.spawned && s.spawned[s.pids[u]] == u)
    && (forall m :: m in s.handlers && Carrier(s.handlers[m]) ==>
          s.handlers[m].pid in s.spawned && s.spawned[s.handlers[m].pid] == s.handlers[m].user)
    && s.running <= s.spawned.Keys
  }

  /** Nobody else's record holds this pid, and no handler of anybody else's carries it. That a handler between its
      spawn and its record carries it does not arise in the source, for the reason given at `CanDo`. */
  predicate NotReused(s: DaemonState, u: User, pid: Pid) {
    && (forall v :: v in s.pids && s.pids[v] == pid ==> v == u)
    && (forall m :: m in s.handlers && Carries(s.handlers[m], pid) ==> s.handlers[m].user == u)
  }

  predicate Fresh(s: DaemonState, e: Step)
    requires CanDo(s, e)
  {
    e.Spawn? ==> NotReused(s, s.handlers[e.msg].user, e.pid)
  }

  predicate MayDo(s: DaemonState, e: Step) { CanDo(s, e) && Fresh(s, e) }

  /** The system may give out an old pid exactly as long as nobody else still holds it. */
  lemma SpawnKeepsOwnPidsIff(s: DaemonState, m: nat, pid: Pid)
    requires OwnPids(s) && CanDo(s, Spawn(m, pid))
    ensures OwnPids(Do(s, Spawn(m, pid))) <==> NotReused(s, s.handlers[m].user, pid)
  {
    var u, t := s.handlers[m].user, Do(s, Spawn(m, pid));
    if v :| v in s.pids && s.pids[v] == pid && v != u {
      assert t.pids[v] == pid && t.spawned[pid] == u;
    }
    if k :| k in s.handlers && Carries(s.handlers[k], pid) && s.handlers[k].user != u {
      assert t.handlers[k] == s.handlers[k] && t.spawned[pid] == u;
    }
  }

  lemma StepKeepsOwnPids(s: DaemonState, e: Step)
    requires OwnPids(s) && MayDo(s, e)
    ensures OwnPids(Do(s, e))
  {
    if e.Spawn? { SpawnKeepsOwnPidsIff(s, e.msg, e.pid); }
  }

  predicate NewPid(s: DaemonState, e: Step) { e.Spawn? ==> e.pid !in s.spawned }

  /** A pid never given out before is not reused. */
  lemma NewPidIsFresh(s: DaemonState, e: Step)
    requires OwnPids(s) && CanDo(s, e) && NewPid(s, e)
    ensures MayDo(s, e)
  {
  }

  /** Messages arriving and handlers moving, in any order. */
  datatype Action = DeliverStart(daemon: nat, user: User) | DeliverStop(user: User) | Local(daemon: nat, step: Step)

  /** How a user's latest message fared. */
  datatype Last = Never | StartSent | StartFailed | Started | Stopped

  datatype Cluster = Cluster(daemons: seq<DaemonState>, messages: nat, last: map<User, Last>)

  function LastOf(c: Cluster, u: User): Last { if u in c.last then c.last[u] else Never }

  predicate CanAct(c: Cluster, a: Action) {
    match a
    case DeliverStart(d, _) => d < |c.daemons|
    case DeliverStop(_) => true
    case Local(d, e) => d < |c.daemons| && CanDo(c.daemons[d], e)
  }

  function Receive(s: DaemonState, msg: nat, h: Handler): DaemonState {
    s.(handlers := s.handlers[msg := h])
  }

  function After(s: DaemonState, e: Step, u: User, last: Last): Last
    requires CanDo(s, e)
  {
    match e
    case StartFails(m) => if s.handlers[m].user == u then StartFailed else last
    case Record(m) => if s.handlers[m].user == u then Started else last
    case _ => last
  }

  function StepUser(s: DaemonState, e: Step): Option<User>
    requires CanDo(s, e)
  {
    if e.Exit? then None else Some(s.handlers[e.msg].user)
  }

  function Act(c: Cluster, a: Action): Cluster
    requires CanAct(c, a)
  {
    match a
    case DeliverStart(d, u) =>
      Cluster(c.daemons[d := Receive(c.daemons[d], c.messages, StartReceived(u))],
              c.messages + 1, c.last[u := StartSent])
    case DeliverStop(u) =>
      Cluster(seq(|c.daemons|, d requires 0 <= d < |c.daemons| => Receive(c.daemons[d], c.messages, StopReceived(u))),
              c.messages + 1, c.last[u := Stopped])
    case Local(d, e) =>
      var s := c.daemons[d];
      var u := StepUser(s, e);
      Cluster(c.daemons[d := Do(s, e)], c.messages,
              if u.Some? then c.last[u.value := After(s, e, u.value, LastOf(c, u.value))] else c.last)
  }

  ghost predicate Run(c: Cluster, acts: seq<Action>, t: Cluster)
    decreases |acts|
  {
    if acts == [] then c == t else CanAct(c, acts[0]) && Run(Act(c, acts[0]), acts[1..], t)
  }

  predicate Initial(c: Cluster) {
    (forall d :: 0 <= d < |c.daemons| ==> c.daemons[d] == IDLE) && c.last == map[]
  }

  predicate AllOwn(c: Cluster) { forall d :: 0 <= d < |c.daemons| ==> OwnPids(c.daemons[d]) }

  predicate FreshAct(c: Cluster, a: Action)
    requires CanAct(c, a)
  {
    a.Local? ==> Fresh(c.daemons[a.daemon], a.step)
  }

  predicate MayAct(c: Cluster, a: Action) { CanAct(c, a) && FreshAct(c, a) }

  /** A run in which no process is given a pid that somebody else still holds. */
  ghost predicate FreshRun(c: Cluster, acts: seq<Action>, t: Cluster)
    decreases |acts|
  {
    if acts == [] then c == t
    else MayAct(c, acts[0]) && FreshRun(Act(c, acts[0]), acts[1..], t)
  }

  lemma ActKeepsOwn(c: Cluster, a: Action)
    requires AllOwn(c) && MayAct(c, a)
    ensures AllOwn(Act(c, a)) && |Act(c, a).daemons| == |c.daemons|
  {
    if a.Local? { StepKeepsOwnPids(c.daemons[a.daemon], a.step); }
  }

  lemma {:induction false} RunKeepsOwn(c: Cluster, acts: seq<Action>, t: Cluster)
    requires AllOwn(c) && FreshRun(c, acts, t)
    ensures AllOwn(t)
    decreases |acts|
  {
    if acts != [] {
      ActKeepsOwn(c, acts[0]);
      RunKeepsOwn(Act(c, acts[0]), acts[1..], t);
    }
  }

  /** A kill that hits a process spawned for somebody else than the handler's user. */
  predicate KillsOther(s: DaemonState, msg: nat) {
    && CanDo(s, Kill(msg, true))
    && var pid := s.handlers[msg].pid;
      pid in s.running && pid in s.spawned && s.spawned[pid] != s.handlers[msg].user
  }

  /** In every interleaving in which no spawn reuses a pid somebody else still holds, a recorded pid was spawned
      by that daemon for that user, and no kill hits another user's process. */
  lemma KillsOnlyOwn(c: Cluster, acts: seq<Action>, t: Cluster, d: nat, msg: nat)
    requires Initial(c) && FreshRun(c, acts, t) && d < |t.daemons|
    ensures !KillsOther(t.daemons[d], msg)
    ensures forall u :: u in t.daemons[d].pids ==>
              t.daemons[d].pids[u] in t.daemons[d].spawned && t.daemons[d].spawned[t.daemons[d].pids[u]] == u
  {
    RunKeepsOwn(c, acts, t);
    assert OwnPids(t.daemons[d]);
    if msg in t.daemons[d].handlers && t.daemons[d].handlers[msg].StopRead? {
      assert Carrier(t.daemons[d].handlers[msg]);
    }
  }

  /** A run in which every process is given a pid its daemon has never spawned before. */
  ghost predicate NewPidRun(c: Cluster, acts: seq<Action>, t: Cluster)
    decreases |acts|
  {
    if acts == [] then c == t
    else
      && CanAct(c, acts[0]) && (acts[0].Local? ==> NewPid(c.daemons[acts[0].daemon], acts[0].step))
      && NewPidRun(Act(c, acts[0]), acts[1..], t)
  }

  lemma {:induction false} NewPidRunIsFresh(c: Cluster, acts: seq<Action>, t: Cluster)
    requires AllOwn(c) && NewPidRun(c, acts, t)
    ensures FreshRun(c, acts, t)
    decreases |acts|
  {
    if acts != [] {
      if acts[0].Local? { NewPidIsFresh(c.daemons[acts[0].daemon], acts[0].step); }
      ActKeepsOwn(c, acts[0]);
      NewPidRunIsFresh(Act(c, acts[0]), acts[1..], t);
    }
  }

  /** So no stop ever kills another user's process on a machine that gives out every pid at most once. */
  lemma NewPidsKillOnlyOwn(c: Cluster, acts: seq<Action>, t: Cluster, d: nat, msg: nat)
    requires Initial(c) && NewPidRun(c, acts, t) && d < |t.daemons|
    ensures !KillsOther(t.daemons[d], msg)
  {
    NewPidRunIsFresh(c, acts, t);
    KillsOnlyOwn(c, acts, t, d, msg);
  }

  // ---- The condition is needed ----

  predicate Numbered(c: Cluster) {
    forall d, m :: 0 <= d < |c.daemons| && m in c.daemons[d].handlers ==> m < c.messages
  }

  lemma {:induction false} RunNumbered(c: Cluster, acts: seq<Action>, t: Cluster)
    requires Numbered(c) && Run(c, acts, t)
    ensures Numbered(t)
    decreases |acts|
  {
    if acts != [] {
      RunNumbered(Act(c, acts[0]), acts[1..], t);
    }
  }

  lemma {:induction false} RunTrans(c: Cluster, a: seq<Action>, t: Cluster, b: seq<Action>, u: Cluster)
    requires Run(c, a, t) && Run(t, b, u)
    ensures Run(c, a + b, u)
    decreases |a|
  {
    if a == [] {
      assert a + b == b;
    } else {
      RunTrans(Act(c, a[0]), a[1..], t, b, u);
      assert (a + b)[1..] == a[1..] + b;
    }
  }

  lemma OneAct(c: Cluster, a: Action)
    requires CanAct(c, a)
    ensures Run(c, [a], Act(c, a))
  {
    assert [a][1..] == [] && Run(Act(c, a), [], Act(c, a));
  }

  /** A user whose recorded pid belongs to somebody else's process has only to stop. */
  lemma StopKillsOther(c: Cluster, d: nat, v: User) returns (acts: seq<Action>, t: Cluster, msg: nat)
    requires Numbered(c) && d < |c.daemons| && v in c.daemons[d].pids
    requires var s := c.daemons[d]; s.pids[v] in s.running && s.pids[v] in s.spawned && s.spawned[s.pids[v]] != v
    ensures Run(c, acts, t) && d < |t.daemons| && KillsOther(t.daemons[d], msg)
  {
    msg := c.messages;
    var stop, read := DeliverStop(v), Local(d, Read(msg));
    var mid := Act(c, stop);
    OneAct(c, stop);
    OneAct(mid, read);
    t := Act(mid, read);
    RunTrans(c, [stop], mid, [read], t);
    acts := [stop] + [read];
  }

  /** Whenever a spawn is given a pid that somebody else still holds, the run can go on to kill that process in
      somebody else's name. */
  lemma ReuseKills(c0: Cluster, before: seq<Action>, c: Cluster, d: nat, m: nat, pid: Pid)
    returns (acts: seq<Action>, t: Cluster, msg: nat)
    requires Initial(c0) && Run(c0, before, c)
    requires d < |c.daemons| && CanDo(c.daemons[d], Spawn(m, pid))
    requires !NotReused(c.daemons[d], c.daemons[d].handlers[m].user, pid)
    ensures Run(Act(c, Local(d, Spawn(m, pid))), acts, t) && d < |t.daemons| && KillsOther(t.daemons[d], msg)
  {
    RunNumbered(c0, before, c);
    var s, u := c.daemons[d], c.daemons[d].handlers[m].user;
    var next := Act(c, Local(d, Spawn(m, pid)));
    if v :| v in s.pids && s.pids[v] == pid && v != u {
      acts, t, msg := StopKillsOther(next, d, v);
    } else {
      var k :| k in s.handlers && Carries(s.handlers[k], pid) && s.handlers[k].user != u;
      assert next.daemons[d].handlers[k] == s.handlers[k];
      if s.handlers[k].StopRead? {
        acts, t, msg := [], next, k;
      } else {
        var record := Local(d, Record(k));
        OneAct(next, record);
        var recorded := Act(next, record);
        acts, t, msg := StopKillsOther(recorded, d, s.handlers[k].user);
        RunTrans(next, [record], recorded, acts, t);
        acts := [record] + acts;
      }
    }
  }

  const ONE_DAEMON := Cluster([IDLE], 0, map[])

  /** It happens from a fresh start: a process exits by itself and stays recorded, the system gives its pid to
      another user's process, and the first user's stop kills that one. */
  lemma ReusedPidIsKilled() returns (acts: seq<Action>, t: Cluster, msg: nat)
    ensures Initial(ONE_DAEMON) && Run(ONE_DAEMON, acts, t)
    ensures |t.daemons| == 1 && KillsOther(t.daemons[0], msg)
  {
    var first := [DeliverStart(0, "a"), Local(0, Spawn(0, 5)), Local(0, Record(0)), Local(0, Exit(5)),
                  DeliverStart(0, "b")];
    var stale := StalePid(first);
    var spawn := Local(0, Spawn(1, 5));
    var more;
    more, t, msg := ReuseKills(ONE_DAEMON, first, stale, 0, 1, 5);
    OneAct(stale, spawn);
    RunTrans(ONE_DAEMON, first, stale, [spawn], Act(stale, spawn));
    RunTrans(ONE_DAEMON, first + [spawn], Act(stale, spawn), more, t);
    acts := first + [spawn] + more;
    SameDaemons(ONE_DAEMON, acts, t);
  }

  lemma {:induction false} SameDaemons(c: Cluster, acts: seq<Action>, t: Cluster)
    requires Run(c, acts, t)
    ensures |t.daemons| == |c.daemons|
    decreases |acts|
  {
    if acts != [] {
      SameDaemons(Act(c, acts[0]), acts[1..], t);
    }
  }

  lemma StalePid(acts: seq<Action>) returns (t: Cluster)
    requires acts == [DeliverStart(0, "a"), Local(0, Spawn(0, 5)), Local(0, Record(0)), Local(0, Exit(5)),
                      DeliverStart(0, "b")]
    ensures Run(ONE_DAEMON, acts, t) && |t.daemons| == 1
    ensures CanDo(t.daemons[0], Spawn(1, 5)) && t.daemons[0].handlers[1].user == "b"
    ensures !NotReused(t.daemons[0], "b", 5)
  {
    var c1 := Act(ONE_DAEMON, acts[0]);
    var c2 := Act(c1, acts[1]);
    var c3 := Act(c2, acts[2]);
    var c4 := Act(c3, acts[3]);
    t := Act(c4, acts[4]);
    OneAct(c4, acts[4]);
    OneAct(c3, acts[3]);
    OneAct(c2, acts[2]);
    OneAct(c1, acts[1]);
    OneAct(ONE_DAEMON, acts[0]);
    RunTrans(c3, [acts[3]], c4, [acts[4]], t);
    RunTrans(c2, [acts[2]], c3, [acts[3]] + [acts[4]], t);
    RunTrans(c1, [acts[1]], c2, [acts[2]] + ([acts[3]] + [acts[4]]), t);
    RunTrans(ONE_DAEMON, [acts[0]], c1, [acts[1]] + ([acts[2]] + ([acts[3]] + [acts[4]])), t);
    assert [acts[0]] + ([acts[1]] + ([acts[2]] + ([acts[3]] + [acts[4]]))) == acts;
    assert t.daemons[0].pids["a"] == 5 && "a" != "b";
  }

  // ---- Disciplined runs ----

  /** What one daemon holds for one user. */
  datatype View = View(recorded: Option<Pid>, alive: set<Pid>, mine: map<nat, Handler>)

  function ViewOf(s: DaemonState, u: User): View {
    View(if u in s.pids then Some(s.pids[u]) else None,
         set p | p in s.running && p in s.spawned && s.spawned[p] == u,
         map m | m in s.handlers && s.handlers[m].user == u :: s.handlers[m])
  }

  predicate InFlight(s: DaemonState, u: User) { exists m :: m in s.handlers && s.handlers[m].user == u }

  predicate Busy(c: Cluster, u: User) { exists d :: 0 <= d < |c.daemons| && InFlight(c.daemons[d], u) }

  /** A user's handlers do not overlap, a stop for the user lies between any two starts, and the system can
      kill the processes it is asked to kill. */
  predicate Disciplined(c: Cluster, a: Action)
    requires CanAct(c, a)
  {
    match a
    case DeliverStart(_, u) => !Busy(c, u) && (LastOf(c, u) == Never || LastOf(c, u) == Stopped)
    case DeliverStop(u) => !Busy(c, u)
    case Local(_, FindFails(_)) => false
    case Local(d, Kill(m, works)) => works || c.daemons[d].handlers[m].pid !in c.daemons[d].running
    case _ => true
  }

  ghost predicate DisciplinedRun(c: Cluster, acts: seq<Action>, t: Cluster)
    decreases |acts|
  {
    if acts == [] then c == t
    else MayAct(c, acts[0]) && Disciplined(c, acts[0]) && DisciplinedRun(Act(c, acts[0]), acts[1..], t)
  }

  /** Nothing of the user's is here. */
  predicate Idle(v: View) { v == View(None, {}, map[]) }

  /** A start is being handled here: nothing recorded yet, and at most the new process alive. */
  predicate Starting(v: View) {
    && v.recorded.None? && |v.mine| == 1
    && forall m :: m in v.mine ==>
         match v.mine[m]
         case StartReceived(_) => v.alive == {}
         case StartSpawned(_, pid) => v.alive <= {pid}
         case _ => false
  }

  /** A started process is recorded here, and nothing else of the user's is alive. */
  predicate Active(v: View) {
    v.recorded.Some? && v.alive <= {v.recorded.value} && v.mine == map[]
  }

  /** A stop is being or has been handled here. */
  predicate Winding(v: View) {
    && |v.mine| <= 1 && (v.mine == map[] ==> Idle(v))
    && forall m :: m in v.mine ==>
         match v.mine[m]
         case StopReceived(_) => v.alive <= if v.recorded.Some? then {v.recorded.value} else {}
         case StopRead(_, pid) => v.recorded == Some(pid) && v.alive <= {pid}
         case StopKilled(_, pid) => v.recorded == Some(pid) && v.alive == {}
         case _ => false
  }

  /** What a daemon may hold for a user, given how the user's last message fared; `owner` is the one daemon
      that may hold a process. */
  predicate RoleOk(v: View, last: Last, isOwner: bool) {
    match last
    case Never => Idle(v)
    case StartFailed => Idle(v)
    case StartSent => if isOwner then Starting(v) else Idle(v)
    case Started => if isOwner then Active(v) else Idle(v)
    case Stopped => Winding(v) && (v.recorded.Some? ==> isOwner)
  }

  ghost predicate UserOk(c: Cluster, u: User) {
    exists owner: nat :: OwnerOk(c, u, owner)
  }

  predicate OwnerOk(c: Cluster, u: User, owner: nat) {
    && (LastOf(c, u) == StartSent || LastOf(c, u) == Started ==> owner < |c.daemons|)
    && forall d :: 0 <= d < |c.daemons| ==> RoleOk(ViewOf(c.daemons[d], u), LastOf(c, u), d == owner)
  }

  ghost predicate Inv(c: Cluster) {
    && AllOwn(c)
    && Numbered(c)
    && forall u :: UserOk(c, u)
  }

  /** A handler's step leaves every other user's view alone. */
  lemma OthersUnaffected(s: DaemonState, e: Step, v: User)
    requires OwnPids(s) && MayDo(s, e) && !e.Exit? && s.handlers[e.msg].user != v
    ensures ViewOf(Do(s, e), v) == ViewOf(s, v)
  {
    var t := Do(s, e);
    assert ViewOf(t, v).mine == ViewOf(s, v).mine;
    assert ViewOf(t, v).alive == ViewOf(s, v).alive;
  }

  /** A process exiting by itself only ever shrinks one user's set of live processes. */
  lemma ExitShrinks(s: DaemonState, pid: Pid, v: User, last: Last, isOwner: bool)
    requires MayDo(s, Exit(pid)) && RoleOk(ViewOf(s, v), last, isOwner)
    ensures RoleOk(ViewOf(Do(s, Exit(pid)), v), last, isOwner)
  {
    var before, after := ViewOf(s, v), ViewOf(Do(s, Exit(pid)), v);
    assert after.mine == before.mine && after.recorded == before.recorded && after.alive <= before.alive;
    if before.alive == {} { assert after.alive == {}; }
  }

  /** What the view of a handler's user becomes when the handler, its only one here, takes a step. */
  function NextView(s: DaemonState, e: Step, v: View): View
    requires MayDo(s, e) && !e.Exit?
  {
    var m := e.msg;
    var h := s.handlers[m];
    match e
    case Spawn(_, pid) => v.(alive := v.alive + {pid}, mine := map[m := StartSpawned(h.user, pid)])
    case Record(_) => View(Some(h.pid), v.alive, map[])
    case Read(_) =>
      if v.recorded.Some? then v.(mine := map[m := StopRead(h.user, v.recorded.value)]) else v.(mine := map[])
    case Kill(_, works) =>
      View(v.recorded, if works then v.alive - {h.pid} else v.alive, map[m := StopKilled(h.user, h.pid)])
    case Forget(_) => View(None, v.alive, map[])
    case _ => v.(mine := map[])
  }

  lemma NextMine(s: DaemonState, e: Step)
    requires MayDo(s, e) && !e.Exit?
    requires forall m :: m in s.handlers && s.handlers[m].user == s.handlers[e.msg].user ==> m == e.msg
    ensures var v := ViewOf(s, s.handlers[e.msg].user);
      ViewOf(Do(s, e), s.handlers[e.msg].user).mine == NextView(s, e, v).mine
  {
  }

  lemma NextAlive(s: DaemonState, e: Step)
    requires OwnPids(s) && MayDo(s, e) && !e.Exit?
    ensures var v := ViewOf(s, s.handlers[e.msg].user);
      ViewOf(Do(s, e), s.handlers[e.msg].user).alive == NextView(s, e, v).alive
  {
  }

  lemma NextViewIs(s: DaemonState, e: Step)
    requires OwnPids(s) && MayDo(s, e) && !e.Exit?
    requires |ViewOf(s, s.handlers[e.msg].user).mine| <= 1
    ensures var v := ViewOf(s, s.handlers[e.msg].user);
      && v.mine == map[e.msg := s.handlers[e.msg]]
      && ViewOf(Do(s, e), s.handlers[e.msg].user) == NextView(s, e, v)
  {
    var u := s.handlers[e.msg].user;
    var mine := ViewOf(s, u).mine;
    OnlyKey(mine, e.msg);
    forall m | m in s.handlers && s.handlers[m].user == u ensures m == e.msg {
      assert m in mine;
    }
    NextMine(s, e);
    NextAlive(s, e);
  }

  /** The role a daemon's view moves to when its only handler for the user takes a step. */
  lemma RoleStep(s: DaemonState, e: Step, v: View, last: Last, isOwner: bool)
    requires MayDo(s, e) && !e.Exit? && !e.FindFails? && v.mine == map[e.msg := s.handlers[e.msg]]
    requires e.Kill? ==> e.works || s.handlers[e.msg].pid !in v.alive
    requires RoleOk(v, last, isOwner)
    ensures RoleOk(NextView(s, e, v), After(s, e, s.handlers[e.msg].user, last), isOwner)
    ensures e.Record? || e.StartFails? ==> isOwner && last == StartSent
  {
    assert e.msg in v.mine;
    var w := NextView(s, e, v);
    assert forall m :: m in w.mine ==> m == e.msg;
  }

  /** The user's only handler on this daemon takes a step: the daemon moves to the role the step leads to. */
  lemma OwnStep(s: DaemonState, e: Step, last: Last, isOwner: bool)
    requires OwnPids(s) && MayDo(s, e) && !e.Exit? && !e.FindFails?
    requires e.Kill? ==> e.works || s.handlers[e.msg].pid !in s.running
    requires RoleOk(ViewOf(s, s.handlers[e.msg].user), last, isOwner)
    ensures var u := s.handlers[e.msg].user;
      RoleOk(ViewOf(Do(s, e), u), After(s, e, u, last), isOwner)
    ensures e.Record? || e.StartFails? ==> isOwner && last == StartSent
  {
    var v := ViewOf(s, s.handlers[e.msg].user);
    OneHandler(s, e, last, isOwner);
    NextViewIs(s, e);
    RoleStep(s, e, v, last, isOwner);
  }

  lemma OneHandler(s: DaemonState, e: Step, last: Last, isOwner: bool)
    requires MayDo(s, e) && !e.Exit?
    requires RoleOk(ViewOf(s, s.handlers[e.msg].user), last, isOwner)
    ensures |ViewOf(s, s.handlers[e.msg].user).mine| <= 1
  {
  }

  lemma OnlyKey(m: map<nat, Handler>, k: nat)
    requires k in m && |m| <= 1
    ensures m == map[k := m[k]]
  {
    assert m.Keys == {k} + (m.Keys - {k});
    assert |m.Keys| == 1 + |m.Keys - {k}|;
    assert m.Keys - {k} == {};
  }

  lemma NotInFlight(s: DaemonState, u: User)
    requires !InFlight(s, u)
    ensures ViewOf(s, u).mine == map[]
  {
  }

  lemma ReceiveView(s: DaemonState, msg: nat, h: Handler, v: User)
    requires msg !in s.handlers
    ensures v != h.user ==> ViewOf(Receive(s, msg, h), v) == ViewOf(s, v)
    ensures v == h.user && ViewOf(s, v).mine == map[] ==>
              ViewOf(Receive(s, msg, h), v) == ViewOf(s, v).(mine := map[msg := h])
  {
    var t := Receive(s, msg, h);
    if v != h.user {
      assert ViewOf(t, v).mine == ViewOf(s, v).mine;
    } else if ViewOf(s, v).mine == map[] {
      assert forall m :: m in s.handlers && s.handlers[m].user == v ==> m in ViewOf(s, v).mine;
      assert ViewOf(t, v).mine == map[msg := h];
    }
  }

  lemma StartKeepsUser(c: Cluster, d: nat, u: User, v: User)
    requires Inv(c) && MayAct(c, DeliverStart(d, u)) && Disciplined(c, DeliverStart(d, u))
    ensures UserOk(Act(c, DeliverStart(d, u)), v)
  {
    var t := Act(c, DeliverStart(d, u));
    assert UserOk(c, v);
    var owner: nat :| OwnerOk(c, v, owner);
    forall k | 0 <= k < |c.daemons| ensures
      RoleOk(ViewOf(t.daemons[k], v), LastOf(t, v), k == if u == v then d else owner)
    {
      assert RoleOk(ViewOf(c.daemons[k], v), LastOf(c, v), k == owner);
      ReceiveView(c.daemons[d], c.messages, StartReceived(u), v);
      if u == v {
        assert !InFlight(c.daemons[k], v);
        NotInFlight(c.daemons[k], v);
      }
    }
    assert OwnerOk(t, v, if u == v then d else owner);
  }

  lemma StopKeepsUser(c: Cluster, u: User, v: User)
    requires Inv(c) && Disciplined(c, DeliverStop(u))
    ensures UserOk(Act(c, DeliverStop(u)), v)
  {
    var t := Act(c, DeliverStop(u));
    assert UserOk(c, v);
    var owner: nat :| OwnerOk(c, v, owner);
    forall k | 0 <= k < |c.daemons| ensures RoleOk(ViewOf(t.daemons[k], v), LastOf(t, v), k == owner) {
      assert RoleOk(ViewOf(c.daemons[k], v), LastOf(c, v), k == owner);
      ReceiveView(c.daemons[k], c.messages, StopReceived(u), v);
      if u == v {
        assert !InFlight(c.daemons[k], v);
        NotInFlight(c.daemons[k], v);
      }
    }
    assert OwnerOk(t, v, owner);
  }

  lemma LocalKeepsUser(c: Cluster, d: nat, e: Step, v: User)
    requires Inv(c) && MayAct(c, Local(d, e)) && Disciplined(c, Local(d, e))
    ensures UserOk(Act(c, Local(d, e)), v)
  {
    var t := Act(c, Local(d, e));
    assert UserOk(c, v);
    var owner: nat :| OwnerOk(c, v, owner);
    assert RoleOk(ViewOf(c.daemons[d], v), LastOf(c, v), d == owner);
    LastAfter(c, d, e, v);
    if e.Exit? {
      ExitShrinks(c.daemons[d], e.pid, v, LastOf(c, v), d == owner);
    } else if c.daemons[d].handlers[e.msg].user == v {
      OwnStep(c.daemons[d], e, LastOf(c, v), d == owner);
    } else {
      OthersUnaffected(c.daemons[d], e, v);
    }
    assert RoleOk(ViewOf(t.daemons[d], v), LastOf(t, v), d == owner);
    forall k | 0 <= k < |c.daemons| && k != d ensures RoleOk(ViewOf(t.daemons[k], v), LastOf(t, v), k == owner) {
      assert t.daemons[k] == c.daemons[k] && RoleOk(ViewOf(c.daemons[k], v), LastOf(c, v), k == owner);
    }
    assert OwnerOk(t, v, owner);
  }

  lemma LastAfter(c: Cluster, d: nat, e: Step, v: User)
    requires CanAct(c, Local(d, e))
    ensures var t := Act(c, Local(d, e));
      && t.daemons == c.daemons[d := Do(c.daemons[d], e)]
      && LastOf(t, v) == if StepUser(c.daemons[d], e) == Some(v) then After(c.daemons[d], e, v, LastOf(c, v))
                         else LastOf(c, v)
  {
  }

  lemma ActKeepsInv(c: Cluster, a: Action)
    requires Inv(c) && MayAct(c, a) && Disciplined(c, a)
    ensures Inv(Act(c, a))
  {
    ActKeepsOwn(c, a);
    forall v ensures UserOk(Act(c, a), v) {
      match a {
        case DeliverStart(d, u) => StartKeepsUser(c, d, u, v);
        case DeliverStop(u) => StopKeepsUser(c, u, v);
        case Local(d, e) => LocalKeepsUser(c, d, e, v);
      }
    }
  }

  lemma InitialInv(c: Cluster)
    requires Initial(c)
    ensures Inv(c)
  {
    forall u ensures UserOk(c, u) {
      forall d | 0 <= d < |c.daemons| ensures Idle(ViewOf(c.daemons[d], u)) {
        assert ViewOf(IDLE, u) == View(None, {}, map[]);
      }
      assert OwnerOk(c, u, 0);
    }
  }

  lemma {:induction false} RunKeepsInv(c: Cluster, acts: seq<Action>, t: Cluster)
    requires Inv(c) && DisciplinedRun(c, acts, t)
    ensures Inv(t)
    decreases |acts|
  {
    if acts != [] {
      ActKeepsInv(c, acts[0]);
      RunKeepsInv(Act(c, acts[0]), acts[1..], t);
    }
  }

  /** In every disciplined run, whatever other users' handlers do: at most one daemon records a user; with no
      handler of the user in flight the user is recorded somewhere iff the last message was a start that
      succeeded; and every process of theirs still running is the recorded one. */
  lemma OneTranscoderPerUser(c: Cluster, acts: seq<Action>, t: Cluster, u: User)
    requires Initial(c) && DisciplinedRun(c, acts, t)
    ensures forall d, k :: 0 <= d < k < |t.daemons| ==> !(u in t.daemons[d].pids && u in t.daemons[k].pids)
    ensures !Busy(t, u) ==>
              ((exists d :: 0 <= d < |t.daemons| && u in t.daemons[d].pids) <==> LastOf(t, u) == Started)
    ensures !Busy(t, u) ==> LastOf(t, u) != StartSent
    ensures !Busy(t, u) ==>
              forall d, p :: 0 <= d < |t.daemons| && p in ViewOf(t.daemons[d], u).alive ==>
                u in t.daemons[d].pids && t.daemons[d].pids[u] == p
  {
    InitialInv(c);
    RunKeepsInv(c, acts, t);
    assert UserOk(t, u);
    var owner: nat :| OwnerOk(t, u, owner);
    forall d | 0 <= d < |t.daemons| ensures u in t.daemons[d].pids ==> d == owner {
      assert RoleOk(ViewOf(t.daemons[d], u), LastOf(t, u), d == owner);
    }
    if !Busy(t, u) {
      forall d | 0 <= d < |t.daemons| ensures RoleOk(ViewOf(t.daemons[d], u), LastOf(t, u), d == owner)
        ensures ViewOf(t.daemons[d], u).mine == map[]
      {
        assert !InFlight(t.daemons[d], u);
        NotInFlight(t.daemons[d], u);
      }
      if LastOf(t, u) == Started {
        assert Active(ViewOf(t.daemons[owner], u));
        assert u in t.daemons[owner].pids;
      }
      forall d, p | 0 <= d < |t.daemons| && p in ViewOf(t.daemons[d], u).alive
        ensures u in t.daemons[d].pids && t.daemons[d].pids[u] == p
      {
      }
    }
  }

  // ---- Duplicate stops ----

  /** Nothing recorded, nothing alive, and no handler past its first step. */
  predicate Gone(s: DaemonState, u: User) {
    var v := ViewOf(s, u);
    v.recorded.None? && v.alive == {} && forall m :: m in v.mine ==> v.mine[m] == StopReceived(u)
  }

  predicate GoneEverywhere(c: Cluster, u: User) { forall d :: 0 <= d < |c.daemons| ==> Gone(c.daemons[d], u) }

  predicate HandledBy(s: DaemonState, e: Step, u: User) {
    MayDo(s, e) && !e.Exit? && s.handlers[e.msg].user == u
  }

  lemma GoneStep(s: DaemonState, e: Step, u: User)
    requires OwnPids(s) && MayDo(s, e) && Gone(s, u)
    ensures Gone(Do(s, e), u)
    ensures !e.Exit? && s.handlers[e.msg].user == u ==>
              Do(s, e).pids == s.pids && Do(s, e).running == s.running && Do(s, e).spawned == s.spawned
  {
    var v, w := ViewOf(s, u), ViewOf(Do(s, e), u);
    if e.Exit? {
      assert w.mine == v.mine && w.alive <= v.alive;
    } else if s.handlers[e.msg].user == u {
      assert e.msg in v.mine && v.mine[e.msg] == s.handlers[e.msg];
      assert w.alive == v.alive;
      assert forall m :: m in w.mine ==> m in v.mine && w.mine[m] == v.mine[m];
    } else {
      OthersUnaffected(s, e, u);
    }
  }

  /** Once a user is gone, any number of further stops, overlapping or not, never bring them back, and their
      handlers touch neither pid maps nor processes. */
  lemma {:induction false} DuplicateStopsChangeNothing(c: Cluster, acts: seq<Action>, t: Cluster, u: User)
    requires AllOwn(c) && GoneEverywhere(c, u) && FreshRun(c, acts, t)
    requires forall d :: DeliverStart(d, u) !in acts
    ensures GoneEverywhere(t, u) && AllOwn(t)
    ensures forall d, e :: 0 <= d < |t.daemons| && HandledBy(t.daemons[d], e, u) ==>
              Do(t.daemons[d], e).pids == t.daemons[d].pids && Do(t.daemons[d], e).running == t.daemons[d].running
    decreases |acts|
  {
    if acts != [] {
      ActKeepsOwn(c, acts[0]);
      GoneAct(c, acts[0], u);
      DuplicateStopsChangeNothing(Act(c, acts[0]), acts[1..], t, u);
    } else {
      forall d, e | 0 <= d < |t.daemons| && HandledBy(t.daemons[d], e, u)
        ensures Do(t.daemons[d], e).pids == t.daemons[d].pids && Do(t.daemons[d], e).running == t.daemons[d].running
      {
        GoneStep(t.daemons[d], e, u);
      }
    }
  }

  lemma GoneReceive(s: DaemonState, msg: nat, h: Handler, u: User)
    requires Gone(s, u) && (h.user == u ==> h == StopReceived(u))
    ensures Gone(Receive(s, msg, h), u)
  {
    var v, w := ViewOf(s, u), ViewOf(Receive(s, msg, h), u);
    assert w.alive == v.alive;
    assert forall m :: m in w.mine ==> w.mine[m] == h || (m in v.mine && w.mine[m] == v.mine[m]);
  }

  lemma GoneAct(c: Cluster, a: Action, u: User)
    requires AllOwn(c) && GoneEverywhere(c, u) && MayAct(c, a) && !(a.DeliverStart? && a.user == u)
    ensures GoneEverywhere(Act(c, a), u)
  {
    var t := Act(c, a);
    forall d | 0 <= d < |t.daemons| ensures Gone(t.daemons[d], u) {
      assert Gone(c.daemons[d], u);
      match a {
        case DeliverStart(k, w) => GoneReceive(c.daemons[d], c.messages, StartReceived(w), u);
        case DeliverStop(w) => GoneReceive(c.daemons[d], c.messages, StopReceived(w), u);
        case Local(k, e) => if k == d { GoneStep(c.daemons[d], e, u); }
      }
    }
  }

  // ---- A daemon as an object ----

  class Daemon {
    var tanscoderPids: map<User, Pid>
    var running: set<Pid>              // the machine's live transcoder processes
    ghost var spawned: map<Pid, User>
    ghost var handlers: map<nat, Handler>

    ghost function Abs(): DaemonState reads this { DaemonState(tanscoderPids, running, spawned, handlers) }

    constructor ()
      ensures Abs() == IDLE
    {
      tanscoderPids, running, spawned, handlers := map[], {}, map[], map[];
    }

    /** The process start; `pid` is what the system returns. */
    method StartProcess(ghost msg: nat, user: User, pid: Pid)
      requires CanDo(Abs(), Spawn(msg, pid)) && handlers[msg].user == user
      modifies this`running, this`spawned, this`handlers
      ensures Abs() == Do(old(Abs()), Spawn(msg, pid))
    {
      running := running + {pid};
      spawned := spawned[pid := user];
      handlers := handlers[msg := StartSpawned(user, pid)];
    }

    /** The locked write of the pid map. */
    method RecordPid(ghost msg: nat, user: User, pid: Pid)
      requires CanDo(Abs(), Record(msg)) && handlers[msg] == StartSpawned(user, pid)
      modifies this`tanscoderPids, this`handlers
      ensures Abs() == Do(old(Abs()), Record(msg))
    {
      tanscoderPids := tanscoderPids[user := pid];
      handlers := handlers - {msg};
    }

    /** The locked read of the pid map. */
    method LookUpPid(ghost msg: nat, user: User) returns (pid: Pid, ok: bool)
      requires CanDo(Abs(), Read(msg)) && handlers[msg].user == user
      modifies this`handlers
      ensures Abs() == Do(old(Abs()), Read(msg))
      ensures ok <==> user in old(tanscoderPids)
      ensures ok ==> pid == old(tanscoderPids)[user]
    {
      if user in tanscoderPids {
        handlers := handlers[msg := StopRead(user, tanscoderPids[user])];
        return tanscoderPids[user], true;
      }
      handlers := handlers - {msg};
      return 0, false;
    }

    method KillProcess(ghost msg: nat, pid: Pid, works: bool)
      requires CanDo(Abs(), Kill(msg, works)) && handlers[msg].pid == pid
      modifies this`running, this`handlers
      ensures Abs() == Do(old(Abs()), Kill(msg, works))
    {
      if works {
        running := running - {pid};
      }
      handlers := handlers[msg := StopKilled(handlers[msg].user, pid)];
    }

    /** The locked delete from the pid map. */
    method ForgetPid(ghost msg: nat, user: User)
      requires CanDo(Abs(), Forget(msg)) && handlers[msg].user == user
      modifies this`tanscoderPids, this`handlers
      ensures Abs() == Do(old(Abs()), Forget(msg))
    {
      tanscoderPids := tanscoderPids - {user};
      handlers := handlers - {msg};
    }

    /** A start that could not be prepared, and a stop whose process could not be looked up, end there. */
    ghost method GiveUp(msg: nat)
      requires msg in handlers && (handlers[msg].StartReceived? || handlers[msg].StopRead?)
      modifies this`handlers
      ensures Abs() == Do(old(Abs()), if old(handlers)[msg].StartReceived? then StartFails(msg) else FindFails(msg))
    {
      handlers := handlers - {msg};
    }

    /** A start handled without interference up to the wait. `prepared` says whether the directories, the
        description file and the process start went well. */
    method StartTranscoder(ghost msg: nat, user: User, prepared: bool, pid: Pid) returns (ok: bool)
      requires msg in handlers && handlers[msg] == StartReceived(user) && CanDo(Abs(), Spawn(msg, pid))
      modifies this
      ensures ok == prepared && handlers == old(handlers) - {msg}
      ensures tanscoderPids == if prepared then old(tanscoderPids)[user := pid] else old(tanscoderPids)
      ensures running == if prepared then old(running) + {pid} else old(running)
    {
      if !prepared {
        GiveUp(msg);
        return false;
      }
      StartProcess(msg, user, pid);
      RecordPid(msg, user, pid);
      return true;
    }

    /** A stop handled without interference. A kill that fails is only logged: the pid is forgotten anyway, and
        so it is when the user's directory cannot be removed, which is reported. */
    method StopTranscoder(ghost msg: nat, user: User, found: bool, works: bool, removed: bool) returns (ok: bool)
      requires msg in handlers && handlers[msg] == StopReceived(user)
      modifies this
      ensures handlers == old(handlers) - {msg}
      ensures ok == (user in old(tanscoderPids) ==> found && removed)
      ensures user !in old(tanscoderPids) || !found ==> tanscoderPids == old(tanscoderPids) && running == old(running)
      ensures user in old(tanscoderPids) && found ==>
                && tanscoderPids == old(tanscoderPids) - {user}
                && running == if works then old(running) - {old(tanscoderPids)[user]} else old(running)
    {
      var pid, recorded := LookUpPid(msg, user);
      if !recorded {
        return true;
      }
      if !found {
        GiveUp(msg);
        return false;
      }
      KillProcess(msg, pid, works);
      ForgetPid(msg, user);
      return removed;
    }
  }
}
