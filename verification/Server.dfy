// The running server: the router's callbacks are the sessions manager's handlers
// (internal/service/sessions_manager.go:61-68), and every execution is a run of the Lifecycle module.
module Servers {
  import opened Common
  import opened Codecs
  import opened Ports
  import opened Lifecycle
  import opened LifecycleTheorems
  import opened Sessions
  import opened TranscoderSdp
  import PP = PortProtocol
  import Rows = SessionRows
  import IceBuffer
  import Participants
  import Rpcs
  import Routers
  import R = RpcReading

  /** The outcomes of the outside calls a handler can make. */
  datatype Outcomes = Outcomes(
    start: StartIO, stopSent: bool, dialled: set<string>, rowWritten: bool,
    taken: IceBuffer.Taken, failAt: nat, answered: bool)

  const PUBLISHER := "publisher"

  function TargetOf(target: string): Participants.Target {
    if target == PUBLISHER then Participants.Publisher else Participants.Receiver
  }

  function AsEvents(e: Option<Event>): seq<Event> { match e case Some(event) => [event] case None => [] }

  function Events(es: seq<Option<Event>>): seq<Event> {
    if es == [] then [] else Events(es[..|es| - 1]) + AsEvents(es[|es| - 1])
  }

  /** What a callback waits for: a close needs the lock of the participant in the user's room. */
  predicate Ready(s: Sfu, c: Routers.Call) { c.CloseCall? ==> HostFree(s, c.user) }

  /** The event of a join, given the outcomes it met. */
  predicate JoinEvent(u: User, io: StartIO, e: Event) {
    match e
    case SaveFails(v) => v == u && !io.saveOk
    case Starts(v, _, _, announced, stopSent) =>
      v == u && io.saveOk && announced == io.announced && stopSent == io.stopSent
    case BuildFails(v, _) => v == u && io.saveOk
    case _ => false
  }

  /** The event a callback causes with these outcomes, if it causes one. */
  predicate Causes(c: Routers.Call, io: Outcomes, e: Option<Event>) {
    match c
    case JoinCall(u) => e.Some? && JoinEvent(u, io.start, e.value)
    case CloseCall(u) => e.Some? && (e.value.TrackCloseFails? || e.value == Closes(u, io.stopSent, io.rowWritten))
    case PublishCall(u) => e == Some(Publishes(u, io.rowWritten))
    case StopCall(u) => e == Some(Stops(u, io.rowWritten))
    case IceCall(u, _, target) => e == if target == PUBLISHER then None else Some(ReceiverCandidate(u))
    case _ => e == None
  }

  predicate CausesIf(c: Option<Routers.Call>, io: Outcomes, e: Option<Event>) {
    match c case Some(call) => Causes(call, io, e) case None => e == None
  }

  /** From the text of a message to the event it is: what each method does to the session of its sender. */
  lemma MessageEvents(lib: Rpcs.Library, user: User, fields: map<string, Rpcs.Json>, io: Outcomes, e: Option<Event>)
    requires Rpcs.FromReader(lib, Rpcs.Document(Rpcs.Object(fields))).Ok?
    requires CausesIf(Routers.CallFor(lib, Routers.Envelope(user, Rpcs.Document(Rpcs.Object(fields)))), io, e)
    ensures var m, target := R.TextAt(fields, "method"), R.TextAt(R.ParamsAt(fields), "target");
      && (m == "join" ==>
            e.Some? && (e.value.SaveFails? || e.value.Starts? || e.value.BuildFails?) && e.value.user == user)
      && (m == "close_session" ==>
            e.Some? && (e.value.TrackCloseFails? || e.value == Closes(user, io.stopSent, io.rowWritten)))
      && (m == "publish" ==> e == Some(Publishes(user, io.rowWritten)))
      && (m == "publishStop" ==> e == Some(Stops(user, io.rowWritten)))
      && (m == "iceCandidate" ==> e == if target == "publisher" then None else Some(ReceiverCandidate(user)))
      && (m in {"offer", "answer", "subscribe", "subscribeCancel"} ==> e == None)
  {
    R.MethodCalls(lib, user, fields);
  }

  /** The message asks for a callback that has to wait. */
  predicate Blocks(c: Option<Routers.Call>, s: Sfu) { c.Some? && !Ready(s, c.value) }

  /** Every event is caused by what its message asked for. */
  predicate AllCaused(asked: seq<Option<Routers.Call>>, ios: seq<Outcomes>, es: seq<Option<Event>>) {
    |es| <= |asked| == |ios| && forall i :: 0 <= i < |es| ==> CausesIf(asked[i], ios[i], es[i])
  }

  lemma OneMoreCaused(asked: seq<Option<Routers.Call>>, ios: seq<Outcomes>, es: seq<Option<Event>>, e: Option<Event>)
    requires AllCaused(asked, ios, es) && |es| < |asked| && CausesIf(asked[|es|], ios[|es|], e)
    ensures AllCaused(asked, ios, es + [e])
  {
  }

  lemma EventsSnoc(es: seq<Option<Event>>, e: Option<Event>)
    ensures Events(es + [e]) == Events(es) + AsEvents(e)
  {
    assert (es + [e])[..|es|] == es;
  }

  lemma {:induction false} RunSnoc(c: CodecList, s: Sfu, es: seq<Event>, t: Sfu, e: Event)
    requires Run(c, s, es, t) && Enabled(c, t, e)
    ensures Run(c, s, es + [e], Apply(c, t, e))
    decreases |es|
  {
    if es == [] {
      assert [] + [e] == [e] && [e][1..] == [];
      assert Run(c, Apply(c, t, e), [], Apply(c, t, e));
    } else {
      RunSnoc(c, Apply(c, s, es[0]), es[1..], t, e);
      assert (es + [e])[1..] == es[1..] + [e];
    }
  }

  /** A run from an initial state. This is spelled as a quantifier so that a proof takes it apart only where it says
      `Open`. */
  ghost predicate Lived(c: CodecList, range: set<GoInt>, start: Sfu, history: seq<Event>, s: Sfu) {
    forall k: nat {:trigger SessionsManager.Open(k)} :: SessionsManager.Open(k) ==>
      Initial(range, start) && Run(c, start, history, s)
  }

  lemma LivedOn(c: CodecList, range: set<GoInt>, start: Sfu, history: seq<Event>, s: Sfu, e: Event)
    requires Lived(c, range, start, history, s) && Enabled(c, s, e)
    ensures Lived(c, range, start, history + [e], Apply(c, s, e))
  {
    assert SessionsManager.Open(0);
    RunSnoc(c, start, history, s, e);
  }

  class Server {
    const manager: SessionsManager
    ghost var repr: set<object>
    ghost var start: Sfu
    ghost var history: seq<Event>

    /** The manager is sound, and what it has lived through is a run from an initial state. */
    ghost predicate Valid()
      reads this, repr
    {
      Owns() && manager.Valid() && Recorded(manager.world)
    }

    ghost predicate Owns()
      reads this, repr
    {
      && {this, manager, manager.codecs, manager.portsAllocator, manager.nc, manager.repository} <= repr
      && OwnsAll(manager.sessions.Values, manager.built)
    }

    ghost predicate OwnsAll(rooms: set<Room>, participants: seq<Participants.Participant>)
      reads this
    {
      (forall room :: room in rooms ==> room in repr) &&
      (forall p :: p in participants ==> p in repr && p.publisher in repr)
    }

    ghost predicate Recorded(s: Sfu)
      reads this
    {
      Lived(manager.List(), Range(manager.rangeStart, manager.rangeEnd), start, history, s)
    }

    constructor (config: Config, rangeStart: GoInt, rangeEnd: GoInt, repository: Rows.SessionsRepository)
      requires Rows.RowsOk(repository.table)
      ensures Valid() && history == [] && !manager.world.crashed && fresh(repr - {repository})
    {
      manager := new SessionsManager(config, rangeStart, rangeEnd, repository);
      new;
      assert SessionsManager.Open(0);
      repr := {this, manager, manager.codecs, manager.portsAllocator, manager.nc, manager.repository};
      start, history := manager.world, [];
    }

    /** One more event. */
    ghost method Record(e: Event, before: Sfu)
      requires Owns() && manager.Valid() && Recorded(before) && Enabled(manager.List(), before, e)
      requires manager.world == Apply(manager.List(), before, e)
      modifies this`history
      ensures Valid() && history == old(history) + [e]
    {
      LivedOn(manager.List(), Range(manager.rangeStart, manager.rangeEnd), start, history, before, e);
      history := history + [e];
    }

    /** The objects a join made. */
    ghost method Adopt(
        rooms: set<Room>, participants: seq<Participants.Participant>, newcomer: Participants.Participant?)
      requires OwnsAll(rooms, participants)
      requires {this, manager, manager.codecs, manager.portsAllocator, manager.nc, manager.repository} <= repr
      requires manager.built == participants + if newcomer == null then [] else [newcomer]
      modifies this`repr
      ensures Owns()
      ensures repr == old(repr) + (manager.sessions.Values - rooms) +
                      if newcomer == null then {} else {newcomer, newcomer.publisher}
    {
      repr := repr + (manager.sessions.Values - rooms);
      if newcomer != null {
        repr := repr + {newcomer, newcomer.publisher};
      }
    }

    /** A join that has happened. */
    ghost method Admit(
        rooms: set<Room>, participants: seq<Participants.Participant>, newcomer: Participants.Participant?, e: Event,
        before: Sfu)
      requires OwnsAll(rooms, participants)
      requires {this, manager, manager.codecs, manager.portsAllocator, manager.nc, manager.repository} <= repr
      requires manager.built == participants + if newcomer == null then [] else [newcomer]
      requires manager.Valid() && Recorded(before) && Enabled(manager.List(), before, e)
      requires manager.world == Apply(manager.List(), before, e)
      modifies this`repr, this`history
      ensures Valid() && history == old(history) + [e]
      ensures repr == old(repr) + (manager.sessions.Values - rooms) +
                      if newcomer == null then {} else {newcomer, newcomer.publisher}
    {
      Adopt(rooms, participants, newcomer);
      Record(e, before);
    }

    lemma HostOwned(user: User)
      requires Owns() && manager.Valid()
      ensures manager.Host(user) <= repr
      ensures manager.Transport(user) != null ==> manager.Transport(user) in repr
    {
      if user in manager.sessions && user in manager.sessions[user].participants {
        assert SessionsManager.Open(0);
        assert manager.RoomAt(user);
        var p := manager.built[manager.world.rooms[user][user]];
        assert p in manager.built && manager.sessions[user].participants[user] == p;
      }
    }

    method Join(user: User, io: Outcomes) returns (r: Outcome, ghost e: Option<Event>)
      requires Valid() && !manager.world.crashed
      modifies repr
      ensures Valid() && fresh(repr - old(repr))
      ensures Causes(Routers.JoinCall(user), io, e) && history == old(history) + AsEvents(e)
      ensures r == Crash <==> manager.world.crashed
    {
      ghost var before, rooms, built := manager.world, manager.sessions.Values, manager.built;
      ghost var joined, newcomer;
      r, joined, newcomer := manager.StartSession(user, io.start);
      Admit(rooms, built, newcomer, joined, before);
      e := Some(joined);
    }

    method Close(user: User, io: Outcomes) returns (r: Outcome, ghost e: Option<Event>)
      requires Valid() && !manager.world.crashed && HostFree(manager.world, user)
      modifies repr
      ensures Valid() && repr == old(repr)
      ensures Causes(Routers.CloseCall(user), io, e) && history == old(history) + AsEvents(e)
      ensures r == Crash <==> manager.world.crashed
    {
      ghost var before := manager.world;
      HostOwned(user);
      ghost var closed;
      r, closed := manager.CloseSession(user, io.stopSent, io.dialled, io.rowWritten);
      Record(closed, before);
      e := Some(closed);
    }

    method Publish(user: User, io: Outcomes) returns (r: Outcome, ghost e: Option<Event>)
      requires Valid() && !manager.world.crashed
      modifies repr
      ensures Valid() && repr == old(repr)
      ensures Causes(Routers.PublishCall(user), io, e) && history == old(history) + AsEvents(e)
      ensures r == Crash <==> manager.world.crashed
    {
      ghost var before := manager.world;
      r := manager.PublishStream(user, io.rowWritten);
      Record(Publishes(user, io.rowWritten), before);
      e := Some(Publishes(user, io.rowWritten));
    }

    method Stop(user: User, io: Outcomes) returns (r: Outcome, ghost e: Option<Event>)
      requires Valid() && !manager.world.crashed
      modifies repr
      ensures Valid() && repr == old(repr)
      ensures Causes(Routers.StopCall(user), io, e) && history == old(history) + AsEvents(e)
      ensures r == Crash <==> manager.world.crashed
    {
      ghost var before := manager.world;
      r := manager.StopStream(user, io.rowWritten);
      Record(Stops(user, io.rowWritten), before);
      e := Some(Stops(user, io.rowWritten));
    }

    method Offer(user: User, target: string, io: Outcomes) returns (r: Outcome)
      requires Valid() && !manager.world.crashed
      modifies repr
      ensures Valid() && repr == old(repr) && history == old(history)
      ensures r != Crash && !manager.world.crashed
      ensures manager.Transport(user) == old(manager.Transport(user))
      ensures target == PUBLISHER && manager.Transport(user) != null ==>
        manager.Transport(user).Abs() ==
        IceBuffer.Perform(old(manager.Transport(user).Abs()), IceBuffer.SetDescription(io.taken, io.failAt))
    {
      HostOwned(user);
      r := manager.HandleOffer(user, TargetOf(target), io.taken, io.failAt, io.answered);
    }

    method Candidate(user: User, candidate: string, target: string) returns (r: Outcome, ghost e: Option<Event>)
      requires Valid() && !manager.world.crashed
      modifies repr
      ensures Valid() && repr == old(repr) && history == old(history) + AsEvents(e)
      ensures e == if target == PUBLISHER then None else Some(ReceiverCandidate(user))
      ensures r == Crash <==> manager.world.crashed
      ensures manager.Transport(user) == old(manager.Transport(user))
      ensures target == PUBLISHER && manager.Transport(user) != null ==>
        manager.Transport(user).Abs() ==
        IceBuffer.Perform(old(manager.Transport(user).Abs()), IceBuffer.AddCandidate(candidate))
    {
      ghost var before := manager.world;
      HostOwned(user);
      r := manager.AddICECandidate(user, TargetOf(target), candidate);
      e := None;
      if target != PUBLISHER {
        e := Some(ReceiverCandidate(user));
        Record(ReceiverCandidate(user), before);
      }
    }

    /** One callback of the router. Subscriptions are stubs. */
    method Handle(c: Routers.Call, io: Outcomes) returns (r: Outcome, ghost e: Option<Event>)
      requires Valid() && !manager.world.crashed && Ready(manager.world, c)
      modifies repr
      ensures Valid() && fresh(repr - old(repr))
      ensures Causes(c, io, e) && history == old(history) + AsEvents(e)
      ensures r == Crash <==> manager.world.crashed
      ensures c.OfferCall? && c.target == PUBLISHER && old(manager.Transport(c.user)) != null ==>
        && manager.Transport(c.user) == old(manager.Transport(c.user))
        && manager.Transport(c.user).Abs() ==
           IceBuffer.Perform(old(manager.Transport(c.user).Abs()), IceBuffer.SetDescription(io.taken, io.failAt))
      ensures c.IceCall? && c.target == PUBLISHER && old(manager.Transport(c.user)) != null ==>
        && manager.Transport(c.user) == old(manager.Transport(c.user))
        && manager.Transport(c.user).Abs() ==
           IceBuffer.Perform(old(manager.Transport(c.user).Abs()), IceBuffer.AddCandidate(c.candidate.candidate))
    {
      r, e := Success, None;
      match c {
        case JoinCall(u) => r, e := Join(u, io);
        case CloseCall(u) => r, e := Close(u, io);
        case PublishCall(u) => r, e := Publish(u, io);
        case StopCall(u) => r, e := Stop(u, io);
        case OfferCall(u, _, target) => r := Offer(u, target, io);
        case IceCall(u, candidate, target) => r, e := Candidate(u, candidate.candidate, target);
        case _ =>
      }
    }

    /** Whether a callback can go ahead: no participant it closes is locked. */
    method IsReady(c: Routers.Call) returns (ready: bool)
      requires Valid()
      ensures ready == Ready(manager.world, c)
    {
      if !c.CloseCall? {
        return true;
      }
      assert SessionsManager.Open(0);
      var room := manager.FindRoom(c.user);
      if room == null || c.user !in room.participants {
        assert room != null ==> manager.RoomAt(c.user);
        return true;
      }
      assert manager.RoomAt(c.user) && manager.BuiltAt(manager.world.rooms[c.user][c.user]);
      ready := !room.participants[c.user].locked;
    }

    /** One message: its callback goes ahead, or has to wait for a lock. */
    method HandleAt(lib: Rpcs.Library, msgs: seq<Routers.Message>, i: nat, io: Outcomes,
                    ghost asked: seq<Option<Routers.Call>>)
      returns (r: Outcome, waits: bool, ghost e: Option<Event>)
      requires Valid() && !manager.world.crashed && Routers.Reads(lib, msgs, asked) && i < |msgs|
      modifies repr
      ensures Valid() && fresh(repr - old(repr))
      ensures r == Crash <==> manager.world.crashed
      ensures waits ==> Blocks(asked[i], manager.world) && r != Crash && e == None
      ensures !waits ==> CausesIf(asked[i], io, e)
      ensures history == old(history) + AsEvents(e)
    {
      r, waits, e := Success, false, None;
      assert asked[i] == Routers.CallFor(lib, msgs[i]);
      var call := Routers.CallFor(lib, msgs[i]);
      if call.Some? {
        var ready := IsReady(call.value);
        if !ready {
          return Success, true, None;
        }
        r, e := Handle(call.value, io);
      }
    }

    method ServeAll(lib: Rpcs.Library, msgs: seq<Routers.Message>, ios: seq<Outcomes>,
                    ghost asked: seq<Option<Routers.Call>>)
      returns (handled: nat, ghost es: seq<Option<Event>>)
      requires Valid() && !manager.world.crashed && |ios| == |msgs| && Routers.Reads(lib, msgs, asked)
      modifies repr
      ensures Valid() && fresh(repr - old(repr))
      ensures handled == |es| <= |msgs| && history == old(history) + Events(es)
      ensures AllCaused(asked, ios, es)
      ensures handled < |msgs| && !manager.world.crashed ==> Blocks(asked[handled], manager.world)
    {
      handled, es := 0, [];
      while handled < |msgs|
        invariant Valid() && fresh(repr - old(repr)) && !manager.world.crashed
        invariant handled == |es| <= |msgs| && history == old(history) + Events(es)
        invariant AllCaused(asked, ios, es)
      {
        var r, waits;
        ghost var e;
        r, waits, e := HandleAt(lib, msgs, handled, ios[handled], asked);
        if waits {
          return;
        }
        EventsSnoc(es, e);
        OneMoreCaused(asked, ios, es, e);
        es := es + [e];
        handled := handled + 1;
        if r == Crash {
          return;
        }
      }
    }

    /** The router goroutine works through its messages, until a close has to wait for a lock or the process
        crashes. Each message handled adds the event its callback causes, if any, to the run. */
    method Serve(lib: Rpcs.Library, msgs: seq<Routers.Message>, ios: seq<Outcomes>)
      returns (handled: nat, ghost es: seq<Option<Event>>)
      requires Valid() && !manager.world.crashed && |ios| == |msgs|
      modifies repr
      ensures Valid() && fresh(repr - old(repr))
      ensures handled == |es| <= |msgs| && history == old(history) + Events(es)
      ensures forall i :: 0 <= i < handled ==> CausesIf(Routers.CallFor(lib, msgs[i]), ios[i], es[i])
      ensures handled < |msgs| && !manager.world.crashed ==>
        Blocks(Routers.CallFor(lib, msgs[handled]), manager.world)
    {
      ghost var asked := seq(|msgs|, i requires 0 <= i < |msgs| => Routers.CallFor(lib, msgs[i]));
      handled, es := ServeAll(lib, msgs, ios, asked);
    }

    // ---- The goroutines of the peer connections, between two messages or while the router waits ----

    method ConnectionChanged(
        p: Participants.Participant, ghost i: nat, state: Participants.ConnectionState, dialled: set<string>)
      returns (r: Outcome, ghost e: Option<Event>)
      requires Valid() && !manager.world.crashed && i < |manager.built| && p == manager.built[i]
      requires i !in manager.world.stopping
      modifies repr
      ensures Valid() && repr == old(repr) && history == old(history) + AsEvents(e)
      ensures state != Participants.Failed ==> e == None
      ensures state == Participants.Failed ==>
        e.Some? && if r == Crash then e.value.TrackCloseFails? && e.value.who == i else e.value == ConnectionFails(i)
      ensures r == Crash <==> manager.world.crashed
    {
      ghost var before := manager.world;
      r, e := manager.ConnectionStateChanged(p, i, state, dialled);
      if state == Participants.Failed {
        Record(e.value, before);
      }
    }

    method PublishStop(p: Participants.Participant, ghost i: nat, sent: bool)
      requires Valid() && !manager.world.crashed && i < |manager.built| && p == manager.built[i]
      requires i in manager.world.stopping
      modifies repr
      ensures Valid() && repr == old(repr) && history == old(history) + [Event.StopPublished(i, sent)]
      ensures !manager.world.crashed && i !in manager.world.stopping
    {
      ghost var before := manager.world;
      manager.StopPublished(p, i, sent);
      Record(Event.StopPublished(i, sent), before);
    }

    method TrackArrived(p: Participants.Participant, ghost i: nat, id: string, payloadType: nat, made: bool)
      returns (r: Outcome)
      requires Valid() && !manager.world.crashed && i < |manager.built| && p == manager.built[i]
      requires i !in manager.world.stopping
      modifies repr
      ensures Valid() && repr == old(repr) && history == old(history) + [TrackArrives(i, id, payloadType, made)]
      ensures r == Crash <==> manager.world.crashed
    {
      ghost var before := manager.world;
      r := manager.TrackArrived(p, i, id, payloadType, made);
      Record(TrackArrives(i, id, payloadType, made), before);
    }

    // ---- What that gives the objects ----

    /** The ports in the map of every participant ever built. */
    ghost function Held(): seq<set<GoInt>>
      reads manager, manager.built
    {
      seq(|manager.built|, i requires 0 <= i < |manager.built| reads manager, manager.built =>
        Entries(manager.built[i].allocatedPorts).Values)
    }

    lemma HeldIsInWorld()
      requires Valid()
      ensures |Held()| == |manager.world.parts| && manager.portsAllocator.udpPorts == manager.world.udp
      ensures forall i :: 0 <= i < |Held()| ==> Held()[i] == PortsOf(manager.world.parts[i])
    {
      assert SessionsManager.Open(0);
      forall i | 0 <= i < |Held()| ensures Held()[i] == PortsOf(manager.world.parts[i]) {
        assert manager.BuiltAt(i);
      }
    }

    /** After whatever the server has been through, the allocator has the configured ports, one is marked iff some
        participant ever built has it in its map, and no two participants have the same. */
    lemma PortsOfTheObjects()
      requires Valid() && !manager.world.crashed
      ensures manager.portsAllocator.udpPorts.Keys == Range(manager.rangeStart, manager.rangeEnd)
      ensures HeldOnce(Held(), manager.portsAllocator.udpPorts)
    {
      HeldIsInWorld();
      var range := Range(manager.rangeStart, manager.rangeEnd);
      assert SessionsManager.Open(0);
      PortOwnership(manager.List(), range, start, history, manager.world);
      OwnersByIndex(manager.world, range, Held());
    }

    /** The messages the server has published alternate iff, along its history, nobody joined while their last
        message was a start. */
    lemma MessagesOfTheBus()
      requires Valid()
      ensures Alternates(manager.nc.sent) <==> JoinsAfterStops(manager.List(), start, history)
    {
      assert SessionsManager.Open(0);
      AlternationIff(manager.List(), start, history, manager.world);
    }
  }

  /** A port is marked iff it is in one of the sets, and in only one. */
  predicate HeldOnce(held: seq<set<GoInt>>, udp: PortMap) {
    && (forall p :: p in udp ==> (udp[p] <==> exists i :: 0 <= i < |held| && p in held[i]))
    && forall i, j :: 0 <= i < j < |held| ==> held[i] !! held[j]
  }

  lemma OwnersByIndex(t: Sfu, range: set<GoInt>, held: seq<set<GoInt>>)
    requires |held| == |t.parts| && forall i :: 0 <= i < |held| ==> held[i] == PortsOf(t.parts[i])
    requires t.udp.Keys == range
    requires forall p :: p in range ==> (t.udp[p] <==> exists i: nat :: Unclosed(t, i) && p in PortsOf(t.parts[i]))
    requires forall i: nat, j: nat :: i < j && Unclosed(t, i) && Unclosed(t, j) ==>
      PortsOf(t.parts[i]) !! PortsOf(t.parts[j])
    ensures HeldOnce(held, t.udp)
  {
    forall p | p in t.udp ensures t.udp[p] <==> exists i :: 0 <= i < |held| && p in held[i] {
      if i: nat :| Unclosed(t, i) && p in PortsOf(t.parts[i]) {
        assert p in held[i];
      }
      if i :| 0 <= i < |held| && p in held[i] {
        assert Unclosed(t, i) && p in PortsOf(t.parts[i]);
      }
    }
    forall i, j | 0 <= i < j < |held| ensures held[i] !! held[j] {
      assert (Unclosed(t, i) && Unclosed(t, j)) || held[i] == {} || held[j] == {};
    }
  }
}
