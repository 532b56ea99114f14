// Rooms and the sessions manager as objects (internal/rtc/room.go, internal/service/sessions_manager.go).
// Every handler is proved to be one event of the Lifecycle module, so what that module's runs keep holds of
// the objects.
module Sessions {
  import opened Common
  import opened Codecs
  import opened Ports
  import opened TranscoderSdp
  import opened Lifecycle
  import opened LifecycleEffects
  import opened LifecycleRuns
  import opened IceBuffer
  import opened Participants
  import Rows = SessionRows

  class Room {
    const ID: User
    var participants: map<User, Participant>

    constructor (user: User)
      ensures ID == user && participants == map[]
    {
      ID, participants := user, map[];
    }

    method Join(participant: Participant)
      modifies this
      ensures participants == old(participants)[participant.user := participant]
    {
      participants := participants[participant.user := participant];
    }

    /** Closes the host; without one it reports an error and does nothing. */
    method Close(stopSent: bool, dialled: set<string>) returns (ok: bool, crashed: bool)
      modifies if ID in participants
               then {participants[ID], participants[ID].portsAllocator, participants[ID].nc} else {}
      ensures ok <==> ID in participants
      ensures participants == old(participants) && (crashed ==> ok)
      ensures ID in participants ==>
                var p := participants[ID];
                && Closing(old(p.Abs()), p.Abs(), dialled, crashed) && p.locked == old(p.locked)
                && p.portsAllocator.udpPorts ==
                     Release(old(p.portsAllocator.udpPorts), if crashed then {} else PortsOf(old(p.Abs())))
                && p.nc.sent == old(p.nc.sent) + if !crashed && stopSent then [StopTranscoder(p.user)] else []
    {
      if ID !in participants {
        return false, false;
      }
      crashed := participants[ID].Close(stopSent, dialled);
      ok := true;
    }

    /** Publishing asks only that the user has a participant; starting it there is a stub. */
    predicate PublishStream(user: User) reads this { user in participants }
  }

  /** The state once participant `p` has entered its room. */
  function Entered(s: Sfu, p: Part): Sfu {
    s.(parts := s.parts + [p], rooms := s.rooms[p.user := RoomOf(s, p.user)[p.user := |s.parts|]])
  }

  /** Saving the row, opening the room, building and entering, in that order, make one join. */
  lemma JoinStages(c: CodecList, s: Sfu, mid: Sfu, p: Part, e: Event)
    requires e.Starts? && !s.crashed && BuiltPart(c, s.udp, p, e.user, e.ports, e.audioFirst)
    requires mid == s.(table := Rows.ApplyChange(s.table, Rows.Save, e.user),
                       rooms := s.rooms[e.user := RoomOf(s, e.user)],
                       udp := Mark(s.udp, e.ports.Values), bus := s.bus + [StartTranscoder(e.user, p.sdp)])
    ensures Enabled(c, s, e) && Entered(mid, p) == Joined(c, s, e.user, e.ports, e.audioFirst)
  {
    assert Entered(mid, p).rooms == Joined(c, s, e.user, e.ports, e.audioFirst).rooms;
  }

  /** A whole close of participant `i`: done, or crashed on one of its tracks. */
  predicate Closed(
      s: Sfu, i: nat, stopSent: bool, dialled: set<string>, crashed: bool, left: map<string, Track>, t: Sfu)
  {
    && i < |s.parts| && (crashed <==> !AllDialled(s.parts[i], dialled))
    && (crashed ==> LeftOpen(s.parts[i], left))
    && t == if crashed then TrackPanics(s, i, left) else CloseAt(s, i, stopSent)
  }

  lemma NothingReleased(udp: PortMap)
    ensures Release(udp, {}) == udp
  {
  }

  /** The state after a whole close, put together from the objects' new values. */
  lemma CloseComposed(s: Sfu, i: nat, stopSent: bool, crashed: bool, left: map<string, Track>, t: Sfu)
    requires i < |s.parts|
    requires var p := s.parts[i];
      t == s.(udp := Release(s.udp, if crashed then {} else PortsOf(p)),
              parts := s.parts[i := if crashed then p.(tracks := Made(left)) else p.(ports := Nil, tracks := Nil)],
              bus := s.bus + if !crashed && stopSent then [StopTranscoder(p.user)] else [],
              crashed := s.crashed || crashed)
    ensures t == if crashed then TrackPanics(s, i, left) else CloseAt(s, i, stopSent)
  {
    NothingReleased(s.udp);
    assert s.bus + [] == s.bus;
  }

  /** Closing a session whose room holds its user: the participant, the row, the room; or the crash before. */
  function SessionClosed(s: Sfu, u: User, stopSent: bool, written: bool, crashed: bool, left: map<string, Track>): Sfu
    requires u in s.rooms && RoomOk(s, u)
  {
    var host := s.rooms[u][u];
    if crashed then TrackPanics(s, host, left)
    else
      var changed := Change(CloseAt(s, host, stopSent), Rows.SetOffline, u, written);
      changed.(rooms := changed.rooms - {u})
  }

  lemma SessionClosedIsAnEvent(
      c: CodecList, s: Sfu, u: User, stopSent: bool, written: bool, crashed: bool, left: map<string, Track>)
    requires !s.crashed && u in s.rooms && RoomOk(s, u) && HostFree(s, u)
    requires crashed ==> LeftOpen(s.parts[s.rooms[u][u]], left)
    ensures var e := if crashed then TrackCloseFails(s.rooms[u][u], left) else Closes(u, stopSent, written);
      Enabled(c, s, e) && SessionClosed(s, u, stopSent, written, crashed, left) == Apply(c, s, e)
  {
  }

  datatype Outcome = Success | Failure | Crash

  datatype StartIO = StartIO(saveOk: bool, build: BuildIO, announced: bool, stopSent: bool)

  class SessionsManager {
    const config: Config
    const rangeStart: GoInt
    const rangeEnd: GoInt
    const codecs: CodecTable
    const portsAllocator: PortsAllocator
    const nc: Bus
    const repository: Rows.SessionsRepository
    var sessions: map<User, Room>
    ghost var built: seq<Participant>  // every participant ever built
    ghost var world: Sfu

    ghost function List(): CodecList { CodecsFor(config) }

    /** The manager is sound. This is spelled as a quantifier so that a proof takes it apart only where it says
        `Open`. */
    ghost predicate Valid()
      reads this, codecs, portsAllocator, nc, repository, sessions.Values, built
    {
      forall k: nat {:trigger Open(k)} :: Open(k) ==> Sound()
    }

    static predicate Open(k: nat) { true }

    ghost predicate Sound()
      reads this, codecs, portsAllocator, nc, repository, sessions.Values, built
    {
      Mirrors() && (!world.crashed ==> Inv(List(), Range(rangeStart, rangeEnd), world))
    }

    /** The objects are in the state `world` describes. */
    ghost predicate Mirrors()
      reads this, codecs, portsAllocator, nc, repository, sessions.Values, built
    {
      && world.udp == portsAllocator.udpPorts && world.bus == nc.sent && world.table == repository.table
      && |built| == |world.parts| && (forall i :: 0 <= i < |built| ==> BuiltAt(i))
      && (forall i :: i in world.stopping ==> i < |built|)
      && sessions.Keys == world.rooms.Keys && (forall u :: u in sessions ==> RoomAt(u))
      && CacheConsistent(codecs.Abs(), config)
    }

    ghost predicate BuiltAt(i: nat)
      requires i < |built| && |built| == |world.parts|
      reads this, built
    {
      && built[i].index == i && built[i].portsAllocator == portsAllocator && built[i].nc == nc
      && built[i].Abs() == world.parts[i] && (built[i].locked <==> i in world.stopping)
    }

    ghost predicate RoomAt(u: User)
      requires u in sessions && u in world.rooms
      reads this, sessions.Values
    {
      && sessions[u].ID == u
      && sessions[u].participants.Keys == world.rooms[u].Keys
      && forall v :: v in world.rooms[u] ==>
           world.rooms[u][v] < |built| && sessions[u].participants[v] == built[world.rooms[u][v]]
    }

    /** A fresh manager starts in an initial state over any table that earlier servers left. */
    constructor (config: Config, rangeStart: GoInt, rangeEnd: GoInt, repository: Rows.SessionsRepository)
      requires Rows.RowsOk(repository.table)
      ensures Valid() && Initial(Range(rangeStart, rangeEnd), world)
      ensures fresh(codecs) && fresh(portsAllocator) && fresh(nc) && this.repository == repository
      ensures this.config == config && this.rangeStart == rangeStart && this.rangeEnd == rangeEnd
    {
      this.config, this.rangeStart, this.rangeEnd := config, rangeStart, rangeEnd;
      this.repository := repository;
      var allocator := new PortsAllocator(rangeStart, rangeEnd);
      portsAllocator := allocator;
      codecs := new CodecTable();
      nc := new Bus();
      sessions, built := map[], [];
      world := Sfu(allocator.udpPorts, [], map[], repository.table, [], {}, false);
      new;
      InitialInv(List(), Range(rangeStart, rangeEnd), world);
    }

    // ---- The stages of the handlers; each keeps `world` in step with the objects ----

    method ChangeRow(change: Rows.Change, user: User, ok: bool)
      requires Mirrors()
      modifies this`world, repository
      ensures Mirrors() && world == Change(old(world), change, user, ok)
    {
      repository.Execute(change, user, ok);
      world := Change(world, change, user, ok);
      forall i | 0 <= i < |built| ensures BuiltAt(i) {
        assert old(BuiltAt(i));
      }
      forall u | u in sessions ensures RoomAt(u) {
        assert old(RoomAt(u));
      }
    }

    method FindOrInitRoom(user: User) returns (room: Room)
      requires Mirrors()
      modifies this`sessions, this`world
      ensures Mirrors() && user in sessions && room == sessions[user]
      ensures user in old(sessions) ==> room == old(sessions)[user]
      ensures user !in old(sessions) ==> fresh(room)
      ensures forall other :: other in sessions.Values ==> other in old(sessions).Values || other == room
      ensures world == old(world).(rooms := old(world).rooms[user := RoomOf(old(world), user)])
    {
      if user in sessions {
        room := sessions[user];
        assert world.rooms[user := world.rooms[user]] == world.rooms;
        return;
      }
      room := new Room(user);
      sessions := sessions[user := room];
      world := world.(rooms := world.rooms[user := map[]]);
      forall i | 0 <= i < |built| ensures BuiltAt(i) {
        assert old(BuiltAt(i));
      }
      forall u | u in sessions ensures RoomAt(u) {
        assert u != user ==> old(RoomAt(u));
      }
    }

    method BuildParticipant(user: User, io: BuildIO) returns (p: Participant?, ghost ports: map<nat, GoInt>)
      requires Mirrors()
      modifies this`world, codecs, portsAllocator, nc
      ensures Mirrors() && ports.Values <= Free(old(world).udp)
      ensures p != null <==> CanBuild(config, io, old(world).udp)
      ensures p == null ==> world == old(world).(udp := Mark(old(world).udp, ports.Values))
      ensures p != null ==>
                && fresh(p) && fresh(p.publisher) && !p.locked
                && p.index == |built| && p.portsAllocator == portsAllocator && p.nc == nc
                && BuiltPart(List(), old(world).udp, p.Abs(), user, ports, io.audioFirst)
                && world == old(world).(udp := Mark(old(world).udp, ports.Values),
                                        bus := old(world).bus + [StartTranscoder(user, p.transcoderSDP)])
    {
      p, ports := NewParticipant(|built|, user, config, codecs, portsAllocator, nc, io);
      world := world.(udp := Mark(world.udp, ports.Values), bus := nc.sent);
      forall i | 0 <= i < |built| ensures BuiltAt(i) {
        assert old(BuiltAt(i));
      }
      forall u | u in sessions ensures RoomAt(u) {
        assert old(RoomAt(u));
      }
    }

    /** The participant enters its user's room, replacing whoever was there. */
    method Enter(room: Room, p: Participant)
      requires Mirrors() && p.user in sessions && room == sessions[p.user]
      requires p.index == |built| && p.portsAllocator == portsAllocator && p.nc == nc && !p.locked
      modifies this`world, this`built, room
      ensures Mirrors() && built == old(built) + [p]
      ensures world == Entered(old(world), p.Abs())
    {
      assert RoomAt(p.user);
      ghost var room0 := world.rooms[p.user];
      room.Join(p);
      built := built + [p];
      world := world.(
        parts := world.parts + [p.Abs()],
        rooms := world.rooms[p.user := room0[p.user := |world.parts|]]);
      forall i | 0 <= i < |built| ensures BuiltAt(i) {
        assert i < |old(built)| ==> old(BuiltAt(i));
      }
      forall u | u in sessions ensures RoomAt(u) {
        assert old(RoomAt(u));
        assert u != p.user ==> sessions[u] != room;
      }
    }

    /** Different positions hold different objects. */
    lemma Apart(i: nat)
      requires Mirrors() && i < |built|
      ensures forall j :: 0 <= j < |built| && j != i ==> built[j] != built[i]
    {
      forall j | 0 <= j < |built| && j != i ensures built[j] != built[i] {
        assert BuiltAt(j) && BuiltAt(i);
      }
    }

    /** Everything but participant `i`, the ports and the messages is as `world` describes. */
    ghost predicate MirrorsBut(i: nat)
      reads this, codecs, repository, sessions.Values, built
    {
      && world.table == repository.table
      && |built| == |world.parts| && (forall j :: 0 <= j < |built| && j != i ==> BuiltAt(j))
      && (forall j :: j in world.stopping ==> j < |built|)
      && sessions.Keys == world.rooms.Keys && (forall u :: u in sessions ==> RoomAt(u))
      && CacheConsistent(codecs.Abs(), config)
    }

    /** `world` catches up with a change to participant `i`. */
    ghost method Settle(i: nat, p: Part, udp: PortMap, bus: seq<BusMsg>, stopping: set<nat>)
      requires MirrorsBut(i) && i < |built| && built[i].Abs() == p && (built[i].locked <==> i in stopping)
      requires built[i].index == i && built[i].portsAllocator == portsAllocator && built[i].nc == nc
      requires udp == portsAllocator.udpPorts && bus == nc.sent
      requires forall j :: j != i ==> (j in stopping <==> j in world.stopping)
      modifies this`world
      ensures Mirrors()
      ensures world == old(world).(udp := udp, parts := old(world).parts[i := p], bus := bus, stopping := stopping)
    {
      world := world.(udp := udp, parts := world.parts[i := p], bus := bus, stopping := stopping);
      forall j | 0 <= j < |built| ensures BuiltAt(j) {
        assert j != i ==> old(BuiltAt(j));
      }
      forall u | u in sessions ensures RoomAt(u) {
        assert old(RoomAt(u));
      }
    }

    method ClosePart(p: Participant, ghost i: nat, stopSent: bool, dialled: set<string>)
      returns (crashed: bool, ghost left: map<string, Track>)
      requires Mirrors() && i < |built| && p == built[i]
      modifies this`world, p, portsAllocator, nc
      ensures Mirrors() && i < |old(world).parts| && Closed(old(world), i, stopSent, dialled, crashed, left, world)
    {
      assert BuiltAt(i);
      Apart(i);
      crashed := p.Close(stopSent, dialled);
      left := Entries(p.publishedTracks);
      forall j | 0 <= j < |built| && j != i ensures BuiltAt(j) {
        assert old(BuiltAt(j));
      }
      Settle(i, p.Abs(), portsAllocator.udpPorts, nc.sent, world.stopping);
      if crashed {
        Die();
      }
      CloseComposed(old(world), i, stopSent, crashed, left, world);
    }

    /** The first half of a close by the participant's own connection. */
    method ReleasePart(p: Participant, ghost i: nat, dialled: set<string>)
      returns (crashed: bool, ghost left: map<string, Track>)
      requires Mirrors() && i < |built| && p == built[i] && i !in world.stopping
      modifies this`world, p, portsAllocator
      ensures Mirrors() && i < |old(world).parts|
      ensures crashed <==> !AllDialled(old(world).parts[i], dialled)
      ensures crashed ==> LeftOpen(old(world).parts[i], left)
      ensures world == if crashed then TrackPanics(old(world), i, left) else Released(old(world), i)
    {
      assert BuiltAt(i);
      Apart(i);
      crashed := p.GiveBack(dialled);
      left := Entries(p.publishedTracks);
      p.locked := !crashed;
      forall j | 0 <= j < |built| && j != i ensures BuiltAt(j) {
        assert old(BuiltAt(j));
      }
      Settle(i, p.Abs(), portsAllocator.udpPorts, nc.sent, if crashed then world.stopping else world.stopping + {i});
      if crashed {
        Die();
        NothingReleased(old(world).udp);
      }
    }

    /** The second half. */
    method FinishPart(p: Participant, ghost i: nat, sent: bool)
      requires Mirrors() && i < |built| && p == built[i]
      modifies this`world, p`locked, nc
      ensures Mirrors() && i < |old(world).parts| && world == Stopped(old(world), i, sent)
    {
      assert BuiltAt(i);
      p.PublishStop(sent);
      p.locked := false;
      world := Stopped(world, i, sent);
      forall j | 0 <= j < |built| ensures BuiltAt(j) {
        assert old(BuiltAt(j));
      }
      forall u | u in sessions ensures RoomAt(u) {
        assert old(RoomAt(u));
      }
    }

    /** Closing a room closes the participant in it, which a room always has between handlers. */
    method CloseHost(room: Room, stopSent: bool, dialled: set<string>)
      returns (crashed: bool, ghost left: map<string, Track>)
      requires Mirrors() && room.ID in sessions && room == sessions[room.ID] && RoomOk(world, room.ID)
      modifies this`world, if room.ID in room.participants then {room.participants[room.ID]} else {}, portsAllocator, nc
      ensures Mirrors()
      ensures Closed(old(world), old(world).rooms[room.ID][room.ID], stopSent, dialled, crashed, left, world)
    {
      assert RoomAt(room.ID);
      ghost var i := world.rooms[room.ID][room.ID];
      assert BuiltAt(i);
      Apart(i);
      var found, crash := room.Close(stopSent, dialled);
      crashed := crash;
      left := Entries(built[i].publishedTracks);
      forall j | 0 <= j < |built| && j != i ensures BuiltAt(j) {
        assert old(BuiltAt(j));
      }
      Settle(i, built[i].Abs(), portsAllocator.udpPorts, nc.sent, world.stopping);
      if crashed {
        Die();
      }
      CloseComposed(old(world), i, stopSent, crashed, left, world);
    }

    method DropRoom(user: User)
      requires Mirrors()
      modifies this`sessions, this`world
      ensures Mirrors() && world == old(world).(rooms := old(world).rooms - {user})
      ensures sessions == old(sessions) - {user}
    {
      sessions := sessions - {user};
      world := world.(rooms := world.rooms - {user});
      forall i | 0 <= i < |built| ensures BuiltAt(i) {
        assert old(BuiltAt(i));
      }
      forall u | u in sessions ensures RoomAt(u) {
        assert old(RoomAt(u));
      }
    }

    /** A call on a nil participant or transport, or a write to a nil map. */
    ghost method Die()
      requires Mirrors()
      modifies this`world
      ensures Mirrors() && world == old(world).(crashed := true)
    {
      world := world.(crashed := true);
      forall i | 0 <= i < |built| ensures BuiltAt(i) {
        assert old(BuiltAt(i));
      }
      forall u | u in sessions ensures RoomAt(u) {
        assert old(RoomAt(u));
      }
    }

    // ---- The handlers ----

    /** The last stage of a join: into the room, and out again if the client cannot be told. */
    method Welcome(room: Room, p: Participant, io: StartIO, ghost s: Sfu, ghost e: Event)
      requires Mirrors() && p.user in sessions && room == sessions[p.user]
      requires p.index == |built| && p.portsAllocator == portsAllocator && p.nc == nc && !p.locked
      requires e.Starts? && e.announced == io.announced && e.stopSent == io.stopSent && Enabled(List(), s, e)
      requires |world.parts| == |s.parts| && Entered(world, p.Abs()) == Joined(List(), s, e.user, e.ports, e.audioFirst)
      modifies this`world, this`built, room, p, portsAllocator, nc
      ensures Mirrors() && world == Apply(List(), s, e) && built == old(built) + [p]
    {
      Enter(room, p);
      if !io.announced {
        // No track has been stored yet, so there is nothing to crash on.
        var crashed, left := ClosePart(p, |s.parts|, io.stopSent, {});
      }
    }

    /** What a join's event says about the outcomes it met. */
    ghost predicate JoinOutcome(before: Sfu, user: User, io: StartIO, e: Event, r: Outcome) {
      match e
      case SaveFails(u) => u == user && !io.saveOk && r == Failure
      case Starts(u, _, audioFirst, announced, stopSent) =>
        && u == user && io.saveOk && CanBuild(config, io.build, before.udp)
        && audioFirst == io.build.audioFirst && announced == io.announced && stopSent == io.stopSent
        && r == if announced then Success else Failure
      case BuildFails(u, _) => u == user && io.saveOk && !CanBuild(config, io.build, before.udp) && r == Crash
      case _ => false
    }

    /** A join that fails without a crash leaves every port as it was. */
    lemma JoinEffect(s: Sfu, user: User, io: StartIO, e: Event, r: Outcome)
      requires Inv(List(), Range(rangeStart, rangeEnd), s) && Enabled(List(), s, e) && JoinOutcome(s, user, io, e, r)
      ensures r == Failure ==> Apply(List(), s, e).udp == s.udp
    {
      if e.Starts? { StartEffect(List(), Range(rangeStart, rangeEnd), s, e); }
    }

    /** The state after the row was saved and the room found or made. */
    ghost function RoomReady(s: Sfu, user: User): Sfu {
      s.(table := Rows.ApplyChange(s.table, Rows.Save, user), rooms := s.rooms[user := RoomOf(s, user)])
    }

    method Complete(room: Room, p: Participant, io: StartIO, ghost s: Sfu, ghost ports: map<nat, GoInt>)
      returns (r: Outcome, ghost e: Event)
      requires Mirrors() && p.user in sessions && room == sessions[p.user] && !s.crashed
      requires p.index == |built| && p.portsAllocator == portsAllocator && p.nc == nc && !p.locked
      requires BuiltPart(List(), s.udp, p.Abs(), p.user, ports, io.build.audioFirst)
      requires world == RoomReady(s, p.user).(udp := Mark(s.udp, ports.Values),
                                              bus := s.bus + [StartTranscoder(p.user, p.transcoderSDP)])
      modifies this`world, this`built, room, p, portsAllocator, nc
      ensures Mirrors() && Enabled(List(), s, e) && world == Apply(List(), s, e) && built == old(built) + [p]
      ensures e == Starts(p.user, ports, io.build.audioFirst, io.announced, io.stopSent)
      ensures r == if io.announced then Success else Failure
    {
      e := Starts(p.user, ports, io.build.audioFirst, io.announced, io.stopSent);
      JoinStages(List(), s, world, p.Abs(), e);
      Welcome(room, p, io, s, e);
      r := if io.announced then Success else Failure;
    }

    method BuildAndWelcome(room: Room, user: User, io: StartIO, ghost s: Sfu)
      returns (r: Outcome, ghost e: Event, ghost newcomer: Participant?)
      requires Mirrors() && user in sessions && room == sessions[user] && !s.crashed
      requires world == RoomReady(s, user) && io.saveOk
      modifies this`world, this`built, codecs, portsAllocator, nc, room
      ensures Mirrors() && Enabled(List(), s, e) && world == Apply(List(), s, e)
      ensures JoinOutcome(s, user, io, e, r)
      ensures newcomer == null ==> built == old(built)
      ensures newcomer != null ==> built == old(built) + [newcomer] && fresh(newcomer) && fresh(newcomer.publisher)
    {
      var participant, ports := BuildParticipant(user, io.build);
      if participant == null {
        Die();
        return Crash, BuildFails(user, ports.Values), null;
      }
      newcomer := participant;
      r, e := Complete(room, participant, io, s, ports);
    }

    method PerformStart(user: User, io: StartIO)
      returns (r: Outcome, ghost e: Event, ghost newcomer: Participant?)
      requires Mirrors() && !world.crashed
      modifies this`world, this`built, this`sessions, codecs, portsAllocator, nc, repository
      modifies if user in sessions then {sessions[user]} else {}
      ensures Mirrors() && Enabled(List(), old(world), e) && world == Apply(List(), old(world), e)
      ensures JoinOutcome(old(world), user, io, e, r)
      ensures newcomer == null ==> built == old(built)
      ensures newcomer != null ==> built == old(built) + [newcomer] && fresh(newcomer) && fresh(newcomer.publisher)
      ensures fresh(sessions.Values - old(sessions).Values)
    {
      ghost var s := world;
      ChangeRow(Rows.Save, user, io.saveOk);
      if !io.saveOk {
        return Failure, SaveFails(user), null;
      }
      var room := FindOrInitRoom(user);
      r, e, newcomer := BuildAndWelcome(room, user, io, s);
    }

    /** A join. Which event it was depends only on the outcomes of the outside calls and on whether enough
        ports were free; when building fails the process dies on a nil participant. */
    method StartSession(user: User, io: StartIO)
      returns (r: Outcome, ghost e: Event, ghost newcomer: Participant?)
      requires Valid() && !world.crashed
      modifies this, codecs, portsAllocator, nc, repository
      modifies if user in sessions then {sessions[user]} else {}
      ensures Valid() && Enabled(List(), old(world), e) && world == Apply(List(), old(world), e)
      ensures JoinOutcome(old(world), user, io, e, r) && (r == Crash <==> world.crashed)
      ensures r == Failure ==> portsAllocator.udpPorts == old(portsAllocator.udpPorts)
      ensures r == Success <==> io.saveOk && CanBuild(config, io.build, old(portsAllocator.udpPorts)) && io.announced
      ensures r == Crash <==> io.saveOk && !CanBuild(config, io.build, old(portsAllocator.udpPorts))
      ensures newcomer == null ==> built == old(built)
      ensures newcomer != null ==> built == old(built) + [newcomer] && fresh(newcomer) && fresh(newcomer.publisher)
      ensures fresh(sessions.Values - old(sessions).Values)
    {
      ghost var s := world;
      assert Open(0);
      r, e, newcomer := PerformStart(user, io);
      JoinEffect(s, user, io, e, r);
      if r != Crash {
        EventKeepsInv(List(), Range(rangeStart, rangeEnd), s, e);
      }
    }

    function FindRoom(user: User): Room?
      reads this
    {
      if user in sessions then sessions[user] else null
    }

    /** The participant a user's room holds. */
    ghost function Host(user: User): set<Participant>
      reads this, if user in sessions then {sessions[user]} else {}
    {
      if user in sessions && user in sessions[user].participants then {sessions[user].participants[user]} else {}
    }

    lemma RoomIsOk(user: User)
      requires Valid() && !world.crashed
      ensures RoomOk(world, user)
    {
      assert Open(0);
    }

    lemma SameUsers(user: User)
      requires Valid()
      ensures user in sessions <==> user in world.rooms
    {
      assert Open(0);
    }

    lemma HostPresent(user: User)
      requires Valid() && !world.crashed && user in sessions
      ensures sessions[user].ID == user && user in sessions[user].participants
    {
      RoomIsOk(user);
      assert Open(0);
      assert RoomAt(user);
    }

    /** What ended a session: a close, or a crash on a track of the room's participant. */
    ghost predicate CloseOutcome(
        before: Sfu, user: User, stopSent: bool, dialled: set<string>, rowWritten: bool, e: Event, r: Outcome)
    {
      if user !in before.rooms then e == Closes(user, stopSent, rowWritten) && r == Failure
      else
        && RoomOk(before, user)
        && var host := before.rooms[user][user];
          if AllDialled(before.parts[host], dialled) then e == Closes(user, stopSent, rowWritten) && r == Success
          else e.TrackCloseFails? && e.who == host && r == Crash
    }

    method PerformClose(user: User, stopSent: bool, dialled: set<string>, rowWritten: bool)
      returns (r: Outcome, ghost left: map<string, Track>)
      requires Mirrors() && user in sessions && RoomOk(world, user)
      modifies this`world, this`sessions, Host(user), portsAllocator, nc, repository
      ensures Mirrors() && sessions.Values <= old(sessions).Values
      ensures r == if AllDialled(old(world).parts[old(world).rooms[user][user]], dialled) then Success else Crash
      ensures r == Crash ==> LeftOpen(old(world).parts[old(world).rooms[user][user]], left)
      ensures world == SessionClosed(old(world), user, stopSent, rowWritten, r == Crash, left)
    {
      assert RoomAt(user);
      var crashed;
      crashed, left := CloseHost(sessions[user], stopSent, dialled);
      if crashed {
        return Crash, left;
      }
      ChangeRow(Rows.SetOffline, user, rowWritten);
      DropRoom(user);
      r := Success;
    }

    /** Ending a session: errors of the room and of the row update are only logged. The call waits for the lock
        of the room's participant. */
    method CloseSession(user: User, stopSent: bool, dialled: set<string>, rowWritten: bool)
      returns (r: Outcome, ghost e: Event)
      requires Valid() && !world.crashed && HostFree(world, user)
      modifies this`world, this`sessions, Host(user), portsAllocator, nc, repository
      ensures Valid() && Enabled(List(), old(world), e) && world == Apply(List(), old(world), e)
      ensures CloseOutcome(old(world), user, stopSent, dialled, rowWritten, e, r)
      ensures sessions.Values <= old(sessions).Values && (r == Crash <==> world.crashed)
    {
      ghost var s := world;
      e := Closes(user, stopSent, rowWritten);
      if FindRoom(user) == null {
        SameUsers(user);
        return Failure, e;
      }
      assert Open(0);
      RoomIsOk(user);
      SameUsers(user);
      ghost var left;
      r, left := PerformClose(user, stopSent, dialled, rowWritten);
      SessionClosedIsAnEvent(List(), s, user, stopSent, rowWritten, r == Crash, left);
      if r == Crash {
        e := TrackCloseFails(s.rooms[user][user], left);
      } else {
        EventKeepsInv(List(), Range(rangeStart, rangeEnd), s, e);
      }
    }

    method PublishStream(user: User, rowWritten: bool) returns (r: Outcome)
      requires Valid() && !world.crashed
      modifies this`world, repository
      ensures Valid() && world == Apply(List(), old(world), Publishes(user, rowWritten))
      ensures r == if user in sessions && rowWritten then Success else Failure
    {
      ghost var s := world;
      var room := FindRoom(user);
      if room == null {
        SameUsers(user);
        return Failure;
      }
      HostPresent(user);
      assert Open(0);
      EventKeepsInv(List(), Range(rangeStart, rangeEnd), s, Publishes(user, rowWritten));
      ChangeRow(Rows.StartPublish, user, rowWritten);
      r := if rowWritten && room.PublishStream(user) then Success else Failure;
    }

    method StopStream(user: User, rowWritten: bool) returns (r: Outcome)
      requires Valid() && !world.crashed
      modifies this`world, repository
      ensures Valid() && world == Apply(List(), old(world), Stops(user, rowWritten))
      ensures r == if user in sessions && rowWritten then Success else Failure
    {
      ghost var s := world;
      var room := FindRoom(user);
      if room == null {
        SameUsers(user);
        return Failure;
      }
      assert Open(0);
      EventKeepsInv(List(), Range(rangeStart, rangeEnd), s, Stops(user, rowWritten));
      ChangeRow(Rows.StopPublish, user, rowWritten);
      r := if rowWritten then Success else Failure;
    }

    /** A participant's connection changed state, possibly long after it was closed or displaced. A failed one
        takes the participant's lock and releases its ports; the stop message follows in `StopPublished`. */
    method ConnectionStateChanged(p: Participant, ghost i: nat, state: ConnectionState, dialled: set<string>)
      returns (r: Outcome, ghost e: Option<Event>)
      requires Valid() && !world.crashed && i < |built| && p == built[i] && i !in world.stopping
      modifies this`world, p, portsAllocator
      ensures Valid() && i < |old(world).parts|
      ensures state != Failed ==> e == None && r == Success && world == old(world)
      ensures state == Failed ==>
        && e.Some? && Enabled(List(), old(world), e.value) && world == Apply(List(), old(world), e.value)
        && if AllDialled(old(world).parts[i], dialled) then e.value == ConnectionFails(i) && r == Success
           else e.value.TrackCloseFails? && e.value.who == i && r == Crash
    {
      r, e := Success, None;
      assert Open(0);
      if state == Failed {
        ghost var s := world;
        var crashed, left := ReleasePart(p, i, dialled);
        if crashed {
          return Crash, Some(TrackCloseFails(i, left));
        }
        e := Some(ConnectionFails(i));
        EventKeepsInv(List(), Range(rangeStart, rangeEnd), s, ConnectionFails(i));
      }
    }

    /** The stop message of a failed connection goes out, or is lost, and the lock is free again. */
    method StopPublished(p: Participant, ghost i: nat, sent: bool)
      requires Valid() && !world.crashed && i < |built| && p == built[i] && i in world.stopping
      modifies this`world, p`locked, nc
      ensures Valid() && Enabled(List(), old(world), Event.StopPublished(i, sent))
      ensures world == Apply(List(), old(world), Event.StopPublished(i, sent))
    {
      assert Open(0);
      EventKeepsInv(List(), Range(rangeStart, rangeEnd), world, Event.StopPublished(i, sent));
      FinishPart(p, i, sent);
    }

    /** A track arrives, at a closed participant with a crash. */
    method TrackArrived(p: Participant, ghost i: nat, id: string, payloadType: nat, made: bool) returns (r: Outcome)
      requires Valid() && !world.crashed && i < |built| && p == built[i] && i !in world.stopping
      modifies this`world, p
      ensures Valid() && Enabled(List(), old(world), TrackArrives(i, id, payloadType, made))
      ensures world == Apply(List(), old(world), TrackArrives(i, id, payloadType, made))
      ensures r == Crash <==> world.crashed
    {
      assert Open(0);
      EventKeepsInv(List(), Range(rangeStart, rangeEnd), world, TrackArrives(i, id, payloadType, made));
      var crashed := AddTrack(p, i, id, payloadType, made);
      if crashed {
        Die();
        return Crash;
      }
      if made { r := Success; } else { r := Failure; }
    }

    method AddTrack(p: Participant, ghost i: nat, id: string, payloadType: nat, made: bool) returns (crashed: bool)
      requires Mirrors() && i < |built| && p == built[i]
      modifies this`world, p
      ensures Mirrors() && i < |old(world).parts|
      ensures crashed == (made && old(world).parts[i].tracks.Nil?)
      ensures world == if !made || crashed then old(world)
                       else old(world).(parts := old(world).parts[i := WithTrack(old(world).parts[i], id, payloadType)])
    {
      assert BuiltAt(i);
      crashed := p.OnMediaTrack(id, payloadType, made);
      if made && !crashed {
        world := world.(parts := world.parts[i := WithTrack(world.parts[i], id, payloadType)]);
      }
      forall j | 0 <= j < |built| ensures BuiltAt(j) {
        assert old(BuiltAt(j));
      }
      forall u | u in sessions ensures RoomAt(u) {
        assert old(RoomAt(u));
      }
    }

    /** The transport a user's offers and candidates go to. */
    ghost function Transport(user: User): PCTransport?
      reads this, if user in sessions then {sessions[user]} else {}
    {
      if user in sessions && user in sessions[user].participants
      then sessions[user].participants[user].publisher else null
    }

    /** Transports are not part of what the manager's invariant reads. */
    method PassOffer(p: Participant, target: Target, taken: Taken, failAt: nat, answered: bool) returns (ok: bool)
      requires Valid()
      modifies p.publisher
      ensures ok <==> target == Publisher ==>
        taken == Accepted && !FlushFails(old(p.publisher.Abs()), SetDescription(taken, failAt)) && answered
      ensures Valid() && world == old(world)
      ensures p.publisher.Abs() ==
              if target == Publisher then Perform(old(p.publisher.Abs()), SetDescription(taken, failAt))
              else old(p.publisher.Abs())
    {
      ok := p.HandleOffer(target, taken, failAt, answered);
    }

    method PassCandidate(p: Participant, target: Target, candidate: Candidate) returns (crashed: bool)
      requires Valid()
      modifies this`world, p.publisher
      ensures Valid() && world == old(world).(crashed := old(world).crashed || crashed)
      ensures crashed <==> target != Publisher
      ensures p.publisher.Abs() ==
              if crashed then old(p.publisher.Abs()) else Perform(old(p.publisher.Abs()), AddCandidate(candidate))
    {
      crashed := p.AddICECandidate(target, candidate);
      if crashed {
        assert Open(0);
        Die();
      }
    }

    /** An offer reaches the publisher transport of the participant in the user's room, and nothing else. */
    method HandleOffer(user: User, target: Target, taken: Taken, failAt: nat, answered: bool) returns (r: Outcome)
      requires Valid() && !world.crashed
      modifies if Transport(user) == null then {} else {Transport(user)}
      ensures Valid() && world == old(world)
      ensures (user in sessions <==> Transport(user) != null) && (user !in sessions ==> r == Failure) && r != Crash
      ensures user in sessions && target == Publisher ==>
        Transport(user).Abs() == Perform(old(Transport(user).Abs()), SetDescription(taken, failAt))
      ensures user in sessions && target != Publisher ==> Transport(user).Abs() == old(Transport(user).Abs())
      ensures user in sessions ==>
        (r == Success <==> target == Publisher ==>
           taken == Accepted && !FlushFails(old(Transport(user).Abs()), SetDescription(taken, failAt)) && answered)
    {
      var room := FindRoom(user);
      if room == null {
        return Failure;
      }
      HostPresent(user);
      var ok := PassOffer(room.participants[user], target, taken, failAt, answered);
      r := if ok then Success else Failure;
    }

    method PassToHost(user: User, target: Target, candidate: Candidate) returns (r: Outcome)
      requires Valid() && !world.crashed
      modifies this`world, if Transport(user) == null then {} else {Transport(user)}
      ensures Valid() && world == old(world).(crashed := r == Crash)
      ensures r == if user !in sessions then Failure else if target == Publisher then Success else Crash
      ensures user in sessions <==> Transport(user) != null
      ensures r == Success ==> Transport(user).Abs() == Perform(old(Transport(user).Abs()), AddCandidate(candidate))
      ensures r == Crash ==> Transport(user).Abs() == old(Transport(user).Abs())
    {
      var room := FindRoom(user);
      if room == null {
        return Failure;
      }
      HostPresent(user);
      var crashed := PassCandidate(room.participants[user], target, candidate);
      r := if crashed then Crash else Success;
    }

    /** A candidate for the publisher reaches that same transport; one for the receiver crashes the process. */
    method AddICECandidate(user: User, target: Target, candidate: Candidate) returns (r: Outcome)
      requires Valid() && !world.crashed
      modifies this`world, if Transport(user) == null then {} else {Transport(user)}
      ensures Valid()
      ensures world == if target == Publisher then old(world) else Apply(List(), old(world), ReceiverCandidate(user))
      ensures r == Crash <==> world.crashed
      ensures r == if user !in sessions then Failure else if target == Publisher then Success else Crash
      ensures user in sessions <==> Transport(user) != null
      ensures r == Success ==> Transport(user).Abs() == Perform(old(Transport(user).Abs()), AddCandidate(candidate))
      ensures r == Crash ==> Transport(user).Abs() == old(Transport(user).Abs())
    {
      RoomIsOk(user);
      SameUsers(user);
      ReceiverCandidateCrashes(List(), world, user);
      r := PassToHost(user, target, candidate);
    }
  }
}
