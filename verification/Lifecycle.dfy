// The whole server between two handler calls, as a value: the sessions manager, every participant ever
// built, the port allocator, the sessions table and the messages sent to the transcoder daemons
// (internal/service/sessions_manager.go, internal/rtc/room.go, internal/rtc/participant.go).
module Lifecycle {
  import opened Common
  import opened Ports
  import opened TranscoderSdp
  import PP = PortProtocol
  import Rows = SessionRows

  datatype Track = Track(payloadType: nat, port: GoInt)

  /** A participant that was built; closing it sets both maps to nil. */
  datatype Part = Part(user: User, ports: GoMap<nat, GoInt>, tracks: GoMap<string, Track>, sdp: seq<MediaLine>)

  datatype BusMsg = StartTranscoder(user: User, sdp: seq<MediaLine>) | StopTranscoder(user: User)

  /** Participants are numbered in the order they were built; a room maps user IDs to those numbers. The
      participants in `stopping` lost their connection: their ports are released, their stop message is still to
      be published, and until then they hold their own lock. */
  datatype Sfu = Sfu(
    udp: PortMap, parts: seq<Part>, rooms: map<User, map<User, nat>>, table: Rows.SessionTable,
    bus: seq<BusMsg>, stopping: set<nat>, crashed: bool)

  /** One handler call of the router goroutine, or one step of a peer-connection goroutine, with the outcomes
      the environment chose. */
  datatype Event =
    | SaveFails(user: User)
    | Starts(user: User, ports: map<nat, GoInt>, audioFirst: bool, announced: bool, stopSent: bool)
    | BuildFails(user: User, leaked: set<GoInt>)
    | Closes(user: User, stopSent: bool, rowWritten: bool)
    | Publishes(user: User, rowWritten: bool)
    | Stops(user: User, rowWritten: bool)
    | ReceiverCandidate(user: User)
    | TrackCloseFails(who: nat, left: map<string, Track>)
    | ConnectionFails(who: nat)
    | StopPublished(who: nat, sent: bool)
    | TrackArrives(who: nat, id: string, payloadType: nat, made: bool)

  function PortsOf(p: Part): set<GoInt> {
    if p.ports.Made? then p.ports.entries.Values else {}
  }

  predicate Unclosed(s: Sfu, i: nat) { i < |s.parts| && s.parts[i].ports.Made? }

  /** The ports a new participant may have been given. */
  predicate Allocation(c: CodecList, udp: PortMap, ports: map<nat, GoInt>) {
    ports.Keys == Needs(c) && Injective(ports) && ports.Values <= Free(udp)
  }

  /** The participant a close of the user's room would close is not held by another close. */
  predicate HostFree(s: Sfu, u: User) { u in RoomOf(s, u) ==> RoomOf(s, u)[u] !in s.stopping }

  /** Some of the participant's tracks, and at least one of them, are still to be closed. */
  predicate LeftOpen(p: Part, left: map<string, Track>) {
    && p.tracks.Made? && left.Keys != {}
    && forall id :: id in left ==> id in p.tracks.entries && left[id] == p.tracks.entries[id]
  }

  /** What takes a participant's lock waits while another close holds it, so it happens later. */
  predicate Enabled(c: CodecList, s: Sfu, e: Event) {
    && !s.crashed
    && match e
       case Starts(_, ports, _, _, _) => Allocation(c, s.udp, ports)
       case BuildFails(_, leaked) => leaked <= Free(s.udp)
       case Closes(u, _, _) => HostFree(s, u)
       case TrackCloseFails(i, left) => i < |s.parts| && i !in s.stopping && LeftOpen(s.parts[i], left)
       case ConnectionFails(i) => i < |s.parts| && i !in s.stopping
       case StopPublished(i, _) => i < |s.parts| && i in s.stopping
       case TrackArrives(i, _, _, _) => i < |s.parts| && i !in s.stopping
       case _ => true
  }

  /** The first half of a close: ports back, both maps nil, the lock still held. */
  function Released(s: Sfu, i: nat): Sfu
    requires i < |s.parts|
  {
    s.(udp := Release(s.udp, PortsOf(s.parts[i])),
       parts := s.parts[i := s.parts[i].(ports := Nil, tracks := Nil)],
       stopping := s.stopping + {i})
  }

  function TrackPanics(s: Sfu, i: nat, left: map<string, Track>): Sfu
    requires i < |s.parts|
  {
    s.(parts := s.parts[i := s.parts[i].(tracks := Made(left))], crashed := true)
  }

  /** The second half: the stop message, if it gets out, and the lock released. */
  function Stopped(s: Sfu, i: nat, sent: bool): Sfu
    requires i < |s.parts|
  {
    s.(bus := s.bus + (if sent then [StopTranscoder(s.parts[i].user)] else []), stopping := s.stopping - {i})
  }

  /** Both halves in one handler. */
  function CloseAt(s: Sfu, i: nat, stopSent: bool): Sfu
    requires i < |s.parts|
  {
    var p := s.parts[i];
    s.(udp := Release(s.udp, PortsOf(p)),
       parts := s.parts[i := p.(ports := Nil, tracks := Nil)],
       bus := s.bus + if stopSent then [StopTranscoder(p.user)] else [])
  }

  lemma CloseIsTwoHalves(s: Sfu, i: nat, stopSent: bool)
    requires i < |s.parts| && i !in s.stopping
    ensures CloseAt(s, i, stopSent) == Stopped(Released(s, i), i, stopSent)
  {
    assert s.stopping + {i} - {i} == s.stopping;
  }

  /** A track is stored with the port of its payload type, which reads as zero from a nil map. */
  function WithTrack(p: Part, id: string, payloadType: nat): Part {
    if p.tracks.Nil? then p
    else p.(tracks := Made(p.tracks.entries[id := Track(payloadType, TrackPort(Entries(p.ports), payloadType))]))
  }

  function RoomOf(s: Sfu, u: User): map<User, nat> {
    if u in s.rooms then s.rooms[u] else map[]
  }

  /** A new participant, joined to its user's room in place of whoever was there. */
  function Joined(c: CodecList, s: Sfu, u: User, ports: map<nat, GoInt>, audioFirst: bool): Sfu
    requires Allocation(c, s.udp, ports)
  {
    OrderFacts(audioFirst, c);
    var sdp := Lines(Order(audioFirst, c), ports);
    s.(udp := Mark(s.udp, ports.Values),
       parts := s.parts + [Part(u, Made(ports), Made(map[]), sdp)],
       rooms := s.rooms[u := RoomOf(s, u)[u := |s.parts|]],
       table := Rows.ApplyChange(s.table, Rows.Save, u),
       bus := s.bus + [StartTranscoder(u, sdp)])
  }

  function Change(s: Sfu, ch: Rows.Change, u: User, written: bool): Sfu {
    if written then s.(table := Rows.ApplyChange(s.table, ch, u)) else s
  }

  function CloseRoom(s: Sfu, u: User, stopSent: bool): Sfu {
    if u in RoomOf(s, u) && RoomOf(s, u)[u] < |s.parts| then CloseAt(s, RoomOf(s, u)[u], stopSent) else s
  }

  function Apply(c: CodecList, s: Sfu, e: Event): Sfu
    requires Enabled(c, s, e)
  {
    match e
    case SaveFails(_) => s
    case Starts(u, ports, audioFirst, announced, stopSent) =>
      var joined := Joined(c, s, u, ports, audioFirst);
      if announced then joined else CloseAt(joined, |s.parts|, stopSent)
    case BuildFails(u, leaked) =>
      // The constructor returned nil and the nil participant is closed: the process is gone.
      s.(udp := Mark(s.udp, leaked), rooms := s.rooms[u := RoomOf(s, u)],
         table := Rows.ApplyChange(s.table, Rows.Save, u), crashed := true)
    case Closes(u, stopSent, written) =>
      if u !in s.rooms then s
      else
        var closed := Change(CloseRoom(s, u, stopSent), Rows.SetOffline, u, written);
        closed.(rooms := closed.rooms - {u})
    case Publishes(u, written) => if u in s.rooms then Change(s, Rows.StartPublish, u, written) else s
    case Stops(u, written) => if u in s.rooms then Change(s, Rows.StopPublish, u, written) else s
    case ReceiverCandidate(u) =>
      // The receiver's transport is nil, and the candidate is offered to it.
      if u in RoomOf(s, u) then s.(crashed := true) else s
    case TrackCloseFails(i, left) =>
      // A close comes upon a stored track that has not been dialled, and closes its nil connection.
      TrackPanics(s, i, left)
    case ConnectionFails(i) => Released(s, i)
    case StopPublished(i, sent) => Stopped(s, i, sent)
    case TrackArrives(i, id, pt, made) =>
      // A closed participant's track map is nil, and a write to it panics.
      if !made then s
      else if s.parts[i].tracks.Nil? then s.(crashed := true)
      else s.(parts := s.parts[i := WithTrack(s.parts[i], id, pt)])
  }

  /** What a receiver candidate does, given that an existing room holds its user's participant. */
  lemma ReceiverCandidateCrashes(c: CodecList, s: Sfu, u: User)
    requires !s.crashed && RoomOk(s, u)
    ensures Apply(c, s, ReceiverCandidate(u)) == s.(crashed := u in s.rooms)
  {
  }

  ghost predicate Run(c: CodecList, s: Sfu, es: seq<Event>, t: Sfu)
    decreases |es|
  {
    if es == [] then s == t else Enabled(c, s, es[0]) && Run(c, Apply(c, s, es[0]), es[1..], t)
  }

  // ---- The port protocol underneath ----

  function HolderOf(p: Part): PP.Holder {
    if p.ports.Made? then PP.Holder(p.ports.entries, PP.Live) else PP.Holder(map[], PP.Closed)
  }

  function Holders(parts: seq<Part>): (hs: seq<PP.Holder>)
    ensures |hs| == |parts| && forall i :: 0 <= i < |hs| ==> hs[i] == HolderOf(parts[i])
  {
    seq(|parts|, i requires 0 <= i < |parts| => HolderOf(parts[i]))
  }

  function View(s: Sfu): PP.State { PP.State(s.udp, Holders(s.parts), false) }

  // ---- Invariants ----

  /** An unclosed participant advertises exactly its ports and forwards its tracks to them. */
  predicate PartOk(c: CodecList, p: Part) {
    && (p.ports.Made? <==> p.tracks.Made?)
    && (p.ports.Made? ==>
          && p.ports.entries.Keys == Needs(c)
          && Advertises(p.sdp, p.ports.entries)
          && Describes(c, p.sdp, p.ports.entries)
          && forall id :: id in p.tracks.entries ==>
               p.tracks.entries[id].port == TrackPort(p.ports.entries, p.tracks.entries[id].payloadType))
  }

  /** A room holds exactly its own user's participant. */
  predicate RoomOk(s: Sfu, u: User) {
    u in s.rooms ==> s.rooms[u].Keys == {u} && s.rooms[u][u] < |s.parts| && s.parts[s.rooms[u][u]].user == u
  }

  predicate Current(s: Sfu, i: nat) {
    i < |s.parts| && s.parts[i].user in RoomOf(s, s.parts[i].user) &&
    RoomOf(s, s.parts[i].user)[s.parts[i].user] == i
  }

  /** A participant whose user joined again later. */
  predicate Displaced(s: Sfu, i: nat) {
    i < |s.parts| && exists j :: i < j < |s.parts| && s.parts[j].user == s.parts[i].user
  }

  ghost predicate Inv(c: CodecList, range: set<GoInt>, s: Sfu) {
    && PP.Inv(Needs(c), range, View(s))
    && (forall i :: 0 <= i < |s.parts| ==> PartOk(c, s.parts[i]))
    && (forall u :: RoomOk(s, u))
    && (forall i: nat :: Unclosed(s, i) ==> Current(s, i) || Displaced(s, i))
    && (forall i :: i in s.stopping ==> i < |s.parts| && s.parts[i].ports.Nil?)
    && Rows.RowsOk(s.table)
    && (forall u :: u in s.rooms ==> Rows.IsOnline(s.table, u))
  }

  /** The server just started over a table that it, or an earlier server, left: all ports free, nobody
      connected. */
  predicate Initial(range: set<GoInt>, s: Sfu) {
    && s.udp.Keys == range && Taken(s.udp) == {} && s.parts == [] && s.rooms == map[] && s.bus == []
    && s.stopping == {} && !s.crashed && Rows.RowsOk(s.table)
  }

  lemma InitialInv(c: CodecList, range: set<GoInt>, s: Sfu)
    requires Initial(range, s)
    ensures Inv(c, range, s)
  {
    PP.InitialInv(Needs(c), range, View(s));
  }
}
