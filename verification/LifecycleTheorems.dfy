// What holds over whole runs of the server.
module LifecycleTheorems {
  import opened Codecs
  import opened CodecTheorems
  import opened Common
  import opened Ports
  import opened TranscoderSdp
  import opened Lifecycle
  import opened LifecycleRuns
  import PP = PortProtocol
  import Rows = SessionRows

  // ---- Port ownership ----

  /** In every state a run reaches, a port is marked allocated iff an unclosed participant holds it, no two
      hold the same port, and the allocator's key set is the configured range. */
  lemma PortOwnership(c: CodecList, range: set<GoInt>, s: Sfu, es: seq<Event>, t: Sfu)
    requires Initial(range, s) && Run(c, s, es, t) && !t.crashed
    ensures t.udp.Keys == range
    ensures forall p :: p in range ==> (t.udp[p] <==> exists i: nat :: Unclosed(t, i) && p in PortsOf(t.parts[i]))
    ensures forall i: nat, j: nat :: i < j && Unclosed(t, i) && Unclosed(t, j) ==>
              PortsOf(t.parts[i]) !! PortsOf(t.parts[j])
  {
    InitialInv(c, range, s);
    RunKeepsInv(c, range, s, es, t);
    OwnersAreUnclosed(c, range, t);
  }

  lemma OwnersAreUnclosed(c: CodecList, range: set<GoInt>, t: Sfu)
    requires Inv(c, range, t)
    ensures t.udp.Keys == range
    ensures forall p :: p in range ==> (t.udp[p] <==> exists i: nat :: Unclosed(t, i) && p in PortsOf(t.parts[i]))
    ensures forall i: nat, j: nat :: i < j && Unclosed(t, i) && Unclosed(t, j) ==>
              PortsOf(t.parts[i]) !! PortsOf(t.parts[j])
  {
    var hs := Holders(t.parts);
    assert forall i :: 0 <= i < |hs| ==> PP.Owned(hs[i]) == PortsOf(t.parts[i]);
    forall p | p in range ensures t.udp[p] <==> exists i: nat :: Unclosed(t, i) && p in PortsOf(t.parts[i]) {
      if i: nat :| Unclosed(t, i) && p in PortsOf(t.parts[i]) {
        assert p in PP.Owned(hs[i]);
      }
      if i :| 0 <= i < |hs| && p in PP.Owned(hs[i]) {
        assert Unclosed(t, i) && p in PortsOf(t.parts[i]);
      }
    }
    forall i: nat, j: nat | i < j && Unclosed(t, i) && Unclosed(t, j)
      ensures PortsOf(t.parts[i]) !! PortsOf(t.parts[j])
    {
      assert PP.Owned(hs[i]) !! PP.Owned(hs[j]);
    }
  }

  /** Closes of other participants, repeated and late ones included, take no port from a participant: as long as
      it is unclosed it has the ports it had, and they stay allocated. What such a close can take is its
      transcoder (`PartsStayRunningIff`). */
  lemma {:induction false} StaleClosesFreeNothing(
      c: CodecList, range: set<GoInt>, s: Sfu, es: seq<Event>, t: Sfu, j: nat)
    requires Inv(c, range, s) && Run(c, s, es, t) && !t.crashed
    requires j < |s.parts| && Unclosed(t, j)
    ensures t.parts[j].ports == s.parts[j].ports && t.parts[j].sdp == s.parts[j].sdp
    ensures forall p :: p in PortsOf(s.parts[j]) ==> p in t.udp && t.udp[p]
    decreases |es|
  {
    if es == [] {
      OwnersAreUnclosed(c, range, s);
      forall p | p in PortsOf(s.parts[j]) ensures p in s.udp && s.udp[p] {
        assert p in PP.Owned(Holders(s.parts)[j]);
      }
    } else {
      var s' := Apply(c, s, es[0]);
      PartsAfter(c, s, es[0]);
      NotCrashingNow(c, s, es, t);
      EventKeepsInv(c, range, s, es[0]);
      StaleClosesFreeNothing(c, range, s', es[1..], t, j);
      assert s'.parts[j].ports.Made?;
    }
  }

  // ---- Capacity ----

  function CountUnclosed(parts: seq<Part>): nat {
    if parts == [] then 0
    else CountUnclosed(parts[..|parts| - 1]) + if parts[|parts| - 1].ports.Made? then 1 else 0
  }

  lemma {:induction false} SameCount(parts: seq<Part>)
    ensures PP.Unclosed(Holders(parts)) == CountUnclosed(parts)
  {
    if parts != [] {
      var n := |parts| - 1;
      SameCount(parts[..n]);
      assert Holders(parts)[..n] == Holders(parts[..n]);
    }
  }

  /** Between handlers the ports in use are exactly one per codec for every unclosed participant. */
  lemma Capacity(c: CodecList, range: set<GoInt>, t: Sfu)
    requires Inv(c, range, t)
    ensures |Free(t.udp)| + CountUnclosed(t.parts) * |Needs(c)| == |range|
  {
    var hs := Holders(t.parts);
    PP.Capacity(Needs(c), range, View(t));
    SameCount(t.parts);
    assert PP.PairwiseDisjoint(hs);
    PP.ExactShare(Needs(c), hs);
  }

  /** The next start finds its ports iff one participant's worth of them is free. */
  lemma StartPossible(c: CodecList, udp: PortMap)
    ensures (exists ports :: Allocation(c, udp, ports)) <==> |Needs(c)| <= |Free(udp)|
  {
    if |Needs(c)| <= |Free(udp)| {
      var ports := Choose(Needs(c), Free(udp));
      assert Allocation(c, udp, ports);
    }
    forall ports | Allocation(c, udp, ports) ensures |Needs(c)| <= |Free(udp)| {
      InjectiveSize(ports);
      SubsetSize(ports.Values, Free(udp));
    }
  }

  lemma {:induction false} Choose(keys: set<nat>, free: set<GoInt>) returns (m: map<nat, GoInt>)
    requires |keys| <= |free|
    ensures m.Keys == keys && Injective(m) && m.Values <= free
    decreases |keys|
  {
    if keys == {} {
      m := map[];
    } else {
      var k :| k in keys;
      var p :| p in free;
      var rest := Choose(keys - {k}, free - {p});
      AddEntry(rest, k, p);
      m := rest[k := p];
    }
  }

  /** In numbers: with `n` unclosed participants the next start is possible iff `n + 1` fit. */
  lemma RoomForOneMore(c: CodecList, range: set<GoInt>, t: Sfu)
    requires Inv(c, range, t)
    ensures (exists ports :: Allocation(c, t.udp, ports)) <==>
            (CountUnclosed(t.parts) + 1) * |Needs(c)| <= |range|
  {
    Capacity(c, range, t);
    StartPossible(c, t.udp);
    PP.OneMore(CountUnclosed(t.parts), |Needs(c)|);
  }

  // ---- Rooms ----

  /** Closing a room always finds the participant to close: the room's error branch is dead code. */
  lemma RoomsAreOccupied(c: CodecList, range: set<GoInt>, s: Sfu, es: seq<Event>, t: Sfu, u: User)
    requires Initial(range, s) && Run(c, s, es, t) && !t.crashed && u in t.rooms
    ensures t.rooms[u].Keys == {u} && t.rooms[u][u] < |t.parts| && t.parts[t.rooms[u][u]].user == u
    ensures !Unclosed(CloseRoom(t, u, true), t.rooms[u][u])
  {
    InitialInv(c, range, s);
    RunKeepsInv(c, range, s, es, t);
    assert RoomOk(t, u);
  }

  /** After a user's session is closed, whatever of theirs still holds ports was displaced by a later join. */
  lemma OnlyDisplacedLeak(c: CodecList, range: set<GoInt>, s: Sfu, es: seq<Event>, t: Sfu, i: nat)
    requires Initial(range, s) && Run(c, s, es, t) && !t.crashed
    requires Unclosed(t, i) && t.parts[i].user !in t.rooms
    ensures Displaced(t, i)
  {
    InitialInv(c, range, s);
    RunKeepsInv(c, range, s, es, t);
    assert Current(t, i) || Displaced(t, i);
  }

  /** A user's participants that hold ports. */
  predicate Holds(s: Sfu, u: User, i: nat) { Unclosed(s, i) && s.parts[i].user == u }

  /** Closing a session leaves a participant of the user holding ports iff one other than the room's held some
      before. */
  lemma LeakIff(c: CodecList, range: set<GoInt>, s: Sfu, u: User, stopSent: bool, written: bool)
    requires Inv(c, range, s) && u in s.rooms && Enabled(c, s, Closes(u, stopSent, written))
    ensures u in s.rooms[u]
    ensures (exists i :: Holds(Apply(c, s, Closes(u, stopSent, written)), u, i)) <==>
            (exists i :: i != s.rooms[u][u] && Holds(s, u, i))
  {
    assert RoomOk(s, u);
    var host, t := s.rooms[u][u], Apply(c, s, Closes(u, stopSent, written));
    OnePartCloses(c, s, u, stopSent, written);
    forall i: nat ensures Holds(t, u, i) <==> i != host && Holds(s, u, i) {
    }
  }

  lemma OnePartCloses(c: CodecList, s: Sfu, u: User, stopSent: bool, written: bool)
    requires u in s.rooms && RoomOk(s, u) && Enabled(c, s, Closes(u, stopSent, written))
    ensures var host := s.rooms[u][u];
      Apply(c, s, Closes(u, stopSent, written)).parts == s.parts[host := s.parts[host].(ports := Nil, tracks := Nil)]
  {
  }

  /** It happens: a join, a second join and a close leave the first participant with its ports and no room
      to close it through. */
  lemma RejoinLeaks(
      c: CodecList, range: set<GoInt>, s: Sfu, u: User, first: map<nat, GoInt>, second: map<nat, GoInt>)
    requires Initial(range, s) && Allocation(c, s.udp, first)
    requires Allocation(c, Joined(c, s, u, first, true).udp, second)
    ensures exists t ::
      && Run(c, s, [Starts(u, first, true, true, true), Starts(u, second, true, true, true), Closes(u, true, true)], t)
      && Holds(t, u, 0) && u !in t.rooms
  {
    var once := Joined(c, s, u, first, true);
    var twice := Joined(c, once, u, second, true);
    var t := Apply(c, twice, Closes(u, true, true));
    RunThree(c, s, Starts(u, first, true, true, true), Starts(u, second, true, true, true), Closes(u, true, true));
    assert twice.rooms[u][u] == 1;
    assert t.parts[0] == twice.parts[0] == once.parts[0];
    assert Holds(t, u, 0);
  }

  lemma RunTwo(c: CodecList, s: Sfu, a: Event, b: Event)
    requires Enabled(c, s, a) && Enabled(c, Apply(c, s, a), b)
    ensures Run(c, s, [a, b], Apply(c, Apply(c, s, a), b))
  {
    assert [a, b][1..] == [b] && [b][1..] == [];
    assert Run(c, Apply(c, Apply(c, s, a), b), [], Apply(c, Apply(c, s, a), b));
    assert Run(c, Apply(c, s, a), [b], Apply(c, Apply(c, s, a), b));
  }

  lemma RunThree(c: CodecList, s: Sfu, a: Event, b: Event, d: Event)
    requires Enabled(c, s, a) && Enabled(c, Apply(c, s, a), b) && Enabled(c, Apply(c, Apply(c, s, a), b), d)
    ensures Run(c, s, [a, b, d], Apply(c, Apply(c, Apply(c, s, a), b), d))
  {
    RunTwo(c, Apply(c, s, a), b, d);
    assert [a, b, d][1..] == [b, d];
  }

  /** Every unclosed participant advertises one line per enabled codec with exactly its ports, and its
      tracks go to the advertised ports. */
  lemma AdvertisedPortsAreUsed(
      c: CodecList, range: set<GoInt>, s: Sfu, es: seq<Event>, t: Sfu, i: nat, id: string, k: nat)
    requires Initial(range, s) && Run(c, s, es, t) && !t.crashed
    requires Unclosed(t, i) && t.parts[i].tracks.Made? && id in t.parts[i].tracks.entries && k < |t.parts[i].sdp|
    requires t.parts[i].sdp[k].payloadType == t.parts[i].tracks.entries[id].payloadType
    ensures |t.parts[i].sdp| == |Needs(c)| && Describes(c, t.parts[i].sdp, t.parts[i].ports.entries)
    ensures t.parts[i].tracks.entries[id].port == t.parts[i].sdp[k].port
    ensures t.parts[i].sdp[k].port in range && t.parts[i].sdp[k].port in t.udp && t.udp[t.parts[i].sdp[k].port]
  {
    InitialInv(c, range, s);
    RunKeepsInv(c, range, s, es, t);
    var p := t.parts[i];
    assert PartOk(c, p);
    assert |p.ports.entries| == |p.ports.entries.Keys|;
    OwnersAreUnclosed(c, range, t);
    assert p.sdp[k].port in PortsOf(p);
    assert p.sdp[k].port in PP.Owned(Holders(t.parts)[i]);
  }

  /** Over every run under a configuration, the description of an unclosed participant has exactly one line per
      enabled codec, with that codec's parameters and the port held for it. */
  lemma DescriptionsOverRuns(config: Config, range: set<GoInt>, s: Sfu, es: seq<Event>, t: Sfu, i: nat)
    requires Initial(range, s) && Run(CodecsFor(config), s, es, t) && !t.crashed && Unclosed(t, i)
    ensures Exact(config, t.parts[i].sdp, t.parts[i].ports.entries)
  {
    InitialInv(CodecsFor(config), range, s);
    RunKeepsInv(CodecsFor(config), range, s, es, t);
    assert PartOk(CodecsFor(config), t.parts[i]);
    DescriptionIsExact(config, t.parts[i].sdp, t.parts[i].ports.entries);
  }

  // ---- Session rows ----

  /** The run keeps one row per user, ties media type to broadcasting and broadcasting to being online, and
      gives every room an online row. */
  lemma RowsOverRuns(c: CodecList, range: set<GoInt>, s: Sfu, es: seq<Event>, t: Sfu)
    requires Initial(range, s) && Run(c, s, es, t) && !t.crashed
    ensures Rows.RowsOk(t.table)
    ensures forall u :: u in t.rooms ==> Rows.IsOnline(t.table, u)
  {
    InitialInv(c, range, s);
    RunKeepsInv(c, range, s, es, t);
  }

  /** Every broadcasting user has a room. */
  ghost predicate OnAirHaveRooms(s: Sfu) {
    forall u :: Rows.Broadcasts(s.table, u) ==> u in s.rooms
  }

  /** Closing a session leaves a broadcasting row without a room iff the row could not be written and was
      broadcasting. */
  lemma OrphanIff(c: CodecList, s: Sfu, u: User, stopSent: bool, written: bool)
    requires Enabled(c, s, Closes(u, stopSent, written)) && Rows.RowsOk(s.table) && u in s.rooms
    ensures var t := Apply(c, s, Closes(u, stopSent, written));
      (Rows.Broadcasts(t.table, u) && u !in t.rooms) <==> (!written && Rows.Broadcasts(s.table, u))
  {
    TableAfter(c, s, Closes(u, stopSent, written));
    if written { Rows.ChangeMeaning(s.table, Rows.SetOffline, u, u); }
  }

  /** It happens: a user who is on the air leaves, and the update of the row fails. */
  lemma FailedUpdateOrphans(c: CodecList, range: set<GoInt>, s: Sfu, u: User, ports: map<nat, GoInt>)
    requires Initial(range, s) && Allocation(c, s.udp, ports)
    ensures exists t ::
      && Run(c, s, [Starts(u, ports, true, true, true), Publishes(u, true), Closes(u, true, false)], t)
      && Rows.Broadcasts(t.table, u) && u !in t.rooms
  {
    var join, publish, close := Starts(u, ports, true, true, true), Publishes(u, true), Closes(u, true, false);
    var joined := Apply(c, s, join);
    var onAir := Apply(c, joined, publish);
    TableAfter(c, s, join);
    TableAfter(c, joined, publish);
    Rows.ChangeMeaning(s.table, Rows.Save, u, u);
    Rows.ChangeKeepsRowsOk(s.table, Rows.Save, u);
    Rows.ChangeMeaning(joined.table, Rows.StartPublish, u, u);
    Rows.ChangeKeepsRowsOk(joined.table, Rows.StartPublish, u);
    RunThree(c, s, join, publish, close);
    OrphanIff(c, onAir, u, true, false);
  }

  lemma EventKeepsOnAir(c: CodecList, s: Sfu, e: Event)
    requires Enabled(c, s, e) && Rows.RowsOk(s.table) && OnAirHaveRooms(s)
    requires e.Closes? ==> e.rowWritten
    ensures OnAirHaveRooms(Apply(c, s, e))
  {
    var t := Apply(c, s, e);
    TableAfter(c, s, e);
    RoomsAfter(c, s, e);
    var change := RowChange(s, e);
    forall u | Rows.Broadcasts(t.table, u) ensures u in t.rooms {
      if change.Some? { Rows.ChangeMeaning(s.table, change.value.0, change.value.1, u); }
      if Rows.Broadcasts(s.table, u) { assert u in s.rooms; }
    }
  }

  lemma {:induction false} OnAirPersists(
      c: CodecList, range: set<GoInt>, s: Sfu, es: seq<Event>, t: Sfu)
    requires Inv(c, range, s) && OnAirHaveRooms(s) && Run(c, s, es, t) && !t.crashed
    requires forall e :: e in es && e.Closes? ==> e.rowWritten
    ensures OnAirHaveRooms(t)
    decreases |es|
  {
    if es != [] {
      EventKeepsOnAir(c, s, es[0]);
      NotCrashingNow(c, s, es, t);
      EventKeepsInv(c, range, s, es[0]);
      OnAirPersists(c, range, Apply(c, s, es[0]), es[1..], t);
    }
  }

  /** From a table with no broadcasting row, while no row update at a close has failed, every broadcasting row
      has a room. */
  lemma BroadcastsHaveRooms(c: CodecList, range: set<GoInt>, s: Sfu, es: seq<Event>, t: Sfu)
    requires Initial(range, s) && Run(c, s, es, t) && !t.crashed
    requires forall i :: 0 <= i < |s.table.rows| ==> s.table.rows[i].state != Rows.SingleBroadcast
    requires forall e :: e in es && e.Closes? ==> e.rowWritten
    ensures OnAirHaveRooms(t)
  {
    InitialInv(c, range, s);
    OnAirPersists(c, range, s, es, t);
  }

  // ---- The transcoder messages ----

  /** The last message sent about a user. */
  function LastAbout(bus: seq<BusMsg>, u: User): Option<BusMsg> {
    if bus == [] then None
    else if bus[|bus| - 1].user == u then Some(bus[|bus| - 1])
    else LastAbout(bus[..|bus| - 1], u)
  }

  /** A start for a user never follows a start for the same user without a stop in between. */
  predicate Alternates(bus: seq<BusMsg>) {
    forall n :: 0 <= n < |bus| ==> StartFits(bus, n)
  }

  predicate StartFits(bus: seq<BusMsg>, n: nat)
    requires n < |bus|
  {
    bus[n].StartTranscoder? ==> !Running(bus[..n], bus[n].user)
  }

  predicate Running(bus: seq<BusMsg>, u: User) {
    LastAbout(bus, u).Some? && LastAbout(bus, u).value.StartTranscoder?
  }

  lemma AppendMessage(bus: seq<BusMsg>, m: BusMsg)
    ensures forall u :: LastAbout(bus + [m], u) == if m.user == u then Some(m) else LastAbout(bus, u)
    ensures Alternates(bus + [m]) <==> Alternates(bus) && !(m.StartTranscoder? && Running(bus, m.user))
  {
    var longer := bus + [m];
    assert longer[..|longer| - 1] == bus;
    assert StartFits(longer, |bus|) <==> !(m.StartTranscoder? && Running(bus, m.user));
    forall n | 0 <= n < |bus| ensures StartFits(longer, n) <==> StartFits(bus, n) {
      assert longer[..n] == bus[..n];
    }
  }

  // ---- The exact condition for alternation ----

  /** A join starts a transcoder that no earlier start is still waiting to have stopped. */
  predicate JoinAfterStop(s: Sfu, e: Event) { e.Starts? ==> !Running(s.bus, e.user) }

  ghost predicate JoinsAfterStops(c: CodecList, s: Sfu, es: seq<Event>)
    decreases |es|
  {
    es != [] && Enabled(c, s, es[0]) ==> JoinAfterStop(s, es[0]) && JoinsAfterStops(c, Apply(c, s, es[0]), es[1..])
  }

  function StopIf(sent: bool, u: User): seq<BusMsg> { if sent then [StopTranscoder(u)] else [] }

  /** The messages of one event: a start at a join, a stop at each close whose message gets out. */
  function Messages(c: CodecList, s: Sfu, e: Event): seq<BusMsg>
    requires Enabled(c, s, e)
  {
    match e
    case Starts(u, ports, audioFirst, announced, stopSent) =>
      [StartTranscoder(u, Joined(c, s, u, ports, audioFirst).parts[|s.parts|].sdp)] +
      StopIf(!announced && stopSent, u)
    case Closes(u, stopSent, _) =>
      if u in RoomOf(s, u) && RoomOf(s, u)[u] < |s.parts| then StopIf(stopSent, s.parts[RoomOf(s, u)[u]].user) else []
    case StopPublished(i, sent) => StopIf(sent, s.parts[i].user)
    case _ => []
  }

  lemma MessagesSent(c: CodecList, s: Sfu, e: Event)
    requires Enabled(c, s, e)
    ensures Apply(c, s, e).bus == s.bus + Messages(c, s, e)
  {
    match e {
      case Starts(u, ports, audioFirst, announced, stopSent) =>
        var joined := Joined(c, s, u, ports, audioFirst);
        var start := [StartTranscoder(u, joined.parts[|s.parts|].sdp)];
        assert joined.bus == s.bus + start;
        Regroup(s.bus, start, StopIf(!announced && stopSent, u));
      case _ =>
    }
  }

  lemma Regroup(a: seq<BusMsg>, b: seq<BusMsg>, c: seq<BusMsg>)
    ensures (a + b) + c == a + (b + c) && a + [] == a
  {
  }

  lemma AppendStop(bus: seq<BusMsg>, sent: bool, u: User)
    ensures Alternates(bus + StopIf(sent, u)) <==> Alternates(bus)
    ensures forall v :: Running(bus + StopIf(sent, u), v) <==> Running(bus, v) && !(sent && v == u)
  {
    if sent { AppendMessage(bus, StopTranscoder(u)); } else { assert bus + [] == bus; }
  }

  /** What one event's messages do to the alternation and to the users whose last message is a start. */
  lemma EventAlternates(c: CodecList, s: Sfu, e: Event)
    requires Enabled(c, s, e) && Alternates(s.bus)
    ensures Alternates(Apply(c, s, e).bus) <==> JoinAfterStop(s, e)
  {
    MessagesSent(c, s, e);
    match e {
      case Starts(u, ports, audioFirst, announced, stopSent) =>
        var start := Messages(c, s, e)[0];
        AppendMessage(s.bus, start);
        AppendStop(s.bus + [start], !announced && stopSent, u);
        Regroup(s.bus, [start], StopIf(!announced && stopSent, u));
      case Closes(u, stopSent, _) =>
        if Messages(c, s, e) != [] { AppendStop(s.bus, stopSent, s.parts[RoomOf(s, u)[u]].user); }
        Regroup(s.bus, [], []);
      case StopPublished(i, sent) => AppendStop(s.bus, sent, s.parts[i].user);
      case _ => Regroup(s.bus, [], []);
    }
  }

  /** After an event a user's last message is a start iff it was one before or is now, and no stop followed. */
  lemma RunningAfter(c: CodecList, s: Sfu, e: Event, u: User)
    requires Enabled(c, s, e)
    ensures Running(Apply(c, s, e).bus, u) <==>
      (Running(s.bus, u) || (e.Starts? && e.user == u)) && StopTranscoder(u) !in Messages(c, s, e)
  {
    MessagesSent(c, s, e);
    match e {
      case Starts(v, _, _, announced, stopSent) => AppendStart(s.bus, Messages(c, s, e)[0], !announced && stopSent);
      case Closes(v, stopSent, _) =>
        if Messages(c, s, e) != [] { AppendStop(s.bus, stopSent, s.parts[RoomOf(s, v)[v]].user); }
        Regroup(s.bus, [], []);
      case StopPublished(i, sent) => AppendStop(s.bus, sent, s.parts[i].user);
      case _ => Regroup(s.bus, [], []);
    }
  }

  lemma AppendStart(bus: seq<BusMsg>, start: BusMsg, stopped: bool)
    requires start.StartTranscoder?
    ensures forall u :: Running(bus + ([start] + StopIf(stopped, start.user)), u) <==>
      (Running(bus, u) || start.user == u) && StopTranscoder(u) !in [start] + StopIf(stopped, start.user)
  {
    AppendMessage(bus, start);
    AppendStop(bus + [start], stopped, start.user);
    Regroup(bus, [start], StopIf(stopped, start.user));
  }

  lemma {:induction false} MessagesStay(c: CodecList, s: Sfu, es: seq<Event>, t: Sfu)
    requires Run(c, s, es, t)
    ensures s.bus <= t.bus
    decreases |es|
  {
    if es != [] {
      MessagesSent(c, s, es[0]);
      MessagesStay(c, Apply(c, s, es[0]), es[1..], t);
    }
  }

  lemma AlternatesPrefix(short: seq<BusMsg>, long: seq<BusMsg>)
    requires short <= long && Alternates(long)
    ensures Alternates(short)
  {
    forall n | 0 <= n < |short| ensures StartFits(short, n) {
      assert StartFits(long, n) && long[n] == short[n] && long[..n] == short[..n];
    }
  }

  /** Over every run, the messages alternate iff no user joins while their last message is a start: the stop of
      every earlier start has been published, not merely its ports released. */
  lemma {:induction false} AlternationIff(c: CodecList, s: Sfu, es: seq<Event>, t: Sfu)
    requires Run(c, s, es, t) && Alternates(s.bus)
    ensures Alternates(t.bus) <==> JoinsAfterStops(c, s, es)
    decreases |es|
  {
    if es != [] {
      var s' := Apply(c, s, es[0]);
      EventAlternates(c, s, es[0]);
      if JoinAfterStop(s, es[0]) {
        AlternationIff(c, s', es[1..], t);
      } else {
        MessagesStay(c, s', es[1..], t);
        if Alternates(t.bus) { AlternatesPrefix(s'.bus, t.bus); }
      }
    }
  }

  // ---- A discipline that meets it ----

  /** A participant of the user still holds ports, or has released them and not yet published its stop. */
  predicate HasOpen(s: Sfu, u: User) {
    exists i :: 0 <= i < |s.parts| && s.parts[i].user == u && (s.parts[i].ports.Made? || i in s.stopping)
  }

  /** No close loses its stop message, and nobody joins while a participant of theirs is open. */
  predicate Polite(s: Sfu, e: Event) {
    match e
    case Starts(u, _, _, announced, stopSent) => !HasOpen(s, u) && (announced || stopSent)
    case Closes(_, stopSent, _) => stopSent
    case StopPublished(_, sent) => sent
    case _ => true
  }

  ghost predicate PoliteRun(c: CodecList, s: Sfu, es: seq<Event>)
    decreases |es|
  {
    es != [] && Enabled(c, s, es[0]) ==> Polite(s, es[0]) && PoliteRun(c, Apply(c, s, es[0]), es[1..])
  }

  /** A user whose last message was a start has an open participant. */
  ghost predicate RunningHaveParts(s: Sfu) {
    forall u :: Running(s.bus, u) ==> HasOpen(s, u)
  }

  lemma StillOpen(s: Sfu, t: Sfu, u: User)
    requires HasOpen(s, u) && |s.parts| <= |t.parts|
    requires forall i :: 0 <= i < |s.parts| && s.parts[i].user == u ==>
      t.parts[i].user == u && (s.parts[i].ports.Made? || i in s.stopping ==> t.parts[i].ports.Made? || i in t.stopping)
    ensures HasOpen(t, u)
  {
    var i :| 0 <= i < |s.parts| && s.parts[i].user == u && (s.parts[i].ports.Made? || i in s.stopping);
    assert t.parts[i].user == u;
  }

  /** An event that shuts a user's participant sends that user's stop. */
  lemma ShutUsersAreStopped(c: CodecList, s: Sfu, e: Event, u: User)
    requires Enabled(c, s, e) && Polite(s, e) && HasOpen(s, u)
    ensures HasOpen(Apply(c, s, e), u) || !Running(Apply(c, s, e).bus, u)
  {
    var t := Apply(c, s, e);
    if e.StopPublished? {
      AppendMessage(s.bus, StopTranscoder(s.parts[e.who].user));
      if s.parts[e.who].user != u { StillOpen(s, t, u); }
    } else if e.Closes? {
      if e.user in s.rooms && e.user in RoomOf(s, e.user) && RoomOf(s, e.user)[e.user] < |s.parts| {
        var host := RoomOf(s, e.user)[e.user];
        AppendMessage(s.bus, StopTranscoder(s.parts[host].user));
        if s.parts[host].user != u { StillOpen(s, t, u); }
      } else {
        StillOpen(s, t, u);
      }
    } else {
      PartsAfter(c, s, e);
      StillOpen(s, t, u);
    }
  }

  lemma StartsOpen(c: CodecList, s: Sfu, e: Event, u: User)
    requires Enabled(c, s, e) && Polite(s, e) && Running(Apply(c, s, e).bus, u) && !Running(s.bus, u)
    ensures HasOpen(Apply(c, s, e), u)
  {
    var t := Apply(c, s, e);
    RunningAfter(c, s, e, u);
    assert t.parts[|s.parts|].user == u && t.parts[|s.parts|].ports.Made?;
  }

  lemma PoliteKeepsParts(c: CodecList, s: Sfu, e: Event)
    requires Enabled(c, s, e) && Polite(s, e) && RunningHaveParts(s)
    ensures RunningHaveParts(Apply(c, s, e)) && JoinAfterStop(s, e)
  {
    forall u | Running(Apply(c, s, e).bus, u) ensures HasOpen(Apply(c, s, e), u) {
      if Running(s.bus, u) {
        ShutUsersAreStopped(c, s, e, u);
      } else {
        StartsOpen(c, s, e, u);
      }
    }
  }

  lemma {:induction false} PoliteRunsJoinAfterStops(c: CodecList, s: Sfu, es: seq<Event>, t: Sfu)
    requires Run(c, s, es, t) && PoliteRun(c, s, es) && RunningHaveParts(s)
    ensures JoinsAfterStops(c, s, es) && RunningHaveParts(t)
    decreases |es|
  {
    if es != [] {
      PoliteKeepsParts(c, s, es[0]);
      PoliteRunsJoinAfterStops(c, Apply(c, s, es[0]), es[1..], t);
    }
  }

  /** If users join only when none of their participants is open, and no stop message is lost, the transcoder
      daemons see a stop between any two starts of a user, and a user whose last message is a start has an open
      participant. */
  lemma StartsAndStopsAlternate(c: CodecList, s: Sfu, es: seq<Event>, t: Sfu)
    requires s.bus == [] && Run(c, s, es, t) && PoliteRun(c, s, es)
    ensures Alternates(t.bus) && RunningHaveParts(t)
  {
    PoliteRunsJoinAfterStops(c, s, es, t);
    AlternationIff(c, s, es, t);
  }

  // ---- The other direction: open participants and running transcoders ----

  /** Every user with an unclosed participant has a start as last message. */
  ghost predicate PartsAreRunning(s: Sfu) {
    forall i: nat :: Unclosed(s, i) ==> Running(s.bus, s.parts[i].user)
  }

  /** The event publishes no stop for a user who still has an unclosed participant after it. */
  ghost predicate SparesHolders(c: CodecList, s: Sfu, e: Event)
    requires Enabled(c, s, e)
  {
    forall i: nat :: Unclosed(Apply(c, s, e), i) ==>
      StopTranscoder(Apply(c, s, e).parts[i].user) !in Messages(c, s, e)
  }

  lemma UnclosedBefore(c: CodecList, s: Sfu, e: Event, i: nat)
    requires Enabled(c, s, e) && Unclosed(Apply(c, s, e), i)
    ensures var u := Apply(c, s, e).parts[i].user;
            (Unclosed(s, i) && s.parts[i].user == u) || (e.Starts? && e.user == u)
  {
    PartsAfter(c, s, e);
    RoomsAfter(c, s, e);
  }

  /** A user with an unclosed participant has a running transcoder after an event, given that all of them had
      before it, iff the event publishes no stop for such a user. A late close of a displaced or already closed
      participant does publish one. */
  lemma PartsStayRunningIff(c: CodecList, s: Sfu, e: Event)
    requires Enabled(c, s, e) && PartsAreRunning(s)
    ensures PartsAreRunning(Apply(c, s, e)) <==> SparesHolders(c, s, e)
  {
    var t := Apply(c, s, e);
    forall i: nat | Unclosed(t, i)
      ensures Running(t.bus, t.parts[i].user) <==> StopTranscoder(t.parts[i].user) !in Messages(c, s, e)
    {
      UnclosedBefore(c, s, e, i);
      RunningAfter(c, s, e, t.parts[i].user);
    }
  }

  ghost predicate AlwaysRunning(c: CodecList, s: Sfu, es: seq<Event>)
    decreases |es|
  {
    PartsAreRunning(s) && (es != [] && Enabled(c, s, es[0]) ==> AlwaysRunning(c, Apply(c, s, es[0]), es[1..]))
  }

  ghost predicate StopsSpareHolders(c: CodecList, s: Sfu, es: seq<Event>)
    decreases |es|
  {
    es != [] && Enabled(c, s, es[0]) ==>
      SparesHolders(c, s, es[0]) && StopsSpareHolders(c, Apply(c, s, es[0]), es[1..])
  }

  /** Over every run: in each of its states the users with unclosed participants are running iff no stop along
      the run is for such a user. */
  lemma {:induction false} AlwaysRunningIff(c: CodecList, s: Sfu, es: seq<Event>, t: Sfu)
    requires Run(c, s, es, t) && PartsAreRunning(s)
    ensures AlwaysRunning(c, s, es) <==> StopsSpareHolders(c, s, es)
    ensures AlwaysRunning(c, s, es) ==> PartsAreRunning(t)
    decreases |es|
  {
    if es != [] {
      var s' := Apply(c, s, es[0]);
      PartsStayRunningIff(c, s, es[0]);
      if SparesHolders(c, s, es[0]) {
        AlwaysRunningIff(c, s', es[1..], t);
      }
    }
  }

  /** A late close can fail it even in a polite run: the connection of a participant whose session was closed
      fails, and its stop ends the transcoder of the session that followed. */
  lemma LateStopEndsTranscoder(
      c: CodecList, range: set<GoInt>, s: Sfu, u: User, first: map<nat, GoInt>, second: map<nat, GoInt>)
    requires Initial(range, s) && Allocation(c, s.udp, first)
    requires Allocation(c, CloseAt(Joined(c, s, u, first, true), 0, true).udp, second)
    ensures var es := [Starts(u, first, true, true, true)] + LateStop(u, second);
            PoliteRun(c, s, es) && exists t :: Run(c, s, es, t) && Holds(t, u, 1) && !Running(t.bus, u)
  {
    var join := Starts(u, first, true, true, true);
    var joined := Joined(c, s, u, first, true);
    assert !HasOpen(s, u) && joined == Apply(c, s, join);
    var t := LeaveAndReturn(c, joined, u, second);
    Prepend(c, s, join, LateStop(u, second), t);
  }

  function LateStop(u: User, second: map<nat, GoInt>): seq<Event> {
    [Closes(u, true, true), Starts(u, second, true, true, true), ConnectionFails(0), StopPublished(0, true)]
  }

  lemma LeaveAndReturn(c: CodecList, s: Sfu, u: User, second: map<nat, GoInt>) returns (t: Sfu)
    requires !s.crashed && s.stopping == {} && |s.parts| == 1 && u in RoomOf(s, u) && RoomOf(s, u)[u] == 0
    requires s.parts[0].user == u && Allocation(c, CloseAt(s, 0, true).udp, second)
    ensures Run(c, s, LateStop(u, second), t) && PoliteRun(c, s, LateStop(u, second))
    ensures Holds(t, u, 1) && !Running(t.bus, u)
  {
    var close, join := Closes(u, true, true), Starts(u, second, true, true, true);
    LeaveState(c, s, u);
    var left := Apply(c, s, close);
    t := LateClose(c, Joined(c, left, u, second, true), 0, 1);
    Prepend(c, left, join, [ConnectionFails(0), StopPublished(0, true)], t);
    Prepend(c, s, close, [join] + [ConnectionFails(0), StopPublished(0, true)], t);
    FourEvents(close, join, ConnectionFails(0), StopPublished(0, true));
  }

  lemma FourEvents(a: Event, b: Event, d: Event, e: Event)
    ensures [a] + ([b] + [d, e]) == [a, b, d, e]
  {
  }

  lemma LeaveState(c: CodecList, s: Sfu, u: User)
    requires !s.crashed && s.stopping == {} && |s.parts| == 1 && u in RoomOf(s, u) && RoomOf(s, u)[u] == 0
    ensures var t := Apply(c, s, Closes(u, true, true));
      && |t.parts| == 1 && t.parts[0] == s.parts[0].(ports := Nil, tracks := Nil) && !HasOpen(t, u)
      && t.stopping == {} && !t.crashed && t.udp == CloseAt(s, 0, true).udp
  {
  }

  /** A close of a participant without ports, whose user has another one. */
  lemma LateClose(c: CodecList, s: Sfu, i: nat, j: nat) returns (t: Sfu)
    requires !s.crashed && s.stopping == {} && i < |s.parts| && i != j && Holds(s, s.parts[i].user, j)
    ensures var es := [ConnectionFails(i), StopPublished(i, true)]; Run(c, s, es, t) && PoliteRun(c, s, es)
    ensures Holds(t, s.parts[i].user, j) && !Running(t.bus, s.parts[i].user)
  {
    var fails, stop := ConnectionFails(i), StopPublished(i, true);
    var failed := Released(s, i);
    t := Stopped(failed, i, true);
    AppendMessage(s.bus, StopTranscoder(s.parts[i].user));
    RunTwo(c, s, fails, stop);
    assert [fails, stop][1..] == [stop] && [stop][1..] == [];
    assert PoliteRun(c, t, []);
    assert PoliteRun(c, failed, [stop]);
  }

  lemma Prepend(c: CodecList, s: Sfu, e: Event, es: seq<Event>, t: Sfu)
    requires Enabled(c, s, e) && Run(c, Apply(c, s, e), es, t)
    requires Polite(s, e) && PoliteRun(c, Apply(c, s, e), es)
    ensures Run(c, s, [e] + es, t) && PoliteRun(c, s, [e] + es)
  {
    assert ([e] + es)[1..] == es;
  }

  /** A join while the user's last message is a start breaks the alternation for good. */
  lemma EarlyJoin(c: CodecList, s: Sfu, e: Event)
    requires Enabled(c, s, e) && e.Starts? && Running(s.bus, e.user)
    ensures !JoinsAfterStops(c, s, [e])
  {
  }

  /** A second join is one, before the first participant is closed ... */
  lemma RejoinBreaksAlternation(c: CodecList, s: Sfu, u: User, first: map<nat, GoInt>, second: map<nat, GoInt>)
    requires !s.crashed && s.bus == [] && Allocation(c, s.udp, first)
    requires Allocation(c, Joined(c, s, u, first, true).udp, second)
    ensures var es := [Starts(u, first, true, true, true), Starts(u, second, true, true, true)];
            !JoinsAfterStops(c, s, es) && exists t :: Run(c, s, es, t) && !Alternates(t.bus)
  {
    var a, b := Starts(u, first, true, true, true), Starts(u, second, true, true, true);
    var once := Joined(c, s, u, first, true);
    AppendMessage(s.bus, once.bus[0]);
    EarlyJoin(c, once, b);
    RunTwo(c, s, a, b);
    assert [a, b][1..] == [b];
    AlternationIff(c, s, [a, b], Apply(c, once, b));
  }

  /** ... and between the two halves of its failed connection's close. */
  lemma JoinDuringCloseBreaksAlternation(
      c: CodecList, s: Sfu, u: User, first: map<nat, GoInt>, second: map<nat, GoInt>)
    requires !s.crashed && s.bus == [] && |s.parts| !in s.stopping && Allocation(c, s.udp, first)
    requires Allocation(c, Released(Joined(c, s, u, first, true), |s.parts|).udp, second)
    ensures var es := [Starts(u, first, true, true, true), ConnectionFails(|s.parts|),
                       Starts(u, second, true, true, true)];
            !JoinsAfterStops(c, s, es) && exists t :: Run(c, s, es, t) && !Alternates(t.bus)
  {
    var a, f, b := Starts(u, first, true, true, true), ConnectionFails(|s.parts|), Starts(u, second, true, true, true);
    var once := Joined(c, s, u, first, true);
    var failed := Released(once, |s.parts|);
    AppendMessage(s.bus, once.bus[0]);
    EarlyJoin(c, failed, b);
    RunThree(c, s, a, f, b);
    assert [a, f, b][1..] == [f, b] && [f, b][1..] == [b];
    assert !JoinsAfterStops(c, once, [f, b]);
    AlternationIff(c, s, [a, f, b], Apply(c, failed, b));
  }
}
