// Participants as objects (internal/rtc/participant.go) and the transcoder message bus they write to.
module Participants {
  import opened Common
  import opened Codecs
  import opened CodecTheorems
  import opened Ports
  import opened TranscoderSdp
  import opened Lifecycle
  import opened IceBuffer

  /** The NATS connection: what was published, in order. */
  class Bus {
    var sent: seq<BusMsg>

    constructor ()
      ensures sent == []
    {
      sent := [];
    }

    method Publish(msg: BusMsg, ok: bool)
      modifies this
      ensures sent == old(sent) + if ok then [msg] else []
    {
      if ok {
        sent := sent + [msg];
      }
    }
  }

  datatype Target = Publisher | Receiver

  datatype ConnectionState = Connected | Failed | OtherState

  // ---- The allocation loop, as values ----

  /** What the loop has established after visiting `done`. */
  predicate Progress(before: PortMap, done: seq<Entry>, ports: map<nat, GoInt>, sdp: seq<MediaLine>, udp: PortMap) {
    && Injective(ports)
    && ports.Keys == Payloads(done)
    && ports.Values <= Free(before)
    && udp == Mark(before, ports.Values)
    && sdp == Lines(done, ports)
  }

  lemma ProgressStep(before: PortMap, done: seq<Entry>, ports: map<nat, GoInt>, sdp: seq<MediaLine>, udp: PortMap,
                     e: Entry, port: GoInt)
    requires Progress(before, done, ports, sdp, udp)
    requires e.1.payloadType !in Payloads(done) && port in Free(udp)
    ensures Progress(before, done + [e], ports[e.1.payloadType := port], sdp + [Line(e, port)], udp[port := true])
  {
    var pt := e.1.payloadType;
    NewPort(before, ports.Values, port);
    AddEntry(ports, pt, port);
    PayloadsAppend(done, e);
    var ports' := ports[pt := port];
    assert sdp + [Line(e, port)] == Lines(done + [e], ports') by {
      forall i | 0 <= i < |done| ensures done[i].1.payloadType in ports && done[i].1.payloadType != pt {
        PayloadsMember(done, i);
      }
      assert forall i :: 0 <= i < |done| ==> (done + [e])[i] == done[i];
    }
  }

  lemma NewPort(before: PortMap, taken: set<GoInt>, port: GoInt)
    requires taken <= Free(before) && port in Free(Mark(before, taken))
    ensures port in Free(before) && port !in taken
    ensures Mark(before, taken)[port := true] == Mark(before, taken + {port})
  {
  }

  lemma PayloadsAppend(done: seq<Entry>, e: Entry)
    ensures Payloads(done + [e]) == Payloads(done) + {e.1.payloadType}
  {
    var more := done + [e];
    assert forall x :: x in more <==> x in done || x == e;
    forall p | p in Payloads(done) + {e.1.payloadType} ensures p in Payloads(more) {
      if p in Payloads(done) {
        var x :| x in done && x.1.payloadType == p;
        assert x in more;
      } else {
        assert e in more;
      }
    }
  }

  /** What the environment decides while a participant is built. */
  datatype BuildIO = BuildIO(
    sdpOk: bool, refused: set<nat>, engineOk: bool, audioFirst: bool, marshalOk: bool, sendOk: bool)

  /** The codec cache under one configuration: each part empty or already filled. */
  predicate CacheConsistent(t: Table, config: Config) {
    (t.audio == [] || t.audio == AudioFor(config)) && (t.video == [] || t.video == VideoFor(config))
  }

  predicate CanBuild(config: Config, io: BuildIO, udp: PortMap) {
    && io.sdpOk && AllAccepted(io.refused, AudioFor(config)) && AllAccepted(io.refused, VideoFor(config))
    && io.engineOk && |Needs(CodecsFor(config))| <= |Free(udp)| && io.marshalOk && io.sendOk
  }

  /** In terms of the environment: every stage goes well, the engine takes every enabled codec, and there is a free
      port for each of them. */
  lemma CanBuildIff(config: Config, io: BuildIO, udp: PortMap)
    ensures CanBuild(config, io, udp) <==>
      && io.sdpOk && io.engineOk && io.marshalOk && io.sendOk
      && Needs(CodecsFor(config)) !! io.refused && |Needs(CodecsFor(config))| <= |Free(udp)|
  {
    var c := CodecsFor(config);
    if Needs(c) !! io.refused {
      forall i | 0 <= i < |c.audio| ensures c.audio[i].payloadType !in io.refused {
        Listed(c, Audio, c.audio[i]);
      }
      forall i | 0 <= i < |c.video| ensures c.video[i].payloadType !in io.refused {
        Listed(c, Video, c.video[i]);
      }
    }
    if AllAccepted(io.refused, c.audio) && AllAccepted(io.refused, c.video) {
      forall pt | pt in Needs(c) ensures pt !in io.refused {
        var e :| e in Order(true, c) && e.1.payloadType == pt;
        assert e.1 in c.audio || e.1 in c.video;
      }
    }
  }

  /** The ports a construction took, whether it came to its end or not: none if it failed before its loop, all that
      were free if they were too few, and otherwise one for every codec. Nothing gives them back. */
  predicate LeftBehind(config: Config, io: BuildIO, before: PortMap, after: PortMap, ports: map<nat, GoInt>) {
    var c := CodecsFor(config);
    if !io.sdpOk || !io.engineOk || !AllAccepted(io.refused, c.audio) || !AllAccepted(io.refused, c.video)
    then ports == map[]
    else if |Needs(c)| > |Free(before)| then Free(after) == {}
    else ports.Keys == Needs(c)
  }

  predicate AllDialled(p: Part, dialled: set<string>) { forall id :: id in Entries(p.tracks) ==> id in dialled }

  /** What a close makes of a participant: both maps nil, or a crash that leaves some tracks to be closed. */
  predicate Closing(before: Part, after: Part, dialled: set<string>, crashed: bool) {
    && (crashed <==> !AllDialled(before, dialled))
    && if crashed
       then after.tracks.Made? && LeftOpen(before, after.tracks.entries) && after == before.(tracks := after.tracks)
       else after == before.(ports := Nil, tracks := Nil)
  }

  class Participant {
    const user: User
    const portsAllocator: PortsAllocator
    const nc: Bus
    const publisher: PCTransport
    ghost const index: nat  // how many participants were built before this one
    var publishedTracks: GoMap<string, Track>
    var allocatedPorts: GoMap<nat, GoInt>
    var transcoderSDP: seq<MediaLine>
    var locked: bool  // a close by its own connection has yet to publish its stop

    ghost function Abs(): Part
      reads this
    {
      Part(user, allocatedPorts, publishedTracks, transcoderSDP)
    }

    constructor (ghost index: nat, user: User, portsAllocator: PortsAllocator, nc: Bus)
      ensures Abs() == Part(user, Made(map[]), Made(map[]), [])
      ensures this.index == index && this.portsAllocator == portsAllocator && this.nc == nc && fresh(publisher)
      ensures !locked
    {
      this.index, this.user, this.portsAllocator, this.nc := index, user, portsAllocator, nc;
      locked := false;
      publisher := new PCTransport();
      publishedTracks, allocatedPorts, transcoderSDP := Made(map[]), Made(map[]), [];
    }

    ghost predicate Allocated(before: PortMap, done: seq<Entry>)
      reads this, portsAllocator
    {
      allocatedPorts.Made? && Progress(before, done, allocatedPorts.entries, transcoderSDP, portsAllocator.udpPorts)
    }

    /** One codec: take a port, store it under the payload type, and write its media line. */
    method AllocateOne(kind: Kind, codecParams: CodecParams, ghost before: PortMap, ghost all: seq<Entry>, ghost n: nat)
      returns (ok: bool)
      requires n < |all| && all[n] == (kind, codecParams) && DistinctPayloads(all) && Allocated(before, all[..n])
      modifies this`allocatedPorts, this`transcoderSDP, portsAllocator
      ensures Allocated(before, all[..if ok then n + 1 else n])
      ensures ok ==>
        && |transcoderSDP| == |old(transcoderSDP)| + 1
        && var l := transcoderSDP[|old(transcoderSDP)|];
          && l.media == KindName(kind) && l.payloadType == codecParams.payloadType
          && l.clockRate == codecParams.capability.clockRate && l.channels == codecParams.capability.channels
          && l.fmtpLine == codecParams.capability.fmtpLine
          && allocatedPorts == Made(Entries(old(allocatedPorts))[l.payloadType := l.port])
      ensures !ok ==> Free(portsAllocator.udpPorts) == {}
    {
      ghost var udp := portsAllocator.udpPorts;
      var udpPort, found := portsAllocator.Allocate();
      if !found {
        return false;
      }
      NotYetListed(all, n);
      ProgressStep(before, all[..n], allocatedPorts.entries, transcoderSDP, udp, (kind, codecParams), udpPort);
      allocatedPorts := Made(allocatedPorts.entries[codecParams.payloadType := udpPort]);
      transcoderSDP := transcoderSDP + [Line((kind, codecParams), udpPort)];
      return true;
    }

    /** The inner loop, over the codecs of one kind, which `all` lists from position `from` on. It stops
        early exactly when no port is left. */
    method AllocateFor(
        kind: Kind, codecs: seq<CodecParams>, ghost before: PortMap, ghost all: seq<Entry>, ghost from: nat)
      returns (ok: bool, ghost upto: nat)
      requires from + |codecs| <= |all| && forall i :: 0 <= i < |codecs| ==> all[from + i] == (kind, codecs[i])
      requires DistinctPayloads(all) && Allocated(before, all[..from])
      modifies this`allocatedPorts, this`transcoderSDP, portsAllocator
      ensures upto <= from + |codecs| && Allocated(before, all[..upto])
      ensures ok <==> upto == from + |codecs|
      ensures !ok ==> Free(portsAllocator.udpPorts) == {}
    {
      upto := from;
      for i := 0 to |codecs|
        invariant upto == from + i && Allocated(before, all[..upto])
      {
        ok := AllocateOne(kind, codecs[i], before, all, upto);
        if !ok {
          return;
        }
        upto := upto + 1;
      }
      return true, upto;
    }

    /** Both kinds, in the order the codec table is visited. It succeeds exactly when enough ports are free. */
    method AllocatePorts(codecs: CodecTable, audioFirst: bool, ghost before: PortMap, ghost c: CodecList)
      returns (ok: bool)
      requires codecs.Abs() == c && Abs().(user := "") == Part("", Made(map[]), Made(map[]), [])
      requires portsAllocator.udpPorts == before
      modifies this`allocatedPorts, this`transcoderSDP, portsAllocator
      ensures ok ==> Allocated(before, Order(audioFirst, c))
      ensures !ok ==> allocatedPorts.Made? && allocatedPorts.entries.Values <= Free(before) &&
                      portsAllocator.udpPorts == Mark(before, allocatedPorts.entries.Values)
      ensures ok <==> |Needs(c)| <= |Free(before)|
      ensures if ok then allocatedPorts.entries.Keys == Needs(c) else Free(portsAllocator.udpPorts) == {}
    {
      ghost var all := Order(audioFirst, c);
      var first, second := if audioFirst then Audio else Video, if audioFirst then Video else Audio;
      var firstCodecs, secondCodecs := codecs.Of(first), codecs.Of(second);
      OrderLayout(audioFirst, c, first, firstCodecs, second, secondCodecs);
      LoopStarts(before, all);
      ghost var upto;
      ok, upto := AllocateFor(first, firstCodecs, before, all, 0);
      if ok {
        ok, upto := AllocateFor(second, secondCodecs, before, all, |firstCodecs|);
      }
      EnoughPorts(before, all, upto, allocatedPorts.entries, transcoderSDP, portsAllocator.udpPorts);
      assert all[..|all|] == all;
    }

    method Build(config: Config, codecs: CodecTable, io: BuildIO) returns (ok: bool)
      requires Abs() == Part(user, Made(map[]), Made(map[]), [])
      requires CacheConsistent(codecs.Abs(), config)
      modifies this`allocatedPorts, this`transcoderSDP, codecs, portsAllocator, nc
      ensures CacheConsistent(codecs.Abs(), config)
      ensures ok <==> CanBuild(config, io, old(portsAllocator.udpPorts))
      ensures allocatedPorts.Made? && allocatedPorts.entries.Values <= Free(old(portsAllocator.udpPorts))
      ensures LeftBehind(config, io, old(portsAllocator.udpPorts), portsAllocator.udpPorts, allocatedPorts.entries)
      ensures portsAllocator.udpPorts == Mark(old(portsAllocator.udpPorts), allocatedPorts.entries.Values)
      ensures nc.sent == old(nc.sent) + if ok then [StartTranscoder(user, transcoderSDP)] else []
      ensures ok ==> BuiltPart(CodecsFor(config), old(portsAllocator.udpPorts), Abs(), user,
                               allocatedPorts.entries, io.audioFirst)
    {
      ghost var before := portsAllocator.udpPorts;
      MarkNone(before);
      if !io.sdpOk {
        return false;
      }
      CacheFills(codecs.Abs(), config, io.refused);
      var me := new MediaEngine(io.refused);
      ok := codecs.RegisterCodecs(me, config);
      if !ok || !io.engineOk {
        return false;
      }
      ok := AllocateAndSend(codecs, io, before, CodecsFor(config));
    }

    /** The stages after the codecs are registered: the ports, the description and the message with it. */
    method AllocateAndSend(codecs: CodecTable, io: BuildIO, ghost before: PortMap, ghost c: CodecList)
      returns (ok: bool)
      requires codecs.Abs() == c && Abs() == Part(user, Made(map[]), Made(map[]), [])
      requires portsAllocator.udpPorts == before
      modifies this`allocatedPorts, this`transcoderSDP, portsAllocator, nc
      ensures ok <==> |Needs(c)| <= |Free(before)| && io.marshalOk && io.sendOk
      ensures allocatedPorts.Made? && allocatedPorts.entries.Values <= Free(before)
      ensures if |Needs(c)| <= |Free(before)| then allocatedPorts.entries.Keys == Needs(c)
              else Free(portsAllocator.udpPorts) == {}
      ensures portsAllocator.udpPorts == Mark(before, allocatedPorts.entries.Values)
      ensures nc.sent == old(nc.sent) + if ok then [StartTranscoder(user, transcoderSDP)] else []
      ensures ok ==> BuiltPart(c, before, Abs(), user, allocatedPorts.entries, io.audioFirst)
    {
      ok := AllocatePorts(codecs, io.audioFirst, before, c);
      if !ok || !io.marshalOk {
        return false;
      }
      nc.Publish(StartTranscoder(user, transcoderSDP), io.sendOk);
      ok := io.sendOk;
      FinishedLoop(c, before, Abs(), portsAllocator.udpPorts, io.audioFirst);
    }

    /** Every port goes back to the allocator and both maps become nil; on a closed participant there is
        nothing to give back. The stop message goes out either way. A stored track without a connection stops all
        that with a crash. */
    method Close(stopSent: bool, dialled: set<string>) returns (crashed: bool)
      modifies this`publishedTracks, this`allocatedPorts, portsAllocator, nc
      ensures Closing(old(Abs()), Abs(), dialled, crashed)
      ensures portsAllocator.udpPorts ==
              Release(old(portsAllocator.udpPorts), if crashed then {} else PortsOf(old(Abs())))
      ensures nc.sent == old(nc.sent) + if !crashed && stopSent then [StopTranscoder(user)] else []
      ensures crashed <==> exists id :: id in Entries(old(publishedTracks)) && id !in dialled
      ensures if crashed then allocatedPorts == old(allocatedPorts) else publishedTracks.Nil? && allocatedPorts.Nil?
    {
      crashed := GiveBack(dialled);
      if !crashed {
        PublishStop(stopSent);
      }
    }

    method PublishStop(sent: bool)
      modifies nc
      ensures nc.sent == old(nc.sent) + if sent then [StopTranscoder(user)] else []
    {
      nc.Publish(StopTranscoder(user), sent);
    }

    /** The half of a close that comes before the stop message. */
    method GiveBack(dialled: set<string>) returns (crashed: bool)
      modifies this`publishedTracks, this`allocatedPorts, portsAllocator
      ensures Closing(old(Abs()), Abs(), dialled, crashed)
      ensures portsAllocator.udpPorts ==
              Release(old(portsAllocator.udpPorts), if crashed then {} else PortsOf(old(Abs())))
    {
      crashed := CloseTracks(dialled);
      ReleaseNone(portsAllocator.udpPorts);
      if !crashed {
        ReleasePorts();
        publishedTracks, allocatedPorts := Nil, Nil;
      }
    }

    /** The loop over the stored tracks, in map order: each is closed and taken out. */
    method CloseTracks(dialled: set<string>) returns (crashed: bool)
      modifies this`publishedTracks
      ensures crashed <==> !AllDialled(old(Abs()), dialled)
      ensures crashed <==> exists id :: id in Entries(old(publishedTracks)) && id !in dialled
      ensures publishedTracks.Nil? <==> old(publishedTracks).Nil?
      ensures crashed ==> LeftOpen(old(Abs()), publishedTracks.entries)
    {
      if publishedTracks.Nil? {
        return false;
      }
      ghost var before := publishedTracks.entries;
      while publishedTracks.entries.Keys != {}
        invariant publishedTracks.Made?
        invariant forall id :: id in publishedTracks.entries ==>
          id in before && publishedTracks.entries[id] == before[id]
        invariant forall id :: id in before && id !in publishedTracks.entries ==> id in dialled
        decreases |publishedTracks.entries.Keys|
      {
        var id :| id in publishedTracks.entries;
        if id !in dialled {
          return true;
        }
        ghost var keys := publishedTracks.entries.Keys;
        publishedTracks := Made(publishedTracks.entries - {id});
        assert publishedTracks.entries.Keys == keys - {id};
      }
      return false;
    }

    /** The deallocation loop, in map order. */
    method ReleasePorts()
      modifies portsAllocator
      ensures portsAllocator.udpPorts == Release(old(portsAllocator.udpPorts), PortsOf(Abs()))
    {
      ReleaseNone(portsAllocator.udpPorts);
      if allocatedPorts.Nil? {
        return;
      }
      var entries := allocatedPorts.entries;
      var rest := entries.Keys;
      ghost var before := portsAllocator.udpPorts;
      ghost var freed: set<GoInt> := {};
      while rest != {}
        invariant rest <= entries.Keys && Freed(entries, rest, freed)
        invariant portsAllocator.udpPorts == Release(before, freed)
        decreases |rest|
      {
        var k :| k in rest;
        assert rest == (rest - {k}) + {k};
        rest := rest - {k};
        ReleaseOneMore(before, freed, entries[k]);
        FreedOneMore(entries, rest, freed, k);
        portsAllocator.Deallocate(entries[k]);
        freed := freed + {entries[k]};
      }
    }

    /** A published track is forwarded to the port stored for its payload type. Once the participant is closed
        the write goes to a nil map, which panics. */
    method OnMediaTrack(id: string, payloadType: nat, made: bool) returns (crashed: bool)
      modifies this`publishedTracks
      ensures crashed == (made && old(publishedTracks).Nil?)
      ensures Abs() == if made then WithTrack(old(Abs()), id, payloadType) else old(Abs())
      ensures made && !crashed ==>
        && publishedTracks.Made? && publishedTracks.entries.Keys == old(publishedTracks).entries.Keys + {id}
        && publishedTracks.entries[id].port ==
             (if payloadType in Entries(allocatedPorts) then Entries(allocatedPorts)[payloadType] else 0)
    {
      var ports := Entries(allocatedPorts);
      var port := if payloadType in ports then ports[payloadType] else 0;
      if !made {
        return false;
      }
      if publishedTracks.Nil? {
        return true;
      }
      publishedTracks := Made(publishedTracks.entries[id := Track(payloadType, port)]);
      return false;
    }

    /** Only a failed connection closes the participant. */
    method HandlePrimaryStateChange(state: ConnectionState, stopSent: bool, dialled: set<string>)
      returns (crashed: bool)
      modifies this`publishedTracks, this`allocatedPorts, portsAllocator, nc
      ensures state != Failed ==> !crashed && Abs() == old(Abs()) && nc.sent == old(nc.sent) &&
                                  portsAllocator.udpPorts == old(portsAllocator.udpPorts)
      ensures state == Failed ==>
                && Closing(old(Abs()), Abs(), dialled, crashed)
                && portsAllocator.udpPorts ==
                     Release(old(portsAllocator.udpPorts), if crashed then {} else PortsOf(old(Abs())))
                && nc.sent == old(nc.sent) + if !crashed && stopSent then [StopTranscoder(user)] else []
    {
      crashed := false;
      if state == Failed {
        crashed := Close(stopSent, dialled);
      }
    }

    /** Offers for the publisher set its remote description and are answered; others are only logged.
        `answered` says whether the answer was created, set and sent. */
    method HandleOffer(target: Target, taken: Taken, failAt: nat, answered: bool) returns (ok: bool)
      modifies publisher
      ensures ok <==> target == Publisher ==>
        taken == Accepted && !FlushFails(old(publisher.Abs()), SetDescription(taken, failAt)) && answered
      ensures publisher.Abs() ==
              if target == Publisher then Perform(old(publisher.Abs()), SetDescription(taken, failAt))
              else old(publisher.Abs())
    {
      ok := true;
      if target == Publisher {
        ok := publisher.SetRemoteDescription(taken, failAt);
        ok := ok && answered;
      }
    }

    /** The receiver's transport is never created, so a candidate for it is a call on nil. */
    method AddICECandidate(target: Target, candidate: Candidate) returns (crashed: bool)
      modifies publisher
      ensures crashed <==> target != Publisher
      ensures publisher.Abs() ==
              if crashed then old(publisher.Abs()) else Perform(old(publisher.Abs()), AddCandidate(candidate))
    {
      crashed := target != Publisher;
      if !crashed {
        publisher.AddICECandidate(candidate);
      }
    }
  }

  /** How many entries the loop reached decides whether the ports were enough. */
  lemma EnoughPorts(
      before: PortMap, all: seq<Entry>, upto: nat, ports: map<nat, GoInt>, sdp: seq<MediaLine>, udp: PortMap)
    requires DistinctPayloads(all) && upto <= |all| && Progress(before, all[..upto], ports, sdp, udp)
    requires upto < |all| ==> Free(udp) == {}
    ensures upto == |all| <==> |all| <= |Free(before)|
  {
    PayloadsSize(all[..upto]);
    InjectiveSize(ports);
    ReleaseUndoesMark(before, ports.Values);
    SubsetSize(ports.Values, Free(before));
  }

  /** Builds a participant, or returns null exactly when some stage fails; a failure may leave ports marked
      that nobody owns. */
  method NewParticipant(
      ghost index: nat, user: User, config: Config, codecs: CodecTable, portsAllocator: PortsAllocator, nc: Bus,
      io: BuildIO)
    returns (p: Participant?, ghost ports: map<nat, GoInt>)
    requires CacheConsistent(codecs.Abs(), config)
    modifies codecs, portsAllocator, nc
    ensures CacheConsistent(codecs.Abs(), config)
    ensures p != null <==> CanBuild(config, io, old(portsAllocator.udpPorts))
    ensures portsAllocator.udpPorts == Mark(old(portsAllocator.udpPorts), ports.Values)
    ensures ports.Values <= Free(old(portsAllocator.udpPorts))
    ensures LeftBehind(config, io, old(portsAllocator.udpPorts), portsAllocator.udpPorts, ports)
    ensures p == null ==> nc.sent == old(nc.sent)
    ensures p != null ==>
              && fresh(p) && fresh(p.publisher) && !p.locked
              && p.index == index && p.portsAllocator == portsAllocator && p.nc == nc
              && BuiltPart(CodecsFor(config), old(portsAllocator.udpPorts), p.Abs(), user, ports, io.audioFirst)
              && p.allocatedPorts == Made(ports) && Exact(config, p.transcoderSDP, ports)
              && nc.sent == old(nc.sent) + [StartTranscoder(user, p.transcoderSDP)]
  {
    ghost var before := portsAllocator.udpPorts;
    var built := new Participant(index, user, portsAllocator, nc);
    var ok := built.Build(config, codecs, io);
    ports := built.allocatedPorts.entries;
    p := if ok then built else null;
    if ok { BuiltIsExact(config, before, built.Abs(), user, ports, io.audioFirst); }
  }

  /** What a finished construction produced: a port of its own for every codec, and the lines saying so. */
  predicate BuiltPart(c: CodecList, before: PortMap, p: Part, user: User, ports: map<nat, GoInt>, audioFirst: bool) {
    && Allocation(c, before, ports)
    && Payloads(Order(audioFirst, c)) <= ports.Keys
    && p == Part(user, Made(ports), Made(map[]), Lines(Order(audioFirst, c), ports))
  }

  lemma BuiltIsExact(
      config: Config, before: PortMap, p: Part, user: User, ports: map<nat, GoInt>, audioFirst: bool)
    requires BuiltPart(CodecsFor(config), before, p, user, ports, audioFirst)
    ensures Exact(config, p.sdp, ports)
  {
    SdpBijection(audioFirst, CodecsFor(config), ports);
    DescriptionIsExact(config, p.sdp, ports);
  }

  lemma FinishedLoop(c: CodecList, before: PortMap, p: Part, udp: PortMap, audioFirst: bool)
    requires p.ports.Made? && p.tracks == Made(map[])
    requires Progress(before, Order(audioFirst, c), p.ports.entries, p.sdp, udp)
    ensures BuiltPart(c, before, p, p.user, p.ports.entries, audioFirst)
  {
    OrderFacts(audioFirst, c);
  }

  lemma CacheFills(t: Table, config: Config, refused: set<nat>)
    requires CacheConsistent(t, config)
    ensures CacheConsistent(Register(t, config, refused), config)
    ensures AllAccepted(refused, AudioFor(config)) ==> Register(t, config, refused) == CodecsFor(config)
    ensures Fill(t.audio, AudioFor(config)) == AudioFor(config) && Fill(t.video, VideoFor(config)) == VideoFor(config)
  {
  }

  /** The order as two consecutive stretches, one per kind. */
  lemma OrderLayout(audioFirst: bool, c: CodecList, first: Kind, a: seq<CodecParams>, second: Kind, b: seq<CodecParams>)
    requires if audioFirst then (first, a, second, b) == (Audio, c.audio, Video, c.video)
             else (first, a, second, b) == (Video, c.video, Audio, c.audio)
    ensures var all := Order(audioFirst, c);
      && |all| == |a| + |b| == |Needs(c)| && DistinctPayloads(all)
      && (forall i :: 0 <= i < |a| ==> all[0 + i] == (first, a[i]))
      && (forall i :: 0 <= i < |b| ==> all[|a| + i] == (second, b[i]))
  {
    OrderFacts(audioFirst, c);
  }

  lemma LoopStarts(before: PortMap, all: seq<Entry>)
    ensures Progress(before, all[..0], map[], [], before)
  {
    MarkNone(before);
    assert all[..0] == [];
    assert Payloads([]) == {};
  }

  lemma MarkNone(ports: PortMap)
    ensures Mark(ports, {}) == ports
  {
  }

  lemma ReleaseNone(ports: PortMap)
    ensures Release(ports, {}) == ports
  {
  }

  lemma ReleaseOneMore(ports: PortMap, freed: set<GoInt>, p: GoInt)
    ensures Release(ports, freed)[p := false] == Release(ports, freed + {p})
  {
  }

  /** `freed` are the ports stored under the keys already visited. */
  predicate Freed(entries: map<nat, GoInt>, rest: set<nat>, freed: set<GoInt>) {
    && (forall k :: k in entries && k !in rest ==> entries[k] in freed)
    && (forall p :: p in freed ==> p in entries.Values)
    && (rest == {} ==> freed == entries.Values)
  }

  lemma FreedOneMore(entries: map<nat, GoInt>, rest: set<nat>, freed: set<GoInt>, k: nat)
    requires k in entries && Freed(entries, rest + {k}, freed)
    ensures Freed(entries, rest, freed + {entries[k]})
  {
    assert entries[k] in entries.Values;
    if rest == {} {
      forall p | p in entries.Values ensures p in freed + {entries[k]} {
        var j :| j in entries && entries[j] == p;
      }
    }
  }

  lemma NotYetListed(es: seq<Entry>, i: nat)
    requires DistinctPayloads(es) && i < |es|
    ensures es[i].1.payloadType !in Payloads(es[..i])
    ensures es[..i] + [es[i]] == es[..i + 1]
  {
  }
}
