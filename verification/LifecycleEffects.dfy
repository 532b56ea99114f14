// What each event does to ports, participants, rooms, rows and messages, field by field
// (internal/service/sessions_manager.go:73-211, internal/rtc/participant.go:204-315).
module LifecycleEffects {
  import opened Common
  import opened Codecs
  import opened Ports
  import opened TranscoderSdp
  import opened Lifecycle
  import opened LifecycleRuns
  import PP = PortProtocol
  import Rows = SessionRows

  // ---- Vocabulary ----

  /** Participants other than `i` are as they were. */
  predicate OthersStay(s: Sfu, t: Sfu, i: nat) {
    |t.parts| == |s.parts| && forall j :: 0 <= j < |s.parts| && j != i ==> t.parts[j] == s.parts[j]
  }

  /** Participant `i` holds no ports and no tracks any more, and every port it held is free. */
  predicate GaveBack(s: Sfu, t: Sfu, i: nat)
    requires i < |s.parts|
  {
    && OthersStay(s, t, i)
    && t.parts[i].user == s.parts[i].user && t.parts[i].sdp == s.parts[i].sdp
    && t.parts[i].ports == Nil && t.parts[i].tracks == Nil
    && t.udp.Keys == s.udp.Keys && Free(t.udp) == Free(s.udp) + PortsOf(s.parts[i])
  }

  /** The user's row, if there is one, has these columns now; nothing else in the table changed. */
  predicate RowIs(before: Rows.SessionTable, after: Rows.SessionTable, u: User, online: bool, state: Rows.SessionState,
                  media: Option<Rows.MediaType>)
  {
    && after.nextId == before.nextId && |after.rows| == |before.rows|
    && forall i :: 0 <= i < |before.rows| ==>
         after.rows[i] == if before.rows[i].user == u
                          then before.rows[i].(online := online, state := state, media := media) else before.rows[i]
  }

  /** Taken off the air, online as before. */
  predicate OffTheAir(before: Rows.SessionTable, after: Rows.SessionTable, u: User) {
    && after.nextId == before.nextId && |after.rows| == |before.rows|
    && forall i :: 0 <= i < |before.rows| ==>
         after.rows[i] == if before.rows[i].user == u
                          then before.rows[i].(state := Rows.Idle, media := None) else before.rows[i]
  }

  /** The user's row came online, or was added idle; nothing else changed. */
  predicate SavedRow(before: Rows.SessionTable, after: Rows.SessionTable, u: User) {
    && after.nextId == before.nextId + 1
    && |after.rows| == |before.rows| + (if Rows.HasRow(before.rows, u) then 0 else 1)
    && (forall i :: 0 <= i < |before.rows| ==>
          after.rows[i] == if before.rows[i].user == u then before.rows[i].(online := true) else before.rows[i])
    && (!Rows.HasRow(before.rows, u) ==>
          after.rows[|before.rows|] == Rows.Row(before.nextId, u, true, Rows.Idle, None, None))
  }

  function Said(sent: bool, u: User): seq<BusMsg> { if sent then [StopTranscoder(u)] else [] }

  lemma ReleaseFrees(udp: PortMap, ps: set<GoInt>)
    requires ps <= udp.Keys
    ensures Release(udp, ps).Keys == udp.Keys && Free(Release(udp, ps)) == Free(udp) + ps
  {
  }

  lemma PortsAreKeys(c: CodecList, range: set<GoInt>, s: Sfu, i: nat)
    requires Inv(c, range, s) && i < |s.parts|
    ensures PortsOf(s.parts[i]) <= s.udp.Keys
  {
    assert PP.Owned(Holders(s.parts)[i]) == PortsOf(s.parts[i]);
  }

  // ---- Joins ----

  /** A join builds one participant. If it could be announced it holds exactly the ports it was given, which are
      marked, and sits in its user's room; if not, it has been closed again and every port is as it was. */
  lemma StartEffect(c: CodecList, range: set<GoInt>, s: Sfu, e: Event)
    requires Inv(c, range, s) && Enabled(c, s, e) && e.Starts?
    ensures var t, n, u := Apply(c, s, e), |s.parts|, e.user;
      && |t.parts| == n + 1 && t.parts[..n] == s.parts && t.parts[n].user == u
      && (Unclosed(t, n) <==> e.announced)
      && (if e.announced
          then t.udp == Mark(s.udp, e.ports.Values) &&
               t.parts[n].ports == Made(e.ports) && t.parts[n].tracks == Made(map[])
          else t.udp == s.udp && t.parts[n].ports == Nil && t.parts[n].tracks == Nil)
      && t.rooms == s.rooms[u := RoomOf(s, u)[u := n]] && SavedRow(s.table, t.table, u)
      && t.bus == s.bus + ([StartTranscoder(u, t.parts[n].sdp)] + Said(!e.announced && e.stopSent, u))
      && t.stopping == s.stopping && !t.crashed
  {
    StartRow(c, s, e);
    NewcomerJoins(c, s, e.user, e.ports, e.audioFirst);
    var joined := Joined(c, s, e.user, e.ports, e.audioFirst);
    var said := Said(!e.announced && e.stopSent, e.user);
    Regroup(s.bus, [StartTranscoder(e.user, joined.parts[|s.parts|].sdp)], said);
    if !e.announced {
      ReleaseUndoesMark(s.udp, e.ports.Values);
      assert PortsOf(joined.parts[|s.parts|]) == e.ports.Values;
    }
  }

  lemma Regroup(a: seq<BusMsg>, b: seq<BusMsg>, c: seq<BusMsg>)
    ensures (a + b) + c == a + (b + c) && a + [] == a && b + [] == b
  {
  }

  lemma NewcomerJoins(c: CodecList, s: Sfu, u: User, ports: map<nat, GoInt>, audioFirst: bool)
    requires Allocation(c, s.udp, ports)
    ensures var t, n := Joined(c, s, u, ports, audioFirst), |s.parts|;
      && |t.parts| == n + 1 && t.parts[..n] == s.parts && t.parts[n].user == u
      && t.parts[n].ports == Made(ports) && t.parts[n].tracks == Made(map[])
      && t.udp == Mark(s.udp, ports.Values) && t.bus == s.bus + [StartTranscoder(u, t.parts[n].sdp)]
      && t.rooms == s.rooms[u := RoomOf(s, u)[u := n]]
  {
  }

  lemma StartRow(c: CodecList, s: Sfu, e: Event)
    requires Enabled(c, s, e) && (e.Starts? || e.BuildFails?)
    ensures SavedRow(s.table, Apply(c, s, e).table, e.user)
  {
    Rows.OthersUntouched(s.table, Rows.Save, e.user);
  }

  /** A join that fails before a participant is built: nothing at all when the row could not be saved, and otherwise
      the saved row, an open room, the ports taken so far lost, and a crash. */
  lemma FailedStartEffect(c: CodecList, s: Sfu, e: Event)
    requires Enabled(c, s, e) && (e.SaveFails? || e.BuildFails?)
    ensures var t := Apply(c, s, e);
      if e.SaveFails? then t == s
      else
        && t.udp == Mark(s.udp, e.leaked) && t.parts == s.parts && t.rooms == s.rooms[e.user := RoomOf(s, e.user)]
        && SavedRow(s.table, t.table, e.user) && t.bus == s.bus && t.stopping == s.stopping && t.crashed
  {
    if e.BuildFails? { StartRow(c, s, e); }
  }

  // ---- Closes ----

  /** Closing a session closes the participant in its room, frees its ports, says so to the transcoders if that gets
      through, takes the row offline if that could be written, and removes the room. Without a room nothing
      happens. */
  lemma CloseEffect(c: CodecList, range: set<GoInt>, s: Sfu, u: User, stopSent: bool, written: bool)
    requires Inv(c, range, s) && Enabled(c, s, Closes(u, stopSent, written))
    ensures u in s.rooms ==> u in s.rooms[u] && s.rooms[u][u] < |s.parts|
    ensures var t := Apply(c, s, Closes(u, stopSent, written));
      if u !in s.rooms then t == s
      else
        && GaveBack(s, t, s.rooms[u][u]) && t.rooms == s.rooms - {u} && t.bus == s.bus + Said(stopSent, u)
        && (if written then RowIs(s.table, t.table, u, false, Rows.Idle, None) else t.table == s.table)
        && t.stopping == s.stopping && !t.crashed
  {
    assert RoomOk(s, u);
    if u in s.rooms {
      PartCloses(c, range, s, s.rooms[u][u], stopSent);
      RowGoesOffline(s.table, u);
      ClosedByParts(c, s, u, stopSent, written);
    }
  }

  lemma RowGoesOffline(table: Rows.SessionTable, u: User)
    ensures RowIs(table, Rows.ApplyChange(table, Rows.SetOffline, u), u, false, Rows.Idle, None)
  {
  }

  lemma ClosedByParts(c: CodecList, s: Sfu, u: User, stopSent: bool, written: bool)
    requires u in s.rooms && RoomOk(s, u) && Enabled(c, s, Closes(u, stopSent, written))
    ensures Apply(c, s, Closes(u, stopSent, written)) ==
            CloseAt(s, s.rooms[u][u], stopSent).(
              rooms := s.rooms - {u},
              table := if written then Rows.ApplyChange(s.table, Rows.SetOffline, u) else s.table)
  {
  }

  lemma PartCloses(c: CodecList, range: set<GoInt>, s: Sfu, i: nat, stopSent: bool)
    requires Inv(c, range, s) && i < |s.parts|
    ensures var t := CloseAt(s, i, stopSent);
      && GaveBack(s, t, i) && t.bus == s.bus + Said(stopSent, s.parts[i].user)
      && t.(udp := s.udp, parts := s.parts, bus := s.bus) == s
  {
    PortsAreKeys(c, range, s, i);
    ReleaseFrees(s.udp, PortsOf(s.parts[i]));
  }

  /** A failed connection closes its participant and leaves the message for later. */
  lemma FailureEffect(c: CodecList, range: set<GoInt>, s: Sfu, i: nat)
    requires Inv(c, range, s) && Enabled(c, s, ConnectionFails(i))
    ensures var t := Apply(c, s, ConnectionFails(i));
      && GaveBack(s, t, i) && t.stopping == s.stopping + {i}
      && t.rooms == s.rooms && t.table == s.table && t.bus == s.bus && !t.crashed
  {
    PortsAreKeys(c, range, s, i);
    ReleaseFrees(s.udp, PortsOf(s.parts[i]));
  }

  lemma StopEffect(c: CodecList, s: Sfu, i: nat, sent: bool)
    requires Enabled(c, s, Event.StopPublished(i, sent))
    ensures Apply(c, s, Event.StopPublished(i, sent)) ==
            s.(bus := s.bus + Said(sent, s.parts[i].user), stopping := s.stopping - {i})
  {
  }

  // ---- Streams and tracks ----

  /** Publishing and stopping change the user's row, if there is a room and the row can be written, and nothing
      else. */
  lemma StreamEffect(c: CodecList, s: Sfu, e: Event)
    requires Enabled(c, s, e) && (e.Publishes? || e.Stops?)
    ensures var t := Apply(c, s, e);
      && t.(table := s.table) == s
      && (if e.user in s.rooms && e.rowWritten
          then if e.Publishes? then RowIs(s.table, t.table, e.user, true, Rows.SingleBroadcast, Some(Rows.Video))
               else OffTheAir(s.table, t.table, e.user)
          else t.table == s.table)
  {
    TableAfter(c, s, e);
  }

  /** A track is stored at an unclosed participant under its ID, with the port of its payload type or zero, and
      nothing else changes. */
  lemma TrackEffect(c: CodecList, s: Sfu, i: nat, id: string, payloadType: nat, made: bool)
    requires Enabled(c, s, TrackArrives(i, id, payloadType, made))
    ensures var t, p := Apply(c, s, TrackArrives(i, id, payloadType, made)), s.parts[i];
      if !made then t == s
      else if p.tracks.Nil? then t == s.(crashed := true)
      else
        var ports := Entries(p.ports);
        && t.(parts := s.parts) == s && OthersStay(s, t, i)
        && t.parts[i] == p.(tracks := Made(p.tracks.entries[
             id := Track(payloadType, if payloadType in ports then ports[payloadType] else 0)]))
  {
  }

  /** Exactly which events end the process. */
  lemma CrashIff(c: CodecList, range: set<GoInt>, s: Sfu, e: Event)
    requires Inv(c, range, s) && Enabled(c, s, e)
    ensures Apply(c, s, e).crashed <==>
      || e.BuildFails? || e.TrackCloseFails? || (e.ReceiverCandidate? && e.user in s.rooms)
      || (e.TrackArrives? && e.made && !Unclosed(s, e.who))
  {
    if e.ReceiverCandidate? { assert RoomOk(s, e.user); }
    if e.TrackArrives? { assert PartOk(c, s.parts[e.who]); }
  }
}
