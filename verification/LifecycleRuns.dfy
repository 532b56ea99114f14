// Every handler call is a run of the port protocol, so the protocol's invariants hold between handlers,
// and what follows from them over whole runs of the server.
module LifecycleRuns {
  import opened Common
  import opened Ports
  import opened TranscoderSdp
  import opened Lifecycle
  import PP = PortProtocol
  import Rows = SessionRows

  // ---- Refinement of the port protocol ----

  /** The protocol state once the last participant has taken the ports `m`. */
  function Taking(s: PP.State, m: map<nat, GoInt>): PP.State
    requires s.holders != []
  {
    s.(udp := Mark(s.udp, m.Values), holders := s.holders[|s.holders| - 1 := PP.Holder(m, PP.Building)])
  }

  /** One allocation loop, as the protocol's steps. */
  lemma {:induction false} TakeAll(pts: set<nat>, s: PP.State, m: map<nat, GoInt>) returns (steps: seq<PP.Step>)
    requires !s.crashed && s.holders != [] && s.holders[|s.holders| - 1] == PP.Holder(map[], PP.Building)
    requires m.Keys <= pts && Injective(m) && m.Values <= Free(s.udp)
    ensures PP.Run(pts, s, steps, Taking(s, m))
    decreases |m|
  {
    if m.Keys == {} {
      TakingNothing(s, m);
      steps := [];
    } else {
      var k :| k in m;
      var rest := m - {k};
      ValuesWithout(m, k);
      EntriesWithout(m, k);
      var before := TakeAll(pts, s, rest);
      var last := [PP.Take(k, m[k])];
      TakeLast(pts, s, rest, k, m[k]);
      PP.RunTrans(pts, s, before, Taking(s, rest), last, Taking(s, m));
      steps := before + last;
    }
  }

  lemma TakingNothing(s: PP.State, m: map<nat, GoInt>)
    requires m.Keys == {}
    requires s.holders != [] && s.holders[|s.holders| - 1] == PP.Holder(map[], PP.Building)
    ensures Taking(s, m) == s
  {
    assert m == map[];
    assert m.Values == {};
    assert Mark(s.udp, m.Values) == s.udp;
  }

  lemma TakeLast(pts: set<nat>, s: PP.State, rest: map<nat, GoInt>, k: nat, v: GoInt)
    requires !s.crashed && s.holders != [] && k in pts && k !in rest
    requires Injective(rest) && v !in rest.Values && v in Free(s.udp)
    ensures PP.Run(pts, Taking(s, rest), [PP.Take(k, v)], Taking(s, rest[k := v]))
  {
    AddEntry(rest, k, v);
    var t := Taking(s, rest);
    var step := PP.Take(k, v);
    assert v in Free(t.udp);
    assert Mark(s.udp, rest.Values)[v := true] == Mark(s.udp, rest.Values + {v});
    assert PP.Do(pts, t, step) == Taking(s, rest[k := v]);
    assert [step][1..] == [];
    assert PP.Run(pts, PP.Do(pts, t, step), [], Taking(s, rest[k := v]));
  }

  lemma ValuesWithout(m: map<nat, GoInt>, k: nat)
    requires k in m && Injective(m)
    ensures (m - {k}).Values == m.Values - {m[k]} && m[k] in m.Values
  {
    var rest := m - {k};
    forall v | v in rest.Values ensures v in m.Values && v != m[k] {
      var a :| a in rest && rest[a] == v;
      assert a in m && m[a] == v;
    }
    forall v | v in m.Values && v != m[k] ensures v in rest.Values {
      var a :| a in m && m[a] == v;
      assert a in rest;
    }
  }

  lemma EntriesWithout(m: map<nat, GoInt>, k: nat)
    requires k in m && Injective(m)
    ensures Injective(m - {k}) && (m - {k}).Keys <= m.Keys && |m - {k}| < |m|
    ensures (m - {k})[k := m[k]] == m
  {
    var rest := m - {k};
    assert rest.Keys == m.Keys - {k};
    assert |rest| == |rest.Keys| && |m| == |m.Keys|;
  }

  /** One deallocation loop, as the protocol's steps. */
  lemma {:induction false} GiveAll(pts: set<nat>, s: PP.State, i: nat, left: set<GoInt>, t: PP.State)
    returns (steps: seq<PP.Step>)
    requires !s.crashed && i < |s.holders| && s.holders[i].phase == PP.Closing(left)
    requires t == s.(udp := Release(s.udp, left), holders := s.holders[i := PP.Holder(map[], PP.Closed)])
    ensures PP.Run(pts, s, steps, t)
    decreases |left|
  {
    if left == {} {
      assert Release(s.udp, left) == s.udp;
      steps := [PP.EndClose(i)];
      assert PP.Run(pts, PP.Do(pts, s, steps[0]), steps[1..], t);
    } else {
      var port :| port in left;
      var step := PP.GiveBack(i, port);
      var s' := PP.Do(pts, s, step);
      assert Release(s'.udp, left - {port}) == Release(s.udp, left);
      var more := GiveAll(pts, s', i, left - {port}, t);
      steps := [step] + more;
    }
  }

  lemma CloseRefines(pts: set<nat>, s: Sfu, i: nat, stopSent: bool) returns (steps: seq<PP.Step>)
    requires i < |s.parts|
    ensures PP.Run(pts, View(s), steps, View(CloseAt(s, i, stopSent)))
    ensures View(Released(s, i)) == View(CloseAt(s, i, stopSent))
  {
    var v, w := View(s), View(CloseAt(s, i, stopSent));
    var start := PP.StartClose(i);
    assert w.holders == v.holders[i := PP.Holder(map[], PP.Closed)];
    if s.parts[i].ports.Made? {
      var more := GiveAll(pts, PP.Do(pts, v, start), i, PortsOf(s.parts[i]), w);
      steps := [start] + more;
    } else {
      assert Release(s.udp, {}) == s.udp;
      steps := [start];
      assert PP.Do(pts, v, start) == w;
    }
  }

  /** The protocol state once a participant with the ports `m` has been built. */
  function Built(s: PP.State, m: map<nat, GoInt>): PP.State {
    s.(udp := Mark(s.udp, m.Values), holders := s.holders + [PP.Holder(m, PP.Live)])
  }

  lemma BuildRun(pts: set<nat>, s: PP.State, m: map<nat, GoInt>) returns (steps: seq<PP.Step>)
    requires !s.crashed && !PP.SomeoneBuilds(s)
    requires m.Keys == pts && Injective(m) && m.Values <= Free(s.udp)
    ensures PP.Run(pts, s, steps, Built(s, m))
  {
    var begun := PP.Do(pts, s, PP.Begin);
    var middle := TakeAll(pts, begun, m);
    FinishStep(pts, s, begun, m);
    PP.RunTrans(pts, begun, middle, Taking(begun, m), [PP.Finish], Built(s, m));
    steps := [PP.Begin] + (middle + [PP.Finish]);
  }

  lemma FinishStep(pts: set<nat>, s: PP.State, begun: PP.State, m: map<nat, GoInt>)
    requires !s.crashed && m.Keys == pts
    requires begun == s.(holders := s.holders + [PP.Holder(map[], PP.Building)])
    ensures PP.Run(pts, Taking(begun, m), [PP.Finish], Built(s, m))
  {
    var t := Taking(begun, m);
    assert PP.Do(pts, t, PP.Finish).holders == Built(s, m).holders;
    assert [PP.Finish][1..] == [];
    assert PP.Run(pts, PP.Do(pts, t, PP.Finish), [], Built(s, m));
  }

  lemma ViewAppend(s: Sfu, t: Sfu, p: Part, ports: map<nat, GoInt>)
    requires t.parts == s.parts + [p] && p.ports == Made(ports) && t.udp == Mark(s.udp, ports.Values)
    ensures View(t) == Built(View(s), ports)
  {
    assert Holders(t.parts) == Holders(s.parts) + [PP.Holder(ports, PP.Live)];
  }

  lemma JoinRefines(c: CodecList, s: Sfu, u: User, ports: map<nat, GoInt>, audioFirst: bool)
    returns (steps: seq<PP.Step>)
    requires Allocation(c, s.udp, ports)
    ensures PP.Run(Needs(c), View(s), steps, View(Joined(c, s, u, ports, audioFirst)))
  {
    steps := BuildRun(Needs(c), View(s), ports);
    var t := Joined(c, s, u, ports, audioFirst);
    ViewAppend(s, t, t.parts[|s.parts|], ports);
  }

  /** Between two handlers the ports move only by steps of the protocol. */
  lemma EventRefines(c: CodecList, s: Sfu, e: Event) returns (steps: seq<PP.Step>)
    requires Enabled(c, s, e) && !e.BuildFails?
    ensures PP.Run(Needs(c), View(s), steps, View(Apply(c, s, e)))
  {
    var pts := Needs(c);
    var t := Apply(c, s, e);
    steps := [];
    match e {
      case Starts(u, ports, audioFirst, announced, stopSent) =>
        steps := JoinRefines(c, s, u, ports, audioFirst);
        if !announced {
          var joined := Joined(c, s, u, ports, audioFirst);
          var more := CloseRefines(pts, joined, |s.parts|, stopSent);
          PP.RunTrans(pts, View(s), steps, View(joined), more, View(t));
          steps := steps + more;
        }
      case Closes(u, stopSent, written) =>
        if u in s.rooms && u in RoomOf(s, u) && RoomOf(s, u)[u] < |s.parts| {
          steps := CloseRefines(pts, s, RoomOf(s, u)[u], stopSent);
        }
      case ConnectionFails(i) =>
        steps := CloseRefines(pts, s, i, true);
      case TrackCloseFails(i, left) =>
        assert View(t).holders == View(s).holders;
      case TrackArrives(i, id, pt, made) =>
        assert View(t).holders == View(s).holders;
      case _ =>
    }
  }

  // ---- Invariants over every run ----

  /** What an event may do to a participant already built: nothing, close it, or add a track. */
  lemma PartsAfter(c: CodecList, s: Sfu, e: Event)
    requires Enabled(c, s, e)
    ensures var t := Apply(c, s, e);
      && |t.parts| == |s.parts| + (if e.Starts? then 1 else 0)
      && forall i :: 0 <= i < |s.parts| ==>
           && t.parts[i].user == s.parts[i].user && t.parts[i].sdp == s.parts[i].sdp
           && (t.parts[i].ports == s.parts[i].ports || t.parts[i].ports == Nil)
           && (t.parts[i] == s.parts[i] || t.parts[i] == s.parts[i].(ports := Nil, tracks := Nil)
               || (e.TrackArrives? && i == e.who && t.parts[i] == WithTrack(s.parts[i], e.id, e.payloadType))
               || (e.TrackCloseFails? && i == e.who && LeftOpen(s.parts[i], e.left)
                   && t.parts[i] == s.parts[i].(tracks := Made(e.left))))
  {
  }

  lemma PartStaysOk(c: CodecList, p: Part, id: string, payloadType: nat)
    requires PartOk(c, p)
    ensures PartOk(c, p.(ports := Nil, tracks := Nil))
    ensures PartOk(c, WithTrack(p, id, payloadType))
  {
  }

  lemma JoinedPartOk(c: CodecList, s: Sfu, u: User, ports: map<nat, GoInt>, audioFirst: bool)
    requires Allocation(c, s.udp, ports)
    ensures PartOk(c, Joined(c, s, u, ports, audioFirst).parts[|s.parts|])
  {
    SdpBijection(audioFirst, c, ports);
  }

  lemma NewPartOk(c: CodecList, s: Sfu, e: Event)
    requires Enabled(c, s, e) && e.Starts?
    ensures |Apply(c, s, e).parts| == |s.parts| + 1 && PartOk(c, Apply(c, s, e).parts[|s.parts|])
  {
    var joined := Joined(c, s, e.user, e.ports, e.audioFirst);
    JoinedPartOk(c, s, e.user, e.ports, e.audioFirst);
    PartStaysOk(c, joined.parts[|s.parts|], "", 0);
  }

  lemma PartsStayOk(c: CodecList, s: Sfu, e: Event)
    requires Enabled(c, s, e) && forall i :: 0 <= i < |s.parts| ==> PartOk(c, s.parts[i])
    ensures forall i :: 0 <= i < |Apply(c, s, e).parts| ==> PartOk(c, Apply(c, s, e).parts[i])
  {
    PartsAfter(c, s, e);
    var t := Apply(c, s, e);
    if e.Starts? { NewPartOk(c, s, e); }
    forall i | 0 <= i < |t.parts| ensures PartOk(c, t.parts[i]) {
      if i < |s.parts| {
        OldPartStaysOk(c, s, e, i, t.parts[i]);
      }
    }
  }

  lemma OldPartStaysOk(c: CodecList, s: Sfu, e: Event, i: nat, p: Part)
    requires i < |s.parts| && PartOk(c, s.parts[i])
    requires p == s.parts[i] || p == s.parts[i].(ports := Nil, tracks := Nil) ||
             (e.TrackArrives? && p == WithTrack(s.parts[i], e.id, e.payloadType)) ||
             (e.TrackCloseFails? && LeftOpen(s.parts[i], e.left) && p == s.parts[i].(tracks := Made(e.left)))
    ensures PartOk(c, p)
  {
    if e.TrackArrives? { PartStaysOk(c, s.parts[i], e.id, e.payloadType); }
  }

  /** Only closed participants have a stop message to publish. */
  lemma StoppingStayClosed(c: CodecList, s: Sfu, e: Event)
    requires Enabled(c, s, e) && forall i :: i in s.stopping ==> i < |s.parts| && s.parts[i].ports.Nil?
    ensures var t := Apply(c, s, e);
      forall i :: i in t.stopping ==> i < |t.parts| && t.parts[i].ports.Nil?
  {
    PartsAfter(c, s, e);
    var t := Apply(c, s, e);
    assert forall i :: i in t.stopping ==> i in s.stopping || (e.ConnectionFails? && i == e.who);
  }

  lemma RoomsAfter(c: CodecList, s: Sfu, e: Event)
    requires Enabled(c, s, e)
    ensures Apply(c, s, e).rooms == match e
              case Starts(u, _, _, _, _) => s.rooms[u := RoomOf(s, u)[u := |s.parts|]]
              case BuildFails(u, _) => s.rooms[u := RoomOf(s, u)]
              case Closes(u, _, _) => s.rooms - {u}
              case _ => s.rooms
    ensures e.Starts? ==> Apply(c, s, e).parts[|s.parts|].user == e.user
  {
    match e {
      case Starts(u, ports, audioFirst, announced, stopSent) =>
        var joined := Joined(c, s, u, ports, audioFirst);
        assert joined.rooms == s.rooms[u := RoomOf(s, u)[u := |s.parts|]] && joined.parts[|s.parts|].user == u;
        assert CloseAt(joined, |s.parts|, stopSent).rooms == joined.rooms;
      case Closes(u, stopSent, written) =>
        if u !in s.rooms {
          assert s.rooms - {u} == s.rooms;
        } else {
          assert CloseRoom(s, u, stopSent).rooms == s.rooms;
        }
      case _ =>
    }
  }

  lemma RoomsStayOk(c: CodecList, s: Sfu, e: Event)
    requires Enabled(c, s, e) && !e.BuildFails? && forall u :: RoomOk(s, u)
    ensures forall u :: RoomOk(Apply(c, s, e), u)
  {
    PartsAfter(c, s, e);
    RoomsAfter(c, s, e);
    forall u ensures RoomOk(Apply(c, s, e), u) {
      assert RoomOk(s, u);
      RoomStaysOk(s, Apply(c, s, e), e, u);
    }
  }

  lemma RoomStaysOk(s: Sfu, t: Sfu, e: Event, u: User)
    requires RoomOk(s, u) && |s.parts| <= |t.parts|
    requires forall i :: 0 <= i < |s.parts| ==> t.parts[i].user == s.parts[i].user
    requires u in t.rooms ==>
      (u in s.rooms && t.rooms[u] == s.rooms[u]) ||
      (t.rooms[u] == RoomOf(s, u)[u := |s.parts|] && |s.parts| < |t.parts| && t.parts[|s.parts|].user == u)
    ensures RoomOk(t, u)
  {
    if u in t.rooms && !(u in s.rooms && t.rooms[u] == s.rooms[u]) {
      assert RoomOf(s, u)[u := |s.parts|].Keys == {u};
    }
  }

  lemma CurrentOrDisplaced(c: CodecList, s: Sfu, e: Event)
    requires Enabled(c, s, e) && !e.BuildFails? && forall u :: RoomOk(s, u)
    requires forall i: nat :: Unclosed(s, i) ==> Current(s, i) || Displaced(s, i)
    ensures forall i: nat :: Unclosed(Apply(c, s, e), i) ==> Current(Apply(c, s, e), i) || Displaced(Apply(c, s, e), i)
  {
    var t := Apply(c, s, e);
    PartsAfter(c, s, e);
    RoomsAfter(c, s, e);
    forall i: nat | Unclosed(t, i) ensures Current(t, i) || Displaced(t, i) {
      if i < |s.parts| {
        assert Unclosed(s, i);
        var u := s.parts[i].user;
        if Displaced(s, i) {
          var j :| i < j < |s.parts| && s.parts[j].user == u;
          assert t.parts[j].user == t.parts[i].user;
        } else if e.Starts? && e.user == u {
          assert t.parts[|s.parts|].user == u;
        } else {
          assert RoomOk(s, u);
        }
      }
    }
  }

  lemma RowsStayOk(c: CodecList, s: Sfu, e: Event)
    requires Enabled(c, s, e) && !e.BuildFails? && Rows.RowsOk(s.table)
    requires forall u :: u in s.rooms ==> Rows.IsOnline(s.table, u)
    ensures Rows.RowsOk(Apply(c, s, e).table)
    ensures forall u :: u in Apply(c, s, e).rooms ==> Rows.IsOnline(Apply(c, s, e).table, u)
  {
    var t := Apply(c, s, e);
    var change := RowChange(s, e);
    if change.Some? {
      Rows.ChangeKeepsRowsOk(s.table, change.value.0, change.value.1);
      forall u | u in t.rooms ensures Rows.IsOnline(t.table, u) {
        Rows.ChangeMeaning(s.table, change.value.0, change.value.1, u);
        if u in s.rooms { assert Rows.IsOnline(s.table, u); OnlineHasRow(s.table, u); }
      }
    }
  }

  lemma OnlineHasRow(t: Rows.SessionTable, u: User)
    requires Rows.IsOnline(t, u)
    ensures Rows.HasRow(t.rows, u)
  {
  }

  /** The statement an event runs against the sessions table, if it succeeds in running one. */
  function RowChange(s: Sfu, e: Event): (r: Option<(Rows.Change, User)>) {
    match e
    case Starts(u, _, _, _, _) => Some((Rows.Save, u))
    case BuildFails(u, _) => Some((Rows.Save, u))
    case Closes(u, _, written) => if u in s.rooms && written then Some((Rows.SetOffline, u)) else None
    case Publishes(u, written) => if u in s.rooms && written then Some((Rows.StartPublish, u)) else None
    case Stops(u, written) => if u in s.rooms && written then Some((Rows.StopPublish, u)) else None
    case _ => None
  }

  lemma TableAfter(c: CodecList, s: Sfu, e: Event)
    requires Enabled(c, s, e)
    ensures Apply(c, s, e).table == match RowChange(s, e)
              case Some(ch) => Rows.ApplyChange(s.table, ch.0, ch.1)
              case None => s.table
  {
  }

  lemma EventKeepsInv(c: CodecList, range: set<GoInt>, s: Sfu, e: Event)
    requires Inv(c, range, s) && Enabled(c, s, e) && !e.BuildFails?
    ensures Inv(c, range, Apply(c, s, e))
  {
    var steps := EventRefines(c, s, e);
    PP.RunKeepsInv(Needs(c), range, View(s), steps, View(Apply(c, s, e)));
    PartsStayOk(c, s, e);
    RoomsStayOk(c, s, e);
    CurrentOrDisplaced(c, s, e);
    StoppingStayClosed(c, s, e);
    RowsStayOk(c, s, e);
  }

  lemma {:induction false} RunKeepsInv(c: CodecList, range: set<GoInt>, s: Sfu, es: seq<Event>, t: Sfu)
    requires Inv(c, range, s) && Run(c, s, es, t) && !t.crashed
    ensures Inv(c, range, t)
    decreases |es|
  {
    if es != [] {
      NotCrashingNow(c, s, es, t);
      EventKeepsInv(c, range, s, es[0]);
      RunKeepsInv(c, range, Apply(c, s, es[0]), es[1..], t);
    }
  }

  /** Nothing follows a crash. */
  lemma CrashEnds(c: CodecList, s: Sfu, es: seq<Event>, t: Sfu)
    requires s.crashed && Run(c, s, es, t)
    ensures es == [] && t == s
  {
  }

  /** So a run that has not crashed contains no failed construction. */
  lemma NotCrashingNow(c: CodecList, s: Sfu, es: seq<Event>, t: Sfu)
    requires Run(c, s, es, t) && !t.crashed && es != []
    ensures !es[0].BuildFails?
  {
    var rest := es[1..];
    if Apply(c, s, es[0]).crashed {
      CrashEnds(c, Apply(c, s, es[0]), rest, t);
    }
  }
}
