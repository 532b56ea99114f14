// From the sessions manager's messages to the daemons' processes: when a server run's messages alternate and a
// user's messages are handled one after the other, the daemons' run is a disciplined one.
module EndToEnd {
  import opened Common
  import L = Lifecycle
  import LT = LifecycleTheorems
  import T = Transcoders
  import TranscoderSdp

  /** A message without its payload: whether it is a start, and about whom. */
  type Notice = (bool, User)

  function NoticeOf(m: L.BusMsg): Notice { (m.StartTranscoder?, m.user) }

  function Notices(bus: seq<L.BusMsg>): seq<Notice> {
    seq(|bus|, i requires 0 <= i < |bus| => NoticeOf(bus[i]))
  }

  /** The messages a run delivers, in order. */
  function Deliveries(acts: seq<T.Action>): seq<Notice>
    decreases |acts|
  {
    if acts == [] then []
    else
      (match acts[0]
       case DeliverStart(_, u) => [(true, u)]
       case DeliverStop(u) => [(false, u)]
       case Local(_, _) => []) + Deliveries(acts[1..])
  }

  /** A message is delivered only when the user's earlier ones have been handled, and kills work. */
  predicate Careful(c: T.Cluster, a: T.Action)
    requires T.CanAct(c, a)
  {
    match a
    case DeliverStart(_, u) => !T.Busy(c, u)
    case _ => T.Disciplined(c, a)
  }

  ghost predicate CarefulRun(c: T.Cluster, acts: seq<T.Action>, t: T.Cluster)
    decreases |acts|
  {
    if acts == [] then c == t
    else T.MayAct(c, acts[0]) && Careful(c, acts[0]) && CarefulRun(T.Act(c, acts[0]), acts[1..], t)
  }

  /** The cluster remembers, for every user, the kind of the last of these messages. */
  predicate Remembers(last: T.Last, m: Option<L.BusMsg>) {
    match m
    case None => last == T.Never
    case Some(StopTranscoder(_)) => last == T.Stopped
    case Some(StartTranscoder(_, _)) => last == T.StartSent || last == T.StartFailed || last == T.Started
  }

  ghost predicate Delivered(c: T.Cluster, bus: seq<L.BusMsg>) {
    forall u :: Remembers(T.LastOf(c, u), LT.LastAbout(bus, u))
  }

  lemma LocalKeepsDelivered(c: T.Cluster, d: nat, e: T.Step, bus: seq<L.BusMsg>)
    requires T.Inv(c) && T.MayAct(c, T.Local(d, e)) && T.Disciplined(c, T.Local(d, e)) && Delivered(c, bus)
    ensures Delivered(T.Act(c, T.Local(d, e)), bus)
  {
    var t := T.Act(c, T.Local(d, e));
    forall u ensures Remembers(T.LastOf(t, u), LT.LastAbout(bus, u)) {
      assert Remembers(T.LastOf(c, u), LT.LastAbout(bus, u));
      if !e.Exit? && c.daemons[d].handlers[e.msg].user == u {
        assert T.UserOk(c, u);
        var owner: nat :| T.OwnerOk(c, u, owner);
        T.OwnStep(c.daemons[d], e, T.LastOf(c, u), d == owner);
      }
    }
  }

  lemma DeliverNext(c: T.Cluster, a: T.Action, bus: seq<L.BusMsg>, n: nat)
    requires T.MayAct(c, a) && n < |bus| && Delivered(c, bus[..n])
    requires match a
             case DeliverStart(_, u) => NoticeOf(bus[n]) == (true, u)
             case DeliverStop(u) => NoticeOf(bus[n]) == (false, u)
             case Local(_, _) => false
    ensures Delivered(T.Act(c, a), bus[..n + 1])
  {
    assert bus[..n + 1] == bus[..n] + [bus[n]];
    LT.AppendMessage(bus[..n], bus[n]);
    forall u ensures Remembers(T.LastOf(T.Act(c, a), u), LT.LastAbout(bus[..n + 1], u)) {
      assert Remembers(T.LastOf(c, u), LT.LastAbout(bus[..n], u));
    }
  }

  /** Delivering alternating messages one user at a time is a disciplined run. */
  lemma {:induction false} AlternationIsDiscipline(
      c: T.Cluster, acts: seq<T.Action>, t: T.Cluster, bus: seq<L.BusMsg>, n: nat)
    requires T.Inv(c) && n <= |bus| && Delivered(c, bus[..n]) && LT.Alternates(bus)
    requires CarefulRun(c, acts, t) && Deliveries(acts) == Notices(bus[n..])
    ensures T.DisciplinedRun(c, acts, t) && Delivered(t, bus)
    decreases |acts|
  {
    if acts == [] {
      assert |Notices(bus[n..])| == 0 && bus[..n] == bus;
    } else {
      var a := acts[0];
      var next := if a.Local? then n else n + 1;
      if a.Local? {
        assert Deliveries(acts) == Deliveries(acts[1..]);
        LocalKeepsDelivered(c, a.daemon, a.step, bus[..n]);
      } else {
        assert |Deliveries(acts)| == 1 + |Deliveries(acts[1..])|;
        assert Deliveries(acts)[0] == NoticeOf(bus[n]);
        assert Deliveries(acts[1..]) == Deliveries(acts)[1..] == Notices(bus[n + 1..]);
        DeliverNext(c, a, bus, n);
        assert LT.StartFits(bus, n);
        assert Remembers(T.LastOf(c, a.user), LT.LastAbout(bus[..n], a.user));
      }
      T.ActKeepsInv(c, a);
      AlternationIsDiscipline(T.Act(c, a), acts[1..], t, bus, next);
    }
  }

  /** The daemons' side of the chain: in a run of the server in which every join follows the published stop of
      the user's earlier starts, the daemons that handle its messages one user at a time record each user at most
      once, exactly while the user's last message is a start that succeeded, and have no other live process. */
  lemma OneTranscoderPerUser(
      codecs: TranscoderSdp.CodecList, s: L.Sfu, es: seq<L.Event>, s': L.Sfu,
      c: T.Cluster, acts: seq<T.Action>, t: T.Cluster, u: User)
    requires s.bus == [] && L.Run(codecs, s, es, s') && LT.JoinsAfterStops(codecs, s, es)
    requires T.Initial(c) && CarefulRun(c, acts, t) && Deliveries(acts) == Notices(s'.bus)
    ensures forall d, k :: 0 <= d < k < |t.daemons| ==> !(u in t.daemons[d].pids && u in t.daemons[k].pids)
    ensures !T.Busy(t, u) ==>
              ((exists d :: 0 <= d < |t.daemons| && u in t.daemons[d].pids) <==> T.LastOf(t, u) == T.Started)
    ensures !T.Busy(t, u) ==>
              forall d, p :: 0 <= d < |t.daemons| && p in T.ViewOf(t.daemons[d], u).alive ==>
                u in t.daemons[d].pids && t.daemons[d].pids[u] == p
    ensures T.LastOf(t, u) == T.Started ==> LT.Running(s'.bus, u)
  {
    LT.AlternationIff(codecs, s, es, s');
    T.InitialInv(c);
    assert s'.bus[0..] == s'.bus && s'.bus[..0] == [];
    AlternationIsDiscipline(c, acts, t, s'.bus, 0);
    T.OneTranscoderPerUser(c, acts, t, u);
    assert Remembers(T.LastOf(t, u), LT.LastAbout(s'.bus, u));
  }

  /** The whole chain: if users also join only when none of their participants is open and no stop message is
      lost, a user with a live transcoder process has an open participant on the server. */
  lemma LiveTranscodersHaveParticipants(
      codecs: TranscoderSdp.CodecList, s: L.Sfu, es: seq<L.Event>, s': L.Sfu,
      c: T.Cluster, acts: seq<T.Action>, t: T.Cluster, u: User, d: nat)
    requires s.bus == [] && L.Run(codecs, s, es, s') && LT.PoliteRun(codecs, s, es)
    requires T.Initial(c) && CarefulRun(c, acts, t) && Deliveries(acts) == Notices(s'.bus)
    requires !T.Busy(t, u) && d < |t.daemons| && (u in t.daemons[d].pids || T.ViewOf(t.daemons[d], u).alive != {})
    ensures LT.HasOpen(s', u)
  {
    LT.PoliteRunsJoinAfterStops(codecs, s, es, s');
    OneTranscoderPerUser(codecs, s, es, s', c, acts, t, u);
    if T.ViewOf(t.daemons[d], u).alive != {} {
      var p :| p in T.ViewOf(t.daemons[d], u).alive;
    }
    assert LT.Running(s'.bus, u);
  }

  /** And back: while no stop is published for a user who still has an unclosed participant, a user with one has a
      recorded transcoder, unless the latest start failed at the daemon. */
  lemma ParticipantsHaveTranscoders(
      codecs: TranscoderSdp.CodecList, s: L.Sfu, es: seq<L.Event>, s': L.Sfu,
      c: T.Cluster, acts: seq<T.Action>, t: T.Cluster, i: nat)
    requires s.bus == [] && s.parts == [] && L.Run(codecs, s, es, s')
    requires LT.JoinsAfterStops(codecs, s, es) && LT.StopsSpareHolders(codecs, s, es)
    requires T.Initial(c) && CarefulRun(c, acts, t) && Deliveries(acts) == Notices(s'.bus)
    requires L.Unclosed(s', i) && !T.Busy(t, s'.parts[i].user)
    ensures var u := s'.parts[i].user;
            T.LastOf(t, u) != T.StartFailed ==> exists d :: 0 <= d < |t.daemons| && u in t.daemons[d].pids
  {
    var u := s'.parts[i].user;
    LT.AlwaysRunningIff(codecs, s, es, s');
    assert LT.Running(s'.bus, u);
    LT.AlternationIff(codecs, s, es, s');
    T.InitialInv(c);
    assert s'.bus[0..] == s'.bus && s'.bus[..0] == [];
    AlternationIsDiscipline(c, acts, t, s'.bus, 0);
    assert Remembers(T.LastOf(t, u), LT.LastAbout(s'.bus, u));
    T.OneTranscoderPerUser(c, acts, t, u);
  }
}
