// Who owns a UDP port, step by step. One participant takes its ports one Allocate at a time and gives
// them back one Deallocate at a time (internal/rtc/participant.go:92-116, 277-293), while connection
// failures close other participants in between. The router goroutine builds one participant at a time.
module PortProtocol {
  import opened Common
  import opened Ports

  /** A participant as the ports see it. `left` are the ports a close in progress has yet to give back. */
  datatype Phase = Building | Live | Closing(left: set<GoInt>) | Closed

  datatype Holder = Holder(held: map<nat, GoInt>, phase: Phase)

  datatype State = State(udp: PortMap, holders: seq<Holder>, crashed: bool)

  datatype Step =
    | Begin
    | Take(payloadType: nat, port: GoInt)
    | BuildFails
    | Finish
    | StartClose(who: nat)
    | GiveBack(who: nat, port: GoInt)
    | EndClose(who: nat)

  function Owned(h: Holder): set<GoInt> {
    match h.phase
    case Building => h.held.Values
    case Live => h.held.Values
    case Closing(left) => left
    case Closed => {}
  }

  predicate SomeoneBuilds(s: State) { s.holders != [] && s.holders[|s.holders| - 1].phase.Building? }

  /** Which steps can happen; nothing happens after the nil-receiver crash. `pts` are the payload types
      every participant needs a port for. */
  predicate CanDo(pts: set<nat>, s: State, e: Step) {
    && !s.crashed
    && match e
       case Begin => !SomeoneBuilds(s)
       case Take(pt, port) =>
         SomeoneBuilds(s) && pt in pts && pt !in s.holders[|s.holders| - 1].held && port in Free(s.udp)
       case BuildFails => SomeoneBuilds(s)
       case Finish => SomeoneBuilds(s) && s.holders[|s.holders| - 1].held.Keys == pts
       case StartClose(i) => i < |s.holders| && (s.holders[i].phase.Live? || s.holders[i].phase.Closed?)
       case GiveBack(i, port) =>
         i < |s.holders| && s.holders[i].phase.Closing? && port in s.holders[i].phase.left
       case EndClose(i) => i < |s.holders| && s.holders[i].phase == Closing({})
  }

  function Do(pts: set<nat>, s: State, e: Step): State
    requires CanDo(pts, s, e)
  {
    match e
    case Begin => s.(holders := s.holders + [Holder(map[], Building)])
    case Take(pt, port) =>
      var i := |s.holders| - 1;
      s.(udp := s.udp[port := true], holders := s.holders[i := Holder(s.holders[i].held[pt := port], Building)])
    case BuildFails => s.(crashed := true)
    case Finish =>
      var i := |s.holders| - 1;
      s.(holders := s.holders[i := s.holders[i].(phase := Live)])
    case StartClose(i) =>
      // A nil port map yields nothing to give back, so a repeated close ends at once.
      if s.holders[i].phase.Closed? then s
      else s.(holders := s.holders[i := s.holders[i].(phase := Closing(s.holders[i].held.Values))])
    case GiveBack(i, port) =>
      s.(udp := s.udp[port := false],
         holders := s.holders[i := s.holders[i].(phase := Closing(s.holders[i].phase.left - {port}))])
    case EndClose(i) =>
      s.(holders := s.holders[i := Holder(map[], Closed)])
  }

  ghost predicate Run(pts: set<nat>, s: State, steps: seq<Step>, t: State)
    decreases |steps|
  {
    if steps == [] then s == t
    else CanDo(pts, s, steps[0]) && Run(pts, Do(pts, s, steps[0]), steps[1..], t)
  }

  lemma {:induction false} RunTrans(pts: set<nat>, s: State, a: seq<Step>, t: State, b: seq<Step>, u: State)
    requires Run(pts, s, a, t) && Run(pts, t, b, u)
    ensures Run(pts, s, a + b, u)
    decreases |a|
  {
    if a == [] {
      assert a + b == b;
    } else {
      RunTrans(pts, Do(pts, s, a[0]), a[1..], t, b, u);
      assert (a + b)[1..] == a[1..] + b;
    }
  }

  predicate HolderOk(pts: set<nat>, h: Holder) {
    && Injective(h.held)
    && match h.phase
       case Building => h.held.Keys <= pts
       case Live => h.held.Keys == pts
       case Closing(left) => h.held.Keys == pts && left <= h.held.Values
       case Closed => true
  }

  ghost predicate Inv(pts: set<nat>, range: set<GoInt>, s: State) {
    && s.udp.Keys == range
    && (forall p :: p in range ==> (s.udp[p] <==> exists i :: 0 <= i < |s.holders| && p in Owned(s.holders[i])))
    && (forall i, p :: 0 <= i < |s.holders| && p in Owned(s.holders[i]) ==> p in range)
    && (forall i, j :: 0 <= i < j < |s.holders| ==> Owned(s.holders[i]) !! Owned(s.holders[j]))
    && (forall i :: 0 <= i < |s.holders| ==> HolderOk(pts, s.holders[i]))
    && (forall i :: 0 <= i < |s.holders| - 1 ==> !s.holders[i].phase.Building?)
  }

  predicate Initial(range: set<GoInt>, s: State) {
    s.udp.Keys == range && Taken(s.udp) == {} && s.holders == [] && !s.crashed
  }

  lemma InitialInv(pts: set<nat>, range: set<GoInt>, s: State)
    requires Initial(range, s)
    ensures Inv(pts, range, s)
  {
    forall p | p in range ensures !s.udp[p] {
      assert p !in Taken(s.udp);
    }
  }

  /** Only the holder a step names changes, and how its ports change. */
  function Actor(s: State, e: Step): int {
    match e
    case Begin => |s.holders|
    case Take(_, _) => |s.holders| - 1
    case BuildFails => -1
    case Finish => |s.holders| - 1
    case StartClose(i) => i
    case GiveBack(i, _) => i
    case EndClose(i) => i
  }

  lemma StepFrame(pts: set<nat>, s: State, e: Step)
    requires CanDo(pts, s, e)
    ensures |Do(pts, s, e).holders| >= |s.holders|
    ensures forall j :: 0 <= j < |s.holders| && j != Actor(s, e) ==> Do(pts, s, e).holders[j] == s.holders[j]
  {
  }

  /** The invariant, as one holder sees it. */
  predicate HolderFits(pts: set<nat>, udp: PortMap, h: Holder) {
    HolderOk(pts, h) && forall p :: p in Owned(h) ==> p in udp && udp[p]
  }

  lemma InvFits(pts: set<nat>, range: set<GoInt>, s: State, i: nat)
    requires Inv(pts, range, s) && i < |s.holders|
    ensures HolderFits(pts, s.udp, s.holders[i])
  {
  }

  /** What a step does to its actor's ports: take one, give one back, or leave them. */
  lemma ActorPorts(pts: set<nat>, s: State, e: Step)
    requires CanDo(pts, s, e) && 0 <= Actor(s, e) < |s.holders|
    requires HolderFits(pts, s.udp, s.holders[Actor(s, e)])
    ensures var h, h' := s.holders[Actor(s, e)], Do(pts, s, e).holders[Actor(s, e)];
      && HolderOk(pts, h')
      && Owned(h') == match e
           case Take(_, port) => Owned(h) + {port}
           case GiveBack(_, port) => Owned(h) - {port}
           case _ => Owned(h)
  {
    var i := Actor(s, e);
    var h, h' := s.holders[i], Do(pts, s, e).holders[i];
    if e.Take? {
      AddEntry(h.held, e.payloadType, e.port);
    }
  }

  lemma StepKeepsInv(pts: set<nat>, range: set<GoInt>, s: State, e: Step)
    requires Inv(pts, range, s) && CanDo(pts, s, e)
    ensures Inv(pts, range, Do(pts, s, e))
  {
    var t := Do(pts, s, e);
    var a := Actor(s, e);
    StepFrame(pts, s, e);
    if e.Begin? {
      assert t.holders[a] == Holder(map[], Building);
      assert Owned(t.holders[a]) == {};
      forall p | p in range ensures t.udp[p] <==> exists i :: 0 <= i < |t.holders| && p in Owned(t.holders[i]) {
        if i :| 0 <= i < |s.holders| && p in Owned(s.holders[i]) { assert t.holders[i] == s.holders[i]; }
        if i :| 0 <= i < |t.holders| && p in Owned(t.holders[i]) { assert s.holders[i] == t.holders[i]; }
      }
    } else if !e.BuildFails? {
      InvFits(pts, range, s, a);
      ActorPorts(pts, s, e);
      OwnersAfter(pts, range, s, e);
    }
  }

  lemma OwnersAfter(pts: set<nat>, range: set<GoInt>, s: State, e: Step)
    requires Inv(pts, range, s) && CanDo(pts, s, e) && 0 <= Actor(s, e) < |s.holders|
    ensures var t := Do(pts, s, e);
      && t.udp.Keys == range
      && forall p :: p in range ==> (t.udp[p] <==> exists i :: 0 <= i < |t.holders| && p in Owned(t.holders[i]))
  {
    var t := Do(pts, s, e);
    var a := Actor(s, e);
    StepFrame(pts, s, e);
    InvFits(pts, range, s, a);
    ActorPorts(pts, s, e);
    assert e.GiveBack? ==> e.port in Owned(s.holders[a]);
    forall p | p in range ensures t.udp[p] <==> exists i :: 0 <= i < |t.holders| && p in Owned(t.holders[i]) {
      if t.udp[p] {
        if e.Take? && p == e.port {
          assert p in Owned(t.holders[a]);
        } else {
          var i :| 0 <= i < |s.holders| && p in Owned(s.holders[i]);
          assert p in Owned(t.holders[i]);
        }
      }
      if i :| 0 <= i < |t.holders| && p in Owned(t.holders[i]) {
        assert i != a ==> p in Owned(s.holders[i]);
      }
    }
  }

  lemma {:induction false} RunKeepsInv(pts: set<nat>, range: set<GoInt>, s: State, steps: seq<Step>, t: State)
    requires Inv(pts, range, s) && Run(pts, s, steps, t)
    ensures Inv(pts, range, t)
    decreases |steps|
  {
    if steps != [] {
      StepKeepsInv(pts, range, s, steps[0]);
      RunKeepsInv(pts, range, Do(pts, s, steps[0]), steps[1..], t);
    }
  }

  /** In every reachable state a port is marked allocated iff exactly one participant owns it, and the
      allocator's key set is the configured range. */
  lemma AllocatedIffOneOwner(pts: set<nat>, range: set<GoInt>, s: State, steps: seq<Step>, t: State, p: GoInt)
    requires Initial(range, s) && Run(pts, s, steps, t) && p in range
    ensures t.udp.Keys == range
    ensures t.udp[p] <==> exists i :: 0 <= i < |t.holders| && p in Owned(t.holders[i])
    ensures forall i, j :: 0 <= i < j < |t.holders| ==> !(p in Owned(t.holders[i]) && p in Owned(t.holders[j]))
  {
    InitialInv(pts, range, s);
    RunKeepsInv(pts, range, s, steps, t);
    forall i, j | 0 <= i < j < |t.holders| ensures !(p in Owned(t.holders[i]) && p in Owned(t.holders[j])) {
      assert Owned(t.holders[i]) !! Owned(t.holders[j]);
    }
  }

  /** However often others close, and whatever is allocated in between, a participant that is not closed
      itself keeps every port it owns: no stale close frees a port handed on to someone else. */
  lemma {:induction false} OthersCannotFree(
      pts: set<nat>, range: set<GoInt>, s: State, steps: seq<Step>, t: State, j: nat)
    requires Inv(pts, range, s) && Run(pts, s, steps, t)
    requires j < |s.holders| && (s.holders[j].phase.Live? || s.holders[j].phase.Building?)
    requires StartClose(j) !in steps
    ensures j < |t.holders| && (t.holders[j].phase.Live? || t.holders[j].phase.Building?)
    ensures Owned(s.holders[j]) <= Owned(t.holders[j])
    ensures forall p :: p in Owned(s.holders[j]) ==> p in t.udp && t.udp[p]
    decreases |steps|
  {
    if steps != [] {
      var e := steps[0];
      var s' := Do(pts, s, e);
      StepFrame(pts, s, e);
      StepKeepsInv(pts, range, s, e);
      InvFits(pts, range, s, j);
      if Actor(s, e) == j { ActorPorts(pts, s, e); }
      OthersCannotFree(pts, range, s', steps[1..], t, j);
    }
  }

  /** A closed participant stays closed and owns nothing, so its next close changes nothing at all. */
  lemma {:induction false} ClosedStaysClosed(pts: set<nat>, s: State, steps: seq<Step>, t: State, j: nat)
    requires Run(pts, s, steps, t)
    requires j < |s.holders| && s.holders[j].phase.Closed?
    ensures j < |t.holders| && t.holders[j] == s.holders[j]
    ensures CanDo(pts, t, StartClose(j)) ==> Do(pts, t, StartClose(j)) == t
    decreases |steps|
  {
    if steps != [] {
      StepFrame(pts, s, steps[0]);
      ClosedStaysClosed(pts, Do(pts, s, steps[0]), steps[1..], t, j);
    }
  }

  // ---- Capacity ----

  function OwnedBy(hs: seq<Holder>): set<GoInt> {
    if hs == [] then {} else OwnedBy(hs[..|hs| - 1]) + Owned(hs[|hs| - 1])
  }

  function Unclosed(hs: seq<Holder>): nat {
    if hs == [] then 0
    else Unclosed(hs[..|hs| - 1]) + if hs[|hs| - 1].phase.Live? then 1 else 0
  }

  lemma {:induction false} OwnedByMeaning(hs: seq<Holder>, p: GoInt)
    ensures p in OwnedBy(hs) <==> exists i :: 0 <= i < |hs| && p in Owned(hs[i])
  {
    if hs != [] {
      var init := hs[..|hs| - 1];
      OwnedByMeaning(init, p);
      if i :| 0 <= i < |init| && p in Owned(init[i]) { assert p in Owned(hs[i]); }
      if i :| 0 <= i < |hs| && p in Owned(hs[i]) { assert i < |init| ==> p in Owned(init[i]); }
    }
  }

  ghost predicate PairwiseDisjoint(hs: seq<Holder>) {
    forall i, j :: 0 <= i < j < |hs| ==> Owned(hs[i]) !! Owned(hs[j])
  }

  lemma DisjointFromEarlier(hs: seq<Holder>)
    requires hs != [] && PairwiseDisjoint(hs)
    ensures PairwiseDisjoint(hs[..|hs| - 1])
    ensures OwnedBy(hs[..|hs| - 1]) !! Owned(hs[|hs| - 1])
  {
    var n := |hs| - 1;
    forall p | p in OwnedBy(hs[..n]) ensures p !in Owned(hs[n]) {
      OwnedByMeaning(hs[..n], p);
      var i :| 0 <= i < n && p in Owned(hs[..n][i]);
      assert Owned(hs[i]) !! Owned(hs[n]);
    }
  }

  lemma LiveOwnsOnePortEach(pts: set<nat>, h: Holder)
    requires HolderOk(pts, h) && h.phase.Live?
    ensures |Owned(h)| == |pts|
  {
    InjectiveSize(h.held);
  }

  lemma {:induction false} LiveShare(pts: set<nat>, hs: seq<Holder>)
    requires PairwiseDisjoint(hs)
    requires forall i :: 0 <= i < |hs| ==> HolderOk(pts, hs[i])
    ensures Unclosed(hs) * |pts| <= |OwnedBy(hs)|
    decreases |hs|
  {
    if hs != [] {
      DisjointFromEarlier(hs);
      LiveShare(pts, hs[..|hs| - 1]);
      ShareStep(pts, hs);
    }
  }

  lemma OneMore(count: nat, each: nat)
    ensures (count + 1) * each == count * each + each
  {
  }

  lemma ShareStep(pts: set<nat>, hs: seq<Holder>)
    requires hs != [] && HolderOk(pts, hs[|hs| - 1])
    requires OwnedBy(hs[..|hs| - 1]) !! Owned(hs[|hs| - 1])
    requires Unclosed(hs[..|hs| - 1]) * |pts| <= |OwnedBy(hs[..|hs| - 1])|
    ensures Unclosed(hs) * |pts| <= |OwnedBy(hs)|
  {
    var before, here := OwnedBy(hs[..|hs| - 1]), Owned(hs[|hs| - 1]);
    assert OwnedBy(hs) == before + here;
    assert |before + here| == |before| + |here|;
    if hs[|hs| - 1].phase.Live? {
      LiveOwnsOnePortEach(pts, hs[|hs| - 1]);
      OneMore(Unclosed(hs[..|hs| - 1]), |pts|);
    }
  }

  /** When every holder is live or closed, the live ones use their share exactly. */
  lemma {:induction false} ExactShare(pts: set<nat>, hs: seq<Holder>)
    requires PairwiseDisjoint(hs)
    requires forall i :: 0 <= i < |hs| ==> HolderOk(pts, hs[i]) && (hs[i].phase.Live? || hs[i].phase.Closed?)
    ensures Unclosed(hs) * |pts| == |OwnedBy(hs)|
    decreases |hs|
  {
    if hs != [] {
      DisjointFromEarlier(hs);
      ExactShare(pts, hs[..|hs| - 1]);
      ExactStep(pts, hs);
    }
  }

  lemma ExactStep(pts: set<nat>, hs: seq<Holder>)
    requires hs != [] && HolderOk(pts, hs[|hs| - 1])
    requires hs[|hs| - 1].phase.Live? || hs[|hs| - 1].phase.Closed?
    requires OwnedBy(hs[..|hs| - 1]) !! Owned(hs[|hs| - 1])
    requires Unclosed(hs[..|hs| - 1]) * |pts| == |OwnedBy(hs[..|hs| - 1])|
    ensures Unclosed(hs) * |pts| == |OwnedBy(hs)|
  {
    var before, here := OwnedBy(hs[..|hs| - 1]), Owned(hs[|hs| - 1]);
    assert OwnedBy(hs) == before + here;
    assert |before + here| == |before| + |here|;
    if hs[|hs| - 1].phase.Live? {
      LiveOwnsOnePortEach(pts, hs[|hs| - 1]);
      OneMore(Unclosed(hs[..|hs| - 1]), |pts|);
    }
  }

  /** The live participants' shares and the free ports fit into the range, in every reachable state; and the
      ports in use are exactly the owned ones, so allocated plus free stays the size of the range. */
  lemma Capacity(pts: set<nat>, range: set<GoInt>, s: State)
    requires Inv(pts, range, s)
    ensures Taken(s.udp) == OwnedBy(s.holders)
    ensures |Free(s.udp)| + |OwnedBy(s.holders)| == |range|
    ensures Unclosed(s.holders) * |pts| + |Free(s.udp)| <= |range|
  {
    forall p ensures p in Taken(s.udp) <==> p in OwnedBy(s.holders) {
      OwnedByMeaning(s.holders, p);
    }
    FreePlusTaken(s.udp);
    assert PairwiseDisjoint(s.holders);
    LiveShare(pts, s.holders);
  }

  /** While the last participant is being built, the free ports and the ones it already took still cover
      its needs. */
  ghost predicate Provided(pts: set<nat>, s: State) {
    SomeoneBuilds(s) && |Free(s.udp)| + |s.holders[|s.holders| - 1].held| >= |pts|
  }

  /** If one participant's worth of ports is free when building begins, the allocation loop always finds
      its next port, whatever closes happen meanwhile. */
  lemma {:induction false} LoopCannotRunDry(
      pts: set<nat>, range: set<GoInt>, s: State, steps: seq<Step>, t: State)
    requires Inv(pts, range, s) && Run(pts, s, steps, t) && Provided(pts, s)
    requires Begin !in steps && Finish !in steps
    ensures |t.holders| == |s.holders| && Provided(pts, t)
    ensures t.holders[|t.holders| - 1].held.Keys != pts ==> Free(t.udp) != {}
    decreases |steps|
  {
    if steps == [] {
      StillProvided(pts, s);
    } else {
      StepKeepsInv(pts, range, s, steps[0]);
      if steps[0].GiveBack? { assert steps[0].port in Owned(s.holders[steps[0].who]); }
      StepKeepsProvided(pts, s, steps[0]);
      LoopCannotRunDry(pts, range, Do(pts, s, steps[0]), steps[1..], t);
    }
  }

  lemma StillProvided(pts: set<nat>, s: State)
    requires Provided(pts, s) && HolderOk(pts, s.holders[|s.holders| - 1])
    ensures s.holders[|s.holders| - 1].held.Keys != pts ==> Free(s.udp) != {}
  {
    var held := s.holders[|s.holders| - 1].held;
    if held.Keys != pts {
      StrictSubsetSize(held.Keys, pts);
      assert |held.Keys| == |held|;
    }
  }

  lemma TakeKeepsProvided(pts: set<nat>, s: State, pt: nat, port: GoInt)
    requires CanDo(pts, s, Take(pt, port)) && Provided(pts, s)
    ensures Provided(pts, Do(pts, s, Take(pt, port)))
  {
    var n := |s.holders| - 1;
    var t := Do(pts, s, Take(pt, port));
    FlipSizes(s.udp, port);
    assert t.holders[n].held.Keys == s.holders[n].held.Keys + {pt};
  }

  lemma StepKeepsProvided(pts: set<nat>, s: State, e: Step)
    requires CanDo(pts, s, e) && Provided(pts, s) && !e.Begin? && !e.Finish?
    requires e.GiveBack? ==> e.port in s.udp
    ensures |Do(pts, s, e).holders| == |s.holders| && Provided(pts, Do(pts, s, e))
  {
    if e.Take? {
      TakeKeepsProvided(pts, s, e.payloadType, e.port);
    } else {
      StepFrame(pts, s, e);
      if e.GiveBack? {
        FlipSizes(s.udp, e.port);
      }
    }
  }

  /** With fewer ports free than the participant still needs, and nobody giving any back, it never
      finishes. */
  lemma {:induction false} TooFewPorts(pts: set<nat>, s: State, steps: seq<Step>, t: State)
    requires Run(pts, s, steps, t) && SomeoneBuilds(s)
    requires |Free(s.udp)| + |s.holders[|s.holders| - 1].held| < |pts|
    requires forall e :: e in steps ==> !e.GiveBack?
    ensures Finish !in steps
    decreases |steps|
  {
    if steps != [] {
      var e := steps[0];
      var n := |s.holders| - 1;
      var s' := Do(pts, s, e);
      StepFrame(pts, s, e);
      if e.Take? {
        FlipSizes(s.udp, e.port);
        assert s'.holders[n].held.Keys == s.holders[n].held.Keys + {e.payloadType};
      }
      assert e != Finish;
      TooFewPorts(pts, s', steps[1..], t);
    }
  }
}
