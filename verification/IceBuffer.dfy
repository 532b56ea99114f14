// ICE candidates that arrive before the remote description (internal/rtc/transport.go:112-144).
module IceBuffer {

  type Candidate = string

  /** `offered` are the calls made to the peer connection, in order. */
  datatype Ice = Ice(remote: bool, offered: seq<Candidate>, pending: seq<Candidate>)

  /** What the connection does with a description. It can keep one and still report an error. */
  datatype Taken = Refused | KeptWithError | Accepted

  /** One call of the single router goroutine. `failAt` says which candidate of the flush the connection reports
      an error for, if there are that many. */
  datatype Call = AddCandidate(candidate: Candidate) | SetDescription(taken: Taken, failAt: nat)

  const NEW_TRANSPORT := Ice(false, [], [])

  predicate FlushFails(s: Ice, c: Call) {
    c.SetDescription? && c.taken == Accepted && c.failAt < |s.pending|
  }

  /** The description is kept, and the candidates waiting for it are not flushed. */
  predicate NotFlushed(s: Ice, c: Call) {
    c.SetDescription? && c.taken == KeptWithError && s.pending != []
  }

  function Perform(s: Ice, c: Call): Ice {
    match c
    case AddCandidate(candidate) =>
      if s.remote then s.(offered := s.offered + [candidate]) else s.(pending := s.pending + [candidate])
    case SetDescription(taken, failAt) =>
      match taken
      case Refused => s
      case KeptWithError => s.(remote := true)
      case Accepted =>
        if failAt < |s.pending| then s.(remote := true, offered := s.offered + s.pending[..failAt + 1])
        else Ice(true, s.offered + s.pending, [])
  }

  function PerformAll(s: Ice, cs: seq<Call>): Ice
    decreases |cs|
  {
    if cs == [] then s else PerformAll(Perform(s, cs[0]), cs[1..])
  }

  function Arrivals(cs: seq<Call>): seq<Candidate>
    decreases |cs|
  {
    if cs == [] then [] else Arrived(cs[0]) + Arrivals(cs[1..])
  }

  /** What one call offers although it stays pending, to be offered again by the next flush. */
  function Repeated(s: Ice, c: Call): seq<Candidate> {
    if FlushFails(s, c) then s.pending[..c.failAt + 1] else []
  }

  function Repeats(s: Ice, cs: seq<Call>): seq<Candidate>
    decreases |cs|
  {
    if cs == [] then [] else Repeated(s, cs[0]) + Repeats(Perform(s, cs[0]), cs[1..])
  }

  function Arrived(c: Call): seq<Candidate> { if c.AddCandidate? then [c.candidate] else [] }

  /** Nothing is held back once a description is set. */
  predicate Clear(s: Ice) { s.remote ==> s.pending == [] }

  predicate Clean(s: Ice, c: Call) { !FlushFails(s, c) && !NotFlushed(s, c) }

  lemma OneCallInOrder(s: Ice, c: Call)
    requires Clear(s)
    ensures Clear(Perform(s, c)) <==> Clean(s, c)
    ensures Clean(s, c) ==> Perform(s, c).offered + Perform(s, c).pending == s.offered + s.pending + Arrived(c)
    ensures Perform(s, c).remote <==> s.remote || (c.SetDescription? && c.taken != Refused)
  {
  }

  lemma Regroup(a: seq<Candidate>, b: seq<Candidate>, c: seq<Candidate>)
    ensures (a + b) + c == a + (b + c)
  {
  }

  predicate SetsDescription(cs: seq<Call>)
    decreases |cs|
  {
    cs != [] && ((cs[0].SetDescription? && cs[0].taken != Refused) || SetsDescription(cs[1..]))
  }

  predicate CleanRun(s: Ice, cs: seq<Call>)
    decreases |cs|
  {
    cs != [] ==> Clean(s, cs[0]) && CleanRun(Perform(s, cs[0]), cs[1..])
  }

  predicate AlwaysClear(s: Ice, cs: seq<Call>)
    decreases |cs|
  {
    Clear(s) && (cs != [] ==> AlwaysClear(Perform(s, cs[0]), cs[1..]))
  }

  /** Over every serial run, nothing is ever held back once a description is set iff no flush fails and no
      description is kept with an error while candidates wait. */
  lemma {:induction false} ClearIff(s: Ice, cs: seq<Call>)
    requires Clear(s)
    ensures AlwaysClear(s, cs) <==> CleanRun(s, cs)
    decreases |cs|
  {
    if cs != [] {
      OneCallInOrder(s, cs[0]);
      if Clean(s, cs[0]) {
        ClearIff(Perform(s, cs[0]), cs[1..]);
      } else {
        assert !AlwaysClear(Perform(s, cs[0]), cs[1..]);
      }
    }
  }

  /** In such runs the candidates reach the connection in order of arrival, each once, and none is held back once
      a description is set. */
  lemma {:induction false} SerialOrder(s: Ice, cs: seq<Call>)
    requires Clear(s) && CleanRun(s, cs)
    ensures PerformAll(s, cs).offered + PerformAll(s, cs).pending == s.offered + s.pending + Arrivals(cs)
    ensures PerformAll(s, cs).remote ==> PerformAll(s, cs).pending == []
    ensures PerformAll(s, cs).remote <==> s.remote || SetsDescription(cs)
    decreases |cs|
  {
    if cs != [] {
      OneCallInOrder(s, cs[0]);
      SerialOrder(Perform(s, cs[0]), cs[1..]);
      Regroup(s.offered + s.pending, Arrived(cs[0]), Arrivals(cs[1..]));
    }
  }

  lemma FirstCall(s: Ice, c: Call, cs: seq<Call>)
    ensures PerformAll(s, [c] + cs) == PerformAll(Perform(s, c), cs)
  {
    assert ([c] + cs)[1..] == cs;
  }

  /** Otherwise a later candidate can overtake an earlier one. */
  lemma KeptDescriptionReorders(a: Candidate, b: Candidate)
    ensures PerformAll(NEW_TRANSPORT,
              [AddCandidate(a), SetDescription(KeptWithError, 0), AddCandidate(b), SetDescription(Accepted, 1)]) ==
            Ice(true, [b, a], [])
  {
    var first, kept := AddCandidate(a), SetDescription(KeptWithError, 0);
    var second, last := AddCandidate(b), SetDescription(Accepted, 1);
    var s1, s2, s3 := Ice(false, [], [a]), Ice(true, [], [a]), Ice(true, [b], [a]);
    assert Perform(NEW_TRANSPORT, first) == s1 && Perform(s1, kept) == s2 && Perform(s2, second) == s3;
    assert [b] + [a] == [b, a] && Perform(s3, last) == Ice(true, [b, a], []);
    FirstCall(s3, last, []);
    FirstCall(s2, second, [last] + []);
    FirstCall(s1, kept, [second] + ([last] + []));
    FirstCall(NEW_TRANSPORT, first, [kept] + ([second] + ([last] + [])));
    assert [first] + ([kept] + ([second] + ([last] + []))) == [first, kept, second, last];
  }

  /** In every serial run, counting multiplicities: what was offered plus what is pending is what arrived
      plus what failed flushes offered. Nothing is lost, and nothing else is repeated. */
  lemma {:induction false} Conservation(s: Ice, cs: seq<Call>)
    ensures var t := PerformAll(s, cs);
      multiset(t.offered) + multiset(t.pending) ==
      multiset(s.offered) + multiset(s.pending) + multiset(Arrivals(cs)) + multiset(Repeats(s, cs))
    decreases |cs|
  {
    if cs != [] {
      Conservation(Perform(s, cs[0]), cs[1..]);
      OneCall(s, cs[0]);
    }
  }

  lemma OneCall(s: Ice, c: Call)
    ensures var t := Perform(s, c);
      multiset(t.offered) + multiset(t.pending) ==
      multiset(s.offered) + multiset(s.pending) + multiset(Arrived(c)) + multiset(Repeated(s, c))
  {
  }

  /** After a successful flush nothing is ever repeated or held back again. */
  lemma {:induction false} NoRepeatsAfterFlush(s: Ice, cs: seq<Call>)
    requires s.remote && s.pending == []
    ensures Repeats(s, cs) == []
    ensures PerformAll(s, cs) == Ice(true, s.offered + Arrivals(cs), [])
    decreases |cs|
  {
    if cs == [] {
      assert s.offered + [] == s.offered;
    } else {
      var s' := Perform(s, cs[0]);
      assert s' == Ice(true, s.offered + Arrived(cs[0]), []) by {
        assert s.offered + [] == s.offered;
      }
      NoRepeatsAfterFlush(s', cs[1..]);
      Regroup(s.offered, Arrived(cs[0]), Arrivals(cs[1..]));
    }
  }

  class PCTransport {
    var remote: bool
    var offered: seq<Candidate>
    var pendingCandidates: seq<Candidate>

    ghost function Abs(): Ice reads this { Ice(remote, offered, pendingCandidates) }

    constructor ()
      ensures Abs() == NEW_TRANSPORT
    {
      remote, offered, pendingCandidates := false, [], [];
    }

    method AddICECandidate(candidate: Candidate)
      modifies this
      ensures Abs() == Perform(old(Abs()), AddCandidate(candidate))
      ensures remote == old(remote)
      ensures if remote then offered == old(offered) + [candidate] && pendingCandidates == old(pendingCandidates)
              else offered == old(offered) && pendingCandidates == old(pendingCandidates) + [candidate]
    {
      if remote {
        offered := offered + [candidate];
        return;
      }
      pendingCandidates := pendingCandidates + [candidate];
    }

    method SetRemoteDescription(taken: Taken, failAt: nat) returns (ok: bool)
      modifies this
      ensures Abs() == Perform(old(Abs()), SetDescription(taken, failAt))
      ensures ok <==> taken == Accepted && !FlushFails(old(Abs()), SetDescription(taken, failAt))
      ensures ok <==> taken == Accepted && failAt >= |old(pendingCandidates)|
      ensures remote == (old(remote) || taken != Refused)
      ensures taken != Accepted ==> offered == old(offered)
      ensures ok ==> offered == old(offered) + old(pendingCandidates) && pendingCandidates == []
      ensures !ok ==> pendingCandidates == old(pendingCandidates)
      ensures taken == Accepted && !ok ==> offered == old(offered) + old(pendingCandidates)[..failAt + 1]
    {
      remote := remote || taken != Refused;
      if taken != Accepted {
        return false;
      }
      for i := 0 to |pendingCandidates|
        invariant remote && pendingCandidates == old(pendingCandidates) && i <= failAt
        invariant offered == old(offered) + pendingCandidates[..i]
      {
        assert pendingCandidates[..i] + [pendingCandidates[i]] == pendingCandidates[..i + 1];
        offered := offered + [pendingCandidates[i]];
        if i == failAt {
          return false;
        }
      }
      assert pendingCandidates[..|pendingCandidates|] == pendingCandidates;
      pendingCandidates := [];
      return true;
    }
  }
}

// The same buffer when the calls interleave: the check, the append, the set and each step of the locked
// flush are separate atomic steps. A candidate is named by the call that brought it.
module IceRace {
  import opened Common

  datatype Phase = SawDescription | SawNone | Returned

  datatype Step =
    | Check(id: nat)        // the call reads the remote description
    | Offer(id: nat)        // it saw one, so it offers the candidate to the connection
    | Append(id: nat)       // it saw none, so it appends under the lock
    | SetOk                 // the connection takes a remote description
    | Lock                  // that call enters its flush
    | FlushOne
    | FlushFail             // the connection refuses a pending candidate: the flush returns early
    | FlushDone

  /** `flushing` is the position of the flush holding the lock, `setters` the calls about to flush. */
  datatype State = State(
    remote: bool, offered: seq<nat>, pending: seq<nat>, calls: map<nat, Phase>, setters: nat,
    flushing: Option<nat>, log: seq<Step>)

  const START := State(false, [], [], map[], 0, None, [])

  predicate CanDo(s: State, e: Step) {
    match e
    case Check(id) => id !in s.calls
    case Offer(id) => id in s.calls && s.calls[id] == SawDescription
    case Append(id) => id in s.calls && s.calls[id] == SawNone && s.flushing.None?
    case SetOk => true
    case Lock => s.setters > 0 && s.flushing.None?
    case FlushOne => s.flushing.Some? && s.flushing.value < |s.pending|
    case FlushFail => s.flushing.Some? && s.flushing.value < |s.pending|
    case FlushDone => s.flushing == Some(|s.pending|)
  }

  function Do(s: State, e: Step): State
    requires CanDo(s, e)
  {
    var s := s.(log := s.log + [e]);
    match e
    case Check(id) => s.(calls := s.calls[id := if s.remote then SawDescription else SawNone])
    case Offer(id) => s.(offered := s.offered + [id], calls := s.calls[id := Returned])
    case Append(id) => s.(pending := s.pending + [id], calls := s.calls[id := Returned])
    case SetOk => s.(remote := true, setters := s.setters + 1)
    case Lock => s.(setters := s.setters - 1, flushing := Some(0))
    case FlushOne =>
      s.(offered := s.offered + [s.pending[s.flushing.value]], flushing := Some(s.flushing.value + 1))
    case FlushFail => s.(offered := s.offered + [s.pending[s.flushing.value]], flushing := None)
    case FlushDone => s.(pending := [], flushing := None)
  }

  ghost predicate Run(s: State, es: seq<Step>, t: State)
    decreases |es|
  {
    if es == [] then s == t else CanDo(s, es[0]) && Run(Do(s, es[0]), es[1..], t)
  }

  function Flushed(s: State): nat { if s.flushing.Some? then s.flushing.value else 0 }

  /** Position `i` of the log holds the call's check, made before any description was set. */
  predicate EarlyCheck(s: State, id: nat, i: nat) {
    i < |s.log| && s.log[i] == Check(id) && forall k :: 0 <= k < i ==> s.log[k] != SetOk
  }

  /** Position `i` of the log holds the call's append, and no flush has completed since. */
  predicate LateAppend(s: State, id: nat, i: nat) {
    i < |s.log| && s.log[i] == Append(id) && forall k :: i < k < |s.log| ==> s.log[k] != FlushDone
  }

  ghost predicate Inv(s: State) {
    && Flushed(s) <= |s.pending|
    && (forall id :: id in s.calls && s.calls[id] == Returned ==> id in s.offered || id in s.pending)
    && (forall k :: 0 <= k < Flushed(s) ==> s.pending[k] in s.offered)
    && (s.remote <==> SetOk in s.log)
    && (forall id :: id in s.calls && s.calls[id] == SawNone ==> exists i :: EarlyCheck(s, id, i))
    && (forall id :: id in s.pending ==> exists i :: EarlyCheck(s, id, i))
    && (forall id :: id in s.pending <==> exists i: nat :: LateAppend(s, id, i))
  }

  lemma LogGrows(s: State, e: Step, id: nat)
    requires CanDo(s, e)
    ensures (exists i :: EarlyCheck(s, id, i)) ==> exists i :: EarlyCheck(Do(s, e), id, i)
    ensures e != FlushDone && (exists i :: LateAppend(s, id, i)) ==> exists i :: LateAppend(Do(s, e), id, i)
  {
    var t := Do(s, e);
    assert t.log == s.log + [e];
    if i :| EarlyCheck(s, id, i) { assert EarlyCheck(t, id, i); }
    if e != FlushDone {
      if i :| LateAppend(s, id, i) { assert LateAppend(t, id, i); }
    }
  }

  /** The pending candidates are those appended since the last completed flush. */
  lemma PendingStep(s: State, e: Step, id: nat)
    requires CanDo(s, e) && (id in s.pending <==> exists i: nat :: LateAppend(s, id, i))
    ensures id in Do(s, e).pending <==> exists i: nat :: LateAppend(Do(s, e), id, i)
  {
    var t, n := Do(s, e), |s.log|;
    assert t.log == s.log + [e] && t.log[n] == e;
    assert forall k :: 0 <= k < n ==> t.log[k] == s.log[k];
    if i: nat :| LateAppend(t, id, i) {
      if i < n {
        assert LateAppend(s, id, i);
      } else {
        assert t.pending[|s.pending|] == id;
      }
    }
    if id in t.pending {
      LogGrows(s, e, id);
      if e == Append(id) { assert LateAppend(t, id, n); }
    }
  }

  lemma StepKeepsInv(s: State, e: Step)
    requires Inv(s) && CanDo(s, e)
    ensures Inv(Do(s, e))
  {
    var t := Do(s, e);
    var n := |s.log|;
    assert t.log[n] == e && forall k :: 0 <= k < n ==> t.log[k] == s.log[k];
    assert SetOk in t.log <==> SetOk in s.log || e == SetOk;
    forall id | id in t.calls && t.calls[id] == SawNone ensures exists i :: EarlyCheck(t, id, i) {
      LogGrows(s, e, id);
      if e == Check(id) { assert EarlyCheck(t, id, n); }
    }
    forall id | id in t.pending ensures exists i :: EarlyCheck(t, id, i) {
      LogGrows(s, e, id);
    }
    forall id ensures id in t.pending <==> exists i: nat :: LateAppend(t, id, i) {
      PendingStep(s, e, id);
    }
    ReturnedStaySomewhere(s, e);
  }

  lemma ReturnedStaySomewhere(s: State, e: Step)
    requires Inv(s) && CanDo(s, e)
    ensures var t := Do(s, e);
      && (forall id :: id in t.calls && t.calls[id] == Returned ==> id in t.offered || id in t.pending)
      && (forall k :: 0 <= k < Flushed(t) ==> t.pending[k] in t.offered)
  {
    var t := Do(s, e);
    assert forall id :: id in s.offered ==> id in t.offered;
    if e.Append? || e.Offer? {
      assert e.id in t.offered || e.id in t.pending by {
        assert e.Offer? ==> t.offered[|s.offered|] == e.id;
        assert e.Append? ==> t.pending[|s.pending|] == e.id;
      }
    }
    if e == FlushOne {
      assert t.offered[|s.offered|] == s.pending[s.flushing.value];
    }
  }

  lemma {:induction false} RunKeepsInv(s: State, es: seq<Step>, t: State)
    requires Inv(s) && Run(s, es, t)
    ensures Inv(t)
    decreases |es|
  {
    if es != [] {
      StepKeepsInv(s, es[0]);
      RunKeepsInv(Do(s, es[0]), es[1..], t);
    }
  }

  /** No accepted candidate is lost: once its call has returned it was offered or is pending. */
  lemma NothingLost(es: seq<Step>, t: State, id: nat)
    requires Run(START, es, t) && id in t.calls && t.calls[id] == Returned
    ensures id in t.offered || id in t.pending
  {
    RunKeepsInv(START, es, t);
  }

  /** The call checked before any description was set and appended after position `flush`. */
  predicate Straddles(s: State, id: nat, flush: nat, check: nat, append: nat) {
    EarlyCheck(s, id, check) && flush < append < |s.log| && s.log[append] == Append(id)
  }

  /** Over every interleaving, the candidates still pending after the last completed flush are exactly those of
      the calls that checked before any description was set and appended after that flush. */
  lemma ResidueIff(es: seq<Step>, t: State, id: nat, flush: nat)
    requires Run(START, es, t) && flush < |t.log| && t.log[flush] == FlushDone
    requires forall k :: flush < k < |t.log| ==> t.log[k] != FlushDone
    ensures id in t.pending <==> exists check: nat, append: nat :: Straddles(t, id, flush, check, append)
  {
    RunKeepsInv(START, es, t);
    if id in t.pending {
      var check :| EarlyCheck(t, id, check);
      var append: nat :| LateAppend(t, id, append);
      assert Straddles(t, id, flush, check, append);
    }
    if check: nat, append: nat :| Straddles(t, id, flush, check, append) {
      assert LateAppend(t, id, append);
    }
  }

  /** With or without a completed flush, pending is exactly what was appended since the last one. */
  lemma PendingIff(es: seq<Step>, t: State, id: nat)
    requires Run(START, es, t)
    ensures id in t.pending <==> exists i: nat :: LateAppend(t, id, i)
  {
    RunKeepsInv(START, es, t);
  }

  /** Any call can meet that condition: a description set and flushed between its check and its append. */
  lemma RaceLeavesResidue(id: nat)
    ensures exists t ::
      && Run(START, [Check(id), SetOk, Lock, FlushDone, Append(id)], t)
      && t.remote && t.setters == 0 && t.flushing.None? && id in t.pending
  {
    var s1 := Do(START, Check(id));
    var s2 := Do(s1, SetOk);
    var s3 := Do(s2, Lock);
    var s4 := Do(s3, FlushDone);
    var s5 := Do(s4, Append(id));
    assert s5.pending == [id];
    LastStep(s4, Append(id));
    Before(s3, FlushDone, [Append(id)], s5);
    Before(s2, Lock, [FlushDone, Append(id)], s5);
    Before(s1, SetOk, [Lock, FlushDone, Append(id)], s5);
    Before(START, Check(id), [SetOk, Lock, FlushDone, Append(id)], s5);
    assert [Check(id)] + ([SetOk] + ([Lock] + ([FlushDone] + [Append(id)]))) ==
           [Check(id), SetOk, Lock, FlushDone, Append(id)];
  }

  lemma LastStep(s: State, e: Step)
    requires CanDo(s, e)
    ensures Run(s, [e], Do(s, e))
  {
    assert [e][1..] == [] && Run(Do(s, e), [], Do(s, e));
  }

  lemma Before(s: State, e: Step, es: seq<Step>, t: State)
    requires CanDo(s, e) && Run(Do(s, e), es, t)
    ensures Run(s, [e] + es, t)
  {
    assert ([e] + es)[1..] == es;
  }

  // ---- Each candidate once ----

  /** What the connection has been offered, then what it has yet to be offered. */
  function Line(s: State): seq<nat>
    requires Flushed(s) <= |s.pending|
  {
    s.offered + s.pending[Flushed(s)..]
  }

  ghost predicate OnceInv(s: State) {
    && Flushed(s) <= |s.pending|
    && Distinct(Line(s))
    && (forall id :: id in Line(s) ==> id in s.calls && s.calls[id] == Returned)
  }

  lemma StepKeepsOnce(s: State, e: Step)
    requires OnceInv(s) && CanDo(s, e) && e != FlushFail
    ensures OnceInv(Do(s, e))
  {
    var t := Do(s, e);
    match e {
      case Offer(id) =>
        var rest := s.pending[Flushed(s)..];
        assert id !in Line(s);
        DistinctInsert(s.offered, rest, id);
      case Append(id) =>
        assert id !in Line(s);
        assert Line(t) == Line(s) + [id];
      case Check(id) => assert Line(t) == Line(s);
      case SetOk => assert Line(t) == Line(s);
      case Lock => assert Line(t) == Line(s);
      case FlushOne => assert Line(t) == Line(s);
      case FlushDone => assert Line(t) == Line(s);
    }
  }

  lemma DistinctInsert(a: seq<nat>, b: seq<nat>, x: nat)
    requires Distinct(a + b) && x !in a + b
    ensures Distinct(a + [x] + b)
    ensures forall y :: y in a + [x] + b <==> y in a + b || y == x
  {
    var c, d := a + b, a + [x] + b;
    assert forall i :: 0 <= i < |d| ==>
      d[i] == if i < |a| then c[i] else if i == |a| then x else c[i - 1];
    assert d[|a|] == x;
    forall i, j | 0 <= i < j < |d| ensures d[i] != d[j] {
      if i == |a| {
        assert d[j] == c[j - 1] && c[j - 1] in c;
      } else if j == |a| {
        assert d[i] == c[i] && c[i] in c;
      } else {
        var k, l := if i < |a| then i else i - 1, if j < |a| then j else j - 1;
        assert d[i] == c[k] && d[j] == c[l];
      }
    }
    forall y | y in c ensures y in d {
      var i :| 0 <= i < |c| && c[i] == y;
      assert d[if i < |a| then i else i + 1] == y;
    }
  }

  /** Unless a flush fails, every interleaving offers each candidate at most once, and what is offered is not
      pending any more once no flush is under way. */
  lemma {:induction false} EachOnce(s: State, es: seq<Step>, t: State)
    requires OnceInv(s) && Run(s, es, t) && FlushFail !in es
    ensures Distinct(t.offered)
    ensures t.flushing.None? ==> Distinct(t.offered + t.pending)
    decreases |es|
  {
    if es != [] {
      StepKeepsOnce(s, es[0]);
      EachOnce(Do(s, es[0]), es[1..], t);
    } else {
      assert forall i :: 0 <= i < |t.offered| ==> Line(t)[i] == t.offered[i];
      assert t.flushing.None? ==> Line(t) == t.offered + t.pending;
    }
  }
}
