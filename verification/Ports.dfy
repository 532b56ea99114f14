// The shared UDP port allocator of internal/rtc/ports_allocator.go.
module Ports {
  import opened Common

  type PortMap = map<GoInt, bool>

  function Free(ports: PortMap): set<GoInt> { set p | p in ports && !ports[p] }

  function Taken(ports: PortMap): set<GoInt> { set p | p in ports && ports[p] }

  predicate Within(rangeStart: GoInt, rangeEnd: GoInt, p: GoInt) { rangeStart <= p < rangeEnd }

  function Range(rangeStart: GoInt, rangeEnd: GoInt): set<GoInt> {
    set p: GoInt | rangeStart <= p < rangeEnd && Within(rangeStart, rangeEnd, p)
  }

  /** What a sequence of allocations of the given ports leaves. */
  function Mark(ports: PortMap, ps: set<GoInt>): PortMap {
    ports + map p | p in ps :: true
  }

  /** What deallocating the given ports leaves; a port outside the map would be added to it. */
  function Release(ports: PortMap, ps: set<GoInt>): PortMap {
    ports + map p | p in ps :: false
  }

  /** Allocated plus free is the number of ports, whatever the map holds. */
  lemma FreePlusTaken(ports: PortMap)
    ensures |Free(ports)| + |Taken(ports)| == |ports.Keys|
  {
    assert Free(ports) + Taken(ports) == ports.Keys;
  }

  /** Handing out free ports and taking them back restores the map. */
  lemma ReleaseUndoesMark(ports: PortMap, ps: set<GoInt>)
    requires ps <= Free(ports)
    ensures Release(Mark(ports, ps), ps) == ports
    ensures Free(Mark(ports, ps)) == Free(ports) - ps
    ensures |Free(Mark(ports, ps))| == |Free(ports)| - |ps|
  {
    var marked := Mark(ports, ps);
    var restored := Release(marked, ps);
    forall p | p in ps ensures p in ports && !ports[p] {
      assert p in Free(ports);
    }
    assert restored.Keys == ports.Keys;
    assert forall p :: p in ports ==> restored[p] == ports[p];
    assert Free(marked) == Free(ports) - ps;
    assert Free(ports) == Free(marked) + ps;
  }

  /** Marking one free port uses it up; freeing one port never makes fewer free. */
  lemma FlipSizes(ports: PortMap, p: GoInt)
    requires p in ports
    ensures !ports[p] ==> |Free(ports[p := true])| == |Free(ports)| - 1
    ensures |Free(ports[p := false])| >= |Free(ports)|
  {
    assert Free(ports[p := true]) == Free(ports) - {p};
    assert !ports[p] ==> p in Free(ports);
    assert Free(ports[p := false]) == Free(ports) + {p};
    SubsetSize(Free(ports), Free(ports) + {p});
  }

  class PortsAllocator {
    var udpPorts: PortMap

    constructor (rangeStart: GoInt, rangeEnd: GoInt)
      ensures udpPorts.Keys == Range(rangeStart, rangeEnd)
      ensures forall p: GoInt :: p in udpPorts <==> rangeStart <= p < rangeEnd
      ensures Taken(udpPorts) == {}
    {
      udpPorts := map[];
      new;
      var i: GoInt := rangeStart;
      while i < rangeEnd
        invariant i == rangeStart || rangeStart < i <= rangeEnd
        invariant udpPorts.Keys == Range(rangeStart, i)
        invariant Taken(udpPorts) == {}
      {
        udpPorts := udpPorts[i := false];
        i := i + 1;
      }
      assert Range(rangeStart, rangeEnd) == Range(rangeStart, i);
    }

    /** The search over the map, in an order the map chooses. */
    static method FindFree(ports: PortMap) returns (found: Option<GoInt>)
      ensures found.Some? ==> found.value in Free(ports)
      ensures found.None? <==> Free(ports) == {}
    {
      var rest: set<GoInt> := ports.Keys;
      while rest != {}
        invariant rest <= ports.Keys
        invariant Free(ports) <= rest
        decreases |rest|
      {
        var port: GoInt :| port in rest;
        if !ports[port] {
          assert port in Free(ports);
          return Some(port);
        }
        rest := rest - {port};
      }
      return None;
    }

    /** Fails exactly when no port is free; which free port is taken depends on the map order. */
    method Allocate() returns (port: GoInt, ok: bool)
      modifies this
      ensures ok <==> Free(old(udpPorts)) != {}
      ensures ok ==> port in Free(old(udpPorts)) && udpPorts == old(udpPorts)[port := true]
      ensures !ok ==> port == 0 && udpPorts == old(udpPorts)
    {
      var found := FindFree(udpPorts);
      if found.None? {
        return 0, false;
      }
      udpPorts := udpPorts[found.value := true];
      return found.value, true;
    }

    method Deallocate(port: GoInt)
      modifies this
      ensures udpPorts == old(udpPorts)[port := false]
    {
      udpPorts := udpPorts[port := false];
    }
  }
}
