/**
 * The environment handed to each new child: the supervisor's own environment
 * followed by one NAME=localhost:PORT entry per forwarder, where PORT is what
 * that forwarder's Cycle has just drawn. Spawning, killing and reaping the
 * child are not modelled.
 */
module Spawn {
  import opened Wrappers
  import opened Strings
  import opened Strconv
  import opened Ports
  import opened Forwarding

  /** fmt.Sprintf("%s=localhost:%d", name, port) */
  function EnvEntry(name: string, port: nat): (entry: string) {
    name + "=localhost:" + FormatDecimal(port)
  }

  /** The address part of an entry splits into the host and the port text. */
  lemma LocalhostAddress(digits: string)
    ensures SplitN2("localhost:" + digits, ':') == ["localhost", digits]
  {
    assert ':' !in "localhost";
    assert "localhost:" + digits == "localhost" + [':'] + digits;
    SplitN2Unique("localhost", digits, ':');
  }

  /** The child reads back the name, the host and the port from an entry. */
  lemma EnvEntryReadBack(name: string, port: nat)
    requires '=' !in name && port <= IntMax
    ensures SplitN2(EnvEntry(name, port), '=') == [name, "localhost:" + FormatDecimal(port)]
    ensures SplitN2("localhost:" + FormatDecimal(port), ':') == ["localhost", FormatDecimal(port)]
    ensures Atoi(FormatDecimal(port)) == Some(port)
  {
    var digits := FormatDecimal(port);
    assert EnvEntry(name, port) == name + ['='] + ("localhost:" + digits);
    SplitN2Unique(name, "localhost:" + digits, '=');
    LocalhostAddress(digits);
    AtoiFormatDecimal(port);
  }

  /**
   * The forwarders in the order a range loop over the forwarder map visits
   * them: every forwarder of the map exactly once, in an order Go leaves
   * unspecified.
   */
  predicate Enumerates(forwarders: seq<PortForwarder>, portMap: map<u16, PortForwarder>) {
    && (forall i :: 0 <= i < |forwarders| ==> forwarders[i].src in portMap && portMap[forwarders[i].src] == forwarders[i])
    && (forall k :: k in portMap ==> exists i :: 0 <= i < |forwarders| && forwarders[i].src == k)
    && (forall i, j :: 0 <= i < j < |forwarders| ==> forwarders[i].src != forwarders[j].src)
  }

  /** Forwarders with distinct source ports have as many source ports as members. */
  lemma {:induction false} DistinctCount(forwarders: seq<PortForwarder>)
    requires forall i, j :: 0 <= i < j < |forwarders| ==> forwarders[i].src != forwarders[j].src
    ensures |set i | 0 <= i < |forwarders| :: forwarders[i].src| == |forwarders|
  {
    if forwarders != [] {
      var last := |forwarders| - 1;
      var init := forwarders[..last];
      DistinctCount(init);
      var s := set i | 0 <= i < |forwarders| :: forwarders[i].src;
      var s0 := set i | 0 <= i < |init| :: init[i].src;
      assert s == s0 + {forwarders[last].src};
      assert forwarders[last].src !in s0;
    }
  }

  /** Forwarders that may be cycled one after another: all share the
      allocator, and no forwarder (no source port) comes twice. */
  predicate Cyclable(forwarders: seq<PortForwarder>, allocator: PortAllocator) {
    && (forall i :: 0 <= i < |forwarders| ==> forwarders[i].allocator == allocator)
    && (forall i, j :: 0 <= i < j < |forwarders| ==> forwarders[i].src != forwarders[j].src)
  }

  /** The runner's loop over the forwarder table visits forwarders that may be
      cycled one after another, as many as the table holds. */
  lemma {:induction false} TableEnumerationCyclable(forwarders: seq<PortForwarder>, portMap: map<u16, PortForwarder>,
                                                    allocator: PortAllocator)
    requires Keyed(portMap, allocator) && Enumerates(forwarders, portMap)
    ensures Cyclable(forwarders, allocator)
    ensures |forwarders| == |portMap|
  {
    var srcs := set i | 0 <= i < |forwarders| :: forwarders[i].src;
    assert srcs == portMap.Keys;
    DistinctCount(forwarders);
  }

  /** Forwarders holding consecutive draws hold ports in the range, pairwise
      distinct while there are no more forwarders than ports. */
  lemma SpawnPorts(forwarders: seq<PortForwarder>, start: nat, portMin: int, portMax: int)
    requires ValidRange(portMin, portMax)
    requires forall i :: 0 <= i < |forwarders| ==> forwarders[i].dest == CursorAfter(start + i + 1, portMin, portMax)
    ensures forall i :: 0 <= i < |forwarders| ==> portMin <= forwarders[i].dest < portMax
    ensures |forwarders| <= portMax - portMin ==>
      forall i, j :: 0 <= i < j < |forwarders| ==> forwarders[i].dest != forwarders[j].dest
  {
    ConsecutiveDraws(start, |forwarders|, portMin, portMax);
    forall i | 0 <= i < |forwarders|
      ensures portMin <= forwarders[i].dest < portMax
    {
      assert start < start + i + 1 <= start + |forwarders|;
    }
    if |forwarders| <= portMax - portMin {
      forall i, j | 0 <= i < j < |forwarders|
        ensures forwarders[i].dest != forwarders[j].dest
      {
        assert start < start + i + 1 < start + j + 1 <= start + |forwarders|;
      }
    }
  }

  /**
   * The env-building part of one runner iteration. Each forwarder, in the
   * order given, is cycled and advertised; the ports it hands out are
   * consecutive draws of the shared allocator.
   */
  method BuildChildEnv(inherited: seq<string>, forwarders: seq<PortForwarder>, allocator: PortAllocator)
    returns (env: seq<string>)
    requires allocator.Valid() && Cyclable(forwarders, allocator)
    modifies (set i | 0 <= i < |forwarders| :: forwarders[i]), allocator
    ensures allocator.Valid() && allocator.draws == old(allocator.draws) + |forwarders|
    ensures |env| == |inherited| + |forwarders| && env[..|inherited|] == inherited
    ensures forall i :: 0 <= i < |forwarders| ==>
      forwarders[i].dest == CursorAfter(old(allocator.draws) + i + 1, allocator.portMin, allocator.portMax)
    ensures forall i :: 0 <= i < |forwarders| ==>
      env[|inherited| + i] == EnvEntry(forwarders[i].env, forwarders[i].dest)
    ensures ValidRange(allocator.portMin, allocator.portMax) ==>
      forall i :: 0 <= i < |forwarders| ==> allocator.portMin <= forwarders[i].dest < allocator.portMax
    ensures ValidRange(allocator.portMin, allocator.portMax) && |forwarders| <= allocator.portMax - allocator.portMin ==>
      forall i, j :: 0 <= i < j < |forwarders| ==> forwarders[i].dest != forwarders[j].dest
  {
    ghost var start := allocator.draws;
    env := inherited;
    var i := 0;
    while i < |forwarders|
      invariant 0 <= i <= |forwarders|
      invariant allocator.Valid() && allocator.draws == start + i
      invariant |env| == |inherited| + i && env[..|inherited|] == inherited
      invariant forall j :: 0 <= j < i ==>
        forwarders[j].dest == CursorAfter(start + j + 1, allocator.portMin, allocator.portMax)
      invariant forall j :: 0 <= j < i ==> env[|inherited| + j] == EnvEntry(forwarders[j].env, forwarders[j].dest)
    {
      var port := forwarders[i].Cycle();
      env := env + [EnvEntry(forwarders[i].env, port)];
      i := i + 1;
    }
    if ValidRange(allocator.portMin, allocator.portMax) {
      SpawnPorts(forwarders, start, allocator.portMin, allocator.portMax);
    }
  }
}
