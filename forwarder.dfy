/**
 * A TCP forwarder: a fixed public source port, the environment variable that
 * advertises its destination to the child, and the current destination port.
 * Only the bookkeeping is modelled; the relay itself is not.
 */
module Forwarding {
  import opened Ports

  class PortForwarder {
    const env: string
    const src: u16
    /** The current destination (a uint32 in the source), written by Cycle only. */
    var dest: nat
    /** The allocator shared by all forwarders. */
    const allocator: PortAllocator

    /** newPortForwarder: the destination starts at Go's zero value. */
    constructor (env: string, src: u16, allocator: PortAllocator)
      ensures this.env == env && this.src == src && this.allocator == allocator
      ensures dest == 0
    {
      this.env := env;
      this.src := src;
      this.allocator := allocator;
      dest := 0;
    }

    /**
     * Cycle: draw the next port from the shared allocator, make it this
     * forwarder's destination and return it. The draw and the store are one
     * atomic step; env, src and every other object except the allocator are
     * left alone.
     */
    method Cycle() returns (port: u16)
      requires allocator.Valid()
      modifies this`dest, allocator
      ensures allocator.Valid() && allocator.draws == old(allocator.draws) + 1
      ensures dest == port
      ensures port == CursorAfter(allocator.draws, allocator.portMin, allocator.portMax)
      ensures ValidRange(allocator.portMin, allocator.portMax) ==>
        allocator.portMin <= port < allocator.portMax
    {
      port := allocator.Next();
      dest := port;
    }
  }

  /** The forwarder table: each forwarder is stored under its own source port
      and draws from the shared allocator. */
  predicate Keyed(portMap: map<u16, PortForwarder>, allocator: PortAllocator) {
    forall k :: k in portMap ==> portMap[k].src == k && portMap[k].allocator == allocator
  }
}
