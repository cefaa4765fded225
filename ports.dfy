/**
 * The shared destination-port allocator: one 16-bit cursor, seeded once from
 * -port-min and advanced by every draw, wrapping back to -port-min when it
 * reaches -port-max. The mutex around a draw is read as "a draw is one
 * atomic step".
 */
module Ports {

  /** Go's uint16. */
  type u16 = x: int | 0 <= x < 0x1_0000

  /** The conversion uint16(x) of a Go int: its low 16 bits. */
  function U16(x: int): (r: u16)
    ensures 0 <= x < 0x1_0000 ==> r == x
    ensures (r - x) % 0x1_0000 == 0
  {
    x % 0x1_0000
  }

  /** x++ on a uint16. */
  function Inc(x: u16): (r: u16)
    ensures r == U16(x + 1)
  {
    if x == 0xFFFF then 0 else x + 1
  }

  /** x - 1 on a uint16. */
  function Dec(x: u16): (r: u16)
    ensures r == U16(x - 1)
  {
    if x == 0 then 0xFFFF else x - 1
  }

  /** The cursor as seeded at start-up: uint16(portMin) - 1, in uint16 arithmetic. */
  function Seed(portMin: int): (r: u16)
    ensures Inc(r) == U16(portMin)
  {
    Dec(U16(portMin))
  }

  /** One draw: the cursor is incremented (wrapping at 2^16) and reset to
      portMin when it equals uint16(portMax). */
  function Step(cursor: u16, portMin: int, portMax: int): (r: u16)
    ensures r == Inc(cursor) || r == U16(portMin)
    ensures r == U16(portMax) ==> U16(portMin) == U16(portMax)
  {
    var c := Inc(cursor);
    if c == U16(portMax) then U16(portMin) else c
  }

  /** The cursor after k draws; for k >= 1 this is the k-th port handed out. */
  function CursorAfter(k: nat, portMin: int, portMax: int): (r: u16) {
    if k == 0 then Seed(portMin) else Step(CursorAfter(k - 1, portMin, portMax), portMin, portMax)
  }

  /** The configurations the allocator is meant for: a non-empty half-open
      range [portMin, portMax) of 16-bit ports. Start-up does not check it. */
  predicate ValidRange(portMin: int, portMax: int) {
    0 <= portMin < portMax <= 0x1_0000
  }

  /** The first draw returns portMin, also when portMin is 0 and the seed
      has wrapped to 65535. */
  lemma FirstDraw(portMin: int, portMax: int)
    requires ValidRange(portMin, portMax)
    ensures CursorAfter(1, portMin, portMax) == portMin
    ensures portMin == 0 ==> Seed(portMin) == 0xFFFF
  {
  }

  lemma {:induction false} MulAtLeast(x: int, n: int)
    requires x >= 1 && n > 0
    ensures x * n >= n
  {
    if x > 1 {
      MulAtLeast(x - 1, n);
      assert x * n == (x - 1) * n + n;
    }
  }

  lemma ModUnique(a: int, n: int, q: int, r: int)
    requires n > 0 && a == q * n + r && 0 <= r < n
    ensures a % n == r
  {
    var q0, r0 := a / n, a % n;
    assert a == q0 * n + r0;
    if q > q0 {
      MulAtLeast(q - q0, n);
    } else if q < q0 {
      MulAtLeast(q0 - q, n);
    }
  }

  lemma ModSucc(a: nat, n: nat)
    requires n > 0
    ensures (a + 1) % n == if a % n + 1 == n then 0 else a % n + 1
  {
    var q := a / n;
    assert a == q * n + a % n;
    if a % n + 1 == n {
      assert a + 1 == (q + 1) * n + 0;
      ModUnique(a + 1, n, q + 1, 0);
    } else {
      ModUnique(a + 1, n, q, a % n + 1);
    }
  }

  lemma ModAddPeriod(a: nat, n: nat)
    requires n > 0
    ensures (a + n) % n == a % n
  {
    var q, r := a / n, a % n;
    assert a == q * n + r;
    assert a + n == (q + 1) * n + r;
    ModUnique(a + n, n, q + 1, r);
  }

  /** Two numbers with the same remainder modulo n are at least n apart. */
  lemma SameResidueApart(a: nat, b: nat, n: nat)
    requires n > 0 && a < b && a % n == b % n
    ensures b - a >= n
  {
    var qa, qb := a / n, b / n;
    assert a == qa * n + a % n;
    assert b == qb * n + b % n;
    assert b - a == qb * n - qa * n;
    if qb <= qa {
      MulAtLeast(qa - qb + 1, n);
    } else {
      MulAtLeast(qb - qa, n);
    }
  }

  /** Inside a valid range a draw is plain successor-with-wrap. */
  lemma StepInRange(c: u16, portMin: int, portMax: int)
    requires ValidRange(portMin, portMax) && portMin <= c < portMax
    ensures Step(c, portMin, portMax) == if c + 1 == portMax then portMin else c + 1
  {
    if c + 1 == 0x1_0000 {
      assert U16(portMax) == 0;
    } else {
      assert portMax < 0x1_0000 ==> U16(portMax) == portMax;
    }
  }

  /** The k-th draw (k >= 1) is portMin + (k - 1) mod (portMax - portMin). */
  lemma {:induction false} ClosedForm(k: nat, portMin: int, portMax: int)
    requires ValidRange(portMin, portMax) && k >= 1
    ensures CursorAfter(k, portMin, portMax) == portMin + (k - 1) % (portMax - portMin)
  {
    var n := portMax - portMin;
    if k == 1 {
      FirstDraw(portMin, portMax);
      ModUnique(0, n, 0, 0);
    } else {
      ClosedForm(k - 1, portMin, portMax);
      var c := CursorAfter(k - 1, portMin, portMax);
      var r := (k - 2) % n;
      assert c == portMin + r;
      StepInRange(c, portMin, portMax);
      ModSucc(k - 2, n);
    }
  }

  /** Every port handed out lies in [portMin, portMax); portMax itself never is. */
  lemma {:induction false} DrawInRange(k: nat, portMin: int, portMax: int)
    requires ValidRange(portMin, portMax) && k >= 1
    ensures portMin <= CursorAfter(k, portMin, portMax) < portMax
  {
    ClosedForm(k, portMin, portMax);
  }

  /** The draws repeat with period exactly portMax - portMin. */
  lemma Period(k: nat, portMin: int, portMax: int)
    requires ValidRange(portMin, portMax) && k >= 1
    ensures CursorAfter(k + (portMax - portMin), portMin, portMax) == CursorAfter(k, portMin, portMax)
  {
    var n := portMax - portMin;
    ClosedForm(k, portMin, portMax);
    ClosedForm(k + n, portMin, portMax);
    ModAddPeriod(k - 1, n);
    assert k + n - 1 == (k - 1) + n;
  }

  /** Draws fewer than portMax - portMin apart are distinct. */
  lemma DistinctWithinPeriod(i: nat, j: nat, portMin: int, portMax: int)
    requires ValidRange(portMin, portMax) && 1 <= i < j < i + (portMax - portMin)
    ensures CursorAfter(i, portMin, portMax) != CursorAfter(j, portMin, portMax)
  {
    var n := portMax - portMin;
    ClosedForm(i, portMin, portMax);
    ClosedForm(j, portMin, portMax);
    if (i - 1) % n == (j - 1) % n {
      SameResidueApart(i - 1, j - 1, n);
    }
  }

  /** The draws numbered start+1 .. start+count stay in the range, and they are
      pairwise distinct when there are no more of them than ports in the range. */
  lemma ConsecutiveDraws(start: nat, count: nat, portMin: int, portMax: int)
    requires ValidRange(portMin, portMax)
    ensures forall k :: start < k <= start + count ==> portMin <= CursorAfter(k, portMin, portMax) < portMax
    ensures count <= portMax - portMin ==>
      forall k1, k2 :: start < k1 < k2 <= start + count ==>
        CursorAfter(k1, portMin, portMax) != CursorAfter(k2, portMin, portMax)
  {
    forall k | start < k <= start + count
      ensures portMin <= CursorAfter(k, portMin, portMax) < portMax
    {
      DrawInRange(k, portMin, portMax);
    }
    if count <= portMax - portMin {
      forall k1, k2 | start < k1 < k2 <= start + count
        ensures CursorAfter(k1, portMin, portMax) != CursorAfter(k2, portMin, portMax)
      {
        DistinctWithinPeriod(k1, k2, portMin, portMax);
      }
    }
  }

  /** Every port of the range comes up in the first portMax - portMin draws,
      in increasing order, and then the cycle starts again at portMin. */
  lemma FirstCycle(portMin: int, portMax: int)
    requires ValidRange(portMin, portMax)
    ensures forall k :: 1 <= k <= portMax - portMin ==> CursorAfter(k, portMin, portMax) == portMin + k - 1
    ensures CursorAfter(portMax - portMin + 1, portMin, portMax) == portMin
  {
    forall k | 1 <= k <= portMax - portMin
      ensures CursorAfter(k, portMin, portMax) == portMin + k - 1
    {
      ClosedForm(k, portMin, portMax);
      ModUnique(k - 1, portMax - portMin, 0, k - 1);
    }
    ClosedForm(portMax - portMin + 1, portMin, portMax);
    ModUnique(portMax - portMin, portMax - portMin, 1, 0);
  }

  /** port-min 50000, port-max 50003: the draws are 50000, 50001, 50002, 50000, 50001. */
  lemma ExampleCycle()
    ensures CursorAfter(1, 50000, 50003) == 50000
    ensures CursorAfter(2, 50000, 50003) == 50001
    ensures CursorAfter(3, 50000, 50003) == 50002
    ensures CursorAfter(4, 50000, 50003) == 50000
    ensures CursorAfter(5, 50000, 50003) == 50001
  {
    FirstCycle(50000, 50003);
    Period(2, 50000, 50003);
  }

  /** Start-up never checks the range: with port-max beyond 65535 the cursor
      wraps through 0, below port-min. */
  lemma OversizedRangeLeavesRange()
    ensures CursorAfter(1, 65535, 70000) == 65535
    ensures CursorAfter(2, 65535, 70000) == 0
  {
  }

  /**
   * The allocator object that replaces the global cursor and its mutex; every
   * forwarder holds a reference to the same one.
   */
  class PortAllocator {
    const portMin: int
    const portMax: int
    var cursor: u16
    /** How many draws have been made so far. */
    ghost var draws: nat

    ghost predicate Valid()
      reads this
    {
      cursor == CursorAfter(draws, portMin, portMax)
    }

    /** The flag values as parsed, and the cursor seeded to uint16(portMin) - 1. */
    constructor (portMin: int, portMax: int)
      ensures this.portMin == portMin && this.portMax == portMax
      ensures Valid() && draws == 0 && cursor == Seed(portMin)
    {
      this.portMin := portMin;
      this.portMax := portMax;
      cursor := Seed(portMin);
      draws := 0;
    }

    /** nextPort: advance the shared cursor once and return its new value. */
    method Next() returns (port: u16)
      requires Valid()
      modifies this
      ensures Valid() && draws == old(draws) + 1
      ensures port == cursor
      ensures ValidRange(portMin, portMax) ==>
        portMin <= port < portMax && port == portMin + old(draws) % (portMax - portMin)
    {
      cursor := Inc(cursor);
      if cursor == U16(portMax) {
        cursor := U16(portMin);
      }
      draws := draws + 1;
      port := cursor;
      if ValidRange(portMin, portMax) {
        ClosedForm(draws, portMin, portMax);
      }
    }
  }
}
