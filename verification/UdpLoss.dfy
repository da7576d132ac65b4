/**
 The loss counters of a UDP receiver. Each packet carries its number; the receiver keeps the highest number seen, counts
 the numbers it skips, and counts the packets that arrive with no higher number than before.
 */
module UdpLoss {

  datatype Counters = Counters(packetCount: int, cntError: int, outOfOrder: int)

  /** The counters after these packet numbers arrived, in this order. */
  function After(arrived: seq<int>): Counters {
    if arrived == [] then Counters(0, 0, 0)
    else
      var (c, pcount) := (After(arrived[..|arrived| - 1]), arrived[|arrived| - 1]);
      if pcount > c.packetCount then c.(packetCount := pcount, cntError := c.cntError + pcount - 1 - c.packetCount)
      else c.(outOfOrder := c.outOfOrder + 1)
  }

  class Stream {
    var packetCount: int
    var cntError: int
    var outOfOrderPackets: int
    var bytesReceived: int
    ghost var arrived: seq<int> // the packet numbers received so far

    ghost predicate Valid()
      reads this
    {
      Counters(packetCount, cntError, outOfOrderPackets) == After(arrived)
    }

    constructor ()
      ensures Valid() && arrived == [] && bytesReceived == 0
    {
      packetCount, cntError, outOfOrderPackets, bytesReceived, arrived := 0, 0, 0, 0, [];
    }

    /** `result` is what the read returned, and `pcount` the number in the packet if it did not fail. */
    method Receive(result: int, pcount: int) returns (r: int)
      requires Valid()
      modifies this
      ensures Valid() && r == if result < 0 then -1 else result
      ensures arrived == if result < 0 then old(arrived) else old(arrived) + [pcount]
      ensures bytesReceived == old(bytesReceived) + if result < 0 then 0 else result
    {
      if result < 0 {
        return -1;
      }
      bytesReceived := bytesReceived + result;
      if pcount >= packetCount + 1 {
        if pcount > packetCount + 1 {
          cntError := cntError + (pcount - 1) - packetCount;
        }
        packetCount := pcount;
      } else {
        outOfOrderPackets := outOfOrderPackets + 1;
      }
      arrived := arrived + [pcount];
      assert arrived[..|arrived| - 1] == old(arrived);
      return result;
    }
  }

  // ---------- What the counters say about the packets ----------

  /** The different numbers that a sender can have given to the packets: those above 0. */
  ghost function Numbers(arrived: seq<int>): set<int> {
    set x | x in arrived && x > 0
  }

  /** The numbers up to the highest seen that never arrived. */
  ghost function Missing(arrived: seq<int>): set<int> {
    set k | 1 <= k <= After(arrived).packetCount && k !in arrived
  }

  ghost predicate NoDuplicates(arrived: seq<int>) {
    forall i, j :: 0 <= i < j < |arrived| ==> arrived[i] != arrived[j]
  }

  /** packetCount is the highest number seen, and 0 before there was a positive one. */
  lemma {:induction false} CountIsHighest(arrived: seq<int>)
    ensures forall x :: x in arrived ==> x <= After(arrived).packetCount
    ensures After(arrived).packetCount == 0 || After(arrived).packetCount in arrived
    ensures After(arrived).packetCount >= 0
  {
    if arrived != [] {
      var n := |arrived| - 1;
      CountIsHighest(arrived[..n]);
      assert arrived == arrived[..n] + [arrived[n]];
    }
  }

  /** Skipped numbers less late packets is the highest number less the packets that arrived. */
  lemma {:induction false} DifferenceOfCounters(arrived: seq<int>)
    ensures var c := After(arrived); c.cntError - c.outOfOrder == c.packetCount - |arrived|
    ensures 0 <= After(arrived).cntError <= After(arrived).packetCount
    ensures 0 <= After(arrived).outOfOrder <= |arrived|
  {
    if arrived != [] {
      DifferenceOfCounters(arrived[..|arrived| - 1]);
      CountIsHighest(arrived[..|arrived| - 1]);
    }
  }

  ghost function UpTo(n: nat): set<int> {
    if n == 0 then {} else UpTo(n - 1) + {n}
  }

  lemma {:induction false} UpToSize(n: nat)
    ensures |UpTo(n)| == n && forall k :: k in UpTo(n) <==> 1 <= k <= n
  {
    if n > 0 {
      UpToSize(n - 1);
    }
  }

  /** Every number up to the highest either arrived or is missing. */
  lemma ArrivedOrMissing(arrived: seq<int>)
    ensures |Missing(arrived)| + |Numbers(arrived)| == After(arrived).packetCount
  {
    var n := After(arrived).packetCount;
    CountIsHighest(arrived);
    UpToSize(n);
    assert UpTo(n) == Missing(arrived) + Numbers(arrived);
  }

  /** Packet i is late and fills a gap: its number is no longer expected, and it did not arrive before. */
  ghost predicate FillsGap(arrived: seq<int>, i: nat)
    requires i < |arrived|
  {
    0 < arrived[i] <= After(arrived[..i]).packetCount && arrived[i] !in arrived[..i]
  }

  /** A positive number that was not there before makes one more. */
  lemma NumbersNext(arrived: seq<int>)
    requires arrived != []
    ensures var n := |arrived| - 1;
            |Numbers(arrived)| == |Numbers(arrived[..n])| +
              if arrived[n] > 0 && arrived[n] !in arrived[..n] then 1 else 0
  {
    var n := |arrived| - 1;
    var x := arrived[n];
    assert arrived == arrived[..n] + [x];
    assert Numbers(arrived) == Numbers(arrived[..n]) + if x > 0 then {x} else {};
  }

  lemma FillsGapBefore(arrived: seq<int>)
    requires arrived != []
    ensures var n := |arrived| - 1;
            (forall i :: 0 <= i < |arrived| ==> !FillsGap(arrived, i)) <==>
              !FillsGap(arrived, n) && forall i :: 0 <= i < n ==> !FillsGap(arrived[..n], i)
  {
    var n := |arrived| - 1;
    forall i | 0 <= i < n ensures FillsGap(arrived, i) <==> FillsGap(arrived[..n], i) {
      assert arrived[..n][..i] == arrived[..i];
    }
  }

  /** How many different numbers arrived: each packet in order brings a new one, and so does each that fills a gap. */
  lemma {:induction false} NumbersCounted(arrived: seq<int>)
    ensures |arrived| - After(arrived).outOfOrder <= |Numbers(arrived)| <= |arrived|
    ensures |Numbers(arrived)| == |arrived| - After(arrived).outOfOrder <==>
              forall i :: 0 <= i < |arrived| ==> !FillsGap(arrived, i)
  {
    if arrived == [] {
      assert Numbers(arrived) == {};
    } else {
      var n := |arrived| - 1;
      NumbersCounted(arrived[..n]);
      CountIsHighest(arrived[..n]);
      FillsGapBefore(arrived);
      NumbersNext(arrived);
      hide Numbers;
    }
  }

  ghost predicate AllPositive(arrived: seq<int>) {
    forall x :: x in arrived ==> x > 0
  }

  lemma DistinctNext(arrived: seq<int>)
    requires arrived != []
    ensures var n := |arrived| - 1;
            NoDuplicates(arrived) && AllPositive(arrived) <==>
              NoDuplicates(arrived[..n]) && AllPositive(arrived[..n]) && arrived[n] > 0 && arrived[n] !in arrived[..n]
  {
    var n := |arrived| - 1;
    assert arrived[n] in arrived && forall x :: x in arrived <==> x in arrived[..n] || x == arrived[n];
    assert AllPositive(arrived) <==> AllPositive(arrived[..n]) && arrived[n] > 0;
    assert NoDuplicates(arrived) <==> NoDuplicates(arrived[..n]) && arrived[n] !in arrived[..n];
  }

  lemma {:induction false} NumbersDistinct(arrived: seq<int>)
    ensures |Numbers(arrived)| == |arrived| <==> NoDuplicates(arrived) && AllPositive(arrived)
  {
    if arrived == [] {
      assert Numbers(arrived) == {};
    } else {
      var n := |arrived| - 1;
      NumbersDistinct(arrived[..n]);
      NumbersCounted(arrived[..n]);
      NumbersNext(arrived);
      DistinctNext(arrived);
      hide *;
    }
  }

  /**
   The loss lies between the two figures the receiver has: skipped numbers, with and without the late packets taken off.
   The lower figure is exact for packets that arrive at most once, in any order; the upper one if no gap is ever filled.
   */
  lemma LossIsBounded(arrived: seq<int>)
    ensures var c := After(arrived); c.cntError - c.outOfOrder <= |Missing(arrived)| <= c.cntError
    ensures var c := After(arrived);
            |Missing(arrived)| == c.cntError - c.outOfOrder <==> NoDuplicates(arrived) && AllPositive(arrived)
    ensures var c := After(arrived);
            |Missing(arrived)| == c.cntError <==> forall i :: 0 <= i < |arrived| ==> !FillsGap(arrived, i)
  {
    DifferenceOfCounters(arrived);
    ArrivedOrMissing(arrived);
    NumbersCounted(arrived);
    NumbersDistinct(arrived);
  }
}
