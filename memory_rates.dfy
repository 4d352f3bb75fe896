/**
 * The in-memory rate history (pkg/infrastructure/memory/client.go): one
 * bounded FIFO of observed rates per order side.
 */
module MemoryRates {
  import opened Wrappers
  import opened Model

  /** The most a queue can hold: `maxSize`, or nothing when it is negative. */
  function Capacity(maxSize: int): nat { if maxSize < 0 then 0 else maxSize }

  /**
   * Appending `x` and dropping the front element once the queue is longer
   * than `maxSize`.
   */
  function Pushed(q: seq<OrderRate>, x: OrderRate, maxSize: int): seq<OrderRate>
  {
    if |q + [x]| > maxSize then (q + [x])[1..] else q + [x]
  }

  /** Pushing onto a queue within capacity keeps it within capacity, keeps `x` last, drops only the oldest. */
  lemma PushedBounded(q: seq<OrderRate>, x: OrderRate, maxSize: int)
    requires |q| <= Capacity(maxSize)
    ensures |Pushed(q, x, maxSize)| == if |q| + 1 <= Capacity(maxSize) then |q| + 1 else Capacity(maxSize)
    ensures |Pushed(q, x, maxSize)| <= Capacity(maxSize)
    ensures maxSize >= 1 ==> Pushed(q, x, maxSize)[|Pushed(q, x, maxSize)| - 1] == x
    ensures Pushed(q, x, maxSize) == (q + [x])[|q| + 1 - |Pushed(q, x, maxSize)|..]
  {
  }

  class RateRepository {
    var maxSize: int
    var buyQueue: seq<OrderRate>
    var sellQueue: seq<OrderRate>

    ghost predicate Valid()
      reads this
    {
      |buyQueue| <= Capacity(maxSize) && |sellQueue| <= Capacity(maxSize)
    }

    /** `NewRateRepository`: both queues empty. */
    constructor (maxSize: int)
      ensures Valid()
      ensures this.maxSize == maxSize && buyQueue == [] && sellQueue == []
    {
      this.maxSize := maxSize;
      buyQueue := [];
      sellQueue := [];
    }

    /** The queue that holds rates of `side`: SellSide has its own, every other side shares the buy queue. */
    function Queue(side: int): seq<OrderRate>
      reads this
    {
      if side == SellSide then sellQueue else buyQueue
    }

    /**
     * `AddOrderRate`: the rate goes to the end of its side's queue, and the
     * oldest entry is dropped when the queue grows past `maxSize`; the other
     * queue is untouched.
     */
    method AddOrderRate(o: OrderRate)
      requires Valid()
      modifies this
      ensures Valid() && maxSize == old(maxSize)
      ensures o.side == SellSide ==> sellQueue == Pushed(old(sellQueue), o, maxSize) && buyQueue == old(buyQueue)
      ensures o.side != SellSide ==> buyQueue == Pushed(old(buyQueue), o, maxSize) && sellQueue == old(sellQueue)
      ensures |Queue(o.side)| == if |old(Queue(o.side))| + 1 <= Capacity(maxSize) then |old(Queue(o.side))| + 1 else Capacity(maxSize)
      ensures maxSize >= 1 ==> Queue(o.side)[|Queue(o.side)| - 1] == o
    {
      if o.side == SellSide {
        PushedBounded(sellQueue, o, maxSize);
        sellQueue := sellQueue + [o];
        if |sellQueue| > maxSize {
          sellQueue := sellQueue[1..];
        }
      } else {
        PushedBounded(buyQueue, o, maxSize);
        buyQueue := buyQueue + [o];
        if |buyQueue| > maxSize {
          buyQueue := buyQueue[1..];
        }
      }
    }

    /** `GetCurrentRate`: nil for an empty queue, otherwise the newest rate of the side. */
    method GetCurrentRate(t: CurrencyType, s: int) returns (r: Option<real>)
      ensures r.None? <==> Queue(s) == []
      ensures r.Some? ==> r.value == Queue(s)[|Queue(s)| - 1].rate
    {
      if s == SellSide {
        var size := |sellQueue|;
        if size == 0 {
          return None;
        }
        return Some(sellQueue[size - 1].rate);
      }
      var size := |buyQueue|;
      if size == 0 {
        return None;
      }
      return Some(buyQueue[size - 1].rate);
    }

    /** `GetRateHistory`: the rates of the side's queue, oldest first. */
    method GetRateHistory(t: CurrencyType, s: int) returns (h: seq<real>)
      ensures |h| == |Queue(s)|
      ensures forall k :: 0 <= k < |h| ==> h[k] == Queue(s)[k].rate
    {
      var q := if s == SellSide then sellQueue else buyQueue;
      h := [];
      var i := 0;
      while i < |q|
        invariant 0 <= i <= |q|
        invariant |h| == i
        invariant forall k :: 0 <= k < i ==> h[k] == q[k].rate
      {
        h := h + [q[i].rate];
        i := i + 1;
      }
    }

    /** `GetHistorySizeMax`. */
    method GetHistorySizeMax() returns (n: int)
      ensures n == maxSize
    {
      return maxSize;
    }
  }
}
