/** One trace of the scope: a fixed-capacity ring of (time, level) samples for a
    single (universe, address) pair, overwriting the oldest sample when full. */
module ScopeChannels {

  /** Number of slots in every channel's ring (RING_BUF_SIZE). Its value lives in a
      header outside this model; the proofs use only that it is positive. */
  const RingBufSize: nat := 50

  /** A sample: `time` in milliseconds (the point's x), `level` the stored value (its y). */
  datatype Point = Point(time: real, level: real)

  function Min(a: int, b: int): int { if a <= b then a else b }

  function Max(a: int, b: int): int { if a >= b then a else b }

  /** The time of the newest sample of `h`, or 0 when `h` is empty: what
      `m_highestTime` holds after the points of `h` were added to a cleared channel. */
  function Highest(h: seq<Point>): real
  {
    if |h| == 0 then 0.0 else h[|h| - 1].time
  }

  lemma ModBelow(a: int, m: int)
    requires 0 <= a < m
    ensures a % m == a
  {
  }

  lemma ModWrapOnce(a: int, m: int)
    requires 0 < m <= a < 2 * m
    ensures a % m == a - m
  {
  }

  /** The slot holding the k-th oldest of `size` retained samples when the write
      cursor is at `last`: slot k while the ring is filling, otherwise k places after
      the cursor, wrapping round the end of the array. */
  function Slot(last: int, size: int, k: int): int
  {
    if size < RingBufSize then k
    else if last + k < RingBufSize then last + k
    else last + k - RingBufSize
  }

  /** The ring invariant over the slot contents `a`. While the ring is not full the
      cursor equals the count, which is what makes `(last + index) % size` in
      GetPoint start at the oldest sample; retained sample k of the newest `size`
      points of `h` sits in slot Slot(last, size, k). */
  ghost predicate Ring(a: seq<Point>, last: int, size: int, h: seq<Point>)
  {
    && |a| == RingBufSize
    && 0 <= size <= RingBufSize
    && 0 <= last < RingBufSize
    && (size < RingBufSize ==> last == size)
    && size == Min(|h|, RingBufSize)
    && (forall k :: 0 <= k < size ==> a[Slot(last, size, k)] == h[|h| - size + k])
  }

  /** Writing at the cursor, advancing it modulo the capacity and counting up to the
      capacity keeps the ring invariant for the history with the new point. */
  lemma RingAdd(a: seq<Point>, last: int, size: int, h: seq<Point>, p: Point)
    requires Ring(a, last, size, h)
    ensures Ring(a[last := p], (last + 1) % RingBufSize,
                 if size < RingBufSize then size + 1 else size, h + [p])
  {
    var a', last', size', h' := a[last := p], (last + 1) % RingBufSize,
                                if size < RingBufSize then size + 1 else size, h + [p];
    if last + 1 < RingBufSize { ModBelow(last + 1, RingBufSize); } else { assert last' == 0; }
    forall k | 0 <= k < size'
      ensures a'[Slot(last', size', k)] == h'[|h'| - size' + k]
    {
      if size < RingBufSize {
        assert Slot(last', size', k) == k;
        if k < size {
          assert Slot(last, size, k) == k;
        }
      } else if k < size' - 1 {
        var slot := Slot(last, size, k + 1);
        assert Slot(last', size', k) == slot && slot != last;
        assert h'[|h'| - size' + k] == h[|h| - size + k + 1];
      } else {
        assert Slot(last', size', k) == last;
      }
    }
  }

  /** Reading slot `(last + index) % size`, as GetPoint does, gives retained sample
      `index`, oldest first. */
  lemma RingGet(a: seq<Point>, last: int, size: int, h: seq<Point>, index: int)
    requires Ring(a, last, size, h) && 0 <= index < size
    ensures 0 <= (last + index) % size < |a|
    ensures a[(last + index) % size] == h[|h| - size + index]
  {
    if last + index < size {
      ModBelow(last + index, size);
    } else {
      ModWrapOnce(last + index, size);
    }
    assert (last + index) % size == Slot(last, size, index);
  }

  /** The newest `size` points of `h`, after `p` is added and the count saturates at
      the capacity: the old ones plus `p`, minus the oldest once the ring was full. */
  lemma SamplesAdd(h: seq<Point>, size: int, p: Point)
    requires 0 <= size <= |h| && size <= RingBufSize
    ensures var size' := if size < RingBufSize then size + 1 else size;
            (h + [p])[|h| + 1 - size'..]
            == if size < RingBufSize then h[|h| - size..] + [p] else h[|h| - size..][1..] + [p]
  {
  }

  class ScopeChannel {
    var universe: int
    var address: int
    var sixteenBit: bool
    var enabled: bool

    const points: array<Point>
    /** Write cursor: the slot the next point goes to. */
    var last: int
    /** Number of valid samples, saturating at RingBufSize. */
    var size: int
    var highestTime: real

    /** Every point added since the last clear, oldest first. */
    ghost var History: seq<Point>

    /** The retained samples, oldest first: the newest `size` points of History. */
    ghost function Samples(): (s: seq<Point>)
      reads this
      requires 0 <= size <= |History|
      ensures |s| == size
    {
      History[|History| - size..]
    }

    /** The ring invariant. While the ring is not full the cursor equals the count,
        which is what makes `(last + index) % size` in GetPoint start at the oldest
        sample; retained sample k sits in slot Slot(last, size, k). */
    ghost predicate Valid()
      reads this, points
    {
      && Ring(points[..], last, size, History)
      && highestTime == Highest(History)
    }

    /** The default channel watches universe 1, address 1, eight-bit, and starts cleared. */
    constructor ()
      ensures Valid() && fresh(points)
      ensures universe == 1 && address == 1 && !sixteenBit && enabled
      ensures History == [] && size == 0 && last == 0 && highestTime == 0.0
    {
      universe := 1;
      address := 1;
      sixteenBit := false;
      enabled := true;
      points := new Point[RingBufSize];
      new;
      Clear();
    }

    /** A channel for a given (universe, address), eight-bit, starting cleared. */
    constructor WithIdentity(universe: int, address: int)
      ensures Valid() && fresh(points)
      ensures this.universe == universe && this.address == address && !sixteenBit && enabled
      ensures History == [] && size == 0 && last == 0 && highestTime == 0.0
    {
      this.universe := universe;
      this.address := address;
      sixteenBit := false;
      enabled := true;
      points := new Point[RingBufSize];
      new;
      Clear();
    }

    /** Stores `p` at the cursor, advances the cursor modulo the capacity, counts up
        to the capacity and records `p`'s time as the highest time. */
    method AddPoint(p: Point)
      requires Valid()
      modifies this`last, this`size, this`highestTime, this`History, points
      ensures Valid()
      ensures History == old(History) + [p]
      ensures points[old(last)] == p
      ensures last == (old(last) + 1) % RingBufSize
      ensures size == if old(size) < RingBufSize then old(size) + 1 else old(size)
      ensures highestTime == p.time
      ensures universe == old(universe) && address == old(address)
      ensures sixteenBit == old(sixteenBit) && enabled == old(enabled)
      ensures Samples() == if old(size) < RingBufSize then old(Samples()) + [p]
                           else old(Samples())[1..] + [p]
    {
      ghost var before := Samples();
      RingAdd(points[..], last, size, History, p);
      SamplesAdd(History, size, p);
      points[last] := p;
      last := (last + 1) % RingBufSize;
      if size < RingBufSize {
        size := size + 1;
      }
      highestTime := p.time;
      History := History + [p];
      assert points[..] == old(points[..])[old(last) := p];
      assert Samples() == if old(size) < RingBufSize then before + [p] else before[1..] + [p];
    }

    /** Forgets every sample: count, cursor and highest time go back to 0. */
    method Clear()
      requires points.Length == RingBufSize
      modifies this`last, this`size, this`highestTime, this`History
      ensures Valid()
      ensures History == [] && size == 0 && last == 0 && highestTime == 0.0
      ensures universe == old(universe) && address == old(address)
      ensures sixteenBit == old(sixteenBit) && enabled == old(enabled)
    {
      size := 0;
      last := 0;
      highestTime := 0.0;
      History := [];
    }

    /** The number of retained samples: all points since the last clear, up to the capacity. */
    function Count(): (n: int)
      reads this, points
      requires Valid()
      ensures n == Min(|History|, RingBufSize)
      ensures n == |Samples()|
    {
      size
    }

    /** The sample `index` positions after the oldest retained one. After N points
        since the last clear this is point number max(0, N - RingBufSize) + index. */
    method GetPoint(index: int) returns (p: Point)
      requires Valid()
      requires 0 <= index < size
      ensures p == Samples()[index]
      ensures p == History[Max(0, |History| - RingBufSize) + index]
    {
      RingGet(points[..], last, size, History, index);
      p := points[(last + index) % size];
    }

    /** Moves the channel to another universe; the samples are dropped only when the
        universe actually changes. */
    method SetUniverse(value: int)
      requires Valid()
      modifies this`universe, this`last, this`size, this`highestTime, this`History
      ensures Valid()
      ensures universe == value
      ensures old(universe) == value ==> unchanged(this)
      ensures old(universe) != value ==> History == [] && size == 0 && last == 0 && highestTime == 0.0
    {
      if universe != value {
        universe := value;
        Clear();
      }
    }

    /** Moves the channel to another address; the samples are dropped only when the
        address actually changes. */
    method SetAddress(value: int)
      requires Valid()
      modifies this`address, this`last, this`size, this`highestTime, this`History
      ensures Valid()
      ensures address == value
      ensures old(address) == value ==> unchanged(this)
      ensures old(address) != value ==> History == [] && size == 0 && last == 0 && highestTime == 0.0
    {
      if address != value {
        address := value;
        Clear();
      }
    }
  }
}
