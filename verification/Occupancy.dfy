/** Occupancy of a partition: the used fraction of its space.  Floating point is replaced by exact
    reals. */
module Occupancy {
  import opened Cell

  function OccOf(free: int, size: pos): real {
    1.0 - free as real / size as real
  }

  /** The occupancy of the size is what is not free. */
  lemma OccOfAll(free: int, size: pos)
    ensures OccOf(free, size) * size as real == (size - free) as real
  {
    var s := size as real;
    assert (1.0 - free as real / s) * s == s - (free as real / s) * s;
  }

  function Occ(p: Partition): real
    reads p`free
  {
    OccOf(p.free, p.size)
  }

  /** Occupancy with and without a volume. */
  function OccWith(p: Partition, v: Volume): real
    reads p`free
  {
    OccOf(p.free - v.size, p.size)
  }

  function OccWithout(p: Partition, v: Volume): real
    reads p`free
  {
    OccOf(p.free + v.size, p.size)
  }

  /** More free space, less occupancy. */
  lemma OccFalls(free: int, free': int, size: pos)
    ensures free <= free' <==> OccOf(free, size) >= OccOf(free', size)
    ensures free < free' <==> OccOf(free, size) > OccOf(free', size)
  {
    var s := size as real;
    assert OccOf(free, size) - OccOf(free', size) == (free' - free) as real / s;
    if free < free' {
      assert (free' - free) as real / s > 0.0;
    } else if free > free' {
      assert (free - free') as real / s > 0.0;
      assert (free' - free) as real / s == -((free - free') as real / s);
    }
  }
}
