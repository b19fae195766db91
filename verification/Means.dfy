/** The running averages of the size agent and the number agent, when they are not computed anew:
    built up one partition at a time, and corrected at every move. */
module Means {
  import opened Cell
  import opened Occupancy
  import opened Chain
  import opened Ledger
  import opened Votes
  import opened Balancing

  ghost predicate About(b: Books, parts: seq<Partition>) {
    Distinct(parts) && (forall p :: p in parts ==> p in b.part)
  }

  ghost function Occs(b: Books, parts: seq<Partition>): real
    requires About(b, parts)
  {
    if parts == [] then 0.0
    else Occs(b, parts[..|parts| - 1]) + OccOf(b.part[parts[|parts| - 1]].free, parts[|parts| - 1].size)
  }

  ghost function Numbers(b: Books, parts: seq<Partition>): real
    requires About(b, parts)
  {
    if parts == [] then 0.0
    else Numbers(b, parts[..|parts| - 1]) + PerSize(b.part[parts[|parts| - 1]].nvols, parts[|parts| - 1].size)
  }

  lemma OccsGrow(b: Books, parts: seq<Partition>, k: nat)
    requires About(b, parts) && k < |parts|
    ensures Occs(b, parts[..k + 1]) == Occs(b, parts[..k]) + OccOf(b.part[parts[k]].free, parts[k].size)
  {
    assert parts[..k + 1][..k] == parts[..k];
  }

  lemma NumbersGrow(b: Books, parts: seq<Partition>, k: nat)
    requires About(b, parts) && k < |parts|
    ensures Numbers(b, parts[..k + 1]) == Numbers(b, parts[..k]) + PerSize(b.part[parts[k]].nvols, parts[k].size)
  {
    assert parts[..k + 1][..k] == parts[..k];
  }

  lemma DividedBack(q: real, sum: real, n: real)
    requires n > 0.0
    ensures q * n == sum <==> q == sum / n
  {
  }

  /** The true means. */
  ghost function MeanOcc(b: Books, parts: seq<Partition>): real
    requires About(b, parts) && parts != []
  {
    Occs(b, parts) / |parts| as real
  }

  ghost function MeanNumber(b: Books, parts: seq<Partition>): real
    requires About(b, parts) && parts != []
  {
    Numbers(b, parts) / |parts| as real
  }

  function Inverse(p: Partition): real {
    1.0 / p.size as real
  }

  /** A running mean: the average so far and how many partitions it is over. */
  class RunningMean {
    var avg: real
    var npart: nat

    constructor ()
      ensures avg == 0.0 && npart == 0
    {
      avg, npart := 0.0, 0;
    }

    /** What has been added up. */
    ghost function Sum(): real
      reads this
    {
      avg * npart as real
    }

    lemma MeanIs(sum: real)
      ensures npart == 0 ==> Sum() == 0.0
      ensures npart > 0 ==> (Sum() == sum <==> avg == sum / npart as real)
    {
      if npart > 0 {
        DividedBack(avg, sum, npart as real);
      }
    }

    method Add(x: real)
      modifies this
      ensures npart == old(npart) + 1 && Sum() == old(Sum()) + x
    {
      npart := npart + 1;
      avg := (avg * (npart - 1) as real + x) / npart as real;
      DividedBack(avg, old(avg * npart as real) + x, npart as real);
    }

    /** The size agent learns the cell. */
    method ServconfSize(parts: seq<Partition>, ghost b: Books)
      requires npart == 0 && About(b, parts) && forall p :: p in parts ==> b.part[p].free == p.free
      modifies this
      ensures npart == |parts| && (parts != [] ==> avg == MeanOcc(b, parts))
    {
      assert Occs(b, parts[..0]) == 0.0;
      MeanIs(0.0);
      hide Occs, OccOf, Distinct, RunningMean.Sum;
      var k := 0;
      while k < |parts|
        invariant k <= |parts| && npart == k && Sum() == Occs(b, parts[..k])
      {
        Add(Occ(parts[k]));
        OccsGrow(b, parts, k);
        k := k + 1;
      }
      assert parts[..k] == parts;
      MeanIs(Occs(b, parts));
    }

    /** The number agent learns the cell. */
    method ServconfNumber(parts: seq<Partition>, ghost b: Books)
      requires npart == 0 && About(b, parts) && forall p :: p in parts ==> b.part[p].nvols == p.nvols
      modifies this
      ensures npart == |parts| && (parts != [] ==> avg == MeanNumber(b, parts))
    {
      assert Numbers(b, parts[..0]) == 0.0;
      MeanIs(0.0);
      hide Numbers, PerSize, Distinct, RunningMean.Sum;
      var k := 0;
      while k < |parts|
        invariant k <= |parts| && npart == k && Sum() == Numbers(b, parts[..k])
      {
        Add(PerSize(parts[k].nvols, parts[k].size));
        NumbersGrow(b, parts, k);
        k := k + 1;
      }
      assert parts[..k] == parts;
      MeanIs(Numbers(b, parts));
    }

    /** The size agent is told of a move.  The volume's size is divided as an integer, and what the division
        loses is from then on the average's distance from the true mean. */
    method SetRequestSize(m: Job, ghost b: Books, ghost parts: seq<Partition>)
      requires Legal(b, m) && About(b, parts) && npart == |parts| && m.pfrom in parts && m.pto in parts
      modifies this`avg
      ensures avg == SizeStep(old(avg), m, npart) && About(Apply(b, m), parts)
      ensures avg - MeanOcc(Apply(b, m), parts) == old(avg) - MeanOcc(b, parts) + LostAt(m, npart)
    {
      SizeMeanStep(b, m, parts, avg - MeanOcc(b, parts));
      avg := avg - (m.vol.size / npart) as real * (Inverse(m.pfrom) - Inverse(m.pto));
    }

    /** The number agent is told of a move; an average that is the true mean remains so. */
    method SetRequestNumber(m: Job, ghost b: Books, ghost parts: seq<Partition>)
      requires Legal(b, m) && About(b, parts) && npart == |parts| && m.pfrom in parts && m.pto in parts
      modifies this`avg
      ensures avg == NumberStep(old(avg), m, npart) && About(Apply(b, m), parts)
      ensures avg - MeanNumber(Apply(b, m), parts) == old(avg) - MeanNumber(b, parts)
    {
      NumberMeanStep(b, m, parts);
      hide MeanNumber;
      avg := avg + (Inverse(m.pto) - Inverse(m.pfrom)) / npart as real;
    }
  }

  ghost function SizeStep(avg: real, m: Job, n: nat): real
    requires n > 0
  {
    avg - Quotient(m, n)
  }

  ghost function Quotient(m: Job, n: nat): real
    requires n > 0
  {
    (m.vol.size / n) as real * (Inverse(m.pfrom) - Inverse(m.pto))
  }

  /** How much a move lessens the sum of occupancies. */
  ghost function Shift(m: Job): real {
    m.vol.size as real * (Inverse(m.pfrom) - Inverse(m.pto))
  }

  ghost function NumberStep(avg: real, m: Job, n: nat): real
    requires n > 0
  {
    avg + (Inverse(m.pto) - Inverse(m.pfrom)) / n as real
  }

  /** The running averages after a list of moves. */
  ghost function SizeAfter(avg: real, moves: seq<Job>, n: nat): real
    requires n > 0
  {
    if moves == [] then avg else SizeStep(SizeAfter(avg, moves[..|moves| - 1], n), moves[|moves| - 1], n)
  }

  ghost function NumberAfter(avg: real, moves: seq<Job>, n: nat): real
    requires n > 0
  {
    if moves == [] then avg else NumberStep(NumberAfter(avg, moves[..|moves| - 1], n), moves[|moves| - 1], n)
  }

  // ----- how a move changes the sums

  lemma {:induction false} OccsAfterMove(b: Books, m: Job, parts: seq<Partition>)
    requires Legal(b, m) && About(b, parts)
    ensures About(Apply(b, m), parts)
    ensures Occs(Apply(b, m), parts) == Occs(b, parts)
      - (if m.pfrom in parts then m.vol.size as real * Inverse(m.pfrom) else 0.0)
      + (if m.pto in parts then m.vol.size as real * Inverse(m.pto) else 0.0)
  {
    if parts != [] {
      var k := |parts| - 1;
      OccsAfterMove(b, m, parts[..k]);
      assert parts == parts[..k] + [parts[k]];
      OccAfterMove(b, m, parts[k]);
    }
  }

  lemma OccAfterMove(b: Books, m: Job, p: Partition)
    requires Legal(b, m) && p in b.part
    ensures OccOf(Apply(b, m).part[p].free, p.size) == OccOf(b.part[p].free, p.size)
      - (if p == m.pfrom then m.vol.size as real * Inverse(m.pfrom) else 0.0)
      + (if p == m.pto then m.vol.size as real * Inverse(m.pto) else 0.0)
  {
    var s := p.size as real;
    assert (b.part[p].free + m.vol.size) as real / s == b.part[p].free as real / s + m.vol.size as real * (1.0 / s);
    assert (b.part[p].free - m.vol.size) as real / s == b.part[p].free as real / s - m.vol.size as real * (1.0 / s);
  }

  lemma {:induction false} NumbersAfterMove(b: Books, m: Job, parts: seq<Partition>)
    requires Legal(b, m) && About(b, parts)
    ensures About(Apply(b, m), parts)
    ensures Numbers(Apply(b, m), parts) == Numbers(b, parts)
      - (if m.pfrom in parts then Inverse(m.pfrom) else 0.0) + (if m.pto in parts then Inverse(m.pto) else 0.0)
  {
    if parts != [] {
      var k := |parts| - 1;
      NumbersAfterMove(b, m, parts[..k]);
      assert parts == parts[..k] + [parts[k]];
      NumberAfterMove(b, m, parts[k]);
      hide PerSize, Inverse;
    }
  }

  lemma NumberAfterMove(b: Books, m: Job, p: Partition)
    requires Legal(b, m) && p in b.part
    ensures PerSize(Apply(b, m).part[p].nvols, p.size) == PerSize(b.part[p].nvols, p.size)
      - (if p == m.pfrom then Inverse(p) else 0.0) + (if p == m.pto then Inverse(p) else 0.0)
  {
    var n, s := b.part[p].nvols, p.size as real;
    DividedSum(n as real, 1.0, s);
    DividedDifference(n as real, 1.0, s);
    assert (n + 1) as real == n as real + 1.0 && (n - 1) as real == n as real - 1.0;
  }

  // ----- the running averages against the true means

  lemma DividedSum(a: real, x: real, n: real)
    requires n != 0.0
    ensures (a + x) / n == a / n + x / n
  {
  }

  lemma DividedDifference(a: real, x: real, n: real)
    requires n != 0.0
    ensures (a - x) / n == a / n - x / n
  {
  }

  lemma NumberMeanStep(b: Books, m: Job, parts: seq<Partition>)
    requires Legal(b, m) && About(b, parts) && m.pfrom in parts && m.pto in parts
    ensures About(Apply(b, m), parts)
    ensures MeanNumber(Apply(b, m), parts) == NumberStep(MeanNumber(b, parts), m, |parts|)
  {
    NumbersAfterMove(b, m, parts);
    DividedSum(Numbers(b, parts), Inverse(m.pto) - Inverse(m.pfrom), |parts| as real);
  }

  /** The number agent's running average is always the true mean. */
  lemma {:induction false} NumberMeanIsExact(b0: Books, moves: seq<Job>, parts: seq<Partition>)
    requires LegalRun(b0, moves) && About(b0, parts) && parts != [] && forall p :: p in b0.part ==> p in parts
    ensures Replay(b0, moves).part.Keys == b0.part.Keys
    ensures NumberAfter(MeanNumber(b0, parts), moves, |parts|) == MeanNumber(Replay(b0, moves), parts)
    decreases moves
  {
    if moves != [] {
      var k := |moves| - 1;
      NumberMeanIsExact(b0, moves[..k], parts);
      hide MeanNumber, NumberStep;
      NumberMeanStep(Replay(b0, moves[..k]), moves[k], parts);
    }
  }

  /** What integer division loses, over a list of moves. */
  ghost function Lost(moves: seq<Job>, n: nat): real
    requires n > 0
  {
    if moves == [] then 0.0 else Lost(moves[..|moves| - 1], n) + LostAt(moves[|moves| - 1], n)
  }

  ghost function LostAt(m: Job, n: nat): real
    requires n > 0
  {
    (m.vol.size % n) as real / n as real * (Inverse(m.pfrom) - Inverse(m.pto))
  }

  lemma Division(size: nat, n: nat, x: real)
    requires n > 0
    ensures size as real * x / n as real == (size / n) as real * x + (size % n) as real / n as real * x
  {
    var q, r, m := (size / n) as real, (size % n) as real, n as real;
    assert size == size / n * n + size % n;
    assert (size / n * n) as real == q * m;
    assert size as real == q * m + r;
    assert (q * m + r) * x / m == q * x + r / m * x;
  }

  lemma Factored(s: real, x: real, y: real)
    ensures s * (x - y) == s * x - s * y
  {
  }

  lemma Rearranged(o: real, y: real, n: real, a: real, c: real, lost: real)
    requires n != 0.0 && y / n == a + c
    ensures o / n + lost - a == (o - y) / n + (lost + c)
  {
    DividedDifference(o, y, n);
  }

  lemma Shifted(b: Books, m: Job, parts: seq<Partition>)
    requires Legal(b, m) && About(b, parts) && m.pfrom in parts && m.pto in parts
    ensures About(Apply(b, m), parts) && Occs(Apply(b, m), parts) == Occs(b, parts) - Shift(m)
  {
    OccsAfterMove(b, m, parts);
    Factored(m.vol.size as real, Inverse(m.pfrom), Inverse(m.pto));
  }

  lemma SizeMeanStep(b: Books, m: Job, parts: seq<Partition>, lost: real)
    requires Legal(b, m) && About(b, parts) && m.pfrom in parts && m.pto in parts
    ensures About(Apply(b, m), parts)
    ensures SizeStep(MeanOcc(b, parts) + lost, m, |parts|) == MeanOcc(Apply(b, m), parts) + (lost + LostAt(m, |parts|))
  {
    hide Apply, Legal, Inverse, Occs, Shift, Quotient, LostAt;
    Shifted(b, m, parts);
    ShiftDivided(m, |parts|);
    Rearranged(Occs(b, parts), Shift(m), |parts| as real, Quotient(m, |parts|), LostAt(m, |parts|), lost);
  }

  lemma ShiftDivided(m: Job, n: nat)
    requires n > 0
    ensures Shift(m) / n as real == Quotient(m, n) + LostAt(m, n)
  {
    hide Inverse;
    Division(m.vol.size, n, Inverse(m.pfrom) - Inverse(m.pto));
  }

  /** The size agent's running average is off the true mean by exactly what integer division lost. */
  lemma {:induction false} SizeMeanDrifts(b0: Books, moves: seq<Job>, parts: seq<Partition>)
    requires LegalRun(b0, moves) && About(b0, parts) && parts != [] && forall p :: p in b0.part ==> p in parts
    ensures Replay(b0, moves).part.Keys == b0.part.Keys
    ensures SizeAfter(MeanOcc(b0, parts), moves, |parts|) == MeanOcc(Replay(b0, moves), parts) + Lost(moves, |parts|)
    decreases moves
  {
    if moves != [] {
      var k := |moves| - 1;
      SizeMeanDrifts(b0, moves[..k], parts);
      hide MeanOcc, SizeStep, LostAt;
      SizeMeanStep(Replay(b0, moves[..k]), moves[k], parts, Lost(moves[..k], |parts|));
    }
  }

  function Abs(x: real): real {
    if x < 0.0 then -x else x
  }

  ghost function Spread(moves: seq<Job>): real {
    if moves == [] then 0.0
    else Spread(moves[..|moves| - 1]) + Abs(Inverse(moves[|moves| - 1].pfrom) - Inverse(moves[|moves| - 1].pto))
  }

  /** So the error is at most the sum of the differences of the inverse sizes. */
  lemma {:induction false} DriftBounded(moves: seq<Job>, n: nat)
    requires n > 0
    ensures Abs(Lost(moves, n)) <= Spread(moves)
  {
    if moves != [] {
      var k := |moves| - 1;
      DriftBounded(moves[..k], n);
      LostAtBounded(moves[k], n);
      AbsSum(Lost(moves[..k], n), LostAt(moves[k], n));
      hide LostAt, Inverse, Abs;
    } else {
      assert Lost(moves, n) == 0.0;
    }
  }

  lemma AbsSum(x: real, y: real)
    ensures Abs(x + y) <= Abs(x) + Abs(y)
  {
  }

  lemma LostAtBounded(m: Job, n: nat)
    requires n > 0
    ensures Abs(LostAt(m, n)) <= Abs(Inverse(m.pfrom) - Inverse(m.pto))
  {
    var f := (m.vol.size % n) as real / n as real;
    var x := Inverse(m.pfrom) - Inverse(m.pto);
    Fraction((m.vol.size % n) as real, n as real);
    assert LostAt(m, n) == f * x;
    hide LostAt, Inverse, Abs;
    FractionShrinks(f, x);
  }

  lemma Fraction(x: real, y: real)
    requires 0.0 <= x <= y && y > 0.0
    ensures 0.0 <= x / y <= 1.0
  {
  }

  lemma FractionShrinks(f: real, x: real)
    requires 0.0 <= f <= 1.0
    ensures Abs(f * x) <= Abs(x)
  {
    var g := 1.0 - f;
    if x >= 0.0 {
      ProductNotNegative(f, x);
      ProductNotNegative(g, x);
      assert f * x + g * x == x;
    } else {
      ProductNotNegative(f, -x);
      ProductNotNegative(g, -x);
      assert f * x + g * x == x;
    }
  }
}
