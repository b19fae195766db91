/** What the votes of the agents guarantee for the moves of all agents together. */
module Votes {
  import opened Cell
  import opened Occupancy
  import opened Balancing
  import opened Ledger

  function Larger(x: real, y: real): real {
    if x >= y then x else y
  }

  // ----- the size agent's vote

  /** The size agent likes a move of its own (which leaves the destination below the bound for moving)
      and any that leaves the destination below the upper bound. */
  ghost predicate SizeApproves(bounds: Bounds, b: Books, m: Job)
    requires Legal(b, m)
  {
    var occ := OccOf(b.part[m.pto].free - m.vol.size, m.pto.size);
    occ < bounds.upper || occ < bounds.move
  }

  ghost predicate SizeApproved(bounds: Bounds, b0: Books, moves: seq<Job>)
    requires LegalRun(b0, moves)
  {
    moves == [] ||
    var k := |moves| - 1;
    SizeApproved(bounds, b0, moves[..k]) && SizeApproves(bounds, Replay(b0, moves[..k]), moves[k])
  }

  /** Whatever the agents propose, moves the size agent approves never fill a partition above the
      larger of its initial occupancy and the bounds. */
  lemma {:induction false} NeverOverfull(bounds: Bounds, b0: Books, moves: seq<Job>, p: Partition)
    requires LegalRun(b0, moves) && SizeApproved(bounds, b0, moves) && p in b0.part
    ensures p in Replay(b0, moves).part
    ensures OccOf(Replay(b0, moves).part[p].free, p.size)
      <= Larger(OccOf(b0.part[p].free, p.size), Larger(bounds.upper, bounds.move))
    decreases moves
  {
    if moves != [] {
      var k := |moves| - 1;
      var b, m := Replay(b0, moves[..k]), moves[k];
      NeverOverfull(bounds, b0, moves[..k], p);
      OccFalls(b.part[m.pfrom].free, b.part[m.pfrom].free + m.vol.size, m.pfrom.size);
    }
  }

  /** With a precision that is not negative, that is the upper bound. */
  lemma NeverAboveUpper(avg: real, precision: real, b0: Books, moves: seq<Job>, p: Partition)
    requires 0.0 <= avg <= 1.0 && precision >= 0.0
    requires LegalRun(b0, moves) && SizeApproved(Window(avg, precision), b0, moves) && p in b0.part
    ensures p in Replay(b0, moves).part
    ensures OccOf(Replay(b0, moves).part[p].free, p.size)
      <= Larger(OccOf(b0.part[p].free, p.size), Window(avg, precision).upper)
  {
    WindowOrdered(avg, precision);
    NeverOverfull(Window(avg, precision), b0, moves, p);
  }

  // ----- the number agent's vote

  function PerSize(nvols: int, size: pos): real {
    nvols as real / size as real
  }

  ghost predicate NumberApproves(upper: real, move: real, b: Books, m: Job)
    requires Legal(b, m)
  {
    var per := PerSize(b.part[m.pto].nvols + 1, m.pto.size);
    per < upper || per < move
  }

  ghost predicate NumberApproved(upper: real, move: real, b0: Books, moves: seq<Job>)
    requires LegalRun(b0, moves)
  {
    moves == [] ||
    var k := |moves| - 1;
    NumberApproved(upper, move, b0, moves[..k]) && NumberApproves(upper, move, Replay(b0, moves[..k]), moves[k])
  }

  /** So many volumes to each unit of space. */
  lemma PerSizeAll(nvols: int, size: pos)
    ensures PerSize(nvols, size) * size as real == nvols as real
  {
  }

  lemma FewerPerSize(nvols: int, size: pos)
    ensures PerSize(nvols - 1, size) < PerSize(nvols, size)
  {
    var s := size as real;
    assert PerSize(nvols, size) - PerSize(nvols - 1, size) == 1.0 / s;
  }

  /** And moves the number agent approves never crowd a partition above its bounds. */
  lemma {:induction false} NeverOvercrowded(upper: real, move: real, b0: Books, moves: seq<Job>, p: Partition)
    requires LegalRun(b0, moves) && NumberApproved(upper, move, b0, moves) && p in b0.part
    ensures p in Replay(b0, moves).part
    ensures PerSize(Replay(b0, moves).part[p].nvols, p.size)
      <= Larger(PerSize(b0.part[p].nvols, p.size), Larger(upper, move))
    decreases moves
  {
    if moves != [] {
      var k := |moves| - 1;
      var b, m := Replay(b0, moves[..k]), moves[k];
      NeverOvercrowded(upper, move, b0, moves[..k], p);
      FewerPerSize(b.part[m.pfrom].nvols, m.pfrom.size);
    }
  }
}
