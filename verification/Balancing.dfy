/** What the size-balancing agent's moves and cursors keep true, on values: the desk holds the free
    space, the volumes the agent may still move, and how far each list has been considered. */
module Balancing {
  import opened Cell
  import opened Occupancy
  import opened Chain

  /** The precision window, as occupancies; it does not change during a run. */
  datatype Bounds = Bounds(upper: real, move: real, lower: real)

  /** The window around the average occupancy: narrower the nearer the average is to empty or full. */
  function Window(avg: real, precision: real): Bounds {
    var fudge := avg * (1.0 - avg) * precision;
    Bounds(avg + fudge, avg + fudge / 2.0, avg - fudge)
  }

  lemma ProductNotNegative(x: real, y: real)
    requires x >= 0.0 && y >= 0.0
    ensures x * y >= 0.0
  {
    if x > 0.0 && y > 0.0 {
      assert x * y > 0.0;
    }
  }

  /** With a precision that is not negative, the bounds are in order. */
  lemma WindowOrdered(avg: real, precision: real)
    requires 0.0 <= avg <= 1.0 && precision >= 0.0
    ensures var b := Window(avg, precision); b.lower <= avg <= b.move <= b.upper
  {
    ProductNotNegative(avg, 1.0 - avg);
    ProductNotNegative(avg * (1.0 - avg), precision);
  }

  /** The window as the cell gives it: its middle is the used fraction of the space, the bound for moving lies
      halfway from there to the upper bound, and half its width is the precision times the product of the used
      and the free fraction.  So it has no width for an empty or full cell; and bounds in order, and between
      empty and full, for a precision from 0 to 1. */
  ghost predicate Around(b: Bounds, used: int, space: nat, precision: real) {
    var (u, s, avg) := (used as real, space as real, (b.upper + b.lower) / 2.0);
    && avg * s == u
    && b.move == (avg + b.upper) / 2.0
    && ((b.upper - avg) * s) * s == precision * (u * (s - u))
    && (used == 0 || used == space ==> b.lower == avg == b.move == b.upper)
    && (space == 0 ==> b == Bounds(0.0, 0.0, 0.0))
    && (0.0 <= precision && 0 <= used <= space ==> b.lower <= avg <= b.move <= b.upper)
    && (0.0 <= precision <= 1.0 && 0 <= used <= space ==> 0.0 <= b.lower && b.upper <= 1.0)
  }

  lemma ProductAtMost(x: real, y: real)
    requires 0.0 <= x && 0.0 <= y <= 1.0
    ensures x * y <= x
  {
    ProductNotNegative(x, 1.0 - y);
    assert x * (1.0 - y) == x - x * y;
  }

  lemma WidthScaled(avg: real, precision: real, s: real)
    ensures ((avg * (1.0 - avg) * precision) * s) * s == precision * ((avg * s) * (s - avg * s))
  {
    var u := avg * s;
    assert (1.0 - avg) * s == s - u;
    calc {
      ((avg * (1.0 - avg) * precision) * s) * s;
      (precision * (avg * (1.0 - avg))) * (s * s);
      precision * ((avg * (1.0 - avg)) * (s * s));
      { assert (avg * (1.0 - avg)) * (s * s) == (avg * s) * ((1.0 - avg) * s); }
      precision * (u * (s - u));
    }
  }

  lemma Quotient(x: real, s: real)
    requires s != 0.0
    ensures x == (x * s) / s
  {
  }

  lemma Fraction(avg: real, used: int, space: nat)
    requires avg * space as real == used as real && 0 <= used <= space && space != 0
    ensures 0.0 <= avg <= 1.0 && (used == 0 ==> avg == 0.0) && (used == space ==> avg == 1.0)
  {
    Quotient(avg, space as real);
  }

  lemma WindowInside(avg: real, precision: real)
    requires 0.0 <= avg <= 1.0 && 0.0 <= precision <= 1.0
    ensures var b := Window(avg, precision); 0.0 <= b.lower && b.upper <= 1.0
  {
    var rest := 1.0 - avg;
    var both := avg * rest;
    var fudge := both * precision;
    ProductNotNegative(avg, rest);
    ProductNotNegative(both, precision);
    ProductAtMost(avg, rest);
    ProductAtMost(rest, avg);
    ProductAtMost(both, precision);
    assert both <= avg;
    assert rest * avg == both;
    assert both <= rest;
    assert fudge <= both;
    assert fudge == avg * (1.0 - avg) * precision;
  }

  lemma WindowAround(avg: real, used: int, space: nat, precision: real)
    requires avg * space as real == used as real && (space == 0 ==> avg == 0.0)
    ensures Around(Window(avg, precision), used, space, precision)
  {
    var b, s := Window(avg, precision), space as real;
    assert (b.upper + b.lower) / 2.0 == avg;
    assert b.upper - avg == avg * (1.0 - avg) * precision;
    WidthScaled(avg, precision, s);
    if space != 0 && 0 <= used <= space {
      Fraction(avg, used, space);
      if 0.0 <= precision {
        WindowOrdered(avg, precision);
      }
      if 0.0 <= precision <= 1.0 {
        WindowInside(avg, precision);
      }
    }
  }

  datatype Desk = Desk(
    all: seq<Partition>,
    free: map<Partition, int>,
    vols: map<Partition, seq<Volume>>,
    cursor: map<Partition, nat>)

  ghost predicate Descending(vs: seq<Volume>) {
    forall i, j :: 0 <= i < j < |vs| ==> vs[i].size >= vs[j].size
  }

  ghost predicate Known(d: Desk) {
    forall p :: p in d.all ==> p in d.free && p in d.vols && p in d.cursor
  }

  ghost predicate WellFormed(d: Desk) {
    && Distinct(d.all) && Known(d)
    && (forall p :: p in d.all ==> d.cursor[p] <= |d.vols[p]|)
    && (forall p :: p in d.all ==> Descending(d.vols[p]) && Distinct(d.vols[p]))
  }

  // ----- the agent's conditions

  ghost predicate Hot(b: Bounds, d: Desk, p: Partition)
    requires p in d.free
  {
    OccOf(d.free[p], p.size) > b.move
  }

  /** Taking the volume away leaves the partition above the lower bound. */
  ghost predicate Spare(b: Bounds, d: Desk, p: Partition, v: Volume)
    requires p in d.free
  {
    OccOf(d.free[p] + v.size, p.size) > b.lower
  }

  /** The partition can take the volume and stay below the bound for moving. */
  ghost predicate Room(b: Bounds, d: Desk, p: Partition, v: Volume)
    requires p in d.free
  {
    OccOf(d.free[p] - v.size, p.size) < b.move
  }

  /** The volume can go from `p` to some partition that wants it. */
  ghost predicate Movable(b: Bounds, d: Desk, p: Partition, v: Volume)
    requires Known(d) && p in d.all
  {
    Spare(b, d, p, v) && exists q :: q in d.all && Room(b, d, q, v) && q.Welcomes(v)
  }

  /** Of the volumes considered on hot partitions, only the one at `skip` may be movable. */
  ghost predicate SettledBut(b: Bounds, d: Desk, p: Partition, skip: int)
    requires WellFormed(d)
  {
    forall r, i :: r in d.all && Hot(b, d, r) && 0 <= i < d.cursor[r] && !(r == p && i == skip)
      ==> !Movable(b, d, r, d.vols[r][i])
  }

  ghost predicate Settled(b: Bounds, d: Desk)
    requires WellFormed(d)
  {
    forall r, i :: r in d.all && Hot(b, d, r) && 0 <= i < d.cursor[r] ==> !Movable(b, d, r, d.vols[r][i])
  }

  /** No volume on a partition that needs balancing can be moved. */
  ghost predicate Stuck(b: Bounds, d: Desk)
    requires WellFormed(d)
  {
    forall p, v :: p in d.all && v in d.vols[p] && Hot(b, d, p) ==> !Movable(b, d, p, v)
  }

  // ----- the agent's steps

  /** Where a volume belongs in a list sorted by size. */
  ghost function VolSlot(vs: seq<Volume>, size: nat): (k: nat)
    ensures k <= |vs|
    ensures forall i :: 0 <= i < k ==> vs[i].size > size
    ensures k < |vs| ==> vs[k].size <= size
  {
    if vs == [] || vs[0].size <= size then 0 else 1 + VolSlot(vs[1..], size)
  }

  /** A cursor still points to its element when another is taken out before it. */
  function CursorAfterRemove(cursor: nat, i: nat): nat {
    if i < cursor then cursor - 1 else cursor
  }

  function CursorAfterInsert(cursor: nat, k: nat): nat {
    if k <= cursor then cursor + 1 else cursor
  }

  /** The `i`th volume of `p` is discarded. */
  ghost function AfterDiscard(d: Desk, p: Partition, i: nat): Desk
    requires Known(d) && p in d.all && i < |d.vols[p]|
  {
    d.(vols := d.vols[p := RemoveAt(d.vols[p], i)],
       cursor := d.cursor[p := CursorAfterRemove(d.cursor[p], i)])
  }

  /** The books before the agent is notified of a move. */
  ghost function MoveSpace(d: Desk, p: Partition, v: Volume, q: Partition): Desk
    requires Known(d) && p in d.all && q in d.all && p != q
  {
    d.(free := d.free[p := d.free[p] + v.size][q := d.free[q] - v.size])
  }

  /** The `i`th volume of `p` goes to the list of `q`. */
  ghost function Transfer(d: Desk, p: Partition, i: nat, q: Partition): Desk
    requires Known(d) && p in d.all && q in d.all && p != q && i < |d.vols[p]|
  {
    var v := d.vols[p][i];
    var k := VolSlot(d.vols[q], v.size);
    d.(vols := d.vols[p := RemoveAt(d.vols[p], i)][q := InsertAt(d.vols[q], k, v)],
       cursor := d.cursor[p := CursorAfterRemove(d.cursor[p], i)][q := CursorAfterInsert(d.cursor[q], k)])
  }

  /** A volume that is not listed joins the list of `q`. */
  ghost function Join(d: Desk, v: Volume, q: Partition): Desk
    requires Known(d) && q in d.all
  {
    var k := VolSlot(d.vols[q], v.size);
    d.(vols := d.vols[q := InsertAt(d.vols[q], k, v)], cursor := d.cursor[q := CursorAfterInsert(d.cursor[q], k)])
  }

  /** The agent is told that a volume it had thrown away has moved from `p` to `q`. */
  ghost function JoinLists(b: Bounds, d: Desk, p: Partition, v: Volume, q: Partition): Desk
    requires Known(d) && p in d.all && q in d.all
  {
    if OccOf(d.free[p], p.size) < b.move then Restart(Join(d, v, q)) else Join(d, v, q)
  }

  ghost function Restart(d: Desk): Desk {
    d.(cursor := map r | r in d.cursor :: 0)
  }

  /** The agent moves the `i`th volume of `p` to `q`.  When the move has brought `p` below the bound,
      it may take volumes itself, so everything is considered again. */
  ghost function MoveLists(b: Bounds, d: Desk, p: Partition, i: nat, q: Partition): Desk
    requires Known(d) && p in d.all && q in d.all && p != q && i < |d.vols[p]|
  {
    if OccOf(d.free[p], p.size) < b.move then Restart(Transfer(d, p, i, q)) else Transfer(d, p, i, q)
  }

  ghost function AfterMove(b: Bounds, d: Desk, p: Partition, i: nat, q: Partition): Desk
    requires Known(d) && p in d.all && q in d.all && p != q && i < |d.vols[p]|
  {
    MoveLists(b, MoveSpace(d, p, d.vols[p][i], q), p, i, q)
  }

  lemma RemovePoints(vs: seq<Volume>, i: nat, c: nat)
    requires i < |vs| && c <= |vs|
    ensures var (ws, c') := (RemoveAt(vs, i), CursorAfterRemove(c, i));
      && (c != i ==> SamePoint(vs, c, ws, c'))
      && multiset(ws) == multiset(vs) - multiset{vs[i]}
  {
    assert vs == vs[..i] + [vs[i]] + vs[i + 1..];
  }

  lemma InsertPoints(vs: seq<Volume>, k: nat, v: Volume, c: nat)
    requires k <= |vs| && c <= |vs|
    ensures var (ws, c') := (InsertAt(vs, k, v), CursorAfterInsert(c, k));
      && SamePoint(vs, c, ws, c')
      && multiset(ws) == multiset(vs) + multiset{v}
  {
    assert vs == vs[..k] + vs[k..];
  }

  /** The cursor of a list points to what it pointed to in another, or is at the end of both. */
  ghost predicate SamePoint(vs: seq<Volume>, c: nat, vs': seq<Volume>, c': nat) {
    if c >= |vs| then c' == |vs'| else c' < |vs'| && vs'[c'] == vs[c]
  }

  lemma TransferMeans(d: Desk, p: Partition, i: nat, q: Partition)
    requires WellFormed(d) && p in d.all && q in d.all && p != q && i < |d.vols[p]|
    ensures var (d', v) := (Transfer(d, p, i, q), d.vols[p][i]);
      && d'.all == d.all && d'.free == d.free && Known(d')
      && multiset(d'.vols[p]) == multiset(d.vols[p]) - multiset{v}
      && multiset(d'.vols[q]) == multiset(d.vols[q]) + multiset{v}
      && (forall r :: r in d.all && r != p && r != q ==> d'.vols[r] == d.vols[r] && d'.cursor[r] == d.cursor[r])
      && (d.cursor[p] != i ==> SamePoint(d.vols[p], d.cursor[p], d'.vols[p], d'.cursor[p]))
      && SamePoint(d.vols[q], d.cursor[q], d'.vols[q], d'.cursor[q])
  {
    var v := d.vols[p][i];
    RemovePoints(d.vols[p], i, d.cursor[p]);
    InsertPoints(d.vols[q], VolSlot(d.vols[q], v.size), v, d.cursor[q]);
    hide RemoveAt, InsertAt, VolSlot, CursorAfterInsert, CursorAfterRemove, Descending, Distinct;
  }

  /** The volume goes from one list to the other.  If its partition is now below the bound for moving, all lists
      are begun again; otherwise every cursor goes on pointing to what it pointed to, or to the end. */
  lemma MoveListsMeans(b: Bounds, d: Desk, p: Partition, i: nat, q: Partition)
    requires WellFormed(d) && p in d.all && q in d.all && p != q && i < |d.vols[p]|
    ensures var (d', v) := (MoveLists(b, d, p, i, q), d.vols[p][i]);
      && d'.all == d.all && d'.free == d.free && Known(d')
      && multiset(d'.vols[p]) == multiset(d.vols[p]) - multiset{v}
      && multiset(d'.vols[q]) == multiset(d.vols[q]) + multiset{v}
      && (forall r :: r in d.all && r != p && r != q ==> d'.vols[r] == d.vols[r])
      && if OccOf(d.free[p], p.size) < b.move then forall r :: r in d.all ==> d'.cursor[r] == 0
         else forall r :: r in d.all && (r != p || d.cursor[r] != i) ==>
           SamePoint(d.vols[r], d.cursor[r], d'.vols[r], d'.cursor[r])
  {
    TransferMeans(d, p, i, q);
    hide Transfer, Descending, Distinct;
  }

  lemma JoinListsMeans(b: Bounds, d: Desk, p: Partition, v: Volume, q: Partition)
    requires WellFormed(d) && p in d.all && q in d.all
    ensures var d' := JoinLists(b, d, p, v, q);
      && d'.all == d.all && d'.free == d.free && Known(d')
      && multiset(d'.vols[q]) == multiset(d.vols[q]) + multiset{v}
      && (forall r :: r in d.all && r != q ==> d'.vols[r] == d.vols[r])
      && if OccOf(d.free[p], p.size) < b.move then forall r :: r in d.all ==> d'.cursor[r] == 0
         else forall r :: r in d.all ==> SamePoint(d.vols[r], d.cursor[r], d'.vols[r], d'.cursor[r])
  {
    InsertPoints(d.vols[q], VolSlot(d.vols[q], v.size), v, d.cursor[q]);
    hide InsertAt, VolSlot, CursorAfterInsert, Descending, Distinct;
  }

  /** The books of a move. */
  ghost predicate MovedSpace(d: Desk, d': Desk, p: Partition, v: Volume, q: Partition)
    requires Known(d) && p in d.all && q in d.all && p != q
  {
    Known(d') && d'.all == d.all && d'.free == MoveSpace(d, p, v, q).free
  }

  lemma MoveFree(b: Bounds, d: Desk, p: Partition, i: nat, q: Partition)
    requires Known(d) && p in d.all && q in d.all && p != q && i < |d.vols[p]|
    ensures MovedSpace(d, AfterMove(b, d, p, i, q), p, d.vols[p][i], q)
  {
  }

  /** Unless everything is considered again, what has been considered of another list than that of `q` was
      considered before. */
  lemma MoveLooked(b: Bounds, d: Desk, p: Partition, i: nat, q: Partition, r: Partition, j: nat)
    requires WellFormed(d) && p in d.all && q in d.all && p != q && i < |d.vols[p]| && i < d.cursor[p]
    requires WellFormed(AfterMove(b, d, p, i, q)) && OccOf(AfterMove(b, d, p, i, q).free[p], p.size) >= b.move
    requires r in d.all && r != q && j < AfterMove(b, d, p, i, q).cursor[r]
    ensures var j' := if r == p && j >= i then j + 1 else j;
      j' < d.cursor[r] && AfterMove(b, d, p, i, q).vols[r][j] == d.vols[r][j']
  {
  }

  lemma InsertDescending(vs: seq<Volume>, v: Volume)
    requires Descending(vs) && Distinct(vs) && v !in vs
    ensures Descending(InsertAt(vs, VolSlot(vs, v.size), v)) && Distinct(InsertAt(vs, VolSlot(vs, v.size), v))
  {
    var k := VolSlot(vs, v.size);
    var ws := InsertAt(vs, k, v);
    forall i, j | 0 <= i < j < |ws| ensures ws[i].size >= ws[j].size && ws[i] != ws[j] {
      var i', j' := if i <= k then i else i - 1, if j <= k then j else j - 1;
      assert i == k || ws[i] == vs[i'];
      assert j == k || ws[j] == vs[j'];
      if i == k {
        assert vs[k].size >= vs[j'].size;
      }
    }
  }

  lemma RemoveDescending(vs: seq<Volume>, k: nat)
    requires Descending(vs) && Distinct(vs) && k < |vs|
    ensures Descending(RemoveAt(vs, k)) && Distinct(RemoveAt(vs, k)) && vs[k] !in RemoveAt(vs, k)
  {
    var ws := RemoveAt(vs, k);
    assert forall i :: 0 <= i < |ws| ==> ws[i] == vs[if i < k then i else i + 1];
  }

  lemma DiscardWellFormed(d: Desk, p: Partition, i: nat)
    requires WellFormed(d) && p in d.all && i < |d.vols[p]|
    ensures WellFormed(AfterDiscard(d, p, i))
  {
    RemoveDescending(d.vols[p], i);
  }

  lemma MoveWellFormed(b: Bounds, d: Desk, p: Partition, i: nat, q: Partition)
    requires WellFormed(d) && p in d.all && q in d.all && p != q && i < |d.vols[p]|
    requires d.vols[p][i] !in d.vols[q]
    ensures WellFormed(AfterMove(b, d, p, i, q))
  {
    RemoveDescending(d.vols[p], i);
    InsertDescending(d.vols[q], d.vols[p][i]);
  }

  lemma JoinWellFormed(b: Bounds, d: Desk, p: Partition, v: Volume, q: Partition)
    requires WellFormed(d) && p in d.all && q in d.all && v !in d.vols[q]
    ensures WellFormed(JoinLists(b, d, p, v, q))
  {
    InsertDescending(d.vols[q], v);
  }

  lemma SameFree(b: Bounds, d: Desk, d': Desk, p: Partition, v: Volume)
    requires Known(d) && Known(d') && d'.free == d.free && d'.all == d.all && p in d.all
    ensures Hot(b, d', p) == Hot(b, d, p) && Movable(b, d', p, v) == Movable(b, d, p, v)
  {
    assert forall q :: q in d.all ==> Room(b, d', q, v) == Room(b, d, q, v);
  }

  lemma DiscardSettles(b: Bounds, d: Desk, p: Partition, i: nat)
    requires WellFormed(d) && p in d.all && i < |d.vols[p]| && SettledBut(b, d, p, i)
    ensures WellFormed(AfterDiscard(d, p, i)) && Settled(b, AfterDiscard(d, p, i))
  {
    DiscardWellFormed(d, p, i);
    var d' := AfterDiscard(d, p, i);
    RemovedAt(d.vols[p], i);
    assert d'.free == d.free && d'.all == d.all;
    hide RemoveAt, Descending, Distinct;
    forall r, j | r in d'.all && Hot(b, d', r) && 0 <= j < d'.cursor[r]
      ensures !Movable(b, d', r, d'.vols[r][j])
    {
      var j' := if r == p && j >= i then j + 1 else j;
      assert d'.vols[r][j] == d.vols[r][j'];
      SameFree(b, d, d', r, d.vols[r][j']);
    }
  }

  /** The move of a hot partition's considered volume to one with room settles the rest. */
  lemma MoveSettles(b: Bounds, d: Desk, p: Partition, i: nat, q: Partition)
    requires WellFormed(d) && p in d.all && q in d.all && p != q && i < d.cursor[p]
    requires d.vols[p][i] !in d.vols[q] && SettledBut(b, d, p, i)
    requires Hot(b, d, p) && Room(b, d, q, d.vols[p][i])
    ensures WellFormed(AfterMove(b, d, p, i, q)) && Settled(b, AfterMove(b, d, p, i, q))
  {
    MoveWellFormed(b, d, p, i, q);
    MoveFree(b, d, p, i, q);
    var v, d' := d.vols[p][i], AfterMove(b, d, p, i, q);
    if OccOf(d'.free[p], p.size) >= b.move {
      forall r, j | r in d'.all && Hot(b, d', r) && 0 <= j < d'.cursor[r]
        ensures !Movable(b, d', r, d'.vols[r][j])
      {
        assert r != q;
        MoveKeepsHot(b, d, d', p, v, q, r);
        MoveLooked(b, d, p, i, q, r, j);
        var j' := if r == p && j >= i then j + 1 else j;
        hide AfterMove, Movable;
        assert !Movable(b, d, r, d.vols[r][j']);
        StillNotMovable(b, d, d', p, v, q, r, d.vols[r][j']);
      }
    } else {
      Restarted(b, d, p, i, q);
    }
  }

  lemma Restarted(b: Bounds, d: Desk, p: Partition, i: nat, q: Partition)
    requires WellFormed(d) && p in d.all && q in d.all && p != q && i < |d.vols[p]|
    requires WellFormed(AfterMove(b, d, p, i, q)) && OccOf(AfterMove(b, d, p, i, q).free[p], p.size) < b.move
    ensures Settled(b, AfterMove(b, d, p, i, q))
  {
    hide Movable, Hot;
  }

  lemma MoveKeepsHot(b: Bounds, d: Desk, d': Desk, p: Partition, v: Volume, q: Partition, r: Partition)
    requires Known(d) && p in d.all && q in d.all && p != q && r in d.all && r != q
    requires MovedSpace(d, d', p, v, q) && Hot(b, d', r)
    ensures Hot(b, d, r)
  {
    OccFalls(d.free[p], d.free[p] + v.size, p.size);
  }

  lemma StillNotMovable(b: Bounds, d: Desk, d': Desk, p: Partition, v: Volume, q: Partition, r: Partition,
                        w: Volume)
    requires Known(d) && p in d.all && q in d.all && p != q && r in d.all && r != q
    requires MovedSpace(d, d', p, v, q) && OccOf(d'.free[p], p.size) >= b.move
    requires !Movable(b, d, r, w)
    ensures !Movable(b, d', r, w)
  {
    OccFalls(d.free[p] + w.size, d.free[p] + v.size + w.size, p.size);
    assert Spare(b, d', r, w) ==> Spare(b, d, r, w);
    forall x | x in d.all && Room(b, d', x, w) ensures Room(b, d, x, w) {
      OccFalls(d.free[q] - v.size - w.size, d.free[q] - w.size, q.size);
      OccFalls(d'.free[p] - w.size, d'.free[p], p.size);
    }
  }

  // ----- what the moves amount to

  /** The volumes that may still be moved from one partition. */
  ghost function HotVols(b: Bounds, d: Desk, p: Partition): nat
    requires p in d.free && p in d.vols
  {
    if Hot(b, d, p) then |d.vols[p]| else 0
  }

  ghost function HotTotal(b: Bounds, d: Desk, k: nat): nat
    requires WellFormed(d) && k <= |d.all|
  {
    if k == 0 then 0 else HotTotal(b, d, k - 1) + HotVols(b, d, d.all[k - 1])
  }

  lemma {:induction false} HotTotalFalls(b: Bounds, d: Desk, d': Desk, k: nat, p: Partition)
    requires WellFormed(d) && WellFormed(d') && d.all == d'.all && k <= |d.all|
    requires forall r :: r in d.all ==> HotVols(b, d', r) <= HotVols(b, d, r)
    requires p in d.all && HotVols(b, d', p) < HotVols(b, d, p)
    ensures HotTotal(b, d', k) <= HotTotal(b, d, k)
    ensures p in d.all[..k] ==> HotTotal(b, d', k) < HotTotal(b, d, k)
  {
    if k > 0 {
      HotTotalFalls(b, d, d', k - 1, p);
      assert d.all[..k] == d.all[..k - 1] + [d.all[k - 1]];
    }
  }

  /** A move leaves fewer volumes on hot partitions, so there are finitely many moves. */
  lemma MoveCools(b: Bounds, d: Desk, p: Partition, i: nat, q: Partition)
    requires WellFormed(d) && p in d.all && q in d.all && p != q && i < |d.vols[p]|
    requires Hot(b, d, p) && Room(b, d, q, d.vols[p][i]) && WellFormed(AfterMove(b, d, p, i, q))
    ensures HotTotal(b, AfterMove(b, d, p, i, q), |d.all|) < HotTotal(b, d, |d.all|)
  {
    var d' := AfterMove(b, d, p, i, q);
    assert d.all[..|d.all|] == d.all;
    assert forall r :: r in d.all && r != p && r != q ==> HotVols(b, d', r) == HotVols(b, d, r);
    HotTotalFalls(b, d, d', |d.all|, p);
  }

  lemma DiscardCools(b: Bounds, d: Desk, p: Partition, i: nat)
    requires WellFormed(d) && p in d.all && i < |d.vols[p]|
    ensures WellFormed(AfterDiscard(d, p, i))
    ensures HotTotal(b, AfterDiscard(d, p, i), |d.all|) <= HotTotal(b, d, |d.all|)
    ensures Hot(b, d, p) ==> HotTotal(b, AfterDiscard(d, p, i), |d.all|) < HotTotal(b, d, |d.all|)
  {
    DiscardWellFormed(d, p, i);
    var d' := AfterDiscard(d, p, i);
    assert d.all[..|d.all|] == d.all;
    if Hot(b, d, p) {
      HotTotalFalls(b, d, d', |d.all|, p);
    } else {
      HotTotalSame(b, d, d', |d.all|);
    }
  }

  lemma {:induction false} HotTotalSame(b: Bounds, d: Desk, d': Desk, k: nat)
    requires WellFormed(d) && WellFormed(d') && d.all == d'.all && k <= |d.all|
    requires forall r :: r in d.all ==> HotVols(b, d', r) == HotVols(b, d, r)
    ensures HotTotal(b, d', k) == HotTotal(b, d, k)
  {
    if k > 0 {
      HotTotalSame(b, d, d', k - 1);
    }
  }

  /** The volumes not yet considered. */
  ghost function Unvisited(d: Desk, k: nat): nat
    requires WellFormed(d) && k <= |d.all|
  {
    if k == 0 then 0 else Unvisited(d, k - 1) + (|d.vols[d.all[k - 1]]| - d.cursor[d.all[k - 1]])
  }

  lemma {:induction false} UnvisitedFalls(d: Desk, d': Desk, k: nat, p: Partition)
    requires WellFormed(d) && WellFormed(d') && d.all == d'.all && d.vols == d'.vols && k <= |d.all|
    requires forall r :: r in d.all ==> d.cursor[r] <= d'.cursor[r]
    requires p in d.all && d.cursor[p] < d'.cursor[p]
    ensures Unvisited(d', k) <= Unvisited(d, k)
    ensures p in d.all[..k] ==> Unvisited(d', k) < Unvisited(d, k)
  {
    if k > 0 {
      UnvisitedFalls(d, d', k - 1, p);
      assert d.all[..k] == d.all[..k - 1] + [d.all[k - 1]];
    }
  }

  lemma {:induction false} UnvisitedSame(d: Desk, d': Desk, k: nat)
    requires WellFormed(d) && WellFormed(d') && d.all == d'.all && d.vols == d'.vols && k <= |d.all|
    requires forall r :: r in d.all ==> d.cursor[r] == d'.cursor[r]
    ensures Unvisited(d', k) == Unvisited(d, k)
  {
    if k > 0 {
      UnvisitedSame(d, d', k - 1);
    }
  }

  /** Compared with the start, no partition has risen above the bound for moving (those above it have
      only fallen), and none has fallen to the lower bound (those below it have only risen). */
  ghost predicate WithinBounds(b: Bounds, free0: map<Partition, int>, d: Desk) {
    forall p :: p in d.all ==>
      && p in free0 && p in d.free
      && (OccOf(d.free[p], p.size) > b.move ==> OccOf(d.free[p], p.size) <= OccOf(free0[p], p.size))
      && (OccOf(d.free[p], p.size) > b.lower || OccOf(d.free[p], p.size) >= OccOf(free0[p], p.size))
  }

  lemma MoveWithinBounds(b: Bounds, free0: map<Partition, int>, d: Desk, p: Partition, i: nat, q: Partition)
    requires WellFormed(d) && p in d.all && q in d.all && p != q && i < |d.vols[p]|
    requires Spare(b, d, p, d.vols[p][i]) && Room(b, d, q, d.vols[p][i]) && WithinBounds(b, free0, d)
    ensures WithinBounds(b, free0, AfterMove(b, d, p, i, q))
  {
    MoveFree(b, d, p, i, q);
    OccFalls(d.free[p], d.free[p] + d.vols[p][i].size, p.size);
    OccFalls(d.free[q] - d.vols[p][i].size, d.free[q], q.size);
    hide AfterMove, WellFormed;
  }

  /** How far the partitions are above the bound for moving, all together. */
  ghost function Excess(b: Bounds, d: Desk, k: nat): real
    requires WellFormed(d) && k <= |d.all|
  {
    if k == 0 then 0.0 else Excess(b, d, k - 1) + Over(b, d, d.all[k - 1])
  }

  /** The excess has not grown, and has fallen by the move of a volume that is not empty. */
  ghost predicate Lessened(b: Bounds, d: Desk, d': Desk, size: nat)
    requires WellFormed(d) && WellFormed(d')
  {
    var (x, x') := (Excess(b, d, |d.all|), Excess(b, d', |d'.all|));
    x' <= x && (size > 0 ==> x' < x)
  }

  ghost function Over(b: Bounds, d: Desk, p: Partition): real
    requires p in d.free
  {
    if Hot(b, d, p) then OccOf(d.free[p], p.size) - b.move else 0.0
  }

  lemma {:induction false} ExcessFalls(b: Bounds, d: Desk, d': Desk, k: nat, p: Partition)
    requires WellFormed(d) && WellFormed(d') && d.all == d'.all && k <= |d.all|
    requires forall r :: r in d.all ==> Over(b, d', r) <= Over(b, d, r)
    ensures Excess(b, d', k) <= Excess(b, d, k)
    ensures p in d.all[..k] && Over(b, d', p) < Over(b, d, p) ==> Excess(b, d', k) < Excess(b, d, k)
  {
    if k > 0 {
      ExcessFalls(b, d, d', k - 1, p);
      assert d.all[..k] == d.all[..k - 1] + [d.all[k - 1]];
    }
  }

  lemma MoveLessensOver(b: Bounds, d: Desk, p: Partition, i: nat, q: Partition, r: Partition)
    requires WellFormed(d) && p in d.all && q in d.all && p != q && i < |d.vols[p]|
    requires Hot(b, d, p) && Room(b, d, q, d.vols[p][i]) && WellFormed(AfterMove(b, d, p, i, q)) && r in d.all
    ensures Over(b, AfterMove(b, d, p, i, q), r) <= Over(b, d, r)
    ensures r == p && d.vols[p][i].size > 0 ==> Over(b, AfterMove(b, d, p, i, q), r) < Over(b, d, r)
  {
    MoveFree(b, d, p, i, q);
    OccFalls(d.free[p], d.free[p] + d.vols[p][i].size, p.size);
    hide AfterMove, WellFormed;
  }

  /** A move never adds to the excess, and lessens it unless the volume is empty. */
  lemma MoveLessensExcess(b: Bounds, d: Desk, p: Partition, i: nat, q: Partition)
    requires WellFormed(d) && p in d.all && q in d.all && p != q && i < |d.vols[p]|
    requires Hot(b, d, p) && Room(b, d, q, d.vols[p][i]) && WellFormed(AfterMove(b, d, p, i, q))
    ensures Excess(b, AfterMove(b, d, p, i, q), |d.all|) <= Excess(b, d, |d.all|)
    ensures d.vols[p][i].size > 0 ==> Excess(b, AfterMove(b, d, p, i, q), |d.all|) < Excess(b, d, |d.all|)
  {
    hide Over, Hot, Room;
    var d' := AfterMove(b, d, p, i, q);
    assert d.all[..|d.all|] == d.all;
    forall r | r in d.all ensures Over(b, d', r) <= Over(b, d, r) {
      MoveLessensOver(b, d, p, i, q, r);
    }
    MoveLessensOver(b, d, p, i, q, p);
    ExcessFalls(b, d, d', |d.all|, p);
  }

  /** The excess depends on the free space only. */
  lemma {:induction false} ExcessSame(b: Bounds, d: Desk, d': Desk, k: nat)
    requires WellFormed(d) && WellFormed(d') && d.all == d'.all && d.free == d'.free && k <= |d.all|
    ensures Excess(b, d', k) == Excess(b, d, k)
  {
    if k > 0 {
      ExcessSame(b, d, d', k - 1);
    }
  }

  /** A hot partition has no room, so no move is from a partition to itself. */
  lemma NoNullMove(b: Bounds, d: Desk, p: Partition, v: Volume)
    requires p in d.free && Hot(b, d, p)
    ensures !Room(b, d, p, v)
  {
    OccFalls(d.free[p] - v.size, d.free[p], p.size);
  }
}
