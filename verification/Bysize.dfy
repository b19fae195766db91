/** The agent that balances partitions by occupancy. */
module Bysize {
  import opened Options
  import opened Transactions
  import opened Cell
  import opened Occupancy
  import opened Chain
  import opened Balancing

  class Agent {
    const chain: PartChain
    const precision: real
    var bounds: Bounds
    var partHt: map<Partition, PartNode>     // partition -> wrapper
    ghost var all: seq<Partition>
    ghost var wraps: set<PartNode>
    var mover: Option<Job>                   // the request the agent cares about
    var destp: PartNode?                     // the partition last tried for it
    ghost var destIdx: nat                   // its place in the chain

    constructor (precision: real)
      ensures fresh(chain) && chain.nodes == [] && Fresh(map[]) && this.precision == precision
      ensures all == [] && wraps == {} && mover == None
    {
      chain := new PartChain();
      this.precision := precision;
      bounds, partHt, all, wraps := Bounds(0.0, 0.0, 0.0), map[], [], {};
      mover, destp, destIdx := None, null, 0;
    }

    /** The chain is linked and holds every wrapper once, and the index returns just the wrapper on
        it. */
    ghost predicate Indexed()
      reads this`partHt, this`all, this`wraps, chain`head, chain`tail, chain`nodes, chain.nodes`next, chain.nodes`prev
    {
      chain.Linked() && IndexOk(partHt, all, wraps) && Members(chain.nodes, wraps)
    }

    ghost function Homed(): set<Volume>
      reads chain`nodes, chain.nodes`vols
    {
      set n, v | n in chain.nodes && v in n.vols :: v
    }

    /** The volumes listed for a partition are at home there. */
    ghost predicate AtHome()
      reads chain`nodes, chain.nodes`vols, Homed()`phome
    {
      forall n, v :: n in chain.nodes && v in n.vols ==> v.phome == n.part
    }

    // ----- looking for a destination

    /** The desk shows the partitions on the chain and their free space. */
    ghost predicate Sees(d: Desk)
      reads chain`nodes, Parts(chain.nodes)`free
    {
      && Known(d)
      && (forall k :: 0 <= k < |chain.nodes| ==>
           chain.nodes[k].part in d.all && d.free[chain.nodes[k].part] == chain.nodes[k].part.free)
      && (forall p :: p in d.all ==> p in Parts(chain.nodes))
    }

    ghost predicate RoomAt(d: Desk, k: nat, v: Volume)
      requires k < |chain.nodes|
      reads this`bounds, chain`nodes
    {
      chain.nodes[k].part in d.free && Room(bounds, d, chain.nodes[k].part, v)
    }

    /** The nearest partition at or before `start` that can take the volume. */
    method FindDest(start: PartNode?, v: Volume, ghost i: nat, ghost d: Desk) returns (pp: PartNode?, ghost j: nat)
      requires chain.Linked() && Sees(d)
      requires i <= |chain.nodes| && start == if i > 0 then chain.nodes[i - 1] else null
      ensures pp == null ==> forall k :: 0 <= k < i ==> !RoomAt(d, k, v)
      ensures pp != null ==> j < i && pp == chain.nodes[j] && RoomAt(d, j, v)
      ensures pp != null ==> forall k :: j < k < i ==> !RoomAt(d, k, v)
    {
      pp, j := start, i;
      while pp != null
        invariant 0 <= j <= i && pp == if j > 0 then chain.nodes[j - 1] else null
        invariant forall k :: j <= k < i ==> !RoomAt(d, k, v)
        decreases j
      {
        if OccWith(pp.part, v) < bounds.move {
          j := j - 1;
          return;
        }
        pp, j := pp.prev, j - 1;
      }
    }

    // ----- looking for a volume

    /** The partition last tried is the last in the chain that has room. */
    ghost predicate Destination(d: Desk, v: Volume)
      reads this`bounds, this`destp, this`destIdx, chain`nodes
    {
      && destIdx < |chain.nodes| && destp == chain.nodes[destIdx] && RoomAt(d, destIdx, v)
      && forall k :: destIdx < k < |chain.nodes| ==> !RoomAt(d, k, v)
    }

    lemma NoRoomStays(d: Desk, p: Partition, v: Volume)
      requires Sees(d) && p in d.all && forall k :: 0 <= k < |chain.nodes| ==> !RoomAt(d, k, v)
      ensures !Movable(bounds, d, p, v)
    {
      if q :| q in d.all && Room(bounds, d, q, v) && q.Welcomes(v) {
        var k :| 0 <= k < |chain.nodes| && chain.nodes[k].part == q;
        assert RoomAt(d, k, v);
      }
    }

    method TryVolume(p: Partition, v: Volume, ghost d: Desk) returns (ok: bool)
      requires chain.Linked() && Sees(d) && p in d.all && d.free[p] == p.free
      modifies this`destp, this`destIdx
      ensures if ok then Spare(bounds, d, p, v) && Destination(d, v) else !Movable(bounds, d, p, v)
    {
      ok := false;
      if OccWithout(p, v) > bounds.lower {
        destp, destIdx := FindDest(chain.tail, v, |chain.nodes|, d);
        ok := destp != null;
        if !ok {
          NoRoomStays(d, p, v);
        }
      }
    }

    /** The volume is the first from `c` on that can leave the partition for another with room. */
    ghost predicate Stopped(n: PartNode, c: nat, d: Desk, v: Volume)
      reads this`bounds, this`destp, this`destIdx, chain`nodes, n
    {
      && c < n.cursor <= |n.vols| && v == n.vols[n.cursor - 1]
      && NoneMovable(bounds, d, n.part, n.vols, c, n.cursor - 1)
      && Hot(bounds, d, n.part) && Spare(bounds, d, n.part, v) && Destination(d, v)
    }

    ghost predicate CursorsAre(cs: seq<nat>)
      reads chain`nodes, chain.nodes`cursor, chain.nodes`vols
    {
      |cs| == |chain.nodes| && forall k :: 0 <= k < |cs| ==> chain.nodes[k].cursor == cs[k] <= |chain.nodes[k].vols|
    }

    /** Goes on through the volumes of a partition, until one can be moved. */
    method SearchVols(n: PartNode, ghost d: Desk) returns (mv: Option<Volume>)
      requires chain.Linked() && Sees(d) && n in chain.nodes && n.cursor <= |n.vols| && Hot(bounds, d, n.part)
      modifies n`cursor, this`destp, this`destIdx
      ensures n.cursor <= |n.vols|
      ensures mv.None? ==> Passed(bounds, d, n.part, n.vols, old(n.cursor), n.cursor)
      ensures mv.Some? ==> Stopped(n, old(n.cursor), d, mv.value)
    {
      hide Movable, Spare, Agent.RoomAt;
      mv := None;
      while n.cursor < |n.vols|
        invariant old(n.cursor) <= n.cursor <= |n.vols|
        invariant NoneMovable(bounds, d, n.part, n.vols, old(n.cursor), n.cursor)
        decreases |n.vols| - n.cursor
      {
        var v := n.vols[n.cursor];
        var ok := TryVolume(n.part, v, d);
        n.cursor := n.cursor + 1;
        if ok {
          mv := Some(v);
          break;
        }
      }
    }

    ghost predicate PassedAt(k: nat, c: nat, d: Desk)
      requires k < |chain.nodes|
      reads this`bounds, chain`nodes, chain.nodes
    {
      Passed(bounds, d, chain.nodes[k].part, chain.nodes[k].vols, c, chain.nodes[k].cursor)
    }

    /** The search has passed the partitions from the `i`th to the one before `at`, and stopped there
        if it has found a volume; the others are as they were. */
    ghost predicate Searching(cs: seq<nat>, i: nat, at: nat, d: Desk, mv: Option<Volume>)
      requires |cs| == |chain.nodes|
      reads this`bounds, this`destp, this`destIdx, chain`nodes, chain.nodes
    {
      && i <= at
      && (forall k :: i <= k < at && k < |chain.nodes| ==> PassedAt(k, cs[k], d))
      && (forall k :: at < k < |chain.nodes| ==> chain.nodes[k].cursor == cs[k])
      && (forall k :: 0 <= k < i && k < |chain.nodes| ==> chain.nodes[k].cursor == cs[k])
      && (mv.None? && at < |chain.nodes| ==> chain.nodes[at].cursor == cs[at])
      && (mv.Some? ==> at < |chain.nodes| && Stopped(chain.nodes[at], cs[at], d, mv.value))
    }

    /** If the partition needs balancing, looks for a volume on it. */
    method TryNode(n: PartNode, ghost d: Desk) returns (mv: Option<Volume>)
      requires chain.Linked() && Sees(d) && n in chain.nodes && n.cursor <= |n.vols|
      modifies n`cursor, this`destp, this`destIdx
      ensures n.cursor <= |n.vols|
      ensures if mv.None? then Passed(bounds, d, n.part, n.vols, old(n.cursor), n.cursor)
              else Stopped(n, old(n.cursor), d, mv.value)
    {
      mv := None;
      if Occ(n.part) > bounds.move {
        mv := SearchVols(n, d);
      }
    }

    method VisitNode(n: PartNode, ghost cs: seq<nat>, ghost i: nat, ghost at: nat, ghost d: Desk)
      returns (mv: Option<Volume>)
      requires chain.Linked() && Sees(d) && at < |chain.nodes| == |cs| && n == chain.nodes[at]
      requires n.cursor <= |n.vols| && Searching(cs, i, at, d, None)
      modifies n`cursor, this`destp, this`destIdx
      ensures Searching(cs, i, if mv.Some? then at else at + 1, d, mv)
    {
      hide Agent.Stopped, Passed;
      mv := TryNode(n, d);
    }

    /** The cursors after a search, which are still within the lists. */
    lemma Snapshot(cs: seq<nat>, i: nat, at: nat, d: Desk, mv: Option<Volume>) returns (cs': seq<nat>)
      requires |cs| == |chain.nodes| && Searching(cs, i, at, d, mv)
      requires forall k :: 0 <= k < |cs| ==> cs[k] <= |chain.nodes[k].vols|
      ensures CursorsAre(cs')
    {
      forall k | 0 <= k < |cs| ensures chain.nodes[k].cursor <= |chain.nodes[k].vols| {
        if i <= k < at {
          assert PassedAt(k, cs[k], d);
        }
      }
      cs' := seq(|chain.nodes|, k requires 0 <= k < |chain.nodes| reads chain, chain.nodes => chain.nodes[k].cursor);
    }

    /** Goes on through the partitions, from the `i`th on, until a volume can be moved. */
    method Search(start: PartNode?, ghost i: nat, ghost d: Desk, ghost cs: seq<nat>)
      returns (mv: Option<Volume>, ghost at: nat)
      requires chain.Linked() && Sees(d) && CursorsAre(cs)
      requires start == if i < |chain.nodes| then chain.nodes[i] else null
      modifies chain.nodes`cursor, this`destp, this`destIdx
      ensures Searching(cs, i, at, d, mv) && (mv.None? ==> at >= |chain.nodes|)
    {
      hide Agent.PassedAt, Agent.Stopped;
      var pp := start;
      mv, at := None, i;
      while pp != null && mv.None?
        invariant Searching(cs, i, at, d, mv)
        invariant mv.None? ==> pp == if at < |chain.nodes| then chain.nodes[at] else null
        decreases |chain.nodes| - at, mv.None?
      {
        mv := VisitNode(pp, cs, i, at, d);
        pp, at := pp.next, if mv.Some? then at else at + 1;
      }
    }

    // ----- the agent's request

    /** The open request is for the volume before the cursor of a hot partition that can spare it, to
        a partition with room. */
    ghost predicate Open(d: Desk)
      reads this`bounds, this`partHt, this`wraps, this`mover, this`destp, this`destIdx, chain`nodes, wraps`vols
      reads wraps`cursor
    {
      mover.Some? ==>
        var r := mover.value;
        && r.pfrom in partHt && r.pfrom in d.free && Hot(bounds, d, r.pfrom) && Spare(bounds, d, r.pfrom, r.vol)
        && partHt[r.pfrom] in wraps && Found(partHt[r.pfrom], r.vol)
        && destIdx < |chain.nodes| && destp == chain.nodes[destIdx] && r.pto == destp.part && RoomAt(d, destIdx, r.vol)
        && r.sfrom == r.pfrom.who && r.sto == r.pto.who && r.bkexist == r.vol.bkexist
    }

    ghost predicate Found(n: PartNode, v: Volume)
      reads n`vols, n`cursor
    {
      0 < n.cursor <= |n.vols| && v == n.vols[n.cursor - 1]
    }

    /** Tries the open request with the next destination. */
    method Retry(ghost d: Desk) returns (ok: bool)
      requires chain.Linked() && Sees(d) && mover.Some? && Open(d)
      modifies this`mover, this`destp, this`destIdx
      ensures ok ==>
        mover.Some? && mover.value.vol == old(mover.value.vol) && mover.value.pfrom == old(mover.value.pfrom)
      ensures ok ==> Open(d) && destIdx < old(destIdx)
      ensures ok ==> forall k :: destIdx < k < old(destIdx) ==> !RoomAt(d, k, old(mover.value.vol))
      ensures !ok ==> mover == old(mover) && forall k :: 0 <= k < old(destIdx) ==> !RoomAt(d, k, mover.value.vol)
    {
      var r := mover.value;
      destp, destIdx := FindDest(destp.prev, r.vol, destIdx, d);
      ok := destp != null;
      if ok {
        mover := Some(r.(sto := destp.part.who, pto := destp.part));
      }
    }

    // ----- what the search knows

    /** What is known when the partitions' cursors are `cs` and the request `r` is open with the
        `j`th destination.  Of the volumes considered on hot partitions, only that of the open request
        may be movable; hot partitions before its own are exhausted; and of the partitions after its
        destination, those with room do not want it. */
    ghost predicate Knows(cs: seq<nat>, r: Option<Job>, j: nat, d: Desk)
      requires |cs| == |chain.nodes|
      reads this`bounds, chain`nodes, chain.nodes`vols
    {
      && (forall k :: 0 <= k < |cs| ==> SweptAt(k, cs[k] - OpenAt(k, r), d))
      && (r.Some? ==> forall k :: j < k < |cs| ==> Declines(k, d, r.value.vol))
      && (r.Some? ==> forall i, k :: 0 <= k < i < |cs| && OpenAt(i, r) == 1 ==> LeftAt(k, cs[k], d))
    }

    ghost function OpenAt(k: nat, r: Option<Job>): int
      requires k < |chain.nodes|
      reads chain`nodes
    {
      if r.Some? && r.value.pfrom == chain.nodes[k].part then 1 else 0
    }

    /** What the search knows. */
    ghost predicate Searched(cs: seq<nat>, d: Desk)
      reads this`bounds, this`mover, this`destIdx, chain`nodes, chain.nodes`vols, chain.nodes`cursor
    {
      CursorsAre(cs) && Knows(cs, mover, destIdx, d)
    }

    ghost predicate Declines(k: nat, d: Desk, v: Volume)
      requires k < |chain.nodes|
      reads this`bounds, chain`nodes
    {
      RoomAt(d, k, v) ==> !chain.nodes[k].part.Welcomes(v)
    }

    /** The partition of the open request did not let the volume in. */
    ghost predicate Refused()
      reads this`mover
    {
      mover.Some? ==> !mover.value.pto.Welcomes(mover.value.vol)
    }

    lemma DeclinedStays(d: Desk, p: Partition, v: Volume)
      requires Sees(d) && p in d.all && forall k :: 0 <= k < |chain.nodes| ==> Declines(k, d, v)
      ensures !Movable(bounds, d, p, v)
    {
      forall q | q in d.all && Room(bounds, d, q, v) ensures !q.Welcomes(v) {
        var k :| 0 <= k < |chain.nodes| && chain.nodes[k].part == q;
        assert Declines(k, d, v);
      }
    }

    /** No volume before the cursors `cs` is movable on a hot partition, and the partitions before
        the `i`th are exhausted. */
    ghost predicate Swept(cs: seq<nat>, i: nat, d: Desk)
      requires |cs| == |chain.nodes|
      reads this`bounds, chain`nodes, chain.nodes`vols
    {
      forall k :: 0 <= k < |cs| ==> SweptAt(k, cs[k], d) && (k < i ==> LeftAt(k, cs[k], d))
    }

    ghost predicate SweptAt(k: nat, c: int, d: Desk)
      requires k < |chain.nodes|
      reads this`bounds, chain`nodes, chain.nodes`vols
    {
      chain.nodes[k].part in d.free && Hot(bounds, d, chain.nodes[k].part) ==>
      NoneMovable(bounds, d, chain.nodes[k].part, chain.nodes[k].vols, 0, c)
    }

    ghost predicate LeftAt(k: nat, c: nat, d: Desk)
      requires k < |chain.nodes|
      reads this`bounds, chain`nodes, chain.nodes`vols
    {
      chain.nodes[k].part in d.free && Hot(bounds, d, chain.nodes[k].part) ==> c == |chain.nodes[k].vols|
    }

    /** Searching on from a sweep sweeps further. */
    lemma SearchSweeps(cs: seq<nat>, i: nat, at: nat, d: Desk, mv: Option<Volume>)
      requires |cs| == |chain.nodes| && Swept(cs, i, d) && Searching(cs, i, at, d, mv) && Sees(d)
      ensures forall k :: 0 <= k < |cs| ==>
        SweptAt(k, chain.nodes[k].cursor - (if mv.Some? && k == at then 1 else 0), d)
      ensures forall k :: 0 <= k < |cs| && k < at ==> LeftAt(k, chain.nodes[k].cursor, d)
    {
      forall k | 0 <= k < |cs|
        ensures SweptAt(k, chain.nodes[k].cursor - (if mv.Some? && k == at then 1 else 0), d)
        ensures k < at ==> LeftAt(k, chain.nodes[k].cursor, d)
      {
        assert SweptAt(k, cs[k], d) && (k < i ==> LeftAt(k, cs[k], d));
        if i <= k < at {
          assert PassedAt(k, cs[k], d);
        }
      }
    }

    ghost predicate Proposed(v: Volume, at: nat, d: Desk)
      reads this`bounds, this`partHt, this`wraps, this`mover, this`destp, this`destIdx, chain`nodes, wraps`vols
      reads wraps`cursor
    {
      Open(d) && mover.Some? && mover.value.vol == v && at < |chain.nodes| && mover.value.pfrom == chain.nodes[at].part
    }

    /** Opens a request for the volume found, if any. */
    method Propose(mv: Option<Volume>, ghost cs: seq<nat>, ghost i: nat, ghost at: nat, ghost d: Desk)
      requires Indexed() && |cs| == |chain.nodes| && Searching(cs, i, at, d, mv)
      requires mv.Some? ==> mv.value.phome == chain.nodes[at].part
      modifies this`mover
      ensures Searching(cs, i, at, d, mv)
      ensures mv.None? ==> mover.None?
      ensures mv.Some? ==> Proposed(mv.value, at, d)
    {
      if mv.Some? {
        var v := mv.value;
        mover := Some(Request(v, v.bkexist, v.phome.who, v.phome, destp.part.who, destp.part));
      } else {
        mover := None;
      }
    }

    lemma AtHomeAt(cs: seq<nat>, i: nat, at: nat, d: Desk, mv: Option<Volume>)
      requires AtHome() && |cs| == |chain.nodes| && Searching(cs, i, at, d, mv)
      ensures mv.Some? ==> mv.value.phome == chain.nodes[at].part
    {
      if mv.Some? {
        assert chain.nodes[at] in chain.nodes && mv.value in chain.nodes[at].vols;
      }
    }

    lemma IndexedLinked()
      requires Indexed()
      ensures chain.Linked()
    {
    }

    /** Looks for a new volume, from the `i`th partition on. */
    method NextVolume(start: PartNode?, ghost i: nat, ghost d: Desk, ghost cs: seq<nat>)
      returns (mv: Option<Volume>, ghost at: nat)
      requires Indexed() && Sees(d) && AtHome() && CursorsAre(cs)
      requires start == if i < |chain.nodes| then chain.nodes[i] else null
      modifies chain.nodes`cursor, this`mover, this`destp, this`destIdx
      ensures Searching(cs, i, at, d, mv)
      ensures mv.None? ==> mover.None? && at >= |chain.nodes|
      ensures mv.Some? ==> Proposed(mv.value, at, d)
    {
      hide Agent.Indexed, Agent.Searching, Agent.Proposed, Agent.CursorsAre;
      CursorsWithin(cs);
      IndexedLinked();
      mv, at := Search(start, i, d, cs);
      AtHomeAt(cs, i, at, d, mv);
      Propose(mv, cs, i, at, d);
    }

    lemma SearchedAfter(cs: seq<nat>, i: nat, at: nat, d: Desk, mv: Option<Volume>, cs': seq<nat>)
      requires Indexed() && Sees(d) && |cs| == |chain.nodes| && Swept(cs, i, d) && Searching(cs, i, at, d, mv)
      requires mv.None? ==> mover.None? && at >= |chain.nodes|
      requires mv.Some? ==> Proposed(mv.value, at, d)
      requires CursorsAre(cs')
      ensures Searched(cs', d)
      ensures mover.None? ==> forall k :: 0 <= k < |chain.nodes| ==> LeftAt(k, cs'[k], d)
    {
      SearchSweeps(cs, i, at, d, mv);
      forall k | 0 <= k < |chain.nodes| && OpenAt(k, mover) == 1 ensures k == at {
        assert chain.nodes[k] == chain.nodes[at];
      }
    }

    ghost predicate Place(start: PartNode?, i: nat)
      reads chain`nodes
    {
      start == if i < |chain.nodes| then chain.nodes[i] else null
    }

    /** Another destination for the same volume. */
    lemma RetryKnows(cs: seq<nat>, r: Option<Job>, j: nat, d: Desk)
      requires |cs| == |chain.nodes| && Knows(cs, r, j, d) && r.Some? && !r.value.pto.Welcomes(r.value.vol)
      requires j < |cs| && r.value.pto == chain.nodes[j].part
      requires mover.Some? && mover.value.vol == r.value.vol && mover.value.pfrom == r.value.pfrom && destIdx < j
      requires forall k :: destIdx < k < j ==> !RoomAt(d, k, r.value.vol)
      ensures Knows(cs, mover, destIdx, d)
    {
      forall k | 0 <= k < |cs| ensures OpenAt(k, mover) == OpenAt(k, r) {
      }
      forall k | destIdx < k < |cs| ensures Declines(k, d, r.value.vol) {
        if k > j {
          assert Declines(k, d, r.value.vol);
        }
      }
    }

    /** No destination is left. */
    lemma GiveUpSweeps(cs: seq<nat>, r: Option<Job>, j: nat, d: Desk, i: nat)
      requires CursorsAre(cs) && Sees(d) && Knows(cs, r, j, d) && r.Some? && !r.value.pto.Welcomes(r.value.vol)
      requires j < |cs| && r.value.pto == chain.nodes[j].part && i < |cs|
      requires forall k :: 0 <= k < |cs| ==> (chain.nodes[k].part == r.value.pfrom <==> k == i)
      requires Found(chain.nodes[i], r.value.vol)
      requires forall k :: 0 <= k < j ==> !RoomAt(d, k, r.value.vol)
      ensures Swept(cs, i, d)
    {
      forall k | 0 <= k < |cs| ensures Declines(k, d, r.value.vol) {
      }
      DeclinedStays(d, r.value.pfrom, r.value.vol);
      forall k | 0 <= k < |cs| ensures SweptAt(k, cs[k], d) && (k < i ==> LeftAt(k, cs[k], d)) {
        assert SweptAt(k, cs[k] - OpenAt(k, r), d);
        assert OpenAt(i, r) == 1;
      }
    }

    lemma OnlyPlace(p: Partition, i: nat)
      requires Indexed() && p in partHt && i < |chain.nodes| && chain.nodes[i] == partHt[p]
      ensures forall k :: 0 <= k < |chain.nodes| ==> (chain.nodes[k].part == p <==> k == i)
    {
      forall k | 0 <= k < |chain.nodes| && chain.nodes[k].part == p ensures k == i {
        assert partHt[chain.nodes[k].part] == chain.nodes[k];
      }
    }

    /** Says where the search for another volume begins when the open request has no destination left. */
    method Resume(ghost j: nat, ghost d: Desk, ghost cs: seq<nat>, ghost known: bool)
      returns (start: PartNode?, ghost i: nat)
      requires Indexed() && Sees(d) && CursorsAre(cs) && mover.Some? && mover.value.pfrom in partHt
      requires Found(partHt[mover.value.pfrom], mover.value.vol) && j < |cs| && mover.value.pto == chain.nodes[j].part
      requires forall k :: 0 <= k < j ==> !RoomAt(d, k, mover.value.vol)
      requires known ==> Knows(cs, mover, j, d) && Refused()
      ensures Place(start, i)
      ensures known ==> Swept(cs, i, d)
    {
      start := partHt[mover.value.pfrom];
      i :| 0 <= i < |chain.nodes| && chain.nodes[i] == start;
      if known {
        OnlyPlace(mover.value.pfrom, i);
        GiveUpSweeps(cs, mover, j, d, i);
      }
    }

    /** Each request is for the volume of the last one and a destination further up the chain, or some
        cursor has gone on. */
    ghost predicate Onward(r: Option<Job>, j: nat, cs: seq<nat>, cs': seq<nat>)
      reads this`mover, this`destIdx
    {
      && mover.Some? && |cs| == |cs'| && (forall k :: 0 <= k < |cs| ==> cs[k] <= cs'[k])
      && ((r.Some? && cs == cs' && destIdx < j) || exists k :: 0 <= k < |cs| && cs[k] < cs'[k])
    }

    lemma SearchingOnward(cs: seq<nat>, i: nat, at: nat, d: Desk, mv: Option<Volume>, r: Option<Job>, j: nat,
                          cs': seq<nat>)
      requires |cs| == |chain.nodes| && Searching(cs, i, at, d, mv) && mv.Some? && mover.Some? && CursorsAre(cs')
      ensures Onward(r, j, cs, cs')
    {
      forall k | 0 <= k < |cs| ensures cs[k] <= cs'[k] {
        if i <= k < at {
          assert PassedAt(k, cs[k], d);
        }
      }
      assert cs[at] < cs'[at];
    }

    /** The answer to `getrequest`: nothing, when every hot partition is exhausted, or an open request
        further on than the last. */
    ghost predicate Answered(r: Option<Job>, j: nat, cs: seq<nat>, cs': seq<nat>, d: Desk, known: bool)
      reads this`bounds, this`partHt, this`all, this`wraps, this`mover, this`destp, this`destIdx
      reads chain`head, chain`tail, chain`nodes, chain.nodes`next, chain.nodes`prev, chain.nodes`vols
      reads chain.nodes`cursor
      reads wraps`vols, wraps`cursor
    {
      && Open(d) && CursorsAre(cs')
      && (known ==> Searched(cs', d))
      && (known && mover.None? ==> forall k :: 0 <= k < |chain.nodes| ==> LeftAt(k, cs'[k], d))
      && (mover.Some? ==> Onward(r, j, cs, cs'))
    }

    lemma AgainAnswered(r: Option<Job>, j: nat, cs: seq<nat>, d: Desk, known: bool)
      requires Open(d) && CursorsAre(cs) && mover.Some? && r.Some? && destIdx < j < |cs|
      requires mover.value.vol == r.value.vol && mover.value.pfrom == r.value.pfrom
      requires known ==> Knows(cs, r, j, d) && !r.value.pto.Welcomes(r.value.vol) && r.value.pto == chain.nodes[j].part
      requires forall k :: destIdx < k < j ==> !RoomAt(d, k, r.value.vol)
      ensures Answered(r, j, cs, cs, d, known)
    {
      if known {
        RetryKnows(cs, r, j, d);
      }
    }

    /** Answers with the open request, if it has another destination. */
    method Again(ghost d: Desk, ghost cs: seq<nat>, ghost known: bool) returns (ok: bool)
      requires Indexed() && Sees(d) && Open(d) && CursorsAre(cs) && mover.Some?
      requires known ==> Searched(cs, d) && Refused()
      modifies this`mover, this`destp, this`destIdx
      ensures ok ==> Answered(old(mover), old(destIdx), cs, cs, d, known)
      ensures !ok ==> mover == old(mover) && forall k :: 0 <= k < old(destIdx) ==> !RoomAt(d, k, mover.value.vol)
    {
      hide *;
      ghost var r, j := mover, destIdx;
      CursorsWithin(cs);
      OpenParts(d);
      if known {
        SearchedParts(cs, d);
        RefusedIs();
      }
      ok := Retry(d);
      if ok {
        AgainAnswered(r, j, cs, d, known);
      }
    }

    lemma CursorsWithin(cs: seq<nat>)
      requires CursorsAre(cs)
      ensures |cs| == |chain.nodes| && forall k :: 0 <= k < |cs| ==> cs[k] <= |chain.nodes[k].vols|
    {
    }

    lemma PlaceIs(start: PartNode?, i: nat)
      requires Place(start, i)
      ensures start == if i < |chain.nodes| then chain.nodes[i] else null
    {
    }

    lemma OpenParts(d: Desk)
      requires Indexed() && Open(d)
      ensures chain.Linked()
      ensures mover.Some? ==> mover.value.pfrom in partHt && Found(partHt[mover.value.pfrom], mover.value.vol)
      ensures mover.Some? ==> destIdx < |chain.nodes| && mover.value.pto == chain.nodes[destIdx].part
    {
    }

    lemma SearchedParts(cs: seq<nat>, d: Desk)
      requires Searched(cs, d) && CursorsAre(cs)
      ensures |cs| == |chain.nodes| && Knows(cs, mover, destIdx, d)
      ensures mover.None? ==> Swept(cs, 0, d)
    {
      hide Agent.SweptAt;
    }

    lemma RefusedIs()
      requires Refused() && mover.Some?
      ensures !mover.value.pto.Welcomes(mover.value.vol)
    {
    }

    /** Answers with a request for another volume. */
    method Another(start: PartNode?, ghost i: nat, ghost r: Option<Job>, ghost j: nat, ghost d: Desk,
                   ghost cs: seq<nat>, ghost known: bool)
      returns (ghost cs': seq<nat>)
      requires Indexed() && Sees(d) && AtHome() && CursorsAre(cs) && Place(start, i)
      requires known ==> Swept(cs, i, d)
      modifies chain.nodes`cursor, this`mover, this`destp, this`destIdx
      ensures Answered(r, j, cs, cs', d, known)
    {
      hide Agent.Indexed, Agent.Searching, Agent.Proposed, Agent.CursorsAre, Agent.Swept, Agent.Answered;
      var mv;
      ghost var at;
      CursorsWithin(cs);
      PlaceIs(start, i);
      mv, at := NextVolume(start, i, d, cs);
      cs' := Snapshot(cs, i, at, d, mv);
      AnotherAnswered(i, at, mv, r, j, d, cs, cs', known);
    }

    lemma AnotherAnswered(i: nat, at: nat, mv: Option<Volume>, r: Option<Job>, j: nat, d: Desk, cs: seq<nat>,
                          cs': seq<nat>, known: bool)
      requires Indexed() && Sees(d) && |cs| == |chain.nodes| && Searching(cs, i, at, d, mv) && CursorsAre(cs')
      requires known ==> Swept(cs, i, d)
      requires mv.None? ==> mover.None? && at >= |chain.nodes|
      requires mv.Some? ==> Proposed(mv.value, at, d)
      ensures Answered(r, j, cs, cs', d, known)
    {
      if known {
        SearchedAfter(cs, i, at, d, mv, cs');
      }
      if mv.Some? {
        SearchingOnward(cs, i, at, d, mv, r, j, cs');
      }
    }

    lemma AtHead()
      requires Indexed()
      ensures Place(chain.head, 0)
    {
    }

    /** Answers with the open request, or says where the search for a volume begins. */
    method Begin(ghost d: Desk, ghost cs: seq<nat>, ghost known: bool)
      returns (ok: bool, start: PartNode?, ghost i: nat)
      requires Indexed() && Sees(d) && Open(d) && CursorsAre(cs)
      requires known ==> Searched(cs, d) && Refused()
      modifies this`mover, this`destp, this`destIdx
      ensures ok ==> Answered(old(mover), old(destIdx), cs, cs, d, known)
      ensures !ok ==> Place(start, i) && (known ==> Swept(cs, i, d))
    {
      hide Agent.Indexed, Agent.Open, Agent.CursorsAre, Agent.Searched, Agent.Knows, Agent.Refused, Agent.Swept;
      hide Agent.Answered, Agent.Found, Agent.RoomAt, Agent.Place;
      CursorsWithin(cs);
      OpenParts(d);
      if known {
        SearchedParts(cs, d);
      }
      if mover.None? {
        AtHead();
        return false, chain.head, 0;
      }
      ghost var j := destIdx;
      ok := Again(d, cs, known);
      if ok {
        return true, null, 0;
      }
      start, i := Resume(j, d, cs, known);
    }

    /** The next request: the open one with its next destination, or one for the next volume.  Once
        `known`, the search goes on knowing what it has passed, as long as requests are refused only
        because their partition does not let the volume in. */
    method GetRequest(ghost d: Desk, ghost cs: seq<nat>, ghost known: bool)
      returns (r: Option<Job>, ghost cs': seq<nat>)
      requires Indexed() && Sees(d) && AtHome() && Open(d) && CursorsAre(cs)
      requires known ==> Searched(cs, d) && Refused()
      modifies chain.nodes`cursor, this`mover, this`destp, this`destIdx
      ensures r == mover && Answered(old(mover), old(destIdx), cs, cs', d, known)
    {
      hide Agent.Indexed, Agent.Open, Agent.CursorsAre, Agent.Searched, Agent.Knows, Agent.Refused, Agent.Swept;
      hide Agent.Answered, Agent.Place;
      ghost var r0, j := mover, destIdx;
      var ok, start;
      ghost var i;
      ok, start, i := Begin(d, cs, known);
      if ok {
        return mover, cs;
      }
      cs' := Another(start, i, r0, j, d, cs, known);
      r := mover;
    }

    // ----- being told of moves

    /** Takes a volume out of a list, if it is there. */
    method DelV(n: PartNode, v: Volume) returns (ghost i: nat)
      modifies n`vols, n`cursor
      ensures v in old(n.vols) ==> i < |old(n.vols)| && old(n.vols)[i] == v && n.vols == RemoveAt(old(n.vols), i)
      ensures v in old(n.vols) ==> n.cursor == CursorAfterRemove(old(n.cursor), i)
      ensures v !in old(n.vols) ==> n.vols == old(n.vols) && n.cursor == old(n.cursor)
    {
      var k := 0;
      while k < |n.vols|
        invariant k <= |n.vols| && n.vols == old(n.vols) && n.cursor == old(n.cursor)
        invariant v !in n.vols[..k]
      {
        if n.vols[k] == v {
          n.vols := n.vols[..k] + n.vols[k + 1..];
          n.cursor := CursorAfterRemove(n.cursor, k);
          return k;
        }
        k := k + 1;
      }
      i := 0;
    }

    /** Puts a volume into a list at its place. */
    method InsertV(n: PartNode, v: Volume)
      modifies n`vols, n`cursor
      ensures n.vols == InsertAt(old(n.vols), VolSlot(old(n.vols), v.size), v)
      ensures n.cursor == CursorAfterInsert(old(n.cursor), VolSlot(old(n.vols), v.size))
    {
      var k := 0;
      while k < |n.vols| && n.vols[k].size > v.size
        invariant k <= |n.vols|
        invariant forall i :: 0 <= i < k ==> n.vols[i].size > v.size
      {
        k := k + 1;
      }
      assert k == VolSlot(n.vols, v.size);
      n.vols := n.vols[..k] + [v] + n.vols[k..];
      n.cursor := CursorAfterInsert(n.cursor, k);
    }

    /** Begins every list again. */
    method ResetCursors(ghost region: set<PartNode>)
      requires chain.Linked() && forall n :: n in chain.nodes <==> n in region
      modifies region`cursor
      ensures forall n :: n in region ==> n.cursor == 0
    {
      var fromp := chain.head;
      ghost var k := 0;
      while fromp != null
        invariant k <= |chain.nodes| && fromp == if k < |chain.nodes| then chain.nodes[k] else null
        invariant forall i :: 0 <= i < k ==> chain.nodes[i].cursor == 0
        decreases |chain.nodes| - k
      {
        fromp.cursor := 0;
        fromp, k := fromp.next, k + 1;
      }
    }

    /** The desk is the agent's view. */
    ghost predicate Matches(d: Desk)
      reads this`all, this`partHt, this`wraps, wraps`vols, wraps`cursor, partHt.Keys`free
    {
      Holds(d) && forall p :: p in partHt ==> partHt[p].cursor == d.cursor[p]
    }

    /** But for the cursors. */
    ghost predicate Holds(d: Desk)
      reads this`all, this`partHt, this`wraps, wraps`vols, partHt.Keys`free
    {
      && d.all == all && Known(d)
      && (forall p :: p in partHt ==> p in d.all && partHt[p] in wraps && p.free == d.free[p])
      && (forall p :: p in partHt ==> partHt[p].vols == d.vols[p])
    }

    lemma MatchesIs(d: Desk)
      ensures Matches(d) <==>
        && d.all == all && Known(d)
        && forall p :: p in partHt ==>
          && p in d.all && partHt[p] in wraps && p.free == d.free[p]
          && partHt[p].vols == d.vols[p] && partHt[p].cursor == d.cursor[p]
    {
    }

    /** Moves a volume between two lists; one that is not listed joins the second. */
    method MoveVol(fromp: PartNode, top: PartNode, v: Volume) returns (ghost i: nat)
      requires fromp != top
      modifies fromp`vols, fromp`cursor, top`vols, top`cursor
      ensures v in old(fromp.vols) ==> i < |old(fromp.vols)| && old(fromp.vols)[i] == v
      ensures v in old(fromp.vols) ==>
        fromp.vols == RemoveAt(old(fromp.vols), i) && fromp.cursor == CursorAfterRemove(old(fromp.cursor), i)
      ensures v !in old(fromp.vols) ==> fromp.vols == old(fromp.vols) && fromp.cursor == old(fromp.cursor)
      ensures top.vols == InsertAt(old(top.vols), VolSlot(old(top.vols), v.size), v)
      ensures top.cursor == CursorAfterInsert(old(top.cursor), VolSlot(old(top.vols), v.size))
    {
      i := DelV(fromp, v);
      InsertV(top, v);
    }

    /** Moves the wrapper of the volume. */
    method Rethread(p: Partition, q: Partition, v: Volume, ghost d: Desk) returns (ghost i: nat)
      requires IndexOk(partHt, all, wraps) && Matches(d) && p in all && q in all && p != q
      modifies wraps`vols, wraps`cursor
      ensures if v in d.vols[p] then i < |d.vols[p]| && d.vols[p][i] == v && Matches(Transfer(d, p, i, q))
              else Matches(Join(d, v, q))
    {
      i := MoveVol(partHt[p], partHt[q], v);
    }

    /** Begins every list again. */
    method Reset(ghost d: Desk)
      requires Indexed() && Matches(d)
      modifies wraps`cursor
      ensures Matches(Restart(d))
    {
      ResetCursors(wraps);
    }

    /** Takes two partitions out of the chain and puts them back in. */
    method Reorder(p: Partition, q: Partition, ghost d: Desk)
      requires Indexed() && Matches(d) && p in all && q in all && p != q && InOrderBut(d.free, chain.nodes, p, q)
      modifies chain`head, chain`tail, chain`nodes, wraps`next, wraps`prev
      ensures Indexed() && Matches(d) && InOrder(d.free, chain.nodes)
    {
      hide *;
      OrderedBut(p, q, d);
      ReorderParts(p, q, d);
      chain.Resort(partHt[p], partHt[q], wraps);
      IndexedBy();
      Ordered(d);
    }

    lemma ReorderParts(p: Partition, q: Partition, d: Desk)
      requires Indexed() && Matches(d) && p in all && q in all && p != q
      ensures chain.Linked() && IndexOk(partHt, all, wraps) && p in partHt && q in partHt && partHt[p] != partHt[q]
      ensures partHt[p] in chain.nodes && partHt[q] in chain.nodes
      ensures forall x :: x in chain.nodes <==> x in wraps
    {
    }

    lemma IndexedBy()
      requires chain.Linked() && IndexOk(partHt, all, wraps) && forall x :: x in chain.nodes <==> x in wraps
      ensures Indexed()
    {
    }

    lemma OrderedBut(p: Partition, q: Partition, d: Desk)
      requires Indexed() && Matches(d) && p in all && q in all && InOrderBut(d.free, chain.nodes, p, q)
      ensures SortedBut(chain.nodes, partHt[p], partHt[q])
    {
      forall i, j | 0 <= i < j < |chain.nodes|
          && chain.nodes[i] !in {partHt[p], partHt[q]} && chain.nodes[j] !in {partHt[p], partHt[q]}
        ensures Occ(chain.nodes[i].part) >= Occ(chain.nodes[j].part)
      {
        assert InOrderAt(d.free, chain.nodes[i].part, chain.nodes[j].part);
      }
    }

    lemma Ordered(d: Desk)
      requires Indexed() && Matches(d) && Sorted(chain.nodes)
      ensures InOrder(d.free, chain.nodes)
    {
    }

    /** Moves the wrapper; if the partition moved from now takes volumes, everything may be different. */
    method MoveWrapper(p: Partition, q: Partition, v: Volume, ghost d: Desk) returns (ghost i: nat)
      requires Indexed() && Matches(d) && p in all && q in all && p != q
      modifies wraps`vols, wraps`cursor
      ensures if v in d.vols[p] then i < |d.vols[p]| && d.vols[p][i] == v && Matches(MoveLists(bounds, d, p, i, q))
              else Matches(JoinLists(bounds, d, p, v, q))
    {
      hide Transfer, Join, Restart, Agent.Indexed;
      MatchesFree(d, p);
      hide Agent.Matches, IndexOk;
      i := Rethread(p, q, v, d);
      if Occ(p) < bounds.move {
        Reset(if v in d.vols[p] then Transfer(d, p, i, q) else Join(d, v, q));
      }
    }

    lemma MatchesFree(d: Desk, p: Partition)
      requires Indexed() && Matches(d) && p in all
      ensures IndexOk(partHt, all, wraps) && Known(d) && p in d.all && d.all == all && p.free == d.free[p]
    {
    }

    /** The move has been entered in the books; the agent follows.  A volume that it had thrown away is
        listed again. */
    method SetRequest(m: Job, ghost d: Desk) returns (ghost i: nat)
      requires Indexed() && Matches(d)
      requires m.pfrom in all && m.pto in all && m.pfrom != m.pto
      requires InOrderBut(d.free, chain.nodes, m.pfrom, m.pto)
      modifies this`mover, chain`head, chain`tail, chain`nodes, wraps`next, wraps`prev, wraps`vols, wraps`cursor
      ensures Indexed() && InOrder(d.free, chain.nodes)
      ensures if m.vol in d.vols[m.pfrom]
              then i < |d.vols[m.pfrom]| && d.vols[m.pfrom][i] == m.vol
                && Matches(MoveLists(bounds, d, m.pfrom, i, m.pto))
              else Matches(JoinLists(bounds, d, m.pfrom, m.vol, m.pto))
      ensures mover == if old(mover) == Some(m) then None else old(mover)
    {
      hide *;
      Close(m, d);
      i := MoveWrapper(m.pfrom, m.pto, m.vol, d);
    }

    method Close(m: Job, ghost d: Desk)
      requires Indexed() && Matches(d)
      requires m.pfrom in all && m.pto in all && m.pfrom != m.pto && InOrderBut(d.free, chain.nodes, m.pfrom, m.pto)
      modifies this`mover, chain`head, chain`tail, chain`nodes, wraps`next, wraps`prev
      ensures Indexed() && Matches(d) && InOrder(d.free, chain.nodes)
      ensures mover == if old(mover) == Some(m) then None else old(mover)
    {
      mover := if mover == Some(m) then None else mover;
      Reorder(m.pfrom, m.pto, d);
    }

    /** The volume is not to be moved any more. */
    method DiscardV(v: Volume, ghost d: Desk) returns (ghost i: nat)
      requires Indexed() && Matches(d) && v.phome in all
      modifies this`mover, wraps`vols, wraps`cursor
      ensures Indexed() && mover == None
      ensures v !in d.vols[v.phome] ==> Matches(d)
      ensures v in d.vols[v.phome] ==>
        i < |d.vols[v.phome]| && d.vols[v.phome][i] == v && Matches(AfterDiscard(d, v.phome, i))
    {
      mover := None;
      i := DelV(partHt[v.phome], v);
    }

    // ----- being told of the cell

    /** Lists the volumes of a partition, largest first. */
    method AddVols(n: PartNode, vols: seq<Volume>)
      requires n.vols == [] && Distinct(vols)
      modifies n`vols, n`cursor
      ensures Descending(n.vols) && Distinct(n.vols) && multiset(n.vols) == multiset(vols) && n.cursor == 0
    {
      var k := 0;
      while k < |vols|
        invariant k <= |vols| && Descending(n.vols) && Distinct(n.vols) && multiset(n.vols) == multiset(vols[..k])
      {
        InsertListed(n.vols, vols, k);
        InsertV(n, vols[k]);
        k := k + 1;
      }
      assert vols[..k] == vols;
      n.cursor := 0;
    }

    /** Puts a new wrapper on the chain. */
    method Enchain(up: PartNode, ghost free: map<Partition, int>)
      requires chain.Linked() && Members(chain.nodes, wraps) && up !in wraps
      requires InOrder(free, chain.nodes) && up.part in free && Priced(free)
      modifies this`wraps, chain`head, chain`tail, chain`nodes, wraps`next, wraps`prev, up`next, up`prev
      ensures chain.Linked() && Members(chain.nodes, wraps) && InOrder(free, chain.nodes) && wraps == old(wraps) + {up}
    {
      OrderIsSorted(free, chain.nodes);
      chain.PutBack(up, wraps + {up});
      wraps := wraps + {up};
      SortedIsOrder(free, chain.nodes);
    }

    /** Wraps a partition and its volumes. */
    method NewWrapper(p: Partition) returns (up: PartNode)
      requires Distinct(p.vols)
      ensures up.part == p && fresh(up) && Listed(p.vols, up.vols, up.cursor)
    {
      up := new PartNode(p);
      AddVols(up, p.vols);
    }

    /** Puts a new wrapper on the chain and into the index. */
    method AddWrapper(up: PartNode, ghost free: map<Partition, int>)
      requires Indexed() && InOrder(free, chain.nodes) && up !in wraps && up.part !in all && up.part in free
      requires Priced(free)
      modifies this`wraps, this`partHt, this`all, chain`head, chain`tail, chain`nodes, wraps`next, wraps`prev, up`next
      modifies up`prev
      ensures Indexed() && InOrder(free, chain.nodes) && all == old(all) + [up.part]
      ensures wraps == old(wraps) + {up} && partHt == old(partHt)[up.part := up]
    {
      IndexAdd(partHt, all, wraps, up);
      Enchain(up, free);
      partHt, all := partHt[up.part := up], all + [up.part];
    }

    /** The chain is in order, and the wrappers list the volumes of their partitions. */
    ghost predicate Fresh(free: map<Partition, int>)
      reads this`wraps, this`partHt, this`all, chain, chain.nodes`next, chain.nodes`prev
      reads wraps`vols, wraps`cursor, all`vols
    {
      Indexed() && InOrder(free, chain.nodes) && Lists()
    }

    ghost predicate Lists()
      reads this`partHt, this`all, this`wraps, wraps`vols, wraps`cursor, all`vols
    {
      forall p :: p in all ==> p in partHt && partHt[p] in wraps && Listed(p.vols, partHt[p].vols, partHt[p].cursor)
    }

    method AddPartition(p: Partition, ghost free: map<Partition, int>)
      requires Fresh(free) && p !in all && Distinct(p.vols) && p in free && Priced(free)
      modifies this`wraps, this`partHt, this`all, chain`head, chain`tail, chain`nodes, wraps`next, wraps`prev
      ensures Fresh(free) && all == old(all) + [p] && fresh(wraps - old(wraps))
    {
      var up := NewWrapper(p);
      AddListed(up, free);
    }

    method AddListed(up: PartNode, ghost free: map<Partition, int>)
      requires Fresh(free) && up !in wraps && up.part !in all && up.part in free && Priced(free)
      requires Listed(up.part.vols, up.vols, up.cursor)
      modifies this`wraps, this`partHt, this`all, chain`head, chain`tail, chain`nodes, wraps`next, wraps`prev, up`next
      modifies up`prev
      ensures Fresh(free) && all == old(all) + [up.part] && wraps == old(wraps) + {up}
    {
      hide Agent.Indexed, InOrder, Listed;
      AddWrapper(up, free);
    }

    lemma FreshDesk(free: map<Partition, int>) returns (d: Desk)
      requires Fresh(free) && Priced(free) && forall p :: p in all ==> p in free
      ensures Matches(d) && WellFormed(d) && d.free == free
      ensures forall p :: p in all ==> d.cursor[p] == 0 && multiset(d.vols[p]) == multiset(p.vols)
    {
      d := Desk(all, free, map p | p in partHt :: partHt[p].vols, map p | p in partHt :: partHt[p].cursor);
    }

    /** Wraps all partitions, and adds up their space. */
    method AddAll(parts: seq<Partition>, ghost free: map<Partition, int>) returns (totOcc: int, totSpace: nat)
      requires Fresh(free) && all == [] && wraps == {} && Distinct(parts)
      requires (forall p :: p in parts ==> p in free && Distinct(p.vols)) && Priced(free)
      modifies this`wraps, this`partHt, this`all, chain`head, chain`tail, chain`nodes
      ensures Fresh(free) && all == parts && fresh(wraps)
      ensures totOcc == Used(free, parts) && totSpace == Space(parts)
    {
      totOcc, totSpace := 0, 0;
      var k := 0;
      while k < |parts|
        invariant k <= |parts| && Fresh(free) && all == parts[..k] && fresh(wraps)
        invariant totOcc == Used(free, parts[..k]) && totSpace == Space(parts[..k])
      {
        NotYet(parts, k);
        AddPartition(parts[k], free);
        totOcc, totSpace := totOcc + (parts[k].size - parts[k].free), totSpace + parts[k].size;
        SpaceGrows(free, parts, k);
        k := k + 1;
      }
      assert parts[..k] == parts;
    }

    method Survey(parts: seq<Partition>, ghost free: map<Partition, int>)
      requires Fresh(free) && all == [] && wraps == {} && Distinct(parts)
      requires (forall p :: p in parts ==> p in free && Distinct(p.vols)) && Priced(free)
      modifies this`wraps, this`partHt, this`all, this`bounds, chain`head, chain`tail, chain`nodes
      ensures Fresh(free) && all == parts && fresh(wraps)
      ensures bounds == Window(Average(Used(free, parts), Space(parts)), precision)
    {
      var totOcc, totSpace := AddAll(parts, free);
      bounds := Window(Average(totOcc, totSpace), precision);
    }

    /** Learns the cell, and sets the window around the average occupancy. */
    method Servconf(parts: seq<Partition>) returns (ghost d: Desk)
      requires Fresh(map[]) && all == [] && wraps == {} && Distinct(parts)
      requires forall p :: p in parts ==> Distinct(p.vols)
      modifies this`wraps, this`partHt, this`all, this`bounds, chain`head, chain`tail, chain`nodes
      ensures Indexed() && Matches(d) && WellFormed(d) && InOrder(d.free, chain.nodes) && all == parts && fresh(wraps)
      ensures forall p :: p in parts ==> p in d.free && d.cursor[p] == 0 && multiset(d.vols[p]) == multiset(p.vols)
      ensures bounds == Window(Average(Used(d.free, parts), Space(parts)), precision)
      ensures Around(bounds, Used(d.free, parts), Space(parts), precision)
    {
      ghost var free := map p | p in parts :: p.free;
      WindowMeets(free, parts, precision);
      hide Around, Window;
      Survey(parts, free);
      d := FreshDesk(free);
    }

    // ----- the request, seen from outside

    /** The agent agrees with its view, and knows what it has passed. */
    ghost predicate Working(d: Desk, cs: seq<nat>)
      reads this`bounds, this`partHt, this`all, this`wraps, this`mover, this`destp, this`destIdx
      reads chain`head, chain`tail, chain`nodes, chain.nodes`next, chain.nodes`prev, chain.nodes`vols
      reads chain.nodes`cursor
      reads wraps`vols, wraps`cursor, partHt.Keys`free
    {
      Indexed() && Matches(d) && WellFormed(d) && Open(d) && Searched(cs, d)
    }

    lemma WorkingWellFormed(d: Desk, cs: seq<nat>)
      requires Working(d, cs)
      ensures WellFormed(d)
    {
    }

    lemma SeesDesk(d: Desk)
      requires Indexed() && Matches(d)
      ensures Sees(d)
    {
      forall p | p in d.all ensures p in Parts(chain.nodes) {
        assert partHt[p] in chain.nodes;
      }
    }

    lemma CursorAt(d: Desk, cs: seq<nat>, k: nat)
      requires Indexed() && Matches(d) && CursorsAre(cs) && k < |cs|
      ensures chain.nodes[k].part in d.all && d.cursor[chain.nodes[k].part] == cs[k]
      ensures d.vols[chain.nodes[k].part] == chain.nodes[k].vols
    {
      assert chain.nodes[k] in wraps;
    }

    lemma WorkingSettled(d: Desk, cs: seq<nat>)
      requires Working(d, cs)
      ensures mover.None? ==> Settled(bounds, d)
      ensures mover.Some? ==> SettledBut(bounds, d, mover.value.pfrom, d.cursor[mover.value.pfrom] - 1)
    {
      forall r, i | r in d.all && Hot(bounds, d, r) && 0 <= i < d.cursor[r]
          && !(mover.Some? && r == mover.value.pfrom && i == d.cursor[r] - 1)
        ensures !Movable(bounds, d, r, d.vols[r][i])
      {
        var k :| 0 <= k < |chain.nodes| && chain.nodes[k] == partHt[r];
        CursorAt(d, cs, k);
        assert SweptAt(k, cs[k] - OpenAt(k, mover), d);
      }
    }

    lemma SettledWorking(d: Desk, cs: seq<nat>)
      requires Indexed() && Matches(d) && WellFormed(d) && CursorsAre(cs) && mover.None? && Settled(bounds, d)
      ensures Working(d, cs)
    {
      forall k | 0 <= k < |cs| ensures SweptAt(k, cs[k], d) {
        CursorAt(d, cs, k);
      }
    }

    /** What is known depends on the free space only. */
    lemma KnowsSame(cs: seq<nat>, d: Desk, d': Desk)
      requires |cs| == |chain.nodes| && Knows(cs, mover, destIdx, d)
      requires Known(d) && Known(d') && d.all == d'.all && d.free == d'.free
      ensures Knows(cs, mover, destIdx, d')
    {
      forall k | 0 <= k < |cs| ensures SweptAt(k, cs[k] - OpenAt(k, mover), d') {
        assert SweptAt(k, cs[k] - OpenAt(k, mover), d);
        if chain.nodes[k].part in d.free && Hot(bounds, d, chain.nodes[k].part) {
          SameNoneMovable(bounds, d, d', chain.nodes[k].part, chain.nodes[k].vols, 0, cs[k] - OpenAt(k, mover));
        }
      }
      if mover.Some? {
        forall k | destIdx < k < |cs| ensures Declines(k, d', mover.value.vol) {
          assert Declines(k, d, mover.value.vol);
        }
        forall i, k | 0 <= k < i < |cs| && OpenAt(i, mover) == 1 ensures LeftAt(k, cs[k], d') {
          assert LeftAt(k, cs[k], d);
        }
      }
    }

    /** The desk after a request. */
    lemma Advance(d: Desk, cs': seq<nat>) returns (d': Desk)
      requires Indexed() && Holds(d) && WellFormed(d) && CursorsAre(cs')
      ensures d' == d.(cursor := d'.cursor) && Matches(d') && WellFormed(d')
    {
      d' := d.(cursor := map p | p in partHt :: partHt[p].cursor);
      forall p | p in d'.all ensures d'.cursor[p] <= |d'.vols[p]| {
        var k :| 0 <= k < |chain.nodes| && chain.nodes[k] == partHt[p];
      }
    }

    lemma AdvanceWorking(d: Desk, cs': seq<nat>) returns (d': Desk)
      requires Indexed() && Holds(d) && WellFormed(d) && Open(d) && Searched(cs', d)
      ensures d' == d.(cursor := d'.cursor) && Working(d', cs')
    {
      d' := Advance(d, cs');
      KnowsSame(cs', d, d');
    }

    /** Fewer volumes are left to consider, or fewer destinations for the same volume. */
    ghost predicate Further(r: Option<Job>, j: nat, d: Desk, d': Desk)
      requires WellFormed(d) && WellFormed(d')
      reads this`destIdx
    {
      var (u, u') := (Unvisited(d, |d.all|), Unvisited(d', |d'.all|));
      u' < u || (u' == u && r.Some? && destIdx < j)
    }

    lemma FurtherOn(r: Option<Job>, j: nat, d: Desk, cs: seq<nat>, d': Desk, cs': seq<nat>, ns: seq<PartNode>)
      requires WellFormed(d) && WellFormed(d') && d' == d.(cursor := d'.cursor)
      requires |ns| == |cs| && Onward(r, j, cs, cs')
      requires forall k :: 0 <= k < |ns| ==>
        ns[k].part in d.all && d.cursor[ns[k].part] == cs[k] && d'.cursor[ns[k].part] == cs'[k]
      requires forall p :: p in d.all ==> exists k :: 0 <= k < |ns| && ns[k].part == p
      ensures Further(r, j, d, d')
    {
      forall p | p in d.all ensures d.cursor[p] <= d'.cursor[p] && (cs == cs' ==> d.cursor[p] == d'.cursor[p]) {
        var k :| 0 <= k < |ns| && ns[k].part == p;
      }
      if k :| 0 <= k < |cs| && cs[k] < cs'[k] {
        assert d.all[..|d.all|] == d.all;
        UnvisitedFalls(d, d', |d.all|, ns[k].part);
      } else {
        UnvisitedSame(d, d', |d.all|);
      }
    }

    lemma LeftStuck(d: Desk, cs: seq<nat>)
      requires Working(d, cs) && mover.None? && forall k :: 0 <= k < |chain.nodes| ==> LeftAt(k, cs[k], d)
      ensures Stuck(bounds, d)
    {
      WorkingSettled(d, cs);
      forall p, v | p in d.all && v in d.vols[p] && Hot(bounds, d, p) ensures !Movable(bounds, d, p, v) {
        var k :| 0 <= k < |chain.nodes| && chain.nodes[k] == partHt[p];
        CursorAt(d, cs, k);
        assert LeftAt(k, cs[k], d);
        var i :| 0 <= i < |d.vols[p]| && d.vols[p][i] == v;
        assert i < d.cursor[p];
      }
    }

    lemma AllPlaced()
      requires Indexed()
      ensures forall p :: p in all ==> exists k :: 0 <= k < |chain.nodes| && chain.nodes[k].part == p
    {
      forall p | p in all ensures exists k :: 0 <= k < |chain.nodes| && chain.nodes[k].part == p {
        var k :| 0 <= k < |chain.nodes| && chain.nodes[k] == partHt[p];
        assert chain.nodes[k].part == p;
      }
    }

    ghost predicate CursorsOn(d: Desk, cs: seq<nat>)
      reads chain`nodes
    {
      |cs| == |chain.nodes|
      && forall k :: 0 <= k < |cs| ==>
        chain.nodes[k].part in d.all && chain.nodes[k].part in d.cursor && d.cursor[chain.nodes[k].part] == cs[k]
    }

    lemma WorkingCursors(d: Desk, cs: seq<nat>)
      requires Working(d, cs)
      ensures CursorsOn(d, cs) && Sees(d)
    {
      SeesDesk(d);
      forall k | 0 <= k < |cs| ensures chain.nodes[k].part in d.all && d.cursor[chain.nodes[k].part] == cs[k] {
        CursorAt(d, cs, k);
      }
    }

    lemma WorkingParts(d: Desk, cs: seq<nat>)
      requires Working(d, cs)
      ensures Indexed() && Matches(d) && Holds(d) && WellFormed(d) && Open(d) && CursorsAre(cs) && Searched(cs, d)
    {
    }

    lemma NodesWrapped()
      requires Indexed()
      ensures forall n :: n in chain.nodes ==> n in wraps
    {
    }

    lemma AnsweredOpen(r: Option<Job>, j: nat, cs: seq<nat>, cs': seq<nat>, d: Desk)
      requires Answered(r, j, cs, cs', d, false)
      ensures Open(d) && CursorsAre(cs')
    {
    }

    lemma OpenSame(d: Desk, d': Desk)
      requires Open(d) && d' == d.(cursor := d'.cursor)
      ensures Open(d')
    {
    }

    /** What the open request is about. */
    lemma OpenIs(d: Desk, m: Job)
      requires Indexed() && Matches(d) && Open(d) && mover == Some(m)
      ensures m.pfrom in d.all && m.pto in d.all && Known(d)
      ensures 0 < d.cursor[m.pfrom] <= |d.vols[m.pfrom]| && d.vols[m.pfrom][d.cursor[m.pfrom] - 1] == m.vol
      ensures m.sfrom == m.pfrom.who && m.sto == m.pto.who && m.bkexist == m.vol.bkexist
      ensures Hot(bounds, d, m.pfrom) && Spare(bounds, d, m.pfrom, m.vol) && Room(bounds, d, m.pto, m.vol)
    {
      assert chain.nodes[destIdx] in wraps;
      hide Hot, Spare, Room, PartChain.Linked;
    }

    lemma AnsweredParts(r: Option<Job>, j: nat, cs: seq<nat>, cs': seq<nat>, d: Desk)
      requires Answered(r, j, cs, cs', d, true)
      ensures Open(d) && Searched(cs', d)
    {
    }

    method Ask(ghost d: Desk, ghost cs: seq<nat>) returns (r: Option<Job>, ghost d': Desk, ghost cs': seq<nat>)
      requires Working(d, cs) && Sees(d) && AtHome() && Refused()
      modifies chain.nodes`cursor, this`mover, this`destp, this`destIdx
      ensures r == mover && Working(d', cs') && d' == d.(cursor := d'.cursor)
      ensures Answered(old(mover), old(destIdx), cs, cs', d, true)
    {
      hide *;
      WorkingParts(d, cs);
      r, cs' := GetRequest(d, cs, true);
      AnsweredParts(old(mover), old(destIdx), cs, cs', d);
      d' := AdvanceWorking(d, cs');
    }

    /** Asks for a request, when the last was refused by its partition or there is none. */
    method Poll(ghost d: Desk, ghost cs: seq<nat>) returns (r: Option<Job>, ghost d': Desk, ghost cs': seq<nat>)
      requires Working(d, cs) && AtHome() && Refused()
      modifies chain.nodes`cursor, this`mover, this`destp, this`destIdx
      ensures r == mover && Working(d', cs') && d' == d.(cursor := d'.cursor)
      ensures r.None? ==> Stuck(bounds, d')
      ensures r.Some? ==> Further(old(mover), old(destIdx), d, d')
    {
      ghost var r0, j := mover, destIdx;
      WorkingCursors(d, cs);
      r, d', cs' := Ask(d, cs);
      PollAnswered(r0, j, d, cs, d', cs');
    }

    lemma PollAnswered(r0: Option<Job>, j: nat, d: Desk, cs: seq<nat>, d': Desk, cs': seq<nat>)
      requires Working(d', cs') && WellFormed(d) && d' == d.(cursor := d'.cursor) && Answered(r0, j, cs, cs', d, true)
      requires CursorsOn(d, cs)
      ensures mover.None? ==> Stuck(bounds, d')
      ensures mover.Some? ==> Further(r0, j, d, d')
    {
      forall k | 0 <= k < |cs'| ensures chain.nodes[k].part in d.all && d'.cursor[chain.nodes[k].part] == cs'[k] {
        CursorAt(d', cs', k);
      }
      if mover.None? {
        forall k | 0 <= k < |cs'| ensures LeftAt(k, cs'[k], d') {
          assert LeftAt(k, cs'[k], d);
        }
        LeftStuck(d', cs');
      } else {
        AllPlaced();
        FurtherOn(r0, j, d, cs, d', cs', chain.nodes);
      }
    }

    // ----- votes, moves and discards, seen from outside

    /** The agent likes its own request, and any that leaves the destination below the upper bound. */
    method QueryRequest(m: Job) returns (ok: bool)
      ensures ok <==> mover == Some(m) || OccWith(m.pto, m.vol) < bounds.upper
    {
      if mover == Some(m) {
        return true;
      }
      ok := OccWith(m.pto, m.vol) < bounds.upper;
    }

    lemma Rest(d: Desk) returns (cs: seq<nat>)
      requires Indexed() && Matches(d) && WellFormed(d) && mover.None? && Settled(bounds, d)
      ensures Working(d, cs)
    {
      cs := seq(|chain.nodes|, k requires 0 <= k < |chain.nodes| reads chain, chain.nodes => chain.nodes[k].cursor);
      forall k | 0 <= k < |cs| ensures chain.nodes[k].cursor == cs[k] <= |chain.nodes[k].vols| {
        assert chain.nodes[k] in wraps;
      }
      SettledWorking(d, cs);
    }

    /** Only the volume to be thrown away may be movable of those considered. */
    lemma DiscardSettled(v: Volume, d: Desk, cs: seq<nat>)
      requires Working(d, cs) && v.phome in all && v in d.vols[v.phome]
      requires mover.Some? ==> mover.value.pfrom == v.phome && mover.value.vol == v
      ensures Known(d) && v.phome in d.all
      ensures forall i :: 0 <= i < |d.vols[v.phome]| && d.vols[v.phome][i] == v ==> SettledBut(bounds, d, v.phome, i)
    {
      WorkingSettled(d, cs);
      hide Movable, Hot;
    }

    /** Makes the agent throw away a volume: the one it wants to move, or any when it wants none. */
    method Discard(v: Volume, ghost d: Desk, ghost cs: seq<nat>)
      returns (ghost i: nat, ghost d': Desk, ghost cs': seq<nat>)
      requires Working(d, cs) && v.phome in all && v in d.vols[v.phome]
      requires mover.Some? ==> mover.value.pfrom == v.phome && mover.value.vol == v
      modifies this`mover, wraps`vols, wraps`cursor
      ensures Working(d', cs') && mover.None?
      ensures i < |d.vols[v.phome]| && d.vols[v.phome][i] == v && d' == AfterDiscard(d, v.phome, i)
    {
      hide *;
      WorkingParts(d, cs);
      DiscardSettled(v, d, cs);
      i := DiscardV(v, d);
      d' := AfterDiscard(d, v.phome, i);
      DiscardSettles(bounds, d, v.phome, i);
      cs' := Rest(d');
    }
  }

  ghost predicate Priced(free: map<Partition, int>)
    reads free.Keys`free
  {
    forall p :: p in free ==> p.free == free[p]
  }

  lemma OrderIsSorted(free: map<Partition, int>, ns: seq<PartNode>)
    requires InOrder(free, ns) && Priced(free)
    ensures Sorted(ns)
  {
    forall i, j | 0 <= i < j < |ns| ensures Occ(ns[i].part) >= Occ(ns[j].part) {
      assert InOrderAt(free, ns[i].part, ns[j].part);
    }
  }

  lemma SortedIsOrder(free: map<Partition, int>, ns: seq<PartNode>)
    requires Sorted(ns) && Priced(free) && forall n :: n in ns ==> n.part in free
    ensures InOrder(free, ns)
  {
  }

  lemma NotYet(parts: seq<Partition>, k: nat)
    requires k < |parts| && Distinct(parts)
    ensures parts[k] !in parts[..k] && parts[..k + 1] == parts[..k] + [parts[k]]
  {
  }

  lemma SpaceGrows(free: map<Partition, int>, parts: seq<Partition>, k: nat)
    requires k < |parts| && forall p :: p in parts ==> p in free
    ensures Used(free, parts[..k + 1]) == Used(free, parts[..k]) + (parts[k].size - free[parts[k]])
    ensures Space(parts[..k + 1]) == Space(parts[..k]) + parts[k].size
  {
    assert parts[..k + 1][..k] == parts[..k];
  }

  /** The volumes from `i` to `j` on a partition cannot be moved. */
  ghost predicate NoneMovable(b: Bounds, d: Desk, p: Partition, vs: seq<Volume>, i: nat, j: int) {
    Known(d) && p in d.all && j <= |vs| && forall k :: i <= k < j ==> !Movable(b, d, p, vs[k])
  }

  /** Nothing is left on the partition, and none of the volumes from `i` on can be moved. */
  ghost predicate Passed(b: Bounds, d: Desk, p: Partition, vs: seq<Volume>, i: nat, j: nat) {
    i <= j && NoneMovable(b, d, p, vs, i, j) && (Hot(b, d, p) ==> j == |vs|)
  }

  ghost predicate IndexOk(ht: map<Partition, PartNode>, all: seq<Partition>, wraps: set<PartNode>) {
    && Distinct(all) && (forall p :: p in ht ==> p in all) && (forall p :: p in all ==> p in ht)
    && (forall p :: p in ht ==> ht[p].part == p && ht[p] in wraps)
    && (forall n :: n in wraps ==> n.part in ht && ht[n.part] == n)
  }

  /** The chain is in descending order of occupancy, but for two partitions. */
  ghost predicate InOrderBut(free: map<Partition, int>, ns: seq<PartNode>, p: Partition, q: Partition) {
    && (forall n :: n in ns ==> n.part in free)
    && forall i, j :: 0 <= i < j < |ns| && ns[i].part !in {p, q} && ns[j].part !in {p, q} ==>
      InOrderAt(free, ns[i].part, ns[j].part)
  }

  ghost predicate InOrder(free: map<Partition, int>, ns: seq<PartNode>) {
    && (forall n :: n in ns ==> n.part in free)
    && forall i, j :: 0 <= i < j < |ns| ==> InOrderAt(free, ns[i].part, ns[j].part)
  }

  ghost predicate InOrderAt(free: map<Partition, int>, p: Partition, q: Partition)
    requires p in free && q in free
  {
    OccOf(free[p], p.size) >= OccOf(free[q], q.size)
  }

  /** A wrapper's list holds the volumes of its partition, largest first, none considered. */
  ghost predicate Listed(vols: seq<Volume>, own: seq<Volume>, cursor: nat) {
    Descending(own) && Distinct(own) && multiset(own) == multiset(vols) && cursor == 0
  }

  lemma InsertMultiset(vs: seq<Volume>, k: nat, v: Volume)
    requires k <= |vs|
    ensures multiset(InsertAt(vs, k, v)) == multiset(vs) + multiset{v}
  {
    assert vs == vs[..k] + vs[k..];
  }

  lemma IndexAdd(ht: map<Partition, PartNode>, all: seq<Partition>, wraps: set<PartNode>, up: PartNode)
    requires IndexOk(ht, all, wraps) && up !in wraps && up.part !in all
    ensures IndexOk(ht[up.part := up], all + [up.part], wraps + {up})
  {
  }

  ghost predicate Members(ns: seq<PartNode>, wraps: set<PartNode>) {
    (forall n :: n in ns ==> n in wraps) && (forall n :: n in wraps ==> n in ns)
  }

  /** Used and total space of partitions. */
  ghost function Used(free: map<Partition, int>, ps: seq<Partition>): int
    requires forall p :: p in ps ==> p in free
  {
    if ps == [] then 0 else Used(free, ps[..|ps| - 1]) + (ps[|ps| - 1].size - free[ps[|ps| - 1]])
  }

  ghost function Space(ps: seq<Partition>): nat {
    if ps == [] then 0 else Space(ps[..|ps| - 1]) + ps[|ps| - 1].size
  }

  function Average(used: int, space: nat): real {
    if space == 0 then 0.0 else used as real / space as real
  }

  lemma {:induction false} NoSpaceUsed(free: map<Partition, int>, ps: seq<Partition>)
    requires forall p :: p in ps ==> p in free
    ensures Space(ps) == 0 ==> Used(free, ps) == 0
  {
    if ps != [] {
      assert Space(ps) >= ps[|ps| - 1].size;
    }
  }

  lemma AverageIs(used: int, space: nat)
    requires space == 0 ==> used == 0
    ensures Average(used, space) * space as real == used as real
  {
  }

  /** The window set around the average is the one that the source defines for the space of the partitions. */
  lemma WindowMeets(free: map<Partition, int>, ps: seq<Partition>, precision: real)
    requires forall p :: p in ps ==> p in free
    ensures Around(Window(Average(Used(free, ps), Space(ps)), precision), Used(free, ps), Space(ps), precision)
  {
    NoSpaceUsed(free, ps);
    AverageIs(Used(free, ps), Space(ps));
    WindowAround(Average(Used(free, ps), Space(ps)), Used(free, ps), Space(ps), precision);
    hide Around, Used, Space, Window;
  }

  lemma InsertListed(own: seq<Volume>, vols: seq<Volume>, k: nat)
    requires k < |vols| && Distinct(vols) && Descending(own) && Distinct(own) && multiset(own) == multiset(vols[..k])
    ensures var own' := InsertAt(own, VolSlot(own, vols[k].size), vols[k]);
      Descending(own') && Distinct(own') && multiset(own') == multiset(vols[..k + 1])
  {
    var v := vols[k];
    assert v !in vols[..k];
    assert v !in multiset(own);
    InsertDescending(own, v);
    InsertMultiset(own, VolSlot(own, v.size), v);
    assert vols[..k + 1] == vols[..k] + [v];
  }

  lemma SameNoneMovable(b: Bounds, d: Desk, d': Desk, p: Partition, vs: seq<Volume>, i: nat, j: int)
    requires NoneMovable(b, d, p, vs, i, j) && Known(d') && d.all == d'.all && d.free == d'.free
    ensures NoneMovable(b, d', p, vs, i, j)
  {
    forall k | i <= k < j ensures !Movable(b, d', p, vs[k]) {
      assert Movable(b, d', p, vs[k]) ==> Movable(b, d, p, vs[k]);
    }
  }
}
