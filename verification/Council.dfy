/** The balance loop with all agents at the table: whoever's turn it is proposes moves, all vote on them,
    and an accepted move is entered in the books and announced to all.  The size agent and the number agent
    vote as they do, and the size agent hears of moves and discards as it does; what is proposed is arbitrary,
    as long as it is addressed properly and these two propose only what leaves room.  That takes in what the
    size agent's own search answers (`Table.AskSize`). */
module Council {
  import opened Options
  import opened Transactions
  import opened Cell
  import opened Occupancy
  import opened Chain
  import opened Balancing
  import opened Bysize
  import opened Ledger
  import opened Planner
  import opened Votes
  import Outcome
  import Schedule

  /** The agents behind the size agent, which comes first. */
  datatype Seat = NumberSeat | OtherSeat

  /** All volumes of the partitions, moveable or not. */
  ghost function Numbered(b: Books, ps: seq<Partition>): int
    requires forall p :: p in ps ==> p in b.part
  {
    if ps == [] then 0 else Numbered(b, ps[..|ps| - 1]) + b.part[ps[|ps| - 1]].nvols
  }

  lemma NumberedGrows(b: Books, ps: seq<Partition>, k: nat)
    requires k < |ps| && forall p :: p in ps ==> p in b.part
    ensures Numbered(b, ps[..k + 1]) == Numbered(b, ps[..k]) + b.part[ps[k]].nvols
    ensures Space(ps[..k + 1]) == Space(ps[..k]) + ps[k].size
  {
    assert ps[..k + 1][..k] == ps[..k];
  }

  /** The number agent's bounds: above the average number of volumes per space, by the whole precision and
      by half of it. */
  ghost function Crowding(b: Books, ps: seq<Partition>, precision: real): (real, real)
    requires forall p :: p in ps ==> p in b.part
  {
    Bracketed(Average(Numbered(b, ps), Space(ps)), precision)
  }

  function Bracketed(avg: real, precision: real): (real, real) {
    (avg * (1.0 + precision), avg * (1.0 + precision / 2.0))
  }

  /** The bounds as the cell gives them: the average is the number of volumes to the space, the upper bound is
      above it by the precision, and the bound for moving halfway there. */
  ghost predicate Above(bounds: (real, real), volumes: int, space: nat, precision: real) {
    && bounds.0 * space as real == volumes as real * (1.0 + precision)
    && 2.0 * (bounds.1 * space as real) == volumes as real + bounds.0 * space as real
    && (space == 0 ==> bounds == (0.0, 0.0))
  }

  lemma BracketedAbove(avg: real, volumes: int, space: nat, precision: real)
    requires avg * space as real == volumes as real && (space == 0 ==> avg == 0.0)
    ensures Above(Bracketed(avg, precision), volumes, space, precision)
  {
    var s := space as real;
    assert (avg * (1.0 + precision)) * s == (avg * s) * (1.0 + precision);
    assert 2.0 * ((avg * (1.0 + precision / 2.0)) * s) == avg * s + (avg * (1.0 + precision)) * s;
  }

  lemma {:induction false} NoSpaceNumbered(ps: seq<Partition>)
    ensures Space(ps) == 0 ==> ps == []
  {
  }

  lemma CrowdingFits(b: Books, ps: seq<Partition>, precision: real)
    requires forall p :: p in ps ==> p in b.part
    ensures Above(Crowding(b, ps, precision), Numbered(b, ps), Space(ps), precision)
  {
    NoSpaceNumbered(ps);
    AverageIs(Numbered(b, ps), Space(ps));
    BracketedAbove(Average(Numbered(b, ps), Space(ps)), Numbered(b, ps), Space(ps), precision);
    hide Above, Bracketed;
  }

  /** The vote of the agent that balances numbers of volumes, with bounds that do not change. */
  class NumberAgent {
    const upper: real
    const move: real
    var mover: Option<Job>

    constructor (avg: real, precision: real)
      ensures (upper, move) == Bracketed(avg, precision) && mover.None?
    {
      upper, move, mover := avg * (1.0 + precision), avg * (1.0 + precision / 2.0), None;
    }

    /** Learns the cell: the average is over all partitions together. */
    static method Servconf(parts: seq<Partition>, ghost b: Books) returns (avg: real)
      requires Enters(b) && forall p :: p in parts ==> p in b.part
      ensures avg == Average(Numbered(b, parts), Space(parts))
    {
      var totVols, totSize, k := 0, 0, 0;
      while k < |parts|
        invariant k <= |parts| && totVols == Numbered(b, parts[..k]) && totSize == Space(parts[..k])
      {
        NumberedGrows(b, parts, k);
        totVols, totSize, k := totVols + parts[k].nvols, totSize + parts[k].size, k + 1;
      }
      assert parts[..k] == parts;
      avg := Average(totVols, totSize);
    }

    /** It likes its own request, and any that leaves the destination below the upper bound. */
    method QueryRequest(m: Job) returns (ok: bool)
      ensures ok <==> mover == Some(m) || PerSize(m.pto.nvols + 1, m.pto.size) < upper
    {
      if mover == Some(m) {
        return true;
      }
      ok := PerSize(m.pto.nvols + 1, m.pto.size) < upper;
    }

    method SetRequest(m: Job)
      modifies this`mover
      ensures mover == if old(mover) == Some(m) then None else old(mover)
    {
      mover := if mover == Some(m) then None else mover;
    }

    method DiscardV()
      modifies this`mover
      ensures mover.None?
    {
      mover := None;
    }
  }

  /** The request names the volume, where it is, and a partition of the cell.  It may be a null
      transaction. */
  predicate Addressed(m: Job, parts: seq<Partition>)
    reads m.vol`phome, m.pfrom`vols
  {
    && m.pfrom == m.vol.phome && m.vol in m.pfrom.vols && m.pfrom in parts && m.pto in parts
    && m.sfrom == m.pfrom.who && m.sto == m.pto.who && m.bkexist == m.vol.bkexist
  }

  /** From a partition to itself. */
  predicate Idles(m: Job) {
    m.sfrom == m.sto && m.pfrom == m.pto
  }

  lemma AddressedLegal(b: Books, m: Job, parts: seq<Partition>)
    requires Ok(b) && Enters(b) && Addressed(m, parts) && forall p :: p in parts ==> p in b.part
    ensures m.vol in b.home && m.pfrom in b.part && m.pto in b.part && (m.pfrom != m.pto ==> Legal(b, m))
  {
    assert b.part[m.pfrom].vols == m.pfrom.vols;
  }

  // ----- what the council keeps, on values

  /** The bounds of the number agent, and whether it is there. */
  datatype Rule = Rule(seated: bool, upper: real, move: real)

  /** For the books `b0` it began with, the books and the size agent's desk now: the list is legal and
      leads to these books, every move was approved by the agents, and the agent lists volumes only where
      they are. */
  ghost predicate Minutes(bounds: Bounds, rule: Rule, b0: Books, b: Books, d: Desk, moves: seq<Job>) {
    && LegalRun(b0, moves) && b == Replay(b0, moves) && Ok(b) && Tied(b, d) && WellFormed(d)
    && (forall m :: m in moves ==> m.vol in b.home)
    && SizeApproved(bounds, b0, moves) && (rule.seated ==> NumberApproved(rule.upper, rule.move, b0, moves))
  }

  ghost predicate Approves(bounds: Bounds, rule: Rule, b: Books, m: Job)
    requires Legal(b, m)
  {
    SizeApproves(bounds, b, m) && (rule.seated ==> NumberApproves(rule.upper, rule.move, b, m))
  }

  /** The size agent's desk when it has been told of the move of its `i`th volume, or of one it does not
      list. */
  ghost function DeskAfter(bounds: Bounds, d: Desk, m: Job, i: nat): Desk
    requires Known(d) && m.pfrom in d.all && m.pto in d.all && m.pfrom != m.pto
    requires m.vol in d.vols[m.pfrom] ==> i < |d.vols[m.pfrom]|
  {
    var d1 := MoveSpace(d, m.pfrom, m.vol, m.pto);
    if m.vol in d.vols[m.pfrom] then MoveLists(bounds, d1, m.pfrom, i, m.pto)
    else JoinLists(bounds, d1, m.pfrom, m.vol, m.pto)
  }

  lemma Joined(bounds: Bounds, d: Desk, m: Job)
    requires WellFormed(d) && m.pfrom in d.all && m.pto in d.all && m.pfrom != m.pto && m.vol !in d.vols[m.pfrom]
    ensures var d' := DeskAfter(bounds, d, m, 0);
      && d'.all == d.all && Known(d') && d'.free == MoveSpace(d, m.pfrom, m.vol, m.pto).free
      && forall p, v :: p in d.all && v in d'.vols[p] ==> v in d.vols[p] || (p == m.pto && v == m.vol)
  {
    InsertMembers(d.vols[m.pto], VolSlot(d.vols[m.pto], m.vol.size), m.vol);
  }

  lemma AppliedLists(b: Books, m: Job)
    requires Legal(b, m) && Ok(b)
    ensures var b' := Apply(b, m);
      && b'.part.Keys == b.part.Keys
      && (forall p :: p in b.part && p != m.pfrom && p != m.pto ==> b'.part[p].free == b.part[p].free)
      && b'.part[m.pfrom].free == b.part[m.pfrom].free + m.vol.size
      && b'.part[m.pto].free == b.part[m.pto].free - m.vol.size
      && m.vol in b'.part[m.pto].vols
      && forall p, v :: p in b.part && v in b.part[p].vols && v != m.vol ==> v in b'.part[p].vols
  {
    UnthreadOnce(b.part[m.pfrom].vols, m.vol);
    assert Apply(b, m).part[m.pto].vols == [m.vol] + b.part[m.pto].vols;
  }

  lemma NotListed(b: Books, d: Desk, m: Job)
    requires Legal(b, m) && Ok(b) && Tied(b, d) && m.pfrom in d.all && m.vol !in d.vols[m.pfrom]
    ensures forall p :: p in d.all ==> m.vol !in d.vols[p]
  {
  }

  lemma JoinTied(bounds: Bounds, b: Books, d: Desk, m: Job)
    requires Legal(b, m) && Ok(b) && Tied(b, d) && WellFormed(d)
    requires m.pfrom in d.all && m.pto in d.all && m.vol !in d.vols[m.pfrom]
    ensures Tied(Apply(b, m), DeskAfter(bounds, d, m, 0))
  {
    hide DeskAfter, Apply, Ok;
    Joined(bounds, d, m);
    AppliedLists(b, m);
    NotListed(b, d, m);
    var b', d' := Apply(b, m), DeskAfter(bounds, d, m, 0);
    forall p, v | p in d'.all && v in d'.vols[p] ensures v in b'.part[p].vols {
      if p != m.pto || v != m.vol {
        assert v in d.vols[p] && v != m.vol;
      }
    }
  }

  lemma DeskTied(bounds: Bounds, b: Books, d: Desk, m: Job, i: nat)
    requires Legal(b, m) && Ok(b) && Tied(b, d) && WellFormed(d) && m.pfrom in d.all && m.pto in d.all
    requires m.vol in d.vols[m.pfrom] ==> i < |d.vols[m.pfrom]| && d.vols[m.pfrom][i] == m.vol
    ensures Tied(Apply(b, m), DeskAfter(bounds, d, m, i)) && WellFormed(DeskAfter(bounds, d, m, i))
  {
    assert m.vol !in d.vols[m.pto];
    if m.vol in d.vols[m.pfrom] {
      assert DeskAfter(bounds, d, m, i) == AfterMove(bounds, d, m.pfrom, i, m.pto);
      MoveTied(bounds, b, d, m, i);
      MoveWellFormed(bounds, d, m.pfrom, i, m.pto);
    } else {
      assert DeskAfter(bounds, d, m, i) == DeskAfter(bounds, d, m, 0);
      JoinTied(bounds, b, d, m);
      JoinWellFormed(bounds, MoveSpace(d, m.pfrom, m.vol, m.pto), m.pfrom, m.vol, m.pto);
    }
  }

  lemma ApprovedAppend(bounds: Bounds, rule: Rule, b0: Books, moves: seq<Job>, m: Job)
    requires LegalRun(b0, moves) && Legal(Replay(b0, moves), m) && LegalRun(b0, moves + [m])
    requires SizeApproved(bounds, b0, moves) && (rule.seated ==> NumberApproved(rule.upper, rule.move, b0, moves))
    requires Approves(bounds, rule, Replay(b0, moves), m)
    ensures SizeApproved(bounds, b0, moves + [m])
    ensures rule.seated ==> NumberApproved(rule.upper, rule.move, b0, moves + [m])
  {
    assert (moves + [m])[..|moves|] == moves;
  }

  lemma SameVolumes(b: Books, m: Job)
    requires Legal(b, m)
    ensures m.vol in b.home && Apply(b, m).home.Keys == b.home.Keys && m.pfrom != m.pto
  {
  }

  /** An approved move keeps the minutes, whoever proposed it. */
  lemma MoveMinuted(bounds: Bounds, rule: Rule, b0: Books, b: Books, d: Desk, moves: seq<Job>, m: Job, i: nat)
    requires Minutes(bounds, rule, b0, b, d, moves) && Legal(b, m) && Approves(bounds, rule, b, m)
    requires m.pfrom in d.all && m.pto in d.all
    requires m.vol in d.vols[m.pfrom] ==> i < |d.vols[m.pfrom]| && d.vols[m.pfrom][i] == m.vol
    ensures Minutes(bounds, rule, b0, Apply(b, m), DeskAfter(bounds, d, m, i), moves + [m])
  {
    hide Tied, WellFormed, Ok, DeskAfter, Apply, Legal, Approves;
    ReplayAppend(b0, moves, m);
    SameVolumes(b, m);
    ApplyKeepsOk(b, m);
    DeskTied(bounds, b, d, m, i);
    ApprovedAppend(bounds, rule, b0, moves, m);
  }

  /** So does a discard. */
  lemma DiscardMinuted(bounds: Bounds, rule: Rule, b0: Books, b: Books, d: Desk, moves: seq<Job>, p: Partition, i: nat)
    requires Minutes(bounds, rule, b0, b, d, moves) && p in d.all && i < |d.vols[p]|
    ensures Minutes(bounds, rule, b0, b, AfterDiscard(d, p, i), moves)
  {
    DiscardWellFormed(d, p, i);
    DiscardTied(b, d, p, i);
  }

  lemma MinutedSame(bounds: Bounds, rule: Rule, b0: Books, b: Books, d: Desk, d': Desk, moves: seq<Job>)
    requires Minutes(bounds, rule, b0, b, d, moves) && d' == d.(cursor := d'.cursor) && WellFormed(d')
    ensures Minutes(bounds, rule, b0, b, d', moves)
  {
    hide LegalRun, Replay, Ok, SizeApproved, NumberApproved, Once;
  }

  /** A volume's count is its number of moves in the list, and within the limit. */
  ghost predicate CountedIn(moves: seq<Job>, nvoltrans: int, b: Books)
    reads b.home.Keys`ntimes
  {
    forall v :: v in b.home ==> v.ntimes == Times(moves, v) && (nvoltrans >= 0 ==> v.ntimes <= nvoltrans)
  }

  /** The votes on a request, when the agents' own requests leave room below their bounds for moving. */
  ghost predicate Passes(bounds: Bounds, rule: Rule, m: Job)
    reads m.pto`free, m.pto`nvols
  {
    && (OccWith(m.pto, m.vol) < bounds.upper || OccWith(m.pto, m.vol) < bounds.move)
    && (rule.seated ==>
         PerSize(m.pto.nvols + 1, m.pto.size) < rule.upper || PerSize(m.pto.nvols + 1, m.pto.size) < rule.move)
  }

  lemma PassesApproves(bounds: Bounds, rule: Rule, b: Books, m: Job)
    requires Enters(b) && Legal(b, m) && Passes(bounds, rule, m)
    ensures Approves(bounds, rule, b, m)
  {
    assert b.part[m.pto] == Account(m.pto.free, m.pto.nvols, m.pto.vols);
  }

  class Table {
    const size: Agent
    const number: NumberAgent
    const rest: seq<Seat>
    const parts: seq<Partition>
    const nvoltrans: int
    var ntransactions: int
    var moves: seq<Job>

    constructor (size: Agent, number: NumberAgent, rest: seq<Seat>, parts: seq<Partition>, nvoltrans: int,
                 ntransactions: int)
      ensures this.size == size && this.number == number && this.rest == rest && this.parts == parts
      ensures this.nvoltrans == nvoltrans && this.ntransactions == ntransactions && moves == []
    {
      this.size, this.number, this.rest, this.parts := size, number, rest, parts;
      this.nvoltrans, this.ntransactions, moves := nvoltrans, ntransactions, [];
    }

    ghost function TheRule(): Rule {
      Rule(NumberSeat in rest, number.upper, number.move)
    }

    /** The books, the counts and the size agent agree with the list of moves; its chain is linked, indexed
        and in order of occupancy. */
    ghost predicate Sitting(b0: Books, b: Books, d: Desk)
      reads this`moves, size`bounds, size`partHt, size`all, size`wraps
      reads size.chain`head, size.chain`tail, size.chain`nodes, size.chain.nodes`next, size.chain.nodes`prev
      reads size.wraps`vols, size.wraps`cursor, size.partHt.Keys`free
      reads b.part.Keys`free, b.part.Keys`nvols, b.part.Keys`vols, b.home.Keys`phome, b.home.Keys`ntimes
    {
      && Minutes(size.bounds, TheRule(), b0, b, d, moves) && Enters(b) && CountedIn(moves, nvoltrans, b)
      && size.Indexed() && size.Matches(d) && InOrder(d.free, size.chain.nodes)
      && size.all == parts && forall p :: p in parts ==> p in b.part
    }

    ghost predicate Idle()
      reads size`mover, number`mover
    {
      size.mover.None? && number.mover.None?
    }

    /** No agent cares about another request than `m`, and whoever proposed it has room for it. */
    ghost predicate Only(m: Job)
      reads size`mover, size`bounds, number`mover, m.pto`free, m.pto`nvols
    {
      && (size.mover.Some? ==> size.mover == Some(m) && OccWith(m.pto, m.vol) < size.bounds.move)
      && (number.mover.Some? ==> number.mover == Some(m) && PerSize(m.pto.nvols + 1, m.pto.size) < number.move)
    }

    ghost predicate SizeLikes(m: Job)
      reads size`mover, size`bounds, m.pto`free
    {
      size.mover == Some(m) || OccWith(m.pto, m.vol) < size.bounds.upper
    }

    ghost predicate NumberLikes(m: Job)
      reads number`mover, m.pto`nvols
    {
      number.mover == Some(m) || PerSize(m.pto.nvols + 1, m.pto.size) < number.upper
    }

    /** All vote, until one is against. */
    method Vote(m: Job) returns (doit: bool)
      requires Only(m)
      ensures doit ==> Passes(size.bounds, TheRule(), m)
      ensures OtherSeat !in rest ==> (doit <==> SizeLikes(m) && (NumberSeat in rest ==> NumberLikes(m)))
    {
      doit := size.QueryRequest(m);
      var k := 0;
      while doit && k < |rest|
        invariant k <= |rest|
        invariant doit ==> SizeLikes(m) && (NumberSeat in rest[..k] ==> NumberLikes(m))
        invariant !doit && OtherSeat !in rest ==> !SizeLikes(m) || (NumberSeat in rest && !NumberLikes(m))
        decreases |rest| - k
      {
        match rest[k] {
          case NumberSeat => doit := number.QueryRequest(m);
          case OtherSeat => doit := *;
        }
        k := k + 1;
      }
      assert k == |rest| ==> rest[..k] == rest;
    }

    method GiveUp(turn: nat)
      requires turn <= |rest|
      modifies size`mover, number`mover
      ensures turn == 0 ==> size.mover.None?
      ensures turn != 0 ==> size.mover == old(size.mover)
      ensures turn > 0 && rest[turn - 1] == NumberSeat ==> number.mover.None?
      ensures turn == 0 || rest[turn - 1] != NumberSeat ==> number.mover == old(number.mover)
    {
      if turn == 0 {
        size.mover := None;
      } else if rest[turn - 1] == NumberSeat {
        number.mover := None;
      }
    }

    /** The agent whose turn it is makes some request, or gives up.  The size agent and the number agent ask
        only for what leaves the destination below their bounds for moving. */
    method Propose(turn: nat) returns (mover: Option<Job>)
      requires turn <= |rest| && (turn != 0 ==> size.mover.None?)
      requires turn == 0 || rest[turn - 1] != NumberSeat ==> number.mover.None?
      modifies size`mover, number`mover
      ensures mover.None? ==> Idle()
      ensures mover.Some? ==> Addressed(mover.value, parts) && Only(mover.value)
      ensures turn != 0 ==> size.mover.None?
      ensures turn == 0 || rest[turn - 1] != NumberSeat ==> number.mover.None?
    {
      GiveUp(turn);
      mover := *;
      if !mover.Some? || !Addressed(mover.value, parts) {
        return None;
      }
      var m := mover.value;
      if turn == 0 {
        if OccWith(m.pto, m.vol) >= size.bounds.move {
          return None;
        }
        size.mover := Some(m);
      } else if rest[turn - 1] == NumberSeat {
        if PerSize(m.pto.nvols + 1, m.pto.size) >= number.move {
          return None;
        }
        number.mover := Some(m);
      }
    }

    lemma Unpack(b0: Books, b: Books, d: Desk)
      requires Sitting(b0, b, d)
      ensures Minutes(size.bounds, TheRule(), b0, b, d, moves) && Ok(b) && Enters(b) && CountedIn(moves, nvoltrans, b)
      ensures WellFormed(d) && Known(d) && SameSpace(b, d) && d.all == size.all == parts
      ensures forall p :: p in parts ==> p in b.part
      ensures size.Indexed() && size.Matches(d) && size.Holds(d) && InOrder(d.free, size.chain.nodes)
    {
    }

    lemma Pack(b0: Books, b: Books, d: Desk)
      requires Minutes(size.bounds, TheRule(), b0, b, d, moves) && Enters(b) && CountedIn(moves, nvoltrans, b)
      requires size.Indexed() && size.Matches(d) && InOrder(d.free, size.chain.nodes)
      requires size.all == parts && forall p :: p in parts ==> p in b.part
      ensures Sitting(b0, b, d)
    {
    }

    // ----- the size agent's own requests

    lemma SittingAtHome(b0: Books, b: Books, d: Desk)
      requires Sitting(b0, b, d)
      ensures size.AtHome() && Tied(b, d)
    {
      forall n, v | n in size.chain.nodes && v in n.vols ensures v.phome == n.part {
        assert n in size.wraps && v in d.vols[n.part];
        assert b.home[v] == n.part;
      }
    }

    lemma SittingCursors(b0: Books, b: Books, d: Desk) returns (cs: seq<nat>)
      requires Sitting(b0, b, d)
      ensures size.CursorsAre(cs)
    {
      cs := seq(|size.chain.nodes|, k requires 0 <= k < |size.chain.nodes| reads size.chain, size.chain.nodes =>
        size.chain.nodes[k].cursor);
      forall k | 0 <= k < |cs| ensures size.chain.nodes[k].cursor == cs[k] <= |size.chain.nodes[k].vols| {
        assert size.chain.nodes[k] in size.wraps;
      }
    }

    /** What the size agent asks for is among the requests considered here. */
    lemma RealRequestsProposed(b0: Books, b: Books, d: Desk, m: Job)
      requires Sitting(b0, b, d) && size.Open(d) && size.mover == Some(m)
      ensures Addressed(m, parts) && OccWith(m.pto, m.vol) < size.bounds.move
    {
      hide *;
      Unpack(b0, b, d);
      SittingAtHome(b0, b, d);
      size.OpenIs(d, m);
      OpenAddressed(b0, b, d, m);
    }

    lemma OpenAddressed(b0: Books, b: Books, d: Desk, m: Job)
      requires Tied(b, d) && Ok(b) && Enters(b) && size.Indexed() && size.Matches(d) && d.all == size.all == parts
      requires m.pfrom in d.all && m.pto in d.all && m.vol in d.vols[m.pfrom]
      requires m.sfrom == m.pfrom.who && m.sto == m.pto.who && m.bkexist == m.vol.bkexist
      requires Room(size.bounds, d, m.pto, m.vol)
      ensures Addressed(m, parts) && OccWith(m.pto, m.vol) < size.bounds.move
    {
      assert m.vol in b.part[m.pfrom].vols && b.home[m.vol] == m.pfrom;
      assert m.pto in size.partHt;
    }

    lemma Asked(b0: Books, b: Books, d: Desk, r0: Option<Job>, j: nat, cs: seq<nat>, cs': seq<nat>) returns (d': Desk)
      requires Minutes(size.bounds, TheRule(), b0, b, d, moves) && Enters(b) && CountedIn(moves, nvoltrans, b)
      requires size.Indexed() && size.Holds(d) && WellFormed(d) && InOrder(d.free, size.chain.nodes)
      requires size.all == parts && forall p :: p in parts ==> p in b.part
      requires size.Answered(r0, j, cs, cs', d, false)
      ensures d' == d.(cursor := d'.cursor) && Sitting(b0, b, d') && size.Open(d')
    {
      hide *;
      size.AnsweredOpen(r0, j, cs, cs', d);
      d' := size.Advance(d, cs');
      size.OpenSame(d, d');
      MinutedSame(size.bounds, TheRule(), b0, b, d, d', moves);
      Pack(b0, b, d');
    }

    lemma OnlyIs(m: Job)
      requires size.mover == Some(m) && OccWith(m.pto, m.vol) < size.bounds.move && number.mover.None?
      ensures Only(m)
    {
    }

    /** The size agent's own search, in any state the council reaches, also after moves of the others: whatever
        it answers is a request that may be proposed, and the council goes on as before. */
    method AskSize(ghost b0: Books, ghost b: Books, ghost d: Desk) returns (r: Option<Job>, ghost d': Desk)
      requires Sitting(b0, b, d) && size.Open(d) && number.mover.None?
      modifies size.wraps`cursor, size`mover, size`destp, size`destIdx
      ensures Sitting(b0, b, d') && size.Open(d') && d' == d.(cursor := d'.cursor)
      ensures r == size.mover && (r.Some? ==> Addressed(r.value, parts) && Only(r.value))
    {
      hide *;
      Unpack(b0, b, d);
      SittingAtHome(b0, b, d);
      size.SeesDesk(d);
      size.NodesWrapped();
      ghost var r0, j := size.mover, size.destIdx;
      ghost var cs := SittingCursors(b0, b, d);
      ghost var cs';
      r, cs' := size.GetRequest(d, cs, false);
      d' := Asked(b0, b, d, r0, j, cs, cs');
      if r.Some? {
        RealRequestsProposed(b0, b, d', r.value);
        OnlyIs(r.value);
      }
    }

    /** All throw a volume away. */
    method DiscardAll(v: Volume, ghost b0: Books, ghost b: Books, ghost d: Desk) returns (ghost d': Desk)
      requires Sitting(b0, b, d) && v.phome in parts
      modifies size`mover, number`mover, size.wraps`vols, size.wraps`cursor
      ensures Sitting(b0, b, d') && size.mover.None? && number.mover.None?
    {
      hide *;
      UnpackDiscard(b0, b, d);
      ghost var i := DropAll(v, b, d);
      d' := Thrown(b0, b, d, v, i);
    }

    method DropAll(v: Volume, ghost b: Books, ghost d: Desk) returns (ghost i: nat)
      requires size.Indexed() && size.Matches(d) && v.phome in size.all && v.phome in d.vols && Known(d)
      requires d.all == size.all
      requires InOrder(d.free, size.chain.nodes) && Enters(b) && CountedIn(moves, nvoltrans, b)
      modifies size`mover, number`mover, size.wraps`vols, size.wraps`cursor
      ensures size.Indexed() && InOrder(d.free, size.chain.nodes) && Enters(b) && CountedIn(moves, nvoltrans, b)
      ensures size.mover.None? && number.mover.None?
      ensures v !in d.vols[v.phome] ==> size.Matches(d)
      ensures v in d.vols[v.phome] ==>
        i < |d.vols[v.phome]| && d.vols[v.phome][i] == v && size.Matches(AfterDiscard(d, v.phome, i))
    {
      hide *;
      i := size.DiscardV(v, d);
      number.DiscardV();
    }

    lemma UnpackDiscard(b0: Books, b: Books, d: Desk)
      requires Sitting(b0, b, d)
      ensures Minutes(size.bounds, TheRule(), b0, b, d, moves) && Enters(b) && CountedIn(moves, nvoltrans, b)
      ensures size.all == parts && forall p :: p in parts ==> p in b.part
      ensures Known(d) && d.all == parts && forall p :: p in parts ==> p in d.vols
      ensures size.Indexed() && size.Matches(d) && InOrder(d.free, size.chain.nodes)
    {
    }

    lemma Thrown(b0: Books, b: Books, d: Desk, v: Volume, i: nat) returns (d': Desk)
      requires Minutes(size.bounds, TheRule(), b0, b, d, moves) && Enters(b) && CountedIn(moves, nvoltrans, b)
      requires size.all == parts && v.phome in parts && forall p :: p in parts ==> p in b.part
      requires size.Indexed() && Known(d) && d.all == parts && v.phome in d.vols && InOrder(d.free, size.chain.nodes)
      requires v !in d.vols[v.phome] ==> size.Matches(d)
      requires v in d.vols[v.phome] ==>
        i < |d.vols[v.phome]| && d.vols[v.phome][i] == v && size.Matches(AfterDiscard(d, v.phome, i))
      ensures Sitting(b0, b, d')
    {
      hide *;
      d' := d;
      if v in d.vols[v.phome] {
        d' := AfterDiscard(d, v.phome, i);
        DiscardMinuted(size.bounds, TheRule(), b0, b, d, moves, v.phome, i);
        DiscardFree(d, v.phome, i);
      }
      Pack(b0, b, d');
    }

    /** Has a request voted on; if it passes but its volume is locked or has been moved often enough, all throw
        that away. */
    method Consider(m: Job, ghost b0: Books, ghost b: Books, ghost d: Desk) returns (doit: bool, ghost d': Desk)
      requires Sitting(b0, b, d) && Addressed(m, parts) && Only(m)
      modifies size`mover, number`mover, size.wraps`vols, size.wraps`cursor
      ensures Sitting(b0, b, d')
      ensures doit ==> d' == d && size.mover == old(size.mover) && number.mover == old(number.mover)
      ensures doit ==> Addressed(m, parts) && Only(m) && Passes(size.bounds, TheRule(), m) && m.vol.ntimes != nvoltrans
      ensures !doit ==> size.mover in {None, old(size.mover)} && number.mover in {None, old(number.mover)}
    {
      hide *;
      d' := d;
      doit := Vote(m);
      if doit {
        var locked: bool := *;
        if m.vol.ntimes == nvoltrans || locked {
          AddressedHome(m, parts);
          d' := DiscardAll(m.vol, b0, b, d);
          doit := false;
        }
      }
    }

    /** Lets an agent make requests until it gives up or one is accepted: the partition lets the volume in,
        all agents agree, and the volume is not locked and has not been moved too often. */
    method Deliberate(turn: nat, ghost b0: Books, ghost b: Books, ghost d: Desk)
      returns (mover: Option<Job>, ghost d': Desk)
      requires turn <= |rest| && Sitting(b0, b, d) && size.mover.None? && number.mover.None?
      modifies size`mover, number`mover, size.wraps`vols, size.wraps`cursor
      ensures Sitting(b0, b, d')
      ensures mover.None? ==> size.mover.None? && number.mover.None?
      ensures mover.Some? ==>
        Addressed(mover.value, parts) && Only(mover.value) && Passes(size.bounds, TheRule(), mover.value)
      ensures mover.Some? ==> mover.value.pto.Welcomes(mover.value.vol) && mover.value.vol.ntimes != nvoltrans
    {
      hide *;
      var patience: nat := *;
      d' := d;
      while patience > 0
        invariant Sitting(b0, b, d')
        invariant turn != 0 ==> size.mover.None?
        invariant turn == 0 || rest[turn - 1] != NumberSeat ==> number.mover.None?
      {
        patience := patience - 1;
        mover := Propose(turn);
        if mover.None? {
          return;
        }
        if mover.value.pto.Welcomes(mover.value.vol) {
          var doit;
          doit, d' := Consider(mover.value, b0, b, d');
          if doit {
            return;
          }
        }
      }
      mover := None;
      GiveUp(turn);
    }

    /** Tells all agents of a move that has been entered in the books. */
    method Announce(m: Job, ghost d1: Desk) returns (ghost i: nat)
      requires size.Indexed() && size.Matches(d1) && m.pfrom in size.all && m.pto in size.all && m.pfrom != m.pto
      requires InOrderBut(d1.free, size.chain.nodes, m.pfrom, m.pto) && Known(d1) && d1.all == size.all
      requires size.mover in {None, Some(m)} && number.mover in {None, Some(m)}
      modifies size`mover, number`mover, size.chain`head, size.chain`tail, size.chain`nodes
      modifies size.wraps`next, size.wraps`prev, size.wraps`vols, size.wraps`cursor
      ensures size.mover.None? && number.mover.None? && size.Indexed() && InOrder(d1.free, size.chain.nodes)
      ensures if m.vol in d1.vols[m.pfrom]
              then i < |d1.vols[m.pfrom]| && d1.vols[m.pfrom][i] == m.vol
                && size.Matches(MoveLists(size.bounds, d1, m.pfrom, i, m.pto))
              else size.Matches(JoinLists(size.bounds, d1, m.pfrom, m.vol, m.pto))
    {
      hide *;
      i := size.SetRequest(m, d1);
      number.SetRequest(m);
    }

    /** The books, the count and the list of an accepted request. */
    method Enter(m: Job, ghost b: Books, ghost b': Books, ghost d: Desk)
      requires Legal(b, m) && b' == Apply(b, m)
      requires Enters(b) && Legal(b, m) && SameSpace(b, d) && size.Matches(d) && m.pfrom in d.all && m.pto in d.all
      requires CountedIn(moves, nvoltrans, b) && m.vol.ntimes != nvoltrans
      modifies m.vol`ntimes, m.vol`phome, m.pfrom`free, m.pfrom`nvols, m.pfrom`vols, m.pto`free, m.pto`nvols, m.pto`vols
      modifies this`moves
      ensures Enters(b') && size.Matches(MoveSpace(d, m.pfrom, m.vol, m.pto))
      ensures moves == old(moves) + [m] && CountedIn(moves, nvoltrans, b')
    {
      hide *;
      CountOne(m, b);
      EnterMove(size, m, b, d);
    }

    method CountOne(m: Job, ghost b: Books)
      requires Legal(b, m) && CountedIn(moves, nvoltrans, b) && m.vol.ntimes != nvoltrans
      modifies m.vol`ntimes, this`moves
      ensures moves == old(moves) + [m] && CountedIn(moves, nvoltrans, Apply(b, m))
    {
      m.vol.ntimes := m.vol.ntimes + 1;
      moves := moves + [m];
      assert moves[..|moves| - 1] == old(moves);
    }

    /** Performs an accepted request: it is entered, and everyone is told. */
    method Perform(m: Job, ghost b0: Books, ghost b: Books, ghost d: Desk) returns (ghost b': Books, ghost d': Desk)
      requires Sitting(b0, b, d) && Legal(b, m) && m.pfrom in parts && m.pto in parts && m.vol.ntimes != nvoltrans
      requires Approves(size.bounds, TheRule(), b, m)
      requires size.mover in {None, Some(m)} && number.mover in {None, Some(m)}
      modifies m.vol`ntimes, m.vol`phome, m.pfrom`free, m.pfrom`nvols, m.pfrom`vols, m.pto`free, m.pto`nvols, m.pto`vols
      modifies this`moves, size`mover, number`mover, size.chain`head, size.chain`tail, size.chain`nodes
      modifies size.wraps`next, size.wraps`prev, size.wraps`vols, size.wraps`cursor
      ensures b' == Apply(b, m) && Sitting(b0, b', d') && size.mover.None? && number.mover.None?
      ensures moves == old(moves) + [m] && m.vol.phome == m.pto
    {
      hide *;
      Unpack(b0, b, d);
      LegalApart(b, m);
      b' := Apply(b, m);
      ghost var d1 := MoveSpace(d, m.pfrom, m.vol, m.pto);
      Moved(d, m);
      SpaceMoved(d, m.pfrom, m.vol, m.pto, size.chain.nodes);
      d' := PerformWith(m, b0, b, b', d, d1);
    }

    method PerformWith(m: Job, ghost b0: Books, ghost b: Books, ghost b': Books, ghost d: Desk, ghost d1: Desk)
      returns (ghost d': Desk)
      requires Sitting(b0, b, d) && Legal(b, m) && b' == Apply(b, m)
      requires m.pfrom in parts && m.pto in parts && m.pfrom != m.pto && m.vol.ntimes != nvoltrans
      requires Approves(size.bounds, TheRule(), b, m)
      requires size.mover in {None, Some(m)} && number.mover in {None, Some(m)}
      requires Known(d) && m.pfrom in d.all && m.pto in d.all && d1 == MoveSpace(d, m.pfrom, m.vol, m.pto)
      requires d1.vols == d.vols && d1.all == d.all && Known(d1)
      requires InOrderBut(d1.free, size.chain.nodes, m.pfrom, m.pto)
      modifies m.vol`ntimes, m.vol`phome, m.pfrom`free, m.pfrom`nvols, m.pfrom`vols, m.pto`free, m.pto`nvols, m.pto`vols
      modifies this`moves, size`mover, number`mover, size.chain`head, size.chain`tail, size.chain`nodes
      modifies size.wraps`next, size.wraps`prev, size.wraps`vols, size.wraps`cursor
      ensures Sitting(b0, b', d') && size.mover.None? && number.mover.None?
      ensures moves == old(moves) + [m] && m.vol.phome == m.pto
    {
      hide *;
      UnpackCarry(b0, b, d);
      ghost var i := Carry(m, b, b', d, d1);
      d' := Performed(b0, b, d, d1, old(moves), m, i);
    }

    lemma UnpackCarry(b0: Books, b: Books, d: Desk)
      requires Sitting(b0, b, d)
      ensures Minutes(size.bounds, TheRule(), b0, b, d, moves) && Enters(b) && CountedIn(moves, nvoltrans, b)
      ensures size.Indexed() && size.Matches(d) && SameSpace(b, d) && d.all == size.all == parts
      ensures forall p :: p in parts ==> p in b.part
    {
    }

    method Carry(m: Job, ghost b: Books, ghost b': Books, ghost d: Desk, ghost d1: Desk) returns (ghost i: nat)
      requires Legal(b, m) && b' == Apply(b, m) && Enters(b) && CountedIn(moves, nvoltrans, b)
      requires m.vol.ntimes != nvoltrans
      requires size.Indexed() && size.Matches(d) && SameSpace(b, d) && d.all == size.all
      requires Known(d) && m.pfrom in d.all && m.pto in d.all && m.pfrom != m.pto
      requires d1 == MoveSpace(d, m.pfrom, m.vol, m.pto)
      requires d1.vols == d.vols && d1.all == d.all && Known(d1)
      requires InOrderBut(d1.free, size.chain.nodes, m.pfrom, m.pto)
      requires size.mover in {None, Some(m)} && number.mover in {None, Some(m)}
      modifies m.vol`ntimes, m.vol`phome, m.pfrom`free, m.pfrom`nvols, m.pfrom`vols, m.pto`free, m.pto`nvols, m.pto`vols
      modifies this`moves, size`mover, number`mover, size.chain`head, size.chain`tail, size.chain`nodes
      modifies size.wraps`next, size.wraps`prev, size.wraps`vols, size.wraps`cursor
      ensures Enters(b') && CountedIn(moves, nvoltrans, b') && moves == old(moves) + [m] && m.vol.phome == m.pto
      ensures size.mover.None? && number.mover.None? && size.Indexed() && InOrder(d1.free, size.chain.nodes)
      ensures if m.vol in d1.vols[m.pfrom]
              then i < |d1.vols[m.pfrom]| && d1.vols[m.pfrom][i] == m.vol
                && size.Matches(MoveLists(size.bounds, d1, m.pfrom, i, m.pto))
              else size.Matches(JoinLists(size.bounds, d1, m.pfrom, m.vol, m.pto))
    {
      hide *;
      Enter(m, b, b', d);
      HomeAfter(b, m);
      i := Announce(m, d1);
    }

    lemma Performed(b0: Books, b: Books, d: Desk, d1: Desk, ms: seq<Job>, m: Job, i: nat) returns (d': Desk)
      requires Minutes(size.bounds, TheRule(), b0, b, d, ms) && Legal(b, m) && Approves(size.bounds, TheRule(), b, m)
      requires Known(d) && m.pfrom in d.all && m.pto in d.all && m.pfrom != m.pto
      requires d1 == MoveSpace(d, m.pfrom, m.vol, m.pto)
      requires d1.vols == d.vols && d1.all == d.all && Known(d1)
      requires if m.vol in d1.vols[m.pfrom]
               then i < |d1.vols[m.pfrom]| && d1.vols[m.pfrom][i] == m.vol
                 && size.Matches(MoveLists(size.bounds, d1, m.pfrom, i, m.pto))
               else size.Matches(JoinLists(size.bounds, d1, m.pfrom, m.vol, m.pto))
      requires size.Indexed() && InOrder(d1.free, size.chain.nodes) && moves == ms + [m]
      requires Enters(Apply(b, m)) && CountedIn(moves, nvoltrans, Apply(b, m))
      requires size.all == parts && forall p :: p in parts ==> p in b.part
      ensures Sitting(b0, Apply(b, m), d')
    {
      hide *;
      d' := DeskAfter(size.bounds, d, m, i);
      MoveMinuted(size.bounds, TheRule(), b0, b, d, ms, m, i);
      DeskAfterIs(size.bounds, d, m, i);
      SamePartitions(b, m);
      Pack(b0, Apply(b, m), d');
    }

    /** What an accepted request may rely on, unless it is a null transaction. */
    lemma Accepted(b0: Books, b: Books, d: Desk, m: Job)
      requires Ok(b0) && Sitting(b0, b, d) && Addressed(m, parts) && Only(m) && Passes(size.bounds, TheRule(), m)
      requires !Idles(m)
      ensures Legal(b, m) && m.pfrom in parts && m.pto in parts && Approves(size.bounds, TheRule(), b, m)
      ensures size.mover in {None, Some(m)} && number.mover in {None, Some(m)}
      ensures m.vol in b0.home.Keys && m.pfrom in b0.part.Keys && m.pto in b0.part.Keys
    {
      AddressedLegal(b, m, parts);
      PassesApproves(size.bounds, TheRule(), b, m);
      ReplayKeeps(b0, moves);
    }

    /** Performs a request, and has all throw its volume away if it has now been moved often enough. */
    method Move(m: Job, ghost b0: Books, ghost b: Books, ghost d: Desk) returns (ghost b': Books, ghost d': Desk)
      requires Sitting(b0, b, d) && Legal(b, m) && m.pfrom in parts && m.pto in parts && m.vol.ntimes != nvoltrans
      requires Approves(size.bounds, TheRule(), b, m)
      requires size.mover in {None, Some(m)} && number.mover in {None, Some(m)}
      modifies m.vol`ntimes, m.vol`phome, m.pfrom`free, m.pfrom`nvols, m.pfrom`vols, m.pto`free, m.pto`nvols, m.pto`vols
      modifies this`moves, size`mover, number`mover, size.chain`head, size.chain`tail, size.chain`nodes
      modifies size.wraps`next, size.wraps`prev, size.wraps`vols, size.wraps`cursor
      ensures b' == Apply(b, m) && Sitting(b0, b', d') && size.mover.None? && number.mover.None?
      ensures moves == old(moves) + [m]
    {
      hide *;
      b', d' := Perform(m, b0, b, d);
      if m.vol.ntimes == nvoltrans {
        d' := DiscardAll(m.vol, b0, b', d');
      }
    }

    /** Performs an accepted request that is no null transaction. */
    method Grant(m: Job, ghost b0: Books, ghost b: Books, ghost d: Desk) returns (ghost b': Books, ghost d': Desk)
      requires Ok(b0) && Sitting(b0, b, d) && Addressed(m, parts) && Only(m) && Passes(size.bounds, TheRule(), m)
      requires !Idles(m) && m.vol.ntimes != nvoltrans
      modifies b0.home.Keys`ntimes, b0.home.Keys`phome, b0.part.Keys`free, b0.part.Keys`nvols, b0.part.Keys`vols
      modifies this`moves, size`mover, number`mover, size.chain`head, size.chain`tail, size.chain`nodes
      modifies size.wraps`next, size.wraps`prev, size.wraps`vols, size.wraps`cursor
      ensures Sitting(b0, b', d') && size.mover.None? && number.mover.None? && moves == old(moves) + [m]
    {
      hide *;
      Accepted(b0, b, d, m);
      b', d' := Move(m, b0, b, d);
    }

    /** One agent's turn: its next request that is accepted, if any, is performed; a null transaction is
        not. */
    method Turn(turn: nat, ghost b0: Books, ghost b: Books, ghost d: Desk)
      returns (mover: Option<Job>, ghost b': Books, ghost d': Desk)
      requires turn <= |rest| && Ok(b0) && Sitting(b0, b, d) && size.mover.None? && number.mover.None?
      modifies b0.home.Keys`ntimes, b0.home.Keys`phome, b0.part.Keys`free, b0.part.Keys`nvols, b0.part.Keys`vols
      modifies this`moves, this`ntransactions, size`mover, number`mover
      modifies size.chain`head, size.chain`tail, size.chain`nodes
      modifies size.wraps`next, size.wraps`prev, size.wraps`vols, size.wraps`cursor
      ensures Sitting(b0, b', d') && (Admitted(old(moves)) ==> Admitted(moves))
      ensures moves == old(moves) + Carries(mover) && ntransactions == old(ntransactions) - |Carries(mover)|
      ensures !Fatal(mover) ==> size.mover.None? && number.mover.None?
      ensures Fatal(mover) ==> Addressed(mover.value, parts) && Passes(size.bounds, TheRule(), mover.value)
    {
      hide *;
      mover, d' := Deliberate(turn, b0, b, d);
      b' := b;
      CarriesIs(mover);
      if mover.Some? && !Idles(mover.value) {
        b', d' := Grant(mover.value, b0, b, d');
        WelcomesExactly(mover.value.pto, mover.value.vol);
        OneAdmitted(old(moves), mover.value);
        ntransactions := ntransactions - 1;
      }
    }

    /** One round of the loop: every agent has its turn, unless a null transaction is accepted or the limit
        is reached. */
    method Round(ghost b0: Books, ghost b: Books, ghost d: Desk)
      returns (activity: bool, done: bool, fatal: Option<Job>, ghost heard: seq<Option<Job>>, ghost b': Books,
        ghost d': Desk)
      requires Ok(b0) && Sitting(b0, b, d) && size.mover.None? && number.mover.None?
      modifies b0.home.Keys`ntimes, b0.home.Keys`phome, b0.part.Keys`free, b0.part.Keys`nvols, b0.part.Keys`vols
      modifies this`moves, this`ntransactions, size`mover, number`mover
      modifies size.chain`head, size.chain`tail, size.chain`nodes
      modifies size.wraps`next, size.wraps`prev, size.wraps`vols, size.wraps`cursor
      ensures Sitting(b0, b', d') && (fatal.None? ==> size.mover.None? && number.mover.None?)
      ensures Admitted(old(moves)) ==> Admitted(moves)
      ensures moves == old(moves) + Made(heard) && (activity <==> Made(heard) != [])
      ensures ntransactions == old(ntransactions) - |Made(heard)|
      ensures Heard(heard, |rest| + 1, done, fatal)
      ensures fatal.Some? ==> Addressed(fatal.value, parts) && Passes(size.bounds, TheRule(), fatal.value)
      ensures done <==> ntransactions == 0 && activity && fatal.None?
      ensures old(ntransactions) > 0 ==> ntransactions >= 0
    {
      hide *;
      b', d', activity, done, fatal, heard := b, d, false, false, None, [];
      NothingHeard(|rest| + 1);
      for turn := 0 to |rest| + 1
        invariant Sitting(b0, b', d') && size.mover.None? && number.mover.None?
        invariant moves == old(moves) + Made(heard) && (activity <==> Made(heard) != [])
        invariant Admitted(old(moves)) ==> Admitted(moves)
        invariant ntransactions == old(ntransactions) - |Made(heard)|
        invariant |heard| == turn && Turns(heard)
        invariant activity ==> ntransactions != 0
        invariant old(ntransactions) > 0 ==> ntransactions > 0
      {
        var mover;
        mover, b', d' := Turn(turn, b0, b', d');
        HeardMore(heard, mover, |rest| + 1);
        heard := heard + [mover];
        if mover.Some? {
          if Idles(mover.value) {
            fatal := mover;
            return;
          }
          activity := true;
          if ntransactions == 0 {
            done := true;
            return;
          }
        }
      }
      HeardAll(heard);
    }

    lemma SittingWithin(b0: Books, b: Books, d: Desk)
      requires Ok(b0) && Sitting(b0, b, d)
      ensures WithinLimit(moves, b0, nvoltrans) && b.home.Keys == b0.home.Keys
    {
      ReplayKeeps(b0, moves);
      if nvoltrans >= 0 {
        MovesBounded(moves, b.home.Keys, nvoltrans);
      }
    }

    /** What is left of the limits on the number of moves; without any limit, of `rounds`. */
    ghost function Left(moves: seq<Job>, b0: Books, limit: int, rounds: nat): int {
      if nvoltrans >= 0 then nvoltrans * |b0.home.Keys| - |moves| else if limit > 0 then limit - |moves| else rounds
    }

    lemma LeftFalls(b0: Books, limit: int, rounds: nat, ms: seq<Job>)
      requires WithinLimit(moves, b0, nvoltrans) && (limit > 0 ==> |moves| <= limit) && |ms| <= |moves|
      requires nvoltrans >= 0 || limit > 0 || rounds > 0
      ensures Left(moves, b0, limit, if rounds > 0 then rounds - 1 else 0) >= 0
      ensures |ms| < |moves| ==>
        Left(moves, b0, limit, if rounds > 0 then rounds - 1 else 0) < Left(ms, b0, limit, rounds)
    {
    }

    /** The balance loop: rounds are held until one in which no agent has a request that is accepted, or the
        limit is reached, or a null transaction is accepted.  With a limit on the moves of a volume or on the
        transactions there are finitely many rounds; otherwise any number is considered. */
    method Balance(ghost b0: Books, ghost d0: Desk)
      returns (end: Ending, ghost rounds: seq<seq<Option<Job>>>, ghost b: Books, ghost d: Desk)
      requires Ok(b0) && Sitting(b0, b0, d0) && size.mover.None? && number.mover.None? && moves == []
      modifies b0.home.Keys`ntimes, b0.home.Keys`phome, b0.part.Keys`free, b0.part.Keys`nvols, b0.part.Keys`vols
      modifies this`moves, this`ntransactions, size`mover, number`mover
      modifies size.chain`head, size.chain`tail, size.chain`nodes
      modifies size.wraps`next, size.wraps`prev, size.wraps`vols, size.wraps`cursor
      ensures Sitting(b0, b, d)
      ensures WithinLimit(moves, b0, nvoltrans) && Admitted(moves)
      ensures ntransactions == old(ntransactions) - |moves|
      ensures (old(ntransactions) > 0 ==> |moves| <= old(ntransactions))
      ensures Concluded(end, rounds, moves, |rest| + 1, nvoltrans, old(ntransactions))
      ensures end.Panic? ==> Addressed(end.m, parts) && Passes(size.bounds, TheRule(), end.m)
    {
      hide *;
      b, d, rounds, end := b0, d0, [], Adjourned;
      SittingWithin(b0, b, d);
      NoRounds(|rest| + 1);
      NoneAdmitted();
      var activity, limit := true, ntransactions;
      var patience: nat := *;
      while activity && (nvoltrans >= 0 || limit > 0 || patience > 0)
        invariant Sitting(b0, b, d) && size.mover.None? && number.mover.None? && WithinLimit(moves, b0, nvoltrans)
        invariant ntransactions == limit - |moves| && Admitted(moves)
        invariant limit > 0 ==> |moves| < limit
        invariant moves == MadeInAll(rounds)
        invariant if activity then Busy(rounds, |rest| + 1)
          else Concluded(Quiet, rounds, moves, |rest| + 1, nvoltrans, limit)
        decreases activity, Left(moves, b0, limit, patience)
      {
        ghost var ms, held := moves, rounds;
        ghost var heard;
        var done, fatal;
        activity, done, fatal, heard, b, d := Round(b0, b, d);
        SittingWithin(b0, b, d);
        rounds := rounds + [heard];
        RoundHeld(held, heard, |rest| + 1, done, fatal, nvoltrans, limit);
        if fatal.Some? {
          end := Panic(fatal.value);
          return;
        }
        if done {
          end := Limit;
          return;
        }
        LeftFalls(b0, limit, patience, ms);
        patience := if patience > 0 then patience - 1 else 0;
      }
      end := if activity then Adjourned else Quiet;
      if activity {
        StillBusy(rounds, |rest| + 1, nvoltrans, limit);
      }
    }
  }

  lemma OneAdmitted(moves: seq<Job>, m: Job)
    requires Admits(m.pto, m.vol)
    ensures Admitted(moves) ==> Admitted(moves + [m])
  {
    if Admitted(moves) {
      assert (moves + [m])[..|moves|] == moves;
      MoreAdmitted(moves, moves + [m]);
    }
  }

  // ----- how it ends

  /** What ended the balance loop; the last stands for going on for ever. */
  datatype Ending = Quiet | Limit | Panic(m: Job) | Adjourned

  ghost predicate Fatal(mover: Option<Job>) {
    mover.Some? && Idles(mover.value)
  }

  /** What a turn adds to the list. */
  ghost function Carries(mover: Option<Job>): seq<Job> {
    if mover.Some? && !Idles(mover.value) then [mover.value] else []
  }

  lemma CarriesIs(mover: Option<Job>)
    ensures mover.None? || Idles(mover.value) ==> Carries(mover) == []
    ensures mover.Some? && !Idles(mover.value) ==> Carries(mover) == [mover.value]
    ensures Fatal(mover) <==> mover.Some? && Idles(mover.value)
  {
  }

  ghost function Made(heard: seq<Option<Job>>): seq<Job> {
    if heard == [] then [] else Made(heard[..|heard| - 1]) + Carries(heard[|heard| - 1])
  }

  ghost function MadeInAll(rounds: seq<seq<Option<Job>>>): seq<Job> {
    if rounds == [] then [] else MadeInAll(rounds[..|rounds| - 1]) + Made(rounds[|rounds| - 1])
  }

  /** Turns without a null transaction. */
  ghost predicate Turns(heard: seq<Option<Job>>) {
    forall k :: 0 <= k < |heard| ==> !Fatal(heard[k])
  }

  /** What is heard in a round of `seats` turns. */
  ghost predicate Heard(heard: seq<Option<Job>>, seats: nat, done: bool, fatal: Option<Job>) {
    && |heard| <= seats && (!done && fatal.None? ==> |heard| == seats)
    && (fatal.None? ==> Turns(heard))
    && (fatal.Some? ==>
         !done && heard != [] && heard[|heard| - 1] == fatal && Fatal(fatal) && Turns(heard[..|heard| - 1]))
    && (done ==> heard != [] && heard[|heard| - 1].Some?)
    && (Made(heard) == [] && fatal.None? ==> heard == Silence(|heard|))
  }

  /** Every round has been complete, and a move was made in it. */
  ghost predicate Busy(rounds: seq<seq<Option<Job>>>, seats: nat) {
    forall r :: 0 <= r < |rounds| ==> |rounds[r]| == seats && Turns(rounds[r]) && Made(rounds[r]) != []
  }

  /** The loop ends with the first complete round in which no agent had an accepted request, with a null
      transaction, or with the move that exhausts the limit; without either limit it may go on. */
  ghost predicate Concluded(end: Ending, rounds: seq<seq<Option<Job>>>, moves: seq<Job>, seats: nat, nvoltrans: int,
                            ntransactions: int)
  {
    && moves == MadeInAll(rounds)
    && match end
       case Quiet => Closed(rounds, seats) && Last(rounds) == Silence(seats)
       case Limit => Closed(rounds, seats) && ntransactions > 0 && |moves| == ntransactions
       case Panic(m) => Closed(rounds, seats) && Idles(m) && EndsWith(Last(rounds), m)
       case Adjourned => Busy(rounds, seats) && nvoltrans < 0 && ntransactions <= 0
  }

  /** Every round but the last has been busy. */
  ghost predicate Closed(rounds: seq<seq<Option<Job>>>, seats: nat) {
    rounds != [] && Busy(rounds[..|rounds| - 1], seats)
  }

  ghost function Last(rounds: seq<seq<Option<Job>>>): seq<Option<Job>> {
    if rounds == [] then [] else rounds[|rounds| - 1]
  }

  /** A round in which every agent has given up. */
  ghost function Silence(seats: nat): seq<Option<Job>> {
    seq(seats, k => None)
  }

  ghost predicate EndsWith(heard: seq<Option<Job>>, m: Job) {
    heard != [] && heard[|heard| - 1] == Some(m) && Turns(heard[..|heard| - 1])
  }

  lemma NothingHeard(seats: nat)
    ensures Made([]) == [] && Turns([])
  {
  }

  lemma NoRounds(seats: nat)
    ensures MadeInAll([]) == [] && Busy([], seats)
  {
  }

  lemma HeardMore(heard: seq<Option<Job>>, mover: Option<Job>, seats: nat)
    requires Turns(heard) && |heard| < seats
    ensures Made(heard + [mover]) == Made(heard) + Carries(mover)
    ensures mover.None? || Idles(mover.value) ==> Carries(mover) == []
    ensures mover.Some? && !Idles(mover.value) ==> Carries(mover) == [mover.value]
    ensures Fatal(mover) <==> mover.Some? && Idles(mover.value)
    ensures mover.None? || !Idles(mover.value) ==> Turns(heard + [mover])
    ensures mover.Some? && Idles(mover.value) ==> Heard(heard + [mover], seats, false, mover)
    ensures mover.Some? && !Idles(mover.value) ==> Heard(heard + [mover], seats, true, None)
  {
    assert (heard + [mover])[..|heard|] == heard;
  }

  lemma {:induction false} QuietTurns(heard: seq<Option<Job>>)
    requires Turns(heard) && Made(heard) == []
    ensures heard == Silence(|heard|)
  {
    if heard != [] {
      var k := |heard| - 1;
      assert !Fatal(heard[k]) && Made(heard) == Made(heard[..k]) + Carries(heard[k]);
      QuietTurns(heard[..k]);
      SilenceMore(k);
      assert heard == heard[..k] + [heard[k]];
      hide Made, Silence;
    }
  }

  lemma SilenceMore(k: nat)
    ensures Silence(k + 1) == Silence(k) + [None]
  {
  }

  lemma HeardAll(heard: seq<Option<Job>>)
    requires Turns(heard)
    ensures Heard(heard, |heard|, false, None)
  {
    if Made(heard) == [] {
      QuietTurns(heard);
    }
  }

  /** What another round makes of the loop. */
  lemma RoundHeld(held: seq<seq<Option<Job>>>, heard: seq<Option<Job>>, seats: nat, done: bool, fatal: Option<Job>,
                  nvoltrans: int, limit: int)
    requires Busy(held, seats) && Heard(heard, seats, done, fatal)
    requires done ==> Made(heard) != [] && |MadeInAll(held) + Made(heard)| == limit
    ensures MadeInAll(held + [heard]) == MadeInAll(held) + Made(heard)
    ensures var (rounds, moves) := (held + [heard], MadeInAll(held) + Made(heard));
      && (fatal.Some? ==> Concluded(Panic(fatal.value), rounds, moves, seats, nvoltrans, limit))
      && (done ==> Concluded(Limit, rounds, moves, seats, nvoltrans, limit))
      && (fatal.None? && !done && Made(heard) != [] ==> Busy(rounds, seats))
      && (fatal.None? && !done && Made(heard) == [] ==> Concluded(Quiet, rounds, moves, seats, nvoltrans, limit))
  {
    assert (held + [heard])[..|held|] == held;
    hide Made;
  }

  lemma StillBusy(rounds: seq<seq<Option<Job>>>, seats: nat, nvoltrans: int, limit: int)
    requires Busy(rounds, seats) && nvoltrans < 0 && limit <= 0
    ensures Concluded(Adjourned, rounds, MadeInAll(rounds), seats, nvoltrans, limit)
  {
  }
  lemma LegalApart(b: Books, m: Job)
    requires Legal(b, m)
    ensures m.pfrom != m.pto
  {
  }

  lemma HomeAfter(b: Books, m: Job)
    requires Legal(b, m) && Enters(Apply(b, m))
    ensures m.vol.phome == m.pto
  {
    assert Apply(b, m).home[m.vol] == m.pto;
  }

  lemma SamePartitions(b: Books, m: Job)
    requires Legal(b, m)
    ensures Apply(b, m).part.Keys == b.part.Keys
  {
  }

  lemma Moved(d: Desk, m: Job)
    requires Known(d) && m.pfrom in d.all && m.pto in d.all && m.pfrom != m.pto
    ensures var d1 := MoveSpace(d, m.pfrom, m.vol, m.pto); d1.all == d.all && d1.vols == d.vols && Known(d1)
  {
  }

  lemma DeskAfterIs(bounds: Bounds, d: Desk, m: Job, i: nat)
    requires Known(d) && m.pfrom in d.all && m.pto in d.all && m.pfrom != m.pto
    requires m.vol in d.vols[m.pfrom] ==> i < |d.vols[m.pfrom]|
    ensures var d1 := MoveSpace(d, m.pfrom, m.vol, m.pto);
      && DeskAfter(bounds, d, m, i).free == d1.free
      && (m.vol in d.vols[m.pfrom] ==> DeskAfter(bounds, d, m, i) == MoveLists(bounds, d1, m.pfrom, i, m.pto))
      && (m.vol !in d.vols[m.pfrom] ==> DeskAfter(bounds, d, m, i) == JoinLists(bounds, d1, m.pfrom, m.vol, m.pto))
  {
  }

  lemma AddressedHome(m: Job, parts: seq<Partition>)
    requires Addressed(m, parts)
    ensures m.vol.phome in parts
  {
  }

  lemma DiscardFree(d: Desk, p: Partition, i: nat)
    requires Known(d) && p in d.all && i < |d.vols[p]|
    ensures AfterDiscard(d, p, i).free == d.free
  {
  }

  // ----- the whole planner

  /** What the council has made, when the books are at the end and at the beginning: a legal list approved by
      the agents, so that no partition has been filled or crowded above its bounds or what it held before;
      and no volume has been moved more often than allowed. */
  ghost predicate Agreed(moves: seq<Job>, bounds: Bounds, rule: Rule, b0: Books, b: Books, nvoltrans: int,
                         ntransactions: int)
  {
    && LegalRun(b0, moves) && b == Replay(b0, moves) && WithinLimit(moves, b0, nvoltrans) && Admitted(moves)
    && (ntransactions > 0 ==> |moves| <= ntransactions)
    && SizeApproved(bounds, b0, moves) && (rule.seated ==> NumberApproved(rule.upper, rule.move, b0, moves))
    && (forall p :: p in b0.part ==> p in b.part)
    && (forall p :: p in b0.part ==>
      OccOf(b.part[p].free, p.size) <= Larger(OccOf(b0.part[p].free, p.size), Larger(bounds.upper, bounds.move)))
    && (rule.seated ==> forall p :: p in b0.part ==>
      PerSize(b.part[p].nvols, p.size) <= Larger(PerSize(b0.part[p].nvols, p.size), Larger(rule.upper, rule.move)))
  }

  lemma AgreedFrom(table: Table, b0: Books, b: Books, d: Desk, ntransactions: int)
    requires table.Sitting(b0, b, d) && WithinLimit(table.moves, b0, table.nvoltrans) && Admitted(table.moves)
    requires ntransactions > 0 ==> |table.moves| <= ntransactions
    ensures Agreed(table.moves, table.size.bounds, table.TheRule(), b0, b, table.nvoltrans, ntransactions)
    ensures Enters(b) && forall v :: v in b.home ==> v.ntimes == Times(table.moves, v)
  {
    var bounds, rule, moves := table.size.bounds, table.TheRule(), table.moves;
    table.Unpack(b0, b, d);
    hide *;
    MinutesAre(bounds, rule, b0, b, d, moves);
    forall p | p in b0.part
      ensures p in b.part
        && OccOf(b.part[p].free, p.size) <= Larger(OccOf(b0.part[p].free, p.size), Larger(bounds.upper, bounds.move))
    {
      NeverOverfull(bounds, b0, moves, p);
    }
    if rule.seated {
      forall p | p in b0.part
        ensures PerSize(b.part[p].nvols, p.size)
          <= Larger(PerSize(b0.part[p].nvols, p.size), Larger(rule.upper, rule.move))
      {
        NeverOvercrowded(rule.upper, rule.move, b0, moves, p);
      }
    }
    AgreedIs(moves, bounds, rule, b0, b, table.nvoltrans, ntransactions);
    CountsAre(moves, table.nvoltrans, b);
  }

  lemma MinutesAre(bounds: Bounds, rule: Rule, b0: Books, b: Books, d: Desk, moves: seq<Job>)
    requires Minutes(bounds, rule, b0, b, d, moves)
    ensures LegalRun(b0, moves) && b == Replay(b0, moves)
    ensures SizeApproved(bounds, b0, moves) && (rule.seated ==> NumberApproved(rule.upper, rule.move, b0, moves))
  {
  }

  lemma CountsAre(moves: seq<Job>, nvoltrans: int, b: Books)
    requires CountedIn(moves, nvoltrans, b)
    ensures forall v :: v in b.home ==> v.ntimes == Times(moves, v)
  {
  }

  lemma AgreedIs(moves: seq<Job>, bounds: Bounds, rule: Rule, b0: Books, b: Books, nvoltrans: int, ntransactions: int)
    requires LegalRun(b0, moves) && b == Replay(b0, moves) && WithinLimit(moves, b0, nvoltrans) && Admitted(moves)
    requires ntransactions > 0 ==> |moves| <= ntransactions
    requires SizeApproved(bounds, b0, moves) && (rule.seated ==> NumberApproved(rule.upper, rule.move, b0, moves))
    requires forall p :: p in b0.part ==> p in b.part
    requires forall p :: p in b0.part ==>
      OccOf(b.part[p].free, p.size) <= Larger(OccOf(b0.part[p].free, p.size), Larger(bounds.upper, bounds.move))
    requires rule.seated ==> forall p :: p in b0.part ==>
      PerSize(b.part[p].nvols, p.size) <= Larger(PerSize(b0.part[p].nvols, p.size), Larger(rule.upper, rule.move))
    ensures Agreed(moves, bounds, rule, b0, b, nvoltrans, ntransactions)
  {
  }

  /** Nothing has been moved yet. */
  lemma Convened(table: Table, b0: Books, d: Desk)
    requires Ok(b0) && Enters(b0) && table.moves == [] && table.size.all == table.parts
    requires table.size.Indexed() && table.size.Matches(d) && WellFormed(d) && InOrder(d.free, table.size.chain.nodes)
    requires (forall p :: p in table.parts ==> p in b0.part) && (forall p :: p in b0.part ==> p in table.parts)
    requires forall p :: p in table.parts ==> multiset(d.vols[p]) == multiset(p.vols)
    requires forall v :: v in b0.home ==> v.ntimes == 0
    ensures table.Sitting(b0, b0, d)
  {
    Beginning(table.size.bounds, b0, d);
  }

  /** Plans the moves of a cell with the size agent and others. */
  method PlanTogether(parts: seq<Partition>, sizePrecision: real, numberPrecision: real, rest: seq<Seat>,
                      nvoltrans: int, ntransactions: int, ghost b0: Books)
    returns (moves: seq<Job>, end: Ending, ghost rounds: seq<seq<Option<Job>>>, ghost b: Books, ghost bounds: Bounds)
    requires Ok(b0) && Enters(b0) && Distinct(parts)
    requires (forall p :: p in parts ==> p in b0.part) && (forall p :: p in b0.part ==> p in parts)
    requires forall v :: v in b0.home ==> v.ntimes == 0
    modifies b0.home.Keys`ntimes, b0.home.Keys`phome, b0.part.Keys`free, b0.part.Keys`nvols, b0.part.Keys`vols
    ensures bounds == WindowOf(b0, parts, sizePrecision)
    ensures Around(bounds, UsedSpace(b0, parts), Space(parts), sizePrecision)
    ensures Above(Crowding(b0, parts, numberPrecision), Numbered(b0, parts), Space(parts), numberPrecision)
    ensures var crowding := Crowding(b0, parts, numberPrecision);
      Agreed(moves, bounds, Rule(NumberSeat in rest, crowding.0, crowding.1), b0, b, nvoltrans, ntransactions)
    ensures Concluded(end, rounds, moves, |rest| + 1, nvoltrans, ntransactions)
    ensures Enters(b) && forall v :: v in b.home ==> v.ntimes == Times(moves, v)
  {
    hide *;
    CrowdingFits(b0, parts, numberPrecision);
    WindowFits(b0, parts, sizePrecision);
    var table;
    ghost var d;
    table, d := Convene(parts, sizePrecision, numberPrecision, rest, nvoltrans, ntransactions, b0);
    end, rounds, b, d := table.Balance(b0, d);
    AgreedFrom(table, b0, b, d, ntransactions);
    moves, bounds := table.moves, table.size.bounds;
  }

  /** Sets up the agents and the table. */
  method Convene(parts: seq<Partition>, sizePrecision: real, numberPrecision: real, rest: seq<Seat>, nvoltrans: int,
                 ntransactions: int, ghost b0: Books)
    returns (table: Table, ghost d: Desk)
    requires Ok(b0) && Enters(b0) && Distinct(parts)
    requires (forall p :: p in parts ==> p in b0.part) && (forall p :: p in b0.part ==> p in parts)
    requires forall v :: v in b0.home ==> v.ntimes == 0
    ensures fresh(table) && fresh(table.size) && fresh(table.number) && fresh(table.size.chain)
    ensures fresh(table.size.wraps) && table.Sitting(b0, b0, d)
    ensures table.size.mover.None? && table.number.mover.None? && table.moves == [] && table.rest == rest
    ensures table.nvoltrans == nvoltrans && table.ntransactions == ntransactions
    ensures table.size.bounds == WindowOf(b0, parts, sizePrecision)
    ensures var crowding := Crowding(b0, parts, numberPrecision);
      table.TheRule() == Rule(NumberSeat in rest, crowding.0, crowding.1)
  {
    hide *;
    var size;
    size, d := NewAgent(parts, sizePrecision, b0);
    var avg := NumberAgent.Servconf(parts, b0);
    var number := new NumberAgent(avg, numberPrecision);
    CrowdingIs(b0, parts, numberPrecision);
    table := new Table(size, number, rest, parts, nvoltrans, ntransactions);
    Convened(table, b0, d);
    RuleIs(table);
  }

  lemma CrowdingIs(b: Books, ps: seq<Partition>, precision: real)
    requires forall p :: p in ps ==> p in b.part
    ensures Crowding(b, ps, precision) == Bracketed(Average(Numbered(b, ps), Space(ps)), precision)
  {
  }

  lemma RuleIs(table: Table)
    ensures table.TheRule() == Rule(NumberSeat in table.rest, table.number.upper, table.number.move)
  {
  }

  // ----- carrying out such a list

  lemma {:induction false} TwiceCounted(moves: seq<Job>, t: nat, u: nat)
    requires t < u < |moves| && moves[t].vol == moves[u].vol
    ensures Times(moves, moves[t].vol) >= 2
  {
    var k := |moves| - 1;
    if u < k {
      TwiceCounted(moves[..k], t, u);
    } else {
      OnceCounted(moves[..k], t);
    }
  }

  lemma {:induction false} OnceCounted(moves: seq<Job>, t: nat)
    requires t < |moves|
    ensures Times(moves, moves[t].vol) >= 1
  {
    var k := |moves| - 1;
    if t < k {
      OnceCounted(moves[..k], t);
    }
  }

  /** With at most one move for each volume, whatever list the agents have agreed on, every run of the
      executor that empties it without a failure ends in the cell that was planned, and at every point of
      every run each move being carried out names the partition its volume is really on. */
  lemma AgreedRun(moves: seq<Job>, bounds: Bounds, rule: Rule, b0: Books, b: Books, nvoltrans: int, ntransactions: int,
                  n: int, evs: seq<Schedule.Event>)
    requires Ok(b0) && Agreed(moves, bounds, rule, b0, b, nvoltrans, ntransactions) && 0 <= nvoltrans <= 1
    requires Schedule.Run(moves, Schedule.Start(moves, n, b0.home), evs)
    ensures Outcome.Waiting(moves, Schedule.After(moves, Schedule.Start(moves, n, b0.home), evs))
    ensures Outcome.AllOk(evs) && Schedule.After(moves, Schedule.Start(moves, n, b0.home), evs).todo == [] ==>
      Schedule.After(moves, Schedule.Start(moves, n, b0.home), evs).place == b.home
  {
    AgreedOnce(moves, b0, nvoltrans);
    hide *;
    AgreedList(moves, bounds, rule, b0, b, nvoltrans, ntransactions);
    LegalIsConsistent(b0, moves);
    Outcome.StartWaiting(moves, n, b0.home);
    Schedule.StartInv(moves, n, b0.home);
    Outcome.IssuedMovesAreReal(moves, n, Schedule.Start(moves, n, b0.home), evs);
    if Outcome.AllOk(evs) && Schedule.After(moves, Schedule.Start(moves, n, b0.home), evs).todo == [] {
      Outcome.DrainedRunIsSerial(moves, n, b0.home, evs);
      ReplayKeeps(b0, moves);
    }
  }

  lemma AgreedList(moves: seq<Job>, bounds: Bounds, rule: Rule, b0: Books, b: Books, nvoltrans: int, ntransactions: int)
    requires Agreed(moves, bounds, rule, b0, b, nvoltrans, ntransactions)
    ensures LegalRun(b0, moves) && b == Replay(b0, moves)
  {
  }

  lemma MovedVolume(moves: seq<Job>, b0: Books, t: nat)
    requires Ok(b0) && LegalRun(b0, moves) && t < |moves|
    ensures moves[t].vol in b0.home
  {
    LegalPrefix(b0, moves, t + 1);
    assert moves[..t + 1][..t] == moves[..t];
    ReplayKeeps(b0, moves[..t]);
  }

  lemma AgreedOnce(moves: seq<Job>, b0: Books, nvoltrans: int)
    requires Ok(b0) && LegalRun(b0, moves) && WithinLimit(moves, b0, nvoltrans) && 0 <= nvoltrans <= 1
    ensures Outcome.OncePerVolume(moves)
  {
    forall t, u | 0 <= t < u < |moves| ensures moves[t].vol != moves[u].vol {
      MovedVolume(moves, b0, t);
      if moves[t].vol == moves[u].vol {
        TwiceCounted(moves, t, u);
      }
    }
  }
}
