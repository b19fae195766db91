/** The planner: it polls the agent for moves and enters the accepted ones in the books. */
module Planner {
  import opened Options
  import opened Transactions
  import opened Cell
  import opened Occupancy
  import opened Chain
  import opened Balancing
  import opened Bysize
  import opened Ledger
  import Drain
  import Outcome
  import Schedule

  /** The books are what the partitions and volumes say. */
  ghost predicate Enters(b: Books)
    reads b.part.Keys`free, b.part.Keys`nvols, b.part.Keys`vols, b.home.Keys`phome
  {
    && (forall p :: p in b.part ==> b.part[p] == Account(p.free, p.nvols, p.vols))
    && (forall v :: v in b.home ==> v.phome == b.home[v])
  }

  /** The agent's desk agrees with the books; it lists some of the volumes. */
  ghost predicate Tied(b: Books, d: Desk) {
    && SameSpace(b, d) && (forall p :: p in b.part ==> p in d.all) && Known(d)
    && (forall p, v :: p in d.all && v in d.vols[p] ==> v in b.part[p].vols)
  }

  /** The volumes it does not list are those thrown away. */
  ghost predicate Complete(b: Books, d: Desk, thrown: set<Volume>) {
    forall p, v :: p in d.all && p in b.part && p in d.vols && v in b.part[p].vols ==>
      (v in d.vols[p] <==> v !in thrown)
  }

  ghost predicate SameSpace(b: Books, d: Desk) {
    forall p :: p in d.all ==> p in b.part && p in d.free && d.free[p] == b.part[p].free
  }

  lemma {:induction false} UnthreadAt(vs: seq<Volume>, v: Volume, k: nat)
    requires k < |vs| && vs[k] == v && v !in vs[..k]
    ensures Unthread(vs, v) == vs[..k] + vs[k + 1..]
  {
    if k > 0 {
      assert vs[0] == vs[..k][0];
      assert forall i :: 0 <= i < k - 1 ==> vs[1..][i] == vs[..k][i + 1];
      UnthreadAt(vs[1..], v, k - 1);
      assert vs[..k] == [vs[0]] + vs[1..][..k - 1];
      assert vs[1..][k..] == vs[k + 1..];
    }
  }

  /** The list without the first occurrence of the volume. */
  ghost predicate Unthreaded(vs: seq<Volume>, v: Volume, vs': seq<Volume>) {
    exists k :: 0 <= k < |vs| && vs[k] == v && v !in vs[..k] && vs' == vs[..k] + vs[k + 1..]
  }

  /** Takes a volume out of a partition's list. */
  method UnthreadVol(p: Partition, v: Volume)
    requires v in p.vols
    modifies p`vols
    ensures p.vols == Unthread(old(p.vols), v) && Unthreaded(old(p.vols), v, p.vols)
  {
    var k := 0;
    while p.vols[k] != v
      invariant k < |p.vols| && v !in p.vols[..k] && p.vols == old(p.vols)
      decreases |p.vols| - k
    {
      k := k + 1;
    }
    UnthreadAt(p.vols, v, k);
    p.vols := p.vols[..k] + p.vols[k + 1..];
  }

  /** Enters a move in the books. */
  method DoMove(m: Job, ghost b: Books)
    requires Enters(b) && Legal(b, m)
    modifies m.pfrom`free, m.pfrom`nvols, m.pfrom`vols, m.pto`free, m.pto`nvols, m.pto`vols, m.vol`phome
    ensures Enters(Apply(b, m))
    ensures m.pfrom.free == old(m.pfrom.free) + m.vol.size && m.pto.free == old(m.pto.free) - m.vol.size
    ensures m.pfrom.nvols == old(m.pfrom.nvols) - 1 && m.pto.nvols == old(m.pto.nvols) + 1
    ensures Unthreaded(old(m.pfrom.vols), m.vol, m.pfrom.vols) && m.pto.vols == [m.vol] + old(m.pto.vols)
    ensures m.vol.phome == m.pto
  {
    hide Unthread, Unthreaded;
    m.pfrom.free := m.pfrom.free + m.vol.size;
    m.pto.free := m.pto.free - m.vol.size;
    UnthreadVol(m.pfrom, m.vol);
    m.pfrom.nvols := m.pfrom.nvols - 1;
    m.pto.vols := [m.vol] + m.pto.vols;
    m.pto.nvols := m.pto.nvols + 1;
    m.vol.phome := m.pto;
    ghost var b' := Apply(b, m);
    assert b'.part[m.pfrom] == Account(m.pfrom.free, m.pfrom.nvols, m.pfrom.vols);
    assert b'.part[m.pto] == Account(m.pto.free, m.pto.nvols, m.pto.vols);
    assert forall p :: p in b.part && p != m.pfrom && p != m.pto ==> b'.part[p] == b.part[p];
  }

  lemma FreeEntered(b: Books, d: Desk, m: Job)
    requires Legal(b, m) && SameSpace(b, d) && Known(d) && m.pfrom in d.all && m.pto in d.all
    ensures forall p :: p in d.all ==>
      p in Apply(b, m).part && Apply(b, m).part[p].free == MoveSpace(d, m.pfrom, m.vol, m.pto).free[p]
    ensures var d' := MoveSpace(d, m.pfrom, m.vol, m.pto);
      d'.all == d.all && d'.vols == d.vols && d'.cursor == d.cursor && Known(d')
    ensures m.pfrom != m.pto
  {
  }

  lemma FreeIs(b: Books, ps: seq<Partition>)
    requires Enters(b)
    ensures forall p :: p in ps && p in b.part ==> p.free == b.part[p].free
  {
  }

  /** Enters a move; the agent does not follow yet. */
  method EnterMove(agent: Agent, m: Job, ghost b: Books, ghost d: Desk)
    requires Enters(b) && Legal(b, m) && SameSpace(b, d) && agent.Matches(d) && m.pfrom in d.all && m.pto in d.all
    modifies m.vol`phome, m.pfrom`free, m.pfrom`nvols, m.pfrom`vols, m.pto`free, m.pto`nvols, m.pto`vols
    ensures Enters(Apply(b, m)) && agent.Matches(MoveSpace(d, m.pfrom, m.vol, m.pto))
  {
    agent.MatchesIs(d);
    FreeEntered(b, d, m);
    hide *;
    DoMove(m, b);
    FreeIs(Apply(b, m), d.all);
    agent.MatchesIs(MoveSpace(d, m.pfrom, m.vol, m.pto));
  }

  /** How often a volume is in a list of moves. */
  ghost function Times(moves: seq<Job>, v: Volume): nat {
    if moves == [] then 0 else Times(moves[..|moves| - 1], v) + if moves[|moves| - 1].vol == v then 1 else 0
  }

  /** The moves of other volumes. */
  ghost function Others(moves: seq<Job>, v: Volume): seq<Job> {
    if moves == [] then []
    else Others(moves[..|moves| - 1], v) + if moves[|moves| - 1].vol == v then [] else [moves[|moves| - 1]]
  }

  lemma {:induction false} OthersTimes(moves: seq<Job>, v: Volume, w: Volume)
    ensures |Others(moves, v)| + Times(moves, v) == |moves|
    ensures Times(Others(moves, v), w) == if v == w then 0 else Times(moves, w)
    ensures forall m :: m in Others(moves, v) ==> m in moves && m.vol != v
  {
    if moves != [] {
      var rest, m := moves[..|moves| - 1], moves[|moves| - 1];
      OthersTimes(rest, v, w);
      assert (Others(rest, v) + [m])[..|Others(rest, v)|] == Others(rest, v);
      assert Others(rest, v) + [] == Others(rest, v);
    }
  }

  /** If no volume is moved more than `k` times, there are at most `k` moves for each volume. */
  lemma {:induction false} MovesBounded(moves: seq<Job>, vs: set<Volume>, k: nat)
    requires (forall m :: m in moves ==> m.vol in vs) && forall v :: v in vs ==> Times(moves, v) <= k
    ensures |moves| <= k * |vs|
    decreases vs
  {
    if v :| v in vs {
      var rest, ws := Others(moves, v), vs - {v};
      hide Times, Others;
      forall w | w in ws ensures Times(rest, w) <= k {
        OthersTimes(moves, v, w);
      }
      OthersTimes(moves, v, v);
      MovesBounded(rest, ws, k);
      assert |vs| == |ws| + 1;
      OneMore(k, |ws|, |moves|, |rest|, Times(moves, v));
    } else {
      assert moves == [] || moves[0].vol in vs;
    }
  }

  lemma OneMore(k: nat, n: nat, moves: nat, rest: nat, times: nat)
    requires rest <= k * n && rest + times == moves && times <= k
    ensures moves <= k * (n + 1)
  {
    assert k * (n + 1) == k * n + k;
  }

  /** With a limit that is not negative, no volume is moved more often, and there are at most that many
      moves for each volume. */
  ghost predicate WithinLimit(moves: seq<Job>, b: Books, nvoltrans: int) {
    && (nvoltrans >= 0 ==> forall v :: v in b.home ==> Times(moves, v) <= nvoltrans)
    && (nvoltrans >= 0 ==> |moves| <= nvoltrans * |b.home.Keys|)
  }

  /** The volumes moved so far are on partitions that do not need balancing, and so is whatever they were
      moved to. */
  ghost predicate Settles(bounds: Bounds, b: Books, d: Desk, moves: seq<Job>)
    requires Tied(b, d)
  {
    forall t :: 0 <= t < |moves| ==>
      && moves[t].vol in b.home && b.home[moves[t].vol] in d.all && !Hot(bounds, d, b.home[moves[t].vol])
      && moves[t].pto in d.all && !Hot(bounds, d, moves[t].pto)
  }

  /** What planning keeps, for the books `b0` it began with, the books and the desk now. */
  ghost predicate Kept(bounds: Bounds, b0: Books, b: Books, d: Desk, moves: seq<Job>, thrown: set<Volume>) {
    && LegalRun(b0, moves) && b == Replay(b0, moves) && Ok(b) && Tied(b, d) && WellFormed(d) && Complete(b, d, thrown)
    && Outcome.OncePerVolume(moves) && Drain.EmptiedFirst(moves) && Settles(bounds, b, d, moves)
    && (forall p :: p in d.all ==> p in b0.part)
    && WithinBounds(bounds, map p | p in b0.part :: b0.part[p].free, d)
  }

  lemma TimesOnce(moves: seq<Job>, m: Job, b: Books, d: Desk, bounds: Bounds)
    requires Outcome.OncePerVolume(moves) && Tied(b, d) && Settles(bounds, b, d, moves)
    requires m.vol in b.home && b.home[m.vol] in d.all && Hot(bounds, d, b.home[m.vol])
    ensures Outcome.OncePerVolume(moves + [m]) && forall t :: 0 <= t < |moves| ==> moves[t].vol != m.vol
  {
  }

  /** Nothing was moved to a partition that still needs balancing. */
  lemma MoveEmptiedFirst(moves: seq<Job>, m: Job, b: Books, d: Desk, bounds: Bounds)
    requires Drain.EmptiedFirst(moves) && Tied(b, d) && Settles(bounds, b, d, moves)
    requires m.pfrom in d.all && Hot(bounds, d, m.pfrom) && m.pfrom != m.pto
    ensures Drain.EmptiedFirst(moves + [m])
  {
  }

  lemma RemoveListed(own: seq<Volume>, vols: seq<Volume>, i: nat)
    requires i < |own| && Distinct(own) && Once(vols) && forall v :: v in own ==> v in vols
    ensures forall v :: v in RemoveAt(own, i) ==> v in Unthread(vols, own[i])
  {
    RemoveMembers(own, i);
    UnthreadOnce(vols, own[i]);
  }

  lemma MoveTied(bounds: Bounds, b: Books, d: Desk, m: Job, i: nat)
    requires Legal(b, m) && Tied(b, d) && m.pfrom in d.all && Once(b.part[m.pfrom].vols)
    requires Distinct(d.vols[m.pfrom]) && i < |d.vols[m.pfrom]| && d.vols[m.pfrom][i] == m.vol
    requires m.pto in d.all && WellFormed(d)
    ensures Tied(Apply(b, m), AfterMove(bounds, d, m.pfrom, i, m.pto))
  {
    var b', d' := Apply(b, m), AfterMove(bounds, d, m.pfrom, i, m.pto);
    RemoveListed(d.vols[m.pfrom], b.part[m.pfrom].vols, i);
    InsertMembers(d.vols[m.pto], VolSlot(d.vols[m.pto], m.vol.size), m.vol);
    hide RemoveAt, InsertAt, Unthread, Once, Distinct, VolSlot;
    assert d'.vols[m.pfrom] == RemoveAt(d.vols[m.pfrom], i);
    assert d'.vols[m.pto] == InsertAt(d.vols[m.pto], VolSlot(d.vols[m.pto], m.vol.size), m.vol);
    assert b'.part[m.pfrom].vols == Unthread(b.part[m.pfrom].vols, m.vol);
    assert b'.part[m.pto].vols == [m.vol] + b.part[m.pto].vols;
  }

  /** Only the source of the move was hot among the two, and no other partition changes. */
  lemma StaysCool(bounds: Bounds, d: Desk, d': Desk, p: Partition, v: Volume, q: Partition, r: Partition)
    requires Known(d) && p in d.all && q in d.all && p != q && r in d.all && MovedSpace(d, d', p, v, q)
    requires Hot(bounds, d, p) && Room(bounds, d, q, v) && (r == q || !Hot(bounds, d, r))
    ensures r in d'.all && !Hot(bounds, d', r)
  {
  }

  lemma MoveSettlesVols(bounds: Bounds, b: Books, d: Desk, moves: seq<Job>, m: Job, i: nat)
    requires Legal(b, m) && Tied(b, d) && WellFormed(d) && Settles(bounds, b, d, moves)
    requires i < |d.vols[m.pfrom]| && d.vols[m.pfrom][i] == m.vol
    requires Hot(bounds, d, m.pfrom) && Room(bounds, d, m.pto, m.vol)
    requires Tied(Apply(b, m), AfterMove(bounds, d, m.pfrom, i, m.pto))
    ensures Settles(bounds, Apply(b, m), AfterMove(bounds, d, m.pfrom, i, m.pto), moves + [m])
  {
    var b', d', ms := Apply(b, m), AfterMove(bounds, d, m.pfrom, i, m.pto), moves + [m];
    MoveFree(bounds, d, m.pfrom, i, m.pto);
    StaysCool(bounds, d, d', m.pfrom, m.vol, m.pto, m.pto);
    hide AfterMove, Hot, Room, Tied, WellFormed;
    forall t | 0 <= t < |ms|
      ensures ms[t].vol in b'.home && b'.home[ms[t].vol] in d'.all && !Hot(bounds, d', b'.home[ms[t].vol])
        && ms[t].pto in d'.all && !Hot(bounds, d', ms[t].pto)
    {
      if t < |moves| {
        assert ms[t] == moves[t];
        StaysCool(bounds, d, d', m.pfrom, m.vol, m.pto, moves[t].pto);
        StaysCool(bounds, d, d', m.pfrom, m.vol, m.pto, b.home[moves[t].vol]);
      }
    }
  }

  lemma MoveComplete(bounds: Bounds, b: Books, d: Desk, thrown: set<Volume>, m: Job, i: nat)
    requires Legal(b, m) && Known(d) && m.pfrom in d.all && m.pto in d.all && Complete(b, d, thrown)
    requires i < |d.vols[m.pfrom]| && d.vols[m.pfrom][i] == m.vol && Distinct(d.vols[m.pfrom])
    requires Once(b.part[m.pfrom].vols)
    ensures Complete(Apply(b, m), AfterMove(bounds, d, m.pfrom, i, m.pto), thrown)
  {
    var b', d' := Apply(b, m), AfterMove(bounds, d, m.pfrom, i, m.pto);
    RemoveMembers(d.vols[m.pfrom], i);
    UnthreadOnce(b.part[m.pfrom].vols, m.vol);
    InsertMembers(d.vols[m.pto], VolSlot(d.vols[m.pto], m.vol.size), m.vol);
    assert d'.vols[m.pfrom] == RemoveAt(d.vols[m.pfrom], i);
    assert d'.vols[m.pto] == InsertAt(d.vols[m.pto], VolSlot(d.vols[m.pto], m.vol.size), m.vol);
    assert b'.part[m.pfrom].vols == Unthread(b.part[m.pfrom].vols, m.vol);
    assert b'.part[m.pto].vols == [m.vol] + b.part[m.pto].vols;
  }

  /** An accepted move keeps it. */
  lemma MoveKept(bounds: Bounds, b0: Books, b: Books, d: Desk, moves: seq<Job>, thrown: set<Volume>, m: Job, i: nat)
    requires Kept(bounds, b0, b, d, moves, thrown) && Legal(b, m) && i < |d.vols[m.pfrom]|
    requires d.vols[m.pfrom][i] == m.vol
    requires m.vol !in d.vols[m.pto]
    requires Hot(bounds, d, m.pfrom) && Spare(bounds, d, m.pfrom, m.vol) && Room(bounds, d, m.pto, m.vol)
    ensures Kept(bounds, b0, Apply(b, m), AfterMove(bounds, d, m.pfrom, i, m.pto), moves + [m], thrown)
  {
    ReplayAppend(b0, moves, m);
    ApplyKeepsOk(b, m);
    MoveTied(bounds, b, d, m, i);
    MoveComplete(bounds, b, d, thrown, m, i);
    MoveSettlesVols(bounds, b, d, moves, m, i);
    TimesOnce(moves, m, b, d, bounds);
    MoveEmptiedFirst(moves, m, b, d, bounds);
    MoveWellFormed(bounds, d, m.pfrom, i, m.pto);
    MoveWithinBounds(bounds, map p | p in b0.part :: b0.part[p].free, d, m.pfrom, i, m.pto);
  }

  lemma DiscardTied(b: Books, d: Desk, p: Partition, i: nat)
    requires Tied(b, d) && p in d.all && i < |d.vols[p]| && Distinct(d.vols[p])
    ensures Tied(b, AfterDiscard(d, p, i))
  {
    RemoveMembers(d.vols[p], i);
  }

  lemma DiscardComplete(b: Books, d: Desk, thrown: set<Volume>, p: Partition, i: nat)
    requires Ok(b) && Complete(b, d, thrown) && Known(d) && p in d.all && i < |d.vols[p]| && Distinct(d.vols[p])
    requires p in b.part && d.vols[p][i] in b.part[p].vols
    ensures Complete(b, AfterDiscard(d, p, i), thrown + {d.vols[p][i]})
  {
    RemoveMembers(d.vols[p], i);
    assert b.home[d.vols[p][i]] == p;
  }

  /** A discard keeps it. */
  lemma DiscardKept(bounds: Bounds, b0: Books, b: Books, d: Desk, moves: seq<Job>, thrown: set<Volume>, p: Partition,
                    i: nat)
    requires Kept(bounds, b0, b, d, moves, thrown) && p in d.all && i < |d.vols[p]|
    ensures Kept(bounds, b0, b, AfterDiscard(d, p, i), moves, thrown + {d.vols[p][i]})
    ensures AfterDiscard(d, p, i).free == d.free && AfterDiscard(d, p, i).all == d.all
    ensures WellFormed(AfterDiscard(d, p, i))
  {
    DiscardWellFormed(d, p, i);
    DiscardTied(b, d, p, i);
    DiscardComplete(b, d, thrown, p, i);
  }

  lemma SpaceMoved(d: Desk, p: Partition, v: Volume, q: Partition, ns: seq<PartNode>)
    requires Known(d) && p in d.all && q in d.all && p != q && InOrder(d.free, ns)
    ensures var d1 := MoveSpace(d, p, v, q);
      d1.all == d.all && Known(d1) && d1.vols == d.vols && InOrderBut(d1.free, ns, p, q)
  {
  }

  lemma ListedNotThrown(bounds: Bounds, b0: Books, b: Books, d: Desk, moves: seq<Job>, thrown: set<Volume>,
                        p: Partition, v: Volume)
    requires Kept(bounds, b0, b, d, moves, thrown) && p in d.all && p in d.vols && v in d.vols[p]
    ensures v !in thrown
  {
    assert v in b.part[p].vols;
  }

  lemma ListedLegal(b: Books, d: Desk, m: Job)
    requires Ok(b) && Tied(b, d) && m.pfrom in d.all && m.pto in d.all && m.pfrom != m.pto
    requires m.vol in d.vols[m.pfrom]
    requires m.sfrom == m.pfrom.who && m.sto == m.pto.who && m.bkexist == m.vol.bkexist
    ensures Legal(b, m) && m.vol !in d.vols[m.pto]
  {
    assert m.vol in b.part[m.pfrom].vols;
    hide Once;
  }

  /** Nothing has got worse by a discard from `p`, and if that was hot, there is less to move. */
  ghost predicate Cooled(bounds: Bounds, d: Desk, d': Desk, p: Partition)
    requires WellFormed(d) && WellFormed(d') && p in d.all
  {
    var (h, h') := (HotTotal(bounds, d, |d.all|), HotTotal(bounds, d', |d'.all|));
    h' <= h && Excess(bounds, d', |d'.all|) <= Excess(bounds, d, |d.all|) && (Hot(bounds, d, p) ==> h' < h)
  }

  lemma CooledIs(bounds: Bounds, d: Desk, d': Desk, p: Partition)
    requires WellFormed(d) && WellFormed(d') && p in d.all
    ensures Cooled(bounds, d, d', p) <==>
      && HotTotal(bounds, d', |d'.all|) <= HotTotal(bounds, d, |d.all|)
      && Excess(bounds, d', |d'.all|) <= Excess(bounds, d, |d.all|)
      && (Hot(bounds, d, p) ==> HotTotal(bounds, d', |d'.all|) < HotTotal(bounds, d, |d.all|))
  {
  }

  class MovePlanner {
    const agent: Agent
    const nvoltrans: int
    var ntransactions: int
    var moves: seq<Job>
    ghost var thrown: set<Volume>       // the volumes the agent was made to throw away
    ghost var foundLocked: set<Volume>  // those that were locked when they were to be moved

    constructor (agent: Agent, nvoltrans: int, ntransactions: int)
      ensures this.agent == agent && this.nvoltrans == nvoltrans && this.ntransactions == ntransactions && moves == []
      ensures thrown == foundLocked == {}
    {
      this.agent, this.nvoltrans, this.ntransactions, moves := agent, nvoltrans, ntransactions, [];
      thrown, foundLocked := {}, {};
    }

    /** Each volume's count is its number of moves in the list, and within the limit. */
    ghost predicate Counted(b: Books)
      reads this`moves, b.home.Keys`ntimes
    {
      forall v :: v in b.home ==> v.ntimes == Times(moves, v) && (nvoltrans >= 0 ==> v.ntimes <= nvoltrans)
    }

    /** A volume is thrown away because it was locked, or has been moved often enough. */
    ghost predicate Reasons(b: Books)
      reads this`thrown, this`foundLocked, b.home.Keys`ntimes
    {
      forall v :: v in b.home && v in thrown ==> v in foundLocked || v.ntimes == nvoltrans
    }

    ghost predicate Planning(b0: Books, b: Books, d: Desk, cs: seq<nat>)
      reads this`moves, this`thrown, this`foundLocked, agent`bounds, agent`partHt, agent`all, agent`wraps, agent`mover
      reads agent`destp, agent`destIdx
      reads agent.chain`head, agent.chain`tail, agent.chain`nodes
      reads agent.chain.nodes`next, agent.chain.nodes`prev, agent.chain.nodes`vols, agent.chain.nodes`cursor
      reads agent.wraps`vols, agent.wraps`cursor, agent.partHt.Keys`free
      reads b.part.Keys`free, b.part.Keys`nvols, b.part.Keys`vols, b.home.Keys`phome, b.home.Keys`ntimes
    {
      && Kept(agent.bounds, b0, b, d, moves, thrown) && Enters(b) && Counted(b) && Reasons(b)
      && agent.Working(d, cs) && InOrder(d.free, agent.chain.nodes)
    }

    lemma Unpack(b0: Books, b: Books, d: Desk, cs: seq<nat>)
      requires Planning(b0, b, d, cs)
      ensures Kept(agent.bounds, b0, b, d, moves, thrown) && Ok(b) && Tied(b, d) && SameSpace(b, d) && WellFormed(d)
      ensures Known(d)
      ensures agent.Working(d, cs) && agent.Indexed() && agent.Matches(d) && d.all == agent.all
      ensures Enters(b) && Counted(b) && Reasons(b) && InOrder(d.free, agent.chain.nodes)
    {
    }

    /** The open request is one the books and the agent can take. */
    lemma RequestLegal(b: Books, d: Desk, cs: seq<nat>, m: Job)
      requires Ok(b) && Tied(b, d) && WellFormed(d) && agent.Working(d, cs) && agent.mover == Some(m)
      ensures Legal(b, m) && m.pfrom in d.all && m.pto in d.all && m.pfrom != m.pto && m.vol !in d.vols[m.pto]
      ensures 0 < d.cursor[m.pfrom] <= |d.vols[m.pfrom]| && d.vols[m.pfrom][d.cursor[m.pfrom] - 1] == m.vol
      ensures Hot(agent.bounds, d, m.pfrom) && Spare(agent.bounds, d, m.pfrom, m.vol)
      ensures Room(agent.bounds, d, m.pto, m.vol)
      ensures SettledBut(agent.bounds, d, m.pfrom, d.cursor[m.pfrom] - 1)
    {
      hide *;
      agent.WorkingParts(d, cs);
      agent.WorkingSettled(d, cs);
      agent.OpenIs(d, m);
      NoNullMove(agent.bounds, d, m.pfrom, m.vol);
      ListedLegal(b, d, m);
    }

    /** Accepting the open request keeps what planning keeps, and leaves less to move. */
    lemma Acceptance(b0: Books, b: Books, d: Desk, cs: seq<nat>, m: Job) returns (i: nat)
      requires Planning(b0, b, d, cs) && agent.mover == Some(m)
      ensures Legal(b, m) && m.pfrom in d.all && m.pto in d.all && m.pfrom != m.pto && WellFormed(d)
      ensures i < |d.vols[m.pfrom]| && d.vols[m.pfrom][i] == m.vol
      ensures MoveKeeps(agent.bounds, b0, b, d, moves, thrown, m, i)
    {
      hide *;
      Unpack(b0, b, d, cs);
      RequestLegal(b, d, cs, m);
      i := d.cursor[m.pfrom] - 1;
      MoveKept(agent.bounds, b0, b, d, moves, thrown, m, i);
      MoveSettles(agent.bounds, d, m.pfrom, i, m.pto);
      MoveCools(agent.bounds, d, m.pfrom, i, m.pto);
      MoveLessensExcess(agent.bounds, d, m.pfrom, i, m.pto);
      MoveKeepsIs(agent.bounds, b0, b, d, moves, thrown, m, i);
    }

    /** Counts the move and puts it on the list. */
    method Count(m: Job, ghost b: Books)
      requires Counted(b) && Reasons(b) && Legal(b, m) && m.vol !in thrown && m.vol.ntimes != nvoltrans
      modifies m.vol`ntimes, this`moves
      ensures Counted(Apply(b, m)) && Reasons(Apply(b, m)) && moves == old(moves) + [m]
    {
      m.vol.ntimes := m.vol.ntimes + 1;
      moves := moves + [m];
      assert moves[..|moves| - 1] == old(moves);
    }

    /** Counts the move and enters it. */
    method Enter(m: Job, ghost b: Books, ghost b': Books, ghost d: Desk, ghost d1: Desk)
      requires Legal(b, m) && b' == Apply(b, m) && Enters(b) && Counted(b) && Reasons(b) && SameSpace(b, d)
      requires agent.Matches(d) && Known(d) && m.pfrom in d.all && m.pto in d.all && m.pfrom != m.pto
      requires d1 == MoveSpace(d, m.pfrom, m.vol, m.pto) && m.vol !in thrown && m.vol.ntimes != nvoltrans
      modifies m.vol`ntimes, m.vol`phome, m.pfrom`free, m.pfrom`nvols, m.pfrom`vols, m.pto`free, m.pto`nvols, m.pto`vols
      modifies this`moves
      ensures Enters(b') && Counted(b') && Reasons(b') && moves == old(moves) + [m] && agent.Matches(d1)
    {
      hide *;
      Count(m, b);
      EnterMove(agent, m, b, d);
    }

    /** Counts the move, enters it and tells the agent. */
    method Perform(m: Job, ghost b: Books, ghost b': Books, ghost d: Desk, ghost d1: Desk) returns (ghost i: nat)
      requires Legal(b, m) && b' == Apply(b, m) && Enters(b) && Counted(b) && Reasons(b) && SameSpace(b, d)
      requires agent.Matches(d) && m.pfrom in d.all && m.pto in d.all && d1 == MoveSpace(d, m.pfrom, m.vol, m.pto)
      requires agent.Indexed() && d.all == d1.all == agent.all && m.pfrom != m.pto && Known(d) && Known(d1)
      requires m.vol in d1.vols[m.pfrom]
      requires InOrderBut(d1.free, agent.chain.nodes, m.pfrom, m.pto) && m.vol !in thrown && m.vol.ntimes != nvoltrans
      modifies m.vol`ntimes, m.vol`phome, m.pfrom`free, m.pfrom`nvols, m.pfrom`vols, m.pto`free, m.pto`nvols, m.pto`vols
      modifies this`moves, agent`mover, agent.chain`head, agent.chain`tail, agent.chain`nodes
      modifies agent.wraps`next, agent.wraps`prev, agent.wraps`vols, agent.wraps`cursor
      ensures Enters(b') && Counted(b') && Reasons(b') && agent.Indexed() && InOrder(d1.free, agent.chain.nodes)
      ensures moves == old(moves) + [m]
      ensures agent.mover == if old(agent.mover) == Some(m) then None else old(agent.mover)
      ensures m.pfrom in d1.all && m.pto in d1.all && i < |d1.vols[m.pfrom]| && d1.vols[m.pfrom][i] == m.vol
      ensures agent.Matches(MoveLists(agent.bounds, d1, m.pfrom, i, m.pto))
    {
      hide *;
      Enter(m, b, b', d, d1);
      i := agent.SetRequest(m, d1);
    }

    /** What performing the open request asks for. */
    lemma Performable(b0: Books, b: Books, d: Desk, cs: seq<nat>, m: Job)
      requires Planning(b0, b, d, cs) && m.pfrom in d.all && m.pto in d.all && m.pfrom != m.pto
      requires m.vol in d.vols[m.pfrom]
      ensures Enters(b) && Counted(b) && Reasons(b) && agent.Indexed() && agent.Matches(d) && SameSpace(b, d)
      ensures Known(d) && WellFormed(d)
      ensures var d1 := MoveSpace(d, m.pfrom, m.vol, m.pto);
        && d.all == d1.all == agent.all && Known(d1) && m.vol in d1.vols[m.pfrom]
        && InOrderBut(d1.free, agent.chain.nodes, m.pfrom, m.pto)
      ensures m.vol !in thrown
    {
      hide *;
      Unpack(b0, b, d, cs);
      SpaceMoved(d, m.pfrom, m.vol, m.pto, agent.chain.nodes);
      ListedNotThrown(agent.bounds, b0, b, d, moves, thrown, m.pfrom, m.vol);
    }

    /** When the agent has been told, it is at work again. */
    lemma Followed(b0: Books, b: Books, b': Books, d: Desk, d1: Desk, ms: seq<Job>, m: Job, i: nat, j: nat)
      returns (d': Desk, cs: seq<nat>)
      requires Legal(b, m) && m.pfrom in d.all && m.pto in d.all && m.pfrom != m.pto && WellFormed(d)
      requires i < |d.vols[m.pfrom]| && d.vols[m.pfrom][i] == m.vol
      requires MoveKeeps(agent.bounds, b0, b, d, ms, thrown, m, i)
      requires d1 == MoveSpace(d, m.pfrom, m.vol, m.pto) && moves == ms + [m]
      requires j < |d1.vols[m.pfrom]| && d1.vols[m.pfrom][j] == m.vol
      requires agent.Matches(MoveLists(agent.bounds, d1, m.pfrom, j, m.pto))
      requires agent.Indexed() && agent.mover.None? && InOrder(d1.free, agent.chain.nodes)
      requires b' == Apply(b, m) && Enters(b') && Counted(b') && Reasons(b')
      ensures Planning(b0, b', d', cs)
      ensures HotTotal(agent.bounds, d', |d'.all|) < HotTotal(agent.bounds, d, |d.all|)
      ensures Lessened(agent.bounds, d, d', m.vol.size)
      ensures WellFormed(d') && m.pto in d'.all && m.pto in agent.all && m.vol in d'.vols[m.pto] && m.vol.phome == m.pto
    {
      assert i == j;
      d' := AfterMove(agent.bounds, d, m.pfrom, i, m.pto);
      InsertMembers(d.vols[m.pto], VolSlot(d.vols[m.pto], m.vol.size), m.vol);
      assert b'.home[m.vol] == m.pto;
      cs := agent.Rest(d');
    }

    /** Performs the agent's request. */
    method Accept(m: Job, ghost b0: Books, ghost b: Books, ghost d: Desk, ghost cs: seq<nat>)
      returns (ghost b': Books, ghost d': Desk, ghost cs': seq<nat>)
      requires Planning(b0, b, d, cs) && agent.mover == Some(m) && WellFormed(d) && m.vol.ntimes != nvoltrans
      modifies m.vol`ntimes, m.vol`phome, m.pfrom`free, m.pfrom`nvols, m.pfrom`vols, m.pto`free, m.pto`nvols, m.pto`vols
      modifies this`moves, agent`mover, agent.chain`head, agent.chain`tail, agent.chain`nodes
      modifies agent.wraps`next, agent.wraps`prev, agent.wraps`vols, agent.wraps`cursor
      ensures Planning(b0, b', d', cs') && agent.mover.None? && moves == old(moves) + [m]
      ensures WellFormed(d') && m.pto in d'.all && m.pto in agent.all && m.vol in d'.vols[m.pto] && m.vol.phome == m.pto
      ensures Legal(b, m) && b' == Apply(b, m)
      ensures HotTotal(agent.bounds, d', |d'.all|) < HotTotal(agent.bounds, d, |d.all|)
      ensures Lessened(agent.bounds, d, d', m.vol.size)
    {
      hide *;
      ghost var i := Acceptance(b0, b, d, cs, m);
      Performable(b0, b, d, cs, m);
      b' := Apply(b, m);
      d', cs' := AcceptWith(m, b0, b, b', d, MoveSpace(d, m.pfrom, m.vol, m.pto), cs);
    }

    method AcceptWith(m: Job, ghost b0: Books, ghost b: Books, ghost b': Books, ghost d: Desk, ghost d1: Desk,
                      ghost cs: seq<nat>)
      returns (ghost d': Desk, ghost cs': seq<nat>)
      requires Planning(b0, b, d, cs) && agent.mover == Some(m) && WellFormed(d) && m.vol.ntimes != nvoltrans
      requires Legal(b, m) && b' == Apply(b, m)
      requires Known(d) && m.pfrom in d.all && m.pto in d.all && m.pfrom != m.pto
      requires d1 == MoveSpace(d, m.pfrom, m.vol, m.pto)
      modifies m.vol`ntimes, m.vol`phome, m.pfrom`free, m.pfrom`nvols, m.pfrom`vols, m.pto`free, m.pto`nvols, m.pto`vols
      modifies this`moves, agent`mover, agent.chain`head, agent.chain`tail, agent.chain`nodes
      modifies agent.wraps`next, agent.wraps`prev, agent.wraps`vols, agent.wraps`cursor
      ensures Planning(b0, b', d', cs') && agent.mover.None? && moves == old(moves) + [m]
      ensures WellFormed(d') && m.pto in d'.all && m.pto in agent.all && m.vol in d'.vols[m.pto] && m.vol.phome == m.pto
      ensures HotTotal(agent.bounds, d', |d'.all|) < HotTotal(agent.bounds, d, |d.all|)
      ensures Lessened(agent.bounds, d, d', m.vol.size)
    {
      hide *;
      ghost var i := Acceptance(b0, b, d, cs, m);
      Performable(b0, b, d, cs, m);
      ghost var j := Perform(m, b, b', d, d1);
      d', cs' := Followed(b0, b, b', d, d1, old(moves), m, i, j);
    }

    // ----- polling

    lemma PlanningAtHome(b0: Books, b: Books, d: Desk, cs: seq<nat>)
      requires Planning(b0, b, d, cs)
      ensures agent.AtHome()
    {
      Unpack(b0, b, d, cs);
      forall n, v | n in agent.chain.nodes && v in n.vols ensures v.phome == n.part {
        assert n in agent.wraps && v in d.vols[n.part];
        assert b.home[v] == n.part;
      }
    }

    /** Moving cursors changes nothing else. */
    lemma CursorsKept(bounds: Bounds, b0: Books, b: Books, d: Desk, d': Desk)
      requires Kept(bounds, b0, b, d, moves, thrown) && d' == d.(cursor := d'.cursor) && WellFormed(d')
      ensures Kept(bounds, b0, b, d', moves, thrown) && HotTotal(bounds, d', |d'.all|) == HotTotal(bounds, d, |d.all|)
      ensures Excess(bounds, d', |d'.all|) == Excess(bounds, d, |d.all|)
    {
      hide LegalRun, Replay, Ok, HotTotal, Excess, Outcome.OncePerVolume, Drain.EmptiedFirst;
      HotTotalSame(bounds, d, d', |d.all|);
      ExcessSame(bounds, d, d', |d.all|);
    }

    lemma Repack(b0: Books, b: Books, d: Desk, cs: seq<nat>)
      requires Kept(agent.bounds, b0, b, d, moves, thrown) && Enters(b) && Counted(b) && Reasons(b)
      requires agent.Working(d, cs) && InOrder(d.free, agent.chain.nodes)
      ensures Planning(b0, b, d, cs)
    {
    }

    lemma ChainWrapped(b0: Books, b: Books, d: Desk, cs: seq<nat>)
      requires Planning(b0, b, d, cs)
      ensures forall n :: n in agent.chain.nodes ==> n in agent.wraps
    {
    }

    lemma Onwards(r: Option<Job>, j: nat, d: Desk, d': Desk)
      requires WellFormed(d) && WellFormed(d') && agent.Further(r, j, d, d')
      ensures Unvisited(d', |d'.all|) < Unvisited(d, |d.all|)
        || (Unvisited(d', |d'.all|) == Unvisited(d, |d.all|) && r.Some? && agent.destIdx < j)
    {
    }

    /** Asks the agent, when the partition of its open request did not let the volume in. */
    method Ask(ghost b0: Books, ghost b: Books, ghost d: Desk, ghost cs: seq<nat>)
      returns (r: Option<Job>, ghost d': Desk, ghost cs': seq<nat>)
      requires WellFormed(d) && Planning(b0, b, d, cs)
      requires agent.mover.Some? ==> !agent.mover.value.pto.Welcomes(agent.mover.value.vol)
      modifies agent.wraps`cursor, agent`mover, agent`destp, agent`destIdx
      ensures Planning(b0, b, d', cs') && r == agent.mover && WellFormed(d')
      ensures r.None? ==> Stuck(agent.bounds, d')
      ensures r.Some? ==> (Unvisited(d', |d'.all|) < Unvisited(d, |d.all|)
        || (Unvisited(d', |d'.all|) == Unvisited(d, |d.all|) && old(agent.mover).Some?
            && agent.destIdx < old(agent.destIdx)))
      ensures HotTotal(agent.bounds, d', |d'.all|) == HotTotal(agent.bounds, d, |d.all|)
      ensures Excess(agent.bounds, d', |d'.all|) <= Excess(agent.bounds, d, |d.all|)
    {
      hide *;
      ghost var r0, j := agent.mover, agent.destIdx;
      Unpack(b0, b, d, cs);
      PlanningAtHome(b0, b, d, cs);
      ChainWrapped(b0, b, d, cs);
      RefusedIs();
      r, d', cs' := agent.Poll(d, cs);
      Asked(b0, b, d, d', cs');
      if r.Some? {
        Onwards(r0, j, d, d');
      }
    }

    lemma RefusedIs()
      ensures agent.Refused() <==> (agent.mover.Some? ==> !agent.mover.value.pto.Welcomes(agent.mover.value.vol))
    {
    }

    lemma Asked(b0: Books, b: Books, d: Desk, d': Desk, cs': seq<nat>)
      requires Kept(agent.bounds, b0, b, d, moves, thrown) && Enters(b) && Counted(b) && Reasons(b)
      requires InOrder(d.free, agent.chain.nodes)
      requires agent.Working(d', cs') && d' == d.(cursor := d'.cursor) && WellFormed(d)
      ensures WellFormed(d') && Planning(b0, b, d', cs')
      ensures HotTotal(agent.bounds, d', |d'.all|) == HotTotal(agent.bounds, d, |d.all|)
      ensures Excess(agent.bounds, d', |d'.all|) <= Excess(agent.bounds, d, |d.all|)
    {
      hide *;
      agent.WorkingWellFormed(d', cs');
      CursorsKept(agent.bounds, b0, b, d, d');
      Repack(b0, b, d', cs');
    }

    lemma UnpackWork(b0: Books, b: Books, d: Desk, cs: seq<nat>)
      requires Planning(b0, b, d, cs)
      ensures Kept(agent.bounds, b0, b, d, moves, thrown) && Enters(b) && Counted(b) && Reasons(b)
      ensures agent.Working(d, cs) && InOrder(d.free, agent.chain.nodes)
    {
    }

    /** Makes the agent throw a volume away. */
    method Discard(v: Volume, ghost p: Partition, ghost b0: Books, ghost b: Books, ghost d: Desk, ghost cs: seq<nat>)
      returns (ghost d': Desk, ghost cs': seq<nat>)
      requires WellFormed(d) && p in d.all && p == v.phome && p in agent.all && v in d.vols[p] && Planning(b0, b, d, cs)
      requires v in foundLocked || v.ntimes == nvoltrans
      requires agent.mover.Some? ==> agent.mover.value.pfrom == p && agent.mover.value.vol == v
      modifies this`thrown, agent`mover, agent.wraps`vols, agent.wraps`cursor
      ensures WellFormed(d') && Planning(b0, b, d', cs') && agent.mover.None?
      ensures Cooled(agent.bounds, d, d', p)
    {
      hide *;
      UnpackWork(b0, b, d, cs);
      ghost var i;
      i, d', cs' := agent.Discard(v, d, cs);
      Throw(v, b);
      Discarded(b0, b, d, p, i, old(thrown), d', cs');
    }

    ghost method Throw(v: Volume, b: Books)
      requires Reasons(b) && (v in foundLocked || v.ntimes == nvoltrans)
      modifies this`thrown
      ensures Reasons(b) && thrown == old(thrown) + {v}
    {
      thrown := thrown + {v};
    }

    lemma Discarded(b0: Books, b: Books, d: Desk, p: Partition, i: nat, thrown0: set<Volume>, d': Desk, cs': seq<nat>)
      requires Kept(agent.bounds, b0, b, d, moves, thrown0) && Enters(b) && Counted(b) && Reasons(b)
      requires InOrder(d.free, agent.chain.nodes)
      requires WellFormed(d) && p in d.all && i < |d.vols[p]| && d' == AfterDiscard(d, p, i) && agent.Working(d', cs')
      requires thrown == thrown0 + {d.vols[p][i]}
      ensures WellFormed(d') && Planning(b0, b, d', cs')
      ensures Cooled(agent.bounds, d, d', p)
    {
      hide *;
      DiscardKept(agent.bounds, b0, b, d, moves, thrown0, p, i);
      DiscardCools(agent.bounds, d, p, i);
      ExcessSame(agent.bounds, d, d', |d.all|);
      CooledIs(agent.bounds, d, d', p);
      Repack(b0, b, d', cs');
    }

    /** The open request's volume is listed where it is, on a hot partition. */
    lemma OpenRequest(b0: Books, b: Books, d: Desk, cs: seq<nat>, m: Job)
      requires Planning(b0, b, d, cs) && agent.mover == Some(m)
      ensures WellFormed(d) && m.pfrom in d.all && m.pfrom == m.vol.phome && m.pfrom in agent.all
      ensures m.vol in d.vols[m.pfrom]
      ensures Hot(agent.bounds, d, m.pfrom) && m.vol in b.home
    {
      Unpack(b0, b, d, cs);
      RequestLegal(b, d, cs, m);
    }

    ghost method FindLocked(v: Volume, b: Books)
      requires Reasons(b)
      modifies this`foundLocked
      ensures Reasons(b) && foundLocked == old(foundLocked) + {v}
    {
      foundLocked := foundLocked + {v};
    }

    ghost method Note(v: Volume, b0: Books, b: Books, d: Desk, cs: seq<nat>)
      requires Planning(b0, b, d, cs)
      modifies this`foundLocked
      ensures Planning(b0, b, d, cs) && foundLocked == old(foundLocked) + {v}
    {
      hide *;
      Unpack(b0, b, d, cs);
      FindLocked(v, b);
      Repack(b0, b, d, cs);
    }

    /** Looks at a request whose partition lets the volume in: it is refused, and its volume thrown away, if
        that is locked or has been moved often enough. */
    method Consider(m: Job, ghost b0: Books, ghost b: Books, ghost d: Desk, ghost cs: seq<nat>)
      returns (doit: bool, ghost d': Desk, ghost cs': seq<nat>)
      requires WellFormed(d) && Planning(b0, b, d, cs) && agent.mover == Some(m)
      modifies this`thrown, this`foundLocked, agent.wraps`cursor, agent.wraps`vols, agent`mover
      ensures WellFormed(d') && Planning(b0, b, d', cs')
      ensures doit ==> d' == d && agent.mover == Some(m) && m.vol.ntimes != nvoltrans
      ensures !doit ==> agent.mover.None? && Excess(agent.bounds, d', |d'.all|) <= Excess(agent.bounds, d, |d.all|)
      ensures !doit ==> HotTotal(agent.bounds, d', |d'.all|) < HotTotal(agent.bounds, d, |d.all|)
    {
      hide *;
      d', cs' := d, cs;
      doit := agent.QueryRequest(m);
      if doit {
        var locked: bool := *;
        if m.vol.ntimes == nvoltrans || locked {
          OpenRequest(b0, b, d, cs, m);
          if locked {
            Note(m.vol, b0, b, d, cs);
          }
          d', cs' := Discard(m.vol, m.pfrom, b0, b, d, cs);
          CooledIs(agent.bounds, d, d', m.pfrom);
          doit := false;
        }
      }
    }

    /** Keeps asking the agent until it gives up or has a request that can be performed: its partition
        lets the volume in, and the volume is not locked and has not been moved too often. */
    method NextMove(ghost b0: Books, ghost b: Books, ghost d: Desk, ghost cs: seq<nat>)
      returns (mover: Option<Job>, ghost d': Desk, ghost cs': seq<nat>)
      requires Planning(b0, b, d, cs) && agent.mover.None? && WellFormed(d)
      modifies this`thrown, this`foundLocked, agent.wraps`cursor, agent.wraps`vols, agent`mover, agent`destp
      modifies agent`destIdx
      ensures Planning(b0, b, d', cs') && mover == agent.mover && WellFormed(d')
      ensures HotTotal(agent.bounds, d', |d'.all|) <= HotTotal(agent.bounds, d, |d.all|)
      ensures Excess(agent.bounds, d', |d'.all|) <= Excess(agent.bounds, d, |d.all|)
      ensures mover.None? ==> Stuck(agent.bounds, d')
      ensures mover.Some? ==> mover.value.pto.Welcomes(mover.value.vol) && mover.value.vol.ntimes != nvoltrans
    {
      hide *;
      d', cs' := d, cs;
      while true
        invariant Planning(b0, b, d', cs') && WellFormed(d')
        invariant agent.mover.Some? ==> !agent.mover.value.pto.Welcomes(agent.mover.value.vol)
        invariant HotTotal(agent.bounds, d', |d'.all|) <= HotTotal(agent.bounds, d, |d.all|)
        invariant Excess(agent.bounds, d', |d'.all|) <= Excess(agent.bounds, d, |d.all|)
        decreases HotTotal(agent.bounds, d', |d'.all|), Unvisited(d', |d'.all|),
                  if agent.mover.Some? then agent.destIdx else 0
      {
        mover, d', cs' := Ask(b0, b, d', cs');
        if mover.None? {
          return;
        }
        if mover.value.pto.Welcomes(mover.value.vol) {
          var doit;
          doit, d', cs' := Consider(mover.value, b0, b, d', cs');
          if doit {
            return;
          }
        }
      }
    }

    /** The books are always about the same partitions and volumes. */
    lemma SameKeys(b0: Books, b: Books, d: Desk, cs: seq<nat>)
      requires Ok(b0) && Planning(b0, b, d, cs)
      ensures b.part.Keys == b0.part.Keys && b.home.Keys == b0.home.Keys
    {
      ReplayKeeps(b0, moves);
    }

    lemma CountedWithin(b0: Books, b: Books, d: Desk, cs: seq<nat>)
      requires Ok(b0) && Planning(b0, b, d, cs)
      ensures WithinLimit(moves, b0, nvoltrans)
    {
      SameKeys(b0, b, d, cs);
      if nvoltrans >= 0 {
        MovesBounded(moves, b.home.Keys, nvoltrans);
      }
    }

    lemma InBooks(b0: Books, b: Books, d: Desk, cs: seq<nat>, m: Job)
      requires Ok(b0) && Planning(b0, b, d, cs) && agent.mover == Some(m)
      ensures m.vol in b0.home.Keys && m.pfrom in b0.part.Keys && m.pto in b0.part.Keys
      ensures !(m.sfrom == m.sto && m.pfrom == m.pto)
    {
      Unpack(b0, b, d, cs);
      RequestLegal(b, d, cs, m);
      SameKeys(b0, b, d, cs);
    }

    /** Performs a request, and throws its volume away if it has now been moved often enough. */
    method Move(m: Job, ghost b0: Books, ghost b: Books, ghost d: Desk, ghost cs: seq<nat>)
      returns (ghost b': Books, ghost d': Desk, ghost cs': seq<nat>)
      requires WellFormed(d) && Planning(b0, b, d, cs) && agent.mover == Some(m) && m.vol.ntimes != nvoltrans
      modifies m.vol`ntimes, m.vol`phome, m.pfrom`free, m.pfrom`nvols, m.pfrom`vols, m.pto`free, m.pto`nvols, m.pto`vols
      modifies this`moves, this`thrown, agent`mover, agent.chain`head, agent.chain`tail, agent.chain`nodes
      modifies agent.wraps`next, agent.wraps`prev, agent.wraps`vols, agent.wraps`cursor
      ensures WellFormed(d') && Planning(b0, b', d', cs') && agent.mover.None? && moves == old(moves) + [m]
      ensures HotTotal(agent.bounds, d', |d'.all|) < HotTotal(agent.bounds, d, |d.all|)
      ensures Lessened(agent.bounds, d, d', m.vol.size)
    {
      hide *;
      b', d', cs' := Accept(m, b0, b, d, cs);
      if m.vol.ntimes == nvoltrans {
        ghost var d1 := d';
        d', cs' := Discard(m.vol, m.pto, b0, b', d', cs');
        CooledIs(agent.bounds, d1, d', m.pto);
        LessenedThen(agent.bounds, d, d1, d', m.vol.size);
      }
    }

    /** One round of the loop: the next request, if any, is performed. */
    method Round(ghost b0: Books, ghost b: Books, ghost d: Desk, ghost cs: seq<nat>)
      returns (activity: bool, ghost b': Books, ghost d': Desk, ghost cs': seq<nat>)
      requires WellFormed(d) && Ok(b0) && Planning(b0, b, d, cs) && agent.mover.None?
      modifies b0.home.Keys`ntimes, b0.home.Keys`phome, b0.part.Keys`free, b0.part.Keys`nvols, b0.part.Keys`vols
      modifies this`moves, this`thrown, this`foundLocked, this`ntransactions, agent`mover, agent`destp, agent`destIdx
      modifies agent.chain`head, agent.chain`tail, agent.chain`nodes
      modifies agent.wraps`next, agent.wraps`prev, agent.wraps`vols, agent.wraps`cursor
      ensures WellFormed(d') && Planning(b0, b', d', cs') && agent.mover.None?
      ensures activity ==> |moves| == |old(moves)| + 1 && ntransactions == old(ntransactions) - 1
      ensures HotTotal(agent.bounds, d', |d'.all|) <= HotTotal(agent.bounds, d, |d.all|)
      ensures Excess(agent.bounds, d', |d'.all|) <= Excess(agent.bounds, d, |d.all|)
      ensures activity ==> HotTotal(agent.bounds, d', |d'.all|) < HotTotal(agent.bounds, d, |d.all|)
      ensures activity ==>
        moves[..|moves| - 1] == old(moves) && Lessened(agent.bounds, d, d', moves[|moves| - 1].vol.size)
          && Admits(moves[|moves| - 1].pto, moves[|moves| - 1].vol)
      ensures !activity ==> moves == old(moves) && ntransactions == old(ntransactions) && Stuck(agent.bounds, d')
    {
      hide *;
      var mover;
      mover, d', cs' := NextMove(b0, b, d, cs);
      ghost var d1 := d';
      b', activity := b, mover.Some?;
      if mover.Some? {
        InBooks(b0, b, d', cs', mover.value);
        WelcomesExactly(mover.value.pto, mover.value.vol);
        if mover.value.sfrom == mover.value.sto && mover.value.pfrom == mover.value.pto {
          assert false;   // a null transaction
        }
        b', d', cs' := Move(mover.value, b0, b, d', cs');
        ThenLessened(agent.bounds, d, d1, d', mover.value.vol.size);
        ntransactions := ntransactions - 1;
      }
    }

    /** The balance loop: moves are performed until the agent gives up or the limit is reached. */
    method Balance(ghost b0: Books, ghost d0: Desk, ghost cs0: seq<nat>)
      returns (ghost b: Books, ghost d: Desk, ghost cs: seq<nat>)
      requires WellFormed(d0) && Ok(b0) && Planning(b0, b0, d0, cs0) && agent.mover.None? && moves == []
      modifies b0.home.Keys`ntimes, b0.home.Keys`phome, b0.part.Keys`free, b0.part.Keys`nvols, b0.part.Keys`vols
      modifies this`moves, this`thrown, this`foundLocked, this`ntransactions, agent`mover, agent`destp, agent`destIdx
      modifies agent.chain`head, agent.chain`tail, agent.chain`nodes
      modifies agent.wraps`next, agent.wraps`prev, agent.wraps`vols, agent.wraps`cursor
      ensures WellFormed(d) && Planning(b0, b, d, cs)
      ensures ntransactions == old(ntransactions) - |moves|
      ensures old(ntransactions) > 0 ==> |moves| <= old(ntransactions)
      ensures old(ntransactions) <= 0 || |moves| < old(ntransactions) ==> Stuck(agent.bounds, d)
      ensures Lessened(agent.bounds, d0, d, Carried(moves)) && Admitted(moves)
    {
      hide *;
      b, d, cs := b0, d0, cs0;
      NothingCarried(agent.bounds, d0);
      NoneAdmitted();
      var activity := true;
      while activity
        invariant WellFormed(d) && Planning(b0, b, d, cs) && agent.mover.None?
        invariant ntransactions == old(ntransactions) - |moves|
        invariant old(ntransactions) > 0 ==> |moves| < old(ntransactions)
        invariant !activity ==> Stuck(agent.bounds, d)
        invariant Lessened(agent.bounds, d0, d, Carried(moves)) && Admitted(moves)
        decreases HotTotal(agent.bounds, d, |d.all|), activity
      {
        ghost var d1, ms := d, moves;
        activity, b, d, cs := Round(b0, b, d, cs);
        MoreCarried(agent.bounds, d0, d1, d, ms, moves, activity);
        MoreAdmitted(ms, moves);
        if activity && ntransactions == 0 {
          return;
        }
      }
    }
  }

  /** Every move goes to a partition that lets the volume in. */
  ghost predicate Admitted(moves: seq<Job>) {
    forall t :: 0 <= t < |moves| ==> Admits(moves[t].pto, moves[t].vol)
  }

  lemma NoneAdmitted()
    ensures Admitted([])
  {
  }

  lemma MoreAdmitted(moves: seq<Job>, moves': seq<Job>)
    requires Admitted(moves)
    requires moves' == moves || (|moves'| == |moves| + 1 && moves'[..|moves'| - 1] == moves
      && Admits(moves'[|moves'| - 1].pto, moves'[|moves'| - 1].vol))
    ensures Admitted(moves')
  {
    hide Admits;
    forall t | 0 <= t < |moves'| ensures Admits(moves'[t].pto, moves'[t].vol) {
      if t < |moves| {
        assert moves'[t] == moves[t];
      }
    }
  }

  /** The size of all volumes moved. */
  ghost function Carried(moves: seq<Job>): nat {
    if moves == [] then 0 else Carried(moves[..|moves| - 1]) + moves[|moves| - 1].vol.size
  }

  lemma NothingCarried(bounds: Bounds, d: Desk)
    requires WellFormed(d)
    ensures Lessened(bounds, d, d, Carried([]))
  {
  }

  lemma MoreCarried(bounds: Bounds, d0: Desk, d: Desk, d': Desk, moves: seq<Job>, moves': seq<Job>, activity: bool)
    requires WellFormed(d0) && WellFormed(d) && WellFormed(d') && Lessened(bounds, d0, d, Carried(moves))
    requires Excess(bounds, d', |d'.all|) <= Excess(bounds, d, |d.all|)
    requires if activity then
        |moves'| == |moves| + 1 && moves'[..|moves'| - 1] == moves
          && Lessened(bounds, d, d', moves'[|moves'| - 1].vol.size)
      else moves' == moves
    ensures Lessened(bounds, d0, d', Carried(moves'))
  {
  }

  lemma LessenedThen(bounds: Bounds, d: Desk, d1: Desk, d2: Desk, size: nat)
    requires WellFormed(d) && WellFormed(d1) && WellFormed(d2) && Lessened(bounds, d, d1, size)
    requires Excess(bounds, d2, |d2.all|) <= Excess(bounds, d1, |d1.all|)
    ensures Lessened(bounds, d, d2, size)
  {
  }

  lemma ThenLessened(bounds: Bounds, d: Desk, d1: Desk, d2: Desk, size: nat)
    requires WellFormed(d) && WellFormed(d1) && WellFormed(d2) && Lessened(bounds, d1, d2, size)
    requires Excess(bounds, d1, |d1.all|) <= Excess(bounds, d, |d.all|)
    ensures Lessened(bounds, d, d2, size) && Excess(bounds, d2, |d2.all|) <= Excess(bounds, d, |d.all|)
  {
  }

  /** What a move does, on values. */
  ghost predicate MoveKeeps(bounds: Bounds, b0: Books, b: Books, d: Desk, moves: seq<Job>, thrown: set<Volume>, m: Job,
                            i: nat)
    requires WellFormed(d) && m.pfrom in d.all && m.pto in d.all && m.pfrom != m.pto && i < |d.vols[m.pfrom]|
    requires Legal(b, m)
  {
    var d' := AfterMove(bounds, d, m.pfrom, i, m.pto);
    && Kept(bounds, b0, Apply(b, m), d', moves + [m], thrown) && Settled(bounds, d')
    && HotTotal(bounds, d', |d'.all|) < HotTotal(bounds, d, |d.all|) && Lessened(bounds, d, d', m.vol.size)
  }

  lemma MoveKeepsIs(bounds: Bounds, b0: Books, b: Books, d: Desk, moves: seq<Job>, thrown: set<Volume>, m: Job, i: nat)
    requires WellFormed(d) && m.pfrom in d.all && m.pto in d.all && m.pfrom != m.pto && i < |d.vols[m.pfrom]|
    requires Legal(b, m)
    requires WellFormed(AfterMove(bounds, d, m.pfrom, i, m.pto))
    requires Kept(bounds, b0, Apply(b, m), AfterMove(bounds, d, m.pfrom, i, m.pto), moves + [m], thrown)
    requires Settled(bounds, AfterMove(bounds, d, m.pfrom, i, m.pto))
    requires HotTotal(bounds, AfterMove(bounds, d, m.pfrom, i, m.pto), |d.all|) < HotTotal(bounds, d, |d.all|)
    requires Excess(bounds, AfterMove(bounds, d, m.pfrom, i, m.pto), |d.all|) <= Excess(bounds, d, |d.all|)
    requires m.vol.size > 0 ==>
      Excess(bounds, AfterMove(bounds, d, m.pfrom, i, m.pto), |d.all|) < Excess(bounds, d, |d.all|)
    requires d.vols[m.pfrom][i] == m.vol
    ensures MoveKeeps(bounds, b0, b, d, moves, thrown, m, i)
  {
    hide Kept, Settled, HotTotal, Excess, Legal;
  }

  // ----- the whole planner

  /** How far the partitions are above the bound for moving, all together, by the books. */
  ghost function TotalExcess(bounds: Bounds, b: Books, parts: seq<Partition>): real {
    if parts == [] then 0.0
    else
      var p := parts[|parts| - 1];
      TotalExcess(bounds, b, parts[..|parts| - 1])
      + if p in b.part && OccOf(b.part[p].free, p.size) > bounds.move
        then OccOf(b.part[p].free, p.size) - bounds.move else 0.0
  }

  lemma {:induction false} ExcessEntered(bounds: Bounds, b: Books, d: Desk, k: nat)
    requires WellFormed(d) && SameSpace(b, d) && k <= |d.all|
    ensures Excess(bounds, d, k) == TotalExcess(bounds, b, d.all[..k])
  {
    if k > 0 {
      ExcessEntered(bounds, b, d, k - 1);
      assert d.all[..k][..k - 1] == d.all[..k - 1];
      assert d.all[..k][k - 1] == d.all[k - 1];
      hide WellFormed;
    }
  }

  /** By the books, the excess has not grown, and has fallen if any volume that is not empty was moved. */
  ghost predicate Relieved(bounds: Bounds, b0: Books, b: Books, parts: seq<Partition>, moves: seq<Job>) {
    && TotalExcess(bounds, b, parts) <= TotalExcess(bounds, b0, parts)
    && (Carried(moves) > 0 ==> TotalExcess(bounds, b, parts) < TotalExcess(bounds, b0, parts))
  }

  lemma RelievedBy(bounds: Bounds, b0: Books, d0: Desk, b: Books, d: Desk, moves: seq<Job>)
    requires WellFormed(d0) && SameSpace(b0, d0) && WellFormed(d) && SameSpace(b, d) && d.all == d0.all
    requires Lessened(bounds, d0, d, Carried(moves))
    ensures Relieved(bounds, b0, b, d.all, moves)
  {
    ExcessEntered(bounds, b0, d0, |d.all|);
    ExcessEntered(bounds, b, d, |d.all|);
    assert d.all[..|d.all|] == d.all;
  }

  /** Compared with the beginning, no partition has newly risen above the bound for moving, and none
      has newly fallen to the lower bound. */
  ghost predicate InWindow(bounds: Bounds, b0: Books, b: Books) {
    forall p :: p in b.part && p in b0.part ==>
      var (occ0, occ) := (OccOf(b0.part[p].free, p.size), OccOf(b.part[p].free, p.size));
      (occ > bounds.move ==> occ <= occ0) && (occ > bounds.lower || occ >= occ0)
  }

  /** Every volume left on a partition above the bound for moving would leave it too empty, or has no
      partition that wants it and has room, unless it was found locked. */
  ghost predicate LocallyOptimal(bounds: Bounds, b: Books, foundLocked: set<Volume>) {
    forall p, v :: p in b.part && v in b.part[p].vols
      && OccOf(b.part[p].free, p.size) > bounds.move && v !in foundLocked
      && OccOf(b.part[p].free + v.size, p.size) > bounds.lower
      ==> forall q :: q in b.part && OccOf(b.part[q].free - v.size, q.size) < bounds.move ==> !Admits(q, v)
  }

  lemma KeptInWindow(bounds: Bounds, b0: Books, b: Books, d: Desk, moves: seq<Job>, thrown: set<Volume>)
    requires Kept(bounds, b0, b, d, moves, thrown)
    ensures InWindow(bounds, b0, b)
  {
    forall p | p in b.part && p in b0.part
      ensures var (occ0, occ) := (OccOf(b0.part[p].free, p.size), OccOf(b.part[p].free, p.size));
        (occ > bounds.move ==> occ <= occ0) && (occ > bounds.lower || occ >= occ0)
    {
      assert p in d.all && d.free[p] == b.part[p].free;
    }
  }

  lemma {:induction false} TimesMoved(moves: seq<Job>, v: Volume) returns (t: nat)
    requires Times(moves, v) > 0
    ensures t < |moves| && moves[t].vol == v
  {
    var k := |moves| - 1;
    if moves[k].vol == v {
      t := k;
    } else {
      t := TimesMoved(moves[..k], v);
    }
  }

  lemma HotNotThrown(bounds: Bounds, b: Books, d: Desk, moves: seq<Job>, thrown: set<Volume>, foundLocked: set<Volume>,
                     nvoltrans: int, v: Volume)
    requires Tied(b, d) && Settles(bounds, b, d, moves) && nvoltrans != 0
    requires v in b.home && b.home[v] in d.all && Hot(bounds, d, b.home[v]) && v !in foundLocked
    requires v in thrown ==> v in foundLocked || Times(moves, v) == nvoltrans
    ensures v !in thrown
  {
    if v in thrown {
      var t := TimesMoved(moves, v);
      assert false;
    }
  }

  lemma NotWelcome(bounds: Bounds, b: Books, d: Desk, thrown: set<Volume>, p: Partition, v: Volume, q: Partition)
    requires Tied(b, d) && WellFormed(d) && Complete(b, d, thrown) && Stuck(bounds, d)
    requires p in b.part && q in b.part && v in b.part[p].vols && v !in thrown
    requires Hot(bounds, d, p) && Spare(bounds, d, p, v) && OccOf(b.part[q].free - v.size, q.size) < bounds.move
    ensures !q.Welcomes(v)
  {
    assert v in d.vols[p] && !Movable(bounds, d, p, v);
    if q.Welcomes(v) {
      assert Room(bounds, d, q, v);
    }
  }

  lemma NowhereToGo(bounds: Bounds, b: Books, d: Desk, moves: seq<Job>, thrown: set<Volume>, foundLocked: set<Volume>,
                    nvoltrans: int, p: Partition, v: Volume, q: Partition)
    requires Ok(b) && Tied(b, d) && WellFormed(d) && Complete(b, d, thrown) && Settles(bounds, b, d, moves)
    requires Stuck(bounds, d) && nvoltrans != 0
    requires v in b.home && v in thrown ==> v in foundLocked || Times(moves, v) == nvoltrans
    requires p in b.part && v in b.part[p].vols && OccOf(b.part[p].free, p.size) > bounds.move && v !in foundLocked
    requires OccOf(b.part[p].free + v.size, p.size) > bounds.lower
    requires q in b.part && OccOf(b.part[q].free - v.size, q.size) < bounds.move
    ensures !q.Welcomes(v)
  {
    assert b.home[v] == p;
    hide Settles, Times, Stuck, Complete;
    HotNotThrown(bounds, b, d, moves, thrown, foundLocked, nvoltrans, v);
    NotWelcome(bounds, b, d, thrown, p, v, q);
  }

  lemma KeptParts(bounds: Bounds, b0: Books, b: Books, d: Desk, moves: seq<Job>, thrown: set<Volume>)
    requires Kept(bounds, b0, b, d, moves, thrown)
    ensures Ok(b) && Tied(b, d) && WellFormed(d) && Complete(b, d, thrown) && Settles(bounds, b, d, moves)
  {
  }

  /** A volume moved once is on a partition that needs no balancing, so whatever was thrown away on a
      hot partition had been found locked. */
  lemma StuckIsOptimal(bounds: Bounds, b0: Books, b: Books, d: Desk, moves: seq<Job>, thrown: set<Volume>,
                       foundLocked: set<Volume>, nvoltrans: int)
    requires Kept(bounds, b0, b, d, moves, thrown) && Stuck(bounds, d) && nvoltrans != 0
    requires forall v :: v in b.home && v in thrown ==> v in foundLocked || Times(moves, v) == nvoltrans
    ensures LocallyOptimal(bounds, b, foundLocked)
  {
    hide Kept, Ok, Tied, WellFormed, Complete, Settles, Stuck, Times, Admits, Partition.Welcomes;
    KeptParts(bounds, b0, b, d, moves, thrown);
    forall p, v, q | p in b.part && v in b.part[p].vols
      && OccOf(b.part[p].free, p.size) > bounds.move && v !in foundLocked
      && OccOf(b.part[p].free + v.size, p.size) > bounds.lower
      && q in b.part && OccOf(b.part[q].free - v.size, q.size) < bounds.move
      ensures !Admits(q, v)
    {
      NowhereToGo(bounds, b, d, moves, thrown, foundLocked, nvoltrans, p, v, q);
      WelcomesExactly(q, v);
    }
  }

  lemma {:induction false} OnceTimes(moves: seq<Job>, v: Volume)
    requires Outcome.OncePerVolume(moves)
    ensures Times(moves, v) <= 1
  {
    if moves != [] {
      var k := |moves| - 1;
      OnceTimes(moves[..k], v);
      if moves[k].vol == v && Times(moves[..k], v) > 0 {
        var t := TimesMoved(moves[..k], v);
        assert false;
      }
    }
  }

  /** Nothing has been moved yet. */
  lemma Beginning(bounds: Bounds, b0: Books, d: Desk)
    requires Ok(b0) && WellFormed(d) && (forall p :: p in d.all ==> p in b0.part)
    requires (forall p :: p in b0.part ==> p in d.all)
    requires forall p :: p in d.all ==> d.free[p] == b0.part[p].free && multiset(d.vols[p]) == multiset(b0.part[p].vols)
    ensures Kept(bounds, b0, b0, d, [], {})
  {
    forall p, v | p in d.all ensures v in d.vols[p] <==> v in b0.part[p].vols {
      assert v in multiset(d.vols[p]) <==> v in multiset(b0.part[p].vols);
    }
  }

  /** What the planner has made, when the books are at the end and at the beginning. */
  ghost predicate Planned(moves: seq<Job>, bounds: Bounds, b0: Books, b: Books, foundLocked: set<Volume>,
                          nvoltrans: int, ntransactions: int)
  {
    && LegalRun(b0, moves) && b == Replay(b0, moves) && Outcome.OncePerVolume(moves) && Drain.EmptiedFirst(moves)
    && InWindow(bounds, b0, b) && WithinLimit(moves, b0, nvoltrans)
    && (ntransactions > 0 ==> |moves| <= ntransactions) && Admitted(moves)
    && (nvoltrans != 0 && (ntransactions <= 0 || |moves| < ntransactions) ==> LocallyOptimal(bounds, b, foundLocked))
  }

  lemma PlannedFrom(planner: MovePlanner, b0: Books, b: Books, d: Desk, cs: seq<nat>, ntransactions: int)
    requires Ok(b0) && WellFormed(d) && planner.Planning(b0, b, d, cs)
    requires ntransactions > 0 ==> |planner.moves| <= ntransactions
    requires Admitted(planner.moves)
    requires ntransactions <= 0 || |planner.moves| < ntransactions ==> Stuck(planner.agent.bounds, d)
    ensures Planned(planner.moves, planner.agent.bounds, b0, b, planner.foundLocked, planner.nvoltrans, ntransactions)
    ensures Enters(b) && forall v :: v in b.home ==> v.ntimes == Times(planner.moves, v) <= 1
  {
    planner.Unpack(b0, b, d, cs);
    KeptInWindow(planner.agent.bounds, b0, b, d, planner.moves, planner.thrown);
    planner.CountedWithin(b0, b, d, cs);
    if planner.nvoltrans != 0 && Stuck(planner.agent.bounds, d) {
      StuckIsOptimal(planner.agent.bounds, b0, b, d, planner.moves, planner.thrown, planner.foundLocked,
                     planner.nvoltrans);
    }
    forall v | v in b.home ensures Times(planner.moves, v) <= 1 {
      OnceTimes(planner.moves, v);
    }
  }

  lemma ListsDistinct(parts: seq<Partition>, b0: Books)
    requires Ok(b0) && Enters(b0) && forall p :: p in parts ==> p in b0.part
    ensures forall p :: p in parts ==> Distinct(p.vols)
  {
    forall p | p in parts ensures Distinct(p.vols) {
      assert Once(b0.part[p].vols);
    }
  }

  lemma {:induction false} UsedSame(free: map<Partition, int>, free': map<Partition, int>, ps: seq<Partition>)
    requires forall p :: p in ps ==> p in free && p in free' && free[p] == free'[p]
    ensures Used(free, ps) == Used(free', ps)
  {
    if ps != [] {
      UsedSame(free, free', ps[..|ps| - 1]);
    }
  }

  /** The used space of the partitions, by the books. */
  ghost function UsedSpace(b: Books, ps: seq<Partition>): int
    requires forall p :: p in ps ==> p in b.part
  {
    Used(map p | p in b.part :: b.part[p].free, ps)
  }

  /** The window is the one that the source defines for the used and the total space of the cell. */
  lemma WindowFits(b: Books, parts: seq<Partition>, precision: real)
    requires forall p :: p in parts ==> p in b.part
    ensures Around(WindowOf(b, parts, precision), UsedSpace(b, parts), Space(parts), precision)
  {
    WindowMeets(map p | p in b.part :: b.part[p].free, parts, precision);
    hide Around, Used, Space, Window;
  }

  /** The window around the average occupancy of the cell. */
  ghost function WindowOf(b: Books, parts: seq<Partition>, precision: real): Bounds
    requires forall p :: p in parts ==> p in b.part
  {
    Window(Average(UsedSpace(b, parts), Space(parts)), precision)
  }

  lemma WindowFrom(b0: Books, parts: seq<Partition>, precision: real, d: Desk, agent: Agent)
    requires Enters(b0) && agent.Matches(d) && agent.all == parts && agent.Indexed()
    requires forall p :: p in parts ==> p in b0.part
    requires (forall p :: p in parts ==> p in d.free)
    requires agent.bounds == Window(Average(Used(d.free, parts), Space(parts)), precision)
    ensures agent.bounds == WindowOf(b0, parts, precision)
  {
    UsedSame(d.free, map p | p in b0.part :: b0.part[p].free, parts);
  }

  lemma Begun(planner: MovePlanner, b0: Books, d: Desk) returns (cs: seq<nat>)
    requires Ok(b0) && Enters(b0) && planner.moves == [] && planner.thrown == {}
    requires planner.agent.Indexed() && planner.agent.Matches(d) && WellFormed(d)
    requires InOrder(d.free, planner.agent.chain.nodes)
    requires planner.agent.mover.None?
    requires (forall p :: p in planner.agent.all ==> p in b0.part)
    requires (forall p :: p in b0.part ==> p in planner.agent.all)
    requires forall p :: p in planner.agent.all ==> d.cursor[p] == 0 && multiset(d.vols[p]) == multiset(p.vols)
    requires forall v :: v in b0.home ==> v.ntimes == 0
    ensures planner.Planning(b0, b0, d, cs)
  {
    Beginning(planner.agent.bounds, b0, d);
    cs := planner.agent.Rest(d);
  }

  /** An agent that has learnt the cell. */
  method NewAgent(parts: seq<Partition>, precision: real, ghost b0: Books) returns (agent: Agent, ghost d: Desk)
    requires Ok(b0) && Enters(b0) && Distinct(parts) && forall p :: p in parts ==> p in b0.part
    ensures fresh(agent) && fresh(agent.chain) && fresh(agent.wraps) && agent.mover.None? && agent.all == parts
    ensures agent.Indexed() && agent.Matches(d) && WellFormed(d) && InOrder(d.free, agent.chain.nodes)
    ensures forall p :: p in parts ==> d.cursor[p] == 0 && multiset(d.vols[p]) == multiset(p.vols)
    ensures agent.bounds == WindowOf(b0, parts, precision)
  {
    hide *;
    ListsDistinct(parts, b0);
    agent := new Agent(precision);
    d := agent.Servconf(parts);
    WindowFrom(b0, parts, precision, d, agent);
  }

  /** Sets up the agent and the planner. */
  method SetUp(parts: seq<Partition>, precision: real, nvoltrans: int, ntransactions: int, ghost b0: Books)
    returns (planner: MovePlanner, ghost d: Desk, ghost cs: seq<nat>)
    requires Ok(b0) && Enters(b0) && Distinct(parts)
    requires (forall p :: p in parts ==> p in b0.part) && (forall p :: p in b0.part ==> p in parts)
    requires forall v :: v in b0.home ==> v.ntimes == 0
    ensures fresh(planner) && fresh(planner.agent) && fresh(planner.agent.chain) && fresh(planner.agent.wraps)
    ensures planner.nvoltrans == nvoltrans && planner.ntransactions == ntransactions && planner.moves == []
    ensures planner.agent.mover.None? && planner.agent.all == parts
    ensures WellFormed(d) && planner.Planning(b0, b0, d, cs) && planner.agent.bounds == WindowOf(b0, parts, precision)
  {
    hide *;
    var agent;
    agent, d := NewAgent(parts, precision, b0);
    planner := new MovePlanner(agent, nvoltrans, ntransactions);
    cs := Begun(planner, b0, d);
  }

  /** Plans the moves of a cell with the size-balancing agent alone. */
  method PlanCell(parts: seq<Partition>, precision: real, nvoltrans: int, ntransactions: int, ghost b0: Books)
    returns (moves: seq<Job>, ghost b: Books, ghost bounds: Bounds, ghost foundLocked: set<Volume>)
    requires Ok(b0) && Enters(b0) && Distinct(parts)
    requires (forall p :: p in parts ==> p in b0.part) && (forall p :: p in b0.part ==> p in parts)
    requires forall v :: v in b0.home ==> v.ntimes == 0
    modifies b0.home.Keys`ntimes, b0.home.Keys`phome, b0.part.Keys`free, b0.part.Keys`nvols, b0.part.Keys`vols
    ensures bounds == WindowOf(b0, parts, precision)
    ensures Around(bounds, UsedSpace(b0, parts), Space(parts), precision)
    ensures Planned(moves, bounds, b0, b, foundLocked, nvoltrans, ntransactions)
    ensures Enters(b) && forall v :: v in b.home ==> v.ntimes == Times(moves, v) <= 1
    ensures Relieved(bounds, b0, b, parts, moves)
  {
    hide *;
    var planner;
    ghost var d, cs, d0;
    WindowFits(b0, parts, precision);
    planner, d0, cs := SetUp(parts, precision, nvoltrans, ntransactions, b0);
    planner.Unpack(b0, b0, d0, cs);
    b, d, cs := planner.Balance(b0, d0, cs);
    planner.Unpack(b0, b, d, cs);
    RelievedBy(planner.agent.bounds, b0, d0, b, d, planner.moves);
    PlannedFrom(planner, b0, b, d, cs, ntransactions);
    moves, bounds, foundLocked := planner.moves, planner.agent.bounds, planner.foundLocked;
  }

  lemma PlannedIs(moves: seq<Job>, bounds: Bounds, b0: Books, b: Books, foundLocked: set<Volume>, nvoltrans: int,
                  ntransactions: int)
    requires Planned(moves, bounds, b0, b, foundLocked, nvoltrans, ntransactions)
    ensures LegalRun(b0, moves) && b == Replay(b0, moves) && Outcome.OncePerVolume(moves) && Drain.EmptiedFirst(moves)
  {
  }

  /** Every undisturbed run of a plan, with backups and with any number of slots, that has come to its end
      has carried out the whole plan, in whatever order, and ends with the books the planner ended
      with. */
  lemma PlannedRun(moves: seq<Job>, bounds: Bounds, b0: Books, b: Books, foundLocked: set<Volume>, nvoltrans: int,
                   ntransactions: int, n: int, evs: seq<Schedule.Event>)
    requires Ok(b0) && Planned(moves, bounds, b0, b, foundLocked, nvoltrans, ntransactions) && n != 0
    requires Schedule.Run(moves, Schedule.Start(moves, n, b0.home), evs) && Drain.CalmRun(evs)
    requires Schedule.After(moves, Schedule.Start(moves, n, b0.home), evs).pc.Done?
    ensures Schedule.After(moves, Schedule.Start(moves, n, b0.home), evs).todo == []
    ensures Schedule.After(moves, Schedule.Start(moves, n, b0.home), evs).place == b.home
  {
    hide *;
    PlannedIs(moves, bounds, b0, b, foundLocked, nvoltrans, ntransactions);
    Drain.EmptiedFirstDrains(moves, n, b0.home);
    DrainsMeans(moves, n, b0.home, evs);
    CalmIsOk(evs);
    Outcome.DrainedRunIsSerial(moves, n, b0.home, evs);
    ReplayKeeps(b0, moves);
  }

  lemma DrainsMeans(moves: seq<Job>, n: int, place: map<Volume, Partition>, evs: seq<Schedule.Event>)
    requires Drain.Drains(moves, n, place)
    requires Schedule.Run(moves, Schedule.Start(moves, n, place), evs) && Drain.CalmRun(evs)
    requires Schedule.After(moves, Schedule.Start(moves, n, place), evs).pc.Done?
    ensures Schedule.After(moves, Schedule.Start(moves, n, place), evs).todo == []
  {
  }

  lemma CalmIsOk(evs: seq<Schedule.Event>)
    requires Drain.CalmRun(evs)
    ensures Outcome.AllOk(evs)
  {
    forall i | 0 <= i < |evs| && evs[i].Finish? ensures evs[i].ok {
      assert Drain.Calm(evs[i]);
    }
  }

  /** At every point of every run of a plan, failures and interrupts included, each move that is being
      carried out names the partition its volume is really on. */
  lemma PlannedMovesAreReal(moves: seq<Job>, bounds: Bounds, b0: Books, b: Books, foundLocked: set<Volume>,
                            nvoltrans: int, ntransactions: int, n: int, evs: seq<Schedule.Event>, t: nat)
    requires Ok(b0) && Planned(moves, bounds, b0, b, foundLocked, nvoltrans, ntransactions)
    requires Schedule.Run(moves, Schedule.Start(moves, n, b0.home), evs)
    requires t in Schedule.After(moves, Schedule.Start(moves, n, b0.home), evs).running
    ensures var e := Schedule.After(moves, Schedule.Start(moves, n, b0.home), evs);
      t < |moves| && t < |e.stage|
      && (e.stage[t] == RwMove ==> moves[t].vol in e.place && e.place[moves[t].vol] == moves[t].pfrom)
  {
    PlannedIs(moves, bounds, b0, b, foundLocked, nvoltrans, ntransactions);
    LegalIsConsistent(b0, moves);
    var e := Schedule.Start(moves, n, b0.home);
    Outcome.StartWaiting(moves, n, b0.home);
    Schedule.StartInv(moves, n, b0.home);
    Outcome.IssuedMovesAreReal(moves, n, e, evs);
    Schedule.Safety(moves, n, e, evs);
  }
}
